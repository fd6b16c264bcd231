/**
 * The dashboard's read-only HTTP routes. They sit behind the token check
 * only, not behind the bridge, so the caller is the verified token's `sub`
 * and a request without one is answered 401. They read the same tables as
 * the tool handlers.
 */
module Dashboard {

  import opened Wrappers
  import opened Nutrition
  import opened Records
  import opened Dates
  import opened Aggregation
  import opened Tables
  import opened Store
  import Text
  import EntraAuth

  /** What a route answers: 401, a failed request, or a JSON body. */
  datatype Response<T> = Unauthorized | Failed | Json(body: T)

  /**
   * `(req as any).auth?.payload?.sub`: present only when the token library
   * left a payload with a non-empty `sub`. A request whose `auth` had been
   * rewritten by the bridge has no `payload`, and so no caller here.
   */
  function DashboardUserId(auth: EntraAuth.RequestAuth): (r: Option<string>)
    ensures r.Some? <==>
      auth.Verified? && auth.verified.payload.Some? && Truthy(auth.verified.payload.value.sub)
    ensures r.Some? ==> r == auth.verified.payload.value.sub
  {
    if auth.Verified? && auth.verified.payload.Some? && Truthy(auth.verified.payload.value.sub) then
      auth.verified.payload.value.sub
    else None
  }

  /** The routes and the tool handlers identify a caller by the same `sub`. */
  lemma DashboardAndToolsAgreeOnCaller(req: EntraAuth.RequestAuth)
    requires req.Verified? && req.verified.payload.Some?
    ensures DashboardUserId(req) ==
      GetUserId(EntraAuth.HandlerAuthInfo(EntraAuth.Bridged(EntraAuth.ToAuthInfo(req.verified.token, req.verified.payload.value))))
  {
  }

  /**
   * `parseInt(req.query.days) || 7`: `None` stands for text that does not
   * parse (NaN); zero is falsy as well and also gives 7. Nothing bounds the
   * result.
   */
  function RequestedDays(parsed: Option<int>): (r: int)
    ensures r != 0
    ensures parsed.None? || parsed.value == 0 ==> r == 7
    ensures parsed.Some? && parsed.value != 0 ==> r == parsed.value
  {
    if parsed.None? || parsed.value == 0 then 7 else parsed.value
  }

  /** `Math.min(parseInt(req.query.days) || 7, 90)`: capped above at 90, not bounded below. */
  function HistoryDays(parsed: Option<int>): (r: int)
    ensures r <= 90 && r != 0
    ensures r == if RequestedDays(parsed) <= 90 then RequestedDays(parsed) else 90
  {
    var d := RequestedDays(parsed);
    if d < 90 then d else 90
  }

  // ---------------------------------------------------------------------------
  // GET /meals
  // ---------------------------------------------------------------------------

  /** An item as `/meals` lists it: unrounded, four macro fields. */
  datatype ItemView = ItemView(
    name: Option<string>,
    quantity: Option<real>,
    calories: Option<real>,
    protein: Option<real>,
    fat: Option<real>,
    carbs: Option<real>)

  /** An entry as `/meals` lists it. */
  datatype MealView = MealView(
    id: Id,
    loggedAt: string,
    timeOfDay: Option<MealType>,
    schemaName: Option<string>,
    notes: Option<string>,
    items: seq<ItemView>)

  /** The `/meals` body: the day, the entries the query returned, their JSON form, and the totals. */
  datatype MealsBody = MealsBody(date: string, entries: seq<LoadedEntry>, meals: seq<MealView>, totals: Macros)

  function HasId(id: Id): MealSchema -> bool {
    (s: MealSchema) => s.id == id
  }

  /** `entry.mealSchema?.name ?? null`: the name of the template the entry refers to, if it still exists. */
  function SchemaNameOf(schemas: seq<MealSchema>, schemaId: Option<Id>): (r: Option<string>)
    ensures r.Some? <==> schemaId.Some? && schemaId.value in SchemaIds(schemas)
    ensures r.Some? ==> exists s :: s in schemas && s.id == schemaId.value && s.name == r.value
  {
    if schemaId.None? then None
    else
      var i := FirstIndex(schemas, HasId(schemaId.value));
      if i.Some? then Some(schemas[i.value].name)
      else
        assert forall s :: s in schemas ==> s.id != schemaId.value by {
          forall s | s in schemas ensures s.id != schemaId.value {
            var k :| 0 <= k < |schemas| && schemas[k] == s;
            assert !HasId(schemaId.value)(schemas[k]);
          }
        }
        None
  }

  function ItemViewOf(it: Item): ItemView {
    var m := it.line.macros;
    ItemView(it.line.name, it.line.quantity, m.calories, m.protein, m.fat, m.carbs)
  }

  function MealViewOf(schemas: seq<MealSchema>, l: LoadedEntry): (r: MealView)
    ensures |r.items| == |l.items|
  {
    var e := l.entry;
    MealView(e.id, e.loggedAt, e.timeOfDay, SchemaNameOf(schemas, e.schemaId), e.notes,
             seq(|l.items|, k requires 0 <= k < |l.items| => ItemViewOf(l.items[k])))
  }

  /**
   * The `totals` object of `/meals`: every one of the seven fields, rounded
   * as displayed when some item had a value for it, 0 otherwise.
   */
  function Reported(t: Macros): (r: Macros)
    ensures forall f :: Get(r, f).Some?
    ensures forall f :: Get(t, f).None? ==> Get(r, f) == Some(0.0)
    ensures forall f :: Get(t, f).Some? ==> Get(r, f) == Some(RoundField(f, Get(t, f).value))
  {
    Build(f => Some(if Get(t, f).Some? then RoundField(f, Get(t, f).value) else 0.0))
  }

  /**
   * `/meals`: the caller's entries of the day (today by default) in time
   * order, each with its items and template name, and the day's totals.
   */
  method Meals(store: NutritionStore, auth: EntraAuth.RequestAuth, date: Option<string>, clock: Clock)
    returns (r: Response<MealsBody>)
    ensures DashboardUserId(auth).None? ==> r == Unauthorized
    ensures DashboardUserId(auth).Some? ==>
      var day := OrElse(date, Today(clock));
      && r.Json?
      && r.body.date == day
      && Text.SortedBy(r.body.entries, LoggedAtKey)
      && multiset(r.body.entries) == multiset(SelectMeals(store.Db(), DashboardUserId(auth).value, day, day, None))
      && |r.body.meals| == |r.body.entries|
      && (forall k :: 0 <= k < |r.body.meals| ==> r.body.meals[k] == MealViewOf(store.schemas, r.body.entries[k]))
      && r.body.totals == Reported(Totals(AllMacros(r.body.entries)))
  {
    var user := DashboardUserId(auth);
    if user.None? {
      return Unauthorized;
    }
    var day := OrElse(date, Today(clock));
    var selected := SelectMeals(store.Db(), user.value, day, day, None);
    var sorted := Text.SortBy(selected, LoggedAtKey);
    Text.SortBySorted(selected, LoggedAtKey);
    var totals := GrandTotals(sorted);
    var schemas := store.schemas;
    var meals := seq(|sorted|, k requires 0 <= k < |sorted| => MealViewOf(schemas, sorted[k]));
    r := Json(MealsBody(day, sorted, meals, Reported(totals)));
  }

  /**
   * For the same day, `/meals` and `get_daily_summary` see the same entries
   * (each in its own order) and so report the same totals: a field the
   * summary prints has the same rounded value, and one it leaves out is 0
   * on the dashboard.
   */
  lemma MealsTotalsMatchDailySummary(dashboard: seq<LoadedEntry>, summary: seq<LoadedEntry>, f: MacroField)
    requires multiset(dashboard) == multiset(summary)
    ensures Get(Reported(Totals(AllMacros(dashboard))), f) ==
      Some(Get(Displayed(Totals(AllMacros(summary)), EveryField), f).GetOr(0.0))
  {
    TotalsOfReorderedEntries(dashboard, summary);
  }

  // ---------------------------------------------------------------------------
  // GET /metrics
  // ---------------------------------------------------------------------------

  /** A metric with its recent entries, newest first. */
  datatype MetricView = MetricView(metric: Metric, entries: seq<MetricEntry>)

  /** The `/metrics` body. */
  datatype MetricsBody = MetricsBody(days: int, metrics: seq<MetricView>)

  function OwnedBy(userId: string): Metric -> bool {
    (m: Metric) => m.userId == userId
  }

  function MetricNameKey(m: Metric): string {
    m.name
  }

  function ViewNameKey(v: MetricView): string {
    v.metric.name
  }

  /** `where: { date: { gte: fromDate } }` on one metric's entries. */
  function RecentOf(metricId: Id, fromDate: string): MetricEntry -> bool {
    (x: MetricEntry) => x.metricId == metricId && Text.LexLe(fromDate, x.date)
  }

  function RecentEntries(entries: seq<MetricEntry>, metricId: Id, fromDate: string): (r: seq<MetricEntry>)
    ensures forall i, j :: 0 <= i < j < |r| ==> Text.LexLe(r[j].date, r[i].date)
    ensures multiset(r) == multiset(Filter(entries, RecentOf(metricId, fromDate)))
    ensures forall x :: x in r <==> x in entries && x.metricId == metricId && Text.LexLe(fromDate, x.date)
  {
    var p := RecentOf(metricId, fromDate);
    var selected := Filter(entries, p);
    Text.SortByDescendingSorted(selected, DateKey);
    var sorted := Text.SortByDescending(selected, DateKey);
    assert forall x :: x in sorted <==> x in entries && p(x) by {
      forall x ensures x in sorted <==> x in entries && p(x) {
        FilterMembership(entries, p, x);
        assert x in sorted <==> x in multiset(sorted);
      }
    }
    sorted
  }

  /** A reordering of the caller's metrics lists each of them and nothing else. */
  lemma OwnedMetricsListed(metrics: seq<Metric>, userId: string, listed: seq<Metric>)
    requires multiset(listed) == multiset(Filter(metrics, OwnedBy(userId)))
    ensures forall k :: 0 <= k < |listed| ==> listed[k] in metrics && listed[k].userId == userId
    ensures forall m :: m in metrics && m.userId == userId ==> exists k :: 0 <= k < |listed| && listed[k] == m
  {
    forall k | 0 <= k < |listed| ensures listed[k] in metrics && listed[k].userId == userId {
      assert listed[k] in multiset(listed);
      FilterMembership(metrics, OwnedBy(userId), listed[k]);
    }
    forall m | m in metrics && m.userId == userId ensures exists k :: 0 <= k < |listed| && listed[k] == m {
      FilterMembership(metrics, OwnedBy(userId), m);
      assert m in multiset(listed);
    }
  }

  /** The metrics a `/metrics` body lists, in its order. */
  function MetricsOf(views: seq<MetricView>): (r: seq<Metric>)
    ensures |r| == |views| && forall k :: 0 <= k < |views| ==> r[k] == views[k].metric
  {
    seq(|views|, k requires 0 <= k < |views| => views[k].metric)
  }

  function ViewsOf(metrics: seq<Metric>, entries: seq<MetricEntry>, fromDate: string): (r: seq<MetricView>)
    ensures |r| == |metrics|
    ensures forall k :: 0 <= k < |r| ==> r[k] == MetricView(metrics[k], RecentEntries(entries, metrics[k].id, fromDate))
  {
    seq(|metrics|, k requires 0 <= k < |metrics| => MetricView(metrics[k], RecentEntries(entries, metrics[k].id, fromDate)))
  }

  /**
   * `/metrics`: every metric of the caller, by name, each with its entries
   * dated from `days` days ago on (seven by default), newest first. When
   * that instant lies outside the range of `Date`, `toISOString` throws and
   * the request fails.
   */
  method Metrics(store: NutritionStore, auth: EntraAuth.RequestAuth, daysParam: Option<int>, clock: Clock)
    returns (r: Response<MetricsBody>)
    ensures DashboardUserId(auth).None? ==> r == Unauthorized
    ensures DashboardUserId(auth).Some? && !ShiftRepresentable(clock, RequestedDays(daysParam)) ==> r == Failed
    ensures DashboardUserId(auth).Some? && ShiftRepresentable(clock, RequestedDays(daysParam)) ==>
      var user := DashboardUserId(auth).value;
      var fromDate := DaysAgo(clock, RequestedDays(daysParam));
      && r.Json?
      && r.body.days == RequestedDays(daysParam)
      && Text.SortedBy(r.body.metrics, ViewNameKey)
      && multiset(MetricsOf(r.body.metrics)) == multiset(Filter(store.metrics, OwnedBy(user)))
      && (forall k :: 0 <= k < |r.body.metrics| ==>
            r.body.metrics[k].metric in store.metrics && r.body.metrics[k].metric.userId == user)
      && (forall m :: m in store.metrics && m.userId == user ==>
            exists k :: 0 <= k < |r.body.metrics| && r.body.metrics[k].metric == m)
      && (forall k :: 0 <= k < |r.body.metrics| ==>
            r.body.metrics[k].entries == RecentEntries(store.metricEntries, r.body.metrics[k].metric.id, fromDate))
  {
    var user := DashboardUserId(auth);
    if user.None? {
      return Unauthorized;
    }
    var days := RequestedDays(daysParam);
    if !ShiftRepresentable(clock, days) {
      return Failed;
    }
    var fromDate := DaysAgo(clock, days);
    var owned := Filter(store.metrics, OwnedBy(user.value));
    var sorted := Text.SortBy(owned, MetricNameKey);
    Text.SortBySorted(owned, MetricNameKey);
    var views := ViewsOf(sorted, store.metricEntries, fromDate);
    assert MetricsOf(views) == sorted;
    OwnedMetricsListed(store.metrics, user.value, sorted);
    r := Json(MetricsBody(days, views));
  }

  // ---------------------------------------------------------------------------
  // GET /nutrition-history
  // ---------------------------------------------------------------------------

  /** One day's running sums; a bucket starts at zero. */
  datatype Bucket = Bucket(calories: real, protein: real, fat: real, carbs: real)

  const EmptyBucket: Bucket := Bucket(0.0, 0.0, 0.0, 0.0)

  function Plus(a: Bucket, b: Bucket): Bucket {
    Bucket(a.calories + b.calories, a.protein + b.protein, a.fat + b.fat, a.carbs + b.carbs)
  }

  /** Reference definition: the four sums over a list of items, an unset value counting as 0. */
  function BucketOf(ms: seq<Macros>): Bucket {
    Bucket(FieldSum(ms, Calories), FieldSum(ms, Protein), FieldSum(ms, Fat), FieldSum(ms, Carbs))
  }

  lemma BucketOfAppend(a: seq<Macros>, b: seq<Macros>)
    ensures BucketOf(a + b) == Plus(BucketOf(a), BucketOf(b))
  {
    FieldSumAppend(a, b, Calories);
    FieldSumAppend(a, b, Protein);
    FieldSumAppend(a, b, Fat);
    FieldSumAppend(a, b, Carbs);
  }

  /**
   * The inner loop of the bucket pass: `if (item.calories != null)
   * bucket.calories += item.calories`, and the same for protein, fat and
   * carbs.
   */
  method AddToBucket(b: Bucket, items: seq<Item>) returns (r: Bucket)
    ensures r == Plus(b, BucketOf(ItemMacros(items)))
  {
    r := b;
    for j := 0 to |items|
      invariant r == Plus(b, BucketOf(ItemMacros(items[..j])))
    {
      var m := items[j].line.macros;
      ItemMacrosSnoc(items, j);
      BucketOfAppend(ItemMacros(items[..j]), [m]);
      assert [m][..0] == [];
      r := Bucket(
        if m.calories.Some? then r.calories + m.calories.value else r.calories,
        if m.protein.Some? then r.protein + m.protein.value else r.protein,
        if m.fat.Some? then r.fat + m.fat.value else r.fat,
        if m.carbs.Some? then r.carbs + m.carbs.value else r.carbs);
    }
    assert items[..|items|] == items;
  }

  /** The entries of one calendar day: `entry.loggedAt.toISOString().slice(0, 10) == day`. */
  function OnDay(es: seq<LoadedEntry>, day: string): seq<LoadedEntry> {
    Filter(es, (l: LoadedEntry) => DayOf(l.entry.loggedAt) == day)
  }

  lemma OnDaySnoc(es: seq<LoadedEntry>, e: LoadedEntry, day: string)
    ensures OnDay(es + [e], day) == if DayOf(e.entry.loggedAt) == day then OnDay(es, day) + [e] else OnDay(es, day)
  {
    assert (es + [e])[..|es|] == es;
  }

  /**
   * The two bucket loops: a zero bucket for every date, then every entry's
   * items added into the bucket of the entry's day, if that day has one.
   */
  method DayBuckets(dates: seq<string>, es: seq<LoadedEntry>) returns (buckets: map<string, Bucket>)
    ensures forall d :: d in buckets <==> d in dates
    ensures forall d :: d in buckets ==> buckets[d] == BucketOf(AllMacros(OnDay(es, d)))
  {
    buckets := map[];
    for k := 0 to |dates|
      invariant forall d :: d in buckets <==> d in dates[..k]
      invariant forall d :: d in buckets ==> buckets[d] == EmptyBucket
    {
      buckets := buckets[dates[k] := EmptyBucket];
    }
    assert dates[..|dates|] == dates;
    assert es[..0] == [];

    for i := 0 to |es|
      invariant forall d :: d in buckets <==> d in dates
      invariant forall d :: d in buckets ==> buckets[d] == BucketOf(AllMacros(OnDay(es[..i], d)))
    {
      var e := es[i];
      var day := DayOf(e.entry.loggedAt);
      assert es[..i + 1] == es[..i] + [e];
      if day in buckets {
        var b := AddToBucket(buckets[day], e.items);
        OnDaySnoc(es[..i], e, day);
        AllMacrosSnoc(OnDay(es[..i], day), e);
        BucketOfAppend(AllMacros(OnDay(es[..i], day)), ItemMacros(e.items));
        buckets := buckets[day := b];
      }
      forall d | d in buckets && d != day ensures OnDay(es[..i + 1], d) == OnDay(es[..i], d) {
        OnDaySnoc(es[..i], e, d);
      }
    }
    assert es[..|es|] == es;
  }

  /**
   * The `dates` loop: `days` consecutive days ending today, oldest first;
   * none when `days` is not positive.
   */
  method HistoryDates(days: int, clock: Clock) returns (dates: seq<string>)
    ensures |dates| == if days > 0 then days else 0
    ensures forall k :: 0 <= k < |dates| ==> dates[k] == clock.dayText(clock.today - days + 1 + k)
    ensures ValidClock(clock) && InCalendar(clock.today - days + 1) ==>
      forall i, j :: 0 <= i < j < |dates| ==> Text.LexLe(dates[i], dates[j]) && dates[i] != dates[j]
    ensures days > 0 ==> dates[|dates| - 1] == Today(clock)
  {
    dates := [];
    var i := days - 1;
    while i >= 0
      invariant i >= -1 || i == days - 1
      invariant |dates| == days - 1 - i
      invariant forall k :: 0 <= k < |dates| ==> dates[k] == clock.dayText(clock.today - days + 1 + k)
      decreases i
    {
      dates := dates + [clock.dayText(clock.today - i)];
      i := i - 1;
    }
  }

  /** One point of the series: the day and its sums, rounded as displayed. */
  datatype HistoryPoint = HistoryPoint(date: string, calories: int, protein: real, fat: real, carbs: real)

  /** The `/nutrition-history` body. */
  datatype HistoryBody = HistoryBody(days: int, series: seq<HistoryPoint>)

  function PointOf(date: string, b: Bucket): HistoryPoint {
    HistoryPoint(date, RoundInt(b.calories), Round1(b.protein), Round1(b.fat), Round1(b.carbs))
  }

  /**
   * One point for each of the `n` days ending today, oldest first, each
   * summing the items of the entries of `selected` logged that day.
   */
  predicate SeriesOf(series: seq<HistoryPoint>, selected: seq<LoadedEntry>, n: int, clock: Clock) {
    && |series| == n
    && forall k :: 0 <= k < |series| ==>
         var day := clock.dayText(clock.today - n + 1 + k);
         series[k] == PointOf(day, BucketOf(AllMacros(OnDay(selected, day))))
  }

  /**
   * The route's query: the caller's entries, with their items, from the
   * first millisecond of the first of the `n` days to the last millisecond
   * of today.
   */
  function HistoryRows(db: Tables, userId: string, n: int, clock: Clock): seq<LoadedEntry> {
    SelectMeals(db, userId, clock.dayText(clock.today - n + 1), Today(clock), None)
  }

  lemma LoadSnoc(es: seq<Entry>, e: Entry, items: seq<Item>)
    ensures Load(es + [e], items) == Load(es, items) + [LoadedEntry(e, ItemsOf(items, e.id))]
  {
  }

  /**
   * Picking the entries of one day out of a range query gives the query of
   * that day, when every entry of the range that lies on the day satisfies
   * the day query and no other entry does.
   */
  lemma {:induction false} DayOfRange(es: seq<Entry>, items: seq<Item>, range: Entry -> bool, dayQuery: Entry -> bool, day: string)
    requires forall e :: e in es ==> (range(e) && DayOf(e.loggedAt) == day <==> dayQuery(e))
    ensures OnDay(Load(Filter(es, range), items), day) == Load(Filter(es, dayQuery), items)
    decreases |es|
  {
    if es != [] {
      var init, e := es[..|es| - 1], es[|es| - 1];
      assert es == init + [e];
      DayOfRange(init, items, range, dayQuery, day);
      if range(e) {
        LoadSnoc(Filter(init, range), e, items);
        OnDaySnoc(Load(Filter(init, range), items), LoadedEntry(e, ItemsOf(items, e.id)), day);
      }
      if dayQuery(e) {
        LoadSnoc(Filter(init, dayQuery), e, items);
      }
    }
  }

  /** An entry of a day inside a range of days is in the range query exactly when it is in the day query. */
  lemma DayWithinRange(e: Entry, userId: string, first: string, day: string, last: string)
    requires IsInstant(e.loggedAt) && |first| == 10 && |day| == 10 && |last| == 10
    requires Text.LexLe(first, day) && Text.LexLe(day, last)
    ensures InMealLog(e, userId, first, last, None) && DayOf(e.loggedAt) == day <==> InMealLog(e, userId, day, day, None)
  {
    InRangeByDay(e.loggedAt, first, last);
    InRangeOneDay(e.loggedAt, day);
  }

  /** The day's entries out of a range query of days around it are that day's query. */
  lemma DayOfRangeQuery(db: Tables, userId: string, first: string, day: string, last: string)
    requires forall e :: e in db.entries ==> IsInstant(e.loggedAt)
    requires |first| == 10 && |day| == 10 && |last| == 10
    requires Text.LexLe(first, day) && Text.LexLe(day, last)
    ensures OnDay(SelectMeals(db, userId, first, last, None), day) == SelectMeals(db, userId, day, day, None)
  {
    var range := MealLogFilter(userId, first, last, None);
    var dayQuery := MealLogFilter(userId, day, day, None);
    forall e | e in db.entries ensures range(e) && DayOf(e.loggedAt) == day <==> dayQuery(e) {
      DayWithinRange(e, userId, first, day, last);
    }
    DayOfRange(db.entries, db.items, range, dayQuery, day);
  }

  lemma CalendarRunsForward(clock: Clock, a: int, b: int)
    requires ValidClock(clock) && InCalendar(a) && InCalendar(b) && a <= b
    ensures |clock.dayText(a)| == 10 && |clock.dayText(b)| == 10
    ensures Text.LexLe(clock.dayText(a), clock.dayText(b))
  {
    if a == b {
      Text.LexLeReflexive(clock.dayText(a));
    }
  }

  lemma HistoryDayOfOrderedDays(db: Tables, userId: string, n: int, k: int, clock: Clock)
    requires |clock.dayText(clock.today - n + 1)| == 10 && |clock.dayText(clock.today - n + 1 + k)| == 10
    requires |clock.dayText(clock.today)| == 10
    requires Text.LexLe(clock.dayText(clock.today - n + 1), clock.dayText(clock.today - n + 1 + k))
    requires Text.LexLe(clock.dayText(clock.today - n + 1 + k), clock.dayText(clock.today))
    requires forall e :: e in db.entries ==> IsInstant(e.loggedAt)
    ensures var day := clock.dayText(clock.today - n + 1 + k);
      OnDay(HistoryRows(db, userId, n, clock), day) == SelectMeals(db, userId, day, day, None)
  {
    var first, day, last := clock.dayText(clock.today - n + 1), clock.dayText(clock.today - n + 1 + k), Today(clock);
    assert HistoryRows(db, userId, n, clock) == SelectMeals(db, userId, first, last, None);
    DayOfRangeQuery(db, userId, first, day, last);
  }

  /**
   * With canonical timestamps, a calendar that runs forward and a history
   * that starts no earlier than 0000-01-01, the point of
   * day `k` of the history sums exactly the entries `get_daily_summary`
   * selects for that day.
   */
  lemma HistoryDayIsThatDaysMeals(db: Tables, userId: string, n: int, k: int, clock: Clock)
    requires ValidClock(clock) && 0 <= k < n && InCalendar(clock.today - n + 1)
    requires forall e :: e in db.entries ==> IsInstant(e.loggedAt)
    ensures var day := clock.dayText(clock.today - n + 1 + k);
      OnDay(HistoryRows(db, userId, n, clock), day) == SelectMeals(db, userId, day, day, None)
  {
    var a, b := clock.today - n + 1, clock.today - n + 1 + k;
    CalendarRunsForward(clock, a, b);
    CalendarRunsForward(clock, b, clock.today);
    HistoryDayOfOrderedDays(db, userId, n, k, clock);
  }

  /** `dates.map(date => ...)`: the buckets in date order, rounded. */
  function SeriesFrom(dates: seq<string>, buckets: map<string, Bucket>): (r: seq<HistoryPoint>)
    requires forall d :: d in dates ==> d in buckets
    ensures |r| == |dates| && forall k :: 0 <= k < |dates| ==> r[k] == PointOf(dates[k], buckets[dates[k]])
  {
    seq(|dates|, k requires 0 <= k < |dates| => PointOf(dates[k], buckets[dates[k]]))
  }

  lemma SeriesFromBuckets(dates: seq<string>, es: seq<LoadedEntry>, buckets: map<string, Bucket>, n: int, clock: Clock)
    requires |dates| == n
    requires forall k :: 0 <= k < |dates| ==> dates[k] == clock.dayText(clock.today - n + 1 + k)
    requires forall d :: d in buckets <==> d in dates
    requires forall d :: d in buckets ==> buckets[d] == BucketOf(AllMacros(OnDay(es, d)))
    ensures SeriesOf(SeriesFrom(dates, buckets), es, n, clock)
  {
    var series := SeriesFrom(dates, buckets);
    forall k | 0 <= k < |dates|
      ensures series[k] == PointOf(dates[k], BucketOf(AllMacros(OnDay(es, dates[k]))))
    {
      assert dates[k] in dates;
    }
  }

  /**
   * `/nutrition-history`: one point per day of the last `days` days (seven
   * by default, at most 90), oldest first, each summing the calories,
   * protein, fat and carbs of the caller's entries logged that day. With a
   * non-positive `days` there are no dates, the range bounds are invalid
   * dates, and the query fails.
   */
  method NutritionHistory(store: NutritionStore, auth: EntraAuth.RequestAuth, daysParam: Option<int>, clock: Clock)
    returns (r: Response<HistoryBody>)
    ensures DashboardUserId(auth).None? ==> r == Unauthorized
    ensures DashboardUserId(auth).Some? && HistoryDays(daysParam) < 0 ==> r == Failed
    ensures DashboardUserId(auth).Some? && HistoryDays(daysParam) > 0 ==>
      var n := HistoryDays(daysParam);
      var selected := HistoryRows(store.Db(), DashboardUserId(auth).value, n, clock);
      r.Json? && r.body.days == n && SeriesOf(r.body.series, selected, n, clock)
  {
    var user := DashboardUserId(auth);
    if user.None? {
      return Unauthorized;
    }
    var days := HistoryDays(daysParam);
    var dates := HistoryDates(days, clock);
    if dates == [] {
      return Failed;
    }
    // rangeStart is the first date's first millisecond, rangeEnd the last date's last one
    assert dates[0] == clock.dayText(clock.today - days + 1) && dates[|dates| - 1] == Today(clock);
    var es := HistoryRows(store.Db(), user.value, days, clock);
    var buckets := DayBuckets(dates, es);
    var series := SeriesFrom(dates, buckets);
    SeriesFromBuckets(dates, es, buckets, days, clock);
    r := Json(HistoryBody(days, series));
  }
}
