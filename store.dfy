/**
 * The tool handlers of the MCP server as methods of an in-memory store.
 * Each handler first resolves the caller (`GetUserId`; a call without an
 * identity fails outright), then checks its arguments in a fixed order and
 * either reports an error with the store untouched or applies one of the
 * transitions of module `Tables`. The read-only tools return the rows they
 * select and the totals they print.
 */
module Store {

  import opened Wrappers
  import opened Nutrition
  import opened Records
  import opened Dates
  import opened Aggregation
  import opened Tables
  import Text
  import EntraAuth

  // ---------------------------------------------------------------------------
  // The caller
  // ---------------------------------------------------------------------------

  /**
   * `getUserId`: the `sub` the bridge copied into `extra.authInfo.extra`,
   * unchanged; `None` when it is missing or empty, which makes the whole
   * call fail.
   */
  function GetUserId(authInfo: Option<EntraAuth.AuthInfo>): (r: Option<string>)
    ensures r.Some? <==> authInfo.Some? && Truthy(authInfo.value.extra.sub)
    ensures r.Some? ==> r.value == authInfo.value.extra.sub.value
  {
    if authInfo.Some? && Truthy(authInfo.value.extra.sub) then authInfo.value.extra.sub else None
  }

  /**
   * A tool call's caller: the bridge rewrites the request's `auth`, then the
   * handler reads the identity from it. The caller is the verified token's
   * `sub`; a request the token check left without a payload has none.
   */
  method ResolveCaller(req: EntraAuth.Request) returns (user: Option<string>)
    modifies req
    ensures old(req.auth).Verified? && old(req.auth).verified.payload.Some? ==>
      var sub := old(req.auth).verified.payload.value.sub;
      user == if Truthy(sub) then sub else None
    ensures old(req.auth).NoAuth? || (old(req.auth).Verified? && old(req.auth).verified.payload.None?) ==>
      user.None?
  {
    var next := EntraAuth.BridgeAuthToMcp(req);
    user := GetUserId(EntraAuth.HandlerAuthInfo(req.auth));
  }

  // ---------------------------------------------------------------------------
  // Queries
  // ---------------------------------------------------------------------------

  function BelongsTo(entryId: Id): Item -> bool {
    (it: Item) => it.entryId == entryId
  }

  /** The entry's items, as `include: { items: true }` loads them. */
  function ItemsOf(items: seq<Item>, entryId: Id): seq<Item> {
    Filter(items, BelongsTo(entryId))
  }

  /** Entries with their items. */
  function Load(es: seq<Entry>, items: seq<Item>): (r: seq<LoadedEntry>)
    ensures |r| == |es|
    ensures forall k :: 0 <= k < |es| ==> r[k].entry == es[k] && r[k].items == ItemsOf(items, es[k].id)
  {
    seq(|es|, k requires 0 <= k < |es| => LoadedEntry(es[k], ItemsOf(items, es[k].id)))
  }

  function LoggedAtKey(l: LoadedEntry): string {
    l.entry.loggedAt
  }

  /**
   * The `where` of the meal queries: the caller's entries from the first
   * millisecond of `from` to the last of `to`, of one meal type if given.
   */
  predicate InMealLog(e: Entry, userId: string, from: string, to: string, timeOfDay: Option<MealType>) {
    e.userId == userId && InRange(e.loggedAt, from, to) && (timeOfDay.Some? ==> e.timeOfDay == timeOfDay)
  }

  function MealLogFilter(userId: string, from: string, to: string, timeOfDay: Option<MealType>): Entry -> bool {
    (e: Entry) => InMealLog(e, userId, from, to, timeOfDay)
  }

  /** The entries a meal query returns, each with its items, before ordering. */
  function SelectMeals(t: Tables, userId: string, from: string, to: string, timeOfDay: Option<MealType>): seq<LoadedEntry> {
    Load(Filter(t.entries, MealLogFilter(userId, from, to, timeOfDay)), t.items)
  }

  /** A meal query's entries are exactly the caller's entries in range, with their items. */
  lemma SelectMealsMembers(t: Tables, userId: string, from: string, to: string, timeOfDay: Option<MealType>, l: LoadedEntry)
    ensures l in SelectMeals(t, userId, from, to, timeOfDay) <==>
      l.entry in t.entries && InMealLog(l.entry, userId, from, to, timeOfDay) && l.items == ItemsOf(t.items, l.entry.id)
  {
    var es := Filter(t.entries, MealLogFilter(userId, from, to, timeOfDay));
    var r := SelectMeals(t, userId, from, to, timeOfDay);
    FilterMembership(t.entries, MealLogFilter(userId, from, to, timeOfDay), l.entry);
    if l in r {
      var k :| 0 <= k < |r| && r[k] == l;
      assert es[k] == l.entry;
    }
    if l.entry in es && l.items == ItemsOf(t.items, l.entry.id) {
      var k :| 0 <= k < |es| && es[k] == l.entry;
      assert r[k] == l;
    }
  }

  function OfSchema(schemaId: Id): Ingredient -> bool {
    (g: Ingredient) => g.schemaId == schemaId
  }

  /** A template's ingredients joined with their foods. */
  function TemplateOf(t: Tables, schemaId: Id): (r: seq<TemplateLine>)
    requires forall g :: g in t.ingredients ==> g.foodId in FoodIds(t.foods)
    ensures |r| == |Filter(t.ingredients, OfSchema(schemaId))|
    ensures forall k :: 0 <= k < |r| ==>
      var g := Filter(t.ingredients, OfSchema(schemaId))[k];
      r[k].food in t.foods && r[k].food.id == g.foodId && r[k].defaultQuantity == g.defaultQuantity
  {
    var ings := Filter(t.ingredients, OfSchema(schemaId));
    seq(|ings|, k requires 0 <= k < |ings| => TemplateLine(FoodById(t.foods, ings[k].foodId), ings[k].defaultQuantity))
  }

  /** The ingredient rows `create_meal_schema` writes for template `schemaId`, in argument order. */
  function NewIngredients(foods: seq<Food>, userId: string, schemaId: Id, specs: seq<IngredientSpec>): (r: seq<Ingredient>)
    requires MissingNames(foods, userId, IngredientNames(specs)) == []
    ensures |r| == |specs|
    ensures forall k :: 0 <= k < |specs| ==>
      FindFood(foods, userId, specs[k].foodName).Some? &&
      r[k] == Ingredient(schemaId, FindFood(foods, userId, specs[k].foodName).value.id, specs[k].defaultQuantity)
  {
    var names := IngredientNames(specs);
    assert forall k :: 0 <= k < |specs| ==> FindFood(foods, userId, specs[k].foodName).Some? by {
      forall k | 0 <= k < |specs| ensures FindFood(foods, userId, specs[k].foodName).Some? {
        assert names[k] in names;
      }
    }
    seq(|specs|, k requires 0 <= k < |specs| =>
      Ingredient(schemaId, FindFood(foods, userId, specs[k].foodName).value.id, specs[k].defaultQuantity))
  }

  /** Every new ingredient row points at the new template and at an existing food. */
  lemma NewIngredientsResolve(foods: seq<Food>, userId: string, schemaId: Id, specs: seq<IngredientSpec>)
    requires MissingNames(foods, userId, IngredientNames(specs)) == []
    ensures forall g :: g in NewIngredients(foods, userId, schemaId, specs) ==>
      g.schemaId == schemaId && g.foodId in FoodIds(foods)
  {
    var ings := NewIngredients(foods, userId, schemaId, specs);
    forall g | g in ings ensures g.schemaId == schemaId && g.foodId in FoodIds(foods) {
      var k :| 0 <= k < |ings| && ings[k] == g;
      assert FindFood(foods, userId, specs[k].foodName).value in foods;
    }
  }

  /**
   * The argument checks of `log_meal`, in the order the handler makes them:
   * a template name or a non-empty item list is needed; a named template
   * must exist; every library food an item names must exist, and all the
   * missing names are reported. On success, the template the entry will
   * refer to, if any.
   */
  function CheckLogMeal(foods: seq<Food>, schemas: seq<MealSchema>, userId: string,
                        schemaName: Option<string>, specs: Option<seq<ItemSpec>>): (r: Result<Option<MealSchema>>)
    ensures r == Err(NothingToLog) <==> !Truthy(schemaName) && specs.GetOr([]) == []
    ensures r.Err? && r.failure.NotFound? ==>
      Truthy(schemaName) && FindSchema(schemas, userId, schemaName.value).None? && r.failure.key == schemaName.value
    ensures r.Err? && r.failure.FoodsNotFound? ==>
      (Truthy(schemaName) ==> FindSchema(schemas, userId, schemaName.value).Some?) &&
      r.failure.names == MissingNames(foods, userId, AdHocNames(specs.GetOr([]))) && r.failure.names != []
    ensures r.Err? ==> r.failure.NothingToLog? || r.failure.NotFound? || r.failure.FoodsNotFound?
    ensures r.Ok? <==>
      (Truthy(schemaName) || specs.GetOr([]) != []) &&
      (Truthy(schemaName) ==> FindSchema(schemas, userId, schemaName.value).Some?) &&
      MissingNames(foods, userId, AdHocNames(specs.GetOr([]))) == []
    ensures r.Ok? ==> r.value == if Truthy(schemaName) then FindSchema(schemas, userId, schemaName.value) else None
    ensures r.Ok? && r.value.Some? ==> r.value.value in schemas
    ensures r.Ok? ==> forall k :: 0 <= k < |specs.GetOr([])| && specs.GetOr([])[k].FoodRef? ==>
      FindFood(foods, userId, specs.GetOr([])[k].foodName).Some?
  {
    var args := specs.GetOr([]);
    if !Truthy(schemaName) && args == [] then Err(NothingToLog)
    else if Truthy(schemaName) && FindSchema(schemas, userId, schemaName.value).None? then
      Err(NotFound(schemaName.value))
    else
      var missing := MissingNames(foods, userId, AdHocNames(args));
      if missing != [] then Err(FoodsNotFound(missing))
      else if Truthy(schemaName) then Ok(FindSchema(schemas, userId, schemaName.value))
      else Ok(None)
  }

  /**
   * `items` are the template's lines followed by the item arguments, each
   * turned into the item `log_meal` writes for it.
   */
  predicate BuiltFrom(items: seq<LogItem>, template: seq<TemplateLine>, specs: seq<ItemSpec>, foods: seq<Food>, userId: string)
    requires forall k :: 0 <= k < |specs| && specs[k].FoodRef? ==> FindFood(foods, userId, specs[k].foodName).Some?
  {
    && |items| == |template| + |specs|
    && (forall k :: 0 <= k < |template| ==> items[k] == TemplateItem(template[k]))
    && (forall k :: 0 <= k < |specs| ==> items[|template| + k] == SpecItem(specs[k], foods, userId))
  }

  /** Every item built for an entry refers, if at all, to an existing food. */
  lemma LinesResolve(template: seq<TemplateLine>, specs: seq<ItemSpec>, foods: seq<Food>, userId: string, lines: seq<LogItem>)
    requires forall k :: 0 <= k < |template| ==> template[k].food in foods
    requires forall k :: 0 <= k < |specs| && specs[k].FoodRef? ==> FindFood(foods, userId, specs[k].foodName).Some?
    requires BuiltFrom(lines, template, specs, foods, userId)
    ensures forall l :: l in lines && l.foodId.Some? ==> l.foodId.value in FoodIds(foods)
  {
    forall l | l in lines && l.foodId.Some? ensures l.foodId.value in FoodIds(foods) {
      var k :| 0 <= k < |lines| && lines[k] == l;
      if k >= |template| {
        var spec := specs[k - |template|];
        assert lines[|template| + (k - |template|)] == SpecItem(spec, foods, userId);
        if spec.FoodRef? {
          assert FindFood(foods, userId, spec.foodName).value in foods;
        }
      }
    }
  }

  /**
   * The items `log_meal` writes once its guards pass: the template's lines
   * (none without a template), then one item per argument; each refers, if
   * at all, to an existing food.
   */
  method EntryLines(t: Tables, schema: Option<MealSchema>, args: seq<ItemSpec>, userId: string)
    returns (template: seq<TemplateLine>, lines: seq<LogItem>)
    requires forall g :: g in t.ingredients ==> g.foodId in FoodIds(t.foods)
    requires MissingNames(t.foods, userId, AdHocNames(args)) == []
    requires forall k :: 0 <= k < |args| && args[k].FoodRef? ==> FindFood(t.foods, userId, args[k].foodName).Some?
    ensures template == if schema.Some? then TemplateOf(t, schema.value.id) else []
    ensures BuiltFrom(lines, template, args, t.foods, userId)
    ensures forall l :: l in lines && l.foodId.Some? ==> l.foodId.value in FoodIds(t.foods)
  {
    template := if schema.Some? then TemplateOf(t, schema.value.id) else [];
    lines := BuildLogItems(template, args, t.foods, userId);
    LinesResolve(template, args, t.foods, userId, lines);
  }

  /** A rename to a different name that another food of the owner already has. */
  predicate RenameTaken(foods: seq<Food>, userId: string, name: string, p: FoodPatch) {
    p.newName.Some? && p.newName.value != name && FindFood(foods, userId, p.newName.value).Some?
  }

  /** `numeric` metrics need a value and `checkin` metrics must not have one. */
  predicate ValueFits(kind: MetricKind, value: Option<real>) {
    if kind == Numeric then value.Some? else value.None?
  }

  /**
   * The range filter of `get_metric_entries`: `date >= from` and
   * `date <= to + '￿'`, compared as text.
   */
  predicate InMetricRange(x: MetricEntry, metricId: Id, from: string, to: string) {
    x.metricId == metricId && Text.LexLe(from, x.date) && Text.LexLe(x.date, to + [Text.Sentinel])
  }

  function MetricRangeFilter(metricId: Id, from: string, to: string): MetricEntry -> bool {
    (x: MetricEntry) => InMetricRange(x, metricId, from, to)
  }

  function DateKey(x: MetricEntry): string {
    x.date
  }

  /**
   * For entries dated by a day (`daily` metrics) or by a full instant
   * (`timestamped` metrics) and day bounds, the range filter keeps exactly
   * the entries whose day lies between the bounds, both days included.
   */
  lemma MetricRangeByDay(x: MetricEntry, metricId: Id, from: string, to: string)
    requires |from| == 10 && |to| == 10
    requires |x.date| == 10 || IsInstant(x.date)
    ensures InMetricRange(x, metricId, from, to) <==>
      x.metricId == metricId && Text.LexLe(from, DayOf(x.date)) && Text.LexLe(DayOf(x.date), to)
  {
    Text.LowerBoundOnPrefix(from, x.date);
    if |x.date| > 10 {
      assert x.date[10..][0] == x.date[10];
      assert x.date[10] <= 'T';
    }
    Text.SentinelUpperBound(to, x.date);
  }

  /** Without the sentinel, an instant on the last day of the range would be left out. */
  lemma BareUpperBoundMissesLastDay(t: string, to: string)
    requires IsInstant(t) && DayOf(t) == to
    ensures !Text.LexLe(t, to)
  {
    assert t == to + t[10..];
    Text.BareUpperBoundExcludesExtensions(to, t[10..]);
  }

  // ---------------------------------------------------------------------------
  // Results of the read-only tools and of log_meal / log_metric
  // ---------------------------------------------------------------------------

  /** `get_meal_schema`: the template, its ingredients with their foods, and the rounded estimate. */
  datatype SchemaView = SchemaView(schema: MealSchema, lines: seq<TemplateLine>, estimate: Macros)

  /** `get_meal_log`: the day range used, the entries in time order, and the rounded grand totals. */
  datatype MealLog = MealLog(from: string, to: string, entries: seq<LoadedEntry>, totals: Macros)

  /** `get_daily_summary`: the day, its entries, the rounded day totals and the per-meal-type lines. */
  datatype DailySummary = DailySummary(
    date: string,
    entries: seq<LoadedEntry>,
    totals: Macros,
    breakdown: seq<(MealKey, Macros)>)

  /** `log_meal`: the entry and items written, and the calorie total it reports. */
  datatype LogSummary = LogSummary(entry: Entry, items: seq<LogItem>, calories: int)

  /** `log_metric`: the metric and the entry written. */
  datatype MetricLogged = MetricLogged(metric: Metric, entry: MetricEntry)

  /** `get_metric_entries`: the day range used and the entries in date order. */
  datatype MetricRange = MetricRange(from: string, to: string, entries: seq<MetricEntry>)

  // ---------------------------------------------------------------------------
  // The store
  // ---------------------------------------------------------------------------

  class NutritionStore {
    var foods: seq<Food>
    var schemas: seq<MealSchema>
    var ingredients: seq<Ingredient>
    var entries: seq<Entry>
    var items: seq<Item>
    var metrics: seq<Metric>
    var metricEntries: seq<MetricEntry>
    var nextId: nat

    function Db(): Tables
      reads this
    {
      Tables(foods, schemas, ingredients, entries, items, metrics, metricEntries, nextId)
    }

    ghost predicate Valid()
      reads this
    {
      Consistent(Db())
    }

    constructor ()
      ensures Db() == Empty && Valid()
    {
      foods, schemas, ingredients, entries, items, metrics, metricEntries, nextId := [], [], [], [], [], [], [], 0;
      EmptyIsConsistent();
    }

    // --- food library --------------------------------------------------------

    /** `create_food`: a Conflict when the caller already has a food with that name. */
    method CreateFood(userId: string, name: string, baseUnit: string, defaultServings: Option<seq<string>>,
                      macros: Macros, source: Option<Source>) returns (r: Result<Food>)
      requires Valid()
      modifies this
      ensures Valid()
      ensures FindFood(old(foods), userId, name).Some? ==> r == Err(Conflict(name)) && Db() == old(Db())
      ensures FindFood(old(foods), userId, name).None? ==>
        r == Ok(Food(old(nextId), userId, name, baseUnit, defaultServings.GetOr([]), macros, source)) &&
        Db() == AddFood(old(Db()), r.value)
    {
      if FindFood(foods, userId, name).Some? {
        return Err(Conflict(name));
      }
      var f := Food(nextId, userId, name, baseUnit, defaultServings.GetOr([]), macros, source);
      AddFoodConsistent(Db(), f);
      foods, nextId := foods + [f], nextId + 1;
      r := Ok(f);
    }

    /**
     * `update_food`: NotFound when there is no such food; otherwise a
     * Conflict (naming the new name) when the rename takes another food's
     * name; otherwise the food, and only it, takes the patch.
     */
    method UpdateFood(userId: string, name: string, p: FoodPatch) returns (r: Result<Food>)
      requires Valid()
      modifies this
      ensures Valid()
      ensures FindFood(old(foods), userId, name).None? ==> r == Err(NotFound(name)) && Db() == old(Db())
      ensures FindFood(old(foods), userId, name).Some? && RenameTaken(old(foods), userId, name, p) ==>
        r == Err(Conflict(p.newName.value)) && Db() == old(Db())
      ensures FindFood(old(foods), userId, name).Some? && !RenameTaken(old(foods), userId, name, p) ==>
        var found := FindFood(old(foods), userId, name).value;
        && r == Ok(ApplyPatch(found, p))
        && |foods| == |old(foods)|
        && (forall k :: 0 <= k < |foods| ==> foods[k] == if old(foods)[k] == found then r.value else old(foods)[k])
        && Db() == old(Db()).(foods := foods)
    {
      var i := FirstIndex(foods, FoodNamed(userId, name));
      if i.None? {
        return Err(NotFound(name));
      }
      if RenameTaken(foods, userId, name, p) {
        return Err(Conflict(p.newName.value));
      }
      var k := i.value;
      var u := ApplyPatch(foods[k], p);
      UpdateFoodConsistent(Db(), k, p);
      forall j | 0 <= j < |foods| && j != k ensures foods[j] != foods[k] {
        if j < k {
          assert !FoodsClash(foods[j], foods[k]);
        } else {
          assert !FoodsClash(foods[k], foods[j]);
        }
      }
      foods := foods[k := u];
      r := Ok(u);
    }

    /** `get_food`: the caller's food of that name, or NotFound. */
    function GetFood(userId: string, name: string): (r: Result<Food>)
      reads this
      ensures r.Ok? ==> r.value in foods && r.value.userId == userId && r.value.name == name
      ensures r.Err? ==> r == Err(NotFound(name)) && forall f :: f in foods ==> !(f.userId == userId && f.name == name)
    {
      var f := FindFood(foods, userId, name);
      if f.Some? then Ok(f.value) else Err(NotFound(name))
    }

    /** `delete_food`: NotFound, or the food is removed with the cascade of `RemoveFood`. */
    method DeleteFood(userId: string, name: string) returns (r: Result<Food>)
      requires Valid()
      modifies this
      ensures Valid()
      ensures FindFood(old(foods), userId, name).None? ==> r == Err(NotFound(name)) && Db() == old(Db())
      ensures FindFood(old(foods), userId, name).Some? ==>
        r == Ok(FindFood(old(foods), userId, name).value) && Db() == RemoveFood(old(Db()), r.value.id)
    {
      var f := FindFood(foods, userId, name);
      if f.None? {
        return Err(NotFound(name));
      }
      RemoveFoodEffects(Db(), f.value.id);
      var t := RemoveFood(Db(), f.value.id);
      foods, ingredients, items := t.foods, t.ingredients, t.items;
      assert Db() == t;
      r := Ok(f.value);
    }

    // --- meal templates --------------------------------------------------------

    /**
     * `create_meal_schema`: first every ingredient name is checked, and the
     * missing ones are reported in argument order; then a Conflict on a
     * taken template name; otherwise the template and all its ingredients
     * are written together.
     */
    method CreateMealSchema(userId: string, name: string, description: Option<string>, specs: seq<IngredientSpec>)
      returns (r: Result<MealSchema>)
      requires Valid()
      modifies this
      ensures Valid()
      ensures MissingNames(old(foods), userId, IngredientNames(specs)) != [] ==>
        r == Err(FoodsNotFound(MissingNames(old(foods), userId, IngredientNames(specs)))) && Db() == old(Db())
      ensures MissingNames(old(foods), userId, IngredientNames(specs)) == [] && FindSchema(old(schemas), userId, name).Some? ==>
        r == Err(Conflict(name)) && Db() == old(Db())
      ensures MissingNames(old(foods), userId, IngredientNames(specs)) == [] && FindSchema(old(schemas), userId, name).None? ==>
        r == Ok(MealSchema(old(nextId), userId, name, description)) &&
        Db() == AddSchema(old(Db()), r.value, NewIngredients(old(foods), userId, old(nextId), specs))
    {
      var missing := MissingNames(foods, userId, IngredientNames(specs));
      if missing != [] {
        return Err(FoodsNotFound(missing));
      }
      if FindSchema(schemas, userId, name).Some? {
        return Err(Conflict(name));
      }
      var s := MealSchema(nextId, userId, name, description);
      var ings := NewIngredients(foods, userId, nextId, specs);
      NewIngredientsResolve(foods, userId, nextId, specs);
      AddSchemaConsistent(Db(), s, ings);
      var t := AddSchema(Db(), s, ings);
      schemas, ingredients, nextId := t.schemas, t.ingredients, t.nextId;
      assert Db() == t;
      r := Ok(s);
    }

    /**
     * `get_meal_schema`: the template with its ingredients, and the totals
     * of the ingredients that have a default quantity, rounded as printed.
     */
    method GetMealSchema(userId: string, name: string) returns (r: Result<SchemaView>)
      requires Valid()
      ensures FindSchema(schemas, userId, name).None? ==> r == Err(NotFound(name))
      ensures FindSchema(schemas, userId, name).Some? ==>
        && r.Ok?
        && r.value.schema == FindSchema(schemas, userId, name).value
        && r.value.lines == TemplateOf(Db(), r.value.schema.id)
        && r.value.estimate == Displayed(Totals(DefaultScaled(r.value.lines)), MainFields)
    {
      var s := FindSchema(schemas, userId, name);
      if s.None? {
        return Err(NotFound(name));
      }
      var lines := TemplateOf(Db(), s.value.id);
      var totals := DefaultQuantityTotals(lines);
      r := Ok(SchemaView(s.value, lines, Displayed(totals, MainFields)));
    }

    /** `delete_meal_schema`: NotFound, or the template is removed as `RemoveSchema` says. */
    method DeleteMealSchema(userId: string, name: string) returns (r: Result<MealSchema>)
      requires Valid()
      modifies this
      ensures Valid()
      ensures FindSchema(old(schemas), userId, name).None? ==> r == Err(NotFound(name)) && Db() == old(Db())
      ensures FindSchema(old(schemas), userId, name).Some? ==>
        r == Ok(FindSchema(old(schemas), userId, name).value) && Db() == RemoveSchema(old(Db()), r.value.id)
    {
      var s := FindSchema(schemas, userId, name);
      if s.None? {
        return Err(NotFound(name));
      }
      RemoveSchemaEffects(Db(), s.value.id);
      var t := RemoveSchema(Db(), s.value.id);
      schemas, ingredients, entries := t.schemas, t.ingredients, t.entries;
      assert Db() == t;
      r := Ok(s.value);
    }

    // --- logging and querying meals -------------------------------------------

    /**
     * `log_meal`: when `CheckLogMeal` fails nothing is written; otherwise one
     * entry is written together with its items (the template's ingredients
     * first, then the item arguments, with macros fixed at this moment) and
     * the reply carries the rounded calorie total of those items.
     */
    method LogMeal(userId: string, schemaName: Option<string>, specs: Option<seq<ItemSpec>>,
                   timeOfDay: Option<MealType>, loggedAt: Option<string>, notes: Option<string>, now: string)
      returns (r: Result<LogSummary>)
      requires Valid()
      modifies this
      ensures Valid()
      ensures var c := CheckLogMeal(old(foods), old(schemas), userId, schemaName, specs);
        && (c.Err? ==> r == Err(c.failure) && Db() == old(Db()))
        && (c.Ok? ==>
              var template := if c.value.Some? then TemplateOf(old(Db()), c.value.value.id) else [];
              var args := specs.GetOr([]);
              && r.Ok?
              && r.value.entry == Entry(old(nextId), userId, if c.value.Some? then Some(c.value.value.id) else None,
                                        LoggedAtInstant(loggedAt, now), timeOfDay, notes)
              && BuiltFrom(r.value.items, template, args, old(foods), userId)
              && r.value.calories == RoundInt(FieldSum(LineMacros(r.value.items), Calories))
              && Db() == AddEntry(old(Db()), r.value.entry, r.value.items))
    {
      var c := CheckLogMeal(foods, schemas, userId, schemaName, specs);
      if c.Err? {
        return Err(c.failure);
      }
      var template, lines := EntryLines(Db(), c.value, specs.GetOr([]), userId);
      var entry := Entry(nextId, userId, if c.value.Some? then Some(c.value.value.id) else None,
                         LoggedAtInstant(loggedAt, now), timeOfDay, notes);
      AddEntryConsistent(Db(), entry, lines);
      var t := AddEntry(Db(), entry, lines);
      entries, items, nextId := t.entries, t.items, t.nextId;
      assert Db() == t;
      r := Ok(LogSummary(entry, lines, RoundInt(FieldSum(LineMacros(lines), Calories))));
    }

    /**
     * `get_meal_log`: the caller's entries between the two days (today by
     * default), of one meal type if given, in time order, with the grand
     * totals of all their items as printed.
     */
    method GetMealLog(userId: string, from: Option<string>, to: Option<string>, timeOfDay: Option<MealType>, clock: Clock)
      returns (r: MealLog)
      ensures r.from == OrElse(from, Today(clock)) && r.to == OrElse(to, Today(clock))
      ensures Text.SortedBy(r.entries, LoggedAtKey)
      ensures multiset(r.entries) == multiset(SelectMeals(Db(), userId, r.from, r.to, timeOfDay))
      ensures r.totals == Displayed(Totals(AllMacros(r.entries)), MainFields)
    {
      var fromDay := OrElse(from, Today(clock));
      var toDay := OrElse(to, Today(clock));
      var selected := SelectMeals(Db(), userId, fromDay, toDay, timeOfDay);
      var sorted := Text.SortBy(selected, LoggedAtKey);
      Text.SortBySorted(selected, LoggedAtKey);
      var totals := GrandTotals(sorted);
      r := MealLog(fromDay, toDay, sorted, Displayed(totals, MainFields));
    }

    /**
     * `get_daily_summary`: the caller's entries of one day (today by
     * default), the day totals and, in display order, one line per meal type
     * that has entries, every field rounded as printed.
     */
    method GetDailySummary(userId: string, date: Option<string>, clock: Clock) returns (r: DailySummary)
      ensures r.date == OrElse(date, Today(clock))
      ensures Text.SortedBy(r.entries, LoggedAtKey)
      ensures multiset(r.entries) == multiset(SelectMeals(Db(), userId, r.date, r.date, None))
      ensures r.totals == Displayed(Totals(AllMacros(r.entries)), EveryField)
      ensures forall k :: (exists n :: 0 <= n < |r.breakdown| && r.breakdown[n].0 == k) <==> OfKey(r.entries, k) != []
      ensures forall n :: 0 <= n < |r.breakdown| ==>
        r.breakdown[n].1 == Displayed(Totals(AllMacros(OfKey(r.entries, r.breakdown[n].0))), EveryField)
    {
      var day := OrElse(date, Today(clock));
      var selected := SelectMeals(Db(), userId, day, day, None);
      var sorted := Text.SortBy(selected, LoggedAtKey);
      Text.SortBySorted(selected, LoggedAtKey);
      var totals, byType := DailyTotals(sorted);
      r := DailySummary(day, sorted, Displayed(totals, EveryField), Breakdown(byType));
    }

    // --- metrics --------------------------------------------------------------

    /** `create_metric`: a Conflict when the caller already has a metric with that name. */
    method CreateMetric(userId: string, name: string, unit: Option<string>, resolution: Resolution, kind: MetricKind)
      returns (r: Result<Metric>)
      requires Valid()
      modifies this
      ensures Valid()
      ensures FindMetric(old(metrics), userId, name).Some? ==> r == Err(Conflict(name)) && Db() == old(Db())
      ensures FindMetric(old(metrics), userId, name).None? ==>
        r == Ok(Metric(old(nextId), userId, name, unit, resolution, kind)) && Db() == AddMetric(old(Db()), r.value)
    {
      if FindMetric(metrics, userId, name).Some? {
        return Err(Conflict(name));
      }
      var m := Metric(nextId, userId, name, unit, resolution, kind);
      AddMetricConsistent(Db(), m);
      metrics, nextId := metrics + [m], nextId + 1;
      r := Ok(m);
    }

    /**
     * `log_metric`: NotFound, then the value/kind check, before any write.
     * A `daily` metric upserts the entry of the given day (today by
     * default) stamped at its midnight; a `timestamped` metric appends an
     * entry dated and stamped with the current instant, and the call fails
     * if an entry of that instant already exists.
     */
    method LogMetric(userId: string, name: string, value: Option<real>, date: Option<string>, clock: Clock)
      returns (r: Result<MetricLogged>)
      requires Valid()
      modifies this
      ensures Valid()
      ensures FindMetric(old(metrics), userId, name).None? ==> r == Err(NotFound(name)) && Db() == old(Db())
      ensures FindMetric(old(metrics), userId, name).Some? ==>
        var m := FindMetric(old(metrics), userId, name).value;
        && (m.kind == Numeric && value.None? ==> r == Err(ValueRequired) && Db() == old(Db()))
        && (m.kind == Checkin && value.Some? ==> r == Err(ValueNotAllowed) && Db() == old(Db()))
        && (ValueFits(m.kind, value) && m.resolution == Daily ==>
              var day := OrElse(date, Today(clock));
              r == Ok(MetricLogged(m, MetricEntry(m.id, day, StartOfDay(day), value))) &&
              Db() == PutMetricEntry(old(Db()), r.value.entry))
        && (ValueFits(m.kind, value) && m.resolution == Timestamped ==>
              var x := MetricEntry(m.id, clock.now, clock.now, value);
              (SlotTaken(old(metricEntries), x) ==> r == Err(StoreError) && Db() == old(Db())) &&
              (!SlotTaken(old(metricEntries), x) ==> r == Ok(MetricLogged(m, x)) && Db() == AppendMetricEntry(old(Db()), x)))
    {
      var found := FindMetric(metrics, userId, name);
      if found.None? {
        return Err(NotFound(name));
      }
      var m := found.value;
      if m.kind == Numeric && value.None? {
        return Err(ValueRequired);
      }
      if m.kind == Checkin && value.Some? {
        return Err(ValueNotAllowed);
      }
      assert m.id in MetricIds(metrics);
      if m.resolution == Daily {
        var day := OrElse(date, Today(clock));
        var x := MetricEntry(m.id, day, StartOfDay(day), value);
        PutMetricEntryConsistent(Db(), x);
        metricEntries := Upsert(metricEntries, x);
        r := Ok(MetricLogged(m, x));
      } else {
        var x := MetricEntry(m.id, clock.now, clock.now, value);
        if SlotTaken(metricEntries, x) {
          return Err(StoreError);
        }
        AppendMetricEntryConsistent(Db(), x);
        metricEntries := metricEntries + [x];
        r := Ok(MetricLogged(m, x));
      }
    }

    /**
     * `get_metric_entries`: NotFound, or the metric's entries from `from`
     * (seven days ago by default) through every entry dated on `to` (today
     * by default), in date order.
     */
    function GetMetricEntries(userId: string, name: string, from: Option<string>, to: Option<string>, clock: Clock)
      : (r: Result<MetricRange>)
      reads this
      ensures FindMetric(metrics, userId, name).None? ==> r == Err(NotFound(name))
      ensures FindMetric(metrics, userId, name).Some? ==>
        && r.Ok?
        && r.value.from == OrElse(from, DaysAgo(clock, 7))
        && r.value.to == OrElse(to, Today(clock))
        && Text.SortedBy(r.value.entries, DateKey)
        && multiset(r.value.entries) ==
             multiset(Filter(metricEntries, MetricRangeFilter(FindMetric(metrics, userId, name).value.id, r.value.from, r.value.to)))
        && (forall x :: x in r.value.entries <==>
              x in metricEntries && InMetricRange(x, FindMetric(metrics, userId, name).value.id, r.value.from, r.value.to))
    {
      var found := FindMetric(metrics, userId, name);
      if found.None? then Err(NotFound(name))
      else
        var fromDay := OrElse(from, DaysAgo(clock, 7));
        var toDay := OrElse(to, Today(clock));
        var p := MetricRangeFilter(found.value.id, fromDay, toDay);
        var selected := Filter(metricEntries, p);
        Text.SortBySorted(selected, DateKey);
        var sorted := Text.SortBy(selected, DateKey);
        assert forall x :: x in sorted <==> x in metricEntries && p(x) by {
          forall x ensures x in sorted <==> x in metricEntries && p(x) {
            FilterMembership(metricEntries, p, x);
            assert x in sorted <==> x in multiset(sorted);
          }
        }
        Ok(MetricRange(fromDay, toDay, sorted))
    }

    /** `delete_metric`: NotFound, or the metric and its entries are removed as `RemoveMetric` says. */
    method DeleteMetric(userId: string, name: string) returns (r: Result<Metric>)
      requires Valid()
      modifies this
      ensures Valid()
      ensures FindMetric(old(metrics), userId, name).None? ==> r == Err(NotFound(name)) && Db() == old(Db())
      ensures FindMetric(old(metrics), userId, name).Some? ==>
        r == Ok(FindMetric(old(metrics), userId, name).value) && Db() == RemoveMetric(old(Db()), r.value.id)
    {
      var m := FindMetric(metrics, userId, name);
      if m.None? {
        return Err(NotFound(name));
      }
      RemoveMetricEffects(Db(), m.value.id);
      var t := RemoveMetric(Db(), m.value.id);
      metrics, metricEntries := t.metrics, t.metricEntries;
      assert Db() == t;
      r := Ok(m.value);
    }
  }
}
