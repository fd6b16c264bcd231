/**
 * The accumulations the query tools run over logged meals: the grand totals
 * of `get_meal_log`, the day totals and the per-meal-type breakdown of
 * `get_daily_summary`, and the default-quantity estimate of
 * `get_meal_schema`. Each loop is proved against a specification built from
 * `Nutrition.Totals`, whose meaning (a field is unset exactly when nothing
 * contributed, and otherwise the sum of what did) is `Nutrition.TotalsField`.
 */
module Aggregation {

  import opened Wrappers
  import opened Nutrition
  import opened Records

  /** A log entry together with its items, as a query that includes `items` returns it. */
  datatype LoadedEntry = LoadedEntry(entry: Entry, items: seq<Item>)

  function ItemMacros(items: seq<Item>): (r: seq<Macros>)
    ensures |r| == |items| && forall k :: 0 <= k < |items| ==> r[k] == items[k].line.macros
  {
    seq(|items|, k requires 0 <= k < |items| => items[k].line.macros)
  }

  /** The macros of every item of every entry, entry by entry. */
  function AllMacros(es: seq<LoadedEntry>): seq<Macros>
    decreases |es|
  {
    if es == [] then [] else AllMacros(es[..|es| - 1]) + ItemMacros(es[|es| - 1].items)
  }

  lemma AllMacrosSnoc(es: seq<LoadedEntry>, e: LoadedEntry)
    ensures AllMacros(es + [e]) == AllMacros(es) + ItemMacros(e.items)
  {
    assert (es + [e])[..|es|] == es;
  }

  lemma ItemMacrosSnoc(items: seq<Item>, j: nat)
    requires j < |items|
    ensures ItemMacros(items[..j + 1]) == ItemMacros(items[..j]) + [items[j].line.macros]
  {
  }

  /**
   * The inner loop `for (const item of entry.items)`: the entry's items added
   * into `acc` in order.
   */
  method AddItems(acc: Macros, items: seq<Item>) returns (r: Macros)
    ensures r == Accumulate(acc, ItemMacros(items))
  {
    r := acc;
    for j := 0 to |items|
      invariant r == Accumulate(acc, ItemMacros(items[..j]))
    {
      ItemMacrosSnoc(items, j);
      assert ItemMacros(items[..j + 1])[..j] == ItemMacros(items[..j]);
      r := AddInto(r, items[j].line.macros);
    }
    assert items[..|items|] == items;
  }

  /** `grandTotals` of `get_meal_log` (and `totals` of the dashboard's `/meals`): every item of every entry. */
  method GrandTotals(es: seq<LoadedEntry>) returns (totals: Macros)
    ensures totals == Totals(AllMacros(es))
  {
    totals := NoMacros;
    for i := 0 to |es|
      invariant totals == Totals(AllMacros(es[..i]))
    {
      totals := AddItems(totals, es[i].items);
      AccumulateAppend(NoMacros, AllMacros(es[..i]), ItemMacros(es[i].items));
      assert es[..i + 1] == es[..i] + [es[i]];
      AllMacrosSnoc(es[..i], es[i]);
    }
    assert es[..|es|] == es;
  }

  lemma {:induction false} AllMacrosAppend(a: seq<LoadedEntry>, b: seq<LoadedEntry>)
    ensures AllMacros(a + b) == AllMacros(a) + AllMacros(b)
    decreases |b|
  {
    if b == [] {
      assert a + b == a;
    } else {
      var init := b[..|b| - 1];
      assert a + b == (a + init) + [b[|b| - 1]];
      AllMacrosSnoc(a + init, b[|b| - 1]);
      AllMacrosAppend(a, init);
      AllMacrosSnoc(init, b[|b| - 1]);
      assert init + [b[|b| - 1]] == b;
    }
  }

  /** Reordering the entries reorders their items' macros and nothing else. */
  lemma {:induction false} AllMacrosPermutation(a: seq<LoadedEntry>, b: seq<LoadedEntry>)
    requires multiset(a) == multiset(b)
    ensures multiset(AllMacros(a)) == multiset(AllMacros(b))
    decreases |a|
  {
    if a == [] {
      assert b == [] by { assert |multiset(b)| == 0; }
    } else {
      var e := a[|a| - 1];
      assert e in multiset(b);
      var k :| 0 <= k < |b| && b[k] == e;
      RemoveFromPermutation(a, b, k);
      AllMacrosPermutation(a[..|a| - 1], b[..k] + b[k + 1..]);
      assert a == a[..|a| - 1] + [e];
      AllMacrosSnoc(a[..|a| - 1], e);
      assert b == b[..k] + [e] + b[k + 1..];
      AllMacrosAppend(b[..k] + [e], b[k + 1..]);
      AllMacrosSnoc(b[..k], e);
      AllMacrosAppend(b[..k], b[k + 1..]);
    }
  }

  /**
   * Totals do not depend on the order in which a query returns the entries
   * (`get_meal_log` and the dashboard order by time, other queries not at all).
   */
  lemma TotalsOfReorderedEntries(a: seq<LoadedEntry>, b: seq<LoadedEntry>)
    requires multiset(a) == multiset(b)
    ensures Totals(AllMacros(a)) == Totals(AllMacros(b))
  {
    AllMacrosPermutation(a, b);
    TotalsPermutation(AllMacros(a), AllMacros(b));
  }

  // ---------------------------------------------------------------------------
  // Breakdown by meal type
  // ---------------------------------------------------------------------------

  /** A meal type, or `unspecified` for an entry logged without one. */
  datatype MealKey = Typed(mealType: MealType) | Unspecified

  /** `entry.timeOfDay || 'unspecified'`. */
  function KeyOf(e: Entry): MealKey {
    if e.timeOfDay.Some? then Typed(e.timeOfDay.value) else Unspecified
  }

  /** The order in which the summary lists the meal types. */
  const DisplayOrder: seq<MealKey> := [Typed(Breakfast), Typed(Lunch), Typed(Dinner), Typed(Snack), Unspecified]

  /** Every key appears in the display order exactly once. */
  lemma DisplayOrderCoversEveryKey(k: MealKey)
    ensures k in DisplayOrder
    ensures forall a, b :: 0 <= a < b < |DisplayOrder| ==> DisplayOrder[a] != DisplayOrder[b]
  {
    match k
    case Typed(t) => {
      match t
      case Breakfast => assert DisplayOrder[0] == k;
      case Lunch => assert DisplayOrder[1] == k;
      case Dinner => assert DisplayOrder[2] == k;
      case Snack => assert DisplayOrder[3] == k;
    }
    case Unspecified => assert DisplayOrder[4] == k;
  }

  /** The entries filed under one meal key, in order. */
  function OfKey(es: seq<LoadedEntry>, k: MealKey): (r: seq<LoadedEntry>)
    ensures |r| <= |es|
    ensures forall x :: x in r <==> x in es && KeyOf(x.entry) == k
    decreases |es|
  {
    if es == [] then []
    else
      var init := OfKey(es[..|es| - 1], k);
      if KeyOf(es[|es| - 1].entry) == k then init + [es[|es| - 1]] else init
  }

  lemma OfKeySnoc(es: seq<LoadedEntry>, e: LoadedEntry, k: MealKey)
    ensures OfKey(es + [e], k) == OfKey(es, k) + (if KeyOf(e.entry) == k then [e] else [])
  {
    assert (es + [e])[..|es|] == es;
  }

  /** Filing one more entry under its key keeps `byType` the per-key totals. */
  lemma ByTypeStep(es: seq<LoadedEntry>, e: LoadedEntry, byType: map<MealKey, Macros>, typed: Macros)
    requires forall k :: k in byType <==> OfKey(es, k) != []
    requires forall k :: k in byType ==> byType[k] == Totals(AllMacros(OfKey(es, k)))
    requires typed == Accumulate(if KeyOf(e.entry) in byType then byType[KeyOf(e.entry)] else NoMacros, ItemMacros(e.items))
    ensures forall k :: k in byType[KeyOf(e.entry) := typed] <==> OfKey(es + [e], k) != []
    ensures forall k :: k in byType[KeyOf(e.entry) := typed] ==>
      byType[KeyOf(e.entry) := typed][k] == Totals(AllMacros(OfKey(es + [e], k)))
  {
    forall k ensures k in byType[KeyOf(e.entry) := typed] <==> OfKey(es + [e], k) != []
      ensures k in byType[KeyOf(e.entry) := typed] ==>
        byType[KeyOf(e.entry) := typed][k] == Totals(AllMacros(OfKey(es + [e], k)))
    {
      OfKeySnoc(es, e, k);
      if k == KeyOf(e.entry) {
        TypedStep(OfKey(es, k), e, if k in byType then byType[k] else NoMacros, typed);
      }
    }
  }

  /** The entry's own key: its totals grow by the entry's items. */
  lemma TypedStep(before: seq<LoadedEntry>, e: LoadedEntry, acc: Macros, typed: Macros)
    requires acc == Totals(AllMacros(before))
    requires typed == Accumulate(acc, ItemMacros(e.items))
    ensures typed == Totals(AllMacros(before + [e]))
  {
    AllMacrosSnoc(before, e);
    AccumulateAppend(NoMacros, AllMacros(before), ItemMacros(e.items));
  }

  /**
   * `dayTotals` and `byMealType` of `get_daily_summary`: the totals of the
   * day, and for every meal type that some entry carries, the totals of
   * that type's entries. A type whose entries have no items still gets a
   * (blank) record.
   */
  method DailyTotals(es: seq<LoadedEntry>) returns (day: Macros, byType: map<MealKey, Macros>)
    ensures day == Totals(AllMacros(es))
    ensures forall k :: k in byType <==> OfKey(es, k) != []
    ensures forall k :: k in byType ==> byType[k] == Totals(AllMacros(OfKey(es, k)))
  {
    day := NoMacros;
    byType := map[];
    for i := 0 to |es|
      invariant day == Totals(AllMacros(es[..i]))
      invariant forall k :: k in byType <==> OfKey(es[..i], k) != []
      invariant forall k :: k in byType ==> byType[k] == Totals(AllMacros(OfKey(es[..i], k)))
    {
      var e := es[i];
      var key := KeyOf(e.entry);
      assert es[..i + 1] == es[..i] + [e];
      AllMacrosSnoc(es[..i], e);
      AccumulateAppend(NoMacros, AllMacros(es[..i]), ItemMacros(e.items));
      var typed := AddItems(if key in byType then byType[key] else NoMacros, e.items);
      ByTypeStep(es[..i], e, byType, typed);
      byType := byType[key := typed];
      day := AddItems(day, e.items);
    }
    assert es[..|es|] == es;
  }

  /** What one field of a meal key's totals contributes to a sum: its value, 0 when unset. */
  function KeyTotal(es: seq<LoadedEntry>, k: MealKey, f: MacroField): real {
    Get(Totals(AllMacros(OfKey(es, k))), f).GetOr(0.0)
  }

  /** `Totals` read as a sum: an unset field counts 0, and it is unset exactly when nothing contributed. */
  lemma TotalsAsSum(ms: seq<Macros>, f: MacroField)
    ensures Get(Totals(ms), f).GetOr(0.0) == FieldSum(ms, f)
    ensures Get(Totals(ms), f).None? <==> !Contributes(ms, f)
  {
    AccumulateField(NoMacros, ms, f);
  }

  /** What adding one entry does to one meal key's sum and contributions. */
  lemma KeyStep(es: seq<LoadedEntry>, e: LoadedEntry, k: MealKey, f: MacroField)
    ensures FieldSum(AllMacros(OfKey(es + [e], k)), f) ==
      FieldSum(AllMacros(OfKey(es, k)), f) + (if KeyOf(e.entry) == k then FieldSum(ItemMacros(e.items), f) else 0.0)
    ensures Contributes(AllMacros(OfKey(es + [e], k)), f) <==>
      Contributes(AllMacros(OfKey(es, k)), f) || (KeyOf(e.entry) == k && Contributes(ItemMacros(e.items), f))
  {
    OfKeySnoc(es, e, k);
    if KeyOf(e.entry) == k {
      AllMacrosSnoc(OfKey(es, k), e);
      FieldSumAppend(AllMacros(OfKey(es, k)), ItemMacros(e.items), f);
      ContributesAppend(AllMacros(OfKey(es, k)), ItemMacros(e.items), f);
    } else {
      assert OfKey(es, k) + [] == OfKey(es, k);
    }
  }

  /** `KeyStep` for the last entry of a non-empty sequence. */
  lemma KeyStepLast(es: seq<LoadedEntry>, k: MealKey, f: MacroField)
    requires es != []
    ensures FieldSum(AllMacros(OfKey(es, k)), f) == FieldSum(AllMacros(OfKey(es[..|es| - 1], k)), f) +
      (if KeyOf(es[|es| - 1].entry) == k then FieldSum(ItemMacros(es[|es| - 1].items), f) else 0.0)
    ensures Contributes(AllMacros(OfKey(es, k)), f) <==>
      Contributes(AllMacros(OfKey(es[..|es| - 1], k)), f) ||
      (KeyOf(es[|es| - 1].entry) == k && Contributes(ItemMacros(es[|es| - 1].items), f))
  {
    assert es == es[..|es| - 1] + [es[|es| - 1]];
    KeyStep(es[..|es| - 1], es[|es| - 1], k, f);
  }

  lemma {:induction false} SumSplitsByMealType(es: seq<LoadedEntry>, f: MacroField)
    ensures FieldSum(AllMacros(es), f) ==
      FieldSum(AllMacros(OfKey(es, Typed(Breakfast))), f) + FieldSum(AllMacros(OfKey(es, Typed(Lunch))), f) +
      FieldSum(AllMacros(OfKey(es, Typed(Dinner))), f) + FieldSum(AllMacros(OfKey(es, Typed(Snack))), f) +
      FieldSum(AllMacros(OfKey(es, Unspecified)), f)
    decreases |es|
  {
    if es != [] {
      var init, e := es[..|es| - 1], es[|es| - 1];
      SumSplitsByMealType(init, f);
      FieldSumAppend(AllMacros(init), ItemMacros(e.items), f);
      var b, l, d, s, u := FieldSum(AllMacros(OfKey(init, Typed(Breakfast))), f), FieldSum(AllMacros(OfKey(init, Typed(Lunch))), f),
        FieldSum(AllMacros(OfKey(init, Typed(Dinner))), f), FieldSum(AllMacros(OfKey(init, Typed(Snack))), f),
        FieldSum(AllMacros(OfKey(init, Unspecified)), f);
      var added := FieldSum(ItemMacros(e.items), f);
      assert FieldSum(AllMacros(es), f) == b + l + d + s + u + added;
      KeyStepLast(es, Typed(Breakfast), f);
      KeyStepLast(es, Typed(Lunch), f);
      KeyStepLast(es, Typed(Dinner), f);
      KeyStepLast(es, Typed(Snack), f);
      KeyStepLast(es, Unspecified, f);
      match KeyOf(e.entry)
      case Typed(Breakfast) => assert FieldSum(AllMacros(OfKey(es, Typed(Breakfast))), f) == b + added;
      case Typed(Lunch) => assert FieldSum(AllMacros(OfKey(es, Typed(Lunch))), f) == l + added;
      case Typed(Dinner) => assert FieldSum(AllMacros(OfKey(es, Typed(Dinner))), f) == d + added;
      case Typed(Snack) => assert FieldSum(AllMacros(OfKey(es, Typed(Snack))), f) == s + added;
      case Unspecified => assert FieldSum(AllMacros(OfKey(es, Unspecified)), f) == u + added;
    }
  }

  lemma {:induction false} ContributionSplitsByMealType(es: seq<LoadedEntry>, f: MacroField)
    ensures Contributes(AllMacros(es), f) <==> exists k :: Contributes(AllMacros(OfKey(es, k)), f)
    decreases |es|
  {
    if es == [] {
      assert forall k :: OfKey(es, k) == [];
    } else {
      var init, e := es[..|es| - 1], es[|es| - 1];
      ContributionSplitsByMealType(init, f);
      ContributesAppend(AllMacros(init), ItemMacros(e.items), f);
      if Contributes(AllMacros(es), f) {
        if Contributes(AllMacros(init), f) {
          var k :| Contributes(AllMacros(OfKey(init, k)), f);
          KeyStepLast(es, k, f);
        } else {
          KeyStepLast(es, KeyOf(e.entry), f);
        }
      }
      if exists k :: Contributes(AllMacros(OfKey(es, k)), f) {
        var k :| Contributes(AllMacros(OfKey(es, k)), f);
        KeyStepLast(es, k, f);
      }
    }
  }

  /**
   * Each field's day total is the sum of that field's totals over the meal
   * types, and it is unset exactly when it is unset for every meal type.
   */
  lemma DayTotalIsSumOfMealTypes(es: seq<LoadedEntry>, f: MacroField)
    ensures Get(Totals(AllMacros(es)), f).GetOr(0.0) ==
      KeyTotal(es, Typed(Breakfast), f) + KeyTotal(es, Typed(Lunch), f) + KeyTotal(es, Typed(Dinner), f) +
      KeyTotal(es, Typed(Snack), f) + KeyTotal(es, Unspecified, f)
    ensures Get(Totals(AllMacros(es)), f).None? <==> forall k :: Get(Totals(AllMacros(OfKey(es, k))), f).None?
  {
    SumSplitsByMealType(es, f);
    ContributionSplitsByMealType(es, f);
    TotalsAsSum(AllMacros(es), f);
    forall k ensures KeyTotal(es, k, f) == FieldSum(AllMacros(OfKey(es, k)), f)
      && (Get(Totals(AllMacros(OfKey(es, k))), f).None? <==> !Contributes(AllMacros(OfKey(es, k)), f))
    {
      TotalsAsSum(AllMacros(OfKey(es, k)), f);
    }
  }

  /**
   * The breakdown lines of the summary: the meal types present, in display
   * order, each with its totals rounded for display.
   */
  function Breakdown(byType: map<MealKey, Macros>): (r: seq<(MealKey, Macros)>)
    ensures forall k :: k in byType <==> exists n :: 0 <= n < |r| && r[n].0 == k
    ensures forall n :: 0 <= n < |r| ==> r[n].0 in byType && r[n].1 == Displayed(byType[r[n].0], EveryField)
  {
    var keys := Filter(DisplayOrder, k => k in byType);
    var r := seq(|keys|, n requires 0 <= n < |keys| => (keys[n], Displayed(byType[keys[n]], EveryField)));
    assert forall k :: k in byType ==> exists n :: 0 <= n < |r| && r[n].0 == k by {
      forall k | k in byType ensures exists n :: 0 <= n < |r| && r[n].0 == k {
        DisplayOrderCoversEveryKey(k);
        var m :| 0 <= m < |DisplayOrder| && DisplayOrder[m] == k;
        assert k in keys;
        var n :| 0 <= n < |keys| && keys[n] == k;
        assert r[n].0 == k;
      }
    }
    r
  }

  // ---------------------------------------------------------------------------
  // get_meal_schema: the default-quantity estimate
  // ---------------------------------------------------------------------------

  /** Per-unit macros times the default quantity, for the ingredients that have one. */
  function DefaultScaled(lines: seq<TemplateLine>): seq<Macros>
    decreases |lines|
  {
    if lines == [] then []
    else
      var init := DefaultScaled(lines[..|lines| - 1]);
      var l := lines[|lines| - 1];
      if l.defaultQuantity.Some? then init + [Scale(l.food.macros, l.defaultQuantity.value)] else init
  }

  /**
   * `totals` of `get_meal_schema`: ingredients without a default quantity
   * are skipped, the others add `perUnit * qty` for every field the food has.
   */
  method DefaultQuantityTotals(lines: seq<TemplateLine>) returns (totals: Macros)
    ensures totals == Totals(DefaultScaled(lines))
  {
    totals := NoMacros;
    for i := 0 to |lines|
      invariant totals == Totals(DefaultScaled(lines[..i]))
    {
      var l := lines[i];
      assert lines[..i + 1][..i] == lines[..i];
      if l.defaultQuantity.Some? {
        var scaled := Scale(l.food.macros, l.defaultQuantity.value);
        assert DefaultScaled(lines[..i + 1]) == DefaultScaled(lines[..i]) + [scaled];
        totals := AddInto(totals, scaled);
      }
    }
    assert lines[..|lines|] == lines;
  }

  /** The macros of the items logging a template would produce. */
  function TemplateMacros(lines: seq<TemplateLine>): (r: seq<Macros>)
    ensures |r| == |lines| && forall k :: 0 <= k < |lines| ==> r[k] == TemplateItem(lines[k]).macros
  {
    seq(|lines|, k requires 0 <= k < |lines| => TemplateItem(lines[k]).macros)
  }

  /**
   * When every ingredient has a default quantity, the estimate that
   * `get_meal_schema` shows is the totals of the items `log_meal` records
   * for that template.
   */
  lemma {:induction false} EstimateMatchesLoggedTemplate(lines: seq<TemplateLine>)
    requires forall k :: 0 <= k < |lines| ==> lines[k].defaultQuantity.Some?
    ensures DefaultScaled(lines) == TemplateMacros(lines)
    ensures Totals(DefaultScaled(lines)) == Totals(TemplateMacros(lines))
    decreases |lines|
  {
    if lines != [] {
      var init := lines[..|lines| - 1];
      EstimateMatchesLoggedTemplate(init);
      assert TemplateMacros(lines) == TemplateMacros(init) + [TemplateItem(lines[|lines| - 1]).macros];
    }
  }
}
