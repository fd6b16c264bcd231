/**
 * Macro-nutrient values and the arithmetic the tool handlers and the dashboard
 * perform on them: the seven nullable macro columns shared by foods and log
 * items, scaling a per-base-unit value by a quantity, summing a field over
 * items while skipping nulls (the `(totals[field] ?? 0) + val` accumulation),
 * and the display rounding (`Math.round(x)` and `Math.round(x * 10) / 10`).
 *
 * Numbers are `real`: the model does not follow IEEE-754 rounding.
 */
module Nutrition {

  import opened Wrappers

  /** The seven macro fields, in the order of the source's `macroFields`. */
  datatype MacroField = Calories | Protein | Fat | Carbs | Fiber | Sugar | Sodium

  const AllFields: seq<MacroField> := [Calories, Protein, Fat, Carbs, Fiber, Sugar, Sodium]

  /** The macro columns of a food (per base unit) or of a log item (a total); `None` is null. */
  datatype Macros = Macros(
    calories: Option<real>,
    protein: Option<real>,
    fat: Option<real>,
    carbs: Option<real>,
    fiber: Option<real>,
    sugar: Option<real>,
    sodium: Option<real>)

  /** An accumulator no item has contributed to yet (the source's `{}`). */
  const NoMacros: Macros := Macros(None, None, None, None, None, None, None)

  function Get(m: Macros, f: MacroField): Option<real> {
    match f
    case Calories => m.calories
    case Protein => m.protein
    case Fat => m.fat
    case Carbs => m.carbs
    case Fiber => m.fiber
    case Sugar => m.sugar
    case Sodium => m.sodium
  }

  /** Builds a record field by field. */
  function Build(g: MacroField -> Option<real>): (m: Macros)
    ensures forall f :: Get(m, f) == g(f)
  {
    Macros(g(Calories), g(Protein), g(Fat), g(Carbs), g(Fiber), g(Sugar), g(Sodium))
  }

  lemma {:induction false} MacrosExtensional(a: Macros, b: Macros)
    requires forall f :: Get(a, f) == Get(b, f)
    ensures a == b
  {
    assert Get(a, Calories) == Get(b, Calories) && Get(a, Protein) == Get(b, Protein);
    assert Get(a, Fat) == Get(b, Fat) && Get(a, Carbs) == Get(b, Carbs);
    assert Get(a, Fiber) == Get(b, Fiber) && Get(a, Sugar) == Get(b, Sugar);
    assert Get(a, Sodium) == Get(b, Sodium);
  }

  // ---------------------------------------------------------------------------
  // Accumulation
  // ---------------------------------------------------------------------------

  /**
   * One step of `if (val != null) totals[field] = (totals[field] ?? 0) + val`:
   * a null value leaves the accumulator as it is (possibly still unset).
   */
  function AddValue(acc: Option<real>, v: Option<real>): (r: Option<real>)
    ensures r.None? <==> acc.None? && v.None?
    ensures r.GetOr(0.0) == acc.GetOr(0.0) + v.GetOr(0.0)
    ensures v.None? ==> r == acc
  {
    if v.None? then acc else Some(acc.GetOr(0.0) + v.value)
  }

  /** The inner `for (const field of macroFields)` loop: every field of one item added in. */
  function AddInto(acc: Macros, m: Macros): (r: Macros)
    ensures forall f :: Get(r, f) == AddValue(Get(acc, f), Get(m, f))
    ensures forall f :: (Get(r, f).None? <==> Get(acc, f).None? && Get(m, f).None?)
                        && Get(r, f).GetOr(0.0) == Get(acc, f).GetOr(0.0) + Get(m, f).GetOr(0.0)
  {
    Build(f => AddValue(Get(acc, f), Get(m, f)))
  }

  /** Items added into `acc` one after the other, first to last. */
  function Accumulate(acc: Macros, ms: seq<Macros>): Macros
    decreases |ms|
  {
    if ms == [] then acc else AddInto(Accumulate(acc, ms[..|ms| - 1]), ms[|ms| - 1])
  }

  /** The totals of a list of items, starting from an empty accumulator. */
  function Totals(ms: seq<Macros>): Macros {
    Accumulate(NoMacros, ms)
  }

  /** Reference definition: the plain sum of one field, an unset value counting as 0. */
  function FieldSum(ms: seq<Macros>, f: MacroField): real
    decreases |ms|
  {
    if ms == [] then 0.0 else FieldSum(ms[..|ms| - 1], f) + Get(ms[|ms| - 1], f).GetOr(0.0)
  }

  /** Some item has a value for field `f`. */
  predicate Contributes(ms: seq<Macros>, f: MacroField) {
    exists i :: 0 <= i < |ms| && Get(ms[i], f).Some?
  }

  lemma ContributesSnoc(ms: seq<Macros>, f: MacroField)
    requires ms != []
    ensures Contributes(ms, f) <==> Contributes(ms[..|ms| - 1], f) || Get(ms[|ms| - 1], f).Some?
  {
    var init := ms[..|ms| - 1];
    if Contributes(init, f) {
      var i :| 0 <= i < |init| && Get(init[i], f).Some?;
      assert ms[i] == init[i];
    }
    if Contributes(ms, f) {
      var i :| 0 <= i < |ms| && Get(ms[i], f).Some?;
      if i < |init| { assert init[i] == ms[i]; }
    }
  }

  lemma {:induction false} AccumulateField(acc: Macros, ms: seq<Macros>, f: MacroField)
    ensures Get(Accumulate(acc, ms), f).None? <==> Get(acc, f).None? && !Contributes(ms, f)
    ensures Get(Accumulate(acc, ms), f).GetOr(0.0) == Get(acc, f).GetOr(0.0) + FieldSum(ms, f)
    decreases |ms|
  {
    if ms != [] {
      var init := ms[..|ms| - 1];
      var prev := Accumulate(acc, init);
      AccumulateField(acc, init, f);
      ContributesSnoc(ms, f);
      assert Accumulate(acc, ms) == AddInto(prev, ms[|ms| - 1]);
      assert Get(Accumulate(acc, ms), f) == AddValue(Get(prev, f), Get(ms[|ms| - 1], f));
    } else {
      assert !Contributes(ms, f);
    }
  }

  /**
   * What a total means: a field is unset exactly when no item has a value for
   * it, and otherwise is the sum of the values that are set.
   */
  lemma TotalsField(ms: seq<Macros>, f: MacroField)
    ensures Get(Totals(ms), f) == if Contributes(ms, f) then Some(FieldSum(ms, f)) else None
  {
    AccumulateField(NoMacros, ms, f);
  }

  lemma {:induction false} AccumulateAppend(acc: Macros, a: seq<Macros>, b: seq<Macros>)
    ensures Accumulate(acc, a + b) == Accumulate(Accumulate(acc, a), b)
    decreases |b|
  {
    if b == [] {
      assert a + b == a;
    } else {
      var b' := b[..|b| - 1];
      assert (a + b)[..|a + b| - 1] == a + b';
      assert (a + b)[|a + b| - 1] == b[|b| - 1];
      AccumulateAppend(acc, a, b');
    }
  }

  lemma {:induction false} FieldSumAppend(a: seq<Macros>, b: seq<Macros>, f: MacroField)
    ensures FieldSum(a + b, f) == FieldSum(a, f) + FieldSum(b, f)
    decreases |b|
  {
    if b == [] {
      assert a + b == a;
    } else {
      var b' := b[..|b| - 1];
      assert (a + b)[..|a + b| - 1] == a + b';
      assert (a + b)[|a + b| - 1] == b[|b| - 1];
      FieldSumAppend(a, b', f);
    }
  }

  lemma ContributesAppend(a: seq<Macros>, b: seq<Macros>, f: MacroField)
    ensures Contributes(a + b, f) <==> Contributes(a, f) || Contributes(b, f)
  {
    if Contributes(a + b, f) {
      var i :| 0 <= i < |a + b| && Get((a + b)[i], f).Some?;
      if i >= |a| { assert b[i - |a|] == (a + b)[i]; }
    }
    if Contributes(b, f) {
      var i :| 0 <= i < |b| && Get(b[i], f).Some?;
      assert (a + b)[|a| + i] == b[i];
    }
    if Contributes(a, f) {
      var i :| 0 <= i < |a| && Get(a[i], f).Some?;
      assert (a + b)[i] == a[i];
    }
  }

  /** Cutting out position `k` removes one occurrence of `s[k]`. */
  lemma MultisetRemoveAt<T>(s: seq<T>, k: nat)
    requires k < |s|
    ensures multiset(s[..k] + s[k + 1..]) == multiset(s) - multiset{s[k]}
  {
    calc {
      multiset(s);
      { assert s == s[..k] + [s[k]] + s[k + 1..]; }
      multiset(s[..k] + [s[k]] + s[k + 1..]);
      multiset(s[..k]) + multiset([s[k]]) + multiset(s[k + 1..]);
      multiset(s[..k] + s[k + 1..]) + multiset{s[k]};
    }
    assert (multiset(s[..k] + s[k + 1..]) + multiset{s[k]}) - multiset{s[k]} == multiset(s[..k] + s[k + 1..]);
  }

  /** Removing one occurrence of the same element from two permutations leaves permutations. */
  lemma RemoveFromPermutation<T>(a: seq<T>, b: seq<T>, k: nat)
    requires a != [] && multiset(a) == multiset(b)
    requires k < |b| && b[k] == a[|a| - 1]
    ensures multiset(a[..|a| - 1]) == multiset(b[..k] + b[k + 1..])
  {
    MultisetRemoveAt(a, |a| - 1);
    assert a[..|a| - 1] + a[|a| - 1 + 1..] == a[..|a| - 1];
    MultisetRemoveAt(b, k);
  }

  lemma FieldSumSplit(b: seq<Macros>, k: nat, f: MacroField)
    requires k < |b|
    ensures FieldSum(b, f) == FieldSum(b[..k] + b[k + 1..], f) + Get(b[k], f).GetOr(0.0)
  {
    assert b == b[..k] + [b[k]] + b[k + 1..];
    FieldSumAppend(b[..k], [b[k]], f);
    FieldSumAppend(b[..k] + [b[k]], b[k + 1..], f);
    FieldSumAppend(b[..k], b[k + 1..], f);
    assert FieldSum([b[k]], f) == Get(b[k], f).GetOr(0.0) by {
      assert [b[k]][..0] == [];
    }
  }

  lemma {:induction false} FieldSumPermutation(a: seq<Macros>, b: seq<Macros>, f: MacroField)
    requires multiset(a) == multiset(b)
    ensures FieldSum(a, f) == FieldSum(b, f)
    decreases |a|
  {
    if a != [] {
      var x := a[|a| - 1];
      assert x in multiset(b);
      var k :| 0 <= k < |b| && b[k] == x;
      RemoveFromPermutation(a, b, k);
      FieldSumPermutation(a[..|a| - 1], b[..k] + b[k + 1..], f);
      FieldSumSplit(b, k, f);
    } else {
      assert b == [] by { assert |multiset(b)| == 0; }
    }
  }

  lemma ContributesPermutation(a: seq<Macros>, b: seq<Macros>, f: MacroField)
    requires multiset(a) == multiset(b)
    ensures Contributes(a, f) <==> Contributes(b, f)
  {
    if Contributes(a, f) {
      var i :| 0 <= i < |a| && Get(a[i], f).Some?;
      assert a[i] in multiset(b);
      var j :| 0 <= j < |b| && b[j] == a[i];
    }
    if Contributes(b, f) {
      var i :| 0 <= i < |b| && Get(b[i], f).Some?;
      assert b[i] in multiset(a);
      var j :| 0 <= j < |a| && a[j] == b[i];
    }
  }

  /** Totals do not depend on the order in which the items are visited. */
  lemma TotalsPermutation(a: seq<Macros>, b: seq<Macros>)
    requires multiset(a) == multiset(b)
    ensures Totals(a) == Totals(b)
  {
    forall f ensures Get(Totals(a), f) == Get(Totals(b), f) {
      TotalsField(a, f);
      TotalsField(b, f);
      FieldSumPermutation(a, b, f);
      ContributesPermutation(a, b, f);
    }
    MacrosExtensional(Totals(a), Totals(b));
  }

  // ---------------------------------------------------------------------------
  // Scaling
  // ---------------------------------------------------------------------------

  /** `perUnit != null ? perUnit * qty : null`. */
  function ScaleValue(v: Option<real>, q: real): (r: Option<real>)
    ensures r.Some? <==> v.Some?
    ensures v.Some? ==> r.value == v.value * q
  {
    if v.Some? then Some(v.value * q) else None
  }

  /** A food's per-base-unit values multiplied by a quantity; null stays null. */
  function Scale(m: Macros, q: real): (r: Macros)
    ensures forall f :: Get(r, f) == ScaleValue(Get(m, f), q)
  {
    Build(f => ScaleValue(Get(m, f), q))
  }

  // ---------------------------------------------------------------------------
  // Display rounding
  // ---------------------------------------------------------------------------

  /** JavaScript's `Math.round`: the nearest integer, halves rounded up. */
  function RoundInt(x: real): (r: int)
    ensures r as real - 0.5 <= x < r as real + 0.5
  {
    (x + 0.5).Floor
  }

  /** The rounding is determined by its bounds: the only integer within half a unit, halves up. */
  lemma RoundIntUnique(x: real, n: int)
    requires n as real - 0.5 <= x < n as real + 0.5
    ensures RoundInt(x) == n
  {
    var r := RoundInt(x);
    assert r as real - 0.5 <= x < r as real + 0.5;
    assert r - 1 < n < r + 1 by {
      assert (n - r) as real < 1.0 && (r - n) as real < 1.0;
    }
  }

  /** `Math.round(x * 10) / 10`: a multiple of one tenth within half a tenth of `x`. */
  function Round1(x: real): (r: real)
    ensures r - 0.05 <= x < r + 0.05
    ensures (r * 10.0).Floor as real == r * 10.0
  {
    RoundInt(x * 10.0) as real / 10.0
  }

  lemma Round1Idempotent(x: real)
    ensures Round1(Round1(x)) == Round1(x)
  {
    var n := RoundInt(x * 10.0);
    assert Round1(x) * 10.0 == n as real;
    RoundIntUnique(Round1(x) * 10.0, n);
  }

  /** Calories and sodium are shown as integers, every other field to one decimal. */
  function RoundField(f: MacroField, x: real): (r: real)
    ensures f in {Calories, Sodium} ==> r == RoundInt(x) as real && r.Floor as real == r
    ensures f !in {Calories, Sodium} ==> r == Round1(x) && (r * 10.0).Floor as real == r * 10.0
    ensures r - 0.5 <= x < r + 0.5
  {
    if f == Calories || f == Sodium then RoundInt(x) as real else Round1(x)
  }


  /**
   * The totals a text response prints: the fields in `shown` that have a
   * value, each rounded for display; the others are not printed.
   */
  function Displayed(t: Macros, shown: set<MacroField>): (r: Macros)
    ensures forall f :: Get(r, f).Some? <==> f in shown && Get(t, f).Some?
    ensures forall f :: f in shown && Get(t, f).Some? ==> Get(r, f).value == RoundField(f, Get(t, f).value)
  {
    Build(f => if f in shown && Get(t, f).Some? then Some(RoundField(f, Get(t, f).value)) else None)
  }

  /** The four fields `get_meal_schema` and `get_meal_log` print. */
  const MainFields: set<MacroField> := {Calories, Protein, Fat, Carbs}

  /** All seven fields, as `get_daily_summary` prints them. */
  const EveryField: set<MacroField> := {Calories, Protein, Fat, Carbs, Fiber, Sugar, Sodium}
}
