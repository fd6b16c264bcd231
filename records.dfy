/**
 * The rows of the nutrition store and the parts of the tool handlers that
 * only compute: looking a row up by its key, the partial update that
 * `update_food` applies, the missing-name check that guards template
 * creation and meal logging, and the log items that `log_meal` builds with
 * their macros frozen at log time.
 */
module Records {

  import opened Wrappers
  import opened Nutrition

  /** Row identifiers; the store hands out fresh ones. */
  type Id = nat

  /** How trustworthy a food's numbers are. */
  datatype Source = Verified | Estimated | Unknown

  /** The `timeOfDay` tag of a logged meal. */
  datatype MealType = Breakfast | Lunch | Dinner | Snack

  /** `daily`: one entry per calendar day; `timestamped`: any number of entries. */
  datatype Resolution = Daily | Timestamped

  /** `numeric`: every entry has a value; `checkin`: entries record presence only. */
  datatype MetricKind = Numeric | Checkin

  /**
   * A food of one user's library. Its macros are per base unit. A `source`
   * of `None` leaves the column at the store's default, which is not part of
   * this model.
   */
  datatype Food = Food(
    id: Id,
    userId: string,
    name: string,
    baseUnit: string,
    defaultServings: seq<string>,
    macros: Macros,
    source: Option<Source>)

  /** A meal template. */
  datatype MealSchema = MealSchema(id: Id, userId: string, name: string, description: Option<string>)

  /** One ingredient of a template: a food and, optionally, how many base units of it. */
  datatype Ingredient = Ingredient(schemaId: Id, foodId: Id, defaultQuantity: Option<real>)

  /** A logged meal; `schemaId` is a weak reference to the template it came from. */
  datatype Entry = Entry(
    id: Id,
    userId: string,
    schemaId: Option<Id>,
    loggedAt: string,
    timeOfDay: Option<MealType>,
    notes: Option<string>)

  /** The columns of a log item other than its entry. Its macros are totals, frozen when logged. */
  datatype LogItem = LogItem(foodId: Option<Id>, quantity: Option<real>, name: Option<string>, macros: Macros)

  /** A log item attached to its entry. */
  datatype Item = Item(entryId: Id, line: LogItem)

  /** A tracked metric. */
  datatype Metric = Metric(
    id: Id,
    userId: string,
    name: string,
    unit: Option<string>,
    resolution: Resolution,
    kind: MetricKind)

  /** One value of a metric: `date` is a calendar day for `daily` metrics and a full instant for `timestamped` ones. */
  datatype MetricEntry = MetricEntry(metricId: Id, date: string, timestamp: string, value: Option<real>)

  /**
   * Why a tool call reports an error. `StoreError` is a store failure the
   * handler does not catch: the whole call fails instead of returning an
   * error result.
   */
  datatype Failure =
    | NotFound(key: string)
    | Conflict(key: string)
    | FoodsNotFound(names: seq<string>)
    | NothingToLog
    | ValueRequired
    | ValueNotAllowed
    | StoreError

  datatype Result<T> = Ok(value: T) | Err(failure: Failure)

  // ---------------------------------------------------------------------------
  // Lookups
  // ---------------------------------------------------------------------------

  /** The position of the first element that satisfies `p`, if any. */
  function FirstIndex<T>(s: seq<T>, p: T -> bool): (r: Option<nat>)
    ensures r.Some? ==> r.value < |s| && p(s[r.value])
    ensures r.Some? ==> forall k :: 0 <= k < r.value ==> !p(s[k])
    ensures r.None? ==> forall k :: 0 <= k < |s| ==> !p(s[k])
    decreases |s|
  {
    if s == [] then None
    else if p(s[0]) then Some(0)
    else
      var rest := FirstIndex(s[1..], p);
      if rest.Some? then Some(rest.value + 1) else None
  }

  /** The elements that satisfy `p`, in their order. */
  function Filter<T>(s: seq<T>, p: T -> bool): (r: seq<T>)
    ensures forall k :: 0 <= k < |r| ==> r[k] in s && p(r[k])
    ensures forall k :: 0 <= k < |s| && p(s[k]) ==> s[k] in r
    ensures |r| <= |s|
    decreases |s|
  {
    if s == [] then []
    else if p(s[|s| - 1]) then Filter(s[..|s| - 1], p) + [s[|s| - 1]]
    else Filter(s[..|s| - 1], p)
  }

  lemma {:induction false} FilterAppend<T>(a: seq<T>, b: seq<T>, p: T -> bool)
    ensures Filter(a + b, p) == Filter(a, p) + Filter(b, p)
    decreases |b|
  {
    if b == [] {
      assert a + b == a;
    } else {
      var b' := b[..|b| - 1];
      assert (a + b)[..|a + b| - 1] == a + b';
      assert (a + b)[|a + b| - 1] == b[|b| - 1];
      FilterAppend(a, b', p);
    }
  }

  lemma FilterMembership<T>(s: seq<T>, p: T -> bool, x: T)
    ensures x in Filter(s, p) <==> x in s && p(x)
  {
    if x in Filter(s, p) {
      var k :| 0 <= k < |Filter(s, p)| && Filter(s, p)[k] == x;
    }
    if x in s && p(x) {
      var k :| 0 <= k < |s| && s[k] == x;
    }
  }

  /** No two rows of `s` clash: the uniqueness a table's keys enforce. */
  predicate Pairwise<T>(s: seq<T>, clash: (T, T) -> bool) {
    forall i, j :: 0 <= i < j < |s| ==> !clash(s[i], s[j])
  }

  /** Removing rows keeps a table's keys unique. */
  lemma {:induction false} FilterPairwise<T>(s: seq<T>, p: T -> bool, clash: (T, T) -> bool)
    requires Pairwise(s, clash)
    ensures Pairwise(Filter(s, p), clash)
    decreases |s|
  {
    if s != [] {
      var init := s[..|s| - 1];
      assert Pairwise(init, clash) by {
        forall i, j | 0 <= i < j < |init| ensures !clash(init[i], init[j]) {
          assert init[i] == s[i] && init[j] == s[j];
        }
      }
      FilterPairwise(init, p, clash);
      var r, fi := Filter(s, p), Filter(init, p);
      if p(s[|s| - 1]) {
        assert r == fi + [s[|s| - 1]];
        forall i, j | 0 <= i < j < |r| ensures !clash(r[i], r[j]) {
          if j == |r| - 1 {
            assert r[i] == fi[i] && fi[i] in init;
            var a :| 0 <= a < |init| && init[a] == fi[i];
            assert s[a] == init[a];
          } else {
            assert r[i] == fi[i] && r[j] == fi[j];
          }
        }
      }
    }
  }

  /** The rows of one user with one name, as the `userId_name` unique key selects them. */
  function FoodNamed(userId: string, name: string): Food -> bool {
    (f: Food) => f.userId == userId && f.name == name
  }

  function SchemaNamed(userId: string, name: string): MealSchema -> bool {
    (s: MealSchema) => s.userId == userId && s.name == name
  }

  function MetricNamed(userId: string, name: string): Metric -> bool {
    (m: Metric) => m.userId == userId && m.name == name
  }

  /** `findUnique({ where: { userId_name: { userId, name } } })` on the food library. */
  function FindFood(foods: seq<Food>, userId: string, name: string): (r: Option<Food>)
    ensures r.Some? ==> r.value in foods && r.value.userId == userId && r.value.name == name
    ensures r.None? ==> forall f :: f in foods ==> !(f.userId == userId && f.name == name)
  {
    var i := FirstIndex(foods, FoodNamed(userId, name));
    if i.Some? then Some(foods[i.value]) else None
  }

  function FindSchema(schemas: seq<MealSchema>, userId: string, name: string): (r: Option<MealSchema>)
    ensures r.Some? ==> r.value in schemas && r.value.userId == userId && r.value.name == name
    ensures r.None? ==> forall s :: s in schemas ==> !(s.userId == userId && s.name == name)
  {
    var i := FirstIndex(schemas, SchemaNamed(userId, name));
    if i.Some? then Some(schemas[i.value]) else None
  }

  function FindMetric(metrics: seq<Metric>, userId: string, name: string): (r: Option<Metric>)
    ensures r.Some? ==> r.value in metrics && r.value.userId == userId && r.value.name == name
    ensures r.None? ==> forall m :: m in metrics ==> !(m.userId == userId && m.name == name)
  {
    var i := FirstIndex(metrics, MetricNamed(userId, name));
    if i.Some? then Some(metrics[i.value]) else None
  }

  /** The ids of a set of foods, for the references that ingredients hold. */
  function FoodIds(foods: seq<Food>): set<Id> {
    set f | f in foods :: f.id
  }

  /** The food a reference points to (the store's join of an ingredient to its food). */
  function FoodById(foods: seq<Food>, id: Id): (r: Food)
    requires id in FoodIds(foods)
    ensures r in foods && r.id == id
    decreases |foods|
  {
    var f :| f in foods && f.id == id;
    if foods[0].id == id then foods[0]
    else
      assert f in foods[1..] by { assert foods == [foods[0]] + foods[1..]; }
      FoodById(foods[1..], id)
  }

  // ---------------------------------------------------------------------------
  // Missing food names
  // ---------------------------------------------------------------------------

  /**
   * `names.filter(n => !foodMap.has(n))`: the names that the user's library
   * does not hold, in input order, repeats kept.
   */
  function MissingNames(foods: seq<Food>, userId: string, names: seq<string>): (r: seq<string>)
    ensures forall n :: n in r <==> n in names && FindFood(foods, userId, n).None?
    ensures r == [] <==> forall n :: n in names ==> FindFood(foods, userId, n).Some?
    ensures |r| <= |names|
    decreases |names|
  {
    if names == [] then []
    else
      var n := names[|names| - 1];
      var init := MissingNames(foods, userId, names[..|names| - 1]);
      assert names == names[..|names| - 1] + [n];
      if FindFood(foods, userId, n).None? then init + [n] else init
  }

  /** Missing names keep the input order: the check of a concatenation is the concatenation of the checks. */
  lemma {:induction false} MissingNamesAppend(foods: seq<Food>, userId: string, a: seq<string>, b: seq<string>)
    ensures MissingNames(foods, userId, a + b) == MissingNames(foods, userId, a) + MissingNames(foods, userId, b)
    decreases |b|
  {
    if b == [] {
      assert a + b == a;
    } else {
      var b' := b[..|b| - 1];
      assert (a + b)[..|a + b| - 1] == a + b';
      assert (a + b)[|a + b| - 1] == b[|b| - 1];
      MissingNamesAppend(foods, userId, a, b');
    }
  }

  // ---------------------------------------------------------------------------
  // update_food
  // ---------------------------------------------------------------------------

  /** A nullable argument of a partial update: omitted (`Keep`) or given, possibly as null. */
  datatype Change<T> = Keep | Set(value: T)

  function Apply<T>(c: Change<T>, old_: T): T {
    if c.Set? then c.value else old_
  }

  /** The seven nullable macro arguments of `update_food`. */
  datatype MacroPatch = MacroPatch(
    calories: Change<Option<real>>,
    protein: Change<Option<real>>,
    fat: Change<Option<real>>,
    carbs: Change<Option<real>>,
    fiber: Change<Option<real>>,
    sugar: Change<Option<real>>,
    sodium: Change<Option<real>>)

  function ChangeOf(p: MacroPatch, f: MacroField): Change<Option<real>> {
    match f
    case Calories => p.calories
    case Protein => p.protein
    case Fat => p.fat
    case Carbs => p.carbs
    case Fiber => p.fiber
    case Sugar => p.sugar
    case Sodium => p.sodium
  }

  /**
   * The `data` object `update_food` builds: only the arguments that are not
   * `undefined` are set. `None` in the non-nullable fields is an omitted
   * argument.
   */
  datatype FoodPatch = FoodPatch(
    newName: Option<string>,
    baseUnit: Option<string>,
    defaultServings: Option<seq<string>>,
    macros: MacroPatch,
    source: Option<Source>)

  const NoMacroChange: MacroPatch := MacroPatch(Keep, Keep, Keep, Keep, Keep, Keep, Keep)
  const NoChange: FoodPatch := FoodPatch(None, None, None, NoMacroChange, None)

  /**
   * The food after the update: every supplied field takes its new value, a
   * macro given as null is cleared, and everything else, including the id and
   * the owner, is as before.
   */
  function ApplyPatch(food: Food, p: FoodPatch): (r: Food)
    ensures r.id == food.id && r.userId == food.userId
    ensures r.name == (if p.newName.Some? then p.newName.value else food.name)
    ensures r.baseUnit == (if p.baseUnit.Some? then p.baseUnit.value else food.baseUnit)
    ensures r.defaultServings == (if p.defaultServings.Some? then p.defaultServings.value else food.defaultServings)
    ensures r.source == (if p.source.Some? then p.source else food.source)
    ensures forall f :: ChangeOf(p.macros, f).Keep? ==> Get(r.macros, f) == Get(food.macros, f)
    ensures forall f :: ChangeOf(p.macros, f).Set? ==> Get(r.macros, f) == ChangeOf(p.macros, f).value
  {
    Food(
      food.id,
      food.userId,
      p.newName.GetOr(food.name),
      p.baseUnit.GetOr(food.baseUnit),
      p.defaultServings.GetOr(food.defaultServings),
      Build(f => Apply(ChangeOf(p.macros, f), Get(food.macros, f))),
      if p.source.Some? then p.source else food.source)
  }

  /** An update that supplies nothing leaves the food as it is. */
  lemma EmptyPatchChangesNothing(food: Food)
    ensures ApplyPatch(food, NoChange) == food
  {
    var r := ApplyPatch(food, NoChange);
    forall f ensures Get(r.macros, f) == Get(food.macros, f) {
      assert ChangeOf(NoMacroChange, f).Keep? by {
        match f
        case Calories => case Protein => case Fat => case Carbs =>
        case Fiber => case Sugar => case Sodium =>
      }
    }
    MacrosExtensional(r.macros, food.macros);
  }

  /** Applying the same update twice is the same as applying it once. */
  lemma PatchIdempotent(food: Food, p: FoodPatch)
    ensures ApplyPatch(ApplyPatch(food, p), p) == ApplyPatch(food, p)
  {
    var once := ApplyPatch(food, p);
    var twice := ApplyPatch(once, p);
    forall f ensures Get(twice.macros, f) == Get(once.macros, f) {
    }
    MacrosExtensional(twice.macros, once.macros);
  }

  // ---------------------------------------------------------------------------
  // log_meal: log items with frozen macros
  // ---------------------------------------------------------------------------

  /** An item argument of `log_meal`: a library food with a quantity, or an anonymous item with its own macros. */
  datatype ItemSpec =
    | FoodRef(foodName: string, quantity: real)
    | Anonymous(itemName: string, given: Macros)

  /** One ingredient argument of `create_meal_schema`. */
  datatype IngredientSpec = IngredientSpec(foodName: string, defaultQuantity: Option<real>)

  /** A template ingredient joined with its food. */
  datatype TemplateLine = TemplateLine(food: Food, defaultQuantity: Option<real>)

  /** The food names of the library-food items, in order (`adHocFoodNames`). */
  function AdHocNames(specs: seq<ItemSpec>): (r: seq<string>)
    ensures forall k :: 0 <= k < |specs| && specs[k].FoodRef? ==> specs[k].foodName in r
    ensures |r| <= |specs|
    decreases |specs|
  {
    if specs == [] then []
    else
      var init := AdHocNames(specs[..|specs| - 1]);
      var last := specs[|specs| - 1];
      assert forall k :: 0 <= k < |specs| - 1 ==> specs[..|specs| - 1][k] == specs[k];
      if last.FoodRef? then init + [last.foodName] else init
  }

  /**
   * Order and repeats: the names of a run of arguments are those of its
   * parts, one after the other.
   */
  lemma {:induction false} AdHocNamesAppend(a: seq<ItemSpec>, b: seq<ItemSpec>)
    ensures AdHocNames(a + b) == AdHocNames(a) + AdHocNames(b)
    decreases |b|
  {
    if b == [] {
      assert a + b == a;
    } else {
      var b' := b[..|b| - 1];
      var last := b[|b| - 1];
      AdHocNamesAppend(a, b');
      assert (a + b)[..|a + b| - 1] == a + b';
      assert (a + b)[|a + b| - 1] == last;
      var whole := AdHocNames(a + b);
      assert whole == AdHocNames(a + b') + (if last.FoodRef? then [last.foodName] else []);
      assert AdHocNames(b) == AdHocNames(b') + (if last.FoodRef? then [last.foodName] else []);
    }
  }

  /** One argument contributes its own name when it names a food, and nothing otherwise. */
  lemma AdHocNamesOfOne(s: ItemSpec)
    ensures AdHocNames([s]) == if s.FoodRef? then [s.foodName] else []
  {
    assert [s][..0] == [];
  }

  /** Every name collected comes from an argument that names a food. */
  lemma {:induction false} AdHocNamesOnlyFoodRefs(specs: seq<ItemSpec>, n: string)
    requires n in AdHocNames(specs)
    ensures exists k :: 0 <= k < |specs| && specs[k].FoodRef? && specs[k].foodName == n
    decreases |specs|
  {
    var init := specs[..|specs| - 1];
    var last := specs[|specs| - 1];
    if n in AdHocNames(init) {
      AdHocNamesOnlyFoodRefs(init, n);
      var k :| 0 <= k < |init| && init[k].FoodRef? && init[k].foodName == n;
      assert specs[k] == init[k];
    } else {
      assert last.FoodRef? && last.foodName == n;
    }
  }

  /** The food names of a template's ingredient arguments, in order. */
  function IngredientNames(specs: seq<IngredientSpec>): (r: seq<string>)
    ensures |r| == |specs| && forall k :: 0 <= k < |specs| ==> r[k] == specs[k].foodName
  {
    seq(|specs|, k requires 0 <= k < |specs| => specs[k].foodName)
  }

  /**
   * The item a template ingredient contributes: with a default quantity the
   * food's per-unit macros are scaled by it; without one they are copied
   * unscaled and the quantity stays empty.
   */
  function TemplateItem(line: TemplateLine): (r: LogItem)
    ensures r.foodId == Some(line.food.id) && r.name == Some(line.food.name)
    ensures r.quantity == line.defaultQuantity
    ensures line.defaultQuantity.Some? ==> r.macros == Scale(line.food.macros, line.defaultQuantity.value)
    ensures line.defaultQuantity.None? ==> r.macros == line.food.macros
  {
    var qty := line.defaultQuantity;
    var m := line.food.macros;
    ScaleEachIfSetMeaning(m, qty);
    LogItem(Some(line.food.id), qty, Some(line.food.name), ScaleEachIfSet(m, qty))
  }

  /** `qty != null && perUnit != null ? perUnit * qty : perUnit`. */
  function ScaleIfSet(perUnit: Option<real>, qty: Option<real>): Option<real> {
    if qty.Some? && perUnit.Some? then Some(perUnit.value * qty.value) else perUnit
  }

  /** The seven columns of a template item, each computed as `ScaleIfSet`. */
  function ScaleEachIfSet(m: Macros, qty: Option<real>): Macros {
    Macros(
      ScaleIfSet(m.calories, qty), ScaleIfSet(m.protein, qty), ScaleIfSet(m.fat, qty),
      ScaleIfSet(m.carbs, qty), ScaleIfSet(m.fiber, qty), ScaleIfSet(m.sugar, qty),
      ScaleIfSet(m.sodium, qty))
  }

  lemma ScaleIfSetSome(v: Option<real>, q: real)
    ensures ScaleIfSet(v, Some(q)) == ScaleValue(v, q)
  {
    if v.Some? {
      assert ScaleIfSet(v, Some(q)).value == v.value * q == ScaleValue(v, q).value;
    }
  }

  lemma ScaleEachIfSetMeaning(m: Macros, qty: Option<real>)
    ensures qty.Some? ==> ScaleEachIfSet(m, qty) == Scale(m, qty.value)
    ensures qty.None? ==> ScaleEachIfSet(m, qty) == m
  {
    if qty.Some? {
      var r := ScaleEachIfSet(m, qty);
      forall f ensures Get(r, f) == Get(Scale(m, qty.value), f) {
        ScaleIfSetSome(Get(m, f), qty.value);
        match f
        case Calories => case Protein => case Fat => case Carbs =>
        case Fiber => case Sugar => case Sodium =>
      }
      MacrosExtensional(r, Scale(m, qty.value));
    }
  }

  /**
   * The item an argument contributes: a library food's per-unit macros
   * multiplied by the quantity (null stays null), or an anonymous item with no
   * food and no quantity and exactly the macros given.
   */
  function SpecItem(spec: ItemSpec, foods: seq<Food>, userId: string): (r: LogItem)
    requires spec.FoodRef? ==> FindFood(foods, userId, spec.foodName).Some?
    ensures spec.FoodRef? ==>
      var food := FindFood(foods, userId, spec.foodName).value;
      r == LogItem(Some(food.id), Some(spec.quantity), Some(food.name), Scale(food.macros, spec.quantity))
    ensures spec.Anonymous? ==> r == LogItem(None, None, Some(spec.itemName), spec.given)
  {
    match spec
    case FoodRef(foodName, qty) =>
      var food := FindFood(foods, userId, foodName).value;
      LogItem(Some(food.id), Some(qty), Some(food.name), Scale(food.macros, qty))
    case Anonymous(itemName, given) =>
      LogItem(None, None, Some(itemName), given)
  }

  /**
   * The `logItems` list: first one item per template ingredient, then one per
   * item argument, each in order.
   */
  method BuildLogItems(template: seq<TemplateLine>, specs: seq<ItemSpec>, foods: seq<Food>, userId: string)
    returns (items: seq<LogItem>)
    requires MissingNames(foods, userId, AdHocNames(specs)) == []
    ensures |items| == |template| + |specs|
    ensures forall k :: 0 <= k < |template| ==> items[k] == TemplateItem(template[k])
    ensures forall k :: 0 <= k < |specs| ==> items[|template| + k] == SpecItem(specs[k], foods, userId)
  {
    items := [];
    for i := 0 to |template|
      invariant |items| == i
      invariant forall k :: 0 <= k < i ==> items[k] == TemplateItem(template[k])
    {
      items := items + [TemplateItem(template[i])];
    }
    for i := 0 to |specs|
      invariant |items| == |template| + i
      invariant forall k :: 0 <= k < |template| ==> items[k] == TemplateItem(template[k])
      invariant forall k :: 0 <= k < i ==> items[|template| + k] == SpecItem(specs[k], foods, userId)
    {
      items := items + [SpecItem(specs[i], foods, userId)];
    }
  }

  /** The macros of a list of log items. */
  function LineMacros(lines: seq<LogItem>): (r: seq<Macros>)
    ensures |r| == |lines| && forall k :: 0 <= k < |lines| ==> r[k] == lines[k].macros
  {
    seq(|lines|, k requires 0 <= k < |lines| => lines[k].macros)
  }
}
