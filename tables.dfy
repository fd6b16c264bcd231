/**
 * The database behind the tool handlers, as a value: one sequence of rows
 * per table and the counter that issues fresh ids. `Consistent` is what the
 * database's constraints guarantee (unique keys, every reference resolving)
 * and every transition below keeps it. Deleting a food removes the template
 * ingredients that use it and detaches logged items from it; deleting a
 * template removes its ingredients and detaches the entries logged from it;
 * deleting a metric removes its entries.
 */
module Tables {

  import opened Wrappers
  import opened Nutrition
  import opened Records

  datatype Tables = Tables(
    foods: seq<Food>,
    schemas: seq<MealSchema>,
    ingredients: seq<Ingredient>,
    entries: seq<Entry>,
    items: seq<Item>,
    metrics: seq<Metric>,
    metricEntries: seq<MetricEntry>,
    nextId: nat)

  const Empty: Tables := Tables([], [], [], [], [], [], [], 0)

  function SchemaIds(schemas: seq<MealSchema>): set<Id> {
    set s | s in schemas :: s.id
  }

  function EntryIds(entries: seq<Entry>): set<Id> {
    set e | e in entries :: e.id
  }

  function MetricIds(metrics: seq<Metric>): set<Id> {
    set m | m in metrics :: m.id
  }

  // ---------------------------------------------------------------------------
  // Keys and the consistency invariant
  // ---------------------------------------------------------------------------

  /** Two foods clash when they share an id or an owner and a name. */
  predicate FoodsClash(a: Food, b: Food) {
    a.id == b.id || (a.userId == b.userId && a.name == b.name)
  }

  predicate SchemasClash(a: MealSchema, b: MealSchema) {
    a.id == b.id || (a.userId == b.userId && a.name == b.name)
  }

  predicate EntriesClash(a: Entry, b: Entry) {
    a.id == b.id
  }

  predicate MetricsClash(a: Metric, b: Metric) {
    a.id == b.id || (a.userId == b.userId && a.name == b.name)
  }

  /** The `metricId_date` key: one entry per metric and date text. */
  predicate SameSlot(a: MetricEntry, b: MetricEntry) {
    a.metricId == b.metricId && a.date == b.date
  }

  predicate KeysUnique(t: Tables) {
    && Pairwise(t.foods, FoodsClash)
    && Pairwise(t.schemas, SchemasClash)
    && Pairwise(t.entries, EntriesClash)
    && Pairwise(t.metrics, MetricsClash)
    && Pairwise(t.metricEntries, SameSlot)
  }

  /** Every id in use was issued before `nextId`. */
  predicate IdsIssued(t: Tables) {
    && (forall f :: f in t.foods ==> f.id < t.nextId)
    && (forall s :: s in t.schemas ==> s.id < t.nextId)
    && (forall e :: e in t.entries ==> e.id < t.nextId)
    && (forall m :: m in t.metrics ==> m.id < t.nextId)
  }

  /** No reference dangles. */
  predicate RefsResolve(t: Tables) {
    && (forall g :: g in t.ingredients ==> g.foodId in FoodIds(t.foods) && g.schemaId in SchemaIds(t.schemas))
    && (forall e :: e in t.entries && e.schemaId.Some? ==> e.schemaId.value in SchemaIds(t.schemas))
    && (forall it :: it in t.items ==> it.entryId in EntryIds(t.entries))
    && (forall it :: it in t.items && it.line.foodId.Some? ==> it.line.foodId.value in FoodIds(t.foods))
    && (forall x :: x in t.metricEntries ==> x.metricId in MetricIds(t.metrics))
  }

  predicate Consistent(t: Tables) {
    KeysUnique(t) && IdsIssued(t) && RefsResolve(t)
  }

  lemma EmptyIsConsistent()
    ensures Consistent(Empty)
  {
  }

  /** In a consistent table a key lookup finds the only row with that key. */
  lemma FoundFoodIsTheOnlyOne(foods: seq<Food>, userId: string, name: string, k: nat)
    requires Pairwise(foods, FoodsClash)
    requires k < |foods| && foods[k].userId == userId && foods[k].name == name
    ensures FindFood(foods, userId, name) == Some(foods[k])
  {
    var r := FindFood(foods, userId, name);
    var j :| 0 <= j < |foods| && foods[j] == r.value;
    assert !(j < k && FoodsClash(foods[j], foods[k]));
    assert !(k < j && FoodsClash(foods[k], foods[j]));
  }

  // ---------------------------------------------------------------------------
  // Foods
  // ---------------------------------------------------------------------------

  function AddFood(t: Tables, f: Food): Tables {
    t.(foods := t.foods + [f], nextId := t.nextId + 1)
  }

  /** A new food with a fresh id and an unused name keeps the tables consistent. */
  lemma AddFoodConsistent(t: Tables, f: Food)
    requires Consistent(t) && f.id == t.nextId
    requires FindFood(t.foods, f.userId, f.name).None?
    ensures Consistent(AddFood(t, f))
    ensures FoodIds(AddFood(t, f).foods) == FoodIds(t.foods) + {f.id}
  {
    var r := AddFood(t, f);
    forall i, j | 0 <= i < j < |r.foods| ensures !FoodsClash(r.foods[i], r.foods[j]) {
      if j == |t.foods| {
        assert r.foods[i] == t.foods[i] && r.foods[i] in t.foods;
      } else {
        assert r.foods[i] == t.foods[i] && r.foods[j] == t.foods[j];
      }
    }
  }

  function ReplaceFood(t: Tables, k: nat, f: Food): Tables
    requires k < |t.foods|
  {
    t.(foods := t.foods[k := f])
  }

  /**
   * `update_food` keeps the tables consistent when a rename does not take a
   * name another food of the owner already has.
   */
  lemma UpdateFoodConsistent(t: Tables, k: nat, p: FoodPatch)
    requires Consistent(t) && k < |t.foods|
    requires p.newName.Some? && p.newName.value != t.foods[k].name ==>
      FindFood(t.foods, t.foods[k].userId, p.newName.value).None?
    ensures Consistent(ReplaceFood(t, k, ApplyPatch(t.foods[k], p)))
    ensures FoodIds(ReplaceFood(t, k, ApplyPatch(t.foods[k], p)).foods) == FoodIds(t.foods)
  {
    var u := ApplyPatch(t.foods[k], p);
    var r := ReplaceFood(t, k, u);
    forall i, j | 0 <= i < j < |r.foods| ensures !FoodsClash(r.foods[i], r.foods[j]) {
      if i == k || j == k {
        var o := if i == k then j else i;
        assert r.foods[o] == t.foods[o] && t.foods[o] in t.foods;
        assert t.foods[o].id != t.foods[k].id by {
          assert !FoodsClash(t.foods[i], t.foods[j]);
        }
        if p.newName.Some? && p.newName.value != t.foods[k].name {
          assert !(t.foods[o].userId == u.userId && t.foods[o].name == u.name);
        } else {
          assert u.name == t.foods[k].name;
          assert !FoodsClash(t.foods[i], t.foods[j]);
        }
      } else {
        assert r.foods[i] == t.foods[i] && r.foods[j] == t.foods[j];
      }
    }
    assert FoodIds(r.foods) == FoodIds(t.foods) by {
      forall x | x in FoodIds(t.foods) ensures x in FoodIds(r.foods) {
        var f :| f in t.foods && f.id == x;
        var n :| 0 <= n < |t.foods| && t.foods[n] == f;
        assert r.foods[n].id == x;
      }
      forall x | x in FoodIds(r.foods) ensures x in FoodIds(t.foods) {
        var f :| f in r.foods && f.id == x;
        var n :| 0 <= n < |r.foods| && r.foods[n] == f;
        assert t.foods[n].id == x;
      }
    }
  }

  function FoodIdIsNot(id: Id): Food -> bool {
    (f: Food) => f.id != id
  }

  function AvoidsFood(id: Id): Ingredient -> bool {
    (g: Ingredient) => g.foodId != id
  }

  /** The item with its reference to food `id` cleared (`onDelete: SetNull`); its macros are kept. */
  function DetachFood(it: Item, id: Id): Item {
    if it.line.foodId == Some(id) then it.(line := it.line.(foodId := None)) else it
  }

  function DetachFoodAll(items: seq<Item>, id: Id): (r: seq<Item>)
    ensures |r| == |items| && forall k :: 0 <= k < |items| ==> r[k] == DetachFood(items[k], id)
  {
    seq(|items|, k requires 0 <= k < |items| => DetachFood(items[k], id))
  }

  function RemoveFood(t: Tables, id: Id): Tables {
    t.(foods := Filter(t.foods, FoodIdIsNot(id)),
       ingredients := Filter(t.ingredients, AvoidsFood(id)),
       items := DetachFoodAll(t.items, id))
  }

  /**
   * `delete_food`: the food is gone, so are the template ingredients that
   * used it, and every other ingredient stays. Logged items stay, with the
   * same entry and the same (frozen) macros; only their food reference is
   * cleared.
   */
  lemma RemoveFoodEffects(t: Tables, id: Id)
    requires Consistent(t)
    ensures Consistent(RemoveFood(t, id))
    ensures FoodIds(RemoveFood(t, id).foods) == FoodIds(t.foods) - {id}
    ensures forall g :: g in RemoveFood(t, id).ingredients <==> g in t.ingredients && g.foodId != id
    ensures |RemoveFood(t, id).items| == |t.items|
    ensures forall k :: 0 <= k < |t.items| ==>
      var it := RemoveFood(t, id).items[k];
      it.entryId == t.items[k].entryId && it.line.macros == t.items[k].line.macros &&
      it.line.name == t.items[k].line.name && it.line.quantity == t.items[k].line.quantity &&
      it.line.foodId == (if t.items[k].line.foodId == Some(id) then None else t.items[k].line.foodId)
  {
    var r := RemoveFood(t, id);
    FilterPairwise(t.foods, FoodIdIsNot(id), FoodsClash);
    forall f ensures f in r.foods <==> f in t.foods && f.id != id {
      FilterMembership(t.foods, FoodIdIsNot(id), f);
    }
    forall g ensures g in r.ingredients <==> g in t.ingredients && g.foodId != id {
      FilterMembership(t.ingredients, AvoidsFood(id), g);
    }
    assert FoodIds(r.foods) == FoodIds(t.foods) - {id};
    forall it | it in r.items ensures it.entryId in EntryIds(r.entries)
      && (it.line.foodId.Some? ==> it.line.foodId.value in FoodIds(r.foods))
    {
      var k :| 0 <= k < |r.items| && r.items[k] == it;
      assert t.items[k] in t.items;
    }
  }

  // ---------------------------------------------------------------------------
  // Meal templates
  // ---------------------------------------------------------------------------

  function AddSchema(t: Tables, s: MealSchema, ings: seq<Ingredient>): Tables {
    t.(schemas := t.schemas + [s], ingredients := t.ingredients + ings, nextId := t.nextId + 1)
  }

  /**
   * A new template with a fresh id and an unused name, whose ingredients all
   * point at it and at existing foods, keeps the tables consistent.
   */
  lemma AddSchemaConsistent(t: Tables, s: MealSchema, ings: seq<Ingredient>)
    requires Consistent(t) && s.id == t.nextId
    requires FindSchema(t.schemas, s.userId, s.name).None?
    requires forall g :: g in ings ==> g.schemaId == s.id && g.foodId in FoodIds(t.foods)
    ensures Consistent(AddSchema(t, s, ings))
  {
    var r := AddSchema(t, s, ings);
    forall i, j | 0 <= i < j < |r.schemas| ensures !SchemasClash(r.schemas[i], r.schemas[j]) {
      if j == |t.schemas| {
        assert r.schemas[i] == t.schemas[i] && r.schemas[i] in t.schemas;
      } else {
        assert r.schemas[i] == t.schemas[i] && r.schemas[j] == t.schemas[j];
      }
    }
    assert SchemaIds(r.schemas) == SchemaIds(t.schemas) + {s.id};
  }

  function SchemaIdIsNot(id: Id): MealSchema -> bool {
    (s: MealSchema) => s.id != id
  }

  function InOtherSchema(id: Id): Ingredient -> bool {
    (g: Ingredient) => g.schemaId != id
  }

  /** The entry with its reference to template `id` cleared. */
  function DetachSchema(e: Entry, id: Id): Entry {
    if e.schemaId == Some(id) then e.(schemaId := None) else e
  }

  function DetachSchemaAll(entries: seq<Entry>, id: Id): (r: seq<Entry>)
    ensures |r| == |entries| && forall k :: 0 <= k < |entries| ==> r[k] == DetachSchema(entries[k], id)
  {
    seq(|entries|, k requires 0 <= k < |entries| => DetachSchema(entries[k], id))
  }

  function RemoveSchema(t: Tables, id: Id): Tables {
    t.(schemas := Filter(t.schemas, SchemaIdIsNot(id)),
       ingredients := Filter(t.ingredients, InOtherSchema(id)),
       entries := DetachSchemaAll(t.entries, id))
  }

  /** Clearing a template reference keeps every entry id. */
  lemma DetachSchemaAllIds(entries: seq<Entry>, id: Id)
    ensures EntryIds(DetachSchemaAll(entries, id)) == EntryIds(entries)
  {
    var r := DetachSchemaAll(entries, id);
    forall x | x in EntryIds(entries) ensures x in EntryIds(r) {
      var e :| e in entries && e.id == x;
      var n :| 0 <= n < |entries| && entries[n] == e;
      assert r[n].id == x;
    }
  }

  /**
   * `delete_meal_schema`: the template and its ingredients are gone; every
   * logged entry stays, with only its template reference cleared, and the
   * items are untouched.
   */
  lemma RemoveSchemaEffects(t: Tables, id: Id)
    requires Consistent(t)
    ensures Consistent(RemoveSchema(t, id))
    ensures SchemaIds(RemoveSchema(t, id).schemas) == SchemaIds(t.schemas) - {id}
    ensures forall g :: g in RemoveSchema(t, id).ingredients <==> g in t.ingredients && g.schemaId != id
    ensures |RemoveSchema(t, id).entries| == |t.entries|
    ensures forall k :: 0 <= k < |t.entries| ==>
      RemoveSchema(t, id).entries[k] ==
        t.entries[k].(schemaId := if t.entries[k].schemaId == Some(id) then None else t.entries[k].schemaId)
    ensures RemoveSchema(t, id).items == t.items
  {
    var r := RemoveSchema(t, id);
    FilterPairwise(t.schemas, SchemaIdIsNot(id), SchemasClash);
    forall s ensures s in r.schemas <==> s in t.schemas && s.id != id {
      FilterMembership(t.schemas, SchemaIdIsNot(id), s);
    }
    forall g ensures g in r.ingredients <==> g in t.ingredients && g.schemaId != id {
      FilterMembership(t.ingredients, InOtherSchema(id), g);
    }
    assert SchemaIds(r.schemas) == SchemaIds(t.schemas) - {id};
    forall i, j | 0 <= i < j < |r.entries| ensures !EntriesClash(r.entries[i], r.entries[j]) {
      assert !EntriesClash(t.entries[i], t.entries[j]);
    }
    DetachSchemaAllIds(t.entries, id);
    forall e | e in r.entries ensures e.id < r.nextId && (e.schemaId.Some? ==> e.schemaId.value in SchemaIds(r.schemas)) {
      var n :| 0 <= n < |r.entries| && r.entries[n] == e;
      assert t.entries[n] in t.entries;
    }
  }

  // ---------------------------------------------------------------------------
  // Logged meals
  // ---------------------------------------------------------------------------

  /** The rows `createMany` writes: every line attached to entry `entryId`, in order. */
  function Attach(entryId: Id, lines: seq<LogItem>): (r: seq<Item>)
    ensures |r| == |lines| && forall k :: 0 <= k < |lines| ==> r[k] == Item(entryId, lines[k])
  {
    seq(|lines|, k requires 0 <= k < |lines| => Item(entryId, lines[k]))
  }

  function AddEntry(t: Tables, e: Entry, lines: seq<LogItem>): Tables {
    t.(entries := t.entries + [e], items := t.items + Attach(e.id, lines), nextId := t.nextId + 1)
  }

  /**
   * A new entry with a fresh id, whose template and item foods exist, keeps
   * the tables consistent; every one of its items refers to it.
   */
  lemma AddEntryConsistent(t: Tables, e: Entry, lines: seq<LogItem>)
    requires Consistent(t) && e.id == t.nextId
    requires e.schemaId.Some? ==> e.schemaId.value in SchemaIds(t.schemas)
    requires forall l :: l in lines && l.foodId.Some? ==> l.foodId.value in FoodIds(t.foods)
    ensures Consistent(AddEntry(t, e, lines))
  {
    var r := AddEntry(t, e, lines);
    forall i, j | 0 <= i < j < |r.entries| ensures !EntriesClash(r.entries[i], r.entries[j]) {
      if j == |t.entries| {
        assert r.entries[i] == t.entries[i] && r.entries[i] in t.entries;
      } else {
        assert r.entries[i] == t.entries[i] && r.entries[j] == t.entries[j];
      }
    }
    assert EntryIds(r.entries) == EntryIds(t.entries) + {e.id};
    forall it | it in r.items ensures it.entryId in EntryIds(r.entries)
      && (it.line.foodId.Some? ==> it.line.foodId.value in FoodIds(r.foods))
    {
      var k :| 0 <= k < |r.items| && r.items[k] == it;
      if k < |t.items| {
        assert t.items[k] in t.items;
      } else {
        assert it.line == lines[k - |t.items|] && it.line in lines;
      }
    }
  }

  // ---------------------------------------------------------------------------
  // Metrics
  // ---------------------------------------------------------------------------

  function AddMetric(t: Tables, m: Metric): Tables {
    t.(metrics := t.metrics + [m], nextId := t.nextId + 1)
  }

  lemma AddMetricConsistent(t: Tables, m: Metric)
    requires Consistent(t) && m.id == t.nextId
    requires FindMetric(t.metrics, m.userId, m.name).None?
    ensures Consistent(AddMetric(t, m))
  {
    var r := AddMetric(t, m);
    forall i, j | 0 <= i < j < |r.metrics| ensures !MetricsClash(r.metrics[i], r.metrics[j]) {
      if j == |t.metrics| {
        assert r.metrics[i] == t.metrics[i] && r.metrics[i] in t.metrics;
      } else {
        assert r.metrics[i] == t.metrics[i] && r.metrics[j] == t.metrics[j];
      }
    }
    assert MetricIds(r.metrics) == MetricIds(t.metrics) + {m.id};
  }

  function MetricIdIsNot(id: Id): Metric -> bool {
    (m: Metric) => m.id != id
  }

  function OfOtherMetric(id: Id): MetricEntry -> bool {
    (x: MetricEntry) => x.metricId != id
  }

  function RemoveMetric(t: Tables, id: Id): Tables {
    t.(metrics := Filter(t.metrics, MetricIdIsNot(id)),
       metricEntries := Filter(t.metricEntries, OfOtherMetric(id)))
  }

  /** `delete_metric`: the metric and all of its entries are gone; every other entry stays. */
  lemma RemoveMetricEffects(t: Tables, id: Id)
    requires Consistent(t)
    ensures Consistent(RemoveMetric(t, id))
    ensures MetricIds(RemoveMetric(t, id).metrics) == MetricIds(t.metrics) - {id}
    ensures forall x :: x in RemoveMetric(t, id).metricEntries <==> x in t.metricEntries && x.metricId != id
  {
    var r := RemoveMetric(t, id);
    FilterPairwise(t.metrics, MetricIdIsNot(id), MetricsClash);
    FilterPairwise(t.metricEntries, OfOtherMetric(id), SameSlot);
    forall m ensures m in r.metrics <==> m in t.metrics && m.id != id {
      FilterMembership(t.metrics, MetricIdIsNot(id), m);
    }
    forall x ensures x in r.metricEntries <==> x in t.metricEntries && x.metricId != id {
      FilterMembership(t.metricEntries, OfOtherMetric(id), x);
    }
    assert MetricIds(r.metrics) == MetricIds(t.metrics) - {id};
  }

  function SlotOf(x: MetricEntry): MetricEntry -> bool {
    (y: MetricEntry) => SameSlot(y, x)
  }

  /**
   * `upsert` on `metricId_date`: the entry in `x`'s slot is replaced by `x`,
   * or `x` is appended when the slot is empty.
   */
  function Upsert(es: seq<MetricEntry>, x: MetricEntry): (r: seq<MetricEntry>)
    ensures x in r
    ensures (exists k :: 0 <= k < |es| && SameSlot(es[k], x)) ==> |r| == |es|
    ensures (forall k :: 0 <= k < |es| ==> !SameSlot(es[k], x)) ==> r == es + [x]
    ensures forall k :: 0 <= k < |es| && !SameSlot(es[k], x) ==> r[k] == es[k]
  {
    var i := FirstIndex(es, SlotOf(x));
    if i.Some? then
      var r := es[i.value := x];
      assert r[i.value] == x;
      r
    else es + [x]
  }

  /**
   * After an upsert into a table with unique slots, the slots are still
   * unique and the one entry in `x`'s slot is `x`.
   */
  lemma UpsertLeavesOneEntryPerSlot(es: seq<MetricEntry>, x: MetricEntry)
    requires Pairwise(es, SameSlot)
    ensures Pairwise(Upsert(es, x), SameSlot)
    ensures forall k :: 0 <= k < |Upsert(es, x)| && SameSlot(Upsert(es, x)[k], x) ==> Upsert(es, x)[k] == x
  {
    var r := Upsert(es, x);
    var i := FirstIndex(es, SlotOf(x));
    if i.Some? {
      forall k | 0 <= k < |r| && k != i.value ensures !SameSlot(r[k], x) {
        if k < i.value {
          assert !SameSlot(es[k], es[i.value]);
        } else {
          assert !SameSlot(es[i.value], es[k]);
        }
      }
      forall a, b | 0 <= a < b < |r| ensures !SameSlot(r[a], r[b]) {
        if a == i.value {
          assert !SameSlot(es[a], es[b]);
        } else if b == i.value {
          assert !SameSlot(es[a], es[b]);
        } else {
          assert r[a] == es[a] && r[b] == es[b];
        }
      }
    } else {
      forall a, b | 0 <= a < b < |r| ensures !SameSlot(r[a], r[b]) {
        if b == |es| {
          assert r[a] == es[a];
        } else {
          assert r[a] == es[a] && r[b] == es[b];
        }
      }
    }
  }

  /** Upserting twice into the same slot keeps only the second write. */
  lemma UpsertTwice(es: seq<MetricEntry>, x: MetricEntry, y: MetricEntry)
    requires SameSlot(x, y)
    ensures Upsert(Upsert(es, x), y) == Upsert(es, y)
  {
    var i := FirstIndex(es, SlotOf(x));
    var mid := Upsert(es, x);
    var j := FirstIndex(mid, SlotOf(y));
    if i.Some? {
      assert FirstIndex(es, SlotOf(y)) == i;
      assert j == i by {
        assert SlotOf(y)(mid[i.value]);
        assert forall k :: 0 <= k < i.value ==> mid[k] == es[k];
      }
    } else {
      assert FirstIndex(es, SlotOf(y)).None?;
      assert j == Some(|es|) by {
        assert forall k :: 0 <= k < |es| ==> mid[k] == es[k];
        assert SlotOf(y)(mid[|es|]);
      }
      assert mid[|es| := y] == es + [y];
    }
  }

  function PutMetricEntry(t: Tables, x: MetricEntry): Tables {
    t.(metricEntries := Upsert(t.metricEntries, x))
  }

  lemma PutMetricEntryConsistent(t: Tables, x: MetricEntry)
    requires Consistent(t) && x.metricId in MetricIds(t.metrics)
    ensures Consistent(PutMetricEntry(t, x))
  {
    UpsertLeavesOneEntryPerSlot(t.metricEntries, x);
    var r := PutMetricEntry(t, x);
    forall y | y in r.metricEntries ensures y.metricId in MetricIds(r.metrics) {
      var k :| 0 <= k < |r.metricEntries| && r.metricEntries[k] == y;
      if k < |t.metricEntries| && !SameSlot(t.metricEntries[k], x) {
        assert t.metricEntries[k] in t.metricEntries;
      } else if k < |t.metricEntries| {
        assert y.metricId == x.metricId;
      }
    }
  }

  /** Whether a new entry would collide with an existing one on `metricId_date`. */
  predicate SlotTaken(es: seq<MetricEntry>, x: MetricEntry) {
    exists k :: 0 <= k < |es| && SameSlot(es[k], x)
  }

  function AppendMetricEntry(t: Tables, x: MetricEntry): Tables {
    t.(metricEntries := t.metricEntries + [x])
  }

  lemma AppendMetricEntryConsistent(t: Tables, x: MetricEntry)
    requires Consistent(t) && x.metricId in MetricIds(t.metrics)
    requires !SlotTaken(t.metricEntries, x)
    ensures Consistent(AppendMetricEntry(t, x))
  {
    var r := AppendMetricEntry(t, x);
    forall a, b | 0 <= a < b < |r.metricEntries| ensures !SameSlot(r.metricEntries[a], r.metricEntries[b]) {
      if b == |t.metricEntries| {
        assert r.metricEntries[a] == t.metricEntries[a];
      } else {
        assert r.metricEntries[a] == t.metricEntries[a] && r.metricEntries[b] == t.metricEntries[b];
      }
    }
  }
}
