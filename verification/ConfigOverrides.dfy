/** Runtime overrides layered over the base configuration: src/core/config-overrides.ts. */
module ConfigOverrides {
  import opened Prelude
  import opened Schema
  import opened ConfigModel

  datatype Row = Row(key: Key, patch: Fields)

  /** The config_overrides table: one patch per (kind, name). */
  type Store = map<Key, Fields>

  function Stored(store: Store, key: Key): Fields {
    if key in store then store[key] else map[]
  }

  // ---------- merging ----------

  /** Assign `patch` to the entity called `name`, or append a new one. */
  function Upsert(arr: seq<Fields>, name: string, patch: Fields): seq<Fields> {
    if arr == [] then [map["name" := Str(name)] + patch]
    else if NameOf(arr[0]) == Str(name) then [arr[0] + patch] + arr[1..]
    else [arr[0]] + Upsert(arr[1..], name, patch)
  }

  function MergeOverrideInto(d: Config, row: Row): Config {
    var kind := row.key.kind;
    if IsSingleton(kind) then
      d.(singles := d.singles[kind := d.Single(kind).GetOr(map[]) + row.patch])
    else
      d.(entities := d.entities[kind := Upsert(d.List(kind), row.key.name, row.patch)])
  }

  function Layer(d: Config, rows: seq<Row>): Config {
    if rows == [] then d
    else MergeOverrideInto(Layer(d, rows[..|rows| - 1]), rows[|rows| - 1])
  }

  /** `getEffectiveConfig`, for the rows in the order the table lists them. */
  function Effective(schema: Kind -> Shape, base: Config, listing: seq<Row>): Option<Config> {
    ParseConfig(schema, Layer(base, listing))
  }

  /** `validateConfigWith`. */
  function Validate(schema: Kind -> Shape, from: Config, edits: seq<Row>): Option<Config> {
    ParseConfig(schema, Layer(from, edits))
  }

  /** The merged patch is kept as JSON text. */
  function Set(store: Store, row: Row): Store {
    store[row.key := RereadFields(Stored(store, row.key) + row.patch)]
  }

  function SetAll(store: Store, rows: seq<Row>): Store {
    if rows == [] then store
    else Set(SetAll(store, rows[..|rows| - 1]), rows[|rows| - 1])
  }

  /** `rows` lists the table, in any order. */
  ghost predicate Lists(rows: seq<Row>, store: Store) {
    && (forall i :: 0 <= i < |rows| ==> rows[i].key in store && store[rows[i].key] == rows[i].patch)
    && (forall i, j :: 0 <= i < j < |rows| ==> rows[i].key != rows[j].key)
    && (forall key :: key in store ==> HasKey(rows, key))
  }

  ghost predicate HasKey(rows: seq<Row>, key: Key) {
    exists i :: 0 <= i < |rows| && rows[i].key == key
  }

  /** The patch does not rename its entity. */
  predicate KeepsName(row: Row) {
    !IsSingleton(row.key.kind) && "name" in row.patch ==> row.patch["name"] == Str(row.key.name)
  }

  predicate GoodRow(row: Row) {
    Canonical(row.key) && KeepsName(row)
  }

  ghost predicate GoodRows(rows: seq<Row>) {
    forall i :: 0 <= i < |rows| ==> GoodRow(rows[i])
  }

  /** Every row keeps its name, and being JSON text holds no infinite number. */
  ghost predicate GoodStore(store: Store) {
    forall key :: key in store ==> GoodRow(Row(key, store[key])) && FiniteFields(store[key])
  }

  // ---------- merging, key by key ----------

  /** What a patch makes of the section or entity it lands on. */
  function Patched(key: Key, o: Option<Fields>, patch: Fields): Fields {
    match o
    case Some(f) => f + patch
    case None => if IsSingleton(key.kind) then patch else map["name" := Str(key.name)] + patch
  }

  lemma {:induction false} UpsertFinds(arr: seq<Fields>, name: string, patch: Fields, other: string)
    requires "name" in patch ==> patch["name"] == Str(name)
    ensures Find(Upsert(arr, name, patch), other)
         == if other == name then Some(Patched(Key(Tariff, name), Find(arr, name), patch)) else Find(arr, other)
  {
    if arr != [] && NameOf(arr[0]) != Str(name) {
      UpsertFinds(arr[1..], name, patch, other);
    }
  }

  lemma {:induction false} UpsertWellNamed(arr: seq<Fields>, name: string, patch: Fields)
    requires "name" in patch ==> patch["name"] == Str(name)
    requires WellNamed(arr)
    ensures WellNamed(Upsert(arr, name, patch))
    ensures forall e :: e in Upsert(arr, name, patch) ==> NameOf(e) == Str(name) || e in arr
  {
    if arr != [] {
      var tail := arr[1..];
      assert forall i :: 0 <= i < |tail| ==> tail[i] == arr[i + 1];
      if NameOf(arr[0]) != Str(name) {
        UpsertWellNamed(tail, name, patch);
        var up := Upsert(tail, name, patch);
        forall i | 0 <= i < |up| ensures NameOf(up[i]) != NameOf(arr[0]) {
          assert up[i] in up;
        }
        PrependNamed(arr[0], up);
      } else {
        PrependNamed(arr[0] + patch, tail);
      }
    }
  }

  lemma PrependNamed(e: Fields, rest: seq<Fields>)
    requires WellNamed(rest) && NameOf(e).Str? && forall i :: 0 <= i < |rest| ==> NameOf(rest[i]) != NameOf(e)
    ensures WellNamed([e] + rest)
  {
    hide NameOf;
  }

  lemma MergeByKey(d: Config, row: Row, key: Key)
    requires GoodRow(row) && Canonical(key)
    ensures Lookup(MergeOverrideInto(d, row), key)
         == if key == row.key then Some(Patched(key, Lookup(d, key), row.patch)) else Lookup(d, key)
  {
    if IsSingleton(row.key.kind) {
      assert map[] + row.patch == row.patch;
    } else if key.kind == row.key.kind {
      var arr := d.List(key.kind);
      UpsertFinds(arr, row.key.name, row.patch, key.name);
      assert MergeOverrideInto(d, row).List(key.kind) == Upsert(arr, row.key.name, row.patch);
    }
  }

  lemma MergeKeepsNames(d: Config, row: Row)
    requires GoodRow(row) && AllWellNamed(d)
    ensures AllWellNamed(MergeOverrideInto(d, row))
  {
    hide WellNamed, Upsert;
    var after := MergeOverrideInto(d, row);
    forall kind ensures WellNamed(after.List(kind)) {
      assert WellNamed(d.List(kind));
      if kind == row.key.kind && !IsSingleton(kind) {
        UpsertWellNamed(d.List(kind), row.key.name, row.patch);
      }
    }
  }

  lemma {:induction false} LayerKeepsNames(d: Config, rows: seq<Row>)
    requires GoodRows(rows) && AllWellNamed(d)
    ensures AllWellNamed(Layer(d, rows))
  {
    hide AllWellNamed, MergeOverrideInto, GoodRow;
    if rows != [] {
      LayerKeepsNames(d, rows[..|rows| - 1]);
      MergeKeepsNames(Layer(d, rows[..|rows| - 1]), rows[|rows| - 1]);
    }
  }

  /** Everything `rows` says about `key`, as one patch. */
  function Combined(rows: seq<Row>, key: Key): Option<Fields> {
    if rows == [] then None
    else
      var before := Combined(rows[..|rows| - 1], key);
      var last := rows[|rows| - 1];
      if last.key == key then Some(before.GetOr(map[]) + last.patch) else before
  }

  function Amended(key: Key, o: Option<Fields>, patch: Option<Fields>): Option<Fields> {
    match patch
    case Some(p) => Some(Patched(key, o, p))
    case None => o
  }

  lemma PatchesCompose(key: Key, o: Option<Fields>, p: Fields, q: Fields)
    ensures Patched(key, Some(Patched(key, o, p)), q) == Patched(key, o, p + q)
    ensures Patched(key, o, map[] + q) == Patched(key, o, q)
  {
    assert map[] + q == q;
    match o {
      case Some(f) => assert (f + p) + q == f + (p + q);
      case None => assert (map["name" := Str(key.name)] + p) + q == map["name" := Str(key.name)] + (p + q);
    }
  }

  /** Successive patches compose as one merged patch. */
  lemma {:induction false} LayerByKey(d: Config, rows: seq<Row>, key: Key)
    requires GoodRows(rows) && Canonical(key)
    ensures Lookup(Layer(d, rows), key) == Amended(key, Lookup(d, key), Combined(rows, key))
  {
    hide MergeOverrideInto, Lookup, Patched, GoodRow;
    if rows != [] {
      var front, last := rows[..|rows| - 1], rows[|rows| - 1];
      LayerByKey(d, front, key);
      MergeByKey(Layer(d, front), last, key);
      if last.key == key {
        PatchesCompose(key, Lookup(d, key), Combined(front, key).GetOr(map[]), last.patch);
      }
    }
  }

  lemma {:induction false} SetAllByKey(store: Store, rows: seq<Row>, key: Key)
    ensures PatchAt(SetAll(store, rows), key)
         == match Combined(rows, key)
            case Some(p) => Some(RereadFields(Stored(store, key) + p))
            case None => PatchAt(store, key)
  {
    hide RereadFields;
    if rows != [] {
      var front, last := rows[..|rows| - 1], rows[|rows| - 1];
      SetAllByKey(store, front, key);
      if last.key == key {
        var before, stored := Combined(front, key), Stored(store, key);
        if before.Some? {
          RereadSum(stored + before.value, last.patch);
          RereadSum(RereadFields(stored + before.value), last.patch);
          assert (stored + before.value) + last.patch == stored + (before.value + last.patch);
        } else {
          assert map[] + last.patch == last.patch;
        }
      }
    }
  }

  function PatchAt(store: Store, key: Key): Option<Fields> {
    if key in store then Some(store[key]) else None
  }

  lemma {:induction false} ListedOnce(rows: seq<Row>, key: Key)
    requires forall i, j :: 0 <= i < j < |rows| ==> rows[i].key != rows[j].key
    ensures HasKey(rows, key) <==> Combined(rows, key).Some?
    ensures forall i :: 0 <= i < |rows| && rows[i].key == key ==> Combined(rows, key) == Some(rows[i].patch)
  {
    if rows != [] {
      var front, last := rows[..|rows| - 1], rows[|rows| - 1];
      assert forall i :: 0 <= i < |front| ==> front[i] == rows[i];
      ListedOnce(front, key);
      if last.key == key {
        assert map[] + last.patch == last.patch;
        assert rows[|rows| - 1].key == key;
        assert Combined(front, key).Some? ==> HasKey(front, key);
      } else if HasKey(rows, key) {
        var i :| 0 <= i < |rows| && rows[i].key == key;
        assert front[i].key == key;
      }
    }
  }

  lemma ListingByKey(rows: seq<Row>, store: Store, key: Key)
    requires Lists(rows, store)
    ensures Combined(rows, key) == PatchAt(store, key)
  {
    ListedOnce(rows, key);
    if HasKey(rows, key) {
      var i :| 0 <= i < |rows| && rows[i].key == key;
    }
  }

  lemma ListingIsGood(rows: seq<Row>, store: Store)
    requires Lists(rows, store) && GoodStore(store)
    ensures GoodRows(rows)
  {
    forall i | 0 <= i < |rows| ensures GoodRow(rows[i]) {
      assert rows[i] == Row(rows[i].key, store[rows[i].key]);
    }
  }

  lemma {:induction false} SetAllStaysGood(store: Store, rows: seq<Row>)
    requires GoodStore(store) && GoodRows(rows)
    ensures GoodStore(SetAll(store, rows))
  {
    hide FiniteFields, RereadFields;
    if rows != [] {
      var front, last := rows[..|rows| - 1], rows[|rows| - 1];
      assert GoodRow(last);
      SetAllStaysGood(store, front);
      SetStaysGood(SetAll(store, front), last);
    }
  }

  lemma SetStaysGood(store: Store, row: Row)
    requires GoodStore(store) && GoodRow(row)
    ensures GoodStore(Set(store, row))
  {
    hide FiniteFields;
    RereadFinite(Stored(store, row.key) + row.patch);
  }

  /** The order in which the table lists its rows matters only to the order of the entity arrays. */
  lemma ListingOrderIsIrrelevant(schema: Kind -> Shape, base: Config, store: Store, a: seq<Row>, b: seq<Row>)
    requires NamedEntities(schema) && AllWellNamed(base) && GoodStore(store)
    requires Lists(a, store) && Lists(b, store)
    ensures Effective(schema, base, a).Some? <==> Effective(schema, base, b).Some?
    ensures Effective(schema, base, a).Some? ==>
      SameUpToOrder(Effective(schema, base, a).value, Effective(schema, base, b).value)
  {
    hide *;
    hide Effective;
    ListingIsGood(a, store);
    ListingIsGood(b, store);
    LayerKeepsNames(base, a);
    LayerKeepsNames(base, b);
    forall key | Canonical(key) ensures Lookup(Layer(base, a), key) == Lookup(Layer(base, b), key) {
      LayerByKey(base, a, key);
      LayerByKey(base, b, key);
      ListingByKey(a, store, key);
      ListingByKey(b, store, key);
    }
    SameSlotsSameConfig(schema, Layer(base, a), Layer(base, b));
    EffectiveIs(schema, base, a);
    EffectiveIs(schema, base, b);
  }

  lemma EffectiveIs(schema: Kind -> Shape, base: Config, rows: seq<Row>)
    ensures Effective(schema, base, rows) == ParseConfig(schema, Layer(base, rows))
    ensures Validate(schema, base, rows) == ParseConfig(schema, Layer(base, rows))
  {
  }

  // ---------- the order of the entities ----------

  function Names(es: seq<Fields>): (r: seq<Json>)
    ensures |r| == |es| && forall i :: 0 <= i < |es| ==> r[i] == NameOf(es[i])
  {
    seq(|es|, i requires 0 <= i < |es| => NameOf(es[i]))
  }

  function RowNames(rows: seq<Row>, kind: Kind): seq<Json> {
    if rows == [] then []
    else
      var front, last := RowNames(rows[..|rows| - 1], kind), rows[|rows| - 1];
      if last.key.kind == kind then front + [Str(last.key.name)] else front
  }

  lemma {:induction false} UpsertNew(arr: seq<Fields>, name: string, patch: Fields)
    requires Find(arr, name).None?
    ensures Upsert(arr, name, patch) == arr + [map["name" := Str(name)] + patch]
  {
    if arr != [] {
      UpsertNew(arr[1..], name, patch);
    }
  }

  lemma {:induction false} LayeredNames(d: Config, rows: seq<Row>, kind: Kind)
    requires GoodRows(rows) && kind in ENTITIES && d.List(kind) == []
    requires forall i, j :: 0 <= i < j < |rows| ==> rows[i].key != rows[j].key
    ensures Names(Layer(d, rows).List(kind)) == RowNames(rows, kind)
  {
    hide Upsert, MergeOverrideInto, Names, Lookup, GoodRow;
    if rows != [] {
      var front, last := rows[..|rows| - 1], rows[|rows| - 1];
      LayeredNames(d, front, kind);
      assert GoodRow(last);
      if last.key.kind == kind {
        NotYetThere(d, rows);
      }
      MergedNames(Layer(d, front), last, kind);
    } else {
      assert Names(d.List(kind)) == [];
    }
  }

  /** The entity a row names is not there before the row, if no earlier row and nothing in the draft names it. */
  lemma NotYetThere(d: Config, rows: seq<Row>)
    requires rows != [] && GoodRows(rows)
    requires forall i, j :: 0 <= i < j < |rows| ==> rows[i].key != rows[j].key
    requires var key := rows[|rows| - 1].key; key.kind in ENTITIES && d.List(key.kind) == []
    ensures Lookup(Layer(d, rows[..|rows| - 1]), rows[|rows| - 1].key).None?
  {
    hide Layer, Combined, KeepsName;
    var front, last := rows[..|rows| - 1], rows[|rows| - 1];
    assert GoodRow(last);
    LayerByKey(d, front, last.key);
    ListedOnce(front, last.key);
  }

  lemma MergedNames(d: Config, row: Row, kind: Kind)
    requires kind in ENTITIES && GoodRow(row) && (row.key.kind == kind ==> Lookup(d, row.key).None?)
    ensures Names(MergeOverrideInto(d, row).List(kind))
         == if row.key.kind == kind then Names(d.List(kind)) + [Str(row.key.name)] else Names(d.List(kind))
  {
    if row.key.kind == kind {
      UpsertNew(d.List(kind), row.key.name, row.patch);
    }
  }

  /** Over the defaults every entity comes from a row, and the entities keep the order the rows are
      listed in: by name, as the table's SELECT sorts them. */
  lemma EntitiesInListingOrder(schema: Kind -> Shape, base: Config, store: Store, listing: seq<Row>, kind: Kind)
    requires NamedEntities(schema) && kind in ENTITIES && base.List(kind) == []
    requires GoodStore(store) && Lists(listing, store) && Effective(schema, base, listing).Some?
    ensures Names(Effective(schema, base, listing).value.List(kind)) == RowNames(listing, kind)
  {
    hide Layer, Parse, RowNames, GoodRow;
    ListingIsGood(listing, store);
    LayeredNames(base, listing, kind);
    var arr := Layer(base, listing).List(kind);
    ParsedElements(schema(kind), arr);
    forall i | 0 <= i < |arr| ensures NameOf(Effective(schema, base, listing).value.List(kind)[i]) == NameOf(arr[i]) {
      ParseKeepsName(schema(kind), arr[i]);
    }
  }

  // ---------- validate, then persist ----------

  /** Parsing a section before patching it changes nothing. */
  lemma SlotThenPatch(schema: Kind -> Shape, key: Key, o: Option<Fields>, patch: Option<Fields>)
    requires ParseSlot(schema, key.kind, o).Some?
    ensures ParseSlot(schema, key.kind, Amended(key, ParseSlot(schema, key.kind, o).value, patch))
         == ParseSlot(schema, key.kind, Amended(key, o, patch))
  {
    hide Parse;
    var shape := schema(key.kind);
    var f := o.GetOr(map[]);
    if ParseSlot(schema, key.kind, o).value.Some? {
      if patch.Some? {
        ParseThenPatch(shape, f, patch.value);
        assert map[] + patch.value == patch.value;
      } else {
        ParseTwice(shape, f);
      }
    }
  }

  function RereadPatch(patch: Option<Fields>): Option<Fields> {
    match patch
    case Some(p) => Some(RereadFields(p))
    case None => None
  }

  /** Storing patches and layering the table is layering the table and then the patches as they are read back. */
  lemma SetThenLayer(base: Config, store: Store, listing: seq<Row>, edits: seq<Row>, after: seq<Row>, key: Key)
    requires GoodStore(store) && GoodRows(edits) && Canonical(key)
    requires Lists(listing, store) && Lists(after, SetAll(store, edits))
    ensures Lookup(Layer(base, after), key)
         == Amended(key, Lookup(Layer(base, listing), key), RereadPatch(Combined(edits, key)))
  {
    hide Lists, Lookup, Layer, Combined, SetAll, Patched, GoodRow, GoodStore, RereadFields;
    SetAllStaysGood(store, edits);
    ListingIsGood(listing, store);
    ListingIsGood(after, SetAll(store, edits));
    LayerByKey(base, listing, key);
    LayerByKey(base, after, key);
    ListingByKey(listing, store, key);
    ListingByKey(after, SetAll(store, edits), key);
    SetAllByKey(store, edits, key);
    if Combined(edits, key).Some? {
      var p := Combined(edits, key).value;
      RereadSum(Stored(store, key), p);
      StoredFinite(store, key);
      PatchesCompose(key, Lookup(base, key), Stored(store, key), RereadFields(p));
    }
  }

  lemma StoredFinite(store: Store, key: Key)
    requires GoodStore(store)
    ensures RereadFields(Stored(store, key)) == Stored(store, key)
  {
    RereadFinite(Stored(store, key));
  }

  /** The edits put no infinite number where the schema would keep it. */
  ghost predicate KeepsFinite(schema: Kind -> Shape, edits: seq<Row>) {
    forall key :: Canonical(key) && Combined(edits, key).Some? ==> KeptFiniteUnder(schema, edits, key)
  }

  predicate KeptFiniteUnder(schema: Kind -> Shape, edits: seq<Row>, key: Key)
    requires Combined(edits, key).Some?
  {
    KeptFiniteFields(schema(key.kind), Combined(edits, key).value)
  }

  /** What a patch makes of a slot, and what it makes of it after it has been stored. */
  lemma SlotReread(schema: Kind -> Shape, key: Key, o: Option<Fields>, patch: Fields)
    ensures var raw := ParseSlot(schema, key.kind, Some(Patched(key, o, patch)));
      var stored := ParseSlot(schema, key.kind, Some(Patched(key, o, RereadFields(patch))));
      && (KeptFiniteFields(schema(key.kind), patch) ==> stored == raw)
      && (raw.Some? && stored == raw ==> KeptFiniteFields(schema(key.kind), patch))
      && (stored.Some? ==> raw.Some?)
  {
    hide Parse, KeptFiniteFields, RereadFields;
    var blank := if IsSingleton(key.kind) then map[] else map["name" := Str(key.name)];
    var start := match o case Some(f) => f case None => blank;
    RereadPatchIff(schema(key.kind), start, patch);
    assert map[] + patch == patch && map[] + RereadFields(patch) == RereadFields(patch);
  }

  /** The validated draft and the booted one, key by key. */
  lemma DraftsByKey(schema: Kind -> Shape, base: Config, store: Store, listing: seq<Row>, edits: seq<Row>,
                    after: seq<Row>, key: Key)
    requires NamedEntities(schema) && AllWellNamed(base) && Canonical(key)
    requires GoodStore(store) && GoodRows(edits)
    requires Lists(listing, store) && Lists(after, SetAll(store, edits))
    requires Effective(schema, base, listing).Some?
    ensures var running := Effective(schema, base, listing).value;
      var validated := ParseSlot(schema, key.kind, Lookup(Layer(running, edits), key));
      var booted := ParseSlot(schema, key.kind, Lookup(Layer(base, after), key));
      var patch := Combined(edits, key);
      && (patch.None? || KeptFiniteUnder(schema, edits, key) ==> booted == validated)
      && (validated.Some? && booted == validated && patch.Some? ==> KeptFiniteUnder(schema, edits, key))
      && (booted.Some? ==> validated.Some?)
  {
    hide Lists, Lookup, Layer, Combined, SetAll, Patched, GoodRow, GoodRows, GoodStore, RereadFields, ParseSlot,
      Effective, NamedEntities, AllWellNamed, KeptFiniteFields;
    var running := Effective(schema, base, listing).value;
    EffectiveIs(schema, base, listing);
    LayerByKey(running, edits, key);
    SetThenLayer(base, store, listing, edits, after, key);
    ParsedLookup(schema, Layer(base, listing), key);
    var o := Lookup(Layer(base, listing), key);
    SlotThenPatch(schema, key, o, Combined(edits, key));
    if Combined(edits, key).Some? {
      SlotReread(schema, key, o, Combined(edits, key).value);
    }
  }

  /** Configurations that differ in the order of their entities only agree under every key. */
  lemma SameUpToOrderByKey(a: Config, b: Config, key: Key)
    requires AllWellNamed(a) && AllWellNamed(b) && SameUpToOrder(a, b)
    ensures Lookup(a, key) == Lookup(b, key)
  {
    hide WellNamed;
    if IsSingleton(key.kind) {
      assert key.kind in SINGLETONS;
    } else {
      assert key.kind in ENTITIES && WellNamed(a.List(key.kind)) && WellNamed(b.List(key.kind));
      SameBagSameFind(a.List(key.kind), b.List(key.kind), key.name);
    }
  }

  lemma SameBagSameFind(a: seq<Fields>, b: seq<Fields>, name: string)
    requires WellNamed(a) && WellNamed(b) && multiset(a) == multiset(b)
    ensures Find(a, name) == Find(b, name)
  {
    hide WellNamed;
    if Find(a, name).Some? {
      CountByName(a, Find(a, name).value);
      CountByName(b, Find(a, name).value);
    } else if Find(b, name).Some? {
      CountByName(b, Find(b, name).value);
      CountByName(a, Find(b, name).value);
    }
  }

  /**
   * Validate-then-persist: the table the edits are stored in yields a
   * configuration only if they validated against the running one, and then it
   * is the validated candidate exactly if the edits put no infinite number
   * where the schema would keep it.
   */
  lemma ValidateThenPersist(schema: Kind -> Shape, base: Config, store: Store, listing: seq<Row>,
                            edits: seq<Row>, after: seq<Row>)
    requires NamedEntities(schema) && AllWellNamed(base)
    requires GoodStore(store) && GoodRows(edits)
    requires Lists(listing, store) && Lists(after, SetAll(store, edits))
    requires Effective(schema, base, listing).Some?
    ensures var candidate := Validate(schema, Effective(schema, base, listing).value, edits);
      var boot := Effective(schema, base, after);
      && (boot.Some? ==> candidate.Some?)
      && (candidate.Some? ==>
            (boot.Some? && SameUpToOrder(candidate.value, boot.value) <==> KeepsFinite(schema, edits)))
  {
    hide *;
    var running := Effective(schema, base, listing).value;
    var validated, booted := Layer(running, edits), Layer(base, after);
    EffectiveIs(schema, base, listing);
    EffectiveIs(schema, base, after);
    EffectiveIs(schema, running, edits);
    SetAllStaysGood(store, edits);
    ListingIsGood(listing, store);
    ListingIsGood(after, SetAll(store, edits));
    LayerKeepsNames(base, listing);
    LayerKeepsNames(base, after);
    ParsedConfigWellNamed(schema, Layer(base, listing));
    LayerKeepsNames(running, edits);
    ParsesByKey(schema, validated);
    ParsesByKey(schema, booted);
    forall key | Canonical(key)
      ensures ParseSlot(schema, key.kind, Lookup(booted, key)).Some?
        ==> ParseSlot(schema, key.kind, Lookup(validated, key)).Some?
      ensures KeepsFinite(schema, edits) ==>
        ParseSlot(schema, key.kind, Lookup(booted, key)) == ParseSlot(schema, key.kind, Lookup(validated, key))
    {
      DraftsByKey(schema, base, store, listing, edits, after, key);
      if KeepsFinite(schema, edits) && Combined(edits, key).Some? {
        KeepsFiniteAt(schema, edits, key);
      }
    }
    if KeepsFinite(schema, edits) {
      SameSlotsSameConfig(schema, validated, booted);
    }
    if ParseConfig(schema, validated).Some? && ParseConfig(schema, booted).Some?
       && SameUpToOrder(ParseConfig(schema, validated).value, ParseConfig(schema, booted).value)
    {
      ParsedConfigWellNamed(schema, validated);
      ParsedConfigWellNamed(schema, booted);
      forall key | Canonical(key) && Combined(edits, key).Some? ensures KeptFiniteUnder(schema, edits, key) {
        DraftsByKey(schema, base, store, listing, edits, after, key);
        ParsedLookup(schema, validated, key);
        ParsedLookup(schema, booted, key);
        SameUpToOrderByKey(ParseConfig(schema, validated).value, ParseConfig(schema, booted).value, key);
      }
      KeepsFiniteIs(schema, edits);
    }
  }

  lemma KeepsFiniteAt(schema: Kind -> Shape, edits: seq<Row>, key: Key)
    requires KeepsFinite(schema, edits) && Canonical(key) && Combined(edits, key).Some?
    ensures KeptFiniteUnder(schema, edits, key)
  {
    hide KeptFiniteUnder, Combined;
  }

  lemma KeepsFiniteIs(schema: Kind -> Shape, edits: seq<Row>)
    requires forall key :: Canonical(key) && Combined(edits, key).Some? ==> KeptFiniteUnder(schema, edits, key)
    ensures KeepsFinite(schema, edits)
  {
    hide KeptFiniteUnder, Combined;
  }

  /** One guarded write: validate against the running configuration, persist only if it passes. */
  function Save(schema: Kind -> Shape, base: Config, list: Store -> seq<Row>, store: Store, edits: seq<Row>): Store {
    match Effective(schema, base, list(store))
    case Some(running) => if Validate(schema, running, edits).Some? then SetAll(store, edits) else store
    case None => store
  }

  function SaveEach(schema: Kind -> Shape, base: Config, list: Store -> seq<Row>, store: Store,
                    writes: seq<seq<Row>>): Store
    decreases |writes|
  {
    if writes == [] then store
    else SaveEach(schema, base, list, Save(schema, base, list, store, writes[0]), writes[1..])
  }

  /** Guarded writes never leave a table that the next boot would reject. */
  lemma {:induction false} GuardedWritesNeverBrick(schema: Kind -> Shape, base: Config, list: Store -> seq<Row>,
                                                   store: Store, writes: seq<seq<Row>>)
    requires NamedEntities(schema) && AllWellNamed(base) && GoodStore(store)
    requires forall s :: Lists(list(s), s)
    requires forall i :: 0 <= i < |writes| ==> GoodRows(writes[i]) && KeepsFinite(schema, writes[i])
    requires Effective(schema, base, list(store)).Some?
    ensures Effective(schema, base, list(SaveEach(schema, base, list, store, writes))).Some?
    decreases |writes|
  {
    hide Effective, Validate, Lists, SetAll, GoodRow, GoodStore, NamedEntities, AllWellNamed, KeepsFinite;
    if writes != [] {
      var running := Effective(schema, base, list(store)).value;
      var next := Save(schema, base, list, store, writes[0]);
      assert GoodRows(writes[0]);
      if Validate(schema, running, writes[0]).Some? {
        assert Lists(list(store), store) && Lists(list(SetAll(store, writes[0])), SetAll(store, writes[0]));
        ValidateThenPersist(schema, base, store, list(store), writes[0], list(SetAll(store, writes[0])));
        SetAllStaysGood(store, writes[0]);
      }
      assert forall i :: 0 <= i < |writes[1..]| ==> writes[1..][i] == writes[i + 1];
      GuardedWritesNeverBrick(schema, base, list, next, writes[1..]);
    }
  }

  // ---------- config:apply ----------

  predicate InBase(base: Config, key: Key) {
    IsSingleton(key.kind) || Find(base.List(key.kind), key.name).Some?
  }

  function Preserved(base: Config, prune: bool, store: Store): Store {
    map key | key in store && !prune && !InBase(base, key) :: store[key]
  }

  /** After config:apply the file speaks for everything it defines; only runtime-added entities stay. */
  lemma FileReasserts(base: Config, prune: bool, store: Store, listing: seq<Row>, key: Key)
    requires GoodStore(store) && Lists(listing, Preserved(base, prune, store)) && Canonical(key)
    ensures Lookup(Layer(base, listing), key)
         == if prune || InBase(base, key) || key !in store then Lookup(base, key)
            else Some(Patched(key, None, store[key]))
  {
    hide Lists, Layer, Combined, GoodRow;
    var kept := Preserved(base, prune, store);
    assert forall k :: k in kept ==> kept[k] == store[k];
    ListingIsGood(listing, kept);
    LayerByKey(base, listing, key);
    ListingByKey(listing, kept, key);
  }

  // ---------- the table ----------

  class ConfigStore {
    var rows: Store

    constructor ()
      ensures rows == map[]
    {
      rows := map[];
    }

    method SetOverride(kind: Kind, name: string, patch: Fields)
      modifies this
      ensures rows == Set(old(rows), Row(Key(kind, name), patch))
    {
      var key := Key(kind, name);
      var merged := patch;
      if key in rows {
        merged := rows[key] + patch;
      }
      assert map[] + patch == patch;
      rows := rows[key := RereadFields(merged)];
    }

    method DeleteOverride(kind: Kind, name: string) returns (changed: bool)
      modifies this
      ensures changed <==> Key(kind, name) in old(rows)
      ensures rows == old(rows) - {Key(kind, name)}
    {
      changed := Key(kind, name) in rows;
      rows := rows - {Key(kind, name)};
    }

    /** `listing` is what the SELECT returns. */
    method GetEffectiveConfig(schema: Kind -> Shape, base: Config, listing: seq<Row>) returns (c: Option<Config>)
      requires Lists(listing, rows)
      ensures c == Effective(schema, base, listing)
    {
      var draft := base;
      for i := 0 to |listing|
        invariant draft == Layer(base, listing[..i])
      {
        assert listing[..i + 1][..i] == listing[..i];
        draft := MergeOverrideInto(draft, listing[i]);
      }
      assert listing[..|listing|] == listing;
      c := ParseConfig(schema, draft);
    }

    method ApplyConfigOverrides(base: Config, prune: bool, listing: seq<Row>)
      returns (cleared: seq<Row>, preserved: seq<Row>)
      requires Lists(listing, rows)
      modifies this
      ensures rows == Preserved(base, prune, old(rows))
      ensures Lists(preserved, rows)
      ensures Lists(cleared, old(rows) - rows.Keys)
    {
      ghost var before := rows;
      cleared, preserved := [], [];
      for i := 0 to |listing|
        invariant Sorted(listing[..i], base, prune, cleared, preserved)
        invariant rows == before - KeysOf(cleared)
      {
        var row := listing[i];
        assert listing[..i + 1][..i] == listing[..i];
        if prune || InBase(base, row.key) {
          var _ := DeleteOverride(row.key.kind, row.key.name);
          KeysOfSnoc(cleared, row);
          cleared := cleared + [row];
        } else {
          preserved := preserved + [row];
        }
      }
      assert listing[..|listing|] == listing;
      SortedLists(listing, before, base, prune, cleared, preserved);
    }
  }

  function KeysOf(rows: seq<Row>): set<Key> {
    set i | 0 <= i < |rows| :: rows[i].key
  }

  lemma KeysOfSnoc(rows: seq<Row>, row: Row)
    ensures KeysOf(rows + [row]) == KeysOf(rows) + {row.key}
  {
    var more := rows + [row];
    assert forall i :: 0 <= i < |rows| ==> more[i] == rows[i];
    assert more[|rows|].key == row.key;
    forall key | key in KeysOf(rows) ensures key in KeysOf(more) {
      var i :| 0 <= i < |rows| && rows[i].key == key;
      assert more[i].key == key;
    }
  }

  function Filtered(rows: seq<Row>, base: Config, clear: bool, prune: bool): seq<Row> {
    if rows == [] then []
    else
      var front, last := Filtered(rows[..|rows| - 1], base, clear, prune), rows[|rows| - 1];
      if (prune || InBase(base, last.key)) == clear then front + [last] else front
  }

  predicate Sorted(rows: seq<Row>, base: Config, prune: bool, cleared: seq<Row>, preserved: seq<Row>) {
    cleared == Filtered(rows, base, true, prune) && preserved == Filtered(rows, base, false, prune)
  }

  predicate Cleared(base: Config, prune: bool, row: Row) {
    prune || InBase(base, row.key)
  }

  lemma {:induction false} FilteredMembers(rows: seq<Row>, base: Config, clear: bool, prune: bool)
    ensures forall row ::
      row in Filtered(rows, base, clear, prune) <==> row in rows && Cleared(base, prune, row) == clear
  {
    hide InBase;
    if rows != [] {
      var front, last := rows[..|rows| - 1], rows[|rows| - 1];
      FilteredMembers(front, base, clear, prune);
      assert rows == front + [last];
    }
  }

  lemma {:induction false} FilteredRows(rows: seq<Row>, base: Config, clear: bool, prune: bool)
    requires forall i, j :: 0 <= i < j < |rows| ==> rows[i].key != rows[j].key
    ensures var out := Filtered(rows, base, clear, prune);
      && (forall row :: row in out <==> row in rows && Cleared(base, prune, row) == clear)
      && (forall i, j :: 0 <= i < j < |out| ==> out[i].key != out[j].key)
  {
    hide InBase, Cleared;
    FilteredMembers(rows, base, clear, prune);
    if rows != [] {
      var front, last := rows[..|rows| - 1], rows[|rows| - 1];
      FilteredRows(front, base, clear, prune);
      var kept := Filtered(front, base, clear, prune);
      forall i | 0 <= i < |kept| ensures kept[i].key != last.key {
        assert kept[i] in front;
      }
    }
  }

  lemma SortedLists(listing: seq<Row>, store: Store, base: Config, prune: bool, cleared: seq<Row>, preserved: seq<Row>)
    requires Lists(listing, store) && Sorted(listing, base, prune, cleared, preserved)
    ensures store - KeysOf(cleared) == Preserved(base, prune, store)
    ensures Lists(preserved, Preserved(base, prune, store))
    ensures Lists(cleared, store - Preserved(base, prune, store).Keys)
  {
    hide InBase, Filtered, Lists;
    ListsAreRows(listing, store);
    FilteredRows(listing, base, true, prune);
    FilteredRows(listing, base, false, prune);
    var kept := Preserved(base, prune, store);
    SublistLists(preserved, store, kept);
    var gone := store - kept.Keys;
    SublistLists(cleared, store, gone);
    forall key ensures key in KeysOf(cleared) <==> key in gone {
      if key in gone {
        assert Row(key, store[key]) in cleared;
      }
    }
  }

  lemma ListsAreRows(listing: seq<Row>, store: Store)
    requires Lists(listing, store)
    ensures forall row: Row :: row in listing <==> row.key in store && store[row.key] == row.patch
    ensures forall i, j :: 0 <= i < j < |listing| ==> listing[i].key != listing[j].key
  {
    forall row: Row | row.key in store && store[row.key] == row.patch ensures row in listing {
      assert HasKey(listing, row.key);
    }
  }

  lemma SublistLists(rows: seq<Row>, store: Store, part: Store)
    requires forall key :: key in part ==> key in store && part[key] == store[key]
    requires forall row: Row :: row in rows <==> row.key in part && part[row.key] == row.patch
    requires forall i, j :: 0 <= i < j < |rows| ==> rows[i].key != rows[j].key
    ensures Lists(rows, part)
  {
    forall key | key in part ensures HasKey(rows, key) {
      assert Row(key, part[key]) in rows;
    }
    forall i | 0 <= i < |rows| ensures rows[i].key in part && part[rows[i].key] == rows[i].patch {
      assert rows[i] in rows;
    }
  }
}
