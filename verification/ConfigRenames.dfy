/**
  What the guard of config-overrides.ts does not guard: a patch that renames its entity. The table's rows keep
  the name they were stored under.
 */
module ConfigRenames {
  import opened Prelude
  import opened Schema
  import opened ConfigModel
  import opened ConfigOverrides
  import opened ConfigListing
  import opened ConfigIo

  predicate HasNameAndType(e: Fields) {
    "name" in e && e["name"].Str? && "type" in e && e["type"].Str?
  }

  /** Meter readers need a name and a type, and nothing else is checked. */
  ghost predicate PlainMeters(schema: Kind -> Shape) {
    forall e :: Parse(schema(MeterReader), e).Some? <==> HasNameAndType(e)
  }

  lemma ConfigSchemaPlainMeters(validZone: string -> bool)
    ensures PlainMeters(ConfigSchema(validZone))
  {
    hide Parse, SMART_CHARGING_SHAPE, MQTT_BRIDGE_SHAPE, BALANCER_SHAPE, LOADPOINT_SHAPE, SiteShape;
    var shape := ConfigSchema(validZone)(MeterReader);
    assert shape == NAMED_MODULE_SHAPE;
    forall e ensures Parse(shape, e).Some? <==> HasNameAndType(e) {
      ParseAt(shape, e);
      assert At(shape, e, "name") == Fill(Required(TEXT), Get(e, "name"));
      assert At(shape, e, "type") == Fill(Required(TEXT), Get(e, "type"));
    }
  }

  lemma LayerTwo(d: Config, first: Row, second: Row)
    ensures Layer(d, [first]) == MergeOverrideInto(d, first)
    ensures Layer(d, [first, second]) == MergeOverrideInto(MergeOverrideInto(d, first), second)
  {
    hide MergeOverrideInto;
    assert [first][..0] == [];
    assert [first, second][..1] == [first];
  }

  /** Editing a meter that is there, without touching its type, parses. */
  lemma EditParses(schema: Kind -> Shape, d: Config, row: Row)
    requires NamedEntities(schema) && PlainMeters(schema)
    requires GoodRow(row) && AllWellNamed(d) && row.key.kind == MeterReader && "type" !in row.patch
    requires ParseConfig(schema, d).Some? && Lookup(d, row.key).Some?
    ensures ParseConfig(schema, MergeOverrideInto(d, row)).Some?
  {
    hide Parse, ParseConfig, MergeOverrideInto, WellNamed, Lookup;
    var merged := MergeOverrideInto(d, row);
    MergeKeepsNames(d, row);
    ParsesByKey(schema, d);
    forall key | Canonical(key) ensures ParseSlot(schema, key.kind, Lookup(merged, key)).Some? {
      MergeByKey(d, row, key);
      assert ParseSlot(schema, key.kind, Lookup(d, key)).Some?;
      if key == row.key {
        var e := Lookup(d, key).value;
        assert Parse(schema(MeterReader), e).Some?;
        assert HasNameAndType(e) && HasNameAndType(e + row.patch);
      }
    }
    ParsesByKey(schema, merged);
  }

  lemma AddMeter(schema: Kind -> Shape, base: Config, row: Row)
    requires NamedEntities(schema) && PlainMeters(schema)
    requires row.key.kind == MeterReader && base.List(MeterReader) == []
    requires AllWellNamed(base) && ParseConfig(schema, base).Some? && HasNameAndType(row.patch)
    ensures var d := MergeOverrideInto(base, row);
      && AllWellNamed(d) && ParseConfig(schema, d).Some?
      && Lookup(d, Key(MeterReader, row.patch["name"].s)).Some?
  {
    hide Parse, ParseConfig;
    var d := MergeOverrideInto(base, row);
    var e := map["name" := Str(row.key.name)] + row.patch;
    assert d.List(MeterReader) == [e];
    assert HasNameAndType(e);
    forall kind ensures WellNamed(d.List(kind)) {
      assert kind != MeterReader ==> d.List(kind) == base.List(kind);
    }
    ParsesByKey(schema, base);
    forall key | Canonical(key) ensures ParseSlot(schema, key.kind, Lookup(d, key)).Some? {
      assert ParseSlot(schema, key.kind, Lookup(base, key)).Some?;
      assert key.kind != MeterReader ==> Lookup(d, key) == Lookup(base, key);
    }
    ParsesByKey(schema, d);
  }

  lemma SomeSlot(schema: Kind -> Shape, key: Key, o: Option<Fields>)
    requires o.Some? && ParseSlot(schema, key.kind, o).Some?
    ensures ParseSlot(schema, key.kind, o).value.Some?
  {
  }

  /** A running configuration parses again. */
  lemma RunningParses(schema: Kind -> Shape, d: Config)
    requires NamedEntities(schema) && AllWellNamed(d) && ParseConfig(schema, d).Some?
    ensures ParseConfig(schema, ParseConfig(schema, d).value).Some?
  {
    hide *;
    var running := ParseConfig(schema, d).value;
    ParsedConfigWellNamed(schema, d);
    forall key | Canonical(key) ensures ParseSlot(schema, key.kind, Lookup(running, key)).Some? {
      ParsedLookup(schema, d, key);
      SlotThenPatch(schema, key, Lookup(d, key), None);
      Unamended(key, Lookup(d, key));
      Unamended(key, Lookup(running, key));
    }
    ParsesByKey(schema, running);
  }

  lemma Unamended(key: Key, o: Option<Fields>)
    ensures Amended(key, o, None) == o
  {
  }

  lemma EditFirst(schema: Kind -> Shape, base: Config, renamed: Row, edited: Row)
    requires PlainMeters(schema) && base.List(MeterReader) == []
    requires renamed.key.kind == edited.key.kind == MeterReader && renamed.key != edited.key
    requires "name" !in edited.patch && "type" !in edited.patch
    ensures ParseConfig(schema, MergeOverrideInto(MergeOverrideInto(base, edited), renamed)).None?
  {
    hide Parse;
    var d := MergeOverrideInto(MergeOverrideInto(base, edited), renamed);
    var partial := map["name" := Str(edited.key.name)] + edited.patch;
    assert d.List(MeterReader)[0] == partial;
    assert !HasNameAndType(partial);
    assert ParseAll(schema(MeterReader), d.List(MeterReader)).None?;
    assert MeterReader in ENTITIES;
  }

  // ---------- renaming moves an entity away from its row's key ----------

  lemma {:induction false} RenamedIsGone(arr: seq<Fields>, name: string, patch: Fields)
    requires WellNamed(arr) && "name" in patch && patch["name"] != Str(name)
    ensures Find(Upsert(arr, name, patch), name).None?
  {
    if arr != [] {
      var tail := arr[1..];
      assert forall i :: 0 <= i < |tail| ==> tail[i] == arr[i + 1];
      if NameOf(arr[0]) == Str(name) {
        assert ([arr[0] + patch] + tail)[1..] == tail;
      } else {
        RenamedIsGone(tail, name, patch);
      }
    }
  }

  /** The row patches what stands under its own key, and leaves what stands under any other. */
  predicate ActsOn(d: Config, row: Row, key: Key) {
    Lookup(MergeOverrideInto(d, row), key)
      == if key == row.key then Some(Patched(key, Lookup(d, key), row.patch)) else Lookup(d, key)
  }

  /** A row acts on its own key alone exactly if it keeps the name. */
  lemma ActsOnItsKeyIff(d: Config, row: Row)
    requires AllWellNamed(d) && Canonical(row.key)
    ensures (forall key :: Canonical(key) ==> ActsOn(d, row, key)) <==> KeepsName(row)
  {
    hide WellNamed, Upsert;
    if KeepsName(row) {
      forall key | Canonical(key) ensures ActsOn(d, row, key) {
        MergeByKey(d, row, key);
      }
    } else {
      assert WellNamed(d.List(row.key.kind));
      RenamedIsGone(d.List(row.key.kind), row.key.name, row.patch);
      assert Lookup(MergeOverrideInto(d, row), row.key).None?;
      assert !ActsOn(d, row, row.key);
    }
  }

  // ---------- which rows are safe to write ----------

  /** If a write is accepted against the running configuration, the next boot runs the validated candidate. */
  ghost predicate BootsAsValidated(schema: Kind -> Shape, base: Config, store: Store, edits: seq<Row>) {
    var boot := Effective(schema, base, Listing(store));
    boot.Some? && Validate(schema, boot.value, edits).Some? ==>
      var next := Effective(schema, base, Listing(SetAll(store, edits)));
      next.Some? && SameUpToOrder(Validate(schema, boot.value, edits).value, next.value)
  }

  /** The table after a guarded write. */
  ghost function Saved(schema: Kind -> Shape, base: Config, store: Store, edits: seq<Row>): Store {
    var boot := Effective(schema, base, Listing(store));
    if boot.Some? && Validate(schema, boot.value, edits).Some? then SetAll(store, edits) else store
  }

  /** So does each of a sequence of guarded writes. */
  ghost predicate EachBoots(schema: Kind -> Shape, base: Config, store: Store, writes: seq<seq<Row>>)
    decreases |writes|
  {
    writes != [] ==>
      && BootsAsValidated(schema, base, store, writes[0])
      && EachBoots(schema, base, Saved(schema, base, store, writes[0]), writes[1..])
  }

  /** A table of good rows that boots. */
  ghost predicate Booting(schema: Kind -> Shape, base: Config, store: Store) {
    AllWellNamed(base) && GoodStore(store) && Effective(schema, base, Listing(store)).Some?
  }

  /** Writes that keep the names of their entities and every number the schema keeps. */
  ghost predicate GoodWrites(schema: Kind -> Shape, writes: seq<seq<Row>>) {
    forall i :: 0 <= i < |writes| ==> GoodRows(writes[i]) && KeepsFinite(schema, writes[i])
  }

  /** Writing the row, whatever is stored and whatever good rows are written later, keeps the guard's promise. */
  ghost predicate Safe(schema: Kind -> Shape, row: Row) {
    forall base: Config, store: Store, writes: seq<seq<Row>> ::
      Booting(schema, base, store) && GoodWrites(schema, writes) ==> EachBoots(schema, base, store, [[row]] + writes)
  }

  /** The schema takes every declared field of the patch by itself. */
  predicate FieldsTaken(shape: Shape, patch: Fields) {
    forall k <- patch :: k in shape.fields ==> Accept(shape.fields[k].t, patch[k]).Some?
  }

  // ---------- rows that keep the name are ----------

  lemma {:induction false} GoodWritesBoot(schema: Kind -> Shape, base: Config, store: Store, writes: seq<seq<Row>>)
    requires NamedEntities(schema) && Booting(schema, base, store) && GoodWrites(schema, writes)
    ensures EachBoots(schema, base, store, writes)
    decreases |writes|
  {
    hide Effective, Validate, Lists, SetAll, GoodRow, GoodRows, GoodStore, NamedEntities, AllWellNamed, SameUpToOrder,
      KeepsFinite;
    if writes != [] {
      var edits, after := writes[0], SetAll(store, writes[0]);
      assert GoodRows(edits);
      ValidateThenPersist(schema, base, store, Listing(store), edits, Listing(after));
      SetAllStaysGood(store, edits);
      assert forall i :: 0 <= i < |writes[1..]| ==> writes[1..][i] == writes[i + 1];
      GoodWritesBoot(schema, base, Saved(schema, base, store, edits), writes[1..]);
    }
  }

  /** A patch with a field the schema does not take is never accepted, on whatever it lands. */
  lemma BadFieldRejected(schema: Kind -> Shape, from: Config, row: Row)
    requires !FieldsTaken(schema(row.key.kind), row.patch)
    ensures Validate(schema, from, [row]).None?
  {
    hide Parse, ParseAll, Upsert, FieldsTaken;
    var kind, shape := row.key.kind, schema(row.key.kind);
    assert [row][..0] == [];
    var d := MergeOverrideInto(from, row);
    assert Layer(from, [row]) == d;
    if IsSingleton(kind) {
      BadFieldFails(shape, from.Single(kind).GetOr(map[]), row.patch);
      assert kind in SINGLETONS && ParseSlot(schema, kind, d.Single(kind)).None?;
    } else {
      var i, before := UpsertLands(from.List(kind), row.key.name, row.patch);
      BadFieldFails(shape, before, row.patch);
      ParsedElements(shape, d.List(kind));
      assert kind in ENTITIES && ParseAll(shape, d.List(kind)).None?;
    }
  }

  lemma BadFieldFails(shape: Shape, before: Fields, patch: Fields)
    requires !FieldsTaken(shape, patch)
    ensures Parse(shape, before + patch).None?
  {
    hide Parse;
    ParseAt(shape, before + patch);
    var k :| k in patch && k in shape.fields && Accept(shape.fields[k].t, patch[k]).None?;
    assert Fill(shape.fields[k], Some(patch[k])).None?;
    assert At(shape, before + patch, k).None?;
  }

  lemma {:induction false} UpsertLands(arr: seq<Fields>, name: string, patch: Fields) returns (i: nat, before: Fields)
    ensures i < |Upsert(arr, name, patch)| && Upsert(arr, name, patch)[i] == before + patch
  {
    if arr == [] {
      i, before := 0, map["name" := Str(name)];
    } else if NameOf(arr[0]) == Str(name) {
      i, before := 0, arr[0];
    } else {
      i, before := UpsertLands(arr[1..], name, patch);
      i := i + 1;
    }
  }

  /** The row keeps the name of its entity and every number the schema keeps. */
  predicate Harmless(schema: Kind -> Shape, row: Row) {
    KeepsName(row) && KeptFiniteFields(schema(row.key.kind), row.patch)
  }

  lemma HarmlessIsSafe(schema: Kind -> Shape, row: Row)
    requires NamedEntities(schema) && Canonical(row.key)
    requires Harmless(schema, row) || !FieldsTaken(schema(row.key.kind), row.patch)
    ensures Safe(schema, row)
  {
    hide Booting, EachBoots, FieldsTaken, NamedEntities, Canonical, Harmless, KeepsFinite, GoodRows;
    forall base: Config, store: Store, writes: seq<seq<Row>> |
      Booting(schema, base, store) && GoodWrites(schema, writes)
      ensures EachBoots(schema, base, store, [[row]] + writes)
    {
      if Harmless(schema, row) {
        OneGoodRow(schema, row);
        GoodWritesBoot(schema, base, store, [[row]] + writes);
      } else {
        GoodWritesBoot(schema, base, store, writes);
        NeverAccepted(schema, base, store, row, writes);
      }
    }
  }

  lemma OneGoodRow(schema: Kind -> Shape, row: Row)
    requires Canonical(row.key) && Harmless(schema, row)
    ensures GoodRows([row]) && KeepsFinite(schema, [row])
  {
    hide KeptFiniteFields;
    forall key | Canonical(key) && Combined([row], key).Some? ensures KeptFiniteUnder(schema, [row], key) {
      CombinedOfOne(row, key);
    }
  }

  lemma CombinedOfOne(row: Row, key: Key)
    ensures Combined([row], key) == if row.key == key then Some(row.patch) else None
  {
    assert [row][..0] == [] && map[] + row.patch == row.patch;
  }

  lemma NeverAccepted(schema: Kind -> Shape, base: Config, store: Store, row: Row, writes: seq<seq<Row>>)
    requires !FieldsTaken(schema(row.key.kind), row.patch)
    requires Booting(schema, base, store) && EachBoots(schema, base, store, writes)
    ensures EachBoots(schema, base, store, [[row]] + writes)
  {
    hide Effective, Validate, FieldsTaken, SetAll;
    BadFieldRejected(schema, Effective(schema, base, Listing(store)).value, row);
    var all := [[row]] + writes;
    assert all[0] == [row] && all[1..] == writes;
  }

  // ---------- rows that rename are not ----------

  /** `d` with the entities of one kind replaced. */
  function WithList(d: Config, kind: Kind, es: seq<Fields>): Config {
    d.(entities := d.entities[kind := es])
  }

  ghost predicate SinglesParse(schema: Kind -> Shape, d: Config) {
    forall kind :: kind in SINGLETONS ==> ParseSlot(schema, kind, d.Single(kind)).Some?
  }

  ghost predicate EntitiesParse(schema: Kind -> Shape, d: Config) {
    forall kind :: kind in ENTITIES ==> ParseAll(schema(kind), d.List(kind)).Some?
  }

  lemma ParsesByParts(schema: Kind -> Shape, d: Config)
    ensures ParseConfig(schema, d).Some? <==> SinglesParse(schema, d) && EntitiesParse(schema, d)
  {
    hide ParseSlot, ParseAll;
  }

  lemma ParsedList(schema: Kind -> Shape, d: Config, kind: Kind)
    requires ParseConfig(schema, d).Some? && kind in ENTITIES
    ensures Some(ParseConfig(schema, d).value.List(kind)) == ParseAll(schema(kind), d.List(kind))
  {
    hide ParseSlot, ParseAll;
    ParsesByParts(schema, d);
  }

  lemma ParsesWithList(schema: Kind -> Shape, d: Config, kind: Kind, es: seq<Fields>)
    requires ParseConfig(schema, d).Some? && kind in ENTITIES
    ensures var c := ParseConfig(schema, WithList(d, kind, es));
      && (c.Some? <==> ParseAll(schema(kind), es).Some?)
      && (c.Some? ==> c.value.List(kind) == ParseAll(schema(kind), es).value)
  {
    hide ParseConfig, ParseAll, ParseSlot;
    var e := WithList(d, kind, es);
    ParsesByParts(schema, d);
    ParsesByParts(schema, e);
    assert forall k :: k in SINGLETONS ==> e.Single(k) == d.Single(k);
    assert forall k :: k in ENTITIES && k != kind ==> e.List(k) == d.List(k);
    assert e.List(kind) == es;
    if ParseConfig(schema, e).Some? {
      ParsedList(schema, e, kind);
    }
  }

  /** A table of one row boots to its one entity, or not at all. */
  lemma OneRowBoots(schema: Kind -> Shape, base: Config, key: Key, patch: Fields)
    requires ParseConfig(schema, base).Some? && key.kind in ENTITIES && base.List(key.kind) == []
    ensures var store: Store := map[key := patch];
      var boot := Effective(schema, base, Listing(store));
      var e := Parse(schema(key.kind), map["name" := Str(key.name)] + patch);
      && (boot.Some? <==> e.Some?)
      && (boot.Some? ==> boot == ParseConfig(schema, WithList(base, key.kind, [map["name" := Str(key.name)] + patch])))
      && (boot.Some? ==> boot.value.List(key.kind) == [e.value])
  {
    hide Parse, ParseConfig, Before;
    var store: Store := map[key := patch];
    var rows := [Row(key, patch)];
    assert rows[0].key == key;
    assert IsListing(rows, store);
    ListingIs(rows, store);
    LayerTwo(base, rows[0], rows[0]);
    var e := map["name" := Str(key.name)] + patch;
    assert Layer(base, rows) == WithList(base, key.kind, [e]);
    ParsesWithList(schema, base, key.kind, [e]);
    assert [e][1..] == [];
  }

  lemma ValidatedList(schema: Kind -> Shape, running: Config, row: Row)
    requires ParseConfig(schema, running).Some? && row.key.kind in ENTITIES
    ensures var c := Validate(schema, running, [row]);
      var es := ParseAll(schema(row.key.kind), Upsert(running.List(row.key.kind), row.key.name, row.patch));
      && (c.Some? <==> es.Some?)
      && (c.Some? ==> c.value.List(row.key.kind) == es.value)
  {
    hide Parse, ParseAll, ParseConfig, Upsert;
    LayerTwo(running, row, row);
    ParsesWithList(schema, running, row.key.kind, Upsert(running.List(row.key.kind), row.key.name, row.patch));
  }

  /** A whole new entity of the kind, apart from its name. */
  ghost predicate WholeEntity(shape: Shape, name: string, f: Fields) {
    "name" !in f && FiniteFields(f) && Parse(shape, map["name" := Str(name)] + f).Some?
  }

  /** An empty configuration, apart from the singletons. */
  ghost predicate NoEntities(schema: Kind -> Shape, base: Config) {
    ParseConfig(schema, base).Some? && forall kind :: base.List(kind) == []
  }

  /** Renaming the only entity of its kind is accepted, and leaves the table with its one row. */
  lemma RenameAccepted(schema: Kind -> Shape, base: Config, row: Row, f: Fields)
    requires NamedEntities(schema) && NoEntities(schema, base) && row.key.kind in ENTITIES
    requires WholeEntity(schema(row.key.kind), row.key.name, f)
    requires Parse(schema(row.key.kind), map["name" := Str(row.key.name)] + f + row.patch).Some?
    ensures var store: Store := map[row.key := f];
      && Booting(schema, base, store)
      && Validate(schema, Effective(schema, base, Listing(store)).value, [row]).Some?
      && SetAll(store, [row]) == map[row.key := RereadFields(f + row.patch)]
      && Saved(schema, base, store, [row]) == SetAll(store, [row])
  {
    hide Parse, ParseConfig, Effective, Validate, Lists, Before, IsListing, RereadFields, FiniteFields;
    var key, shape := row.key, schema(row.key.kind);
    var store: Store := map[key := f];
    NoNames(base);
    OneRowBoots(schema, base, key, f);
    var d := WithList(base, key.kind, [map["name" := Str(key.name)] + f]);
    var running := Effective(schema, base, Listing(store)).value;
    OneNamed(base, key.kind, map["name" := Str(key.name)] + f);
    RunningParses(schema, d);
    ParseThenPatch(shape, map["name" := Str(key.name)] + f, row.patch);
    ParseKeepsName(shape, map["name" := Str(key.name)] + f);
    ValidatedList(schema, running, row);
    var e := running.List(key.kind)[0];
    OneParses(shape, e + row.patch);
    assert Upsert([e], key.name, row.patch) == [e + row.patch];
    assert [row][..0] == [];
    assert SetAll(store, [row]) == map[key := RereadFields(f + row.patch)];
  }

  lemma OneNamed(base: Config, kind: Kind, e: Fields)
    requires AllWellNamed(base) && NameOf(e).Str?
    ensures AllWellNamed(WithList(base, kind, [e]))
  {
    forall k ensures WellNamed(WithList(base, kind, [e]).List(k)) {
      assert k != kind ==> WithList(base, kind, [e]).List(k) == base.List(k);
    }
  }

  lemma OneParses(shape: Shape, e: Fields)
    requires Parse(shape, e).Some?
    ensures ParseAll(shape, [e]) == Some([Parse(shape, e).value])
  {
    hide Parse;
    assert [e][1..] == [] && ParseAll(shape, []) == Some([]);
    assert [Parse(shape, e).value] + [] == [Parse(shape, e).value];
  }

  lemma TwoParse(shape: Shape, a: Fields, b: Fields)
    requires Parse(shape, a).Some? && Parse(shape, b).Some?
    ensures ParseAll(shape, [a, b]).Some? && |ParseAll(shape, [a, b]).value| == 2
  {
    hide Parse;
    assert [a, b][1..] == [b];
    OneParses(shape, b);
  }

  /** Adding an entity under the old name is then accepted as a second one, but its row is the first one's. */
  lemma NewcomerIsLost(schema: Kind -> Shape, base: Config, key: Key, stored: Fields, f: Fields)
    requires NamedEntities(schema) && NoEntities(schema, base) && key.kind in ENTITIES
    requires WholeEntity(schema(key.kind), key.name, f)
    requires Parse(schema(key.kind), map["name" := Str(key.name)] + stored).Some?
    requires "name" in stored && stored["name"] != Str(key.name)
    ensures !BootsAsValidated(schema, base, map[key := stored], [Row(key, f)])
  {
    hide Parse, ParseConfig, Effective, Validate, Lists, Before, IsListing, RereadFields, FiniteFields;
    var shape, row := schema(key.kind), Row(key, f);
    var store: Store := map[key := stored];
    var whole := map["name" := Str(key.name)] + stored;
    NoNames(base);
    OneRowBoots(schema, base, key, stored);
    var running := Effective(schema, base, Listing(store)).value;
    ParseKeepsName(shape, whole);
    OneNamed(base, key.kind, whole);
    RunningParses(schema, WithList(base, key.kind, [whole]));
    var e := running.List(key.kind)[0];
    ParseTwice(shape, whole);
    var newcomer := map["name" := Str(key.name)] + f;
    TwoParse(shape, e, newcomer);
    assert Upsert([e], key.name, f) == [e, newcomer];
    ValidatedList(schema, running, row);
    assert [row][..0] == [];
    var after := RereadFields(stored + f);
    assert SetAll(store, [row]) == map[key := after];
    OneRowBoots(schema, base, key, after);
    var next := Effective(schema, base, Listing(map[key := after]));
    if next.Some? {
      var two, one := Validate(schema, running, [row]).value.List(key.kind), next.value.List(key.kind);
      assert |multiset(two)| == 2 && |multiset(one)| == 1;
    }
  }

  /** If the first write of a sequence is accepted and does not boot as validated, the sequence does not. */
  lemma FirstFails(schema: Kind -> Shape, base: Config, store: Store, row: Row)
    requires NamedEntities(schema) && Booting(schema, base, store)
    requires !BootsAsValidated(schema, base, store, [row])
    ensures !Safe(schema, row)
  {
    hide BootsAsValidated, Booting, Saved;
    var all := [[row]] + [];
    assert all[0] == [row];
    assert !EachBoots(schema, base, store, all);
    assert GoodWrites(schema, []);
  }

  lemma RenamerIsUnsafe(schema: Kind -> Shape, base: Config, row: Row, f: Fields)
    requires NamedEntities(schema) && NoEntities(schema, base) && row.key.kind in ENTITIES && !KeepsName(row)
    requires WholeEntity(schema(row.key.kind), row.key.name, f)
    requires Parse(schema(row.key.kind), map["name" := Str(row.key.name)] + f + row.patch).Some?
    ensures !Safe(schema, row)
  {
    hide Parse, Booting, Saved, WholeEntity, NoEntities, NamedEntities, KeepsName, Effective, Validate, SetAll,
      RereadFields, KeepsFinite, GoodRows, BootsAsValidated, Safe;
    RenameAccepted(schema, base, row, f);
    var first: Store := map[row.key := f];
    var stored := RereadFields(f + row.patch);
    if Parse(schema(row.key.kind), map["name" := Str(row.key.name)] + stored).None? {
      OneRowFails(schema, base, row.key, stored);
      LostIsNotAsValidated(schema, base, first, row);
      FirstFails(schema, base, first, row);
    } else {
      var newcomer := Row(row.key, f);
      Renames(row, f);
      NewcomerIsLost(schema, base, row.key, stored, f);
      WholeIsGood(schema, row.key, f);
      SecondFails(schema, base, first, row, newcomer);
    }
  }

  lemma LostIsNotAsValidated(schema: Kind -> Shape, base: Config, store: Store, row: Row)
    requires Booting(schema, base, store)
    requires Validate(schema, Effective(schema, base, Listing(store)).value, [row]).Some?
    requires Effective(schema, base, Listing(SetAll(store, [row]))).None?
    ensures !BootsAsValidated(schema, base, store, [row])
  {
    hide Effective, Validate, SetAll, GoodStore, AllWellNamed;
  }

  /** If a good write after the first does not boot as validated, the first was not safe. */
  lemma SecondFails(schema: Kind -> Shape, base: Config, store: Store, row: Row, next: Row)
    requires Booting(schema, base, store) && GoodRows([next]) && KeepsFinite(schema, [next])
    requires !BootsAsValidated(schema, base, Saved(schema, base, store, [row]), [next])
    ensures !Safe(schema, row)
  {
    hide Booting, Saved, KeepsFinite, GoodRows, BootsAsValidated;
    var writes := [[next]];
    var all := [[row]] + writes;
    assert all[0] == [row] && all[1..] == writes && writes[0] == [next];
    assert !EachBoots(schema, base, Saved(schema, base, store, [row]), writes);
    assert !EachBoots(schema, base, store, all);
    assert GoodWrites(schema, writes);
  }

  lemma OneRowFails(schema: Kind -> Shape, base: Config, key: Key, patch: Fields)
    requires NoEntities(schema, base) && key.kind in ENTITIES
    requires Parse(schema(key.kind), map["name" := Str(key.name)] + patch).None?
    ensures Effective(schema, base, Listing(map[key := patch])).None?
  {
    hide Parse, Effective, ParseConfig;
    OneRowBoots(schema, base, key, patch);
  }

  lemma Renames(row: Row, f: Fields)
    requires !KeepsName(row)
    ensures var stored := RereadFields(f + row.patch);
      "name" in stored && stored["name"] != Str(row.key.name)
  {
  }

  lemma WholeIsGood(schema: Kind -> Shape, key: Key, f: Fields)
    requires key.kind in ENTITIES && WholeEntity(schema(key.kind), key.name, f)
    ensures GoodRows([Row(key, f)]) && KeepsFinite(schema, [Row(key, f)])
  {
    hide Parse;
    FiniteFieldsAreKept(schema(key.kind), f);
    OneGoodRow(schema, Row(key, f));
  }

  // ---------- rows that lose a number are not ----------

  /** A table with one whole row boots, and takes a patch of its own fields. */
  lemma PatchAccepted(schema: Kind -> Shape, base: Config, row: Row, f: Fields)
    requires NamedEntities(schema) && ParseConfig(schema, base).Some? && AllWellNamed(base) && GoodRow(row)
    requires GoodRow(Row(row.key, f)) && FiniteFields(f)
    requires var start := Patched(row.key, Lookup(base, row.key), f);
      && Parse(schema(row.key.kind), start).Some?
      && Parse(schema(row.key.kind), start + row.patch).Some?
    ensures var store: Store := map[row.key := f];
      && Booting(schema, base, store)
      && Validate(schema, Effective(schema, base, Listing(store)).value, [row]).Some?
  {
    hide Parse, ParseConfig, Before, Lookup, MergeOverrideInto, WellNamed, Patched, FiniteFields, GoodRow;
    var store: Store := map[row.key := f];
    var stored := Row(row.key, f);
    ListingOfOne(stored);
    LayerTwo(base, stored, stored);
    var d := MergeOverrideInto(base, stored);
    MergeParses(schema, base, stored);
    var running := ParseConfig(schema, d).value;
    ParsedConfigWellNamed(schema, d);
    RunningParses(schema, d);
    GoodIsCanonical(row);
    MergeByKey(base, stored, row.key);
    ParsedLookup(schema, d, row.key);
    var start := Patched(row.key, Lookup(base, row.key), f);
    SomeSlot(schema, row.key, Lookup(d, row.key));
    SlotIsParse(schema, row.key, start);
    ParseThenPatch(schema(row.key.kind), start, row.patch);
    PatchedOnto(row.key, Lookup(running, row.key).value, row.patch);
    LayerTwo(running, row, row);
    MergeParses(schema, running, row);
  }

  lemma SlotIsParse(schema: Kind -> Shape, key: Key, f: Fields)
    requires Parse(schema(key.kind), f).Some?
    ensures ParseSlot(schema, key.kind, Some(f)) == Some(Parse(schema(key.kind), f))
  {
    hide Parse;
  }

  lemma PatchedOnto(key: Key, f: Fields, patch: Fields)
    ensures Patched(key, Some(f), patch) == f + patch
  {
  }

  /** A row whose own slot parses, merged into a configuration that parses. */
  lemma MergeParses(schema: Kind -> Shape, d: Config, row: Row)
    requires NamedEntities(schema) && ParseConfig(schema, d).Some? && AllWellNamed(d) && GoodRow(row)
    requires Parse(schema(row.key.kind), Patched(row.key, Lookup(d, row.key), row.patch)).Some?
    ensures AllWellNamed(MergeOverrideInto(d, row)) && ParseConfig(schema, MergeOverrideInto(d, row)).Some?
  {
    hide Parse, ParseConfig, MergeOverrideInto, WellNamed, Lookup, Patched;
    var merged := MergeOverrideInto(d, row);
    MergeKeepsNames(d, row);
    ParsesByKey(schema, d);
    forall key | Canonical(key) ensures ParseSlot(schema, key.kind, Lookup(merged, key)).Some? {
      MergeByKey(d, row, key);
      assert ParseSlot(schema, key.kind, Lookup(d, key)).Some?;
    }
    ParsesByKey(schema, merged);
  }

  /** An accepted patch with a kept infinite number does not boot as validated. */
  lemma InfinityIsUnsafe(schema: Kind -> Shape, base: Config, row: Row, f: Fields)
    requires NamedEntities(schema) && ParseConfig(schema, base).Some? && AllWellNamed(base) && GoodRow(row)
    requires GoodRow(Row(row.key, f)) && FiniteFields(f)
    requires var start := Patched(row.key, Lookup(base, row.key), f);
      && Parse(schema(row.key.kind), start).Some?
      && Parse(schema(row.key.kind), start + row.patch).Some?
    requires !KeptFiniteFields(schema(row.key.kind), row.patch)
    ensures !Safe(schema, row)
  {
    hide Parse, ParseConfig, Lookup, Patched, Effective, Validate, GoodRow, Lists, SetAll, KeptFiniteFields, WellNamed,
      SameUpToOrder, GoodStore, FiniteFields;
    PatchAccepted(schema, base, row, f);
    var store: Store := map[row.key := f];
    ValidateThenPersist(schema, base, store, Listing(store), [row], Listing(SetAll(store, [row])));
    CombinedOfOne(row, row.key);
    GoodIsCanonical(row);
    assert !KeptFiniteUnder(schema, [row], row.key);
    assert !KeepsFinite(schema, [row]);
    FirstFails(schema, base, store, row);
  }

  lemma GoodIsCanonical(row: Row)
    requires GoodRow(row)
    ensures Canonical(row.key)
  {
  }

  // ---------- for the schema in use ----------

  /** The least each section or entity needs besides its name. */
  function Least(kind: Kind): Fields {
    match kind
    case Site => map[]
    case SmartCharging => map[]
    case MqttBridge => map["broker" := Obj(map["host" := Str("h")])]
    case Balancer => map["type" := Str("t"), "mainBreakerA" := Num(16.0)]
    case Loadpoint => map["charger" := Str("c")]
    case _ => map["type" := Str("t")]
  }

  /** Each field the object lacks may be left out or is filled in. */
  predicate LeastCovers(shape: Shape, f: Fields) {
    forall k <- shape.fields :: k == "name" || Fill(shape.fields[k], Get(f, k)).Some?
  }

  /** What a patch of accepted fields makes of an object with everything else in place. */
  lemma FieldsEnough(shape: Shape, e: Fields, patch: Fields)
    requires forall k :: k in shape.fields ==> Fill(shape.fields[k], Get(e, k)).Some?
    requires FieldsTaken(shape, patch)
    ensures Parse(shape, e).Some? && Parse(shape, e + patch).Some?
  {
    hide Parse;
    ParseAt(shape, e);
    ParseAt(shape, e + patch);
    forall k ensures At(shape, e, k).Some? && At(shape, e + patch, k).Some? {
      if k in shape.fields {
        var field := shape.fields[k];
        assert At(shape, e, k) == Fill(field, Get(e, k));
        assert At(shape, e + patch, k) == Fill(field, Get(e + patch, k));
        if k in patch {
          assert Accept(field.t, patch[k]).Some?;
        } else {
          assert Get(e + patch, k) == Get(e, k);
        }
      }
    }
  }

  lemma LeastIsEnough(shape: Shape, name: string, f: Fields, patch: Fields)
    requires KeepsNames(shape) && "name" !in f && FiniteFields(f) && LeastCovers(shape, f) && FieldsTaken(shape, patch)
    requires "name" in shape.fields && Accept(shape.fields["name"].t, Str(name)).Some?
    ensures WholeEntity(shape, name, f)
    ensures Parse(shape, map["name" := Str(name)] + f + patch).Some?
  {
    hide Parse, Accept;
    var e := map["name" := Str(name)] + f;
    forall k | k in shape.fields ensures Fill(shape.fields[k], Get(e, k)).Some? {
      if k != "name" {
        assert Get(e, k) == Get(f, k);
      }
    }
    FieldsEnough(shape, e, patch);
  }

  lemma ModuleLeast()
    ensures LeastCovers(NAMED_MODULE_SHAPE, map["type" := Str("t")])
  {
  }

  lemma BalancerLeast()
    ensures LeastCovers(BALANCER_SHAPE, Least(Balancer))
  {
    assert Accept(Whole(1.0, 3.0), Num(3.0)).Some?;
  }

  lemma LoadpointLeast()
    ensures LeastCovers(LOADPOINT_SHAPE, Least(Loadpoint))
  {
    assert Accept(MODE_TYPE, Str("smart")).Some? && Accept(Flag, Bool(true)).Some?;
  }

  lemma BrokerLeast()
    ensures Accept(Record(BROKER_SHAPE), Obj(map["host" := Str("h")])).Some?
  {
    var f := map["host" := Str("h")];
    ParseAt(BROKER_SHAPE, f);
    assert Accept(TEXT, Str("h")).Some? && Accept(NUMBER, Num(1883.0)).Some?;
    forall k | k in BROKER_SHAPE.fields ensures At(BROKER_SHAPE, f, k).Some? {
    }
  }

  lemma BridgeLeast()
    ensures forall k :: k in MQTT_BRIDGE_SHAPE.fields ==>
      Fill(MQTT_BRIDGE_SHAPE.fields[k], Get(Least(MqttBridge), k)).Some?
  {
    BrokerLeast();
    assert Accept(TEXT, Str("osc")).Some? && Accept(Flag, Bool(true)).Some?;
  }

  /** What parses has every field it needs. */
  lemma ParsedFills(shape: Shape, o: Fields)
    requires Parse(shape, o).Some?
    ensures forall k :: k in shape.fields ==> Fill(shape.fields[k], Get(o, k)).Some?
  {
    hide Parse;
    ParseAt(shape, o);
    forall k | k in shape.fields ensures Fill(shape.fields[k], Get(o, k)).Some? {
      assert At(shape, o, k) == Fill(shape.fields[k], Get(o, k));
    }
  }

  lemma NamesAreTexts(validZone: string -> bool, kind: Kind, name: string)
    requires kind in ENTITIES
    ensures var shape := ConfigSchema(validZone)(kind);
      "name" in shape.fields && Accept(shape.fields["name"].t, Str(name)).Some?
  {
    hide ConfigSchema;
    EntityShapes(validZone);
    assert NAMED_MODULE_SHAPE.fields["name"] == BALANCER_SHAPE.fields["name"] == Required(TEXT);
    assert LOADPOINT_SHAPE.fields["name"] == Required(TEXT);
    assert Accept(TEXT, Str(name)).Some?;
  }

  lemma LeastSuffices(validZone: string -> bool, kind: Kind)
    requires kind in ENTITIES
    ensures "name" !in Least(kind) && FiniteFields(Least(kind))
    ensures LeastCovers(ConfigSchema(validZone)(kind), Least(kind))
  {
    hide NAMED_MODULE_SHAPE, BALANCER_SHAPE, LOADPOINT_SHAPE, ConfigSchema, LeastCovers;
    EntityShapes(validZone);
    ModuleLeast();
    BalancerLeast();
    LoadpointLeast();
  }

  /** Over the defaults, a singleton that has the least it needs takes every accepted field. */
  lemma SingletonLeast(validZone: string -> bool, key: Key, patch: Fields)
    requires validZone("Europe/Stockholm") && IsSingleton(key.kind)
    requires FieldsTaken(ConfigSchema(validZone)(key.kind), patch)
    ensures var schema := ConfigSchema(validZone);
      var start := Patched(key, Lookup(Defaults(schema), key), Least(key.kind));
      && FiniteFields(Least(key.kind))
      && Parse(schema(key.kind), start).Some? && Parse(schema(key.kind), start + patch).Some?
  {
    hide Parse, ParseConfig, Defaults, ConfigSchema, SiteShape, SMART_CHARGING_SHAPE, MQTT_BRIDGE_SHAPE, FieldsTaken;
    var schema := ConfigSchema(validZone);
    DefaultsParse(validZone);
    SiteDefaults(validZone);
    SmartChargingDefaults();
    SingletonShapes(validZone);
    BridgeShape(validZone);
    var start := Patched(key, Lookup(Defaults(schema), key), Least(key.kind));
    if key.kind == MqttBridge {
      BridgeLeast();
    } else {
      ParseTwice(schema(key.kind), map[]);
      assert start == Parse(schema(key.kind), map[]).value;
      ParsedFills(schema(key.kind), start);
    }
    FieldsEnough(schema(key.kind), start, patch);
  }

  lemma BridgeShape(validZone: string -> bool)
    ensures ConfigSchema(validZone)(MqttBridge) == MQTT_BRIDGE_SHAPE
  {
  }

  /** Over the defaults, so does an entity. */
  lemma EntityLeast(validZone: string -> bool, key: Key, patch: Fields)
    requires validZone("Europe/Stockholm") && key.kind in ENTITIES
    requires FieldsTaken(ConfigSchema(validZone)(key.kind), patch)
    ensures var schema := ConfigSchema(validZone);
      var start := Patched(key, Lookup(Defaults(schema), key), Least(key.kind));
      && start == map["name" := Str(key.name)] + Least(key.kind)
      && WholeEntity(schema(key.kind), key.name, Least(key.kind))
      && Parse(schema(key.kind), start + patch).Some?
  {
    hide *;
    var schema := ConfigSchema(validZone);
    DefaultsAreEmpty(validZone);
    EntityStart(schema, Defaults(schema), key, Least(key.kind));
    LeastSuffices(validZone, key.kind);
    NamesAreTexts(validZone, key.kind, key.name);
    ConfigSchemaNamesEntities(validZone);
    KeepsNameOf(schema, key.kind);
    LeastIsEnough(schema(key.kind), key.name, Least(key.kind), patch);
  }

  lemma KeepsNameOf(schema: Kind -> Shape, kind: Kind)
    requires NamedEntities(schema) && kind in ENTITIES
    ensures KeepsNames(schema(kind))
  {
  }

  /** Where there are no entities, a patch makes a new one. */
  lemma EntityStart(schema: Kind -> Shape, base: Config, key: Key, f: Fields)
    requires NoEntities(schema, base) && key.kind in ENTITIES
    ensures Patched(key, Lookup(base, key), f) == map["name" := Str(key.name)] + f
  {
    hide ParseConfig;
    assert !IsSingleton(key.kind) && Find([], key.name).None?;
  }

  lemma LeastIsGood(key: Key)
    requires Canonical(key)
    ensures GoodRow(Row(key, Least(key.kind)))
  {
  }

  /**
   * Exactly which rows may be written behind the guard, as long as the live
   * configuration is the one the table yields: those that keep the name of
   * their entity and every number the schema keeps, and those the schema
   * rejects on whatever they land.
   */
  lemma SafeIffHarmless(validZone: string -> bool, row: Row)
    requires validZone("Europe/Stockholm") && Canonical(row.key)
    ensures Safe(ConfigSchema(validZone), row)
       <==> Harmless(ConfigSchema(validZone), row) || !FieldsTaken(ConfigSchema(validZone)(row.key.kind), row.patch)
  {
    hide *;
    var schema := ConfigSchema(validZone);
    ConfigSchemaNamesEntities(validZone);
    if Harmless(schema, row) || !FieldsTaken(schema(row.key.kind), row.patch) {
      HarmlessIsSafe(schema, row);
    } else {
      DefaultsParse(validZone);
      DefaultsAreEmpty(validZone);
      NoNames(Defaults(schema));
      LeastIsGood(row.key);
      HarmIs(schema, row);
      if !KeepsName(row) {
        RenamerHasKind(row);
        EntityLeast(validZone, row.key, row.patch);
        RenamerIsUnsafe(schema, Defaults(schema), row, Least(row.key.kind));
      } else {
        KindsSplit(row.key.kind);
        if IsSingleton(row.key.kind) {
          SingletonLeast(validZone, row.key, row.patch);
        } else {
          EntityLeast(validZone, row.key, row.patch);
          WholeIsFinite(schema(row.key.kind), row.key.name, Least(row.key.kind));
        }
        InfinityIsUnsafe(schema, Defaults(schema), row, Least(row.key.kind));
      }
    }
  }

  lemma HarmIs(schema: Kind -> Shape, row: Row)
    requires Canonical(row.key)
    ensures Harmless(schema, row) <==> KeepsName(row) && KeptFiniteFields(schema(row.key.kind), row.patch)
    ensures KeepsName(row) ==> GoodRow(row)
  {
  }

  lemma WholeIsFinite(shape: Shape, name: string, f: Fields)
    requires WholeEntity(shape, name, f)
    ensures FiniteFields(f) && Parse(shape, map["name" := Str(name)] + f).Some?
  {
    hide Parse;
  }

  lemma KindsSplit(kind: Kind)
    ensures kind in ENTITIES <==> !IsSingleton(kind)
  {
  }

  lemma RenamerHasKind(row: Row)
    requires !KeepsName(row)
    ensures row.key.kind in ENTITIES
  {
  }

  lemma DefaultsAreEmpty(validZone: string -> bool)
    requires validZone("Europe/Stockholm")
    ensures NoEntities(ConfigSchema(validZone), Defaults(ConfigSchema(validZone)))
  {
    hide ParseConfig, Defaults, ConfigSchema;
    DefaultsParse(validZone);
  }

  // ---------- a table that no longer boots ----------

  /** The two listings of such a table. */
  lemma RenameThenEditAny(schema: Kind -> Shape, base: Config, oldName: string, meter: Fields, edit: Fields)
    requires NamedEntities(schema) && PlainMeters(schema)
    requires AllWellNamed(base) && ParseConfig(schema, base).Some?
    requires base.List(MeterReader) == [] && HasNameAndType(meter)
    requires meter["name"].s != oldName && "name" !in edit && "type" !in edit
    ensures
      var renamed, edited := Row(Key(MeterReader, oldName), meter), Row(Key(MeterReader, meter["name"].s), edit);
      && Effective(schema, base, [renamed]).Some?
      && Validate(schema, Effective(schema, base, [renamed]).value, [edited]).Some?
      && Effective(schema, base, [renamed, edited]).Some?
      && Effective(schema, base, [edited, renamed]).None?
  {
    hide Parse, ParseConfig, MergeOverrideInto, Lookup, Layer, AllWellNamed, NamedEntities, PlainMeters, ParseSlot;
    var renamed, edited := Row(Key(MeterReader, oldName), meter), Row(Key(MeterReader, meter["name"].s), edit);
    LayerTwo(base, renamed, edited);
    AddMeter(schema, base, renamed);
    var d := MergeOverrideInto(base, renamed);
    var running := ParseConfig(schema, d).value;
    EditParses(schema, d, edited);
    ParsedConfigWellNamed(schema, d);
    RunningParses(schema, d);
    ParsedLookup(schema, d, edited.key);
    SomeSlot(schema, edited.key, Lookup(d, edited.key));
    EditParses(schema, running, edited);
    LayerTwo(running, edited, edited);
    LayerTwo(base, edited, renamed);
    EditFirst(schema, base, renamed, edited);
  }

  /**
   * After a rename from one name to another, editing the entity under its new
   * name is accepted. The table then boots exactly if the old name is listed
   * before the new one; otherwise the edit's row, listed first, stands for an
   * entity with no type.
   */
  lemma RenameThenEdit(validZone: string -> bool, oldName: string, meter: Fields, edit: Fields)
    requires validZone("Europe/Stockholm") && HasNameAndType(meter)
    requires meter["name"].s != oldName && "name" !in edit && "type" !in edit
    ensures var schema := ConfigSchema(validZone);
      var base := Defaults(schema);
      var renamed, edited := Key(MeterReader, oldName), Key(MeterReader, meter["name"].s);
      var boot := Effective(schema, base, Listing(map[renamed := meter]));
      && boot.Some?
      && Validate(schema, boot.value, [Row(edited, edit)]).Some?
      && (Effective(schema, base, Listing(map[renamed := meter, edited := edit])).Some?
          <==> Less(oldName, meter["name"].s))
  {
    hide *;
    NameIsText(meter);
    var schema := ConfigSchema(validZone);
    var base := Defaults(schema);
    ConfigSchemaNamesEntities(validZone);
    ConfigSchemaPlainMeters(validZone);
    DefaultsParse(validZone);
    NoNames(base);
    RenameThenEditAny(schema, base, oldName, meter, edit);
    var renamed, edited := Row(Key(MeterReader, oldName), meter), Row(Key(MeterReader, meter["name"].s), edit);
    ListingOfOne(renamed);
    ListingOfTwo(renamed, edited);
    ListingOfTwo(edited, renamed);
    assert map[edited.key := edit, renamed.key := meter] == map[renamed.key := meter, edited.key := edit];
    MeterOrder(oldName, meter["name"].s);
    MeterOrder(meter["name"].s, oldName);
  }

  lemma NameIsText(e: Fields)
    requires HasNameAndType(e)
    ensures "name" in e && e["name"].Str?
  {
  }

  lemma ListingOfOne(row: Row)
    ensures Listing(map[row.key := row.patch]) == [row]
  {
    hide Before;
    assert [row][0].key == row.key;
    ListingIs([row], map[row.key := row.patch]);
  }

  lemma ListingOfTwo(a: Row, b: Row)
    ensures Before(a.key, b.key) ==> Listing(map[a.key := a.patch, b.key := b.patch]) == [a, b]
  {
    hide Before;
    if Before(a.key, b.key) {
      BeforeIsOrder(a.key, b.key, a.key);
      var rows := [a, b];
      assert rows[0].key == a.key && rows[1].key == b.key;
      ListingIs(rows, map[a.key := a.patch, b.key := b.patch]);
    }
  }

  lemma MeterOrder(a: string, b: string)
    ensures Before(Key(MeterReader, a), Key(MeterReader, b)) <==> Less(a, b)
    ensures a != b ==> Less(a, b) || Less(b, a)
    ensures !(Less(a, b) && Less(b, a))
  {
    LessIsOrder(KindName(MeterReader), KindName(MeterReader), KindName(MeterReader));
    LessIsOrder(a, b, a);
  }
}
