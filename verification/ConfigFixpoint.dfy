/** The second export is final: with the table listed in its order, a further round trip changes nothing. */
module ConfigFixpoint {
  import opened Prelude
  import opened Schema
  import opened ConfigModel
  import opened ConfigOverrides
  import opened ConfigListing
  import opened Redaction
  import opened ConfigIo
  import opened ConfigRoundTrip

  // ---------- entities in the order of their names ----------

  ghost predicate ByName(es: seq<Fields>) {
    && (forall i :: 0 <= i < |es| ==> NameOf(es[i]).Str?)
    && (forall i, j :: 0 <= i < j < |es| ==> Less(TextOf(NameOf(es[i])), TextOf(NameOf(es[j]))))
  }

  ghost predicate HasRow(rows: seq<Row>, kind: Kind, name: Json) {
    name.Str? && exists i :: 0 <= i < |rows| && rows[i].key == Key(kind, name.s)
  }

  lemma HasRowFront(rows: seq<Row>, kind: Kind, name: Json)
    requires rows != [] && HasRow(rows[..|rows| - 1], kind, name)
    ensures HasRow(rows, kind, name)
  {
    var i :| 0 <= i < |rows| - 1 && rows[..|rows| - 1][i].key == Key(kind, name.s);
    assert rows[i].key == Key(kind, name.s);
  }

  lemma LastIsLater(rows: seq<Row>, kind: Kind, name: Json)
    requires rows != [] && Ordered(rows) && HasRow(rows[..|rows| - 1], kind, name) && rows[|rows| - 1].key.kind == kind
    ensures Less(name.s, rows[|rows| - 1].key.name)
  {
    hide Less;
    var i :| 0 <= i < |rows| - 1 && rows[..|rows| - 1][i].key == Key(kind, name.s);
    assert Before(rows[i].key, rows[|rows| - 1].key);
    LessIsOrder(KindName(kind), KindName(kind), KindName(kind));
  }

  ghost predicate AllHaveRows(rows: seq<Row>, kind: Kind, names: seq<Json>) {
    forall i :: 0 <= i < |names| ==> HasRow(rows, kind, names[i])
  }

  ghost predicate Ascending(names: seq<Json>) {
    forall i, j :: 0 <= i < j < |names| ==> Less(TextOf(names[i]), TextOf(names[j]))
  }

  lemma AppendName(rows: seq<Row>, kind: Kind, names: seq<Json>)
    requires rows != [] && Ordered(rows) && AllHaveRows(rows[..|rows| - 1], kind, names) && Ascending(names)
    ensures AllHaveRows(rows, kind, names)
    ensures rows[|rows| - 1].key.kind == kind ==>
      var more := names + [Str(rows[|rows| - 1].key.name)];
      AllHaveRows(rows, kind, more) && Ascending(more)
  {
    hide Less, Ordered, HasRow;
    forall i | 0 <= i < |names| ensures HasRow(rows, kind, names[i]) {
      HasRowFront(rows, kind, names[i]);
    }
    if rows[|rows| - 1].key.kind == kind {
      LastHasRow(rows, kind);
      forall i | 0 <= i < |names| ensures Less(TextOf(names[i]), rows[|rows| - 1].key.name) {
        RowIsText(rows[..|rows| - 1], kind, names[i]);
        LastIsLater(rows, kind, names[i]);
      }
    }
  }

  lemma {:induction false} RowNamesOrdered(rows: seq<Row>, kind: Kind)
    requires Ordered(rows)
    ensures AllHaveRows(rows, kind, RowNames(rows, kind)) && Ascending(RowNames(rows, kind))
  {
    hide AllHaveRows, Ascending, Ordered;
    if rows != [] {
      FrontOrdered(rows);
      RowNamesOrdered(rows[..|rows| - 1], kind);
      AppendName(rows, kind, RowNames(rows[..|rows| - 1], kind));
    } else {
      NoNamesYet(kind);
    }
  }

  lemma NoNamesYet(kind: Kind)
    ensures AllHaveRows([], kind, []) && Ascending([])
  {
  }

  lemma FrontOrdered(rows: seq<Row>)
    requires rows != [] && Ordered(rows)
    ensures Ordered(rows[..|rows| - 1])
  {
    hide Before;
  }

  lemma RowIsText(rows: seq<Row>, kind: Kind, name: Json)
    requires HasRow(rows, kind, name)
    ensures name.Str?
  {
  }

  lemma LastHasRow(rows: seq<Row>, kind: Kind)
    requires rows != [] && rows[|rows| - 1].key.kind == kind
    ensures HasRow(rows, kind, Str(rows[|rows| - 1].key.name))
  {
    assert rows[|rows| - 1].key == Key(kind, rows[|rows| - 1].key.name);
  }

  /** Over the defaults the running configuration has its entities in the order of their names. */
  lemma BootedByName(schema: Kind -> Shape, base: Config, store: Store, kind: Kind)
    requires NamedEntities(schema) && kind in ENTITIES && base.List(kind) == []
    requires GoodStore(store) && Effective(schema, base, Listing(store)).Some?
    ensures ByName(Effective(schema, base, Listing(store)).value.List(kind))
  {
    hide Effective, RowNames, Less, GoodStore, NamedEntities, Lists;
    EntitiesInListingOrder(schema, base, store, Listing(store), kind);
    RowNamesOrdered(Listing(store), kind);
    forall i | 0 <= i < |RowNames(Listing(store), kind)| ensures RowNames(Listing(store), kind)[i].Str? {
      RowIsText(Listing(store), kind, RowNames(Listing(store), kind)[i]);
    }
    var es := Effective(schema, base, Listing(store)).value.List(kind);
    assert forall i :: 0 <= i < |es| ==> NameOf(es[i]) == Names(es)[i];
  }

  lemma FirstByName(es: seq<Fields>, e: Fields)
    requires ByName(es) && es != [] && e in es
    ensures e == es[0] || Less(TextOf(NameOf(es[0])), TextOf(NameOf(e)))
  {
  }

  lemma SameFirst(a: seq<Fields>, b: seq<Fields>)
    requires ByName(a) && ByName(b) && a != [] && b != [] && a[0] in b && b[0] in a
    ensures a[0] == b[0]
  {
    hide Less, ByName;
    FirstByName(b, a[0]);
    FirstByName(a, b[0]);
    LessIsOrder(TextOf(NameOf(a[0])), TextOf(NameOf(b[0])), TextOf(NameOf(a[0])));
  }

  lemma RestByName(es: seq<Fields>)
    requires ByName(es) && es != []
    ensures ByName(es[1..])
  {
    hide Less;
  }

  /** Entities in the order of their names are determined by which they are. */
  lemma {:induction false} SameBagSameOrder(a: seq<Fields>, b: seq<Fields>)
    requires ByName(a) && ByName(b) && multiset(a) == multiset(b)
    ensures a == b
  {
    hide Less, ByName;
    assert |multiset(a)| == |a| && |multiset(b)| == |b|;
    if a != [] {
      assert a[0] in multiset(a) && b[0] in multiset(b);
      SameFirst(a, b);
      assert a == [a[0]] + a[1..] && b == [b[0]] + b[1..];
      assert multiset(a[1..]) == multiset(a) - multiset{a[0]};
      assert multiset(b[1..]) == multiset(b) - multiset{b[0]};
      RestByName(a);
      RestByName(b);
      SameBagSameOrder(a[1..], b[1..]);
    }
  }

  lemma SameObjectsSameBag(a: seq<Fields>, b: seq<Fields>)
    requires multiset(Objects(a)) == multiset(Objects(b))
    ensures multiset(a) == multiset(b)
  {
    forall e ensures multiset(a)[e] == multiset(b)[e] {
      ObjectsCount(a, Obj(e));
      ObjectsCount(b, Obj(e));
    }
  }

  lemma ExportedByNames(c: Config, app: App, kind: Kind)
    requires ByName(c.List(kind))
    ensures ByName(ExportedList(c, app, kind))
  {
    hide LoadpointField, Less;
    var es := c.List(kind);
    forall i | 0 <= i < |es| ensures NameOf(ExportedList(c, app, kind)[i]) == NameOf(es[i]) {
      if kind == Loadpoint {
        ExportKeepsName(es[i], LiveState(es[i], app.runtimes));
      }
    }
  }

  /** Sections that differ in order only do not differ at all when both are ordered. */
  lemma OrderedSectionsEqual(schema: Kind -> Shape, c: Config, app: App, d: Config, app': App, kind: Kind)
    requires kind in ENTITIES && ByName(c.List(kind)) && ByName(d.List(kind))
    requires SameSection(Exported(schema, c, app, kind), Exported(schema, d, app', kind))
    ensures Exported(schema, c, app, kind) == Exported(schema, d, app', kind)
  {
    hide Exported, ExportedList, ByName;
    ExportedByNames(c, app, kind);
    ExportedByNames(d, app', kind);
    ExportedEntities(schema, c, app, kind);
    ExportedEntities(schema, d, app', kind);
    var a, b := ExportedList(c, app, kind), ExportedList(d, app', kind);
    if Exported(schema, c, app, kind) != Exported(schema, d, app', kind) {
      SameObjectsSameBag(a, b);
      SameBagSameOrder(a, b);
    }
  }

  lemma SingletonSectionsEqual(schema: Kind -> Shape, c: Config, app: App, d: Config, app': App, kind: Kind)
    requires IsSingleton(kind) && SameSection(Exported(schema, c, app, kind), Exported(schema, d, app', kind))
    ensures Exported(schema, c, app, kind) == Exported(schema, d, app', kind)
  {
    hide Diff, Defaults;
  }

  // ---------- the booted configuration can be exported again ----------

  lemma {:induction false} ListParsesTwice(shape: Shape, arr: seq<Fields>)
    requires ParseAll(shape, arr).Some?
    ensures ParseAll(shape, ParseAll(shape, arr).value) == ParseAll(shape, arr)
  {
    hide Parse;
    if arr != [] {
      ParseTwice(shape, arr[0]);
      ListParsesTwice(shape, arr[1..]);
      var e, rest := Parse(shape, arr[0]).value, ParseAll(shape, arr[1..]).value;
      assert ([e] + rest)[1..] == rest;
    }
  }

  lemma SlotParsesTwice(schema: Kind -> Shape, kind: Kind, o: Option<Fields>)
    requires ParseSlot(schema, kind, o).Some?
    ensures ParseSlot(schema, kind, ParseSlot(schema, kind, o).value) == ParseSlot(schema, kind, o)
  {
    hide Parse;
    if ParseSlot(schema, kind, o).value.Some? {
      ParseTwice(schema(kind), o.GetOr(map[]));
    }
  }

  /** What the schema makes of a draft it accepts again, unchanged. */
  lemma ConfigParsesTwice(schema: Kind -> Shape, d: Config)
    requires ParseConfig(schema, d).Some?
    ensures ParseConfig(schema, ParseConfig(schema, d).value) == ParseConfig(schema, d)
  {
    hide ParseSlot, ParseAll;
    var c := ParseConfig(schema, d).value;
    forall kind | kind in SINGLETONS
      ensures ParseSlot(schema, kind, c.Single(kind)) == Some(c.Single(kind))
    {
      SlotParsesTwice(schema, kind, d.Single(kind));
    }
    forall kind | kind in ENTITIES
      ensures ParseAll(schema(kind), c.List(kind)) == Some(c.List(kind))
    {
      ListParsesTwice(schema(kind), d.List(kind));
    }
    assert ParseConfig(schema, c).Some?;
    var again := ParseConfig(schema, c).value;
    assert again.singles == c.singles;
    assert again.entities == c.entities;
  }

  /** A seeded state holds what the loadpoint schema has accepted. */
  lemma SeededFits(e: Fields)
    requires Parse(LOADPOINT_SHAPE, e).Some?
    ensures RuntimeFits(SeededState(e))
  {
    hide Parse, Accept, SeededState, LOADPOINT_SHAPE;
    ParseAt(LOADPOINT_SHAPE, e);
    forall k | k in TARGETS
      ensures k in LOADPOINT_SHAPE.fields && Fits(Get(SeededState(e), k), LOADPOINT_SHAPE.fields[k].t)
    {
      TargetType(k);
      assert At(LOADPOINT_SHAPE, e, k).Some?;
      SeededTarget(e, k);
    }
    TargetType("targetSoc");
    TargetType("targetTime");
    TargetType("targetKWh");
    TargetType("minSoc");
    assert At(LOADPOINT_SHAPE, e, "defaultMode").Some?;
    SeededMode(e);
  }

  lemma SeededTarget(e: Fields, k: string)
    requires k in TARGETS && k in LOADPOINT_SHAPE.fields && At(LOADPOINT_SHAPE, e, k).Some?
    ensures Fits(Get(SeededState(e), k), LOADPOINT_SHAPE.fields[k].t)
  {
    hide SeededState;
    SeededKey(e, k);
    assert Fill(LOADPOINT_SHAPE.fields[k], Get(e, k)).Some?;
  }

  lemma SeededMode(e: Fields)
    requires At(LOADPOINT_SHAPE, e, "defaultMode").Some?
    ensures Fits(Get(SeededState(e), "mode"), MODE_TYPE)
  {
    hide SeededState;
    ModeType();
    SeededKey(e, "defaultMode");
    assert Fill(LOADPOINT_SHAPE.fields["defaultMode"], Get(e, "defaultMode")).Some?;
    assert Accept(MODE_TYPE, Str("smart")).Some?;
  }

  lemma {:induction false} SeedFits(inits: seq<LoadpointInit>)
    requires forall i :: 0 <= i < |inits| ==> Parse(LOADPOINT_SHAPE, inits[i].fields).Some?
    ensures forall name :: name in Seed(map[], inits) ==> RuntimeFits(Seed(map[], inits)[name])
  {
    hide Parse, SeededState, RuntimeFits, LOADPOINT_SHAPE;
    if inits != [] {
      SeedFits(inits[..|inits| - 1]);
      SeededFits(inits[|inits| - 1].fields);
    }
  }

  lemma ImportedFits(validZone: string -> bool, c: Config, app: App)
    requires InUse(ConfigSchema(validZone), c) && Exportable(validZone, c, app)
    ensures forall d :: Exportable(validZone, d, Imported(ConfigSchema(validZone), c, app))
  {
    hide Parse, ParseConfig, ConfigSchema, LOADPOINT_SHAPE, RuntimeFits, Returned, ExportLoadpoint, SeededState, Find,
      Seed, Export, DocRows, SetAll;
    var schema := ConfigSchema(validZone);
    var es := ExportedList(c, app, Loadpoint);
    LoadpointSchema(validZone);
    ConfigSchemaNamesEntities(validZone);
    ExportedListsNamed(c, app, Loadpoint);
    var inits := NamedInits(es);
    forall i | 0 <= i < |es| ensures Parse(LOADPOINT_SHAPE, inits[i].fields).Some? {
      var key := Key(Loadpoint, NameOf(es[i]).s);
      FindMember(es, i);
      LoadpointsReturn(schema, validZone, c, app, key);
      ReturnedIsParsed(schema, c, app, key, es[i]);
    }
    SeedFits(inits);
  }

  // ---------- what a table boots to is in use ----------

  /** No row stands for an entity with an empty name. */
  ghost predicate NamedStore(store: Store) {
    forall key :: key in store && key.kind in ENTITIES ==> key.name != ""
  }

  lemma OtherKindsEmpty(schema: Kind -> Shape, d: Config, kind: Kind)
    requires ParseConfig(schema, d).Some? && kind !in ENTITIES
    ensures ParseConfig(schema, d).value.List(kind) == []
  {
    hide ParseSlot, ParseAll;
  }

  lemma PatchedFinite(key: Key, o: Option<Fields>, patch: Option<Fields>)
    requires (o.Some? ==> FiniteFields(o.value)) && (patch.Some? ==> FiniteFields(patch.value))
    ensures Amended(key, o, patch).Some? ==> FiniteFields(Amended(key, o, patch).value)
  {
    assert Finite(Str(key.name));
  }

  lemma DraftFinite(base: Config, store: Store, rows: seq<Row>, key: Key)
    requires FiniteConfig(base) && GoodStore(store) && Lists(rows, store) && Canonical(key)
    ensures var o := Lookup(Layer(base, rows), key); o.Some? ==> FiniteFields(o.value)
    ensures IsSingleton(key.kind) || base.List(key.kind) != [] || key in store || Lookup(Layer(base, rows), key).None?
  {
    hide Layer, Combined, FiniteFields, Lists, Patched, GoodRow;
    ListingIsGood(rows, store);
    LayerByKey(base, rows, key);
    ListingByKey(rows, store, key);
    PatchedFinite(key, Lookup(base, key), Combined(rows, key));
  }

  /** So everything the document round trip asks of a configuration holds of one that a table of named rows boots to. */
  lemma BootsInUse(validZone: string -> bool, store: Store, rows: seq<Row>)
    requires validZone("Europe/Stockholm") && GoodStore(store) && NamedStore(store) && Lists(rows, store)
    requires Effective(ConfigSchema(validZone), Defaults(ConfigSchema(validZone)), rows).Some?
    ensures InUse(ConfigSchema(validZone),
        Effective(ConfigSchema(validZone), Defaults(ConfigSchema(validZone)), rows).value)
  {
    hide *;
    var schema := ConfigSchema(validZone);
    var base := Defaults(schema);
    var draft := Layer(base, rows);
    ConfigSchemaNamesEntities(validZone);
    DefaultsParse(validZone);
    DefaultsFinite(validZone);
    NoNames(base);
    EffectiveIs(schema, base, rows);
    ListingIsGood(rows, store);
    LayerKeepsNames(base, rows);
    ParsedConfigWellNamed(schema, draft);
    ConfigParsesTwice(schema, draft);
    var booted := ParseConfig(schema, draft).value;
    forall key | Canonical(key)
      ensures Lookup(booted, key).Some? ==> FiniteFields(Lookup(booted, key).value)
      ensures !IsSingleton(key.kind) && key !in store ==> Lookup(booted, key).None?
    {
      DraftFinite(base, store, rows, key);
      ParsedLookup(schema, draft, key);
      ConfigSchemaFinite(validZone, key.kind);
      SlotStaysFinite(schema, key.kind, Lookup(draft, key));
      NothingParsed(schema, key.kind);
    }
    forall kind ensures NamesNonEmpty(booted.List(kind)) {
      if kind in ENTITIES {
        NamedRows(booted, store, kind);
      } else {
        OtherKindsEmpty(schema, draft, kind);
        NoNamesEmpty();
      }
    }
    FiniteIs(booted);
    InUseIs(schema, booted);
  }

  lemma NothingParsed(schema: Kind -> Shape, kind: Kind)
    ensures !IsSingleton(kind) ==> ParseSlot(schema, kind, None) == Some(None)
  {
  }

  lemma NamedRows(booted: Config, store: Store, kind: Kind)
    requires AllWellNamed(booted) && NamedStore(store) && kind in ENTITIES
    requires forall key :: Canonical(key) && !IsSingleton(key.kind) && key !in store ==> Lookup(booted, key).None?
    ensures NamesNonEmpty(booted.List(kind))
  {
    var es := booted.List(kind);
    assert WellNamed(es);
    forall i | 0 <= i < |es| ensures NameOf(es[i]) != Str("") {
      MemberUnderItsKey(booted, kind, i);
      var key := Key(kind, NameOf(es[i]).s);
      assert !IsSingleton(kind) && key in store;
    }
  }

  /** An exported document has no row for an entity without a name. */
  lemma ImportedNamed(schema: Kind -> Shape, c: Config, app: App)
    requires AllWellNamed(c) && forall kind :: NamesNonEmpty(c.List(kind))
    ensures GoodStore(Imported(schema, c, app).store) && NamedStore(Imported(schema, c, app).store)
  {
    hide *;
    hide Imported;
    var rows := DocRows(Export(schema, c, app));
    ImportedStore(schema, c, app);
    EmptyLists();
    DocRowsByKey(Export(schema, c, app), Key(Site, "site"));
    SetAllStaysGood(map[], rows);
    forall key | key in SetAll(map[], rows) && key.kind in ENTITIES ensures key.name != "" {
      SetAllByKey(map[], rows, key);
      EntityIsCanonical(key);
      ExportedRows(schema, c, app, key);
      StoredAt(SetAll(map[], rows), key);
      FromNothing(rows, key);
      assert Combined(rows, key).Some?;
      ExportedNames(schema, c, app, key);
    }
    NamedIs(SetAll(map[], rows));
  }

  lemma NamedIs(store: Store)
    requires forall key :: key in store && key.kind in ENTITIES ==> key.name != ""
    ensures NamedStore(store)
  {
  }

  lemma StoredAt(store: Store, key: Key)
    requires key in store
    ensures PatchAt(store, key).Some?
  {
  }

  lemma EntityIsCanonical(key: Key)
    requires key.kind in ENTITIES
    ensures Canonical(key) && !IsSingleton(key.kind)
  {
  }

  lemma ExportedNames(schema: Kind -> Shape, c: Config, app: App, key: Key)
    requires !IsSingleton(key.kind) && AllWellNamed(c) && forall kind :: NamesNonEmpty(c.List(kind))
    requires ExportedPatch(schema, c, app, key).Some?
    ensures key.name != ""
  {
    hide ExportedList;
    assert WellNamed(c.List(key.kind));
    ExportedListsNamed(c, app, key.kind);
    var found := Find(ExportedList(c, app, key.kind), key.name);
    assert found.Some? && found.value in ExportedList(c, app, key.kind);
  }

  lemma BootedInUse(validZone: string -> bool, c: Config, app: App, rows: seq<Row>)
    requires validZone("Europe/Stockholm")
    requires InUse(ConfigSchema(validZone), c) && Exportable(validZone, c, app)
    requires Lists(rows, Imported(ConfigSchema(validZone), c, app).store)
    ensures var schema := ConfigSchema(validZone);
      var booted := Effective(schema, Defaults(schema), rows);
      booted.Some? && InUse(schema, booted.value)
  {
    hide *;
    var schema := ConfigSchema(validZone);
    TableReturns(validZone, c, app, rows);
    InUseNames(schema, c);
    ImportedNamed(schema, c, app);
    BootsInUse(validZone, Imported(schema, c, app).store, rows);
  }

  lemma NoNamesEmpty()
    ensures NamesNonEmpty([])
  {
  }

  lemma InUseIs(schema: Kind -> Shape, c: Config)
    requires ParseConfig(schema, c) == Some(c) && AllWellNamed(c) && FiniteConfig(c)
    requires forall kind :: NamesNonEmpty(c.List(kind))
    ensures InUse(schema, c)
  {
    hide ParseConfig, WellNamed, NamesNonEmpty, FiniteConfig;
  }

  /** Reordering a document's arrays does not put a placeholder into it. */
  lemma SameNoPlaceholder(a: Fields, b: Fields)
    requires SameDocument(a, b) && NoPlaceholder(a)
    ensures NoPlaceholder(b)
  {
    assert SameSection(Get(a, "mqttBridge"), Get(b, "mqttBridge"));
    assert SameSection(Get(a, "vehicles"), Get(b, "vehicles"));
    assert SameSection(Get(a, "meterReaders"), Get(b, "meterReaders"));
    hide NoBrokerPlaceholder, NoFieldPlaceholder;
    if "vehicles" in b && b["vehicles"].Arr? {
      SameMembers(a["vehicles"], b["vehicles"]);
    }
    if "meterReaders" in b && b["meterReaders"].Arr? {
      SameMembers(a["meterReaders"], b["meterReaders"]);
    }
  }

  lemma SameMembers(a: Json, b: Json)
    requires SameSection(Some(a), Some(b)) && b.Arr?
    ensures a.Arr? && forall j :: j in b.items ==> j in a.items
  {
    forall j | j in b.items ensures j in a.items {
      assert j in multiset(b.items);
    }
  }

  // ---------- the second round trip ----------

  /** Where an exported document leads: the instance after a replacing import, and what it boots. */
  ghost function Rebooted(schema: Kind -> Shape, c: Config, app: App): Option<Config> {
    Effective(schema, Defaults(schema), Listing(Imported(schema, c, app).store))
  }

  lemma RebootedByName(validZone: string -> bool, c: Config, app: App, kind: Kind)
    requires validZone("Europe/Stockholm") && kind in ENTITIES
    requires Rebooted(ConfigSchema(validZone), c, app).Some?
    ensures ByName(Rebooted(ConfigSchema(validZone), c, app).value.List(kind))
  {
    hide *;
    hide Rebooted;
    var schema := ConfigSchema(validZone);
    RebootedIs(schema, c, app);
    ConfigSchemaNamesEntities(validZone);
    DefaultsParse(validZone);
    EmptyLists();
    DocRowsByKey(Export(schema, c, app), Key(Site, "site"));
    SetAllStaysGood(map[], DocRows(Export(schema, c, app)));
    ImportedStore(schema, c, app);
    BootedByName(schema, Defaults(schema), Imported(schema, c, app).store, kind);
  }

  lemma RebootedIs(schema: Kind -> Shape, c: Config, app: App)
    ensures Rebooted(schema, c, app) == Effective(schema, Defaults(schema), Listing(Imported(schema, c, app).store))
    ensures Lists(Listing(Imported(schema, c, app).store), Imported(schema, c, app).store)
  {
    hide Effective, Lists, Imported, Ordered;
  }

  /** One round trip through the table in its order. */
  lemma RoundTrip(host: Host, c: Config, app: App, target: App, cur: Config)
    requires host.validZone("Europe/Stockholm")
    requires InUse(host.Schema(), c) && Exportable(host.validZone, c, app)
    requires NoPlaceholder(Export(host.Schema(), c, app))
    ensures var schema := host.Schema();
      var doc, next, booted := Export(schema, c, app), Imported(schema, c, app), Rebooted(schema, c, app);
      && Import(host, target, doc, Replace, cur, false) == Done(next)
      && booted.Some? && InUse(schema, booted.value) && Exportable(host.validZone, booted.value, next)
      && NoPlaceholder(Export(schema, booted.value, next))
      && (forall kind :: SameSection(Exported(schema, c, app, kind), Exported(schema, booted.value, next, kind)))
      && (forall kind :: kind in ENTITIES ==> ByName(booted.value.List(kind)))
  {
    hide *;
    var schema := host.Schema();
    SchemaIs(host);
    RebootedIs(schema, c, app);
    var rows := Listing(Imported(schema, c, app).store);
    ImportSucceeds(host, c, app, target, cur);
    ImportedFits(host.validZone, c, app);
    BootedInUse(host.validZone, c, app, rows);
    TableReturns(host.validZone, c, app, rows);
    var booted := Rebooted(schema, c, app).value;
    forall kind
      ensures SameSection(Exported(schema, c, app, kind), Exported(schema, booted, Imported(schema, c, app), kind))
    {
      SectionsSame(host.validZone, c, app, booted, kind);
    }
    ImportedSettings(schema, c, app);
    SameBySection(schema, c, app, booted, Imported(schema, c, app));
    SameNoPlaceholder(Export(schema, c, app), Export(schema, booted, Imported(schema, c, app)));
    forall kind | kind in ENTITIES ensures ByName(booted.List(kind)) {
      RebootedByName(host.validZone, c, app, kind);
    }
  }

  /**
   * After one round trip the exported arrays are in the order of their names,
   * and a second round trip, into any instance, exports the very same document.
   */
  lemma SecondRoundTripIsExact(host: Host, c: Config, app: App, target: App, cur: Config)
    requires host.validZone("Europe/Stockholm")
    requires InUse(host.Schema(), c) && Exportable(host.validZone, c, app)
    requires NoPlaceholder(Export(host.Schema(), c, app))
    ensures var schema := host.Schema();
      var first := Rebooted(schema, c, app);
      first.Some? &&
      var app1 := Imported(schema, c, app);
      var second := Rebooted(schema, first.value, app1);
      && (forall kind :: kind in ENTITIES ==> ByName(first.value.List(kind)))
      && Import(host, target, Export(schema, first.value, app1), Replace, cur, false)
          == Done(Imported(schema, first.value, app1))
      && second.Some?
      && Export(schema, second.value, Imported(schema, first.value, app1)) == Export(schema, first.value, app1)
  {
    hide *;
    var schema := host.Schema();
    RoundTrip(host, c, app, target, cur);
    var c1, app1 := Rebooted(schema, c, app).value, Imported(schema, c, app);
    RoundTrip(host, c1, app1, target, cur);
    var c2, app2 := Rebooted(schema, c1, app1).value, Imported(schema, c1, app1);
    forall kind ensures Exported(schema, c1, app1, kind) == Exported(schema, c2, app2, kind) {
      KindsSplit(kind);
      if kind in ENTITIES {
        OrderedSectionsEqual(schema, c1, app1, c2, app2, kind);
      } else {
        SingletonSectionsEqual(schema, c1, app1, c2, app2, kind);
      }
    }
    ImportedSettings(schema, c1, app1);
    EqualBySection(schema, c1, app1, c2, app2);
  }

  lemma KindsSplit(kind: Kind)
    ensures kind in ENTITIES <==> !IsSingleton(kind)
  {
  }

  lemma EqualBySection(schema: Kind -> Shape, c: Config, app: App, d: Config, app': App)
    requires app.retention == app'.retention
    requires forall kind :: Exported(schema, c, app, kind) == Exported(schema, d, app', kind)
    ensures Export(schema, c, app) == Export(schema, d, app')
  {
    hide Exported, Logs;
    SamePut(schema, c, app, d, app', ORDER);
  }

  lemma {:induction false} SamePut(schema: Kind -> Shape, c: Config, app: App, d: Config, app': App, kinds: seq<Kind>)
    requires forall kind :: Exported(schema, c, app, kind) == Exported(schema, d, app', kind)
    ensures PutAll(schema, c, app, kinds) == PutAll(schema, d, app', kinds)
  {
    hide Exported;
    if kinds != [] {
      SamePut(schema, c, app, d, app', kinds[..|kinds| - 1]);
    }
  }
}
