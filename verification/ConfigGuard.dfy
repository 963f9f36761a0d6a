/**
  The guard of config-overrides.ts behind a live configuration that is not the table's: src/server/api.ts validates
  an edit against the configuration in memory, which an import leaves as it was until the next boot.
 */
module ConfigGuard {
  import opened Prelude
  import opened Schema
  import opened ConfigModel
  import opened ConfigOverrides
  import opened ConfigListing
  import opened Redaction
  import opened ConfigIo
  import opened ConfigRenames
  import ConfigRoundTrip
  import ConfigFixpoint
  import ConfigImport

  /** A configuration in memory: parsed, every entity under a name of its own. */
  ghost predicate Live(schema: Kind -> Shape, from: Config) {
    ParseConfig(schema, from) == Some(from) && AllWellNamed(from)
  }

  /** An edit that names nothing anew and puts no infinite number where the schema would keep it. */
  ghost predicate GoodEdit(schema: Kind -> Shape, edits: seq<Row>) {
    GoodRows(edits) && KeepsFinite(schema, edits)
  }

  /** The table after the edit. */
  ghost function Next(schema: Kind -> Shape, base: Config, store: Store, edits: seq<Row>): Option<Config> {
    Effective(schema, base, Listing(SetAll(store, edits)))
  }

  /** Sections that `.default({})` fills in. */
  predicate FilledIn(kind: Kind) {
    kind == Site || kind == SmartCharging
  }

  /** Every entity and every optional section in memory is in the draft the table stands for. */
  ghost predicate Covered(from: Config, draft: Config) {
    forall key :: Canonical(key) && !FilledIn(key.kind) && Lookup(from, key).Some? ==> Lookup(draft, key).Some?
  }

  // ---------- an edit of what the table has ----------

  lemma TakenFields(shape: Shape, before: Fields, patch: Fields)
    requires Parse(shape, before + patch).Some?
    ensures FieldsTaken(shape, patch)
  {
    if !FieldsTaken(shape, patch) {
      BadFieldFails(shape, before, patch);
    }
  }

  /** What a patch lands on. */
  function Start(key: Key, o: Option<Fields>): Fields {
    match o
    case Some(f) => f
    case None => if IsSingleton(key.kind) then map[] else map["name" := Str(key.name)]
  }

  lemma PatchedStart(schema: Kind -> Shape, key: Key, o: Option<Fields>, patch: Fields)
    ensures Patched(key, o, patch) == Start(key, o) + patch
    ensures ParseSlot(schema, key.kind, Some(Patched(key, o, patch))).Some?
       <==> Parse(schema(key.kind), Start(key, o) + patch).Some?
  {
    hide Parse;
    assert map[] + patch == patch;
  }

  lemma SlotIsWhole(schema: Kind -> Shape, key: Key, o: Option<Fields>)
    requires ParseSlot(schema, key.kind, o).Some? && (o.Some? || FilledIn(key.kind))
    ensures Parse(schema(key.kind), Start(key, o)).Some?
  {
    hide Parse;
  }

  /**
   * A patch accepted on one slot is accepted on another that is whole, or that
   * stands where there was nothing in either.
   */
  lemma PatchMoves(schema: Kind -> Shape, key: Key, f: Option<Fields>, t: Option<Fields>, patch: Fields)
    requires ParseSlot(schema, key.kind, t).Some?
    requires t.Some? || FilledIn(key.kind) || f.None?
    requires ParseSlot(schema, key.kind, Some(Patched(key, f, patch))).Some?
    ensures ParseSlot(schema, key.kind, Some(Patched(key, t, patch))).Some?
  {
    hide Parse, ParseSlot, FieldsTaken, Patched;
    PatchedStart(schema, key, f, patch);
    PatchedStart(schema, key, t, patch);
    TakenFields(schema(key.kind), Start(key, f), patch);
    if t.Some? || FilledIn(key.kind) {
      SlotIsWhole(schema, key, t);
      ParsedFills(schema(key.kind), Start(key, t));
      FieldsEnough(schema(key.kind), Start(key, t), patch);
    }
  }

  lemma CoveredAt(from: Config, draft: Config, key: Key)
    requires Covered(from, draft) && Canonical(key)
    ensures Lookup(draft, key).Some? || FilledIn(key.kind) || Lookup(from, key).None?
  {
    hide Lookup;
  }

  /** So where the table has everything that is in memory, an accepted edit boots. */
  lemma CoveredBoots(schema: Kind -> Shape, base: Config, store: Store, from: Config, edits: seq<Row>)
    requires NamedEntities(schema) && Booting(schema, base, store) && AllWellNamed(from)
    requires Covered(from, Layer(base, Listing(store))) && GoodEdit(schema, edits)
    requires Validate(schema, from, edits).Some?
    ensures Next(schema, base, store, edits).Some?
  {
    hide *;
    var listing, after := Listing(store), Listing(SetAll(store, edits));
    BootingIs(schema, base, store);
    GoodEditIs(schema, edits);
    ListingLists(store);
    ListingLists(SetAll(store, edits));
    SetAllStaysGood(store, edits);
    ListingIsGood(listing, store);
    ListingIsGood(after, SetAll(store, edits));
    LayerKeepsNames(base, listing);
    LayerKeepsNames(base, after);
    LayerKeepsNames(from, edits);
    EffectiveIs(schema, base, listing);
    EffectiveIs(schema, base, after);
    EffectiveIs(schema, from, edits);
    NextIs(schema, base, store, edits);
    ParsesByKey(schema, Layer(base, listing));
    ParsesByKey(schema, Layer(base, after));
    ParsesByKey(schema, Layer(from, edits));
    forall key | Canonical(key) ensures ParseSlot(schema, key.kind, Lookup(Layer(base, after), key)).Some? {
      var t := Lookup(Layer(base, listing), key);
      SetThenLayer(base, store, listing, edits, after, key);
      LayerByKey(from, edits, key);
      CoveredAt(from, Layer(base, listing), key);
      assert ParseSlot(schema, key.kind, t).Some?;
      assert ParseSlot(schema, key.kind, Lookup(Layer(from, edits), key)).Some?;
      AmendedBoots(schema, key, Lookup(from, key), t, Combined(edits, key), edits);
    }
  }

  lemma AmendedBoots(schema: Kind -> Shape, key: Key, f: Option<Fields>, t: Option<Fields>, patch: Option<Fields>,
                     edits: seq<Row>)
    requires ParseSlot(schema, key.kind, t).Some? && (t.Some? || FilledIn(key.kind) || f.None?)
    requires ParseSlot(schema, key.kind, Amended(key, f, patch)).Some?
    requires Canonical(key) && KeepsFinite(schema, edits) && patch == Combined(edits, key)
    ensures ParseSlot(schema, key.kind, Amended(key, t, RereadPatch(patch))).Some?
  {
    hide Parse, ParseSlot, Patched, Combined, KeptFiniteFields, RereadFields;
    if patch.Some? {
      KeepsFiniteAt(schema, edits, key);
      PatchMoves(schema, key, f, t, patch.value);
      SlotReread(schema, key, t, patch.value);
    }
  }

  lemma BootingIs(schema: Kind -> Shape, base: Config, store: Store)
    requires Booting(schema, base, store)
    ensures AllWellNamed(base) && GoodStore(store) && Effective(schema, base, Listing(store)).Some?
  {
    hide Effective, AllWellNamed, GoodStore;
  }

  lemma GoodEditIs(schema: Kind -> Shape, edits: seq<Row>)
    ensures GoodEdit(schema, edits) <==> GoodRows(edits) && KeepsFinite(schema, edits)
  {
    hide GoodRows, KeepsFinite;
  }

  lemma ListingLists(store: Store)
    ensures Lists(Listing(store), store)
  {
    hide Lists, Ordered;
  }

  lemma NextIs(schema: Kind -> Shape, base: Config, store: Store, edits: seq<Row>)
    ensures Next(schema, base, store, edits) == Effective(schema, base, Listing(SetAll(store, edits)))
  {
    hide Effective, SetAll;
  }

  // ---------- an edit of what the table no longer has ----------

  /** What an entity or an optional section cannot do without. */
  function Needs(kind: Kind): string {
    match kind
    case MqttBridge => "broker"
    case Loadpoint => "charger"
    case _ => "type"
  }

  lemma NeededField(validZone: string -> bool, kind: Kind)
    requires !FilledIn(kind)
    ensures Needs(kind) != "name"
    ensures var shape := ConfigSchema(validZone)(kind);
      Needs(kind) in shape.fields && shape.fields[Needs(kind)].Required?
  {
    hide TEXT, NUMBER, AtLeast, Between, Whole, MODE_TYPE, PERCENT, KWH, HOUR_MINUTE, BROKER_SHAPE, SiteShape,
      SMART_CHARGING_SHAPE;
    assert MQTT_BRIDGE_SHAPE.fields["broker"].Required? && LOADPOINT_SHAPE.fields["charger"].Required?;
    assert BALANCER_SHAPE.fields["type"].Required? && NAMED_MODULE_SHAPE.fields["type"].Required?;
  }

  lemma Incomplete(validZone: string -> bool, kind: Kind, e: Fields)
    requires !FilledIn(kind) && Needs(kind) !in e
    ensures Parse(ConfigSchema(validZone)(kind), e).None?
  {
    hide Parse, ConfigSchema, Needs;
    NeededField(validZone, kind);
    var shape := ConfigSchema(validZone)(kind);
    ParseAt(shape, e);
    assert At(shape, e, Needs(kind)) == Fill(shape.fields[Needs(kind)], None);
  }

  lemma StillLacks(key: Key, patch: Fields, k: string)
    requires k != "name" && k !in patch
    ensures k !in Patched(key, None, RereadFields(patch))
  {
  }

  /** Editing an entity or optional section that is in memory is accepted whatever the table holds. */
  lemma EditAccepted(schema: Kind -> Shape, from: Config, row: Row)
    requires NamedEntities(schema) && Live(schema, from) && GoodRow(row)
    requires Lookup(from, row.key).Some? && FieldsTaken(schema(row.key.kind), row.patch)
    ensures Validate(schema, from, [row]).Some?
  {
    hide *;
    LiveIs(schema, from);
    GoodIsCanonical(row);
    var f := Lookup(from, row.key).value;
    ParsedLookup(schema, from, row.key);
    SlotParsed(schema, row.key, f);
    ParsedFills(schema(row.key.kind), f);
    FieldsEnough(schema(row.key.kind), f, row.patch);
    PatchedOnto(row.key, f, row.patch);
    MergeParses(schema, from, row);
    LayerTwo(from, row, row);
    EffectiveIs(schema, from, [row]);
  }

  lemma SlotParsed(schema: Kind -> Shape, key: Key, f: Fields)
    requires ParseSlot(schema, key.kind, Some(f)).Some?
    ensures Parse(schema(key.kind), f).Some?
  {
    hide Parse;
  }

  lemma LiveIs(schema: Kind -> Shape, from: Config)
    ensures Live(schema, from) <==> ParseConfig(schema, from) == Some(from) && AllWellNamed(from)
  {
    hide ParseConfig, AllWellNamed;
  }

  /** If the table does not have it, and the edit does not supply what it cannot do without, the next boot fails. */
  lemma StaleEditBricks(validZone: string -> bool, base: Config, store: Store, from: Config, row: Row)
    requires GoodStore(store) && GoodRow(row) && !FilledIn(row.key.kind)
    requires Live(ConfigSchema(validZone), from) && Lookup(from, row.key).Some?
    requires Lookup(Layer(base, Listing(store)), row.key).None?
    requires FieldsTaken(ConfigSchema(validZone)(row.key.kind), row.patch) && Needs(row.key.kind) !in row.patch
    ensures Validate(ConfigSchema(validZone), from, [row]).Some?
    ensures Next(ConfigSchema(validZone), base, store, [row]).None?
  {
    hide *;
    var schema := ConfigSchema(validZone);
    ConfigSchemaNamesEntities(validZone);
    EditAccepted(schema, from, row);
    var after := Listing(SetAll(store, [row]));
    GoodIsCanonical(row);
    OneIsGood(row);
    ListingLists(store);
    ListingLists(SetAll(store, [row]));
    SetThenLayer(base, store, Listing(store), [row], after, row.key);
    CombinedOfOne(row, row.key);
    var e := Patched(row.key, None, RereadFields(row.patch));
    AmendedIs(row.key, row.patch);
    NeededField(validZone, row.key.kind);
    StillLacks(row.key, row.patch, Needs(row.key.kind));
    Incomplete(validZone, row.key.kind, e);
    NextIs(schema, base, store, [row]);
    EffectiveIs(schema, base, after);
    if ParseConfig(schema, Layer(base, after)).Some? {
      ParsedLookup(schema, Layer(base, after), row.key);
      SlotParsed(schema, row.key, e);
      assert false;
    }
  }

  lemma AmendedIs(key: Key, patch: Fields)
    ensures Amended(key, None, RereadPatch(Some(patch))) == Some(Patched(key, None, RereadFields(patch)))
  {
    hide Patched, RereadFields;
  }

  lemma OneIsGood(row: Row)
    requires GoodRow(row)
    ensures GoodRows([row])
  {
  }

  /** A field no section declares. */
  function Labelled(key: Key): Row {
    Row(key, map["label" := Str("x")])
  }

  lemma LabelUndeclared(validZone: string -> bool, kind: Kind)
    ensures "label" !in ConfigSchema(validZone)(kind).fields
  {
    hide Accept, HourWindow, AtLeast, Between, Whole, TEXT, NUMBER, MODE_TYPE, PERCENT, KWH, HOUR_MINUTE, BROKER_SHAPE;
    assert "label" !in SMART_CHARGING_SHAPE.fields && "label" !in MQTT_BRIDGE_SHAPE.fields;
    assert "label" !in LOADPOINT_SHAPE.fields && "label" !in BALANCER_SHAPE.fields;
    assert "label" !in NAMED_MODULE_SHAPE.fields && "label" !in SiteShape(validZone).fields;
  }

  lemma LabelIsGood(validZone: string -> bool, key: Key)
    requires Canonical(key)
    ensures GoodRow(Labelled(key)) && FieldsTaken(ConfigSchema(validZone)(key.kind), Labelled(key).patch)
    ensures Needs(key.kind) !in Labelled(key).patch
    ensures KeptFiniteFields(ConfigSchema(validZone)(key.kind), Labelled(key).patch)
  {
    hide ConfigSchema, Accept, KeptFiniteFields;
    LabelUndeclared(validZone, key.kind);
    assert Finite(Labelled(key).patch["label"]);
    FiniteFieldsAreKept(ConfigSchema(validZone)(key.kind), Labelled(key).patch);
  }

  /**
   * Every accepted edit leaves a table that boots, exactly if the table has
   * every entity and every optional section that is in memory.
   */
  lemma AcceptedEditsBootIff(validZone: string -> bool, base: Config, store: Store, from: Config)
    requires Booting(ConfigSchema(validZone), base, store) && Live(ConfigSchema(validZone), from)
    ensures
      (forall edits :: GoodEdit(ConfigSchema(validZone), edits) && Validate(ConfigSchema(validZone), from, edits).Some?
         ==> Next(ConfigSchema(validZone), base, store, edits).Some?)
      <==> Covered(from, Layer(base, Listing(store)))
  {
    hide *;
    var schema := ConfigSchema(validZone);
    ConfigSchemaNamesEntities(validZone);
    LiveIs(schema, from);
    BootingIs(schema, base, store);
    if Covered(from, Layer(base, Listing(store))) {
      forall edits | GoodEdit(schema, edits) && Validate(schema, from, edits).Some?
        ensures Next(schema, base, store, edits).Some?
      {
        CoveredBoots(schema, base, store, from, edits);
      }
    } else {
      var key := Uncovered(from, Layer(base, Listing(store)));
      var row := Labelled(key);
      LabelIsGood(validZone, key);
      LabelIs(key);
      GoodLabel(validZone, key);
      NoneOrSome(Lookup(Layer(base, Listing(store)), key));
      StaleEditBricks(validZone, base, store, from, row);
      NoneOrSome(Next(schema, base, store, [row]));
    }
  }

  lemma NoneOrSome<T>(o: Option<T>)
    ensures o.None? <==> !o.Some?
  {
  }

  lemma GoodLabel(validZone: string -> bool, key: Key)
    requires Canonical(key)
    ensures GoodEdit(ConfigSchema(validZone), [Labelled(key)])
  {
    hide ConfigSchema, KeptFiniteFields, Labelled, KeepsFinite, FieldsTaken;
    LabelIsGood(validZone, key);
    LabelIs(key);
    OneGoodRow(ConfigSchema(validZone), Labelled(key));
  }

  lemma LabelIs(key: Key)
    ensures Labelled(key).key == key && Labelled(key).patch == map["label" := Str("x")]
  {
  }

  lemma Uncovered(from: Config, draft: Config) returns (key: Key)
    requires !Covered(from, draft)
    ensures Canonical(key) && !FilledIn(key.kind) && Lookup(from, key).Some? && !Lookup(draft, key).Some?
  {
    hide Lookup;
    key :| Canonical(key) && !FilledIn(key.kind) && Lookup(from, key).Some? && !Lookup(draft, key).Some?;
  }

  // ---------- when it boots as validated ----------

  /** What an edit validated to is what the table then boots to. */
  ghost predicate AsValidated(schema: Kind -> Shape, base: Config, store: Store, from: Config, edits: seq<Row>) {
    Validate(schema, from, edits).Some? ==>
      && Next(schema, base, store, edits).Some?
      && SameUpToOrder(Validate(schema, from, edits).value, Next(schema, base, store, edits).value)
  }

  lemma SameValidates(schema: Kind -> Shape, a: Config, b: Config, edits: seq<Row>)
    requires NamedEntities(schema) && AllWellNamed(a) && AllWellNamed(b) && SameUpToOrder(a, b) && GoodRows(edits)
    ensures Validate(schema, a, edits).Some? <==> Validate(schema, b, edits).Some?
    ensures Validate(schema, a, edits).Some? ==>
      SameUpToOrder(Validate(schema, a, edits).value, Validate(schema, b, edits).value)
  {
    hide *;
    LayerKeepsNames(a, edits);
    LayerKeepsNames(b, edits);
    EffectiveIs(schema, a, edits);
    EffectiveIs(schema, b, edits);
    forall key | Canonical(key) ensures Lookup(Layer(a, edits), key) == Lookup(Layer(b, edits), key) {
      LayerByKey(a, edits, key);
      LayerByKey(b, edits, key);
      SameUpToOrderByKey(a, b, key);
    }
    SameSlotsSameConfig(schema, Layer(a, edits), Layer(b, edits));
  }

  lemma SameIsTransitive(a: Config, b: Config, c: Config)
    requires SameUpToOrder(a, b) && SameUpToOrder(b, c)
    ensures SameUpToOrder(a, c)
  {
  }

  lemma SameIsSymmetric(a: Config, b: Config)
    requires SameUpToOrder(a, b)
    ensures SameUpToOrder(b, a)
  {
  }

  lemma FreshBootsAsValidated(schema: Kind -> Shape, base: Config, store: Store, from: Config, edits: seq<Row>)
    requires NamedEntities(schema) && Booting(schema, base, store) && AllWellNamed(from) && GoodEdit(schema, edits)
    requires SameUpToOrder(from, Effective(schema, base, Listing(store)).value)
    ensures AsValidated(schema, base, store, from, edits)
  {
    hide *;
    hide Next, GoodEdit, AsValidated;
    BootingIs(schema, base, store);
    GoodEditIs(schema, edits);
    var running := Effective(schema, base, Listing(store)).value;
    EffectiveIs(schema, base, Listing(store));
    ListingLists(store);
    ListingLists(SetAll(store, edits));
    ListingIsGood(Listing(store), store);
    LayerKeepsNames(base, Listing(store));
    ParsedConfigWellNamed(schema, Layer(base, Listing(store)));
    SameValidates(schema, from, running, edits);
    NextIs(schema, base, store, edits);
    ValidateThenPersist(schema, base, store, Listing(store), edits, Listing(SetAll(store, edits)));
    if Validate(schema, from, edits).Some? {
      SameIsTransitive(Validate(schema, from, edits).value, Validate(schema, running, edits).value,
                       Next(schema, base, store, edits).value);
    }
    AsValidatedIs(schema, base, store, from, edits);
  }

  lemma AsValidatedIs(schema: Kind -> Shape, base: Config, store: Store, from: Config, edits: seq<Row>)
    ensures AsValidated(schema, base, store, from, edits) <==>
      (Validate(schema, from, edits).Some? ==>
         Next(schema, base, store, edits).Some?
         && SameUpToOrder(Validate(schema, from, edits).value, Next(schema, base, store, edits).value))
  {
    hide Validate, Next, SameUpToOrder;
  }

  /** A closed section drops a field it does not declare. */
  lemma Stripped(shape: Shape, o: Fields, patch: Fields)
    requires !shape.open && patch.Keys !! shape.fields.Keys
    ensures Parse(shape, o + patch) == Parse(shape, o)
  {
    hide Parse;
    forall k ensures At(shape, o + patch, k) == At(shape, o, k) {
      if k !in patch {
        SameKeySameAt(shape, o + patch, o, k);
      }
    }
    SameAtSameParse(shape, o + patch, o);
  }

  lemma LabelStripped(validZone: string -> bool, o: Option<Fields>)
    ensures var schema := ConfigSchema(validZone);
      ParseSlot(schema, Site, Some(Patched(SITE_KEY, o, Labelled(SITE_KEY).patch))) == ParseSlot(schema, Site, o)
  {
    hide Parse, At, SiteShape, ParseSlot, ConfigSchema, Patched;
    var patch := Labelled(SITE_KEY).patch;
    SiteIsClosed(validZone);
    PatchedStart(ConfigSchema(validZone), SITE_KEY, o, patch);
    Stripped(SiteShape(validZone), Start(SITE_KEY, o), patch);
    SiteSlot(validZone, o);
    SiteSlot(validZone, Some(Patched(SITE_KEY, o, patch)));
  }

  lemma SiteIsClosed(validZone: string -> bool)
    ensures "label" !in SiteShape(validZone).fields && !SiteShape(validZone).open
  {
  }

  lemma SiteSlot(validZone: string -> bool, o: Option<Fields>)
    ensures ParseSlot(ConfigSchema(validZone), Site, o)
         == match Parse(SiteShape(validZone), Start(SITE_KEY, o)) case Some(f) => Some(Some(f)) case None => None
  {
    hide Parse, SiteShape;
  }

  lemma LabelReread()
    ensures RereadFields(Labelled(SITE_KEY).patch) == Labelled(SITE_KEY).patch
    ensures Labelled(SITE_KEY).key == SITE_KEY && Canonical(SITE_KEY) && FilledIn(Site) && SITE_KEY.kind == Site
  {
  }

  lemma SitePresent(schema: Kind -> Shape, from: Config)
    requires NamedEntities(schema) && Live(schema, from)
    ensures Lookup(from, SITE_KEY).Some?
  {
    hide Parse, ParseConfig, Lookup;
    ParsedLookup(schema, from, SITE_KEY);
  }

  /** Writing such a field is accepted and changes nothing that boots. */
  lemma LabelChangesNothing(validZone: string -> bool, base: Config, store: Store, from: Config)
    requires Booting(ConfigSchema(validZone), base, store) && Live(ConfigSchema(validZone), from)
    ensures var schema := ConfigSchema(validZone);
      var edits := [Labelled(SITE_KEY)];
      && Validate(schema, from, edits).Some? && SameUpToOrder(Validate(schema, from, edits).value, from)
      && (Next(schema, base, store, edits).Some? ==>
            SameUpToOrder(Next(schema, base, store, edits).value, Effective(schema, base, Listing(store)).value))
  {
    hide *;
    var schema := ConfigSchema(validZone);
    var row := Labelled(SITE_KEY);
    var listing, after := Listing(store), Listing(SetAll(store, [row]));
    ConfigSchemaNamesEntities(validZone);
    LiveIs(schema, from);
    BootingIs(schema, base, store);
    LabelReread();
    LabelIsGood(validZone, SITE_KEY);
    SitePresent(schema, from);
    EditAccepted(schema, from, row);
    OneIsGood(row);
    ListingLists(store);
    ListingLists(SetAll(store, [row]));
    SetAllStaysGood(store, [row]);
    ListingIsGood(listing, store);
    ListingIsGood(after, SetAll(store, [row]));
    LayerKeepsNames(base, listing);
    LayerKeepsNames(base, after);
    LayerKeepsNames(from, [row]);
    EffectiveIs(schema, base, listing);
    EffectiveIs(schema, base, after);
    EffectiveIs(schema, from, [row]);
    NextIs(schema, base, store, [row]);
    forall key | Canonical(key)
      ensures ParseSlot(schema, key.kind, Lookup(Layer(from, [row]), key))
          == ParseSlot(schema, key.kind, Lookup(from, key))
      ensures ParseSlot(schema, key.kind, Lookup(Layer(base, after), key))
           == ParseSlot(schema, key.kind, Lookup(Layer(base, listing), key))
    {
      CombinedOfOne(row, key);
      LayerByKey(from, [row], key);
      SetThenLayer(base, store, listing, [row], after, key);
      NotAmended(key, Lookup(from, key), row.patch);
      NotAmended(key, Lookup(Layer(base, listing), key), row.patch);
      if key == SITE_KEY {
        LabelStripped(validZone, Lookup(from, key));
        LabelStripped(validZone, Lookup(Layer(base, listing), key));
      }
    }
    SameSlotsSameConfig(schema, Layer(from, [row]), from);
    SameSlotsSameConfig(schema, Layer(base, after), Layer(base, listing));
  }

  lemma NotAmended(key: Key, o: Option<Fields>, patch: Fields)
    ensures Amended(key, o, RereadPatch(None)) == Amended(key, o, None) == o
    ensures Amended(key, o, Some(patch)) == Some(Patched(key, o, patch))
    ensures Amended(key, o, RereadPatch(Some(patch))) == Some(Patched(key, o, RereadFields(patch)))
  {
    hide Patched, RereadFields;
  }

  /**
   * Every accepted edit boots as it was validated, exactly if what is in
   * memory is what the table yields, up to the order of the entities.
   */
  lemma EditsBootAsValidatedIff(validZone: string -> bool, base: Config, store: Store, from: Config)
    requires Booting(ConfigSchema(validZone), base, store) && Live(ConfigSchema(validZone), from)
    ensures
      (forall edits :: GoodEdit(ConfigSchema(validZone), edits)
         ==> AsValidated(ConfigSchema(validZone), base, store, from, edits))
      <==> SameUpToOrder(from, Effective(ConfigSchema(validZone), base, Listing(store)).value)
  {
    hide *;
    hide GoodEdit, AsValidated, Next;
    var schema := ConfigSchema(validZone);
    ConfigSchemaNamesEntities(validZone);
    LiveIs(schema, from);
    BootingIs(schema, base, store);
    var running := Effective(schema, base, Listing(store)).value;
    if SameUpToOrder(from, running) {
      forall edits | GoodEdit(schema, edits) ensures AsValidated(schema, base, store, from, edits) {
        FreshBootsAsValidated(schema, base, store, from, edits);
      }
    } else {
      var edits := [Labelled(SITE_KEY)];
      LabelReread();
      GoodLabel(validZone, SITE_KEY);
      LabelChangesNothing(validZone, base, store, from);
      AsValidatedIs(schema, base, store, from, edits);
      if AsValidated(schema, base, store, from, edits) {
        var validated, next := Validate(schema, from, edits).value, Next(schema, base, store, edits).value;
        SameIsSymmetric(validated, from);
        SameIsTransitive(from, validated, next);
        SameIsTransitive(from, next, running);
        assert false;
      }
    }
  }

  // ---------- an import, then an edit ----------

  /**
   * The input that leads there: after a replacing import of a document without
   * it, an entity or optional section that is still in memory can be edited,
   * and unless the edit supplies what it cannot do without, the next boot fails.
   */
  lemma ImportThenEditBricks(host: Host, app: App, doc: Fields, cur: Config, row: Row)
    requires host.validZone("Europe/Stockholm") && Live(host.Schema(), cur)
    requires Import(host, app, doc, Replace, cur, false).Done?
    requires GoodRow(row) && !FilledIn(row.key.kind) && Lookup(cur, row.key).Some?
    requires Combined(DocRows(Restored(host.registry, cur, doc)), row.key).None?
    requires FieldsTaken(host.Schema()(row.key.kind), row.patch) && Needs(row.key.kind) !in row.patch
    ensures var store := Import(host, app, doc, Replace, cur, false).after.store;
      && Validate(host.Schema(), cur, [row]).Some?
      && Next(host.Schema(), Defaults(host.Schema()), store, [row]).None?
  {
    hide *;
    hide Next, Live, FilledIn, Needs;
    var schema := ConfigSchema(host.validZone);
    var rows := DocRows(Restored(host.registry, cur, doc));
    var store := SetAll(map[], rows);
    SchemaOf(host);
    ReplacedStore(host, app, doc, cur);
    DocRowsByKey(Restored(host.registry, cur, doc), row.key);
    EmptyLists();
    SetAllStaysGood(map[], rows);
    GoodIsCanonical(row);
    DefaultsParse(host.validZone);
    ListingLists(store);
    ListingIsGood(Listing(store), store);
    LayerByKey(Defaults(schema), Listing(store), row.key);
    ListingByKey(Listing(store), store, row.key);
    SetAllByKey(map[], rows, row.key);
    NothingThere(Defaults(schema), row.key);
    StaleEditBricks(host.validZone, Defaults(schema), store, cur, row);
  }

  lemma SchemaOf(host: Host)
    ensures host.Schema() == ConfigSchema(host.validZone)
  {
  }

  lemma ReplacedStore(host: Host, app: App, doc: Fields, cur: Config)
    requires Import(host, app, doc, Replace, cur, false).Done?
    ensures Import(host, app, doc, Replace, cur, false).after.store
         == SetAll(map[], DocRows(Restored(host.registry, cur, doc)))
  {
    hide Restored, Passes, DocRows, SetAll, TimezoneToSet, RetentionToSet, ZoneAccepted, RetentionAccepted, Inits, Seed,
      Accepted, ConfigSchema;
  }

  lemma NothingThere(base: Config, key: Key)
    requires (forall kind :: base.List(kind) == []) && base.Single(MqttBridge).None? && !FilledIn(key.kind)
    ensures Lookup(base, key) == None && PatchAt(map[], key) == None && Amended(key, None, None) == None
  {
  }

  const BLANK: Fields := map["loadpoints" := Arr([])]

  /** Importing a blank document over anything succeeds and leaves no row. */
  lemma BlankImports(host: Host, app: App, cur: Config)
    requires host.validZone("Europe/Stockholm")
    ensures Import(host, app, BLANK, Replace, cur, false).Done?
    ensures DocRows(Restored(host.registry, cur, BLANK)) == []
  {
    hide *;
    BlankIs();
    ConfigImport.NamelessUntouched(host, cur, BLANK);
    ConfigImport.NamelessPasses(host, BLANK, cur);
    ConfigImport.NamelessSettings(host, BLANK);
    ConfigImport.ImportOf(host, app, BLANK, cur);
    ConfigImport.DefaultDays();
    BlankInits(host);
    ConfigRoundTrip.SettledAs(host, Written(app, Replace, BLANK), "Europe/Stockholm", DEFAULT_RETENTION,
                              Items(BLANK, "loadpoints"), []);
    ConfigImport.NoDocRows(BLANK, ORDER);
    DocRowsIs(BLANK);
  }

  lemma BlankIs()
    ensures ConfigImport.OnlyNameless(BLANK) && BLANK.Keys == {"loadpoints"} && BLANK["loadpoints"].Arr?
  {
  }

  lemma BlankInits(host: Host)
    ensures Inits(host, Items(BLANK, "loadpoints")) == Some([]) && Accepted([]) == 0
  {
    assert Items(BLANK, "loadpoints") == [];
    assert Inits(host, []).value == [];
  }

  /** A table of one whole entity boots to a configuration that has it. */
  lemma OneEntityBoots(validZone: string -> bool, key: Key)
    requires validZone("Europe/Stockholm") && key.kind in ENTITIES && key.name != ""
    ensures var schema := ConfigSchema(validZone);
      var boot := Effective(schema, Defaults(schema), Listing(map[key := Least(key.kind)]));
      boot.Some? && Live(schema, boot.value) && Lookup(boot.value, key).Some?
  {
    hide *;
    var schema := ConfigSchema(validZone);
    var store: Store := map[key := Least(key.kind)];
    ConfigImport.NothingTaken(schema(key.kind));
    EntityLeast(validZone, key, map[]);
    WholeIsFinite(schema(key.kind), key.name, Least(key.kind));
    OneStored(key);
    DefaultsAreEmpty(validZone);
    EmptyIs(schema, Defaults(schema));
    OneRowBoots(schema, Defaults(schema), key, Least(key.kind));
    ListingLists(store);
    ConfigFixpoint.BootsInUse(validZone, store, Listing(store));
    var c := Effective(schema, Defaults(schema), Listing(store)).value;
    InUseLive(schema, c);
    ConfigSchemaNamesEntities(validZone);
    KeepsNameOf(schema, key.kind);
    var e := map["name" := Str(key.name)] + Least(key.kind);
    ParseKeepsName(schema(key.kind), e);
    LeastNameless(key);
    OneFound(c, key, Parse(schema(key.kind), e).value);
  }

  lemma OneStored(key: Key)
    requires key.kind in ENTITIES && key.name != "" && FiniteFields(Least(key.kind))
    ensures GoodStore(map[key := Least(key.kind)]) && ConfigFixpoint.NamedStore(map[key := Least(key.kind)])
  {
    LeastIsGood(key);
  }

  lemma EmptyIs(schema: Kind -> Shape, base: Config)
    requires NoEntities(schema, base)
    ensures ParseConfig(schema, base).Some? && forall kind :: base.List(kind) == []
  {
    hide ParseConfig;
  }

  lemma InUseLive(schema: Kind -> Shape, c: Config)
    requires ConfigRoundTrip.InUse(schema, c)
    ensures Live(schema, c)
  {
    hide ParseConfig;
  }

  lemma LeastNameless(key: Key)
    ensures NameOf(map["name" := Str(key.name)] + Least(key.kind)) == Str(key.name)
  {
  }

  lemma OneFound(c: Config, key: Key, e: Fields)
    requires key.kind in ENTITIES && c.List(key.kind) == [e] && NameOf(e) == Str(key.name)
    ensures Lookup(c, key) == Some(e)
  {
  }

  /** It happens to every entity: boot with it alone, import a blank document, and label it. */
  lemma ImportThenEditHappens(host: Host, app: App, key: Key)
    requires host.validZone("Europe/Stockholm") && key.kind in ENTITIES && key.name != ""
    ensures var schema := host.Schema();
      var boot := Effective(schema, Defaults(schema), Listing(map[key := Least(key.kind)]));
      boot.Some? &&
      var run := Import(host, app, BLANK, Replace, boot.value, false);
      && run.Done?
      && Validate(schema, boot.value, [Labelled(key)]).Some?
      && Next(schema, Defaults(schema), run.after.store, [Labelled(key)]).None?
  {
    hide *;
    SchemaOf(host);
    OneEntityBoots(host.validZone, key);
    var schema := host.Schema();
    var cur := Effective(schema, Defaults(schema), Listing(map[key := Least(key.kind)])).value;
    BlankImports(host, app, cur);
    ConfigFixpoint.EntityIsCanonical(key);
    LabelIsGood(host.validZone, key);
    LabelIs(key);
    NotFilledIn(key.kind);
    NoneCombined(key);
    ImportThenEditBricks(host, app, BLANK, cur, Labelled(key));
  }

  lemma NotFilledIn(kind: Kind)
    requires kind in ENTITIES
    ensures !FilledIn(kind)
  {
  }

  lemma NoneCombined(key: Key)
    ensures Combined([], key) == None
  {
  }
}
