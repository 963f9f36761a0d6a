/**
  What an import writes, told by the sections of its document, and that an instance's own export loses nothing:
  src/core/config-io.ts, src/core/loadpoint.ts.
 */
module ConfigKept {
  import opened Prelude
  import opened Schema
  import opened ConfigModel
  import opened ConfigOverrides
  import opened Redaction
  import opened ConfigIo
  import opened ConfigRoundTrip

  // ---------- the rows of a document ----------

  /** The names a document uses for its sections. */
  lemma SectionNames()
    ensures Section(Site) == "site" && Section(SmartCharging) == "smartCharging"
         && Section(MqttBridge) == "mqttBridge" && Section(Tariff) == "tariffs" && Section(Balancer) == "balancers"
         && Section(Vehicle) == "vehicles" && Section(Charger) == "chargers" && Section(MeterReader) == "meterReaders"
         && Section(Loadpoint) == "loadpoints"
  {
  }

  /** What a document says about a section or an entity, by name. */
  function Said(doc: Fields, key: Key): Option<Fields> {
    match key.kind
    case Site => SaidOnce(doc, "site")
    case SmartCharging => SaidOnce(doc, "smartCharging")
    case MqttBridge => SaidOnce(doc, "mqttBridge")
    case Tariff => SaidOf(Items(doc, "tariffs"), key.name)
    case Balancer => SaidOf(Items(doc, "balancers"), key.name)
    case Vehicle => SaidOf(Items(doc, "vehicles"), key.name)
    case Charger => SaidOf(Items(doc, "chargers"), key.name)
    case MeterReader => SaidOf(Items(doc, "meterReaders"), key.name)
    case Loadpoint => SaidOf(Items(doc, "loadpoints"), key.name)
  }

  function SaidOnce(doc: Fields, section: string): Option<Fields> {
    match Get(doc, section)
    case Some(Obj(f)) => Some(f)
    case _ => None
  }

  /** All entries under a name, a later one over an earlier one, and without it. */
  function SaidOf(items: seq<Json>, name: string): Option<Fields> {
    if items == [] then None
    else
      var before, last := SaidOf(items[..|items| - 1], name), items[|items| - 1];
      if name != "" && last.Obj? && NameOf(last.fields) == Str(name)
      then Some(before.GetOr(map[]) + (last.fields - {"name"}))
      else before
  }

  lemma {:induction false} EntityRowsSay(kind: Kind, items: seq<Json>, name: string)
    ensures Combined(EntityRows(kind, items), Key(kind, name)) == SaidOf(items, name)
  {
    if items != [] {
      var front, last := items[..|items| - 1], items[|items| - 1];
      EntityRowsSay(kind, front, name);
      if last.Obj? && NameOf(last.fields).Str? && NameOf(last.fields).s != "" {
        var row := Row(Key(kind, NameOf(last.fields).s), last.fields - {"name"});
        OneMore(EntityRows(kind, front), row, Key(kind, name));
      }
      hide Combined;
    }
  }

  lemma OneMore(rows: seq<Row>, row: Row, key: Key)
    ensures Combined(rows + [row], key)
         == if row.key == key then Some(Combined(rows, key).GetOr(map[]) + row.patch) else Combined(rows, key)
  {
    assert (rows + [row])[..|rows|] == rows;
  }

  lemma RowsSay(doc: Fields, key: Key)
    requires Canonical(key)
    ensures Combined(DocRows(doc), key) == Said(doc, key)
  {
    hide DocRows, EntityRows, SaidOf, Combined;
    DocRowsByKey(doc, key);
    SectionNames();
    hide Section;
    if IsSingleton(key.kind) {
      SingletonSays(doc, key);
    } else {
      EntityRowsSay(key.kind, Items(doc, Section(key.kind)), key.name);
      NothingSaid(key);
    }
  }

  lemma NothingSaid(key: Key)
    ensures Combined([], key) == None && SaidOf([], key.name) == None
  {
  }

  lemma SingletonSays(doc: Fields, key: Key)
    requires IsSingleton(key.kind) && Canonical(key)
    ensures Combined(KindRows(doc, key.kind), key) == Said(doc, key)
  {
    var rows := KindRows(doc, key.kind);
    if rows != [] {
      assert rows[..0] == [];
      assert map[] + rows[0].patch == rows[0].patch;
    }
  }

  // ---------- what an import writes ----------

  /** The position of the last entry that seeds a name. */
  ghost predicate LastNamed(host: Host, items: seq<Json>, name: string, i: nat)
    requires i < |items|
  {
    && InitOf(host, items[i]).Some? && InitOf(host, items[i]).value.name == name
    && forall j :: i < j < |items| && InitOf(host, items[j]).Some? ==> InitOf(host, items[j]).value.name != name
  }

  /** A live state as a loadpoint entry of a document asks for it: smart unless it says otherwise, and its targets. */
  ghost predicate AsAsked(st: Fields, lp: Fields) {
    && Get(st, "mode") == Some(Or(Get(lp, "defaultMode"), Str("smart")))
    && Get(st, "targetSoc") == Given(lp, "targetSoc")
    && Get(st, "targetTime") == Given(lp, "targetTime")
    && Get(st, "targetKWh") == Given(lp, "targetKWh")
    && Get(st, "minSoc") == Given(lp, "minSoc")
  }

  lemma SeedsAsAsked(lp: Fields)
    ensures AsAsked(SeededState(lp), lp)
  {
  }

  ghost predicate IsLast(inits: seq<LoadpointInit>, name: string, i: nat)
    requires i < |inits|
  {
    inits[i].name == name && forall j :: i < j < |inits| ==> inits[j].name != name
  }

  ghost predicate NoneNamed(inits: seq<LoadpointInit>, name: string) {
    forall i :: 0 <= i < |inits| ==> inits[i].name != name
  }

  lemma {:induction false} SeedsLast(runtimes: Runtimes, inits: seq<LoadpointInit>, name: string, i: nat)
    requires i < |inits| && IsLast(inits, name, i)
    ensures name in Seed(runtimes, inits) && Seed(runtimes, inits)[name] == SeededState(inits[i].fields)
  {
    hide SeededState;
    var last := |inits| - 1;
    if i < last {
      assert inits[last].name != name;
      assert forall j :: 0 <= j < last ==> inits[..last][j] == inits[j];
      SeedsLast(runtimes, inits[..last], name, i);
    }
  }

  lemma {:induction false} SeedsNothing(runtimes: Runtimes, inits: seq<LoadpointInit>, name: string)
    requires NoneNamed(inits, name)
    ensures name in Seed(runtimes, inits) <==> name in runtimes
    ensures name in runtimes ==> Seed(runtimes, inits)[name] == runtimes[name]
  {
    hide SeededState;
    if inits != [] {
      var last := |inits| - 1;
      assert inits[last].name != name;
      assert forall j :: 0 <= j < last ==> inits[..last][j] == inits[j];
      SeedsNothing(runtimes, inits[..last], name);
    }
  }

  /** The tables and settings after an import that completes. */
  lemma DoneIs(host: Host, app: App, docIn: Fields, mode: Mode, cur: Config)
    requires host.validZone("Europe/Stockholm") && Import(host, app, docIn, mode, cur, false).Done?
    ensures var doc := Restored(host.registry, cur, docIn);
      var after := Import(host, app, docIn, mode, cur, false).after;
      var zone, days := TimezoneToSet(host.Schema(), doc, mode), RetentionToSet(doc, mode);
      var inits := Inits(host, Items(doc, "loadpoints"));
      && Validate(host.Schema(), ImportBase(host.Schema(), mode, cur), DocRows(doc)).Some?
      && after.store == ImportStore(app, mode, doc)
      && (zone.Some? ==> zone.value == Str(after.timezone)) && (zone.None? ==> after.timezone == app.timezone)
      && (days.Some? ==> RetentionAccepted(days.value) && after.retention == days.value.n.Floor)
      && (days.None? ==> after.retention == app.retention)
      && inits.Some? && after.runtimes == Seed(if mode == Replace then map[] else app.runtimes, inits.value)
  {
    hide Validate, Restored, TimezoneToSet, RetentionToSet, ImportStore, Inits, Seed, Items, NullEntity, DocRows,
      ConfigSchema, ImportBase;
    var doc := Restored(host.registry, cur, docIn);
    var inits := Inits(host, Items(doc, "loadpoints"));
    if inits.Some? {
      assert inits.value[..|inits.value|] == inits.value;
    }
  }

  /** The timezone a document that validates gives is a text. */
  lemma ZoneIsGiven(host: Host, doc: Fields, mode: Mode, cur: Config)
    requires host.validZone("Europe/Stockholm")
    requires Validate(host.Schema(), ImportBase(host.Schema(), mode, cur), DocRows(doc)).Some?
    ensures var given, zone := Member(doc, "site", "timezone"), TimezoneToSet(host.Schema(), doc, mode);
      && (given.Some? ==> given.value.Str?)
      && zone == match given
                 case Some(text) => if mode == Merge && text == Str("") then None else given
                 case None => if mode == Merge then None else Some(Str("Europe/Stockholm"))
  {
    hide Validate, Parse, ParseConfig, DocRows, ConfigSchema, SiteShape, Defaults;
    var schema := host.Schema();
    SchemaIs(host);
    DefaultsParse(host.validZone);
    SiteDefaults(host.validZone);
    if Member(doc, "site", "timezone").Some? {
      ConfigSchemaNamesEntities(host.validZone);
      var site := ValidatedSite(schema, ImportBase(schema, mode, cur), doc);
      SingletonShapes(host.validZone);
      ZoneChecked(host.validZone, site);
    }
  }

  /**
   * What a completed import leaves. Every section and entity of the document is
   * merged over what a merging import found, or stands alone in a replacing
   * one. The settings are the document's; what it does not give is left alone,
   * or reset. Each loadpoint has the mode and targets of the last entry that
   * names it; the others are left alone, or gone.
   */
  lemma ImportWrites(host: Host, app: App, docIn: Fields, mode: Mode, cur: Config)
    requires host.validZone("Europe/Stockholm") && Import(host, app, docIn, mode, cur, false).Done?
    ensures var doc := Restored(host.registry, cur, docIn);
      var after := Import(host, app, docIn, mode, cur, false).after;
      && (forall key :: Canonical(key) ==>
            PatchAt(after.store, key) ==
              match Said(doc, key)
              case Some(f) => Some(RereadFields(if mode == Merge then Stored(app.store, key) + f else f))
              case None => if mode == Merge then PatchAt(app.store, key) else None)
      && (match Member(doc, "site", "timezone")
          case Some(text) => after.timezone == if mode == Merge && text == Str("") then app.timezone else TextOf(text)
          case None => after.timezone == if mode == Merge then app.timezone else "Europe/Stockholm")
      && (match Member(doc, "logs", "retentionDays")
          case Some(Num(days)) => after.retention as real == days && 1 <= after.retention <= 365
          case Some(other) => mode == Replace && other.Null? && after.retention == 3
          case None => after.retention == if mode == Merge then app.retention else 3)
  {
    hide *;
    var doc := Restored(host.registry, cur, docIn);
    DoneIs(host, app, docIn, mode, cur);
    ZoneIsGiven(host, doc, mode, cur);
    ZoneWritten(host, app, docIn, mode, cur);
    DaysWritten(host, app, docIn, mode, cur);
    forall key | Canonical(key)
      ensures PatchAt(Import(host, app, docIn, mode, cur, false).after.store, key) ==
        match Said(doc, key)
        case Some(f) => Some(RereadFields(if mode == Merge then Stored(app.store, key) + f else f))
        case None => if mode == Merge then PatchAt(app.store, key) else None
    {
      StoreWritten(app, mode, doc, key);
    }
  }

  lemma StoreWritten(app: App, mode: Mode, doc: Fields, key: Key)
    requires Canonical(key)
    ensures PatchAt(ImportStore(app, mode, doc), key) ==
      match Said(doc, key)
      case Some(f) => Some(RereadFields(if mode == Merge then Stored(app.store, key) + f else f))
      case None => if mode == Merge then PatchAt(app.store, key) else None
  {
    hide DocRows, SetAll, Said, Combined, RereadFields;
    RowsSay(doc, key);
    SetAllByKey(if mode == Merge then app.store else map[], DocRows(doc), key);
    if Said(doc, key).Some? {
      assert map[] + Said(doc, key).value == Said(doc, key).value;
    }
  }

  lemma ZoneWritten(host: Host, app: App, docIn: Fields, mode: Mode, cur: Config)
    requires host.validZone("Europe/Stockholm") && Import(host, app, docIn, mode, cur, false).Done?
    ensures var doc := Restored(host.registry, cur, docIn);
      var after := Import(host, app, docIn, mode, cur, false).after;
      match Member(doc, "site", "timezone")
      case Some(text) => after.timezone == if mode == Merge && text == Str("") then app.timezone else TextOf(text)
      case None => after.timezone == if mode == Merge then app.timezone else "Europe/Stockholm"
  {
    hide Import, Restored, Validate, DocRows, ConfigSchema, TimezoneToSet, RetentionToSet, Inits, Seed, ImportStore,
      ImportBase, RetentionAccepted, Member;
    DoneIs(host, app, docIn, mode, cur);
    ZoneIsGiven(host, Restored(host.registry, cur, docIn), mode, cur);
  }

  lemma DaysWritten(host: Host, app: App, docIn: Fields, mode: Mode, cur: Config)
    requires host.validZone("Europe/Stockholm") && Import(host, app, docIn, mode, cur, false).Done?
    ensures var doc := Restored(host.registry, cur, docIn);
      var after := Import(host, app, docIn, mode, cur, false).after;
      match Member(doc, "logs", "retentionDays")
      case Some(Num(days)) => after.retention as real == days && 1 <= after.retention <= 365
      case Some(other) => mode == Replace && other.Null? && after.retention == 3
      case None => after.retention == if mode == Merge then app.retention else 3
  {
    hide Import, Restored, Validate, DocRows, ConfigSchema, TimezoneToSet, Inits, Seed, ImportStore, ImportBase, Member;
    DoneIs(host, app, docIn, mode, cur);
  }

  /** The live states a completed import leaves, name by name. */
  lemma ImportSeeds(host: Host, app: App, docIn: Fields, mode: Mode, cur: Config, name: string)
    requires host.validZone("Europe/Stockholm") && Import(host, app, docIn, mode, cur, false).Done?
    ensures var items := Items(Restored(host.registry, cur, docIn), "loadpoints");
      var states := Import(host, app, docIn, mode, cur, false).after.runtimes;
      && (forall i :: 0 <= i < |items| && LastNamed(host, items, name, i) ==>
            name in states && AsAsked(states[name], InitOf(host, items[i]).value.fields))
      && ((forall i :: 0 <= i < |items| ==> !LastNamed(host, items, name, i)) ==>
            && (name in states <==> mode == Merge && name in app.runtimes)
            && (name in states ==> states[name] == app.runtimes[name]))
  {
    hide Import, Restored, Validate, DocRows, ConfigSchema, TimezoneToSet, RetentionToSet, ImportStore, ImportBase,
      RetentionAccepted, Seed, InitOf, AsAsked, SeededState;
    var items := Items(Restored(host.registry, cur, docIn), "loadpoints");
    DoneIs(host, app, docIn, mode, cur);
    var inits := Inits(host, items).value;
    var found: Runtimes := if mode == Replace then map[] else app.runtimes;
    forall i | 0 <= i < |items| ensures InitOf(host, items[i]) == Some(inits[i]) {
    }
    hide Inits;
    var states := Import(host, app, docIn, mode, cur, false).after.runtimes;
    forall i | 0 <= i < |items| && LastNamed(host, items, name, i)
      ensures name in states && AsAsked(states[name], InitOf(host, items[i]).value.fields)
    {
      assert forall j :: i < j < |inits| ==> InitOf(host, items[j]).Some?;
      assert IsLast(inits, name, i);
      SeedsLast(found, inits, name, i);
      SeedsAsAsked(inits[i].fields);
    }
    if exists i :: 0 <= i < |inits| && inits[i].name == name {
      var i := LastOf(inits, name);
      assert LastNamed(host, items, name, i);
    } else {
      SeedsNothing(found, inits, name);
    }
  }

  lemma {:induction false} LastOf(inits: seq<LoadpointInit>, name: string) returns (i: nat)
    requires exists i :: 0 <= i < |inits| && inits[i].name == name
    ensures i < |inits| && IsLast(inits, name, i)
  {
    var last := |inits| - 1;
    if inits[last].name == name {
      i := last;
    } else {
      var k :| 0 <= k < |inits| && inits[k].name == name;
      assert inits[..last][k].name == name;
      i := LastOf(inits[..last], name);
      assert forall j :: i < j < last ==> inits[..last][j] == inits[j];
    }
  }

  // ---------- an own export loses nothing ----------

  /** A rebooted loadpoint has its bindings, and its live state the mode and targets it had; without one, the mode is
      the configured one. */
  ghost predicate LoadpointKept(lp: Fields, st: Option<Fields>, rebooted: Fields, state: Fields) {
    && NameOf(rebooted) == NameOf(lp)
    && Get(rebooted, "charger") == Get(lp, "charger")
    && Get(rebooted, "vehicle") == Get(lp, "vehicle")
    && Get(rebooted, "tariff") == Get(lp, "tariff")
    && Get(rebooted, "balancer") == Get(lp, "balancer")
    && Get(rebooted, "autoRevertToSmart") == Get(lp, "autoRevertToSmart")
    && Get(state, "mode") == (if Live(st, "mode").Some? then Live(st, "mode") else Get(lp, "defaultMode"))
    && Get(state, "targetSoc") == Live(st, "targetSoc")
    && Get(state, "targetTime") == Live(st, "targetTime")
    && Get(state, "targetKWh") == Live(st, "targetKWh")
    && Get(state, "minSoc") == Live(st, "minSoc")
  }

  lemma BindingKept(lp: Fields, st: Option<Fields>, k: string)
    requires Parse(LOADPOINT_SHAPE, lp) == Some(lp) && StateFits(st) && k in BINDINGS
    ensures var p := Parse(LOADPOINT_SHAPE, ExportLoadpoint(lp, st));
      p.Some? && Get(p.value, k) == Get(lp, k)
  {
    hide Parse, ExportLoadpoint, SeededState, At, LOADPOINT_SHAPE, RuntimeFits;
    var e := ExportLoadpoint(lp, st);
    LoadpointReturns(lp, st);
    ExportedKey(lp, st, k);
    SameKeySameAt(LOADPOINT_SHAPE, e, lp, k);
    ParseAt(LOADPOINT_SHAPE, lp);
    ParseAt(LOADPOINT_SHAPE, e);
    assert At(LOADPOINT_SHAPE, lp, k) == Some(Get(lp, k));
    assert At(LOADPOINT_SHAPE, e, k) == Some(Get(Parse(LOADPOINT_SHAPE, e).value, k));
  }

  lemma RevertKept(lp: Fields, st: Option<Fields>)
    requires Parse(LOADPOINT_SHAPE, lp) == Some(lp) && StateFits(st)
    ensures var p, k := Parse(LOADPOINT_SHAPE, ExportLoadpoint(lp, st)), "autoRevertToSmart";
      p.Some? && Get(p.value, k) == Get(lp, k)
  {
    hide Parse, ExportLoadpoint, SeededState, RuntimeFits;
    var e, k := ExportLoadpoint(lp, st), "autoRevertToSmart";
    LoadpointReturns(lp, st);
    ExportedKey(lp, st, k);
    ParseAt(LOADPOINT_SHAPE, lp);
    ParseAt(LOADPOINT_SHAPE, e);
    RevertField(lp);
    assert At(LOADPOINT_SHAPE, lp, k) == Some(Get(lp, k));
    assert At(LOADPOINT_SHAPE, e, k) == Some(Get(Parse(LOADPOINT_SHAPE, e).value, k));
    RevertField(e);
  }

  lemma RevertField(e: Fields)
    ensures var k := "autoRevertToSmart";
      At(LOADPOINT_SHAPE, e, k) == match Get(e, k)
                                   case Some(Bool(b)) => Some(Some(Bool(b)))
                                   case Some(_) => None
                                   case None => Some(Some(Bool(true)))
  {
    var k := "autoRevertToSmart";
    assert LOADPOINT_SHAPE.fields[k] == Defaulted(Flag, Bool(true));
    assert At(LOADPOINT_SHAPE, e, k) == Fill(LOADPOINT_SHAPE.fields[k], Get(e, k));
    assert Accept(Flag, Bool(true)) == Some(Bool(true));
  }

  lemma TargetKept(lp: Fields, st: Option<Fields>, k: string)
    requires StateFits(st) && k in TARGETS
    ensures Get(SeededState(ExportLoadpoint(lp, st)), k) == Live(st, k)
  {
    hide ExportLoadpoint, SeededState, RuntimeFits, LOADPOINT_SHAPE;
    var e := ExportLoadpoint(lp, st);
    ExportedKey(lp, st, k);
    TargetField(lp, st, k);
    LiveFieldFits(st, k);
    TargetType(k);
    TakenAsIs(LOADPOINT_SHAPE.fields[k], Live(st, k));
    SeededKey(e, k);
  }

  lemma ModeKept(lp: Fields, st: Option<Fields>)
    requires Parse(LOADPOINT_SHAPE, lp) == Some(lp) && StateFits(st)
    ensures Get(SeededState(ExportLoadpoint(lp, st)), "mode")
         == if Live(st, "mode").Some? then Live(st, "mode") else Get(lp, "defaultMode")
  {
    hide Parse, ExportLoadpoint, SeededState, RuntimeFits, LOADPOINT_SHAPE;
    var e := ExportLoadpoint(lp, st);
    ExportedKey(lp, st, "defaultMode");
    ParseAt(LOADPOINT_SHAPE, lp);
    assert At(LOADPOINT_SHAPE, lp, "defaultMode") == Some(Get(lp, "defaultMode"));
    ModePresent(lp);
    LiveFieldFits(st, "mode");
    SeededKey(e, "defaultMode");
    ModeType();
  }

  lemma OneLoadpointKept(lp: Fields, st: Option<Fields>)
    requires Parse(LOADPOINT_SHAPE, lp) == Some(lp) && StateFits(st)
    ensures var e := ExportLoadpoint(lp, st);
      Parse(LOADPOINT_SHAPE, e).Some? && LoadpointKept(lp, st, Parse(LOADPOINT_SHAPE, e).value, SeededState(e))
  {
    hide Parse, ExportLoadpoint, SeededState, RuntimeFits, LOADPOINT_SHAPE, Live;
    BindingKept(lp, st, "name");
    BindingKept(lp, st, "charger");
    BindingKept(lp, st, "vehicle");
    BindingKept(lp, st, "tariff");
    BindingKept(lp, st, "balancer");
    RevertKept(lp, st);
    ModeKept(lp, st);
    TargetKept(lp, st, "targetSoc");
    TargetKept(lp, st, "targetTime");
    TargetKept(lp, st, "targetKWh");
    TargetKept(lp, st, "minSoc");
    NameByGet(lp, Parse(LOADPOINT_SHAPE, ExportLoadpoint(lp, st)).value);
  }

  lemma NameByGet(a: Fields, b: Fields)
    requires Get(a, "name") == Get(b, "name")
    ensures NameOf(a) == NameOf(b)
  {
  }

  /** Everything but the loadpoints is the configuration itself, with the live timezone. */
  ghost predicate RestKept(c: Config, app: App, d: Config) {
    && c.Single(Site).Some? && d.Single(Site) == Some(c.Single(Site).value["timezone" := Str(app.timezone)])
    && d.Single(SmartCharging) == c.Single(SmartCharging)
    && d.Single(MqttBridge) == c.Single(MqttBridge)
    && multiset(d.List(Tariff)) == multiset(c.List(Tariff))
    && multiset(d.List(Balancer)) == multiset(c.List(Balancer))
    && multiset(d.List(Vehicle)) == multiset(c.List(Vehicle))
    && multiset(d.List(Charger)) == multiset(c.List(Charger))
    && multiset(d.List(MeterReader)) == multiset(c.List(MeterReader))
  }

  lemma RestIsKept(schema: Kind -> Shape, c: Config, app: App, d: Config)
    requires AllWellNamed(c) && AllWellNamed(d) && c.Single(Site).Some?
    requires forall key :: Canonical(key) ==> Lookup(d, key) == Returned(schema, c, app, key)
    ensures RestKept(c, app, d)
  {
    hide WellNamed, Returned;
    SingleKept(schema, c, app, d, Site);
    SingleKept(schema, c, app, d, SmartCharging);
    SingleKept(schema, c, app, d, MqttBridge);
    ListKept(schema, c, app, d, Tariff);
    ListKept(schema, c, app, d, Balancer);
    ListKept(schema, c, app, d, Vehicle);
    ListKept(schema, c, app, d, Charger);
    ListKept(schema, c, app, d, MeterReader);
  }

  lemma SingleKept(schema: Kind -> Shape, c: Config, app: App, d: Config, kind: Kind)
    requires IsSingleton(kind)
    requires forall key :: Canonical(key) ==> Lookup(d, key) == Returned(schema, c, app, key)
    ensures d.Single(kind) == if kind == Site then Some(SiteNow(c, app.timezone)) else c.Single(kind)
  {
    hide Returned;
    var key := Key(kind, KindName(kind));
    assert Canonical(key) && Lookup(d, key) == d.Single(kind);
    ReturnedSingleton(schema, c, app, key);
  }

  lemma ListKept(schema: Kind -> Shape, c: Config, app: App, d: Config, kind: Kind)
    requires !IsSingleton(kind) && kind != Loadpoint && AllWellNamed(c) && AllWellNamed(d)
    requires forall key :: Canonical(key) ==> Lookup(d, key) == Returned(schema, c, app, key)
    ensures multiset(d.List(kind)) == multiset(c.List(kind))
  {
    hide WellNamed, Returned;
    forall name ensures Find(d.List(kind), name) == Find(c.List(kind), name) {
      ReturnedEntity(schema, c, app, Key(kind, name));
      assert Lookup(d, Key(kind, name)) == Returned(schema, c, app, Key(kind, name));
    }
    SameNamesSameBag(d.List(kind), c.List(kind));
  }

  /** A loadpoint of the configuration, and what the rebooted instance has under its name. */
  lemma LoadpointIsKept(validZone: string -> bool, c: Config, app: App, d: Config, lp: Fields)
    requires InUse(ConfigSchema(validZone), c) && Exportable(validZone, c, app) && lp in c.List(Loadpoint)
    requires forall key :: Canonical(key) ==> Lookup(d, key) == Returned(ConfigSchema(validZone), c, app, key)
    ensures NameOf(lp).Str?
    ensures var name := NameOf(lp).s;
      var states, rebooted := Imported(ConfigSchema(validZone), c, app).runtimes, Find(d.List(Loadpoint), name);
      && rebooted.Some? && name in states
      && LoadpointKept(lp, LiveState(lp, app.runtimes), rebooted.value, states[name])
  {
    hide Parse, ParseConfig, ExportLoadpoint, SeededState, Export, SetAll, DocRows, Seed, LOADPOINT_SHAPE, ConfigSchema,
      RuntimeFits, ParseSlot, LoadpointKept, NamesNonEmpty, WellNamed, FiniteConfig, LiveState, StateFits;
    var schema := ConfigSchema(validZone);
    var lps := c.List(Loadpoint);
    var name := OwnName(c, lp);
    var st := LiveState(lp, app.runtimes);
    LoadpointSchema(validZone);
    ConfigSchemaNamesEntities(validZone);
    assert StateFits(st);
    var key := Key(Loadpoint, name);
    ParsedLookup(schema, c, key);
    OwnSlot(schema, c, key, lp);
    OneLoadpointKept(lp, st);
    ExportedByName(lps, app.runtimes, name);
    LiveByName(lp, app.runtimes, name);
    var es := ExportedList(c, app, Loadpoint);
    assert Find(es, name) == Some(ExportLoadpoint(lp, st));
    assert WellNamed(lps) && NamesNonEmpty(lps);
    ExportedListsNamed(c, app, Loadpoint);
    SeededByName(es, name);
    assert Canonical(key) && Lookup(d, key) == Returned(schema, c, app, key);
    ReturnedIsParsed(schema, c, app, key, ExportLoadpoint(lp, st));
  }

  lemma OwnName(c: Config, lp: Fields) returns (name: string)
    requires AllWellNamed(c) && lp in c.List(Loadpoint)
    ensures NameOf(lp) == Str(name) && Find(c.List(Loadpoint), name) == Some(lp)
  {
    var lps := c.List(Loadpoint);
    assert WellNamed(lps);
    var i :| 0 <= i < |lps| && lps[i] == lp;
    FindMember(lps, i);
    name := NameOf(lp).s;
  }

  lemma LiveByName(lp: Fields, runtimes: Runtimes, name: string)
    requires NameOf(lp) == Str(name)
    ensures LiveState(lp, runtimes) == if name in runtimes then Some(runtimes[name]) else None
  {
  }

  lemma OwnSlot(schema: Kind -> Shape, c: Config, key: Key, lp: Fields)
    requires ParseSlot(schema, key.kind, Lookup(c, key)) == Some(Lookup(c, key)) && Lookup(c, key) == Some(lp)
    ensures Parse(schema(key.kind), lp) == Some(lp)
  {
    hide Parse;
  }

  /**
   * Where an instance's own export imports, the rebooted instance is the one
   * that was exported: its sections, its entities up to their order, its
   * settings, and every loadpoint with its bindings, mode and targets.
   */
  lemma OwnExportLosesNothing(host: Host, c: Config, app: App, target: App, cur: Config, rows: seq<Row>)
    requires host.validZone("Europe/Stockholm")
    requires InUse(host.Schema(), c) && Exportable(host.validZone, c, app)
    requires NoPlaceholder(Export(host.Schema(), c, app))
    ensures var schema := host.Schema();
      var run := Import(host, target, Export(schema, c, app), Replace, cur, false);
      && run.Done? && run.after.timezone == app.timezone && run.after.retention == app.retention
      && (Lists(rows, run.after.store) ==>
            var d := Effective(schema, Defaults(schema), rows);
            && d.Some? && RestKept(c, app, d.value)
            && |d.value.List(Loadpoint)| == |c.List(Loadpoint)|
            && forall lp :: lp in c.List(Loadpoint) ==>
                 && NameOf(lp).Str? && NameOf(lp).s in run.after.runtimes
                 && Find(d.value.List(Loadpoint), NameOf(lp).s).Some?
                 && LoadpointKept(lp, LiveState(lp, app.runtimes), Find(d.value.List(Loadpoint), NameOf(lp).s).value,
                                  run.after.runtimes[NameOf(lp).s]))
  {
    hide *;
    hide RestKept, LoadpointKept;
    var schema := host.Schema();
    SchemaIs(host);
    ImportSucceeds(host, c, app, target, cur);
    ImportedAre(schema, c, app);
    if Lists(rows, Imported(schema, c, app).store) {
      TableReturns(host.validZone, c, app, rows);
      var d := Effective(schema, Defaults(schema), rows).value;
      InUseNames(schema, c);
      InUseParses(schema, c);
      ConfigSchemaNamesEntities(host.validZone);
      SmartChargingPresent(schema, c);
      RestIsKept(schema, c, app, d);
      forall lp | lp in c.List(Loadpoint)
        ensures NameOf(lp).Str? && NameOf(lp).s in Imported(schema, c, app).runtimes
        ensures Find(d.List(Loadpoint), NameOf(lp).s).Some?
        ensures LoadpointKept(lp, LiveState(lp, app.runtimes), Find(d.List(Loadpoint), NameOf(lp).s).value,
                              Imported(schema, c, app).runtimes[NameOf(lp).s])
      {
        LoadpointIsKept(host.validZone, c, app, d, lp);
      }
      SectionsSame(host.validZone, c, app, d, Loadpoint);
      SameMany(schema, c, app, d, Imported(schema, c, app));
    }
  }

  lemma ImportedAre(schema: Kind -> Shape, c: Config, app: App)
    ensures Imported(schema, c, app).timezone == app.timezone && Imported(schema, c, app).retention == app.retention
  {
    hide Export, DocRows, SetAll, Seed;
  }

  lemma InUseParses(schema: Kind -> Shape, c: Config)
    requires InUse(schema, c)
    ensures ParseConfig(schema, c) == Some(c)
  {
    hide ParseConfig;
  }

  /** Sections that are the same have as many entries. */
  lemma SameMany(schema: Kind -> Shape, c: Config, app: App, d: Config, app': App)
    requires SameSection(Exported(schema, c, app, Loadpoint), Exported(schema, d, app', Loadpoint))
    ensures |d.List(Loadpoint)| == |c.List(Loadpoint)|
  {
    hide ExportLoadpoint;
    var a, b := Exported(schema, c, app, Loadpoint).value.items, Exported(schema, d, app', Loadpoint).value.items;
    assert |multiset(a)| == |a| == |c.List(Loadpoint)| && |multiset(b)| == |b| == |d.List(Loadpoint)|;
  }

  /** A document carries only what differs from the defaults of the site and of smart charging. */
  lemma DefaultsAreOmitted(schema: Kind -> Shape, c: Config, app: App, k: string)
    ensures var doc, def := Export(schema, c, app), Defaults(schema);
      var site, smart := SiteNow(c, app.timezone), c.Single(SmartCharging).GetOr(map[]);
      && Member(doc, "site", k)
         == (if Get(site, k) == Get(def.Single(Site).GetOr(map[]), k) then None else Get(site, k))
      && Member(doc, "smartCharging", k)
         == (if Get(smart, k) == Get(def.Single(SmartCharging).GetOr(map[]), k) then None else Get(smart, k))
      && Member(doc, "logs", "retentionDays")
         == (if app.retention == 3 then None else Some(Num(app.retention as real)))
  {
    hide Export, Defaults, SiteNow, Diff;
    var doc, def := Export(schema, c, app), Defaults(schema);
    var site, smart := SiteNow(c, app.timezone), c.Single(SmartCharging).GetOr(map[]);
    SectionNames();
    ExportAt(schema, c, app, Site);
    ExportAt(schema, c, app, SmartCharging);
    LogsAt(schema, c, app);
    DiffAt(doc, "site", site, def.Single(Site).GetOr(map[]), k);
    DiffAt(doc, "smartCharging", smart, def.Single(SmartCharging).GetOr(map[]), k);
  }

  lemma DiffAt(doc: Fields, section: string, now: Fields, def: Fields, k: string)
    requires Get(doc, section) == NonEmpty(Diff(now, def))
    ensures Member(doc, section, k) == if Get(now, k) == Get(def, k) then None else Get(now, k)
  {
    assert Get(Diff(now, def), k) == if Get(now, k) == Get(def, k) then None else Get(now, k);
  }
}
