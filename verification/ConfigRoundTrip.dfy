/** Exporting, importing and exporting again: src/core/config-io.ts. */
module ConfigRoundTrip {
  import opened Prelude
  import opened Schema
  import opened ConfigModel
  import opened ConfigOverrides
  import opened Redaction
  import opened ConfigIo

  // ---------- what is exported, and when two documents are the same ----------

  /** A configuration in use: parsed, every entity under a name of its own, no number infinite. */
  ghost predicate InUse(schema: Kind -> Shape, c: Config) {
    && ParseConfig(schema, c) == Some(c)
    && AllWellNamed(c)
    && (forall kind :: NamesNonEmpty(c.List(kind)))
    && FiniteConfig(c)
  }

  ghost predicate FiniteConfig(c: Config) {
    forall key :: Canonical(key) && Lookup(c, key).Some? ==> FiniteFields(Lookup(c, key).value)
  }

  ghost predicate NamesNonEmpty(es: seq<Fields>) {
    forall i :: 0 <= i < |es| ==> NameOf(es[i]) != Str("")
  }

  predicate Fits(o: Option<Json>, t: Type) {
    o.Some? ==> Accept(t, o.value).Some?
  }

  /**
   * A loadpoint_state row that the loadpoint schema would take. The HTTP API
   * writes no other, but the MQTT command `cmd/target` stores what it is sent
   * (src/server/mqtt-bridge.ts:115-120, src/core/lifecycle.ts:379-395).
   */
  predicate RuntimeFits(st: Fields) {
    && Fits(Get(st, "mode"), MODE_TYPE)
    && Fits(Get(st, "targetSoc"), PERCENT)
    && Fits(Get(st, "targetTime"), HOUR_MINUTE)
    && Fits(Get(st, "targetKWh"), KWH)
    && Fits(Get(st, "minSoc"), PERCENT)
  }

  predicate SettingsFit(validZone: string -> bool, app: App) {
    && validZone(app.timezone)
    && 1 <= app.retention <= 365
  }

  /** The live state of every loadpoint fits. */
  predicate LiveFits(c: Config, app: App) {
    forall lp <- c.List(Loadpoint) :: StateFits(LiveState(lp, app.runtimes))
  }

  predicate StateFits(st: Option<Fields>) {
    st.Some? ==> RuntimeFits(st.value)
  }

  predicate Exportable(validZone: string -> bool, c: Config, app: App) {
    SettingsFit(validZone, app) && LiveFits(c, app)
  }

  /** Equal, or two arrays that differ in order only. */
  ghost predicate SameSection(a: Option<Json>, b: Option<Json>) {
    || a == b
    || (a.Some? && b.Some? && a.value.Arr? && b.value.Arr? && multiset(a.value.items) == multiset(b.value.items))
  }

  ghost predicate SameDocument(a: Fields, b: Fields) {
    forall section :: SameSection(Get(a, section), Get(b, section))
  }

  /** The entities of one kind, as exported. */
  function ExportedList(c: Config, app: App, kind: Kind): seq<Fields> {
    if kind == Loadpoint then ExportLoadpoints(c.List(kind), app.runtimes) else c.List(kind)
  }

  lemma ExportedEntities(schema: Kind -> Shape, c: Config, app: App, kind: Kind)
    requires !IsSingleton(kind)
    ensures Exported(schema, c, app, kind)
         == if kind == Loadpoint || ExportedList(c, app, kind) != []
            then Some(Arr(Objects(ExportedList(c, app, kind))))
            else None
  {
  }

  lemma SectionsDiffer(a: Kind, b: Kind)
    ensures Section(a) == Section(b) ==> a == b
    ensures Section(a) != "logs"
  {
    assert |Section(Site)| == 4 && |Section(SmartCharging)| == 13 && |Section(MqttBridge)| == 10;
    assert |Section(Tariff)| == 7 && |Section(Balancer)| == 9 && |Section(Vehicle)| == 8;
    assert |Section(Charger)| == 8 && |Section(MeterReader)| == 12 && |Section(Loadpoint)| == 10;
    assert Section(Vehicle)[0] == 'v' && Section(Charger)[0] == 'c';
    assert Section(MqttBridge)[0] == 'm' && Section(Loadpoint)[0] == 'l';
    assert Section(Site)[0] == 's';
  }

  lemma {:induction false} PutAllAt(schema: Kind -> Shape, c: Config, app: App, kinds: seq<Kind>, kind: Kind)
    requires Distinct(kinds)
    ensures Get(PutAll(schema, c, app, kinds), Section(kind))
         == if kind in kinds then Exported(schema, c, app, kind) else None
  {
    hide Exported, Section;
    if kinds != [] {
      var front, last := kinds[..|kinds| - 1], kinds[|kinds| - 1];
      PutAllAt(schema, c, app, front, kind);
      SectionsDiffer(last, kind);
      if last == kind {
        assert kind !in front;
      }
    }
  }

  lemma {:induction false} PutAllElsewhere(schema: Kind -> Shape, c: Config, app: App, kinds: seq<Kind>,
                                           section: string)
    requires forall kind :: kind in kinds ==> Section(kind) != section
    ensures Get(PutAll(schema, c, app, kinds), section).None?
  {
    hide Exported, Section;
    if kinds != [] {
      PutAllElsewhere(schema, c, app, kinds[..|kinds| - 1], section);
      assert kinds[|kinds| - 1] in kinds;
    }
  }

  lemma ExportAt(schema: Kind -> Shape, c: Config, app: App, kind: Kind)
    ensures Get(Export(schema, c, app), Section(kind)) == Exported(schema, c, app, kind)
  {
    hide *;
    OrderIsAllKinds(kind);
    PutAllAt(schema, c, app, ORDER, kind);
    SectionsDiffer(kind, kind);
    ExportIs(schema, c, app, Section(kind));
  }

  lemma ExportIs(schema: Kind -> Shape, c: Config, app: App, section: string)
    ensures Get(Export(schema, c, app), section)
         == if section == "logs" && Logs(app.retention).Some? then Logs(app.retention)
            else Get(PutAll(schema, c, app, ORDER), section)
  {
    hide PutAll, Logs;
  }

  lemma LogsAt(schema: Kind -> Shape, c: Config, app: App)
    ensures Get(Export(schema, c, app), "logs") == Logs(app.retention)
  {
    hide *;
    forall kind | kind in ORDER ensures Section(kind) != "logs" {
      SectionsDiffer(kind, kind);
    }
    PutAllElsewhere(schema, c, app, ORDER, "logs");
    ExportIs(schema, c, app, "logs");
    SomeOrNone(Logs(app.retention));
  }

  lemma SomeOrNone(o: Option<Json>)
    ensures !o.Some? ==> o == None
  {
  }

  /** Documents are compared section by section. */
  lemma SameBySection(schema: Kind -> Shape, c: Config, app: App, d: Config, app': App)
    requires app.retention == app'.retention
    requires forall kind :: SameSection(Exported(schema, c, app, kind), Exported(schema, d, app', kind))
    ensures SameDocument(Export(schema, c, app), Export(schema, d, app'))
  {
    hide Export, Exported, Section, SameSection;
    var a, b := Export(schema, c, app), Export(schema, d, app');
    forall section ensures SameSection(Get(a, section), Get(b, section)) {
      if section == "logs" {
        LogsAt(schema, c, app);
        LogsAt(schema, d, app');
        EqualIsSame(Logs(app.retention));
      } else if kind :| Section(kind) == section {
        ExportAt(schema, c, app, kind);
        ExportAt(schema, d, app', kind);
      } else {
        PutAllElsewhere(schema, c, app, ORDER, section);
        PutAllElsewhere(schema, d, app', ORDER, section);
        ExportIs(schema, c, app, section);
        ExportIs(schema, d, app', section);
        EqualIsSame(None);
      }
    }
  }

  lemma EqualIsSame(o: Option<Json>)
    ensures SameSection(o, o)
  {
  }

  // ---------- the rows an exported document stands for ----------

  lemma {:induction false} FindSnoc(es: seq<Fields>, e: Fields, name: string)
    ensures Find(es + [e], name)
         == if Find(es, name).Some? then Find(es, name) else if NameOf(e) == Str(name) then Some(e) else None
  {
    if es != [] {
      assert (es + [e])[1..] == es[1..] + [e];
      FindSnoc(es[1..], e, name);
    } else {
      assert es + [e] == [e];
    }
  }

  function Unnamed(o: Option<Fields>): Option<Fields> {
    match o
    case Some(e) => Some(e - {"name"})
    case None => None
  }

  lemma ObjectsFront(es: seq<Fields>)
    requires es != []
    ensures Objects(es)[..|es| - 1] == Objects(es[..|es| - 1])
    ensures Objects(es)[|es| - 1] == Obj(es[|es| - 1])
  {
  }

  lemma LastIsNew(es: seq<Fields>)
    requires es != [] && WellNamed(es) && NamesNonEmpty(es)
    ensures WellNamed(es[..|es| - 1]) && NamesNonEmpty(es[..|es| - 1])
    ensures NameOf(es[|es| - 1]).Str? && NameOf(es[|es| - 1]).s != ""
    ensures Find(es[..|es| - 1], NameOf(es[|es| - 1]).s).None?
    ensures es == es[..|es| - 1] + [es[|es| - 1]]
  {
    var front := es[..|es| - 1];
    assert forall i :: 0 <= i < |front| ==> front[i] == es[i];
  }

  lemma {:induction false} EntityRowsByName(kind: Kind, es: seq<Fields>, name: string)
    requires WellNamed(es) && NamesNonEmpty(es)
    ensures Combined(EntityRows(kind, Objects(es)), Key(kind, name)) == Unnamed(Find(es, name))
  {
    hide WellNamed, NamesNonEmpty;
    if es != [] {
      var front, last := es[..|es| - 1], es[|es| - 1];
      LastIsNew(es);
      ObjectsFront(es);
      EntityRowsByName(kind, front, name);
      FindSnoc(front, last, name);
      var rows := EntityRows(kind, Objects(front));
      var row := Row(Key(kind, NameOf(last).s), last - {"name"});
      assert (rows + [row])[..|rows|] == rows;
      assert map[] + row.patch == row.patch;
    }
  }

  function TextOf(j: Json): string {
    if j.Str? then j.s else ""
  }

  /** The entries of an exported array as they are handed to the upsert. */
  function NamedInits(es: seq<Fields>): (r: seq<LoadpointInit>)
    ensures |r| == |es| && forall i :: 0 <= i < |es| ==> r[i] == LoadpointInit(TextOf(NameOf(es[i])), es[i])
  {
    seq(|es|, i requires 0 <= i < |es| => LoadpointInit(TextOf(NameOf(es[i])), es[i]))
  }

  lemma NamedInitsAre(host: Host, es: seq<Fields>)
    requires forall i :: 0 <= i < |es| ==> NameOf(es[i]).Str?
    ensures Inits(host, Objects(es)) == Some(NamedInits(es))
  {
    forall i | 0 <= i < |es| ensures InitOf(host, Objects(es)[i]) == Some(NamedInits(es)[i]) {
    }
    hide InitOf;
    assert Inits(host, Objects(es)).value == NamedInits(es);
  }

  lemma {:induction false} SeededByName(es: seq<Fields>, name: string)
    requires WellNamed(es) && NamesNonEmpty(es)
    ensures var seeded := Seed(map[], NamedInits(es));
      if Find(es, name).Some?
      then name in seeded && seeded[name] == SeededState(Find(es, name).value)
      else name !in seeded
  {
    hide SeededState;
    if es != [] {
      var front, last := es[..|es| - 1], es[|es| - 1];
      LastIsNew(es);
      assert NamedInits(es)[..|es| - 1] == NamedInits(front);
      SeededByName(front, name);
      FindSnoc(front, last, name);
    }
  }

  lemma ExportedListsNamed(c: Config, app: App, kind: Kind)
    requires WellNamed(c.List(kind)) && NamesNonEmpty(c.List(kind))
    ensures WellNamed(ExportedList(c, app, kind)) && NamesNonEmpty(ExportedList(c, app, kind))
  {
    hide LoadpointField;
    var es := c.List(kind);
    forall i | 0 <= i < |es| ensures NameOf(ExportedList(c, app, kind)[i]) == NameOf(es[i]) {
      if kind == Loadpoint {
        ExportKeepsName(es[i], LiveState(es[i], app.runtimes));
      }
    }
  }

  lemma ExportKeepsName(lp: Fields, st: Option<Fields>)
    ensures NameOf(ExportLoadpoint(lp, st)) == NameOf(lp)
  {
    LoadpointKey("name");
    assert LoadpointField(lp, st, "name") == Get(lp, "name");
  }

  lemma LoadpointKey(k: string)
    ensures k in LOADPOINT_KEYS <==> k in BINDINGS || k in TARGETS || k == "defaultMode" || k == "autoRevertToSmart"
  {
  }

  lemma {:induction false} ExportedByName(lps: seq<Fields>, runtimes: Runtimes, name: string)
    ensures Find(ExportLoadpoints(lps, runtimes), name)
         == match Find(lps, name)
            case Some(lp) => Some(ExportLoadpoint(lp, if name in runtimes then Some(runtimes[name]) else None))
            case None => None
  {
    hide ExportLoadpoint;
    if lps != [] {
      var all := ExportLoadpoints(lps, runtimes);
      ExportKeepsName(lps[0], LiveState(lps[0], runtimes));
      assert all[1..] == ExportLoadpoints(lps[1..], runtimes);
      ExportedByName(lps[1..], runtimes, name);
    }
  }

  /** The patch an exported document carries for a key. */
  function ExportedPatch(schema: Kind -> Shape, c: Config, app: App, key: Key): Option<Fields> {
    if IsSingleton(key.kind) then
      match Exported(schema, c, app, key.kind)
      case Some(Obj(f)) => Some(f)
      case _ => None
    else
      Unnamed(Find(ExportedList(c, app, key.kind), key.name))
  }

  lemma ExportedRows(schema: Kind -> Shape, c: Config, app: App, key: Key)
    requires Canonical(key) && AllWellNamed(c) && forall kind :: NamesNonEmpty(c.List(kind))
    ensures Combined(DocRows(Export(schema, c, app)), key) == ExportedPatch(schema, c, app, key)
  {
    hide Export, Exported, DocRows, EntityRows, WellNamed, NamesNonEmpty, Section, ExportedList;
    var doc := Export(schema, c, app);
    DocRowsByKey(doc, key);
    ExportAt(schema, c, app, key.kind);
    assert WellNamed(c.List(key.kind)) && NamesNonEmpty(c.List(key.kind));
    if IsSingleton(key.kind) {
      var rows := KindRows(doc, key.kind);
      if rows != [] {
        assert rows[..0] == [];
        assert map[] + rows[0].patch == rows[0].patch;
      }
    } else {
      var es := ExportedList(c, app, key.kind);
      ExportedEntities(schema, c, app, key.kind);
      ExportedListsNamed(c, app, key.kind);
      EntityRowsByName(key.kind, es, key.name);
      NoRows(key.kind, es);
    }
  }

  lemma NoRows(kind: Kind, es: seq<Fields>)
    ensures es == [] ==> EntityRows(kind, Objects(es)) == []
  {
  }

  // ---------- what the next boot makes of those rows ----------

  /** Keys a shape fills in by default are in everything it parses. */
  lemma DefaultsCovered(s: Shape, o: Fields)
    requires Parse(s, map[]).Some? && Parse(s, o).Some?
    ensures Parse(s, map[]).value.Keys <= Parse(s, o).value.Keys
  {
    var d, f := Parse(s, map[]).value, Parse(s, o).value;
    ParseAt(s, map[]);
    ParseAt(s, o);
    forall k | k in d ensures k in f {
      assert At(s, map[], k) == Some(Get(d, k));
      assert At(s, o, k) == Some(Get(f, k));
    }
  }

  /** Layering what differs from the defaults over the defaults gives everything back. */
  lemma DiffRestores(obj: Fields, def: Fields)
    requires def.Keys <= obj.Keys
    ensures def + Diff(obj, def) == obj
    ensures Diff(obj, def) == map[] ==> def == obj
  {
    assert forall k :: k in def + Diff(obj, def) <==> k in obj;
  }

  lemma NameRestored(name: string, e: Fields)
    requires NameOf(e) == Str(name)
    ensures map["name" := Str(name)] + (e - {"name"}) == e
  {
  }

  /** A valid site section with a valid timezone is still one. */
  lemma SiteRetimed(validZone: string -> bool, site: Fields, timezone: string)
    requires Parse(SiteShape(validZone), site) == Some(site) && validZone(timezone)
    ensures Parse(SiteShape(validZone), site["timezone" := Str(timezone)]) == Some(site["timezone" := Str(timezone)])
  {
    hide Parse;
    var shape := SiteShape(validZone);
    var now := site["timezone" := Str(timezone)];
    ParseAt(shape, site);
    ParseAt(shape, now);
    forall k ensures At(shape, now, k) == Some(Get(now, k)) {
      if k == "timezone" {
        assert shape.fields[k].t == Text(validZone);
        assert Accept(Text(validZone), Str(timezone)) == Some(Str(timezone));
      } else {
        SameKeySameAt(shape, now, site, k);
      }
    }
    var p := Parse(shape, now).value;
    assert forall k :: Get(p, k) == Get(now, k);
    assert p == now by {
      assert forall k :: k in p <==> Get(p, k).Some?;
      assert forall k :: k in now <==> Get(now, k).Some?;
      forall k | k in p ensures p[k] == now[k] {
        assert Get(p, k) == Get(now, k);
      }
    }
  }

  /** An exported field is one the schema takes. */
  predicate FieldTaken(e: Fields, k: string) {
    At(LOADPOINT_SHAPE, e, k).Some?
  }

  /** Read back from the parsed form `p` and the seeded state, the field is what was exported. */
  predicate FieldReturns(e: Fields, p: Fields, k: string) {
    At(LOADPOINT_SHAPE, e, k) == Some(Get(p, k)) ==> LoadpointField(p, Some(SeededState(e)), k) == Get(e, k)
  }

  lemma BindingReturns(lp: Fields, e: Fields, p: Fields, k: string)
    requires k in BINDINGS && Get(e, k) == Get(lp, k)
    requires At(LOADPOINT_SHAPE, lp, k) == Some(Get(lp, k))
    ensures FieldTaken(e, k) && FieldReturns(e, p, k)
  {
    hide SeededState;
    SameKeySameAt(LOADPOINT_SHAPE, e, lp, k);
  }

  lemma TargetReturns(e: Fields, p: Fields, k: string)
    requires k in TARGETS && k in LOADPOINT_SHAPE.fields && Fits(Get(e, k), LOADPOINT_SHAPE.fields[k].t)
    ensures FieldTaken(e, k) && FieldReturns(e, p, k)
  {
    hide SeededState, LoadpointField;
    TargetType(k);
    var f := LOADPOINT_SHAPE.fields[k];
    assert At(LOADPOINT_SHAPE, e, k) == Fill(f, Get(e, k));
    TakenAsIs(f, Get(e, k));
    SeededKey(e, k);
    TargetField(p, Some(SeededState(e)), k);
  }

  lemma TargetField(p: Fields, st: Option<Fields>, k: string)
    requires k in TARGETS
    ensures LoadpointField(p, st, k) == Live(st, k)
  {
  }

  /** Optional numbers and texts are taken as they are, and never null. */
  lemma TakenAsIs(f: Field, o: Option<Json>)
    requires f.Optional? && (f.t.Number? || f.t.Text?) && Fits(o, f.t)
    ensures Fill(f, o) == Some(o) && o != Some(Null)
  {
  }

  lemma ModeReturns(e: Fields, p: Fields)
    requires Get(e, "defaultMode").Some? && Fits(Get(e, "defaultMode"), MODE_TYPE)
    ensures FieldTaken(e, "defaultMode") && FieldReturns(e, p, "defaultMode")
  {
    hide SeededState;
    ModeType();
    var f := LOADPOINT_SHAPE.fields["defaultMode"];
    assert At(LOADPOINT_SHAPE, e, "defaultMode") == Fill(f, Get(e, "defaultMode"));
    assert Accept(MODE_TYPE, e["defaultMode"]).Some?;
    SeededKey(e, "defaultMode");
  }

  lemma RevertReturns(e: Fields, p: Fields)
    requires Get(e, "autoRevertToSmart").Some? ==> Get(e, "autoRevertToSmart") == Some(Bool(false))
    ensures FieldTaken(e, "autoRevertToSmart") && FieldReturns(e, p, "autoRevertToSmart")
  {
    hide SeededState;
    var k := "autoRevertToSmart";
    assert LOADPOINT_SHAPE.fields[k] == Defaulted(Flag, Bool(true));
    assert At(LOADPOINT_SHAPE, e, k) == Fill(LOADPOINT_SHAPE.fields[k], Get(e, k));
    assert Accept(Flag, Bool(true)) == Some(Bool(true)) && Accept(Flag, Bool(false)) == Some(Bool(false));
  }

  lemma OtherReturns(e: Fields, p: Fields, k: string)
    requires k !in LOADPOINT_KEYS && k !in e
    ensures FieldTaken(e, k) && FieldReturns(e, p, k)
  {
    hide SeededState;
    LoadpointKey(k);
    NotDeclared(k);
  }

  lemma NotDeclared(k: string)
    requires k !in LOADPOINT_KEYS
    ensures k !in LOADPOINT_SHAPE.fields && !LOADPOINT_SHAPE.open
  {
    LoadpointKey(k);
  }

  lemma LiveFieldFits(st: Option<Fields>, k: string)
    requires StateFits(st)
    ensures Fits(Live(st, "mode"), MODE_TYPE)
    ensures k in TARGETS ==> k in LOADPOINT_SHAPE.fields && Fits(Live(st, k), LOADPOINT_SHAPE.fields[k].t)
  {
    hide Accept;
    if k in TARGETS {
      TargetType(k);
    }
  }

  /** A parsed loadpoint always has a mode. */
  lemma ModePresent(lp: Fields)
    requires At(LOADPOINT_SHAPE, lp, "defaultMode") == Some(Get(lp, "defaultMode"))
    ensures Get(lp, "defaultMode").Some? && Fits(Get(lp, "defaultMode"), MODE_TYPE)
  {
    ModeType();
    assert Fill(LOADPOINT_SHAPE.fields["defaultMode"], Get(lp, "defaultMode")) == Some(Get(lp, "defaultMode"));
  }

  lemma LoadpointKeyReturns(lp: Fields, st: Option<Fields>, e: Fields, p: Fields, k: string)
    requires Parse(LOADPOINT_SHAPE, lp) == Some(lp) && StateFits(st)
    requires e == ExportLoadpoint(lp, st)
    ensures FieldTaken(e, k) && FieldReturns(e, p, k)
  {
    hide Parse, SeededState, ExportLoadpoint, At, FieldTaken, FieldReturns, Fits, RuntimeFits, LOADPOINT_SHAPE;
    ParseAt(LOADPOINT_SHAPE, lp);
    assert At(LOADPOINT_SHAPE, lp, k) == Some(Get(lp, k));
    LoadpointKey(k);
    ExportedKey(lp, st, k);
    LiveFieldFits(st, k);
    if k in BINDINGS {
      BindingReturns(lp, e, p, k);
    } else if k in TARGETS {
      TargetReturns(e, p, k);
    } else if k == "defaultMode" {
      ModePresent(lp);
      ModeReturns(e, p);
    } else if k == "autoRevertToSmart" {
      RevertReturns(e, p);
    } else {
      OtherReturns(e, p, k);
    }
  }

  lemma ExportedKey(lp: Fields, st: Option<Fields>, k: string)
    ensures Get(ExportLoadpoint(lp, st), k) == LoadpointField(lp, st, k)
  {
    LoadpointKey(k);
  }

  /** A target or mode that an import seeds is the one in the document, unless it is null. */
  lemma SeededKey(e: Fields, k: string)
    ensures k in TARGETS ==> Live(Some(SeededState(e)), k) == Given(e, k)
    ensures Live(Some(SeededState(e)), "mode") == Some(Or(Get(e, "defaultMode"), Str("smart")))
  {
  }

  lemma TargetType(k: string)
    requires k in TARGETS
    ensures k in LOADPOINT_SHAPE.fields && LOADPOINT_SHAPE.fields[k].Optional?
    ensures var t := LOADPOINT_SHAPE.fields[k].t;
      && (t.Number? || t.Text?)
      && (k == "targetSoc" ==> t == PERCENT) && (k == "targetTime" ==> t == HOUR_MINUTE)
      && (k == "targetKWh" ==> t == KWH) && (k == "minSoc" ==> t == PERCENT)
  {
  }

  lemma ModeType()
    ensures "defaultMode" in LOADPOINT_SHAPE.fields
    ensures LOADPOINT_SHAPE.fields["defaultMode"].Defaulted?
    ensures LOADPOINT_SHAPE.fields["defaultMode"].t == MODE_TYPE && MODE_TYPE.Text?
  {
  }

  /**
   * An exported loadpoint passes the schema, and exporting the imported
   * loadpoint with the state the import seeded gives the same object.
   */
  lemma LoadpointReturns(lp: Fields, st: Option<Fields>)
    requires Parse(LOADPOINT_SHAPE, lp) == Some(lp) && StateFits(st)
    ensures var e := ExportLoadpoint(lp, st);
      && Parse(LOADPOINT_SHAPE, e).Some?
      && ExportLoadpoint(Parse(LOADPOINT_SHAPE, e).value, Some(SeededState(e))) == e
  {
    hide Parse, SeededState, ExportLoadpoint, LoadpointField, RuntimeFits, At, LOADPOINT_SHAPE;
    var e := ExportLoadpoint(lp, st);
    forall k ensures At(LOADPOINT_SHAPE, e, k).Some? {
      LoadpointKeyReturns(lp, st, e, e, k);
    }
    ParseAt(LOADPOINT_SHAPE, e);
    var p := Parse(LOADPOINT_SHAPE, e).value;
    var again := ExportLoadpoint(p, Some(SeededState(e)));
    forall k ensures Get(again, k) == Get(e, k) {
      LoadpointKeyReturns(lp, st, e, p, k);
      ExportedKey(p, Some(SeededState(e)), k);
    }
    SameGetsSameFields(again, e);
  }

  lemma SameGetsSameFields(a: Fields, b: Fields)
    requires forall k :: Get(a, k) == Get(b, k)
    ensures a == b
  {
    assert forall k :: k in a <==> Get(a, k).Some?;
    assert forall k :: k in b <==> Get(b, k).Some?;
    forall k | k in a ensures a[k] == b[k] {
      assert Get(a, k) == Get(b, k);
    }
  }

  /** What stands under a key once the exported document has been imported into an empty instance. */
  function Returned(schema: Kind -> Shape, c: Config, app: App, key: Key): Option<Fields> {
    match key.kind
    case Site => Some(SiteNow(c, app.timezone))
    case Loadpoint =>
      (match Find(ExportedList(c, app, Loadpoint), key.name)
       case Some(e) => Parse(schema(Loadpoint), e)
       case None => None)
    case _ => Lookup(c, key)
  }

  lemma EntitiesReturn(schema: Kind -> Shape, c: Config, app: App, key: Key)
    requires !IsSingleton(key.kind) && key.kind != Loadpoint && NamedEntities(schema) && InUse(schema, c)
    ensures ParseSlot(schema, key.kind, Amended(key, None, ExportedPatch(schema, c, app, key)))
         == Some(Returned(schema, c, app, key))
  {
    hide Parse, ParseConfig, WellNamed, NamesNonEmpty;
    ParsedLookup(schema, c, key);
    var o := Find(c.List(key.kind), key.name);
    assert ExportedList(c, app, key.kind) == c.List(key.kind);
    if o.Some? {
      NameRestored(key.name, o.value);
    }
  }

  lemma LoadpointsReturn(schema: Kind -> Shape, validZone: string -> bool, c: Config, app: App, key: Key)
    requires key.kind == Loadpoint && NamedEntities(schema) && InUse(schema, c) && Exportable(validZone, c, app)
    requires schema(Loadpoint) == LOADPOINT_SHAPE
    ensures ParseSlot(schema, key.kind, Amended(key, None, ExportedPatch(schema, c, app, key)))
         == Some(Returned(schema, c, app, key))
    ensures var o := Find(ExportedList(c, app, Loadpoint), key.name);
      o.Some? ==>
        var p := Returned(schema, c, app, key);
        p.Some? && ExportLoadpoint(p.value, Some(SeededState(o.value))) == o.value
  {
    hide Parse, ParseConfig, WellNamed, NamesNonEmpty, ExportLoadpoint, SeededState, RuntimeFits, LOADPOINT_SHAPE;
    ParsedLookup(schema, c, key);
    ExportedByName(c.List(Loadpoint), app.runtimes, key.name);
    var o := Find(c.List(Loadpoint), key.name);
    if o.Some? {
      var st := if key.name in app.runtimes then Some(app.runtimes[key.name]) else None;
      assert st == LiveState(o.value, app.runtimes) && StateFits(st);
      LoadpointReturns(o.value, st);
      ExportKeepsName(o.value, st);
      NameRestored(key.name, ExportLoadpoint(o.value, st));
    }
  }

  /** A defaulted section comes back from what differs from its defaults. */
  lemma DiffReturns(schema: Kind -> Shape, key: Key, now: Fields, def: Fields, patch: Option<Fields>)
    requires Parse(schema(key.kind), map[]) == Some(def) && Parse(schema(key.kind), now) == Some(now)
    requires patch == if Diff(now, def) == map[] then None else Some(Diff(now, def))
    ensures ParseSlot(schema, key.kind, Amended(key, Some(def), patch)) == Some(Some(now))
  {
    hide Parse, Diff;
    DefaultsCovered(schema(key.kind), now);
    DiffRestores(now, def);
  }

  lemma SingletonsReturn(schema: Kind -> Shape, c: Config, app: App, key: Key)
    requires IsSingleton(key.kind) && NamedEntities(schema) && InUse(schema, c)
    requires Parse(schema(Site), map[]).Some? && Parse(schema(SmartCharging), map[]).Some?
    requires Parse(schema(Site), SiteNow(c, app.timezone)) == Some(SiteNow(c, app.timezone))
    ensures ParseSlot(schema, key.kind, Amended(key, Lookup(Defaults(schema), key), ExportedPatch(schema, c, app, key)))
         == Some(Returned(schema, c, app, key))
  {
    hide Parse, ParseConfig, WellNamed, NamesNonEmpty, Diff, Defaults;
    EmptyParses(schema);
    ParsedLookup(schema, c, key);
    SmartChargingPresent(schema, c);
    if key.kind == MqttBridge {
      assert Amended(key, None, c.Single(MqttBridge)) == c.Single(MqttBridge);
    } else {
      hide ParseSlot, Amended;
      var def := Defaults(schema).Single(key.kind).value;
      var now := if key.kind == Site then SiteNow(c, app.timezone) else c.Single(SmartCharging).value;
      if key.kind == SmartCharging {
        SlotParses(schema, key.kind, now);
      }
      DiffReturns(schema, key, now, def, ExportedPatch(schema, c, app, key));
    }
  }

  lemma SlotParses(schema: Kind -> Shape, kind: Kind, f: Fields)
    requires ParseSlot(schema, kind, Some(f)) == Some(Some(f))
    ensures Parse(schema(kind), f) == Some(f)
  {
    hide Parse;
  }

  lemma SmartChargingPresent(schema: Kind -> Shape, c: Config)
    requires NamedEntities(schema) && ParseConfig(schema, c) == Some(c)
    ensures c.Single(Site).Some? && Parse(schema(Site), c.Single(Site).value) == Some(c.Single(Site).value)
    ensures c.Single(SmartCharging).Some?
  {
    hide Parse, ParseAll;
    ParsedLookup(schema, c, Key(Site, "site"));
    ParsedLookup(schema, c, Key(SmartCharging, "smartCharging"));
  }

  /** Rows that carry the document, layered over the defaults, parse to what `Returned` says. */
  lemma DraftReturns(validZone: string -> bool, c: Config, app: App, rows: seq<Row>)
    requires validZone("Europe/Stockholm")
    requires InUse(ConfigSchema(validZone), c) && Exportable(validZone, c, app)
    requires GoodRows(rows)
    requires forall key :: Canonical(key) ==> Combined(rows, key) == ExportedPatch(ConfigSchema(validZone), c, app, key)
    ensures var schema := ConfigSchema(validZone);
      var booted := Effective(schema, Defaults(schema), rows);
      && booted.Some? && AllWellNamed(booted.value)
      && forall key :: Canonical(key) ==> Lookup(booted.value, key) == Returned(schema, c, app, key)
  {
    hide *;
    var schema := ConfigSchema(validZone);
    var base := Defaults(schema);
    var draft := Layer(base, rows);
    ConfigSchemaNamesEntities(validZone);
    DefaultsParse(validZone);
    NoNames(base);
    LayerKeepsNames(base, rows);
    forall key | Canonical(key)
      ensures ParseSlot(schema, key.kind, Lookup(draft, key)) == Some(Returned(schema, c, app, key))
    {
      LayerByKey(base, rows, key);
      SlotReturns(validZone, c, app, key);
    }
    ParsesByKey(schema, draft);
    EffectiveIs(schema, base, rows);
    ParsedConfigWellNamed(schema, draft);
    forall key | Canonical(key) ensures Lookup(ParseConfig(schema, draft).value, key) == Returned(schema, c, app, key) {
      ParsedLookup(schema, draft, key);
    }
  }

  lemma SlotReturns(validZone: string -> bool, c: Config, app: App, key: Key)
    requires validZone("Europe/Stockholm")
    requires InUse(ConfigSchema(validZone), c) && Exportable(validZone, c, app)
    ensures var schema := ConfigSchema(validZone);
      ParseSlot(schema, key.kind, Amended(key, Lookup(Defaults(schema), key), ExportedPatch(schema, c, app, key)))
        == Some(Returned(schema, c, app, key))
  {
    hide *;
    var schema := ConfigSchema(validZone);
    ConfigSchemaNamesEntities(validZone);
    DefaultsParse(validZone);
    if IsSingleton(key.kind) {
      SingletonShapes(validZone);
      SiteDefaults(validZone);
      SmartChargingDefaults();
      ZoneFits(validZone, c, app);
      SiteStaysValid(validZone, c, app.timezone);
      SingletonsReturn(schema, c, app, key);
    } else if key.kind == Loadpoint {
      NoEntity(Defaults(schema), key);
      LoadpointSchema(validZone);
      LoadpointsReturn(schema, validZone, c, app, key);
    } else {
      NoEntity(Defaults(schema), key);
      EntitiesReturn(schema, c, app, key);
    }
  }

  lemma ZoneFits(validZone: string -> bool, c: Config, app: App)
    requires InUse(ConfigSchema(validZone), c) && Exportable(validZone, c, app)
    ensures ParseConfig(ConfigSchema(validZone), c) == Some(c) && validZone(app.timezone)
  {
    hide ParseConfig, WellNamed, RuntimeFits;
  }

  lemma NoEntity(d: Config, key: Key)
    requires !IsSingleton(key.kind) && d.List(key.kind) == []
    ensures Lookup(d, key) == None
  {
  }

  lemma SiteStaysValid(validZone: string -> bool, c: Config, timezone: string)
    requires ParseConfig(ConfigSchema(validZone), c) == Some(c) && validZone(timezone)
    ensures Parse(SiteShape(validZone), SiteNow(c, timezone)) == Some(SiteNow(c, timezone))
  {
    hide *;
    ConfigSchemaNamesEntities(validZone);
    SingletonShapes(validZone);
    SmartChargingPresent(ConfigSchema(validZone), c);
    SiteRetimed(validZone, c.Single(Site).value, timezone);
    SiteNowIs(c, timezone);
  }

  lemma SiteNowIs(c: Config, timezone: string)
    requires c.Single(Site).Some?
    ensures SiteNow(c, timezone) == c.Single(Site).value["timezone" := Str(timezone)]
  {
  }

  // ---------- the settings an exported document carries ----------

  lemma NoNulls(schema: Kind -> Shape, c: Config, app: App)
    ensures !NullEntity(Export(schema, c, app))
  {
    hide Export, Exported, Section, ExportedList;
    forall kind | kind in ENTITIES ensures Null !in Items(Export(schema, c, app), Section(kind)) {
      ExportAt(schema, c, app, kind);
      ExportedEntities(schema, c, app, kind);
    }
  }

  lemma LoadpointItems(schema: Kind -> Shape, c: Config, app: App)
    ensures Items(Export(schema, c, app), "loadpoints") == Objects(ExportedList(c, app, Loadpoint))
  {
    hide Export, Exported, ExportedList;
    ExportAt(schema, c, app, Loadpoint);
    ExportedEntities(schema, c, app, Loadpoint);
  }

  lemma ZoneCarried(schema: Kind -> Shape, c: Config, app: App)
    requires var site := Defaults(schema).Single(Site);
      site.Some? && Get(site.value, "timezone") == Some(Str("Europe/Stockholm"))
    ensures TimezoneToSet(schema, Export(schema, c, app), Replace) == Some(Str(app.timezone))
  {
    hide Export, Defaults;
    var doc := Export(schema, c, app);
    var d := Diff(SiteNow(c, app.timezone), Defaults(schema).Single(Site).value);
    ExportAt(schema, c, app, Site);
    assert Section(Site) == "site";
    assert Get(doc, "site") == NonEmpty(d);
    assert Get(d, "timezone") == if app.timezone == "Europe/Stockholm" then None else Some(Str(app.timezone));
    hide Diff, SiteNow;
    assert Member(doc, "site", "timezone") == Get(d, "timezone");
  }

  lemma DaysCarried(schema: Kind -> Shape, c: Config, app: App)
    ensures RetentionToSet(Export(schema, c, app), Replace) == Some(Num(app.retention as real))
  {
    hide Export;
    LogsAt(schema, c, app);
  }

  lemma SettingsCarried(validZone: string -> bool, c: Config, app: App)
    requires validZone("Europe/Stockholm")
    ensures var schema := ConfigSchema(validZone);
      var doc := Export(schema, c, app);
      && TimezoneToSet(schema, doc, Replace) == Some(Str(app.timezone))
      && RetentionToSet(doc, Replace) == Some(Num(app.retention as real))
  {
    hide *;
    SiteDefaults(validZone);
    DefaultsParse(validZone);
    ZoneCarried(ConfigSchema(validZone), c, app);
    DaysCarried(ConfigSchema(validZone), c, app);
  }

  lemma DaysSurvive(days: int)
    requires 1 <= days <= 365
    ensures RetentionAccepted(Num(days as real)) && (days as real).Floor == days
  {
  }

  /** The instance after a fresh import of an exported document. */
  function Imported(schema: Kind -> Shape, c: Config, app: App): App {
    var doc := Export(schema, c, app);
    App(SetAll(map[], DocRows(doc)), Seed(map[], NamedInits(ExportedList(c, app, Loadpoint))),
        app.timezone, app.retention)
  }

  lemma SettledAs(host: Host, written: App, zone: string, days: int, lps: seq<Json>, inits: seq<LoadpointInit>)
    requires host.validZone(zone) && 1 <= days <= 365
    requires Inits(host, lps) == Some(inits) && Accepted(inits) == |inits|
    ensures Settled(host, written, Some(Str(zone)), Some(Num(days as real)), lps)
         == Done(App(written.store, Seed(written.runtimes, inits), zone, days))
  {
    hide Seed, Inits;
    DaysSurvive(days);
    assert inits[..|inits|] == inits;
  }

  lemma {:induction false} AllAccepted(inits: seq<LoadpointInit>)
    requires forall i :: 0 <= i < |inits| ==> inits[i].Binds()
    ensures Accepted(inits) == |inits|
  {
    if inits != [] {
      AllAccepted(inits[1..]);
    }
  }

  /** What the loadpoint schema takes, the database driver takes. */
  lemma ValidFieldBinds(e: Fields, k: string)
    requires k in TARGETS || k == "defaultMode"
    requires At(LOADPOINT_SHAPE, e, k).Some?
    ensures Bindable(Get(e, k))
  {
    if k in TARGETS {
      TargetType(k);
    } else {
      ModeType();
    }
    var f := LOADPOINT_SHAPE.fields[k];
    assert Fill(f, Get(e, k)).Some?;
    FilledBinds(f, Get(e, k));
  }

  lemma FilledBinds(f: Field, o: Option<Json>)
    requires (f.t.Number? || f.t.Text?) && Fill(f, o).Some?
    ensures Bindable(o)
  {
  }

  /** Every exported loadpoint can be seeded. */
  lemma ExportedBind(validZone: string -> bool, c: Config, app: App)
    requires InUse(ConfigSchema(validZone), c) && Exportable(validZone, c, app)
    ensures var es := ExportedList(c, app, Loadpoint);
      && (forall i :: 0 <= i < |es| ==> NameOf(es[i]).Str?)
      && Accepted(NamedInits(es)) == |es|
  {
    hide Parse, ParseConfig, ConfigSchema, LOADPOINT_SHAPE, RuntimeFits, Returned, ExportLoadpoint, SeededState,
      Find, At;
    var schema := ConfigSchema(validZone);
    var es := ExportedList(c, app, Loadpoint);
    LoadpointSchema(validZone);
    ConfigSchemaNamesEntities(validZone);
    ExportedListsNamed(c, app, Loadpoint);
    var inits := NamedInits(es);
    forall i | 0 <= i < |es| ensures inits[i].Binds() {
      var key := Key(Loadpoint, NameOf(es[i]).s);
      FindMember(es, i);
      LoadpointsReturn(schema, validZone, c, app, key);
      ReturnedIsParsed(schema, c, app, key, es[i]);
      ParsedBinds(inits[i]);
    }
    AllAccepted(inits);
  }

  lemma ReturnedIsParsed(schema: Kind -> Shape, c: Config, app: App, key: Key, e: Fields)
    requires key.kind == Loadpoint && Find(ExportedList(c, app, Loadpoint), key.name) == Some(e)
    ensures Returned(schema, c, app, key) == Parse(schema(Loadpoint), e)
  {
    hide Parse;
  }

  lemma ParsedBinds(init: LoadpointInit)
    requires Parse(LOADPOINT_SHAPE, init.fields).Some?
    ensures init.Binds()
  {
    hide Parse, At, Bindable, LOADPOINT_SHAPE;
    ParseAt(LOADPOINT_SHAPE, init.fields);
    forall k | k in TARGETS + {"defaultMode"} ensures Bindable(Get(init.fields, k)) {
      ValidFieldBinds(init.fields, k);
    }
  }

  lemma ImportSucceeds(host: Host, c: Config, app: App, target: App, cur: Config)
    requires host.validZone("Europe/Stockholm")
    requires InUse(host.Schema(), c) && Exportable(host.validZone, c, app)
    requires NoPlaceholder(Export(host.Schema(), c, app))
    ensures Import(host, target, Export(host.Schema(), c, app), Replace, cur, false)
         == Done(Imported(host.Schema(), c, app))
  {
    hide Export, Restored, NullEntity, TimezoneToSet, RetentionToSet, Settled, Validate, DocRows, SetAll, Seed, Inits,
      ConfigSchema, NoPlaceholder, ExportedList, Objects, Defaults, InUse, Items, RuntimeFits, Accepted;
    var schema := host.Schema();
    var doc := Export(schema, c, app);
    RestoreTouchesOnlyPlaceholders(host.registry, cur, doc);
    NoNulls(schema, c, app);
    DocumentReturns(host.validZone, c, app);
    EffectiveIs(schema, Defaults(schema), DocRows(doc));
    SettingsCarried(host.validZone, c, app);
    LoadpointItems(schema, c, app);
    var es := ExportedList(c, app, Loadpoint);
    ExportedBind(host.validZone, c, app);
    NamedInitsAre(host, es);
    SettledAs(host, Written(target, Replace, doc), app.timezone, app.retention, Items(doc, "loadpoints"),
              NamedInits(es));
  }

  lemma DocumentReturns(validZone: string -> bool, c: Config, app: App)
    requires validZone("Europe/Stockholm")
    requires InUse(ConfigSchema(validZone), c) && Exportable(validZone, c, app)
    ensures var schema := ConfigSchema(validZone);
      Effective(schema, Defaults(schema), DocRows(Export(schema, c, app))).Some?
  {
    hide *;
    var schema := ConfigSchema(validZone);
    InUseNames(schema, c);
    forall key | Canonical(key)
      ensures Combined(DocRows(Export(schema, c, app)), key) == ExportedPatch(schema, c, app, key)
    {
      ExportedRows(schema, c, app, key);
    }
    DocRowsByKey(Export(schema, c, app), Key(Site, "site"));
    DraftReturns(validZone, c, app, DocRows(Export(schema, c, app)));
  }

  lemma InUseNames(schema: Kind -> Shape, c: Config)
    requires InUse(schema, c)
    ensures AllWellNamed(c) && forall kind :: NamesNonEmpty(c.List(kind))
  {
  }

  /** The rows of the table afterwards say the same as the document, in whatever order they are listed. */
  lemma TableReturns(validZone: string -> bool, c: Config, app: App, after: seq<Row>)
    requires validZone("Europe/Stockholm")
    requires InUse(ConfigSchema(validZone), c) && Exportable(validZone, c, app)
    requires Lists(after, Imported(ConfigSchema(validZone), c, app).store)
    ensures var schema := ConfigSchema(validZone);
      var booted := Effective(schema, Defaults(schema), after);
      && booted.Some? && AllWellNamed(booted.value)
      && forall key :: Canonical(key) ==> Lookup(booted.value, key) == Returned(schema, c, app, key)
  {
    hide *;
    hide Imported;
    var schema := ConfigSchema(validZone);
    var rows := DocRows(Export(schema, c, app));
    InUseNames(schema, c);
    ImportedStore(schema, c, app);
    EmptyLists();
    DocRowsByKey(Export(schema, c, app), Key(Site, "site"));
    SetAllStaysGood(map[], rows);
    ListingIsGood(after, SetAll(map[], rows));
    forall key | Canonical(key) ensures Combined(after, key) == ExportedPatch(schema, c, app, key) {
      ListingByKey(after, SetAll(map[], rows), key);
      SetAllByKey(map[], rows, key);
      ExportedRows(schema, c, app, key);
      FromNothing(rows, key);
      ExportedFinite(validZone, c, app, key);
    }
    DraftReturns(validZone, c, app, after);
  }

  lemma ImportedStore(schema: Kind -> Shape, c: Config, app: App)
    ensures Imported(schema, c, app).store == SetAll(map[], DocRows(Export(schema, c, app)))
  {
  }

  lemma FromNothing(rows: seq<Row>, key: Key)
    ensures PatchAt(map[], key) == None
    ensures Combined(rows, key).Some? ==> Stored(map[], key) + Combined(rows, key).value == Combined(rows, key).value
  {
    hide Combined;
    if Combined(rows, key).Some? {
      assert map[] + Combined(rows, key).value == Combined(rows, key).value;
    }
  }

  lemma InUseFinite(schema: Kind -> Shape, c: Config, key: Key)
    requires InUse(schema, c) && Canonical(key) && Lookup(c, key).Some?
    ensures FiniteFields(Lookup(c, key).value)
  {
    hide ParseConfig, WellNamed, NamesNonEmpty, FiniteFields, Lookup;
  }

  lemma FitIsFinite(o: Option<Json>, f: Field)
    requires Fits(o, f.t) && f.Optional?
    requires f.t.Text? || (f.t.Number? && !f.t.okInfinite(true) && !f.t.okInfinite(false))
    ensures o.Some? ==> Finite(o.value)
  {
  }

  lemma LoadpointFinite(lp: Fields, st: Option<Fields>)
    requires FiniteFields(lp) && StateFits(st)
    ensures FiniteFields(ExportLoadpoint(lp, st))
  {
    hide ExportLoadpoint, RuntimeFits, LOADPOINT_SHAPE;
    var e := ExportLoadpoint(lp, st);
    forall k | k in e ensures Finite(e[k]) {
      ExportedKey(lp, st, k);
      assert LoadpointField(lp, st, k) == Some(e[k]);
      LiveFieldFits(st, k);
      if k in TARGETS {
        TargetType(k);
        TargetField(lp, st, k);
        assert PERCENT.okInfinite(true) == PERCENT.okInfinite(false) == false;
        assert KWH.okInfinite(true) == KWH.okInfinite(false) == false;
        FitIsFinite(Live(st, k), LOADPOINT_SHAPE.fields[k]);
      } else if k == "defaultMode" && Live(st, "mode").Some? {
        ModeType();
      }
    }
  }

  lemma UnnamedFinite(o: Option<Fields>)
    requires o.Some? ==> FiniteFields(o.value)
    ensures Unnamed(o).Some? ==> RereadFields(Unnamed(o).value) == Unnamed(o).value
  {
    if o.Some? {
      RereadFinite(o.value - {"name"});
    }
  }

  /** No exported patch holds an infinite number, so each is read back as it was stored. */
  lemma ExportedFinite(validZone: string -> bool, c: Config, app: App, key: Key)
    requires InUse(ConfigSchema(validZone), c) && Exportable(validZone, c, app) && Canonical(key)
    ensures var patch := ExportedPatch(ConfigSchema(validZone), c, app, key);
      patch.Some? ==> RereadFields(patch.value) == patch.value
  {
    hide ParseConfig, ConfigSchema, InUse, ExportLoadpoint, FiniteFields, RereadFields, RuntimeFits, Defaults, Diff;
    var schema := ConfigSchema(validZone);
    var o := Lookup(c, key);
    if o.Some? {
      InUseFinite(schema, c, key);
    }
    if IsSingleton(key.kind) {
      SingletonFinite(schema, c, app, key);
    } else if key.kind == Loadpoint {
      ExportedByName(c.List(Loadpoint), app.runtimes, key.name);
      if o.Some? {
        var st := LiveState(o.value, app.runtimes);
        assert StateFits(st);
        LoadpointFinite(o.value, st);
      }
      UnnamedFinite(Find(ExportedList(c, app, Loadpoint), key.name));
    } else {
      UnnamedFinite(Find(ExportedList(c, app, key.kind), key.name));
    }
  }

  lemma SingletonFinite(schema: Kind -> Shape, c: Config, app: App, key: Key)
    requires IsSingleton(key.kind) && Canonical(key)
    requires Lookup(c, key).Some? ==> FiniteFields(Lookup(c, key).value)
    ensures var patch := ExportedPatch(schema, c, app, key);
      patch.Some? ==> RereadFields(patch.value) == patch.value
  {
    hide Defaults;
    var patch := ExportedPatch(schema, c, app, key);
    if patch.Some? {
      forall k | k in patch.value ensures Finite(patch.value[k]) {
        if key.kind == Site && k == "timezone" {
          assert patch.value[k] == Str(app.timezone);
        } else {
          assert k in Lookup(c, key).value && patch.value[k] == Lookup(c, key).value[k];
        }
      }
      RereadFinite(patch.value);
    }
  }

  // ---------- exporting again ----------

  lemma {:induction false} ObjectsCount(es: seq<Fields>, j: Json)
    ensures multiset(Objects(es))[j] == if j.Obj? then multiset(es)[j.fields] else 0
  {
    if es != [] {
      assert es == [es[0]] + es[1..];
      assert Objects(es) == [Obj(es[0])] + Objects(es[1..]);
      ObjectsCount(es[1..], j);
    }
  }

  lemma SameBagSameObjects(a: seq<Fields>, b: seq<Fields>)
    requires multiset(a) == multiset(b)
    ensures multiset(Objects(a)) == multiset(Objects(b))
    ensures a == [] <==> b == []
  {
    forall j ensures multiset(Objects(a))[j] == multiset(Objects(b))[j] {
      ObjectsCount(a, j);
      ObjectsCount(b, j);
    }
    assert |multiset(a)| == |a| && |multiset(b)| == |b|;
  }

  lemma EntitiesSame(schema: Kind -> Shape, c: Config, app: App, d: Config, app': App, kind: Kind)
    requires !IsSingleton(kind)
    requires WellNamed(ExportedList(c, app, kind)) && WellNamed(ExportedList(d, app', kind))
    requires forall name :: Find(ExportedList(c, app, kind), name) == Find(ExportedList(d, app', kind), name)
    ensures SameSection(Exported(schema, c, app, kind), Exported(schema, d, app', kind))
  {
    hide Exported, WellNamed, ExportedList;
    ExportedEntities(schema, c, app, kind);
    ExportedEntities(schema, d, app', kind);
    SameNamesSameBag(ExportedList(c, app, kind), ExportedList(d, app', kind));
    SameBagSameObjects(ExportedList(c, app, kind), ExportedList(d, app', kind));
  }

  lemma SingletonsSame(schema: Kind -> Shape, c: Config, app: App, d: Config, app': App, kind: Kind)
    requires IsSingleton(kind) && app'.timezone == app.timezone
    requires forall key :: Canonical(key) ==> Lookup(d, key) == Returned(schema, c, app, key)
    ensures Exported(schema, c, app, kind) == Exported(schema, d, app', kind)
  {
    hide Defaults, Diff, Returned;
    var key := Key(kind, KindName(kind));
    assert Canonical(key);
    assert Lookup(d, key) == d.Single(kind);
    ReturnedSingleton(schema, c, app, key);
    if kind == Site {
      assert SiteNow(d, app.timezone) == SiteNow(c, app.timezone);
    }
  }

  lemma ReturnedSingleton(schema: Kind -> Shape, c: Config, app: App, key: Key)
    requires IsSingleton(key.kind)
    ensures Returned(schema, c, app, key)
         == if key.kind == Site then Some(SiteNow(c, app.timezone)) else c.Single(key.kind)
  {
  }

  lemma ReturnedEntity(schema: Kind -> Shape, c: Config, app: App, key: Key)
    requires !IsSingleton(key.kind) && key.kind != Loadpoint
    ensures Canonical(key) && Returned(schema, c, app, key) == Find(c.List(key.kind), key.name)
  {
  }

  lemma LoadpointsSame(validZone: string -> bool, c: Config, app: App, d: Config, name: string)
    requires InUse(ConfigSchema(validZone), c) && Exportable(validZone, c, app)
    requires forall key :: Canonical(key) ==> Lookup(d, key) == Returned(ConfigSchema(validZone), c, app, key)
    ensures Find(ExportedList(c, app, Loadpoint), name)
         == Find(ExportedList(d, Imported(ConfigSchema(validZone), c, app), Loadpoint), name)
  {
    hide Parse, ParseConfig, WellNamed, NamesNonEmpty, ExportLoadpoint, SeededState, Export, SetAll, DocRows, Seed,
      LOADPOINT_SHAPE, ConfigSchema, RuntimeFits, Returned, ParseSlot, ExportedPatch;
    var schema := ConfigSchema(validZone);
    var after := Imported(schema, c, app);
    var key := Key(Loadpoint, name);
    LoadpointSchema(validZone);
    ConfigSchemaNamesEntities(validZone);
    LoadpointsReturn(schema, validZone, c, app, key);
    assert Lookup(d, key) == Returned(schema, c, app, key);
    var es := ExportedList(c, app, Loadpoint);
    ExportedListsNamed(c, app, Loadpoint);
    SeededByName(es, name);
    ExportedByName(d.List(Loadpoint), after.runtimes, name);
    ReturnedLoadpoint(schema, c, app, name);
  }

  lemma ReturnedLoadpoint(schema: Kind -> Shape, c: Config, app: App, name: string)
    ensures Find(ExportedList(c, app, Loadpoint), name).None? ==> Returned(schema, c, app, Key(Loadpoint, name)).None?
  {
  }

  lemma LoadpointSchema(validZone: string -> bool)
    ensures ConfigSchema(validZone)(Loadpoint) == LOADPOINT_SHAPE
  {
  }

  lemma SectionsSame(validZone: string -> bool, c: Config, app: App, d: Config, kind: Kind)
    requires InUse(ConfigSchema(validZone), c) && Exportable(validZone, c, app) && AllWellNamed(d)
    requires forall key :: Canonical(key) ==> Lookup(d, key) == Returned(ConfigSchema(validZone), c, app, key)
    ensures SameSection(Exported(ConfigSchema(validZone), c, app, kind),
                        Exported(ConfigSchema(validZone), d, Imported(ConfigSchema(validZone), c, app), kind))
  {
    hide Exported, WellNamed, NamesNonEmpty, Returned, Export, DocRows, SetAll, Seed, ExportLoadpoints, ConfigSchema,
      ParseConfig, SettingsFit, Find;
    var schema := ConfigSchema(validZone);
    var after := Imported(schema, c, app);
    if IsSingleton(kind) {
      SingletonsSame(schema, c, app, d, after, kind);
    } else {
      assert WellNamed(c.List(kind)) && WellNamed(d.List(kind)) && NamesNonEmpty(c.List(kind));
      ExportedListsNamed(c, app, kind);
      ExportedStaysNamed(d, after, kind);
      forall name ensures Find(ExportedList(c, app, kind), name) == Find(ExportedList(d, after, kind), name) {
        if kind == Loadpoint {
          LoadpointsSame(validZone, c, app, d, name);
        } else {
          ReturnedEntity(schema, c, app, Key(kind, name));
          assert Lookup(d, Key(kind, name)) == Returned(schema, c, app, Key(kind, name));
        }
      }
      EntitiesSame(schema, c, app, d, after, kind);
    }
  }

  lemma ExportedStaysNamed(c: Config, app: App, kind: Kind)
    requires WellNamed(c.List(kind))
    ensures WellNamed(ExportedList(c, app, kind))
  {
    hide LoadpointField;
    var es := c.List(kind);
    forall i | 0 <= i < |es| ensures NameOf(ExportedList(c, app, kind)[i]) == NameOf(es[i]) {
      if kind == Loadpoint {
        ExportKeepsName(es[i], LiveState(es[i], app.runtimes));
      }
    }
  }

  /**
   * Export, import into any instance, export: the import succeeds, the next
   * boot runs, and it exports the same document up to the order of its arrays.
   */
  lemma ExportImportExport(host: Host, c: Config, app: App, target: App, cur: Config, after: seq<Row>)
    requires host.validZone("Europe/Stockholm")
    requires InUse(host.Schema(), c) && Exportable(host.validZone, c, app)
    requires NoPlaceholder(Export(host.Schema(), c, app))
    ensures var schema := host.Schema();
      var doc := Export(schema, c, app);
      var outcome := Import(host, target, doc, Replace, cur, false);
      && outcome.Done?
      && (Lists(after, outcome.after.store) ==>
            var booted := Effective(schema, Defaults(schema), after);
            booted.Some? && SameDocument(doc, Export(schema, booted.value, outcome.after)))
  {
    hide *;
    var schema := host.Schema();
    SchemaIs(host);
    ImportSucceeds(host, c, app, target, cur);
    var next := Imported(schema, c, app);
    if Lists(after, next.store) {
      TableReturns(host.validZone, c, app, after);
      var booted := Effective(schema, Defaults(schema), after).value;
      forall kind ensures SameSection(Exported(schema, c, app, kind), Exported(schema, booted, next, kind)) {
        SectionsSame(host.validZone, c, app, booted, kind);
      }
      ImportedSettings(schema, c, app);
      SameBySection(schema, c, app, booted, next);
    }
  }

  // ---------- which instances can import their own export ----------

  lemma ParsedLoadpointFits(lp: Fields, st: Option<Fields>)
    requires Parse(LOADPOINT_SHAPE, ExportLoadpoint(lp, st)).Some?
    ensures StateFits(st)
  {
    hide Parse, ExportLoadpoint, LOADPOINT_SHAPE, Accept;
    var e := ExportLoadpoint(lp, st);
    ParseAt(LOADPOINT_SHAPE, e);
    forall k | k in TARGETS ensures k in LOADPOINT_SHAPE.fields && Fits(Live(st, k), LOADPOINT_SHAPE.fields[k].t) {
      TargetType(k);
      ExportedKey(lp, st, k);
      assert At(LOADPOINT_SHAPE, e, k) == Fill(LOADPOINT_SHAPE.fields[k], Live(st, k));
      assert At(LOADPOINT_SHAPE, e, k).Some?;
    }
    ModeType();
    ExportedKey(lp, st, "defaultMode");
    assert At(LOADPOINT_SHAPE, e, "defaultMode") == Fill(LOADPOINT_SHAPE.fields["defaultMode"], Get(e, "defaultMode"));
    assert At(LOADPOINT_SHAPE, e, "defaultMode").Some?;
    TargetType("targetSoc");
    TargetType("targetTime");
    TargetType("targetKWh");
    TargetType("minSoc");
  }

  /** If the exported document validates, the live state of every loadpoint fits. */
  lemma ValidatedFits(validZone: string -> bool, c: Config, app: App, lp: Fields)
    requires validZone("Europe/Stockholm") && InUse(ConfigSchema(validZone), c) && lp in c.List(Loadpoint)
    requires var schema := ConfigSchema(validZone);
      Validate(schema, Defaults(schema), DocRows(Export(schema, c, app))).Some?
    ensures StateFits(LiveState(lp, app.runtimes))
  {
    hide Parse, ParseConfig, ConfigSchema, Export, DocRows, Defaults, Layer, LOADPOINT_SHAPE, ExportLoadpoint, Combined,
      StateFits, NamesNonEmpty, FiniteConfig, Exported;
    var schema := ConfigSchema(validZone);
    var draft := Layer(Defaults(schema), DocRows(Export(schema, c, app)));
    var i :| 0 <= i < |c.List(Loadpoint)| && c.List(Loadpoint)[i] == lp;
    assert WellNamed(c.List(Loadpoint));
    FindMember(c.List(Loadpoint), i);
    var key := Key(Loadpoint, NameOf(lp).s);
    var e := ExportLoadpoint(lp, LiveState(lp, app.runtimes));
    ExportedByName(c.List(Loadpoint), app.runtimes, key.name);
    ExportKeepsName(lp, LiveState(lp, app.runtimes));
    NameRestored(key.name, e);
    DocRowsByKey(Export(schema, c, app), key);
    ExportedRows(schema, c, app, key);
    LayerByKey(Defaults(schema), DocRows(Export(schema, c, app)), key);
    DefaultsParse(validZone);
    NoEntity(Defaults(schema), key);
    assert Lookup(draft, key) == Some(e);
    ConfigSchemaNamesEntities(validZone);
    ParsedLookup(schema, draft, key);
    LoadpointSchema(validZone);
    ParsedLoadpointFits(lp, LiveState(lp, app.runtimes));
  }

  /**
   * An instance's own full export can be imported exactly if the live state of
   * each of its loadpoints fits the loadpoint schema; otherwise it is refused.
   */
  lemma OwnExportImportsIff(host: Host, c: Config, app: App, target: App, cur: Config)
    requires host.validZone("Europe/Stockholm")
    requires InUse(host.Schema(), c) && SettingsFit(host.validZone, app)
    requires NoPlaceholder(Export(host.Schema(), c, app))
    ensures var run := Import(host, target, Export(host.Schema(), c, app), Replace, cur, false);
      && (run == Done(Imported(host.Schema(), c, app)) <==> LiveFits(c, app))
      && (run == Bad <==> !LiveFits(c, app))
  {
    hide *;
    hide LiveFits;
    var schema := host.Schema();
    SchemaIs(host);
    ExportableIs(host.validZone, c, app);
    if LiveFits(c, app) {
      ImportSucceeds(host, c, app, target, cur);
    } else {
      var lp := Misfit(c, app);
      if Validate(schema, Defaults(schema), DocRows(Export(schema, c, app))).Some? {
        ValidatedFits(host.validZone, c, app, lp);
        assert false;
      }
      RefusedIs(host, target, Export(schema, c, app), cur);
    }
  }

  lemma ExportableIs(validZone: string -> bool, c: Config, app: App)
    ensures Exportable(validZone, c, app) <==> SettingsFit(validZone, app) && LiveFits(c, app)
  {
    hide SettingsFit, LiveFits;
  }

  lemma Misfit(c: Config, app: App) returns (lp: Fields)
    requires !LiveFits(c, app)
    ensures lp in c.List(Loadpoint) && !StateFits(LiveState(lp, app.runtimes))
  {
    hide StateFits;
    lp :| lp in c.List(Loadpoint) && !StateFits(LiveState(lp, app.runtimes));
  }

  lemma RefusedIs(host: Host, target: App, doc: Fields, cur: Config)
    requires Validate(host.Schema(), Defaults(host.Schema()), DocRows(doc)).None? && NoPlaceholder(doc)
    ensures Import(host, target, doc, Replace, cur, false) == Bad
  {
    hide Validate, Restored, DocRows, NoPlaceholder, Settled, Written, ConfigSchema, Defaults;
    RestoreTouchesOnlyPlaceholders(host.registry, cur, doc);
  }

  /** So a target above 100 %, as the MQTT command stores it, shuts an instance out of its own backup. */
  lemma OverfullTargetShutsOut(host: Host, c: Config, app: App, target: App, cur: Config, lp: Fields, soc: real)
    requires host.validZone("Europe/Stockholm")
    requires InUse(host.Schema(), c) && SettingsFit(host.validZone, app)
    requires NoPlaceholder(Export(host.Schema(), c, app))
    requires lp in c.List(Loadpoint) && soc > 100.0
    requires Live(LiveState(lp, app.runtimes), "targetSoc") == Some(Num(soc))
    ensures Import(host, target, Export(host.Schema(), c, app), Replace, cur, false) == Bad
  {
    hide Export, InUse, SettingsFit, NoPlaceholder, Import, ConfigSchema;
    assert !Fits(Some(Num(soc)), PERCENT);
    assert !StateFits(LiveState(lp, app.runtimes));
    OwnExportImportsIff(host, c, app, target, cur);
  }

  lemma SchemaIs(host: Host)
    ensures host.Schema() == ConfigSchema(host.validZone)
  {
  }

  lemma ImportedSettings(schema: Kind -> Shape, c: Config, app: App)
    ensures Imported(schema, c, app).retention == app.retention
  {
  }

  /** A configuration holds the secrets of the document exported from it. */
  lemma OwnSecretsHeld(registry: Registry, schema: Kind -> Shape, c: Config, app: App)
    requires AllWellNamed(c)
    ensures HoldsSecrets(registry, c, Export(schema, c, app))
  {
    hide Export, Exported, WellNamed, SecretKeys;
    var doc := Export(schema, c, app);
    ExportAt(schema, c, app, MqttBridge);
    ExportAt(schema, c, app, Vehicle);
    ExportAt(schema, c, app, MeterReader);
    ExportedEntities(schema, c, app, Vehicle);
    ExportedEntities(schema, c, app, MeterReader);
    ExportedBridge(schema, c, app);
    assert WellNamed(c.List(Vehicle)) && WellNamed(c.List(MeterReader));
    forall v | v in Objects(c.List(Vehicle)) ensures HoldsVehicle(registry, c.List(Vehicle), v) {
      FoundAgain(c.List(Vehicle), v);
    }
    forall m | m in Objects(c.List(MeterReader)) ensures HoldsMeter(c.List(MeterReader), m) {
      FoundAgain(c.List(MeterReader), m);
    }
  }

  lemma ExportedBridge(schema: Kind -> Shape, c: Config, app: App)
    ensures Exported(schema, c, app, MqttBridge)
         == if c.Single(MqttBridge).Some? then Some(Obj(c.Single(MqttBridge).value)) else None
  {
  }

  lemma FoundAgain(es: seq<Fields>, j: Json)
    requires WellNamed(es) && j in Objects(es)
    ensures j.Obj? && Current(es, j.fields) == Some(j.fields)
  {
    var i :| 0 <= i < |es| && Objects(es)[i] == j;
    FindMember(es, i);
  }

  /**
   * A redacted export imported back into the instance it came from acts like
   * the full one, when every credential sits where restoring looks for it.
   */
  lemma RedactedImportIsFull(host: Host, c: Config, app: App, target: App, mode: Mode, dryRun: bool)
    requires PublicIdentity(host.registry) && AllWellNamed(c)
    requires var doc := Export(host.Schema(), c, app);
      SecretsInPlace(host.registry, doc) && NoPlaceholder(doc)
    ensures var doc := Export(host.Schema(), c, app);
      Import(host, target, Redacted(host.registry, doc), mode, c, dryRun) == Import(host, target, doc, mode, c, dryRun)
  {
    hide Export, Restored, Redacted, Settled, Passes, Written, HoldsSecrets, SecretsInPlace, NoPlaceholder,
      PublicIdentity, AllWellNamed;
    var doc := Export(host.Schema(), c, app);
    OwnSecretsHeld(host.registry, host.Schema(), c, app);
    RoundTripIffSecretsInPlace(host.registry, c, doc);
    RestoreTouchesOnlyPlaceholders(host.registry, c, doc);
  }

  /** A fresh instance, with the defaults and no tables, can be exported and imported so. */
  lemma FreshInstanceQualifies(validZone: string -> bool)
    requires validZone("Europe/Stockholm")
    ensures var schema := ConfigSchema(validZone);
      var blank := App(map[], map[], "Europe/Stockholm", DEFAULT_RETENTION);
      && InUse(schema, Defaults(schema)) && Exportable(validZone, Defaults(schema), blank)
      && NoPlaceholder(Export(schema, Defaults(schema), blank))
  {
    hide *;
    DefaultsParse(validZone);
    DefaultsFinite(validZone);
    EmptyInUse(ConfigSchema(validZone), Defaults(ConfigSchema(validZone)));
    BlankFits(validZone, Defaults(ConfigSchema(validZone)));
    NothingToHide(ConfigSchema(validZone), Defaults(ConfigSchema(validZone)),
                  App(map[], map[], "Europe/Stockholm", DEFAULT_RETENTION));
  }

  lemma EmptyInUse(schema: Kind -> Shape, c: Config)
    requires ParseConfig(schema, c) == Some(c) && FiniteConfig(c) && forall kind :: c.List(kind) == []
    ensures InUse(schema, c)
  {
    hide ParseConfig, FiniteConfig;
  }

  lemma BlankFits(validZone: string -> bool, c: Config)
    requires validZone("Europe/Stockholm") && c.List(Loadpoint) == []
    ensures Exportable(validZone, c, App(map[], map[], "Europe/Stockholm", DEFAULT_RETENTION))
  {
  }

  /** The schema fills in no infinite number by itself. */
  lemma ConfigSchemaFinite(validZone: string -> bool, kind: Kind)
    ensures FiniteShape(ConfigSchema(validZone)(kind))
  {
    hide FiniteShape, SiteShape, SMART_CHARGING_SHAPE, MQTT_BRIDGE_SHAPE, NAMED_MODULE_SHAPE, BALANCER_SHAPE,
      LOADPOINT_SHAPE;
    SiteFinite(validZone);
    SmartChargingFinite();
    BridgeFinite();
    ModuleFinite();
    BalancerFinite();
    LoadpointShapeFinite();
  }

  lemma SiteFinite(validZone: string -> bool)
    ensures FiniteShape(SiteShape(validZone))
  {
  }

  lemma WindowFinite(startHour: real, endHour: real)
    ensures FiniteType(HourWindow(startHour, endHour))
  {
    var shape := HourWindow(startHour, endHour).shape;
    forall k | k in shape.fields ensures FiniteField(shape.fields[k]) {
      PlainFinite(shape.fields[k].t);
    }
    assert FiniteShape(shape);
  }

  lemma SmartChargingFinite()
    ensures FiniteShape(SMART_CHARGING_SHAPE)
  {
    hide HourWindow, FiniteType;
    WindowFinite(23.0, 5.0);
    WindowFinite(6.0, 22.0);
    forall k | k in SMART_CHARGING_SHAPE.fields ensures FiniteField(SMART_CHARGING_SHAPE.fields[k]) {
      PlainFinite(SMART_CHARGING_SHAPE.fields[k].t);
    }
  }

  lemma PlainFinite(t: Type)
    ensures !t.Record? ==> FiniteType(t)
  {
  }

  lemma BridgeFinite()
    ensures FiniteShape(MQTT_BRIDGE_SHAPE)
  {
    forall k | k in BROKER_SHAPE.fields ensures FiniteField(BROKER_SHAPE.fields[k]) {
      PlainFinite(BROKER_SHAPE.fields[k].t);
    }
    assert FiniteShape(BROKER_SHAPE);
    forall k | k in MQTT_BRIDGE_SHAPE.fields ensures FiniteField(MQTT_BRIDGE_SHAPE.fields[k]) {
      PlainFinite(MQTT_BRIDGE_SHAPE.fields[k].t);
    }
  }

  lemma ModuleFinite()
    ensures FiniteShape(NAMED_MODULE_SHAPE)
  {
  }

  lemma BalancerFinite()
    ensures FiniteShape(BALANCER_SHAPE)
  {
  }

  lemma LoadpointShapeFinite()
    ensures FiniteShape(LOADPOINT_SHAPE)
  {
  }

  lemma SlotStaysFinite(schema: Kind -> Shape, kind: Kind, o: Option<Fields>)
    requires FiniteShape(schema(kind)) && (o.Some? ==> FiniteFields(o.value)) && ParseSlot(schema, kind, o).Some?
    ensures var parsed := ParseSlot(schema, kind, o).value;
      parsed.Some? ==> FiniteFields(parsed.value)
  {
    hide Parse, FiniteShape;
    if ParseSlot(schema, kind, o).value.Some? {
      ParseStaysFinite(schema(kind), o.GetOr(map[]));
    }
  }

  lemma DefaultsFinite(validZone: string -> bool)
    requires validZone("Europe/Stockholm")
    ensures FiniteConfig(Defaults(ConfigSchema(validZone)))
  {
    hide *;
    hide Defaults;
    var schema := ConfigSchema(validZone);
    DefaultsParse(validZone);
    ConfigSchemaNamesEntities(validZone);
    forall key | Canonical(key) && Lookup(Defaults(schema), key).Some?
      ensures FiniteFields(Lookup(Defaults(schema), key).value)
    {
      ParsedLookup(schema, EMPTY, key);
      NothingLooked(key);
      ConfigSchemaFinite(validZone, key.kind);
      SlotStaysFinite(schema, key.kind, None);
    }
    FiniteIs(Defaults(schema));
  }

  lemma NothingLooked(key: Key)
    ensures Lookup(EMPTY, key) == None
  {
  }

  lemma FiniteIs(c: Config)
    requires forall key :: Canonical(key) && Lookup(c, key).Some? ==> FiniteFields(Lookup(c, key).value)
    ensures FiniteConfig(c)
  {
    hide FiniteFields, Lookup;
  }

  lemma NothingToHide(schema: Kind -> Shape, c: Config, app: App)
    requires c.Single(MqttBridge).None? && forall kind :: c.List(kind) == []
    ensures NoPlaceholder(Export(schema, c, app))
  {
    hide Export, Exported;
    ExportAt(schema, c, app, MqttBridge);
    ExportAt(schema, c, app, Vehicle);
    ExportAt(schema, c, app, MeterReader);
    ExportedBridge(schema, c, app);
    ExportedEntities(schema, c, app, Vehicle);
    ExportedEntities(schema, c, app, MeterReader);
  }
}
