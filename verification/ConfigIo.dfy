/** Exporting the configuration as a document and importing one: src/core/config-io.ts, src/core/loadpoint.ts. */
module ConfigIo {
  import opened Prelude
  import opened Schema
  import opened ConfigModel
  import opened ConfigOverrides
  import opened Redaction

  const DEFAULT_RETENTION := 3

  /** What the import asks of its surroundings: `isValidTimeZone`, how JavaScript writes a number, and the
      registered vehicle modules. */
  datatype Host = Host(validZone: string -> bool, numberText: real -> string, registry: Registry) {
    function Schema(): Kind -> Shape {
      ConfigSchema(validZone)
    }
  }

  /** Live mode and targets per loadpoint, under "mode" and the names of the targets. */
  type Runtimes = map<string, Fields>

  const TARGETS := {"targetSoc", "targetTime", "targetKWh", "minSoc"}
  const BINDINGS := {"name", "charger", "tariff", "balancer", "vehicle"}

  const ORDER := [Site, SmartCharging, MqttBridge, Tariff, Balancer, Vehicle, Charger, MeterReader, Loadpoint]

  function Section(kind: Kind): string {
    match kind
    case Site => "site"
    case SmartCharging => "smartCharging"
    case MqttBridge => "mqttBridge"
    case Tariff => "tariffs"
    case Balancer => "balancers"
    case Vehicle => "vehicles"
    case Charger => "chargers"
    case MeterReader => "meterReaders"
    case Loadpoint => "loadpoints"
  }

  /** `DEFAULTS`: what the schema makes of `{}`. */
  function Defaults(schema: Kind -> Shape): Config {
    ParseConfig(schema, EMPTY).GetOr(EMPTY)
  }

  // ---------- export ----------

  /** `diffFields`. */
  function Diff(obj: Fields, def: Fields): Fields {
    map k | k in obj && Get(def, k) != Some(obj[k]) :: obj[k]
  }

  function Live(st: Option<Fields>, k: string): Option<Json> {
    if st.Some? then Get(st.value, k) else None
  }

  function LoadpointField(lp: Fields, st: Option<Fields>, k: string): Option<Json> {
    if k in BINDINGS then Get(lp, k)
    else if k == "defaultMode" then (if Live(st, "mode").Some? then Live(st, "mode") else Get(lp, k))
    else if k in TARGETS then Live(st, k)
    else if k == "autoRevertToSmart" && Get(lp, k) == Some(Bool(false)) then Some(Bool(false))
    else None
  }

  const LOADPOINT_KEYS := BINDINGS + TARGETS + {"defaultMode", "autoRevertToSmart"}

  function ExportLoadpoint(lp: Fields, st: Option<Fields>): Fields {
    map k | k in LOADPOINT_KEYS && LoadpointField(lp, st, k).Some? :: LoadpointField(lp, st, k).value
  }

  function LiveState(lp: Fields, runtimes: Runtimes): Option<Fields> {
    if NameOf(lp).Str? && NameOf(lp).s in runtimes then Some(runtimes[NameOf(lp).s]) else None
  }

  function ExportLoadpoints(lps: seq<Fields>, runtimes: Runtimes): (r: seq<Fields>)
    ensures |r| == |lps|
    ensures forall i :: 0 <= i < |lps| ==> r[i] == ExportLoadpoint(lps[i], LiveState(lps[i], runtimes))
  {
    seq(|lps|, i requires 0 <= i < |lps| => ExportLoadpoint(lps[i], LiveState(lps[i], runtimes)))
  }

  function Objects(es: seq<Fields>): (r: seq<Json>)
    ensures |r| == |es| && forall i :: 0 <= i < |es| ==> r[i] == Obj(es[i])
  {
    seq(|es|, i requires 0 <= i < |es| => Obj(es[i]))
  }

  function NonEmpty(f: Fields): Option<Json> {
    if f == map[] then None else Some(Obj(f))
  }

  function NonEmptyList(es: seq<Fields>): Option<Json> {
    if es == [] then None else Some(Arr(Objects(es)))
  }

  datatype App = App(store: Store, runtimes: Runtimes, timezone: string, retention: int)

  function SiteNow(c: Config, timezone: string): Fields {
    c.Single(Site).GetOr(map[])["timezone" := Str(timezone)]
  }

  /** One section of the exported document. */
  function Exported(schema: Kind -> Shape, c: Config, app: App, kind: Kind): Option<Json> {
    match kind
    case Site => NonEmpty(Diff(SiteNow(c, app.timezone), Defaults(schema).Single(Site).GetOr(map[])))
    case SmartCharging =>
      NonEmpty(Diff(c.Single(SmartCharging).GetOr(map[]), Defaults(schema).Single(SmartCharging).GetOr(map[])))
    case MqttBridge => if c.Single(MqttBridge).Some? then Some(Obj(c.Single(MqttBridge).value)) else None
    case Loadpoint => Some(Arr(Objects(ExportLoadpoints(c.List(Loadpoint), app.runtimes))))
    case _ => NonEmptyList(c.List(kind))
  }

  function Logs(retention: int): Option<Json> {
    if retention == DEFAULT_RETENTION then None
    else Some(Obj(map["retentionDays" := Num(retention as real)]))
  }

  function Put(doc: Fields, section: string, j: Option<Json>): Fields {
    if j.Some? then doc[section := j.value] else doc
  }

  function PutAll(schema: Kind -> Shape, c: Config, app: App, kinds: seq<Kind>): Fields {
    if kinds == [] then map[]
    else
      var front := PutAll(schema, c, app, kinds[..|kinds| - 1]);
      var last := kinds[|kinds| - 1];
      Put(front, Section(last), Exported(schema, c, app, last))
  }

  /** `buildConfigExport` with secrets. */
  function Export(schema: Kind -> Shape, c: Config, app: App): Fields {
    Put(PutAll(schema, c, app, ORDER), "logs", Logs(app.retention))
  }

  method BuildConfigExport(schema: Kind -> Shape, registry: Registry, c: Config, app: App, secrets: bool)
    returns (doc: Fields)
    ensures doc == if secrets then Export(schema, c, app) else Redacted(registry, Export(schema, c, app))
  {
    doc := map[];
    for i := 0 to |ORDER|
      invariant doc == PutAll(schema, c, app, ORDER[..i])
    {
      assert ORDER[..i + 1][..i] == ORDER[..i];
      doc := Put(doc, Section(ORDER[i]), Exported(schema, c, app, ORDER[i]));
    }
    assert ORDER[..|ORDER|] == ORDER;
    doc := Put(doc, "logs", Logs(app.retention));
    if !secrets {
      doc := RedactSecrets(registry, doc);
    }
  }

  // ---------- import ----------

  function EntityRows(kind: Kind, items: seq<Json>): seq<Row> {
    if items == [] then []
    else
      var front, last := EntityRows(kind, items[..|items| - 1]), items[|items| - 1];
      if last.Obj? && NameOf(last.fields).Str? && NameOf(last.fields).s != "" then
        front + [Row(Key(kind, NameOf(last.fields).s), last.fields - {"name"})]
      else
        front
  }

  function KindRows(doc: Fields, kind: Kind): seq<Row> {
    match Get(doc, Section(kind))
    case Some(Obj(f)) => if IsSingleton(kind) then [Row(Key(kind, KindName(kind)), f)] else []
    case Some(Arr(items)) => if IsSingleton(kind) then [] else EntityRows(kind, items)
    case _ => []
  }

  function RowsOf(doc: Fields, kinds: seq<Kind>): seq<Row> {
    if kinds == [] then []
    else RowsOf(doc, kinds[..|kinds| - 1]) + KindRows(doc, kinds[|kinds| - 1])
  }

  /** `docToOverrideRows`. */
  function DocRows(doc: Fields): seq<Row> {
    RowsOf(doc, ORDER)
  }

  function Or(o: Option<Json>, default: Json): Json {
    if o.None? || o.value.Null? then default else o.value
  }

  function Given(lp: Fields, k: string): Option<Json> {
    if Get(lp, k) == Some(Null) then None else Get(lp, k)
  }

  /** The loadpoint_state row an imported loadpoint writes. */
  function SeededState(lp: Fields): Fields {
    var targets := map k | k in TARGETS && Given(lp, k).Some? :: Given(lp, k).value;
    targets["mode" := Or(Get(lp, "defaultMode"), Str("smart"))]
  }

  // ---------- names and values of any kind ----------

  function JoinWithCommas(texts: seq<string>): string {
    if texts == [] then "" else if |texts| == 1 then texts[0] else texts[0] + "," + JoinWithCommas(texts[1..])
  }

  /** `String(j)`: None where it throws, as it does for an object with a `toString` of its own. */
  function AsText(j: Json, numberText: real -> string): Option<string> {
    match j
    case Null => Some("null")
    case Bool(b) => Some(if b then "true" else "false")
    case Num(n) => Some(numberText(n))
    case Inf(positive) => Some(if positive then "Infinity" else "-Infinity")
    case Str(s) => Some(s)
    case Obj(f) => if "toString" in f then None else Some("[object Object]")
    case Arr(items) =>
      if forall i :: 0 <= i < |items| ==> items[i].Null? || AsText(items[i], numberText).Some? then
        Some(JoinWithCommas(seq(|items|, i requires 0 <= i < |items| =>
          if items[i].Null? then "" else AsText(items[i], numberText).value)))
      else
        None
  }

  /** What the database driver takes as a parameter. */
  predicate Bindable(o: Option<Json>) {
    o.None? || o.value.Null? || o.value.Num? || o.value.Inf? || o.value.Str?
  }

  /** A loadpoint entry of the document as it is handed to the upsert. */
  datatype LoadpointInit = LoadpointInit(name: string, fields: Fields) {
    predicate Binds() {
      forall k <- TARGETS + {"defaultMode"} :: Bindable(Get(fields, k))
    }
  }

  /** Entries without a name of their own are called "undefined". */
  function InitOf(host: Host, lp: Json): Option<LoadpointInit> {
    var fields := if lp.Obj? then lp.fields else map[];
    var name := if "name" in fields then AsText(fields["name"], host.numberText) else Some("undefined");
    if name.Some? then Some(LoadpointInit(name.value, fields)) else None
  }

  /** The mapping of all entries, which throws if one of them has no text for a name. */
  function Inits(host: Host, items: seq<Json>): Option<seq<LoadpointInit>> {
    if forall i :: 0 <= i < |items| ==> InitOf(host, items[i]).Some? then
      Some(seq(|items|, i requires 0 <= i < |items| => InitOf(host, items[i]).value))
    else
      None
  }

  /** The upsert accepts the entries up to the first that does not bind. */
  function Accepted(inits: seq<LoadpointInit>): (n: nat)
    ensures n <= |inits| && forall i :: 0 <= i < n ==> inits[i].Binds()
    ensures n < |inits| ==> !inits[n].Binds()
  {
    if inits == [] || !inits[0].Binds() then 0 else 1 + Accepted(inits[1..])
  }

  function Seed(runtimes: Runtimes, inits: seq<LoadpointInit>): Runtimes {
    if inits == [] then runtimes
    else
      var last := inits[|inits| - 1];
      Seed(runtimes, inits[..|inits| - 1])[last.name := SeededState(last.fields)]
  }

  function Items(doc: Fields, section: string): seq<Json> {
    match Get(doc, section)
    case Some(Arr(items)) => items
    case _ => []
  }

  function Member(doc: Fields, section: string, k: string): Option<Json> {
    match Get(doc, section)
    case Some(Obj(f)) => Get(f, k)
    case _ => None
  }

  datatype Mode = Merge | Replace

  /** Bad: the document does not pass. Torn: it throws with the overrides already written. */
  datatype Outcome = Bad | Checked | Torn(after: App) | Done(after: App)

  /** An entity entry that is null makes the import throw before it validates. */
  predicate NullEntity(doc: Fields) {
    exists kind <- ENTITIES :: Null in Items(doc, Section(kind))
  }

  predicate RetentionAccepted(days: Json) {
    days.Num? && days.n == days.n.Floor as real && 1 <= days.n.Floor <= 365
  }

  /** The retention setting an import writes; None leaves it alone. */
  function RetentionToSet(doc: Fields, mode: Mode): Option<Json> {
    var given := Member(doc, "logs", "retentionDays");
    if mode == Replace then Some(Or(given, Num(DEFAULT_RETENTION as real))) else given
  }

  function TimezoneToSet(schema: Kind -> Shape, doc: Fields, mode: Mode): Option<Json> {
    var given := Member(doc, "site", "timezone");
    if mode == Replace then
      Some(Or(given, Get(Defaults(schema).Single(Site).GetOr(map[]), "timezone").GetOr(Null)))
    else if given == Some(Null) || given == Some(Str("")) then None
    else given
  }

  predicate ZoneAccepted(validZone: string -> bool, zone: Json) {
    zone.Str? && validZone(zone.s)
  }

  function ImportBase(schema: Kind -> Shape, mode: Mode, cur: Config): Config {
    if mode == Replace then Defaults(schema) else cur
  }

  /** The overrides an import writes. */
  function ImportStore(app: App, mode: Mode, doc: Fields): Store {
    SetAll(if mode == Replace then map[] else app.store, DocRows(doc))
  }

  /** The loadpoint rows, written last. */
  function SeedLoadpoints(host: Host, kept: App, lps: seq<Json>): Outcome {
    match Inits(host, lps)
    case None => Torn(kept)
    case Some(inits) =>
      var n := Accepted(inits);
      var seeded := kept.(runtimes := Seed(kept.runtimes, inits[..n]));
      if n == |inits| then Done(seeded) else Torn(seeded)
  }

  /** The settings and loadpoint rows, written after the overrides. */
  function Settled(host: Host, written: App, zone: Option<Json>, days: Option<Json>, lps: seq<Json>): Outcome {
    if zone.Some? && !ZoneAccepted(host.validZone, zone.value) then Torn(written)
    else
      var zoned := if zone.Some? then written.(timezone := zone.value.s) else written;
      if days.Some? && !RetentionAccepted(days.value) then Torn(zoned)
      else SeedLoadpoints(host, if days.Some? then zoned.(retention := days.value.n.Floor) else zoned, lps)
  }

  function Written(app: App, mode: Mode, doc: Fields): App {
    app.(store := ImportStore(app, mode, doc), runtimes := if mode == Replace then map[] else app.runtimes)
  }

  predicate Passes(schema: Kind -> Shape, doc: Fields, mode: Mode, cur: Config) {
    !NullEntity(doc) && Validate(schema, ImportBase(schema, mode, cur), DocRows(doc)).Some?
  }

  /** `importConfig`. */
  function Import(host: Host, app: App, docIn: Fields, mode: Mode, cur: Config, dryRun: bool): Outcome {
    var doc := Restored(host.registry, cur, docIn);
    if !Passes(host.Schema(), doc, mode, cur) then Bad
    else if dryRun then Checked
    else
      Settled(host, Written(app, mode, doc), TimezoneToSet(host.Schema(), doc, mode), RetentionToSet(doc, mode),
              Items(doc, "loadpoints"))
  }

  method RowsOfEntities(kind: Kind, items: seq<Json>) returns (rows: seq<Row>)
    ensures rows == EntityRows(kind, items)
  {
    rows := [];
    for i := 0 to |items|
      invariant rows == EntityRows(kind, items[..i])
    {
      assert items[..i + 1][..i] == items[..i];
      var e := items[i];
      if e.Obj? && NameOf(e.fields).Str? && NameOf(e.fields).s != "" {
        rows := rows + [Row(Key(kind, NameOf(e.fields).s), e.fields - {"name"})];
      }
    }
    assert items[..|items|] == items;
  }

  /** `docToOverrideRows`: each section of the document in turn. */
  method DocToOverrideRows(doc: Fields) returns (rows: seq<Row>)
    ensures rows == DocRows(doc)
  {
    hide EntityRows, Section, KindName;
    rows := [];
    for i := 0 to |ORDER|
      invariant rows == RowsOf(doc, ORDER[..i])
    {
      var kind := ORDER[i];
      assert ORDER[..i + 1][..i] == ORDER[..i];
      if Section(kind) in doc && IsSingleton(kind) && doc[Section(kind)].Obj? {
        rows := rows + [Row(Key(kind, KindName(kind)), doc[Section(kind)].fields)];
      } else if Section(kind) in doc && !IsSingleton(kind) && doc[Section(kind)].Arr? {
        var more := RowsOfEntities(kind, doc[Section(kind)].items);
        rows := rows + more;
      } else {
        assert KindRows(doc, kind) == [];
      }
    }
    assert ORDER[..|ORDER|] == ORDER;
  }

  /** The tables an import writes. */
  class ConfigDb {
    const overrides: ConfigStore
    var runtimes: Runtimes
    var timezone: string
    var retention: int

    constructor (overrides: ConfigStore, timezone: string, retention: int)
      ensures this.overrides == overrides
      ensures State() == App(overrides.rows, map[], timezone, retention)
    {
      this.overrides, this.runtimes, this.timezone, this.retention := overrides, map[], timezone, retention;
    }

    ghost function State(): App
      reads this, overrides
    {
      App(overrides.rows, runtimes, timezone, retention)
    }

    method WriteRows(rows: seq<Row>)
      modifies overrides
      ensures overrides.rows == SetAll(old(overrides.rows), rows)
    {
      for i := 0 to |rows|
        invariant overrides.rows == SetAll(old(overrides.rows), rows[..i])
      {
        assert rows[..i + 1][..i] == rows[..i];
        overrides.SetOverride(rows[i].key.kind, rows[i].key.name, rows[i].patch);
      }
      assert rows[..|rows|] == rows;
    }

    /** `ok` is false where a value does not bind: what was written before stays. */
    method ApplyConfigToLoadpoints(inits: seq<LoadpointInit>) returns (ok: bool)
      modifies `runtimes
      ensures ok <==> Accepted(inits) == |inits|
      ensures runtimes == Seed(old(runtimes), inits[..Accepted(inits)])
    {
      for i := 0 to |inits|
        invariant i <= Accepted(inits)
        invariant runtimes == Seed(old(runtimes), inits[..i])
      {
        if !inits[i].Binds() {
          return false;
        }
        assert inits[..i + 1][..i] == inits[..i];
        runtimes := runtimes[inits[i].name := SeededState(inits[i].fields)];
      }
      ok := true;
    }

    /** The last part of `importConfig`: settings, then loadpoint rows. */
    method Settle(host: Host, zone: Option<Json>, days: Option<Json>, lps: seq<Json>) returns (ok: bool)
      modifies this
      ensures match Settled(host, old(State()), zone, days, lps)
        case Torn(after) => !ok && State() == after
        case Done(after) => ok && State() == after
        case _ => false
    {
      hide Seed, ZoneAccepted, RetentionAccepted, Inits;
      if zone.Some? {
        if !ZoneAccepted(host.validZone, zone.value) {
          return false;
        }
        ZoneIsText(host.validZone, zone.value);
        timezone := zone.value.s;
      }
      if days.Some? {
        if !RetentionAccepted(days.value) {
          return false;
        }
        DaysAreNumber(days.value);
        retention := days.value.n.Floor;
      }
      var inits := Inits(host, lps);
      if inits.None? {
        return false;
      }
      ok := ApplyConfigToLoadpoints(inits.value);
    }

    /** `importConfig`; `ok` is false where it throws. `listing` is what the table's SELECT returns. */
    method ImportConfig(host: Host, docIn: Fields, mode: Mode, cur: Config, dryRun: bool, listing: seq<Row>)
      returns (ok: bool)
      requires Lists(listing, overrides.rows)
      modifies this, overrides
      ensures match Import(host, old(State()), docIn, mode, cur, dryRun)
        case Bad => !ok && State() == old(State())
        case Checked => ok && State() == old(State())
        case Torn(after) => !ok && State() == after
        case Done(after) => ok && State() == after
    {
      hide SetAll, Restored, DocRows, Lists, TimezoneToSet, RetentionToSet, ConfigSchema, Passes, Settled, InBase;
      var schema := host.Schema();
      var doc := DeRedact(host.registry, docIn, cur);
      var rows := DocToOverrideRows(doc);
      if !Passes(schema, doc, mode, cur) {
        return false;
      }
      if dryRun {
        return true;
      }
      if mode == Replace {
        var _, _ := overrides.ApplyConfigOverrides(cur, true, listing);
        assert overrides.rows == map[];
        runtimes := map[];
      }
      WriteRows(rows);
      assert State() == Written(old(State()), mode, doc);
      ok := Settle(host, TimezoneToSet(schema, doc, mode), RetentionToSet(doc, mode), Items(doc, "loadpoints"));
    }
  }

  lemma ZoneIsText(validZone: string -> bool, zone: Json)
    requires ZoneAccepted(validZone, zone)
    ensures zone.Str?
  {
  }

  lemma DaysAreNumber(days: Json)
    requires RetentionAccepted(days)
    ensures days.Num?
  {
  }

  // ---------- the rows of a document, key by key ----------

  lemma {:induction false} CombinedAppend(a: seq<Row>, b: seq<Row>, key: Key)
    ensures Combined(a + b, key)
         == match Combined(b, key)
            case Some(q) => Some(Combined(a, key).GetOr(map[]) + q)
            case None => Combined(a, key)
  {
    if b == [] {
      assert a + b == a;
    } else {
      var front, last := b[..|b| - 1], b[|b| - 1];
      assert (a + b)[..|a + b| - 1] == a + front;
      CombinedAppend(a, front, key);
      var x := Combined(a, key).GetOr(map[]);
      assert (x + Combined(front, key).GetOr(map[])) + last.patch
          == x + (Combined(front, key).GetOr(map[]) + last.patch);
      assert x + map[] == x;
    }
  }

  lemma {:induction false} EntityRowsOfKind(kind: Kind, items: seq<Json>)
    requires !IsSingleton(kind)
    ensures forall i :: 0 <= i < |EntityRows(kind, items)| ==>
      EntityRows(kind, items)[i].key.kind == kind && GoodRow(EntityRows(kind, items)[i])
  {
    if items != [] {
      EntityRowsOfKind(kind, items[..|items| - 1]);
    }
  }

  lemma KindRowsOfKind(doc: Fields, kind: Kind)
    ensures forall i :: 0 <= i < |KindRows(doc, kind)| ==>
      KindRows(doc, kind)[i].key.kind == kind && GoodRow(KindRows(doc, kind)[i])
  {
    hide Section, KindName;
    if !IsSingleton(kind) {
      EntityRowsOfKind(kind, Items(doc, Section(kind)));
    }
  }

  lemma {:induction false} NoneOfKind(rows: seq<Row>, key: Key)
    requires forall i :: 0 <= i < |rows| ==> rows[i].key.kind != key.kind
    ensures Combined(rows, key).None?
  {
    if rows != [] {
      NoneOfKind(rows[..|rows| - 1], key);
    }
  }

  predicate Distinct(kinds: seq<Kind>) {
    forall i, j :: 0 <= i < j < |kinds| ==> kinds[i] != kinds[j]
  }

  lemma {:induction false} RowsByKind(doc: Fields, kinds: seq<Kind>, key: Key)
    requires Distinct(kinds)
    ensures Combined(RowsOf(doc, kinds), key)
         == if key.kind in kinds then Combined(KindRows(doc, key.kind), key) else None
  {
    hide KindRows, Combined;
    if kinds != [] {
      var front, last := kinds[..|kinds| - 1], kinds[|kinds| - 1];
      RowsByKind(doc, front, key);
      CombinedAppend(RowsOf(doc, front), KindRows(doc, last), key);
      KindRowsOfKind(doc, last);
      if last == key.kind {
        assert key.kind !in front;
        if Combined(KindRows(doc, last), key).Some? {
          assert map[] + Combined(KindRows(doc, last), key).value == Combined(KindRows(doc, last), key).value;
        }
      } else {
        NoneOfKind(KindRows(doc, last), key);
      }
    } else {
      NoneOfKind([], key);
    }
  }

  lemma {:induction false} RowsAreGood(doc: Fields, kinds: seq<Kind>)
    ensures GoodRows(RowsOf(doc, kinds))
  {
    hide KindRows, GoodRow;
    if kinds != [] {
      RowsAreGood(doc, kinds[..|kinds| - 1]);
      KindRowsOfKind(doc, kinds[|kinds| - 1]);
    }
  }

  lemma DocRowsByKey(doc: Fields, key: Key)
    ensures Combined(DocRows(doc), key) == Combined(KindRows(doc, key.kind), key)
    ensures GoodRows(DocRows(doc))
  {
    hide *;
    hide KindRows, Combined, RowsOf;
    OrderIsAllKinds(key.kind);
    RowsByKind(doc, ORDER, key);
    RowsAreGood(doc, ORDER);
    DocRowsIs(doc);
  }

  lemma OrderIsAllKinds(kind: Kind)
    ensures Distinct(ORDER) && kind in ORDER
  {
    assert ORDER[0] == Site && ORDER[1] == SmartCharging && ORDER[2] == MqttBridge && ORDER[3] == Tariff
        && ORDER[4] == Balancer && ORDER[5] == Vehicle && ORDER[6] == Charger && ORDER[7] == MeterReader
        && ORDER[8] == Loadpoint;
  }

  lemma DocRowsIs(doc: Fields)
    ensures DocRows(doc) == RowsOf(doc, ORDER)
  {
  }

  // ---------- the defaults ----------

  lemma WindowDefaults(startHour: real, endHour: real)
    requires 0.0 <= startHour <= 23.0 && startHour.Floor as real == startHour
    requires 0.0 <= endHour <= 23.0 && endHour.Floor as real == endHour
    ensures Accept(HourWindow(startHour, endHour), Obj(map[])).Some?
  {
    var shape := HourWindow(startHour, endHour).shape;
    forall k | k in shape.fields ensures At(shape, map[], k).Some? {
      assert Accept(Whole(0.0, 23.0), if k == "startHour" then Num(startHour) else Num(endHour)).Some?;
    }
    ParseAt(shape, map[]);
  }

  lemma SiteDefaults(validZone: string -> bool)
    requires validZone("Europe/Stockholm")
    ensures Parse(SiteShape(validZone), map[]).Some?
    ensures Get(Parse(SiteShape(validZone), map[]).value, "timezone") == Some(Str("Europe/Stockholm"))
  {
    var shape := SiteShape(validZone);
    ParseAt(shape, map[]);
    assert Accept(Text(validZone), Str("Europe/Stockholm")) == Some(Str("Europe/Stockholm"));
    assert At(shape, map[], "timezone") == Some(Some(Str("Europe/Stockholm")));
    assert Accept(TEXT, Str("OpenSmartCharge")).Some? && Accept(NUMBER, Num(8080.0)).Some?;
    forall k | k in shape.fields ensures At(shape, map[], k).Some? {
    }
  }

  lemma SmartChargingDefaults()
    ensures Parse(SMART_CHARGING_SHAPE, map[]).Some?
  {
    hide Parse, HourWindow;
    WindowDefaults(23.0, 5.0);
    WindowDefaults(6.0, 22.0);
    assert Accept(Whole(1.0, 30.0), Num(3.0)).Some?;
    var s := SMART_CHARGING_SHAPE;
    forall k | k in s.fields ensures s.fields[k].Defaulted? && Accept(s.fields[k].t, s.fields[k].value).Some? {
    }
    AllDefaulted(s);
  }

  lemma AllDefaulted(s: Shape)
    requires forall k <- s.fields :: s.fields[k].Defaulted? && Accept(s.fields[k].t, s.fields[k].value).Some?
    ensures Parse(s, map[]).Some?
  {
    hide Accept, Parse;
    ParseAt(s, map[]);
  }

  lemma EmptyParses(schema: Kind -> Shape)
    requires Parse(schema(Site), map[]).Some? && Parse(schema(SmartCharging), map[]).Some?
    ensures ParseConfig(schema, EMPTY) == Some(Defaults(schema))
    ensures ParseConfig(schema, Defaults(schema)) == Some(Defaults(schema))
    ensures forall kind :: Defaults(schema).List(kind) == []
    ensures Defaults(schema).Single(Site) == Parse(schema(Site), map[])
    ensures Defaults(schema).Single(SmartCharging) == Parse(schema(SmartCharging), map[])
    ensures Defaults(schema).Single(MqttBridge).None?
  {
    hide Parse;
    ParseTwice(schema(Site), map[]);
    ParseTwice(schema(SmartCharging), map[]);
    var d := Defaults(schema);
    assert ParseConfig(schema, EMPTY).Some?;
    assert ParseConfig(schema, d).Some?;
    var e := ParseConfig(schema, d).value;
    assert e.singles == d.singles;
    assert e.entities == d.entities;
  }

  /** `configSchema.parse({})` succeeds, has no entities, and parses to itself. */
  lemma DefaultsParse(validZone: string -> bool)
    requires validZone("Europe/Stockholm")
    ensures var schema := ConfigSchema(validZone);
      && ParseConfig(schema, EMPTY) == Some(Defaults(schema))
      && ParseConfig(schema, Defaults(schema)) == Some(Defaults(schema))
      && (forall kind :: Defaults(schema).List(kind) == [])
      && Defaults(schema).Single(Site) == Parse(SiteShape(validZone), map[])
      && Defaults(schema).Single(SmartCharging) == Parse(SMART_CHARGING_SHAPE, map[])
      && Defaults(schema).Single(MqttBridge).None?
  {
    hide *;
    SiteDefaults(validZone);
    SmartChargingDefaults();
    SingletonShapes(validZone);
    EmptyParses(ConfigSchema(validZone));
  }

  lemma SingletonShapes(validZone: string -> bool)
    ensures ConfigSchema(validZone)(Site) == SiteShape(validZone)
    ensures ConfigSchema(validZone)(SmartCharging) == SMART_CHARGING_SHAPE
  {
  }

  // ---------- what an import leaves behind ----------

  /**
   * What the import writes boots only if it validated, and then as the
   * validated candidate exactly if the document puts no infinite number where
   * the schema would keep it.
   */
  lemma ImportIsSound(validZone: string -> bool, app: App, listing: seq<Row>, doc: Fields, mode: Mode, cur: Config,
                      after: seq<Row>)
    requires validZone("Europe/Stockholm")
    requires Lists(listing, app.store)
    requires mode == Merge ==> GoodStore(app.store)
    requires mode == Merge ==>
      Effective(ConfigSchema(validZone), Defaults(ConfigSchema(validZone)), listing) == Some(cur)
    requires Lists(after, ImportStore(app, mode, doc))
    ensures GoodStore(ImportStore(app, mode, doc))
    ensures var schema := ConfigSchema(validZone);
      var candidate := Validate(schema, ImportBase(schema, mode, cur), DocRows(doc));
      var boot := Effective(schema, Defaults(schema), after);
      && (boot.Some? ==> candidate.Some?)
      && (candidate.Some? ==>
            (boot.Some? && SameUpToOrder(candidate.value, boot.value) <==> KeepsFinite(schema, DocRows(doc))))
  {
    hide *;
    hide ImportStore, ImportBase;
    var schema := ConfigSchema(validZone);
    var base := Defaults(schema);
    ConfigSchemaNamesEntities(validZone);
    DefaultsParse(validZone);
    NoNames(base);
    DocRowsByKey(doc, Key(Site, "site"));
    if mode == Replace {
      ImportReplaces(schema, app, doc, cur);
      EmptyLists();
      EffectiveIs(schema, base, []);
      NoLayer(base);
      SetAllStaysGood(map[], DocRows(doc));
      ValidateThenPersist(schema, base, map[], [], DocRows(doc), after);
    } else {
      ImportMerges(schema, app, doc, cur);
      SetAllStaysGood(app.store, DocRows(doc));
      ValidateThenPersist(schema, base, app.store, listing, DocRows(doc), after);
    }
  }

  lemma NoNames(c: Config)
    requires forall kind :: c.List(kind) == []
    ensures AllWellNamed(c)
  {
  }

  lemma ImportReplaces(schema: Kind -> Shape, app: App, doc: Fields, cur: Config)
    ensures ImportStore(app, Replace, doc) == SetAll(map[], DocRows(doc))
    ensures ImportBase(schema, Replace, cur) == Defaults(schema)
  {
  }

  lemma ImportMerges(schema: Kind -> Shape, app: App, doc: Fields, cur: Config)
    ensures ImportStore(app, Merge, doc) == SetAll(app.store, DocRows(doc))
    ensures ImportBase(schema, Merge, cur) == cur
  {
  }

  lemma EmptyLists()
    ensures Lists([], map[]) && GoodStore(map[])
  {
  }

  lemma NoLayer(d: Config)
    ensures Layer(d, []) == d
  {
  }

  const SITE_KEY := Key(Site, "site")

  lemma SiteRow(doc: Fields)
    requires "site" in doc && doc["site"].Obj?
    ensures Combined(DocRows(doc), SITE_KEY) == Some(doc["site"].fields)
    ensures GoodRows(DocRows(doc)) && Canonical(SITE_KEY)
  {
    hide DocRows;
    DocRowsByKey(doc, SITE_KEY);
    var rows := KindRows(doc, Site);
    assert rows == [Row(SITE_KEY, doc["site"].fields)];
    assert rows[..0] == [];
    assert map[] + doc["site"].fields == doc["site"].fields;
  }

  lemma ZoneChecked(validZone: string -> bool, site: Fields)
    requires Parse(SiteShape(validZone), site).Some? && "timezone" in site
    ensures ZoneAccepted(validZone, site["timezone"])
  {
    hide Parse;
    var shape := SiteShape(validZone);
    ParseAt(shape, site);
    assert At(shape, site, "timezone").Some?;
    assert Fill(shape.fields["timezone"], Some(site["timezone"])).Some?;
    assert shape.fields["timezone"].t == Text(validZone);
    assert Accept(Text(validZone), site["timezone"]).Some?;
  }

  /** In a document that validates, the site section has been checked, on top of what was there. */
  lemma ValidatedSite(schema: Kind -> Shape, from: Config, doc: Fields) returns (site: Fields)
    requires NamedEntities(schema) && Validate(schema, from, DocRows(doc)).Some?
    requires "site" in doc && doc["site"].Obj?
    ensures Parse(schema(Site), site).Some?
    ensures forall k :: k in doc["site"].fields ==> k in site && site[k] == doc["site"].fields[k]
  {
    hide Parse, ParseConfig, Combined, DocRows, Layer, Lookup, NamedEntities, GoodRows;
    SiteRow(doc);
    LayerByKey(from, DocRows(doc), SITE_KEY);
    ParsedLookup(schema, Layer(from, DocRows(doc)), SITE_KEY);
    site := Lookup(Layer(from, DocRows(doc)), SITE_KEY).value;
  }

  /** A document that validates carries an acceptable timezone. */
  lemma ValidatedZone(validZone: string -> bool, doc: Fields, mode: Mode, cur: Config)
    requires validZone("Europe/Stockholm")
    requires Validate(ConfigSchema(validZone), ImportBase(ConfigSchema(validZone), mode, cur), DocRows(doc)).Some?
    ensures var zone := TimezoneToSet(ConfigSchema(validZone), doc, mode);
      zone.Some? ==> ZoneAccepted(validZone, zone.value)
  {
    hide Validate, Parse, ParseConfig, DocRows, ConfigSchema, SiteShape, Defaults;
    var schema := ConfigSchema(validZone);
    DefaultsParse(validZone);
    SiteDefaults(validZone);
    if Member(doc, "site", "timezone").Some? {
      ConfigSchemaNamesEntities(validZone);
      var site := ValidatedSite(schema, ImportBase(schema, mode, cur), doc);
      SingletonShapes(validZone);
      ZoneChecked(validZone, site);
    }
  }
}
