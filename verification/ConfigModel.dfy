/** The configuration, its sections and the schema of each: src/core/config.ts. */
module ConfigModel {
  import opened Prelude
  import opened Schema

  datatype Kind = Site | SmartCharging | MqttBridge | Tariff | Balancer | Vehicle | Charger | MeterReader | Loadpoint

  const SINGLETONS := {Site, SmartCharging, MqttBridge}
  const ENTITIES := {Tariff, Balancer, Vehicle, Charger, MeterReader, Loadpoint}

  predicate IsSingleton(kind: Kind) {
    kind == Site || kind == SmartCharging || kind == MqttBridge
  }

  function KindName(kind: Kind): string {
    match kind
    case Site => "site"
    case SmartCharging => "smartCharging"
    case MqttBridge => "mqttBridge"
    case Tariff => "tariff"
    case Balancer => "balancer"
    case Vehicle => "vehicle"
    case Charger => "charger"
    case MeterReader => "meterReader"
    case Loadpoint => "loadpoint"
  }

  /** One object per singleton section, one array per kind of entity. */
  datatype Config = Config(singles: map<Kind, Fields>, entities: map<Kind, seq<Fields>>) {
    function Single(kind: Kind): Option<Fields> {
      if kind in singles then Some(singles[kind]) else None
    }

    function List(kind: Kind): seq<Fields> {
      if kind in entities then entities[kind] else []
    }
  }

  const EMPTY := Config(map[], map[])

  // ---------- entities by name ----------

  function NameOf(e: Fields): Json {
    if "name" in e then e["name"] else Null
  }

  /** `arr.find((e) => e.name === name)`. */
  function Find(arr: seq<Fields>, name: string): (r: Option<Fields>)
    ensures r.Some? ==> r.value in arr && NameOf(r.value) == Str(name)
    ensures r.None? ==> forall e :: e in arr ==> NameOf(e) != Str(name)
  {
    if arr == [] then None
    else if NameOf(arr[0]) == Str(name) then Some(arr[0])
    else Find(arr[1..], name)
  }

  /** Every element has a name and no two share one. */
  ghost predicate WellNamed(arr: seq<Fields>) {
    && (forall i :: 0 <= i < |arr| ==> NameOf(arr[i]).Str?)
    && (forall i, j :: 0 <= i < j < |arr| ==> NameOf(arr[i]) != NameOf(arr[j]))
  }

  lemma {:induction false} FindMember(arr: seq<Fields>, i: nat)
    requires WellNamed(arr) && i < |arr|
    ensures Find(arr, NameOf(arr[i]).s) == Some(arr[i])
  {
    if i > 0 {
      assert arr[1..][i - 1] == arr[i];
      FindMember(arr[1..], i - 1);
    }
  }

  lemma {:induction false} CountByName(arr: seq<Fields>, e: Fields)
    requires WellNamed(arr)
    ensures multiset(arr)[e] == if NameOf(e).Str? && Find(arr, NameOf(e).s) == Some(e) then 1 else 0
  {
    if arr != [] {
      assert arr == [arr[0]] + arr[1..];
      CountByName(arr[1..], e);
      if NameOf(e).Str? && NameOf(arr[0]) == NameOf(e) {
        assert Find(arr[1..], NameOf(e).s).None?;
      }
    }
  }

  /** Well-named arrays with the same entity under every name differ in order only. */
  lemma SameNamesSameBag(a: seq<Fields>, b: seq<Fields>)
    requires WellNamed(a) && WellNamed(b)
    requires forall name :: Find(a, name) == Find(b, name)
    ensures multiset(a) == multiset(b)
  {
    forall e ensures multiset(a)[e] == multiset(b)[e] {
      CountByName(a, e);
      CountByName(b, e);
    }
  }

  // ---------- parsing ----------

  /** A section that may be missing: `.default({})` fills it in, `.optional()` leaves it out. */
  function ParseSlot(schema: Kind -> Shape, kind: Kind, o: Option<Fields>): Option<Option<Fields>> {
    match o
    case Some(f) => (match Parse(schema(kind), f) case Some(g) => Some(Some(g)) case None => None)
    case None =>
      if kind == Site || kind == SmartCharging then
        (match Parse(schema(kind), map[]) case Some(g) => Some(Some(g)) case None => None)
      else
        Some(None)
  }

  function ParseAll(shape: Shape, arr: seq<Fields>): Option<seq<Fields>> {
    if arr == [] then Some([])
    else
      match (Parse(shape, arr[0]), ParseAll(shape, arr[1..]))
      case (Some(e), Some(rest)) => Some([e] + rest)
      case _ => None
  }

  /** `configSchema.parse(draft)`: None where it throws. */
  function ParseConfig(schema: Kind -> Shape, d: Config): Option<Config> {
    if && (forall kind <- SINGLETONS :: ParseSlot(schema, kind, d.Single(kind)).Some?)
       && (forall kind <- ENTITIES :: ParseAll(schema(kind), d.List(kind)).Some?)
    then
      Some(Config(
        map kind | kind in SINGLETONS && ParseSlot(schema, kind, d.Single(kind)).value.Some?
          :: ParseSlot(schema, kind, d.Single(kind)).value.value,
        map kind | kind in ENTITIES :: ParseAll(schema(kind), d.List(kind)).value))
    else
      None
  }

  /** Entity schemas demand a text `name`, so parsing never renames. */
  ghost predicate KeepsNames(shape: Shape) {
    && "name" in shape.fields
    && shape.fields["name"].Required?
    && shape.fields["name"].t.Text?
  }

  ghost predicate NamedEntities(schema: Kind -> Shape) {
    forall kind :: kind in ENTITIES ==> KeepsNames(schema(kind))
  }

  lemma ParseKeepsName(shape: Shape, e: Fields)
    requires KeepsNames(shape) && Parse(shape, e).Some?
    ensures NameOf(Parse(shape, e).value) == NameOf(e)
    ensures NameOf(e).Str?
  {
    ParseAt(shape, e);
    var f := shape.fields["name"];
    assert Fill(f, Get(e, "name")) == Some(Get(Parse(shape, e).value, "name"));
    assert "name" in e && Accept(f.t, e["name"]).Some?;
  }

  lemma {:induction false} ParsedElements(shape: Shape, arr: seq<Fields>)
    ensures ParseAll(shape, arr).Some? <==> forall i :: 0 <= i < |arr| ==> Parse(shape, arr[i]).Some?
    ensures ParseAll(shape, arr).Some? ==>
      && |ParseAll(shape, arr).value| == |arr|
      && forall i :: 0 <= i < |arr| ==> Parse(shape, arr[i]) == Some(ParseAll(shape, arr).value[i])
  {
    hide Parse;
    if arr != [] {
      ParsedElements(shape, arr[1..]);
      assert forall i :: 0 < i < |arr| ==> arr[i] == arr[1..][i - 1];
      if forall i :: 0 <= i < |arr| ==> Parse(shape, arr[i]).Some? {
        assert forall i :: 0 <= i < |arr[1..]| ==> arr[1..][i] == arr[i + 1];
      }
    }
  }

  lemma {:induction false} ParsedByName(shape: Shape, arr: seq<Fields>, name: string)
    requires KeepsNames(shape) && ParseAll(shape, arr).Some?
    ensures Find(ParseAll(shape, arr).value, name)
         == match Find(arr, name) case Some(e) => Parse(shape, e) case None => None
  {
    hide Parse;
    if arr != [] {
      ParseKeepsName(shape, arr[0]);
      ParsedByName(shape, arr[1..], name);
    }
  }

  lemma ParsedStaysWellNamed(shape: Shape, arr: seq<Fields>)
    requires KeepsNames(shape) && ParseAll(shape, arr).Some? && WellNamed(arr)
    ensures WellNamed(ParseAll(shape, arr).value)
  {
    hide Parse;
    ParsedElements(shape, arr);
    forall i | 0 <= i < |arr| ensures NameOf(ParseAll(shape, arr).value[i]) == NameOf(arr[i]) {
      ParseKeepsName(shape, arr[i]);
    }
  }

  // ---------- a configuration as a map from keys ----------

  datatype Key = Key(kind: Kind, name: string)

  /** A singleton's row is stored under the kind's own name. */
  predicate Canonical(key: Key) {
    IsSingleton(key.kind) ==> key.name == KindName(key.kind)
  }

  function Lookup(c: Config, key: Key): Option<Fields> {
    if IsSingleton(key.kind) then c.Single(key.kind) else Find(c.List(key.kind), key.name)
  }

  ghost predicate AllWellNamed(c: Config) {
    forall kind :: WellNamed(c.List(kind))
  }

  ghost predicate SameUpToOrder(a: Config, b: Config) {
    && (forall kind :: kind in SINGLETONS ==> a.Single(kind) == b.Single(kind))
    && (forall kind :: kind in ENTITIES ==> multiset(a.List(kind)) == multiset(b.List(kind)))
  }

  lemma ParsedLookup(schema: Kind -> Shape, d: Config, key: Key)
    requires NamedEntities(schema) && ParseConfig(schema, d).Some?
    ensures ParseSlot(schema, key.kind, Lookup(d, key)) == Some(Lookup(ParseConfig(schema, d).value, key))
  {
    hide Parse, ParseAll;
    if IsSingleton(key.kind) {
      assert key.kind in SINGLETONS;
    } else {
      assert key.kind in ENTITIES;
      ParsedByName(schema(key.kind), d.List(key.kind), key.name);
      ParsedElements(schema(key.kind), d.List(key.kind));
    }
  }

  lemma ParsedConfigWellNamed(schema: Kind -> Shape, d: Config)
    requires NamedEntities(schema) && ParseConfig(schema, d).Some? && AllWellNamed(d)
    ensures AllWellNamed(ParseConfig(schema, d).value)
  {
    hide Parse, ParseAll;
    var c := ParseConfig(schema, d).value;
    forall kind ensures WellNamed(c.List(kind)) {
      if kind in ENTITIES {
        ParsedStaysWellNamed(schema(kind), d.List(kind));
      }
    }
  }

  /** A draft parses exactly when everything under every key does. */
  lemma ParsesByKey(schema: Kind -> Shape, d: Config)
    requires NamedEntities(schema) && AllWellNamed(d)
    ensures ParseConfig(schema, d).Some?
       <==> forall key :: Canonical(key) ==> ParseSlot(schema, key.kind, Lookup(d, key)).Some?
  {
    hide Parse, ParseAll, WellNamed;
    if ParseConfig(schema, d).Some? {
      forall key | Canonical(key) ensures ParseSlot(schema, key.kind, Lookup(d, key)).Some? {
        ParsedLookup(schema, d, key);
      }
    }
    if forall key :: Canonical(key) ==> ParseSlot(schema, key.kind, Lookup(d, key)).Some? {
      forall kind | kind in SINGLETONS ensures ParseSlot(schema, kind, d.Single(kind)).Some? {
        assert Lookup(d, Key(kind, KindName(kind))) == d.Single(kind);
      }
      forall kind | kind in ENTITIES ensures ParseAll(schema(kind), d.List(kind)).Some? {
        ParsedElements(schema(kind), d.List(kind));
        forall i | 0 <= i < |d.List(kind)| ensures Parse(schema(kind), d.List(kind)[i]).Some? {
          MemberUnderItsKey(d, kind, i);
        }
      }
    }
  }

  lemma MemberUnderItsKey(d: Config, kind: Kind, i: nat)
    requires kind in ENTITIES && WellNamed(d.List(kind)) && i < |d.List(kind)|
    ensures NameOf(d.List(kind)[i]).Str?
    ensures Lookup(d, Key(kind, NameOf(d.List(kind)[i]).s)) == Some(d.List(kind)[i])
    ensures Canonical(Key(kind, NameOf(d.List(kind)[i]).s))
  {
    FindMember(d.List(kind), i);
  }

  /** Drafts that agree under every key parse alike, up to the order of the entity arrays. */
  lemma SameSlotsSameConfig(schema: Kind -> Shape, a: Config, b: Config)
    requires NamedEntities(schema) && AllWellNamed(a) && AllWellNamed(b)
    requires forall key :: Canonical(key) ==>
      ParseSlot(schema, key.kind, Lookup(a, key)) == ParseSlot(schema, key.kind, Lookup(b, key))
    ensures ParseConfig(schema, a).Some? <==> ParseConfig(schema, b).Some?
    ensures ParseConfig(schema, a).Some? ==>
      SameUpToOrder(ParseConfig(schema, a).value, ParseConfig(schema, b).value)
  {
    hide Parse, ParseAll, ParseConfig, WellNamed;
    ParsesByKey(schema, a);
    ParsesByKey(schema, b);
    if ParseConfig(schema, a).Some? {
      var ca, cb := ParseConfig(schema, a).value, ParseConfig(schema, b).value;
      ParsedConfigWellNamed(schema, a);
      ParsedConfigWellNamed(schema, b);
      forall key | Canonical(key) ensures Lookup(ca, key) == Lookup(cb, key) {
        ParsedLookup(schema, a, key);
        ParsedLookup(schema, b, key);
      }
      SameLookupsSameConfig(ca, cb);
    }
  }

  lemma SameLookupsSameConfig(a: Config, b: Config)
    requires AllWellNamed(a) && AllWellNamed(b)
    requires forall key :: Canonical(key) ==> Lookup(a, key) == Lookup(b, key)
    ensures SameUpToOrder(a, b)
  {
    hide WellNamed;
    forall kind | kind in SINGLETONS ensures a.Single(kind) == b.Single(kind) {
      assert Lookup(a, Key(kind, KindName(kind))) == Lookup(b, Key(kind, KindName(kind)));
    }
    forall kind | kind in ENTITIES ensures multiset(a.List(kind)) == multiset(b.List(kind)) {
      forall name ensures Find(a.List(kind), name) == Find(b.List(kind), name) {
        assert Lookup(a, Key(kind, name)) == Lookup(b, Key(kind, name));
      }
      SameNamesSameBag(a.List(kind), b.List(kind));
    }
  }

  // ---------- the schema itself ----------

  const TEXT := Text(s => true)
  const NUMBER := Number(r => true, positive => true)

  function AtLeast(lo: real): Type {
    Number(r => r >= lo, positive => positive)
  }

  function Between(lo: real, hi: real): Type {
    Number(r => lo <= r <= hi, positive => false)
  }

  function Whole(lo: real, hi: real): Type {
    Number(r => lo <= r <= hi && r.Floor as real == r, positive => false)
  }

  predicate IsDigit(c: char) {
    '0' <= c <= '9'
  }

  predicate IsHourMinute(s: string) {
    |s| == 5 && IsDigit(s[0]) && IsDigit(s[1]) && s[2] == ':' && IsDigit(s[3]) && IsDigit(s[4])
  }

  const MODES := {"disabled", "smart", "fast"}

  function HourWindow(startHour: real, endHour: real): Type {
    Record(Shape(map[
      "startHour" := Defaulted(Whole(0.0, 23.0), Num(startHour)),
      "endHour" := Defaulted(Whole(0.0, 23.0), Num(endHour))
    ], false))
  }

  function SiteShape(validZone: string -> bool): Shape {
    Shape(map[
      "name" := Defaulted(TEXT, Str("OpenSmartCharge")),
      "port" := Defaulted(NUMBER, Num(8080.0)),
      "mainBreakerA" := Optional(Number(r => r > 0.0, positive => positive)),
      "timezone" := Defaulted(Text(validZone), Str("Europe/Stockholm"))
    ], false)
  }

  const SMART_CHARGING_SHAPE := Shape(map[
    "controlIntervalSec" := Defaulted(Between(5.0, 60.0), Num(30.0)),
    "deadbandA" := Defaulted(AtLeast(0.0), Num(1.0)),
    "nightWindow" := Defaulted(HourWindow(23.0, 5.0), Obj(map[])),
    "nightMarginA" := Defaulted(AtLeast(0.0), Num(3.0)),
    "daytimeFraction" := Defaulted(Between(0.0, 1.0), Num(0.5)),
    "reserveA" := Defaulted(AtLeast(0.0), Num(1.0)),
    "historicalDays" := Defaulted(Whole(1.0, 30.0), Num(3.0)),
    "vehiclePollIntervalSec" := Defaulted(Between(300.0, 3600.0), Num(900.0)),
    "vehicleIdlePollIntervalSec" := Defaulted(Between(60.0, 1800.0), Num(600.0)),
    "vehicleIdlePollDayWindow" := Defaulted(HourWindow(6.0, 22.0), Obj(map[])),
    "chargingEfficiency" := Defaulted(Between(0.5, 1.0), Num(0.92))
  ], false)

  const BROKER_SHAPE := Shape(map[
    "host" := Required(TEXT),
    "port" := Defaulted(NUMBER, Num(1883.0)),
    "user" := Optional(TEXT),
    "password" := Optional(TEXT)
  ], false)

  const MQTT_BRIDGE_SHAPE := Shape(map[
    "broker" := Required(Record(BROKER_SHAPE)),
    "topicPrefix" := Defaulted(TEXT, Str("osc")),
    "homeAssistantDiscovery" := Defaulted(Flag, Bool(true))
  ], false)

  const NAMED_MODULE_SHAPE := Shape(map["name" := Required(TEXT), "type" := Required(TEXT)], true)

  const BALANCER_SHAPE := Shape(map[
    "name" := Required(TEXT),
    "type" := Required(TEXT),
    "mainBreakerA" := Required(NUMBER),
    "phases" := Defaulted(Whole(1.0, 3.0), Num(3.0)),
    "meterTopicPrefix" := Optional(TEXT),
    "meterReader" := Optional(TEXT),
    "nightMarginA" := Optional(AtLeast(0.0)),
    "daytimeFraction" := Optional(Between(0.0, 1.0)),
    "reserveA" := Optional(AtLeast(0.0)),
    "safeStaticCurrentA" := Optional(NUMBER),
    "meterStaleAfterSec" := Optional(NUMBER),
    "intervalSec" := Optional(NUMBER)
  ], true)

  const MODE_TYPE := Text(s => s in MODES)
  const PERCENT := Between(0.0, 100.0)
  const KWH := Between(1.0, 100.0)
  const HOUR_MINUTE := Text(IsHourMinute)

  const LOADPOINT_SHAPE := Shape(map[
    "name" := Required(TEXT),
    "charger" := Required(TEXT),
    "vehicle" := Optional(TEXT),
    "tariff" := Optional(TEXT),
    "balancer" := Optional(TEXT),
    "defaultMode" := Defaulted(MODE_TYPE, Str("smart")),
    "autoRevertToSmart" := Defaulted(Flag, Bool(true)),
    "targetSoc" := Optional(PERCENT),
    "targetTime" := Optional(HOUR_MINUTE),
    "targetKWh" := Optional(KWH),
    "minSoc" := Optional(PERCENT)
  ], false)

  /** `configSchema`, for a given `isValidTimeZone`. */
  function ConfigSchema(validZone: string -> bool): Kind -> Shape {
    (kind: Kind) =>
      match kind
      case Site => SiteShape(validZone)
      case SmartCharging => SMART_CHARGING_SHAPE
      case MqttBridge => MQTT_BRIDGE_SHAPE
      case Balancer => BALANCER_SHAPE
      case Loadpoint => LOADPOINT_SHAPE
      case _ => NAMED_MODULE_SHAPE
  }

  lemma ConfigSchemaNamesEntities(validZone: string -> bool)
    ensures NamedEntities(ConfigSchema(validZone))
  {
    hide KeepsNames, NAMED_MODULE_SHAPE, BALANCER_SHAPE, LOADPOINT_SHAPE, ConfigSchema;
    ModulesKeepNames();
    BalancersKeepNames();
    LoadpointsKeepNames();
    EntityShapes(validZone);
  }

  lemma ModulesKeepNames()
    ensures KeepsNames(NAMED_MODULE_SHAPE)
  {
  }

  lemma BalancersKeepNames()
    ensures KeepsNames(BALANCER_SHAPE)
  {
  }

  lemma LoadpointsKeepNames()
    ensures KeepsNames(LOADPOINT_SHAPE)
  {
  }

  lemma EntityShapes(validZone: string -> bool)
    ensures forall kind :: kind in ENTITIES ==>
      ConfigSchema(validZone)(kind) == if kind == Balancer then BALANCER_SHAPE
        else if kind == Loadpoint then LOADPOINT_SHAPE else NAMED_MODULE_SHAPE
  {
    hide NAMED_MODULE_SHAPE, BALANCER_SHAPE, LOADPOINT_SHAPE;
  }
}
