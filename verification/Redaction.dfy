/** Hiding credentials in an exported document and restoring them on import: src/core/config-io.ts. */
module Redaction {
  import opened Prelude
  import opened Schema
  import opened ConfigModel

  const PLACEHOLDER := "\U{2022}\U{2022}\U{2022}\U{2022}\U{2022}\U{2022}"
  const REDACTED := Str(PLACEHOLDER)

  /** The secret fields each registered vehicle module declares. */
  type Registry = map<string, set<string>>

  function TypeOf(v: Fields): Json {
    if "type" in v then v["type"] else Null
  }

  function SecretKeys(registry: Registry, kind: Json): set<string> {
    if kind.Str? && kind.s in registry && registry[kind.s] != {} then registry[kind.s] else {"password"}
  }

  /** No module declares a vehicle's name or type secret. */
  predicate PublicIdentity(registry: Registry) {
    forall kind <- registry :: "name" !in registry[kind] && "type" !in registry[kind]
  }

  // ---------- redacting ----------

  /** `redactPasswords`. */
  function Redact(j: Json): Json {
    match j
    case Arr(items) => Arr(seq(|items|, i requires 0 <= i < |items| => Redact(items[i])))
    case Obj(f) => Obj(map k | k in f :: if k == "password" then REDACTED else Redact(f[k]))
    case _ => j
  }

  function RedactFields(f: Fields): Fields {
    map k | k in f :: if k == "password" then REDACTED else Redact(f[k])
  }

  function Hide(f: Fields, keys: set<string>): Fields {
    map k | k in f :: if k in keys then REDACTED else f[k]
  }

  function HideVehicle(registry: Registry, v: Json): Json {
    if v.Obj? then Obj(Hide(v.fields, SecretKeys(registry, TypeOf(v.fields)))) else v
  }

  function EachItem(items: seq<Json>, f: Json -> Json): (r: seq<Json>)
    ensures |r| == |items| && forall i :: 0 <= i < |items| ==> r[i] == f(items[i])
  {
    seq(|items|, i requires 0 <= i < |items| => f(items[i]))
  }

  function RedactedSection(registry: Registry, section: string, j: Json): Json {
    if section == "password" then REDACTED
    else if section == "vehicles" && j.Arr? then Arr(EachItem(Redact(j).items, v => HideVehicle(registry, v)))
    else Redact(j)
  }

  function Redacted(registry: Registry, doc: Fields): Fields {
    map k | k in doc :: RedactedSection(registry, k, doc[k])
  }

  // ---------- restoring ----------

  /** Placeholders under `keys` take the current value, or go when there is none. */
  function Restore(f: Fields, keys: set<string>, cur: Fields): Fields {
    map k | k in f && !(k in keys && f[k] == REDACTED && k !in cur)
      :: if k in keys && f[k] == REDACTED then cur[k] else f[k]
  }

  function BrokerOf(m: Option<Fields>): Fields {
    if m.Some? && "broker" in m.value && m.value["broker"].Obj? then m.value["broker"].fields else map[]
  }

  function RestoreBroker(m: Fields, cur: Option<Fields>): Fields {
    if "broker" in m && m["broker"].Obj? then
      m["broker" := Obj(Restore(m["broker"].fields, {"password"}, BrokerOf(cur)))]
    else m
  }

  function Current(cur: seq<Fields>, e: Fields): Option<Fields> {
    if NameOf(e).Str? then Find(cur, NameOf(e).s) else None
  }

  /** `v.type ?? curV?.type`. */
  function TypeFor(v: Fields, cur: Option<Fields>): Json {
    if TypeOf(v).Null? && cur.Some? then TypeOf(cur.value) else TypeOf(v)
  }

  function RestoreVehicle(registry: Registry, cur: seq<Fields>, v: Json): Json {
    if v.Obj? then
      var mine := Current(cur, v.fields);
      Obj(Restore(v.fields, SecretKeys(registry, TypeFor(v.fields, mine)), mine.GetOr(map[])))
    else v
  }

  function RestoreMeter(cur: seq<Fields>, m: Json): Json {
    if m.Obj? then Obj(RestoreBroker(m.fields, Current(cur, m.fields))) else m
  }

  function RestoredSection(registry: Registry, cur: Config, section: string, j: Json): Json {
    if section == "mqttBridge" && j.Obj? then Obj(RestoreBroker(j.fields, cur.Single(MqttBridge)))
    else if section == "vehicles" && j.Arr? then
      Arr(EachItem(j.items, v => RestoreVehicle(registry, cur.List(Vehicle), v)))
    else if section == "meterReaders" && j.Arr? then Arr(EachItem(j.items, m => RestoreMeter(cur.List(MeterReader), m)))
    else j
  }

  function Restored(registry: Registry, cur: Config, doc: Fields): Fields {
    map k | k in doc :: RestoredSection(registry, cur, k, doc[k])
  }

  /** `redactSecrets`. */
  method RedactSecrets(registry: Registry, doc: Fields) returns (out: Fields)
    ensures out == Redacted(registry, doc)
  {
    out := RedactFields(doc);
    if "vehicles" in out && out["vehicles"].Arr? {
      var vs := out["vehicles"].items;
      ghost var all := vs;
      for i := 0 to |vs|
        invariant |vs| == |all|
        invariant forall j :: 0 <= j < |vs| ==> vs[j] == if j < i then HideVehicle(registry, all[j]) else all[j]
      {
        vs := vs[i := HideVehicle(registry, vs[i])];
      }
      assert vs == EachItem(all, v => HideVehicle(registry, v));
      out := out["vehicles" := Arr(vs)];
    }
    assert out == Redacted(registry, doc);
  }

  method RestoreVehicles(registry: Registry, cur: seq<Fields>, all: seq<Json>) returns (vs: seq<Json>)
    ensures vs == EachItem(all, v => RestoreVehicle(registry, cur, v))
  {
    vs := all;
    for i := 0 to |vs|
      invariant |vs| == |all|
      invariant forall j :: 0 <= j < |vs| ==> vs[j] == if j < i then RestoreVehicle(registry, cur, all[j]) else all[j]
    {
      vs := vs[i := RestoreVehicle(registry, cur, vs[i])];
    }
  }

  method RestoreMeters(cur: seq<Fields>, all: seq<Json>) returns (ms: seq<Json>)
    ensures ms == EachItem(all, m => RestoreMeter(cur, m))
  {
    ms := all;
    for i := 0 to |ms|
      invariant |ms| == |all|
      invariant forall j :: 0 <= j < |ms| ==> ms[j] == if j < i then RestoreMeter(cur, all[j]) else all[j]
    {
      ms := ms[i := RestoreMeter(cur, ms[i])];
    }
  }

  /** `deRedact`: the three places it visits, one after the other. */
  method DeRedact(registry: Registry, doc: Fields, cur: Config) returns (out: Fields)
    ensures out == Restored(registry, cur, doc)
  {
    hide RestoreVehicle, RestoreMeter, RestoreBroker;
    out := doc;
    if "mqttBridge" in out && out["mqttBridge"].Obj? {
      out := out["mqttBridge" := Obj(RestoreBroker(out["mqttBridge"].fields, cur.Single(MqttBridge)))];
    }
    if "vehicles" in out && out["vehicles"].Arr? {
      var vs := RestoreVehicles(registry, cur.List(Vehicle), out["vehicles"].items);
      out := out["vehicles" := Arr(vs)];
    }
    if "meterReaders" in out && out["meterReaders"].Arr? {
      var ms := RestoreMeters(cur.List(MeterReader), out["meterReaders"].items);
      out := out["meterReaders" := Arr(ms)];
    }
    assert out == Restored(registry, cur, doc);
  }

  // ---------- what survives the round trip ----------

  /** No `password` field in `j` holds anything but the placeholder. */
  predicate Clean(j: Json) {
    match j
    case Arr(items) => forall i :: 0 <= i < |items| ==> Clean(items[i])
    case Obj(f) => forall k <- f :: if k == "password" then f[k] == REDACTED else Clean(f[k])
    case _ => true
  }

  lemma {:induction false} CleanIffUnchanged(j: Json)
    ensures Redact(j) == j <==> Clean(j)
  {
    match j
    case Arr(items) =>
      forall i | 0 <= i < |items| ensures Redact(items[i]) == items[i] <==> Clean(items[i]) {
        CleanIffUnchanged(items[i]);
      }
      if Redact(j) == j {
        forall i | 0 <= i < |items| ensures Clean(items[i]) {
          assert Redact(j).items[i] == items[i];
        }
      }
    case Obj(f) =>
      forall k | k in f ensures Redact(f[k]) == f[k] <==> Clean(f[k]) {
        CleanIffUnchanged(f[k]);
      }
      if Redact(j) == j {
        forall k | k in f ensures if k == "password" then f[k] == REDACTED else Clean(f[k]) {
          assert Redact(j).fields[k] == f[k];
        }
      }
    case _ =>
  }

  predicate CleanField(k: string, j: Json) {
    if k == "password" then j == REDACTED else Clean(j)
  }

  /** Clean apart from the fields that restoring visits. */
  predicate CleanExcept(f: Fields, visited: set<string>) {
    forall k <- f :: k in visited || CleanField(k, f[k])
  }

  predicate CleanModule(m: Fields) {
    forall k <- m ::
      if k == "broker" && m[k].Obj? then CleanExcept(m[k].fields, {"password"}) else CleanField(k, m[k])
  }

  predicate CleanVehicle(registry: Registry, v: Json) {
    if v.Obj? then CleanExcept(v.fields, SecretKeys(registry, TypeOf(v.fields))) else Clean(v)
  }

  predicate CleanMeter(m: Json) {
    if m.Obj? then CleanModule(m.fields) else Clean(m)
  }

  predicate CleanSection(registry: Registry, section: string, j: Json) {
    if section == "mqttBridge" && j.Obj? then CleanModule(j.fields)
    else if section == "vehicles" && j.Arr? then forall i :: 0 <= i < |j.items| ==> CleanVehicle(registry, j.items[i])
    else if section == "meterReaders" && j.Arr? then forall i :: 0 <= i < |j.items| ==> CleanMeter(j.items[i])
    else CleanField(section, j)
  }

  /** Every credential sits in one of the places that restoring visits. */
  predicate SecretsInPlace(registry: Registry, doc: Fields) {
    forall k <- doc :: CleanSection(registry, k, doc[k])
  }

  /** `cur` has the values `f` holds under `keys`. */
  predicate Holds(cur: Fields, f: Fields, keys: set<string>) {
    forall k <- f :: k in keys ==> k in cur && cur[k] == f[k]
  }

  predicate HoldsVehicle(registry: Registry, cur: seq<Fields>, v: Json) {
    v.Obj? ==>
      var mine := Current(cur, v.fields).GetOr(map[]);
      TypeOf(mine) == TypeOf(v.fields) && Holds(mine, v.fields, SecretKeys(registry, TypeOf(v.fields)))
  }

  predicate HoldsBroker(cur: Option<Fields>, m: Fields) {
    Holds(BrokerOf(cur), BrokerOf(Some(m)), {"password"})
  }

  predicate HoldsMeter(cur: seq<Fields>, m: Json) {
    m.Obj? ==> HoldsBroker(Current(cur, m.fields), m.fields)
  }

  /** The current configuration holds the document's secrets. */
  predicate HoldsSecrets(registry: Registry, cur: Config, doc: Fields) {
    && ("mqttBridge" in doc && doc["mqttBridge"].Obj? ==>
          HoldsBroker(cur.Single(MqttBridge), doc["mqttBridge"].fields))
    && ("vehicles" in doc && doc["vehicles"].Arr? ==>
          forall v <- doc["vehicles"].items :: HoldsVehicle(registry, cur.List(Vehicle), v))
    && ("meterReaders" in doc && doc["meterReaders"].Arr? ==>
          forall m <- doc["meterReaders"].items :: HoldsMeter(cur.List(MeterReader), m))
  }

  lemma FieldsRoundTrip(f: Fields, keys: set<string>, cur: Fields)
    requires Holds(cur, f, keys)
    ensures Restore(Hide(RedactFields(f), keys), keys, cur) == f <==> CleanExcept(f, keys)
  {
    hide Redact, Clean;
    var back := Restore(Hide(RedactFields(f), keys), keys, cur);
    assert back.Keys == f.Keys;
    forall k | k in f ensures back[k] == f[k] <==> k in keys || CleanField(k, f[k]) {
      CleanIffUnchanged(f[k]);
    }
  }

  lemma ModuleRoundTrip(m: Fields, cur: Option<Fields>)
    requires HoldsBroker(cur, m)
    ensures RestoreBroker(RedactFields(m), cur) == m <==> CleanModule(m)
  {
    hide Clean;
    var back := RestoreBroker(RedactFields(m), cur);
    assert back.Keys == m.Keys;
    forall k | k in m
      ensures back[k] == m[k]
         <==> if k == "broker" && m[k].Obj? then CleanExcept(m[k].fields, {"password"}) else CleanField(k, m[k])
    {
      CleanIffUnchanged(m[k]);
      if k == "broker" && m[k].Obj? {
        var f := m[k].fields;
        FieldsRoundTrip(f, {"password"}, BrokerOf(cur));
        assert Hide(RedactFields(f), {"password"}) == RedactFields(f);
      }
    }
  }

  lemma VehicleRoundTrip(registry: Registry, cur: seq<Fields>, v: Json)
    requires PublicIdentity(registry) && HoldsVehicle(registry, cur, v)
    ensures RestoreVehicle(registry, cur, HideVehicle(registry, Redact(v))) == v <==> CleanVehicle(registry, v)
  {
    hide Clean;
    CleanIffUnchanged(v);
    if v.Obj? {
      var f := v.fields;
      var red := RedactFields(f);
      assert Redact(v) == Obj(red);
      SameKeys(registry, f);
      var keys := SecretKeys(registry, TypeOf(f));
      var hidden := Hide(red, keys);
      IdentityKept(registry, f);
      assert Current(cur, hidden) == Current(cur, f);
      FieldsRoundTrip(f, keys, Current(cur, f).GetOr(map[]));
    }
  }

  lemma SameKeys(registry: Registry, f: Fields)
    ensures SecretKeys(registry, TypeOf(RedactFields(f))) == SecretKeys(registry, TypeOf(f))
    ensures TypeOf(RedactFields(f)).Null? <==> TypeOf(f).Null?
  {
  }

  lemma IdentityKept(registry: Registry, f: Fields)
    requires PublicIdentity(registry)
    ensures var hidden := Hide(RedactFields(f), SecretKeys(registry, TypeOf(f)));
      && (NameOf(f).Str? ==> NameOf(hidden) == NameOf(f))
      && (NameOf(hidden).Str? ==> NameOf(f).Str?)
      && (TypeOf(f).Str? ==> TypeOf(hidden) == TypeOf(f))
      && (TypeOf(hidden).Str? ==> TypeOf(f).Str?)
      && (TypeOf(hidden).Null? <==> TypeOf(f).Null?)
  {
  }

  lemma MeterRoundTrip(cur: seq<Fields>, m: Json)
    requires HoldsMeter(cur, m)
    ensures RestoreMeter(cur, Redact(m)) == m <==> CleanMeter(m)
  {
    hide Clean;
    CleanIffUnchanged(m);
    if m.Obj? {
      assert Redact(m) == Obj(RedactFields(m.fields));
      var red := RedactFields(m.fields);
      assert NameOf(red).Str? <==> NameOf(m.fields).Str?;
      assert NameOf(red).Str? ==> NameOf(red) == NameOf(m.fields);
      ModuleRoundTrip(m.fields, Current(cur, m.fields));
    }
  }

  lemma SectionRoundTrip(registry: Registry, cur: Config, doc: Fields, k: string)
    requires PublicIdentity(registry) && HoldsSecrets(registry, cur, doc) && k in doc
    ensures RestoredSection(registry, cur, k, RedactedSection(registry, k, doc[k])) == doc[k]
       <==> CleanSection(registry, k, doc[k])
  {
    hide Clean, RestoreVehicle, HideVehicle, RestoreMeter, CleanVehicle, CleanMeter, HoldsVehicle, HoldsMeter,
      CleanModule;
    var j := doc[k];
    CleanIffUnchanged(j);
    if k == "mqttBridge" && j.Obj? {
      assert Redact(j) == Obj(RedactFields(j.fields));
      ModuleRoundTrip(j.fields, cur.Single(MqttBridge));
    } else if k == "vehicles" && j.Arr? {
      var back := RestoredSection(registry, cur, k, RedactedSection(registry, k, j)).items;
      forall i | 0 <= i < |j.items| ensures back[i] == j.items[i] <==> CleanVehicle(registry, j.items[i]) {
        assert j.items[i] in j.items;
        VehicleRoundTrip(registry, cur.List(Vehicle), j.items[i]);
      }
      assert |back| == |j.items|;
      assert back == j.items <==> forall i :: 0 <= i < |j.items| ==> back[i] == j.items[i];
    } else if k == "meterReaders" && j.Arr? {
      var back := RestoredSection(registry, cur, k, RedactedSection(registry, k, j)).items;
      forall i | 0 <= i < |j.items| ensures back[i] == j.items[i] <==> CleanMeter(j.items[i]) {
        assert j.items[i] in j.items;
        MeterRoundTrip(cur.List(MeterReader), j.items[i]);
      }
      assert |back| == |j.items|;
      assert back == j.items <==> forall i :: 0 <= i < |j.items| ==> back[i] == j.items[i];
    }
  }

  /**
   * Redacting a document and restoring it against a configuration that holds
   * its secrets gives the document back exactly when every credential sits in
   * one of the places restoring visits; any other keeps the placeholder.
   */
  lemma RoundTripIffSecretsInPlace(registry: Registry, cur: Config, doc: Fields)
    requires PublicIdentity(registry) && HoldsSecrets(registry, cur, doc)
    ensures Restored(registry, cur, Redacted(registry, doc)) == doc <==> SecretsInPlace(registry, doc)
  {
    hide RestoredSection, RedactedSection, CleanSection, HoldsSecrets;
    var back := Restored(registry, cur, Redacted(registry, doc));
    assert back.Keys == doc.Keys;
    forall k | k in doc ensures back[k] == doc[k] <==> CleanSection(registry, k, doc[k]) {
      SectionRoundTrip(registry, cur, doc, k);
    }
  }

  /** A password kept anywhere else is lost: here, one level deeper in a meter reader. */
  lemma StrayPasswordIsLost(registry: Registry, cur: Config, secret: string)
    requires PublicIdentity(registry) && secret != PLACEHOLDER
    requires cur.List(MeterReader) == [map["name" := Str("house"), "auth" := Obj(map["password" := Str(secret)])]]
    ensures var doc := map["meterReaders" := Arr([Obj(cur.List(MeterReader)[0])])];
      HoldsSecrets(registry, cur, doc) && Restored(registry, cur, Redacted(registry, doc)) != doc
  {
    var m := cur.List(MeterReader)[0];
    var doc := map["meterReaders" := Arr([Obj(m)])];
    assert BrokerOf(Some(m)) == map[];
    RoundTripIffSecretsInPlace(registry, cur, doc);
    assert m["auth"].fields["password"] != REDACTED;
    assert !Clean(m["auth"]);
    assert !CleanMeter(doc["meterReaders"].items[0]);
    assert "meterReaders" in doc;
  }

  // ---------- nothing leaks, nothing moves ----------

  /** Documents that differ only in their secrets are indistinguishable once redacted. */
  lemma RedactionHidesSecrets(registry: Registry, v: Fields, key: string, a: Json, b: Json)
    requires PublicIdentity(registry)
    requires key in SecretKeys(registry, TypeOf(v)) || key == "password"
    requires key != "type"
    ensures HideVehicle(registry, Redact(Obj(v[key := a]))) == HideVehicle(registry, Redact(Obj(v[key := b])))
  {
    var va, vb := RedactFields(v[key := a]), RedactFields(v[key := b]);
    SameKeys(registry, v[key := a]);
    SameKeys(registry, v[key := b]);
    var keys := SecretKeys(registry, TypeOf(v));
    assert Hide(va, keys) == Hide(vb, keys);
  }

  /** No visited place holds the placeholder. */
  predicate NoPlaceholder(doc: Fields) {
    && ("mqttBridge" in doc && doc["mqttBridge"].Obj? ==> NoBrokerPlaceholder(doc["mqttBridge"].fields))
    && ("vehicles" in doc && doc["vehicles"].Arr? ==>
          forall v <- doc["vehicles"].items :: v.Obj? ==> NoFieldPlaceholder(v.fields))
    && ("meterReaders" in doc && doc["meterReaders"].Arr? ==>
          forall m <- doc["meterReaders"].items :: m.Obj? ==> NoBrokerPlaceholder(m.fields))
  }

  predicate NoFieldPlaceholder(f: Fields) {
    forall k <- f :: f[k] != REDACTED
  }

  predicate NoBrokerPlaceholder(m: Fields) {
    Get(BrokerOf(Some(m)), "password") != Some(REDACTED)
  }

  lemma BrokerUntouched(m: Fields, cur: Option<Fields>)
    requires NoBrokerPlaceholder(m)
    ensures RestoreBroker(m, cur) == m
  {
    if "broker" in m && m["broker"].Obj? {
      assert Restore(m["broker"].fields, {"password"}, BrokerOf(cur)) == m["broker"].fields;
    }
  }

  /** Restoring changes nothing but placeholders. */
  lemma RestoreTouchesOnlyPlaceholders(registry: Registry, cur: Config, doc: Fields)
    requires NoPlaceholder(doc)
    ensures Restored(registry, cur, doc) == doc
  {
    forall k | k in doc ensures RestoredSection(registry, cur, k, doc[k]) == doc[k] {
      var j := doc[k];
      if k == "mqttBridge" && j.Obj? {
        BrokerUntouched(j.fields, cur.Single(MqttBridge));
      } else if k == "vehicles" && j.Arr? {
        forall i | 0 <= i < |j.items| ensures RestoreVehicle(registry, cur.List(Vehicle), j.items[i]) == j.items[i] {
          assert j.items[i] in j.items;
        }
        assert EachItem(j.items, v => RestoreVehicle(registry, cur.List(Vehicle), v)) == j.items;
      } else if k == "meterReaders" && j.Arr? {
        forall i | 0 <= i < |j.items| ensures RestoreMeter(cur.List(MeterReader), j.items[i]) == j.items[i] {
          assert j.items[i] in j.items;
          if j.items[i].Obj? {
            BrokerUntouched(j.items[i].fields, Current(cur.List(MeterReader), j.items[i].fields));
          }
        }
        assert EachItem(j.items, m => RestoreMeter(cur.List(MeterReader), m)) == j.items;
      }
    }
  }

  lemma {:induction false} RedactIsClean(j: Json)
    ensures Clean(Redact(j))
  {
    match j
    case Arr(items) =>
      forall i | 0 <= i < |items| ensures Clean(Redact(items[i])) {
        RedactIsClean(items[i]);
      }
    case Obj(f) =>
      forall k | k in f && k != "password" ensures Clean(Redact(f[k])) {
        RedactIsClean(f[k]);
      }
    case _ =>
  }

  /** The secrets a vehicle's module declares are placeholders, if they are there at all. */
  predicate SecretsHidden(registry: Registry, v: Json) {
    v.Obj? ==> forall k <- v.fields :: k in SecretKeys(registry, TypeOf(v.fields)) ==> v.fields[k] == REDACTED
  }

  /** A redacted document holds no password at any depth, and no secret of a vehicle. */
  lemma NothingLeaks(registry: Registry, doc: Fields)
    requires PublicIdentity(registry)
    ensures forall k <- Redacted(registry, doc) :: CleanField(k, Redacted(registry, doc)[k])
    ensures "vehicles" in doc && doc["vehicles"].Arr? ==>
      var vs := Redacted(registry, doc)["vehicles"];
      vs.Arr? && forall v :: v in vs.items ==> SecretsHidden(registry, v)
  {
    hide Clean, Redact, HideVehicle, SecretsHidden;
    var out := Redacted(registry, doc);
    forall k | k in doc ensures CleanField(k, out[k]) {
      RedactIsClean(doc[k]);
      if k == "vehicles" && doc[k].Arr? {
        RedactedItems(doc[k]);
        forall i | 0 <= i < |doc[k].items| ensures Clean(out[k].items[i]) {
          VehicleHidden(registry, doc[k].items[i]);
        }
        CleanItems(out[k]);
      }
    }
    if "vehicles" in doc && doc["vehicles"].Arr? {
      RedactedItems(doc["vehicles"]);
      forall i | 0 <= i < |doc["vehicles"].items| ensures SecretsHidden(registry, out["vehicles"].items[i]) {
        VehicleHidden(registry, doc["vehicles"].items[i]);
      }
    }
  }

  lemma RedactedItems(j: Json)
    requires j.Arr?
    ensures Redact(j).Arr? && |Redact(j).items| == |j.items|
    ensures forall i :: 0 <= i < |j.items| ==> Redact(j).items[i] == Redact(j.items[i])
  {
  }

  lemma CleanItems(j: Json)
    requires j.Arr? && forall i :: 0 <= i < |j.items| ==> Clean(j.items[i])
    ensures Clean(j)
  {
  }

  lemma VehicleHidden(registry: Registry, v: Json)
    requires PublicIdentity(registry)
    ensures var hidden := HideVehicle(registry, Redact(v));
      Clean(hidden) && SecretsHidden(registry, hidden)
  {
    RedactIsClean(v);
    if v.Obj? {
      var red := RedactFields(v.fields);
      assert Redact(v) == Obj(red);
      var keys := SecretKeys(registry, TypeOf(red));
      HiddenType(registry, red);
    }
  }

  /** Hiding a vehicle's secrets does not change which module it is of. */
  lemma HiddenType(registry: Registry, f: Fields)
    requires PublicIdentity(registry)
    ensures SecretKeys(registry, TypeOf(Hide(f, SecretKeys(registry, TypeOf(f))))) == SecretKeys(registry, TypeOf(f))
  {
    assert "type" !in SecretKeys(registry, TypeOf(f));
  }

  /**
   * A placeholder is never stored in a visited place: what comes back is what
   * the current configuration holds there, or nothing.
   */
  lemma PlaceholdersResolve(f: Fields, keys: set<string>, cur: Fields, k: string)
    requires k in keys && k in f && f[k] == REDACTED
    ensures Get(Restore(f, keys, cur), k) == Get(cur, k)
  {
  }

  /** In a restored document no broker password of the bridge, and no secret of a vehicle, is a placeholder, unless
      the current configuration holds one. */
  lemma NoPlaceholderStored(registry: Registry, cur: Config, doc: Fields)
    requires Get(BrokerOf(cur.Single(MqttBridge)), "password") != Some(REDACTED)
    requires forall e, k :: e in cur.List(Vehicle) && k in e ==> e[k] != REDACTED
    ensures var out := Restored(registry, cur, doc);
      && ("mqttBridge" in doc && doc["mqttBridge"].Obj? ==>
            out["mqttBridge"].Obj? && NoBrokerPlaceholder(out["mqttBridge"].fields))
      && ("vehicles" in doc && doc["vehicles"].Arr? ==>
            && out["vehicles"].Arr? && |out["vehicles"].items| == |doc["vehicles"].items|
            && forall i :: 0 <= i < |doc["vehicles"].items| ==>
                 VehicleResolved(registry, cur, doc["vehicles"].items[i], out["vehicles"].items[i]))
  {
    hide Restore, BrokerOf, RestoreVehicle;
    var out := Restored(registry, cur, doc);
    if "mqttBridge" in doc && doc["mqttBridge"].Obj? {
      BrokerResolved(doc["mqttBridge"].fields, cur.Single(MqttBridge));
    }
    if "vehicles" in doc && doc["vehicles"].Arr? {
      forall i | 0 <= i < |doc["vehicles"].items|
        ensures VehicleResolved(registry, cur, doc["vehicles"].items[i], out["vehicles"].items[i])
      {
        VehicleIsResolved(registry, cur, doc["vehicles"].items[i]);
      }
    }
  }

  /** No secret of the module the vehicle is of, in the document or else in the configuration, is a placeholder. */
  predicate VehicleResolved(registry: Registry, cur: Config, v: Json, out: Json) {
    v.Obj? ==>
      && out.Obj?
      && var keys := SecretKeys(registry, TypeFor(v.fields, Current(cur.List(Vehicle), v.fields)));
         forall k <- out.fields :: k in keys ==> out.fields[k] != REDACTED
  }

  lemma BrokerResolved(m: Fields, cur: Option<Fields>)
    requires Get(BrokerOf(cur), "password") != Some(REDACTED)
    ensures NoBrokerPlaceholder(RestoreBroker(m, cur))
  {
    if "broker" in m && m["broker"].Obj? {
      var f := m["broker"].fields;
      var back := Restore(f, {"password"}, BrokerOf(cur));
      assert BrokerOf(Some(RestoreBroker(m, cur))) == back;
    }
  }

  lemma VehicleIsResolved(registry: Registry, cur: Config, v: Json)
    requires forall e, k :: e in cur.List(Vehicle) && k in e ==> e[k] != REDACTED
    ensures VehicleResolved(registry, cur, v, RestoreVehicle(registry, cur.List(Vehicle), v))
  {
    if v.Obj? {
      var mine := Current(cur.List(Vehicle), v.fields);
      assert mine.Some? ==> mine.value in cur.List(Vehicle);
    }
  }
}
