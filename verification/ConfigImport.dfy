/** When an import is all or nothing: src/core/config-io.ts, src/core/loadpoint.ts. */
module ConfigImport {
  import opened Prelude
  import opened Schema
  import opened ConfigModel
  import opened ConfigOverrides
  import opened Redaction
  import opened ConfigIo
  import opened ConfigRenames
  import opened ConfigRoundTrip

  /** The entry has a text for a name, and a mode and targets the database driver takes. */
  predicate Seedable(host: Host, lp: Json) {
    InitOf(host, lp).Some? && InitOf(host, lp).value.Binds()
  }

  predicate AllSeedable(host: Host, doc: Fields) {
    forall i :: 0 <= i < |Items(doc, "loadpoints")| ==> Seedable(host, Items(doc, "loadpoints")[i])
  }

  predicate RetentionFits(doc: Fields, mode: Mode) {
    var days := RetentionToSet(doc, mode);
    days.Some? ==> RetentionAccepted(days.value)
  }

  lemma {:induction false} AcceptedIff(inits: seq<LoadpointInit>)
    ensures Accepted(inits) == |inits| <==> forall i :: 0 <= i < |inits| ==> inits[i].Binds()
  {
    if inits != [] {
      AcceptedIff(inits[1..]);
      assert forall i :: 0 < i < |inits| ==> inits[i] == inits[1..][i - 1];
    }
  }

  lemma SeedingIff(host: Host, kept: App, doc: Fields)
    ensures var outcome := SeedLoadpoints(host, kept, Items(doc, "loadpoints"));
      && (outcome.Done? <==> AllSeedable(host, doc))
      && (outcome.Torn? <==> !AllSeedable(host, doc))
      && outcome.after == kept.(runtimes := outcome.after.runtimes)
  {
    hide InitOf;
    var lps := Items(doc, "loadpoints");
    var inits := Inits(host, lps);
    if inits.Some? {
      AcceptedIff(inits.value);
      forall i | 0 <= i < |lps| ensures Seedable(host, lps[i]) <==> inits.value[i].Binds() {
        assert InitOf(host, lps[i]).Some?;
      }
    } else {
      var i :| 0 <= i < |lps| && InitOf(host, lps[i]).None?;
      assert !Seedable(host, lps[i]);
    }
  }

  /**
   * An import is documented as all or nothing. It throws with its overrides
   * already written exactly when the document passes and either asks for a log
   * retention that is not accepted or holds a loadpoint entry that cannot be
   * seeded: the schema checks neither the retention nor an entry that stands
   * for no row of its own.
   */
  lemma ImportIsTornIff(host: Host, app: App, docIn: Fields, mode: Mode, cur: Config)
    requires host.validZone("Europe/Stockholm")
    ensures var doc := Restored(host.registry, cur, docIn);
      var checked := Import(host, app, docIn, mode, cur, true);
      var run := Import(host, app, docIn, mode, cur, false);
      && (run.Torn? <==> !checked.Bad? && !(RetentionFits(doc, mode) && AllSeedable(host, doc)))
      && (run.Done? <==> !checked.Bad? && RetentionFits(doc, mode) && AllSeedable(host, doc))
  {
    hide Validate, TimezoneToSet, Restored, NullEntity, ZoneAccepted, RetentionAccepted, RetentionToSet, DocRows,
      AllSeedable, SeedLoadpoints, ConfigSchema;
    var schema := host.Schema();
    var doc := Restored(host.registry, cur, docIn);
    if Passes(schema, doc, mode, cur) {
      ValidatedZone(host.validZone, doc, mode, cur);
      var written := Written(app, mode, doc);
      var zone, days := TimezoneToSet(schema, doc, mode), RetentionToSet(doc, mode);
      if zone.Some? {
        ZoneIsText(host.validZone, zone.value);
      }
      var zoned := if zone.Some? then written.(timezone := zone.value.s) else written;
      if days.Some? && RetentionAccepted(days.value) {
        DaysAreNumber(days.value);
      }
      if days.None? || RetentionAccepted(days.value) {
        SeedingIff(host, if days.Some? then zoned.(retention := days.value.n.Floor) else zoned, doc);
      }
    }
  }

  // ---------- which entries the validation has seen ----------

  /** Every entry is an object under a text name of its own. */
  ghost predicate OwnNames(lps: seq<Json>) {
    && (forall i :: 0 <= i < |lps| ==> lps[i].Obj? && NameOf(lps[i].fields).Str? && NameOf(lps[i].fields).s != "")
    && (forall i, j :: 0 <= i < j < |lps| ==> NameOf(lps[i].fields) != NameOf(lps[j].fields))
  }

  function FieldsOf(lps: seq<Json>): (r: seq<Fields>)
    requires forall i :: 0 <= i < |lps| ==> lps[i].Obj?
    ensures |r| == |lps| && forall i :: 0 <= i < |lps| ==> r[i] == lps[i].fields
  {
    seq(|lps|, i requires 0 <= i < |lps| => lps[i].fields)
  }

  /** The row of such an entry is the entry. */
  lemma OwnRow(doc: Fields, i: nat)
    requires OwnNames(Items(doc, "loadpoints")) && i < |Items(doc, "loadpoints")|
    ensures var f := Items(doc, "loadpoints")[i].fields;
      Combined(DocRows(doc), Key(Loadpoint, NameOf(f).s)) == Some(f - {"name"})
  {
    hide DocRows, EntityRows, Combined;
    var lps := Items(doc, "loadpoints");
    var es := FieldsOf(lps);
    var key := Key(Loadpoint, NameOf(es[i]).s);
    assert Section(Loadpoint) == "loadpoints";
    assert lps == Objects(es);
    DocRowsByKey(doc, key);
    assert KindRows(doc, Loadpoint) == EntityRows(Loadpoint, lps);
    assert WellNamed(es) && NamesNonEmpty(es);
    EntityRowsByName(Loadpoint, es, key.name);
    FindMember(es, i);
  }

  /** What validation accepted under the entry's key has the entry's fields. */
  lemma ValidatedEntry(schema: Kind -> Shape, from: Config, doc: Fields, i: nat) returns (e: Fields)
    requires NamedEntities(schema) && Validate(schema, from, DocRows(doc)).Some?
    requires OwnNames(Items(doc, "loadpoints")) && i < |Items(doc, "loadpoints")|
    ensures Parse(schema(Loadpoint), e).Some?
    ensures var f := Items(doc, "loadpoints")[i].fields;
      forall k :: k != "name" && k in f ==> k in e && e[k] == f[k]
  {
    hide Parse, ParseConfig, Combined, DocRows, Layer, Lookup, NamedEntities, GoodRows;
    var f := Items(doc, "loadpoints")[i].fields;
    var key := Key(Loadpoint, NameOf(f).s);
    OwnRow(doc, i);
    DocRowsByKey(doc, key);
    LayerByKey(from, DocRows(doc), key);
    ParsedLookup(schema, Layer(from, DocRows(doc)), key);
    e := Lookup(Layer(from, DocRows(doc)), key).value;
  }

  /** So a document whose loadpoints all have text names of their own is never torn by them. */
  lemma OwnNamesSeed(host: Host, doc: Fields, mode: Mode, cur: Config)
    requires Passes(host.Schema(), doc, mode, cur) && OwnNames(Items(doc, "loadpoints"))
    ensures AllSeedable(host, doc)
  {
    hide Validate, Parse, DocRows, ConfigSchema, LOADPOINT_SHAPE, At, Bindable, NullEntity;
    var lps := Items(doc, "loadpoints");
    SchemaIs(host);
    ConfigSchemaNamesEntities(host.validZone);
    LoadpointSchema(host.validZone);
    forall i | 0 <= i < |lps| ensures Seedable(host, lps[i]) {
      var e := ValidatedEntry(host.Schema(), ImportBase(host.Schema(), mode, cur), doc, i);
      var init := InitOf(host, lps[i]).value;
      assert init.fields == lps[i].fields;
      ParsedBinds(LoadpointInit("", e));
      forall k | k in TARGETS + {"defaultMode"} ensures Bindable(Get(init.fields, k)) {
        NotTheName(k);
        assert Bindable(Get(LoadpointInit("", e).fields, k));
        if k !in init.fields {
          NothingBinds();
        }
      }
    }
  }

  lemma NotTheName(k: string)
    requires k in TARGETS + {"defaultMode"}
    ensures k != "name"
  {
  }

  lemma NothingBinds()
    ensures Bindable(None)
  {
  }

  // ---------- an entry it has not seen ----------

  predicate Nameless(lp: Json) {
    lp.Obj? && !(NameOf(lp.fields).Str? && NameOf(lp.fields).s != "")
  }

  /** A document of nothing but loadpoint entries that all lack a name. */
  ghost predicate OnlyNameless(doc: Fields) {
    && doc.Keys == {"loadpoints"} && doc["loadpoints"].Arr?
    && forall lp :: lp in doc["loadpoints"].items ==> Nameless(lp)
  }

  lemma {:induction false} NamelessRows(kind: Kind, items: seq<Json>)
    requires forall lp :: lp in items ==> Nameless(lp)
    ensures EntityRows(kind, items) == []
  {
    if items != [] {
      assert items[|items| - 1] in items;
      NamelessRows(kind, items[..|items| - 1]);
    }
  }

  lemma {:induction false} NoDocRows(doc: Fields, kinds: seq<Kind>)
    requires OnlyNameless(doc)
    ensures RowsOf(doc, kinds) == []
  {
    if kinds != [] {
      NoDocRows(doc, kinds[..|kinds| - 1]);
      NamelessRows(kinds[|kinds| - 1], doc["loadpoints"].items);
    }
  }

  /** Such a document passes whatever its entries hold, and replaces everything before one of them fails. */
  lemma NamelessEntryTears(host: Host, app: App, doc: Fields, cur: Config, i: nat)
    requires host.validZone("Europe/Stockholm") && OnlyNameless(doc)
    requires i < |doc["loadpoints"].items| && !Seedable(host, doc["loadpoints"].items[i])
    ensures var run := Import(host, app, doc, Replace, cur, false);
      run.Torn? && run.after.(runtimes := map[]) == App(map[], map[], "Europe/Stockholm", DEFAULT_RETENTION)
  {
    hide *;
    SchemaIs(host);
    NamelessUntouched(host, cur, doc);
    NamelessPasses(host, doc, cur);
    NamelessSettings(host, doc);
    NamelessSettles(host, Written(app, Replace, doc), doc, i);
    NamelessStore(app, doc);
    ImportOf(host, app, doc, cur);
  }

  lemma ImportOf(host: Host, app: App, doc: Fields, cur: Config)
    requires Restored(host.registry, cur, doc) == doc && Passes(host.Schema(), doc, Replace, cur)
    ensures Import(host, app, doc, Replace, cur, false)
         == Settled(host, Written(app, Replace, doc), TimezoneToSet(host.Schema(), doc, Replace),
                    RetentionToSet(doc, Replace), Items(doc, "loadpoints"))
  {
    hide Passes, Settled, ConfigSchema;
  }

  lemma NamelessSettings(host: Host, doc: Fields)
    requires host.validZone("Europe/Stockholm") && doc.Keys == {"loadpoints"} && doc["loadpoints"].Arr?
    ensures TimezoneToSet(host.Schema(), doc, Replace) == Some(Str("Europe/Stockholm"))
    ensures RetentionToSet(doc, Replace) == Some(Num(DEFAULT_RETENTION as real))
  {
    hide ConfigSchema, ParseConfig, Parse, Defaults, SiteShape, SMART_CHARGING_SHAPE;
    SchemaIs(host);
    DefaultsParse(host.validZone);
    SiteDefaults(host.validZone);
  }

  lemma NamelessStore(app: App, doc: Fields)
    requires OnlyNameless(doc)
    ensures Written(app, Replace, doc) == app.(store := map[], runtimes := map[])
  {
    NoDocRows(doc, ORDER);
  }

  lemma NamelessSettles(host: Host, written: App, doc: Fields, i: nat)
    requires host.validZone("Europe/Stockholm") && OnlyNameless(doc)
    requires i < |doc["loadpoints"].items| && !Seedable(host, doc["loadpoints"].items[i])
    ensures var outcome := Settled(host, written, Some(Str("Europe/Stockholm")), Some(Num(DEFAULT_RETENTION as real)),
                                   Items(doc, "loadpoints"));
      outcome.Torn? && outcome.after
        == written.(timezone := "Europe/Stockholm", retention := DEFAULT_RETENTION, runtimes := outcome.after.runtimes)
  {
    hide Seedable, SeedLoadpoints;
    DaysSurvive(DEFAULT_RETENTION);
    assert Items(doc, "loadpoints") == doc["loadpoints"].items;
    assert !Seedable(host, Items(doc, "loadpoints")[i]);
    SeedingIff(host, written.(timezone := "Europe/Stockholm", retention := DEFAULT_RETENTION), doc);
  }

  lemma NamelessUntouched(host: Host, cur: Config, doc: Fields)
    requires OnlyNameless(doc)
    ensures doc.Keys == {"loadpoints"} && doc["loadpoints"].Arr?
    ensures Restored(host.registry, cur, doc) == doc
  {
    RestoreTouchesOnlyPlaceholders(host.registry, cur, doc);
  }

  lemma NamelessPasses(host: Host, doc: Fields, cur: Config)
    requires host.validZone("Europe/Stockholm") && OnlyNameless(doc)
    ensures Passes(host.Schema(), doc, Replace, cur)
  {
    hide ConfigSchema, ParseConfig, Defaults;
    SchemaIs(host);
    DefaultsParse(host.validZone);
    NoDocRows(doc, ORDER);
    NoLayer(Defaults(host.Schema()));
    forall kind | kind in ENTITIES ensures Null !in Items(doc, Section(kind)) {
      assert forall lp :: lp in Items(doc, Section(kind)) ==> lp.Obj?;
    }
  }

  // ---------- a value it has not seen ----------

  /** An entry under a text name, and one whose number for a name reads the same, with a target of its own. */
  function Shadowed(name: string, number: real, targetSoc: real): Fields {
    map["loadpoints" := Arr([Obj(Least(Loadpoint)["name" := Str(name)]),
                             Obj(map["name" := Num(number), "targetSoc" := Num(targetSoc)])])]
  }

  lemma {:induction false} NoRowsElsewhere(doc: Fields, kinds: seq<Kind>)
    requires doc.Keys == {"loadpoints"} && Loadpoint !in kinds
    ensures RowsOf(doc, kinds) == []
  {
    if kinds != [] {
      NoRowsElsewhere(doc, kinds[..|kinds| - 1]);
      var kind := kinds[|kinds| - 1];
      assert kind != Loadpoint && Section(kind) !in doc;
    }
  }

  lemma ShadowedRows(name: string, number: real, targetSoc: real)
    requires name != ""
    ensures DocRows(Shadowed(name, number, targetSoc)) == [Row(Key(Loadpoint, name), Least(Loadpoint))]
  {
    hide EntityRows, RowsOf, Least;
    var doc := Shadowed(name, number, targetSoc);
    OrderIsAllKinds(Loadpoint);
    LastRows(doc);
    ShadowedEntries(name, number, targetSoc);
  }

  lemma LastRows(doc: Fields)
    requires doc.Keys == {"loadpoints"}
    ensures DocRows(doc) == KindRows(doc, Loadpoint)
  {
    hide KindRows;
    NoRowsElsewhere(doc, ORDER[..8]);
    assert ORDER[..|ORDER| - 1] == ORDER[..8] && ORDER[|ORDER| - 1] == Loadpoint;
    assert [] + KindRows(doc, Loadpoint) == KindRows(doc, Loadpoint);
  }

  lemma ShadowedEntries(name: string, number: real, targetSoc: real)
    requires name != ""
    ensures EntityRows(Loadpoint, Shadowed(name, number, targetSoc)["loadpoints"].items)
         == [Row(Key(Loadpoint, name), Least(Loadpoint))]
  {
    var items := Shadowed(name, number, targetSoc)["loadpoints"].items;
    assert items[..1] == [items[0]] && items[..1][..0] == [];
    assert EntityRows(Loadpoint, []) == [];
    assert "name" !in Least(Loadpoint);
    assert items[0].fields - {"name"} == Least(Loadpoint);
    assert [] + [Row(Key(Loadpoint, name), Least(Loadpoint))] == [Row(Key(Loadpoint, name), Least(Loadpoint))];
    assert EntityRows(Loadpoint, items[..1]) == [Row(Key(Loadpoint, name), Least(Loadpoint))];
  }

  lemma ShadowedPasses(host: Host, name: string, number: real, targetSoc: real, cur: Config)
    requires host.validZone("Europe/Stockholm") && name != ""
    ensures Passes(host.Schema(), Shadowed(name, number, targetSoc), Replace, cur)
  {
    hide ConfigSchema, ParseConfig, Parse, Defaults, DocRows, Validate, LOADPOINT_SHAPE;
    var doc, schema := Shadowed(name, number, targetSoc), host.Schema();
    var row := Row(Key(Loadpoint, name), Least(Loadpoint));
    SchemaIs(host);
    LoadpointSchema(host.validZone);
    DefaultsParse(host.validZone);
    ShadowedRows(name, number, targetSoc);
    LeastSuffices(host.validZone, Loadpoint);
    NamesAreTexts(host.validZone, Loadpoint, name);
    LoadpointsKeepNames();
    NothingTaken(LOADPOINT_SHAPE);
    LeastIsEnough(LOADPOINT_SHAPE, name, Least(Loadpoint), map[]);
    OneParses(LOADPOINT_SHAPE, map["name" := Str(name)] + Least(Loadpoint));
    ValidatedList(schema, Defaults(schema), row);
    forall kind | kind in ENTITIES ensures Null !in Items(doc, Section(kind)) {
      assert forall lp :: lp in Items(doc, Section(kind)) ==> lp.Obj?;
    }
  }

  lemma NothingTaken(shape: Shape)
    ensures FieldsTaken(shape, map[])
  {
  }

  lemma ShadowedInits(host: Host, name: string, number: real, targetSoc: real)
    requires host.numberText(number) == name
    ensures var doc := Shadowed(name, number, targetSoc);
      var inits := Inits(host, Items(doc, "loadpoints"));
      inits.Some? && Accepted(inits.value) == |inits.value|
      && forall runtimes ::
           && name in Seed(runtimes, inits.value)
           && Get(Seed(runtimes, inits.value)[name], "targetSoc") == Some(Num(targetSoc))
  {
    var doc := Shadowed(name, number, targetSoc);
    var items := doc["loadpoints"].items;
    var a := LoadpointInit(name, items[0].fields);
    var b := LoadpointInit(name, items[1].fields);
    assert InitOf(host, items[0]) == Some(a) && InitOf(host, items[1]) == Some(b);
    var inits := Inits(host, items).value;
    assert inits == [a, b];
    AllAccepted(inits);
    assert Get(SeededState(b.fields), "targetSoc") == Some(Num(targetSoc));
    hide SeededState;
    assert inits[..1] == [a];
  }

  /** So an import can give a loadpoint any target, past the schema that confines it to 0 to 100 %. */
  lemma UncheckedTargetSeeds(host: Host, app: App, cur: Config, name: string, number: real, targetSoc: real)
    requires host.validZone("Europe/Stockholm") && name != "" && host.numberText(number) == name
    ensures var run := Import(host, app, Shadowed(name, number, targetSoc), Replace, cur, false);
      && run.Done?
      && name in run.after.runtimes && Get(run.after.runtimes[name], "targetSoc") == Some(Num(targetSoc))
  {
    hide *;
    var doc := Shadowed(name, number, targetSoc);
    ShadowedUntouched(host, cur, name, number, targetSoc);
    ShadowedPasses(host, name, number, targetSoc, cur);
    NamelessSettings(host, doc);
    ImportOf(host, app, doc, cur);
    ShadowedInits(host, name, number, targetSoc);
    var inits := Inits(host, Items(doc, "loadpoints")).value;
    DefaultDays();
    SettledAs(host, Written(app, Replace, doc), "Europe/Stockholm", DEFAULT_RETENTION, Items(doc, "loadpoints"), inits);
  }

  lemma DefaultDays()
    ensures 1 <= DEFAULT_RETENTION <= 365
  {
  }

  lemma ShadowedUntouched(host: Host, cur: Config, name: string, number: real, targetSoc: real)
    ensures var doc := Shadowed(name, number, targetSoc);
      && doc.Keys == {"loadpoints"} && doc["loadpoints"].Arr?
      && Restored(host.registry, cur, doc) == doc
  {
    RestoreTouchesOnlyPlaceholders(host.registry, cur, Shadowed(name, number, targetSoc));
  }
}
