/** JSON values and the zod object schemas that check them: src/core/config.ts. */
module Schema {
  import opened Prelude

  /** A value as JSON.parse and YAML yield it: a number too large to represent is infinite. */
  datatype Json =
    | Null
    | Bool(b: bool)
    | Num(n: real)
    | Inf(positive: bool)
    | Str(s: string)
    | Arr(items: seq<Json>)
    | Obj(fields: Fields)

  type Fields = map<string, Json>

  datatype Type =
    | Any
    | Flag
    | Text(okText: string -> bool)
    | Number(okNumber: real -> bool, okInfinite: bool -> bool)
    | Record(shape: Shape)

  datatype Field =
    | Required(t: Type)
    | Optional(t: Type)
    | Defaulted(t: Type, value: Json)

  /** `open` is zod's catchall: unknown keys pass through; otherwise they are stripped. */
  datatype Shape = Shape(fields: map<string, Field>, open: bool)

  function Get(o: Fields, k: string): Option<Json> {
    if k in o then Some(o[k]) else None
  }

  function Accept(t: Type, j: Json): Option<Json>
    decreases t, 0
  {
    match t
    case Any => Some(j)
    case Flag => if j.Bool? then Some(j) else None
    case Text(ok) => if j.Str? && ok(j.s) then Some(j) else None
    case Number(ok, okInfinite) =>
      if (j.Num? && ok(j.n)) || (j.Inf? && okInfinite(j.positive)) then Some(j) else None
    case Record(shape) =>
      if !j.Obj? then None
      else
        match Parse(shape, j.fields)
        case Some(f) => Some(Obj(f))
        case None => None
  }

  /** One declared field: None rejects the object, Some(None) leaves the key out. */
  function Fill(f: Field, o: Option<Json>): Option<Option<Json>>
    decreases f, 1
  {
    match o
    case Some(j) => (match Accept(f.t, j) case Some(v) => Some(Some(v)) case None => None)
    case None =>
      match f
      case Required(_) => None
      case Optional(_) => Some(None)
      case Defaulted(t, value) => (match Accept(t, value) case Some(v) => Some(Some(v)) case None => None)
  }

  function At(s: Shape, o: Fields, k: string): Option<Option<Json>>
    decreases s, 1
  {
    if k in s.fields then Fill(s.fields[k], Get(o, k))
    else Some(if s.open then Get(o, k) else None)
  }

  /** `schema.parse(o)`: None where zod throws. */
  function Parse(s: Shape, o: Fields): Option<Fields>
    decreases s, 2
  {
    if forall k <- s.fields :: At(s, o, k).Some? then
      Some(map k | k in s.fields.Keys + o.Keys && At(s, o, k).Some? && At(s, o, k).value.Some?
             :: At(s, o, k).value.value)
    else
      None
  }

  /** Parsing acts key by key. */
  lemma ParseAt(s: Shape, o: Fields)
    ensures Parse(s, o).Some? <==> forall k :: At(s, o, k).Some?
    ensures Parse(s, o).Some? ==> forall k :: At(s, o, k) == Some(Get(Parse(s, o).value, k))
  {
    if Parse(s, o).Some? {
      forall k ensures At(s, o, k) == Some(Get(Parse(s, o).value, k)) {
        assert k in s.fields ==> At(s, o, k).Some?;
      }
    } else {
      var k :| k in s.fields && At(s, o, k).None?;
      assert !At(s, o, k).Some?;
    }
  }

  /** A shape that treats every key of two objects alike gives them the same result. */
  lemma SameAtSameParse(s: Shape, a: Fields, b: Fields)
    requires forall k :: At(s, a, k) == At(s, b, k)
    ensures Parse(s, a) == Parse(s, b)
  {
    hide At;
    ParseAt(s, a);
    ParseAt(s, b);
    if Parse(s, a).Some? {
      var fa, fb := Parse(s, a).value, Parse(s, b).value;
      forall k ensures Get(fa, k) == Get(fb, k) {
        assert At(s, a, k) == At(s, b, k);
      }
      assert forall k :: k in fa <==> Get(fa, k).Some?;
      assert forall k :: k in fb <==> Get(fb, k).Some?;
      assert forall k :: k in fa ==> fa[k] == Get(fa, k).value;
      assert forall k :: k in fb ==> fb[k] == Get(fb, k).value;
      assert fa == fb;
    }
  }

  /** What a type lets through, it lets through again unchanged. */
  lemma {:induction false} AcceptTwice(t: Type, j: Json)
    requires Accept(t, j).Some?
    ensures Accept(t, Accept(t, j).value) == Accept(t, j)
    decreases t, 0
  {
    if t.Record? {
      ParseTwice(t.shape, j.fields);
    }
  }

  lemma {:induction false} AtTwice(s: Shape, o: Fields, parsed: Fields, k: string)
    requires At(s, o, k) == Some(Get(parsed, k))
    ensures At(s, parsed, k) == At(s, o, k)
    decreases s, 1
  {
    if k in s.fields {
      var f := s.fields[k];
      if k in o {
        AcceptTwice(f.t, o[k]);
      } else if f.Defaulted? {
        AcceptTwice(f.t, f.value);
      }
    }
  }

  lemma {:induction false} ParseTwice(s: Shape, o: Fields)
    requires Parse(s, o).Some?
    ensures Parse(s, Parse(s, o).value) == Parse(s, o)
    decreases s, 2
  {
    var parsed := Parse(s, o).value;
    ParseAt(s, o);
    forall k ensures At(s, parsed, k) == At(s, o, k) {
      AtTwice(s, o, parsed, k);
    }
    SameAtSameParse(s, parsed, o);
  }

  /**
   * Patching a parsed object and parsing again is parsing the patched original:
   * filling defaults and stripping unknown keys early changes nothing.
   */
  lemma {:induction false} ParseThenPatch(s: Shape, o: Fields, patch: Fields)
    requires Parse(s, o).Some?
    ensures Parse(s, Parse(s, o).value + patch) == Parse(s, o + patch)
  {
    hide At;
    var parsed := Parse(s, o).value;
    ParseAt(s, o);
    forall k ensures At(s, parsed + patch, k) == At(s, o + patch, k) {
      AtTwice(s, o, parsed, k);
      if k in patch {
        SameKeySameAt(s, parsed + patch, o + patch, k);
      } else {
        SameKeySameAt(s, parsed + patch, parsed, k);
        SameKeySameAt(s, o + patch, o, k);
      }
    }
    SameAtSameParse(s, parsed + patch, o + patch);
  }

  lemma SameKeySameAt(s: Shape, a: Fields, b: Fields, k: string)
    requires Get(a, k) == Get(b, k)
    ensures At(s, a, k) == At(s, b, k)
  {
  }

  // ---------- storing a value as JSON text ----------

  /** `JSON.parse(JSON.stringify(j))`: an infinite number comes back as null. */
  function Reread(j: Json): Json {
    match j
    case Inf(_) => Null
    case Arr(items) => Arr(seq(|items|, i requires 0 <= i < |items| => Reread(items[i])))
    case Obj(f) => Obj(map k | k in f :: Reread(f[k]))
    case _ => j
  }

  function RereadFields(f: Fields): Fields {
    map k | k in f :: Reread(f[k])
  }

  /** No number in `j` is infinite. */
  predicate Finite(j: Json) {
    match j
    case Inf(_) => false
    case Arr(items) => forall i :: 0 <= i < |items| ==> Finite(items[i])
    case Obj(f) => forall k <- f :: Finite(f[k])
    case _ => true
  }

  predicate FiniteFields(f: Fields) {
    forall k <- f :: Finite(f[k])
  }

  /** No number in `j` that the type keeps is infinite. */
  predicate KeptFinite(t: Type, j: Json)
    decreases t, 0
  {
    match t
    case Any => Finite(j)
    case Number(_, _) => !j.Inf?
    case Record(shape) => j.Obj? ==> KeptFiniteFields(shape, j.fields)
    case _ => true
  }

  predicate KeptFiniteFields(s: Shape, o: Fields)
    decreases s, 1
  {
    forall k <- o :: if k in s.fields then KeptFinite(s.fields[k].t, o[k]) else s.open ==> Finite(o[k])
  }

  lemma {:induction false} RereadIffFinite(j: Json)
    ensures Reread(j) == j <==> Finite(j)
    ensures Finite(Reread(j))
  {
    match j
    case Arr(items) =>
      forall i | 0 <= i < |items|
        ensures (Reread(items[i]) == items[i] <==> Finite(items[i])) && Finite(Reread(items[i]))
      {
        RereadIffFinite(items[i]);
      }
      if Reread(j) == j {
        forall i | 0 <= i < |items| ensures Finite(items[i]) {
          assert Reread(j).items[i] == items[i];
        }
      }
    case Obj(f) =>
      forall k | k in f ensures (Reread(f[k]) == f[k] <==> Finite(f[k])) && Finite(Reread(f[k])) {
        RereadIffFinite(f[k]);
      }
      if Reread(j) == j {
        forall k | k in f ensures Finite(f[k]) {
          assert Reread(j).fields[k] == f[k];
        }
      }
    case _ =>
  }

  lemma RereadFinite(f: Fields)
    ensures FiniteFields(RereadFields(f))
    ensures FiniteFields(f) ==> RereadFields(f) == f
  {
    forall k | k in f ensures Finite(Reread(f[k])) && (Finite(f[k]) ==> Reread(f[k]) == f[k]) {
      RereadIffFinite(f[k]);
    }
  }

  lemma RereadSum(a: Fields, b: Fields)
    ensures RereadFields(a + b) == RereadFields(a) + RereadFields(b)
    ensures RereadFields(RereadFields(a)) == RereadFields(a)
  {
    forall k | k in a ensures Reread(Reread(a[k])) == Reread(a[k]) {
      RereadIffFinite(a[k]);
      RereadIffFinite(Reread(a[k]));
    }
  }

  lemma {:induction false} FiniteIsKept(t: Type, j: Json)
    requires Finite(j)
    ensures KeptFinite(t, j)
    decreases t, 0
  {
    if t.Record? && j.Obj? {
      FiniteFieldsAreKept(t.shape, j.fields);
    }
  }

  lemma {:induction false} FiniteFieldsAreKept(s: Shape, o: Fields)
    requires FiniteFields(o)
    ensures KeptFiniteFields(s, o)
    decreases s, 1
  {
    forall k | k in o && k in s.fields ensures KeptFinite(s.fields[k].t, o[k]) {
      FiniteIsKept(s.fields[k].t, o[k]);
    }
  }

  /** Storing a value changes what the type makes of it exactly if it keeps an infinite number; a value that is
      accepted from the store would have been accepted before. */
  lemma {:induction false} RereadAcceptIff(t: Type, j: Json)
    ensures KeptFinite(t, j) ==> Accept(t, Reread(j)) == Accept(t, j)
    ensures Accept(t, j).Some? && Accept(t, Reread(j)) == Accept(t, j) ==> KeptFinite(t, j)
    ensures Accept(t, Reread(j)).Some? ==> Accept(t, j).Some?
    decreases t, 0
  {
    RereadIffFinite(j);
    if t.Record? && j.Obj? {
      RereadParseIff(t.shape, j.fields);
      assert Reread(j) == Obj(RereadFields(j.fields));
    }
  }

  lemma {:induction false} RereadAtIff(s: Shape, o: Fields, k: string)
    requires k in o
    ensures var kept := if k in s.fields then KeptFinite(s.fields[k].t, o[k]) else s.open ==> Finite(o[k]);
      && (kept ==> At(s, RereadFields(o), k) == At(s, o, k))
      && (At(s, o, k).Some? && At(s, RereadFields(o), k) == At(s, o, k) ==> kept)
    ensures At(s, RereadFields(o), k).Some? ==> At(s, o, k).Some?
    decreases s, 1
  {
    RereadIffFinite(o[k]);
    if k in s.fields {
      RereadAcceptIff(s.fields[k].t, o[k]);
      assert At(s, o, k) == Fill(s.fields[k], Some(o[k]));
      assert At(s, RereadFields(o), k) == Fill(s.fields[k], Some(Reread(o[k])));
    }
  }

  lemma {:induction false} RereadParseIff(s: Shape, o: Fields)
    ensures KeptFiniteFields(s, o) ==> Parse(s, RereadFields(o)) == Parse(s, o)
    ensures Parse(s, o).Some? && Parse(s, RereadFields(o)) == Parse(s, o) ==> KeptFiniteFields(s, o)
    ensures Parse(s, RereadFields(o)).Some? ==> Parse(s, o).Some?
    decreases s, 2
  {
    var stored := RereadFields(o);
    ParseAt(s, o);
    ParseAt(s, stored);
    forall k
      ensures KeptFiniteFields(s, o) ==> At(s, stored, k) == At(s, o, k)
      ensures At(s, stored, k).Some? ==> At(s, o, k).Some?
    {
      if k in o {
        RereadAtIff(s, o, k);
      } else {
        SameKeySameAt(s, stored, o, k);
      }
    }
    if KeptFiniteFields(s, o) {
      SameAtSameParse(s, stored, o);
    }
    if Parse(s, o).Some? && Parse(s, stored) == Parse(s, o) {
      forall k | k in o
        ensures if k in s.fields then KeptFinite(s.fields[k].t, o[k]) else s.open ==> Finite(o[k])
      {
        RereadAtIff(s, o, k);
      }
    }
  }

  /** The same for a patch, on whatever it lands. */
  lemma RereadPatchIff(s: Shape, o: Fields, patch: Fields)
    ensures KeptFiniteFields(s, patch) ==> Parse(s, o + RereadFields(patch)) == Parse(s, o + patch)
    ensures Parse(s, o + patch).Some? && Parse(s, o + RereadFields(patch)) == Parse(s, o + patch)
      ==> KeptFiniteFields(s, patch)
    ensures Parse(s, o + RereadFields(patch)).Some? ==> Parse(s, o + patch).Some?
  {
    hide At, Parse, Reread;
    var raw, stored := o + patch, o + RereadFields(patch);
    ParseAt(s, raw);
    ParseAt(s, stored);
    forall k
      ensures KeptFiniteFields(s, patch) ==> At(s, stored, k) == At(s, raw, k)
      ensures At(s, stored, k).Some? ==> At(s, raw, k).Some?
    {
      PatchedAt(s, o, patch, k);
    }
    if KeptFiniteFields(s, patch) {
      SameAtSameParse(s, stored, raw);
    }
    if Parse(s, raw).Some? && Parse(s, stored) == Parse(s, raw) {
      forall k | k in patch
        ensures if k in s.fields then KeptFinite(s.fields[k].t, patch[k]) else s.open ==> Finite(patch[k])
      {
        PatchedAt(s, o, patch, k);
        RereadAtIff(s, patch, k);
      }
    }
  }

  lemma PatchedAt(s: Shape, o: Fields, patch: Fields, k: string)
    ensures k in patch ==> At(s, o + patch, k) == At(s, patch, k)
    ensures k in patch ==> At(s, o + RereadFields(patch), k) == At(s, RereadFields(patch), k)
    ensures KeptFiniteFields(s, patch) ==> At(s, o + RereadFields(patch), k) == At(s, o + patch, k)
    ensures At(s, o + RereadFields(patch), k).Some? ==> At(s, o + patch, k).Some?
  {
    hide At, Reread;
    if k in patch {
      SameKeySameAt(s, o + patch, patch, k);
      SameKeySameAt(s, o + RereadFields(patch), RereadFields(patch), k);
      RereadAtIff(s, patch, k);
    } else {
      SameKeySameAt(s, o + RereadFields(patch), o + patch, k);
    }
  }

  /** Nothing the shape fills in by itself is infinite. */
  predicate FiniteType(t: Type)
    decreases t, 0
  {
    t.Record? ==> FiniteShape(t.shape)
  }

  predicate FiniteShape(s: Shape)
    decreases s, 1
  {
    forall k <- s.fields :: FiniteField(s.fields[k])
  }

  predicate FiniteField(f: Field)
    decreases f, 1
  {
    FiniteType(f.t) && (f.Defaulted? ==> Finite(f.value))
  }

  lemma {:induction false} AcceptStaysFinite(t: Type, j: Json)
    requires FiniteType(t) && Finite(j) && Accept(t, j).Some?
    ensures Finite(Accept(t, j).value)
    decreases t, 0
  {
    if t.Record? {
      ParseStaysFinite(t.shape, j.fields);
    }
  }

  /** A finite object parses to a finite one. */
  lemma {:induction false} ParseStaysFinite(s: Shape, o: Fields)
    requires FiniteShape(s) && FiniteFields(o) && Parse(s, o).Some?
    ensures FiniteFields(Parse(s, o).value)
    decreases s, 2
  {
    var parsed := Parse(s, o).value;
    ParseAt(s, o);
    forall k | k in parsed ensures Finite(parsed[k]) {
      assert At(s, o, k) == Some(Get(parsed, k));
      if k in s.fields {
        var f := s.fields[k];
        assert FiniteField(f) && Fill(f, Get(o, k)) == Some(Some(parsed[k]));
        if k in o {
          AcceptStaysFinite(f.t, o[k]);
        } else {
          AcceptStaysFinite(f.t, f.value);
        }
      }
    }
  }
}
