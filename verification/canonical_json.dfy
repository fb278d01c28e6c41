/** JSON values as they are sent, and the form they take when they are decoded without a type and
    encoded again: the last of several fields with one name counts, the order of fields is lost, and
    every number becomes a 64-bit float. */
module CanonicalJson {
  import opened JsonNumbers

  datatype Field = Field(name: string, value: JsonValue)

  datatype JsonValue =
    | Obj(fields: seq<Field>)
    | Arr(items: seq<JsonValue>)
    | Str(text: string)
    | Bool(value: bool)
    | Null
    | Num(number: Decimal)

  datatype CanonicalValue =
    | ObjForm(forms: map<string, CanonicalValue>)
    | ArrForm(list: seq<CanonicalValue>)
    | StrForm(text: string)
    | BoolForm(value: bool)
    | NullForm
    | NumForm(float: Float)

  // ---------- fields ----------

  function Names(fields: seq<Field>): set<string> {
    set f | f in fields :: f.name
  }

  lemma NamesOfMore(fields: seq<Field>, f: Field)
    ensures Names(fields + [f]) == Names(fields) + {f.name}
  {
    forall name ensures name in Names(fields + [f]) <==> name in Names(fields) || name == f.name {
      if name in Names(fields) {
        var g :| g in fields && g.name == name;
        assert g in fields + [f];
      }
      if name == f.name {
        assert f in fields + [f];
      }
    }
  }

  /** Where the name stands last. */
  function LastAt(fields: seq<Field>, name: string): (i: nat)
    requires name in Names(fields)
    ensures i < |fields| && fields[i].name == name
    ensures forall j :: i < j < |fields| ==> fields[j].name != name
  {
    var n := |fields| - 1;
    assert fields == fields[..n] + [fields[n]];
    NamesOfMore(fields[..n], fields[n]);
    if fields[n].name == name then n else LastAt(fields[..n], name)
  }

  /** The value that counts. */
  function Final(fields: seq<Field>, name: string): JsonValue
    requires name in Names(fields)
  {
    fields[LastAt(fields, name)].value
  }

  // ---------- canonical values ----------

  function Canonical(v: JsonValue): CanonicalValue {
    match v
    case Obj(fields) => ObjForm(map k | k in Names(fields) :: Canonical(fields[LastAt(fields, k)].value))
    case Arr(items) => ArrForm(seq(|items|, i requires 0 <= i < |items| => Canonical(items[i])))
    case Str(text) => StrForm(text)
    case Bool(value) => BoolForm(value)
    case Null => NullForm
    case Num(d) => NumForm(FloatOf(d))
  }

  /** The same value, up to layout, field order and overwritten fields; numbers are compared as they are
      written, or by the floats that stand for them. */
  predicate Same(v: JsonValue, w: JsonValue, exact: bool)
    decreases v
  {
    match v
    case Obj(fields) =>
      w.Obj? && Names(fields) == Names(w.fields)
      && forall k :: k in Names(fields) ==> Same(fields[LastAt(fields, k)].value, w.fields[LastAt(w.fields, k)].value, exact)
    case Arr(items) =>
      w.Arr? && |items| == |w.items| && forall i :: 0 <= i < |items| ==> Same(items[i], w.items[i], exact)
    case Num(d) => w.Num? && if exact then d == w.number else FloatOf(d) == FloatOf(w.number)
    case _ => v == w
  }

  predicate SameAsFloats(v: JsonValue, w: JsonValue) {
    Same(v, w, false)
  }

  /** Two values have one canonical form exactly when they are the same as floats. */
  lemma {:induction false} CanonicalMergesFloatsOnly(v: JsonValue, w: JsonValue)
    ensures Canonical(v) == Canonical(w) <==> SameAsFloats(v, w)
    decreases v
  {
    match v
    case Obj(fields) =>
      if w.Obj? && Names(fields) == Names(w.fields) {
        forall k | k in Names(fields)
          ensures Canonical(v).forms[k] == Canonical(w).forms[k] <==>
                  SameAsFloats(fields[LastAt(fields, k)].value, w.fields[LastAt(w.fields, k)].value)
        {
          CanonicalMergesFloatsOnly(fields[LastAt(fields, k)].value, w.fields[LastAt(w.fields, k)].value);
        }
        SameMaps(Canonical(v).forms, Canonical(w).forms);
      } else if w.Obj? {
        assert Canonical(v).forms.Keys == Names(fields) && Canonical(w).forms.Keys == Names(w.fields);
      }
    case Arr(items) =>
      if w.Arr? && |items| == |w.items| {
        forall i | 0 <= i < |items|
          ensures Canonical(v).list[i] == Canonical(w).list[i] <==> SameAsFloats(items[i], w.items[i])
        {
          CanonicalMergesFloatsOnly(items[i], w.items[i]);
        }
        SameLists(Canonical(v).list, Canonical(w).list);
      } else if w.Arr? {
        assert |Canonical(v).list| == |items| && |Canonical(w).list| == |w.items|;
      }
    case _ =>
  }

  lemma SameMaps(f: map<string, CanonicalValue>, g: map<string, CanonicalValue>)
    requires f.Keys == g.Keys
    ensures f == g <==> forall k :: k in f.Keys ==> f[k] == g[k]
  {
  }

  lemma SameLists(f: seq<CanonicalValue>, g: seq<CanonicalValue>)
    requires |f| == |g|
    ensures f == g <==> forall i :: 0 <= i < |f| ==> f[i] == g[i]
  {
  }

  /** All numbers are whole, below 53 bits, and written as such. */
  predicate Small(v: JsonValue) {
    match v
    case Obj(fields) => forall i :: 0 <= i < |fields| ==> Small(fields[i].value)
    case Arr(items) => forall i :: 0 <= i < |items| ==> Small(items[i])
    case Num(d) => SmallNumber(d)
    case _ => true
  }

  /** Then the floats tell the numbers apart as they are written. */
  lemma {:induction false} SmallValuesAreExact(v: JsonValue, w: JsonValue)
    requires Small(v) && Small(w)
    ensures SameAsFloats(v, w) <==> Same(v, w, true)
    decreases v
  {
    match v
    case Obj(fields) =>
      if w.Obj? && Names(fields) == Names(w.fields) {
        forall k | k in Names(fields)
          ensures SameAsFloats(fields[LastAt(fields, k)].value, w.fields[LastAt(w.fields, k)].value) <==>
                  Same(fields[LastAt(fields, k)].value, w.fields[LastAt(w.fields, k)].value, true)
        {
          SmallValuesAreExact(fields[LastAt(fields, k)].value, w.fields[LastAt(w.fields, k)].value);
        }
      }
    case Arr(items) =>
      if w.Arr? && |items| == |w.items| {
        forall i | 0 <= i < |items|
          ensures SameAsFloats(items[i], w.items[i]) <==> Same(items[i], w.items[i], true)
        {
          SmallValuesAreExact(items[i], w.items[i]);
        }
      }
    case Num(d) =>
      if w.Num? {
        SmallNumbersAreExact(d, w.number);
      }
    case _ =>
  }

  // ---------- bodies ----------

  /** A request body: nothing; a JSON value in some layout and what follows it, white space aside; or
      bytes that begin with no JSON value. */
  datatype Body = Empty | JsonBody(value: JsonValue, layout: string, rest: string) | RawBody(bytes: string)

  /** Every number has a float, the overwritten ones included. */
  predicate InFloatRange(v: JsonValue) {
    match v
    case Obj(fields) => forall i :: 0 <= i < |fields| ==> InFloatRange(fields[i].value)
    case Arr(items) => forall i :: 0 <= i < |items| ==> InFloatRange(items[i])
    case Num(d) => InRange(d)
    case _ => true
  }

  /** The body as a whole is one JSON value. */
  predicate Decodes(b: Body) {
    b.JsonBody? && b.rest == "" && InFloatRange(b.value)
  }

  /** A body as the hash sees it: JSON in canonical form, anything else verbatim. */
  datatype HashedBody = NoBody | Json(value: CanonicalValue) | Verbatim(body: Body)

  function CanonicalBody(b: Body): HashedBody {
    if b.Empty? then NoBody else if Decodes(b) then Json(Canonical(b.value)) else Verbatim(b)
  }

  /** Bodies that are hashed alike: equal ones, and JSON that is the same as floats. */
  predicate HashedAlike(a: Body, b: Body) {
    a == b || (Decodes(a) && Decodes(b) && SameAsFloats(a.value, b.value))
  }

  lemma HashedAlikeExactly(a: Body, b: Body)
    ensures CanonicalBody(a) == CanonicalBody(b) <==> HashedAlike(a, b)
  {
    if Decodes(a) && Decodes(b) {
      CanonicalMergesFloatsOnly(a.value, b.value);
    }
  }
}
