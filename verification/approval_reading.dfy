/** Whether a binding fixes what a handler reads. Handlers decode into structures: the name of a field may be
    in any letter case, fields are assigned in the order they stand, and null assigns nothing. */
module ApprovalReading {
  import opened Options
  import opened Text
  import opened CanonicalJson
  import opened ApprovalTickets
  import opened ApprovalGate
  import opened ApprovalPromises

  /** What ends up in the field of the given name, in lower case, that holds a text, a number or a flag. */
  function Assigned(fields: seq<Field>, name: string): Option<JsonValue> {
    if fields == [] then None
    else
      var f := fields[|fields| - 1];
      if Assigns(f, name) then Some(f.value) else Assigned(fields[..|fields| - 1], name)
  }

  predicate Assigns(f: Field, name: string) {
    FoldName(f.name) == name && !f.value.Null?
  }

  function Reading(b: Body, name: string): Option<JsonValue> {
    if b.JsonBody? && b.value.Obj? then Assigned(b.value.fields, name) else None
  }

  /** The decision endpoint reads its one field this way. */
  lemma {:induction false} DecisionIsAssigned(fields: seq<Field>, name: string)
    requires AssignedText(fields, name).Some?
    ensures AssignedText(fields, name).value ==
      match Assigned(fields, name) case None => "" case Some(v) => if v.Str? then v.text else ""
    ensures Assigned(fields, name).Some? ==> Assigned(fields, name).value.Str?
  {
    if fields != [] {
      DecisionIsAssigned(fields[..|fields| - 1], name);
    }
  }

  // ---------- the decision endpoint ----------

  /** The letters of `decision` in any case; the long s counts as one. */
  predicate SpellsDecision(name: string) {
    && |name| == 8
    && name[0] in {'d', 'D'} && name[1] in {'e', 'E'} && name[2] in {'c', 'C'} && name[3] in {'i', 'I'}
    && name[4] in {'s', 'S', '\U{017F}'} && name[5] in {'i', 'I'} && name[6] in {'o', 'O'} && name[7] in {'n', 'N'}
  }

  lemma FoldedDecision(name: string)
    ensures FoldName(name) == "decision" <==> SpellsDecision(name)
  {
    var word := "decision";
    if FoldName(name) == word {
      assert forall i :: 0 <= i < 8 ==> FoldChar(name[i]) == FoldName(name)[i] == word[i];
    }
    if SpellsDecision(name) {
      forall i | 0 <= i < 8 ensures FoldName(name)[i] == word[i] {
      }
    }
  }

  /** The field reads `text`: it is the last that is not null. */
  predicate SaysLast(fields: seq<Field>, text: string) {
    exists i :: 0 <= i < |fields| && fields[i].value == Str(text) && forall j :: i < j < |fields| ==> fields[j].value.Null?
  }

  predicate OnlyDecisions(fields: seq<Field>) {
    forall i :: 0 <= i < |fields| ==> SpellsDecision(fields[i].name) && (fields[i].value.Str? || fields[i].value.Null?)
  }

  /** An object that has no other field than the decision, in whatever spelling, and says `text`. */
  predicate DecidesFor(b: Body, text: string) {
    b.JsonBody? && b.value.Obj? && OnlyDecisions(b.value.fields) && SaysLast(b.value.fields, text)
  }

  lemma OneMoreSays(front: seq<Field>, f: Field, text: string)
    ensures SaysLast(front + [f], text) <==> f.value == Str(text) || (f.value.Null? && SaysLast(front, text))
  {
    var fields := front + [f];
    assert fields[|front|] == f && forall j :: 0 <= j < |front| ==> front[j] == fields[j];
    if f.value == Str(text) {
      assert fields[|front|].value == Str(text);
    } else if SaysLast(fields, text) {
      var i :| 0 <= i < |fields| && fields[i].value == Str(text) && forall j :: i < j < |fields| ==> fields[j].value.Null?;
      assert f.value.Null? && front[i].value == Str(text);
    }
  }

  lemma OnlyOneMore(front: seq<Field>, f: Field)
    ensures OnlyDecisions(front + [f]) <==>
            OnlyDecisions(front) && SpellsDecision(f.name) && (f.value.Str? || f.value.Null?)
  {
    if OnlyDecisions(front + [f]) {
      assert (front + [f])[|front|] == f;
      assert forall i :: 0 <= i < |front| ==> (front + [f])[i] == front[i];
    }
  }

  lemma {:induction false} AssignedTextIs(fields: seq<Field>, text: string)
    requires text != ""
    ensures AssignedText(fields, "decision").Some? <==> OnlyDecisions(fields)
    ensures AssignedText(fields, "decision") == Some(text) <==> OnlyDecisions(fields) && SaysLast(fields, text)
  {
    if fields != [] {
      var front, f := fields[..|fields| - 1], fields[|fields| - 1];
      assert fields == front + [f];
      AssignedTextIs(front, text);
      FoldedDecision(f.name);
      OneMoreSays(front, f, text);
      OnlyOneMore(front, f);
    }
  }

  lemma DecidesForIs(b: Body, text: string)
    requires text != ""
    ensures DecodedDecision(b) == Some(text) <==> DecidesFor(b, text)
  {
    if b.JsonBody? && b.value.Obj? {
      AssignedTextIs(b.value.fields, text);
    }
  }

  /** Where the suffix reaches into the prefix, only one path ends with it. */
  lemma ShortRest(rest: string)
    requires HasSuffix("/v1/approvals/" + rest, "/decision") && rest != "decision"
    ensures HasSuffix(rest, "/decision")
  {
    var path := "/v1/approvals/" + rest;
    var tail := path[|path| - 9..];
    var n := if |rest| < 8 then |rest| else 8;
    assert tail[8 - n] == path[|path| - 1 - n];
    var last := tail[1..];
    assert |rest| == 8 ==> rest == last;
    assert |rest| > 8 ==> rest[|rest| - 9..] == tail;
  }

  lemma VerdictPath(rest: string, id: string)
    ensures HasSuffix("/v1/approvals/" + rest, "/decision") && TrimSuffix(rest, "/decision") == id <==>
            rest == id + "/decision" || (rest == "decision" && id == "decision")
  {
    var path := "/v1/approvals/" + rest;
    if rest == "decision" {
      assert path[|path| - 9..] == "/decision";
    } else if HasSuffix(path, "/decision") {
      ShortRest(rest);
      assert rest == rest[..|rest| - 9] + "/decision";
    }
    if rest == id + "/decision" {
      assert rest[|rest| - 9..] == "/decision" && rest[..|rest| - 9] == id;
    }
  }

  /** Which requests to the decision endpoint carry a decision, and which one. */
  lemma VerdictIs(r: Request, id: string, approve: bool)
    requires "/v1/approvals/" <= r.path
    ensures VerdictOf(r) == Some(Verdict(id, approve)) <==>
      && r.verb == "POST" && id != "" && '/' !in id
      && (r.path == "/v1/approvals/" + id + "/decision" || (r.path == "/v1/approvals/decision" && id == "decision"))
      && DecidesFor(r.body, if approve then "approve" else "deny")
  {
    var rest := r.path[|"/v1/approvals/"|..];
    assert r.path == "/v1/approvals/" + rest;
    VerdictPath(rest, id);
    assert r.path == "/v1/approvals/" + id + "/decision" <==> rest == id + "/decision";
    assert r.path == "/v1/approvals/decision" <==> rest == "decision";
    DecidesForIs(r.body, "approve");
    DecidesForIs(r.body, "deny");
  }

  predicate ReadAlike(a: Body, b: Body, name: string) {
    match (Reading(a, name), Reading(b, name))
    case (None, None) => true
    case (Some(v), Some(w)) => SameAsFloats(v, w)
    case _ => false
  }

  /** No field that assigns it is null in the end, and those that differ in letter case agree. */
  predicate Unambiguous(fields: seq<Field>, name: string) {
    && (forall k :: k in Names(fields) && FoldName(k) == name ==> !Final(fields, k).Null?)
    && (forall k, l :: k in Names(fields) && l in Names(fields) && FoldName(k) == name && FoldName(l) == name ==>
          SameAsFloats(Final(fields, k), Final(fields, l)))
  }

  // ---------- same as floats is an equivalence ----------

  lemma SameBoth(u: JsonValue, v: JsonValue, w: JsonValue)
    ensures SameAsFloats(v, v)
    ensures SameAsFloats(u, v) ==> (SameAsFloats(u, w) <==> SameAsFloats(v, w))
    ensures SameAsFloats(u, v) <==> SameAsFloats(v, u)
  {
    CanonicalMergesFloatsOnly(v, v);
    CanonicalMergesFloatsOnly(u, v);
    CanonicalMergesFloatsOnly(v, u);
    CanonicalMergesFloatsOnly(u, w);
    CanonicalMergesFloatsOnly(v, w);
  }

  // ---------- what is assigned ----------

  lemma {:induction false} AssignedAt(fields: seq<Field>, name: string) returns (i: int)
    ensures match Assigned(fields, name)
      case None => forall j :: 0 <= j < |fields| ==> !Assigns(fields[j], name)
      case Some(v) =>
        && 0 <= i < |fields| && Assigns(fields[i], name) && v == fields[i].value
        && forall j :: i < j < |fields| ==> !Assigns(fields[j], name)
  {
    i := |fields| - 1;
    if fields != [] && !Assigns(fields[i], name) {
      i := AssignedAt(fields[..|fields| - 1], name);
    }
  }

  /** Without a null in the end, what is assigned is the value that counts for one of the names. */
  lemma AssignedIsFinal(fields: seq<Field>, name: string) returns (k: string)
    requires forall k :: k in Names(fields) && FoldName(k) == name ==> !Final(fields, k).Null?
    ensures match Assigned(fields, name)
      case None => forall l :: l in Names(fields) ==> FoldName(l) != name
      case Some(v) => k in Names(fields) && FoldName(k) == name && v == Final(fields, k)
  {
    var i := AssignedAt(fields, name);
    k := "";
    if Assigned(fields, name).Some? {
      k := fields[i].name;
      assert fields[i] in fields;
      assert Assigns(fields[LastAt(fields, k)], name);
    } else {
      forall l | l in Names(fields)
        ensures FoldName(l) != name
      {
        assert !Assigns(fields[LastAt(fields, l)], name);
      }
    }
  }

  lemma SameNulls(v: JsonValue, w: JsonValue)
    requires SameAsFloats(v, w)
    ensures v.Null? <==> w.Null?
  {
  }

  lemma AlikeIsUnambiguous(a: seq<Field>, b: seq<Field>, name: string)
    requires SameAsFloats(Obj(a), Obj(b)) && Unambiguous(a, name)
    ensures match (Assigned(a, name), Assigned(b, name))
      case (None, None) => true
      case (Some(v), Some(w)) => SameAsFloats(v, w)
      case _ => false
  {
    forall k | k in Names(b)
      ensures k in Names(a) && SameAsFloats(Final(a, k), Final(b, k)) && (Final(a, k).Null? <==> Final(b, k).Null?)
    {
      assert SameAsFloats(a[LastAt(a, k)].value, b[LastAt(b, k)].value);
      SameNulls(Final(a, k), Final(b, k));
    }
    var k := AssignedIsFinal(a, name);
    var l := AssignedIsFinal(b, name);
    if Assigned(a, name).Some? && Assigned(b, name).Some? {
      SameBoth(Final(a, l), Final(b, l), Final(a, k));
      SameBoth(Final(a, k), Final(a, l), Final(b, l));
    }
  }

  // ---------- bodies hashed alike ----------

  lemma LastOfMore(fields: seq<Field>, f: Field, name: string)
    requires name in Names(fields + [f])
    ensures if f.name == name then LastAt(fields + [f], name) == |fields|
            else name in Names(fields) && LastAt(fields + [f], name) == LastAt(fields, name)
  {
    NamesOfMore(fields, f);
    var i := LastAt(fields + [f], name);
    assert f.name == name ==> (fields + [f])[|fields|].name == name;
    if f.name != name {
      var j := LastAt(fields, name);
      assert (fields + [f])[j].name == name;
      assert fields[i].name == name;
    }
  }

  /** The body with one more field at its end. */
  function Extended(b: Body, f: Field): Body
    requires b.JsonBody? && b.value.Obj?
  {
    b.(value := Obj(b.value.fields + [f]))
  }

  lemma ExtendedReads(b: Body, f: Field, name: string)
    requires b.JsonBody? && b.value.Obj?
    ensures Reading(Extended(b, f), name) == if Assigns(f, name) then Some(f.value) else Reading(b, name)
  {
    assert (b.value.fields + [f])[..|b.value.fields|] == b.value.fields;
  }

  lemma ExtendedDecodes(b: Body, f: Field)
    requires Decodes(b) && b.value.Obj? && InFloatRange(f.value)
    ensures Decodes(Extended(b, f))
  {
  }

  /** Repeating the value that counts, with or without another before it, leaves the hash as it is. */
  lemma RepeatedIsAlike(b: Body, k: string, between: seq<Field>)
    requires Decodes(b) && b.value.Obj? && k in Names(b.value.fields)
    requires between == [] || exists v :: between == [Field(k, v)] && InFloatRange(v)
    ensures var last := Field(k, Final(b.value.fields, k));
      HashedAlike(b, b.(value := Obj(b.value.fields + between + [last])))
  {
    var fields := b.value.fields;
    var last := Field(k, Final(fields, k));
    var longer := fields + between + [last];
    NamesOfMore(fields + between, last);
    if between != [] {
      NamesOfMore(fields, between[0]);
    } else {
      assert fields + between == fields;
    }
    assert Names(longer) == Names(fields);
    forall n | n in Names(fields)
      ensures SameAsFloats(fields[LastAt(fields, n)].value, longer[LastAt(longer, n)].value)
    {
      LastOfMore(fields + between, last, n);
      if n != k && between != [] {
        LastOfMore(fields, between[0], n);
      }
      SameBoth(Final(fields, n), Final(fields, n), Final(fields, n));
    }
    assert SameAsFloats(Obj(fields), Obj(longer));
    forall i | 0 <= i < |longer|
      ensures InFloatRange(longer[i].value)
    {
      assert i < |fields| ==> longer[i] == fields[i];
      assert InFloatRange(fields[LastAt(fields, k)].value);
    }
  }

  /** A name that is null in the end leaves open what stands before. */
  lemma NullLeavesOpen(a: Body, name: string, k: string) returns (b: Body)
    requires Decodes(a) && a.value.Obj? && k in Names(a.value.fields) && FoldName(k) == name
    requires Final(a.value.fields, k).Null?
    ensures HashedAlike(a, b) && !ReadAlike(a, b, name)
  {
    var text := if Reading(a, name) == Some(Str("x")) then "y" else "x";
    var f := Field(k, Str(text));
    RepeatedIsAlike(a, k, [f]);
    b := Extended(Extended(a, f), Field(k, Null));
    ExtendedReads(a, f, name);
    ExtendedReads(Extended(a, f), Field(k, Null), name);
  }

  /** Two names that differ leave open which stands last. */
  lemma DifferenceLeavesOpen(a: Body, name: string, k: string, l: string) returns (b: Body)
    requires Decodes(a) && a.value.Obj? && k in Names(a.value.fields) && l in Names(a.value.fields)
    requires FoldName(k) == name && FoldName(l) == name
    requires !Final(a.value.fields, k).Null? && !Final(a.value.fields, l).Null?
    requires !SameAsFloats(Final(a.value.fields, k), Final(a.value.fields, l))
    ensures HashedAlike(a, b) && !ReadAlike(a, b, name)
  {
    var v, w := Final(a.value.fields, k), Final(a.value.fields, l);
    RepeatedIsAlike(a, k, []);
    RepeatedIsAlike(a, l, []);
    assert a.value.fields + [] == a.value.fields;
    ExtendedReads(a, Field(k, v), name);
    ExtendedReads(a, Field(l, w), name);
    if ReadAlike(a, Extended(a, Field(k, v)), name) {
      SameBoth(Reading(a, name).value, v, w);
      b := Extended(a, Field(l, w));
    } else {
      b := Extended(a, Field(k, v));
    }
  }

  /** All bodies that share a body's hash are read alike, as far as floats go, exactly when the field is
      unambiguous in it. */
  lemma BindingFixesReading(a: Body, name: string)
    requires Decodes(a) && a.value.Obj?
    ensures Unambiguous(a.value.fields, name) <==> forall b :: HashedAlike(a, b) ==> ReadAlike(a, b, name)
  {
    var fields := a.value.fields;
    if Unambiguous(fields, name) {
      forall b | HashedAlike(a, b)
        ensures ReadAlike(a, b, name)
      {
        AlikeReadsAlike(a, b, name);
      }
    } else if k :| k in Names(fields) && FoldName(k) == name && Final(fields, k).Null? {
      var b := NullLeavesOpen(a, name, k);
    } else {
      var k, l :| k in Names(fields) && l in Names(fields) && FoldName(k) == name && FoldName(l) == name
                  && !SameAsFloats(Final(fields, k), Final(fields, l));
      var b := DifferenceLeavesOpen(a, name, k, l);
    }
  }

  lemma AlikeReadsAlike(a: Body, b: Body, name: string)
    requires Decodes(a) && a.value.Obj? && Unambiguous(a.value.fields, name) && HashedAlike(a, b)
    ensures ReadAlike(a, b, name)
  {
    if a == b {
      CanonicalMergesFloatsOnly(a.value, b.value);
    }
    AlikeIsUnambiguous(a.value.fields, b.value.fields, name);
  }

  lemma SwappedIsAlike(p: Field, q: Field, layout: string)
    requires p.name != q.name && InFloatRange(p.value) && InFloatRange(q.value)
    ensures HashedAlike(JsonBody(Obj([p, q]), layout, ""), JsonBody(Obj([q, p]), layout, ""))
  {
    var a, b := [p, q], [q, p];
    assert a[0] in a && a[1] in a && b[0] in b && b[1] in b;
    assert Names(a) == {p.name, q.name} == Names(b);
    assert LastAt(a, p.name) == 0 && LastAt(a, q.name) == 1 && LastAt(b, p.name) == 1 && LastAt(b, q.name) == 0;
    SameBoth(p.value, p.value, p.value);
    SameBoth(q.value, q.value, q.value);
    assert SameAsFloats(a[0].value, b[1].value) && SameAsFloats(a[1].value, b[0].value);
    assert SameAsFloats(Obj(a), Obj(b));
  }

  /** Names that differ in letter case only: the order decides what is read, but not what is hashed. */
  lemma CaseDecidesByOrder(layout: string)
    ensures var p, q := Field("path", Str("/a")), Field("PATH", Str("/b"));
      var a, b := JsonBody(Obj([p, q]), layout, ""), JsonBody(Obj([q, p]), layout, "");
      HashedAlike(a, b) && Reading(a, "path") == Some(Str("/b")) && Reading(b, "path") == Some(Str("/a"))
  {
    var p, q := Field("path", Str("/a")), Field("PATH", Str("/b"));
    assert FoldName(p.name) == "path" == FoldName(q.name);
    assert p.name[0] != q.name[0];
    SwappedIsAlike(p, q, layout);
  }

  /** A handler that runs with a ticket reads, in every unambiguous field, what the request that was asked
      about says. */
  lemma ApprovedReadingIsRead(policy: Policy, ttl: Time, log: Log, n: nat, id: string, name: string) returns (c: nat)
    requires Genuine(policy, ttl, log) && FreshTickets(log) && n < |log| && RunsWith(log, n, id)
    ensures c < n && Asked(log, c, id)
    ensures var a, b := log[c].request.body, log[n].request.body;
      Decodes(a) && a.value.Obj? && Unambiguous(a.value.fields, name) ==> ReadAlike(a, b, name)
  {
    var d;
    c, d := RunIsApproved(policy, ttl, log, n, id);
    var a, b := log[c].request.body, log[n].request.body;
    if Decodes(a) && a.value.Obj? && Unambiguous(a.value.fields, name) {
      AlikeReadsAlike(a, b, name);
    }
  }
}
