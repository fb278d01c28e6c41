/** Lexical path algebra: `within` and the destination of an archive entry. */
module Paths {
  import opened Options

  // ---------- slash-separated paths ----------

  function Split(s: string): (segs: seq<string>)
    ensures |segs| > 0
  {
    if s == "" then [""]
    else if s[0] == '/' then [""] + Split(s[1..])
    else
      var rest := Split(s[1..]);
      [[s[0]] + rest[0]] + rest[1..]
  }

  function Join(segs: seq<string>): string {
    if segs == [] then ""
    else if |segs| == 1 then segs[0]
    else segs[0] + "/" + Join(segs[1..])
  }

  /** An ordinary name. */
  predicate Plain(seg: string) {
    seg != "" && seg != "." && seg != ".." && '/' !in seg
  }

  predicate AllPlain(segs: seq<string>) {
    forall i :: 0 <= i < |segs| ==> Plain(segs[i])
  }

  /** The absolute path with these segments. */
  function Abs(segs: seq<string>): string {
    "/" + Join(segs)
  }

  lemma {:induction false} SplitAtSlash(a: string, rest: string)
    requires '/' !in a
    ensures Split(a + "/" + rest) == [a] + Split(rest)
  {
    if a == "" {
      assert (a + "/" + rest)[1..] == rest;
    } else {
      assert (a + "/" + rest)[1..] == a[1..] + "/" + rest;
      SplitAtSlash(a[1..], rest);
      assert [a[0]] + a[1..] == a;
    }
  }

  lemma {:induction false} SplitSingle(a: string)
    requires '/' !in a
    ensures Split(a) == [a]
  {
    if a != "" {
      SplitSingle(a[1..]);
      assert [a[0]] + a[1..] == a;
    }
  }

  lemma {:induction false} SplitJoin(segs: seq<string>)
    requires |segs| > 0 && forall i :: 0 <= i < |segs| ==> '/' !in segs[i]
    ensures Split(Join(segs)) == segs
  {
    if |segs| == 1 {
      SplitSingle(segs[0]);
    } else {
      SplitAtSlash(segs[0], Join(segs[1..]));
      SplitJoin(segs[1..]);
    }
  }

  // ---------- normal forms ----------

  function Push(stack: seq<string>, seg: string, rooted: bool): seq<string> {
    if seg == "" || seg == "." then stack
    else if seg != ".." then stack + [seg]
    else if stack != [] && stack[|stack| - 1] != ".." then stack[..|stack| - 1]
    else if rooted then stack
    else stack + [seg]
  }

  function Normal(segs: seq<string>, rooted: bool): seq<string> {
    if segs == [] then [] else Push(Normal(segs[..|segs| - 1], rooted), segs[|segs| - 1], rooted)
  }

  predicate IsAbs(s: string) {
    s != "" && s[0] == '/'
  }

  function Render(segs: seq<string>, rooted: bool): string {
    if rooted then Abs(segs) else if segs == [] then "." else Join(segs)
  }

  function Clean(s: string): string {
    Render(Normal(Split(s), IsAbs(s)), IsAbs(s))
  }

  lemma {:induction false} NormalOfPlain(before: seq<string>, segs: seq<string>, rooted: bool)
    requires AllPlain(segs)
    ensures Normal(before + segs, rooted) == Normal(before, rooted) + segs
  {
    if segs == [] {
      assert before + segs == before;
    } else {
      NormalOfPlain(before, segs[..|segs| - 1], rooted);
      assert (before + segs)[..|before + segs| - 1] == before + segs[..|segs| - 1];
    }
  }

  // ---------- relative paths and containment ----------

  function CommonPrefix(a: seq<string>, b: seq<string>): nat {
    if a != [] && b != [] && a[0] == b[0] then 1 + CommonPrefix(a[1..], b[1..]) else 0
  }

  lemma {:induction false} CommonPrefixIsCommon(a: seq<string>, b: seq<string>)
    ensures CommonPrefix(a, b) <= |a| && CommonPrefix(a, b) <= |b|
    ensures a[..CommonPrefix(a, b)] == b[..CommonPrefix(a, b)]
    ensures CommonPrefix(a, b) == |a| <==> a <= b
  {
    if a != [] && b != [] && a[0] == b[0] {
      CommonPrefixIsCommon(a[1..], b[1..]);
      var k := CommonPrefix(a[1..], b[1..]);
      assert a[..k + 1] == [a[0]] + a[1..][..k];
      assert b[..k + 1] == [b[0]] + b[1..][..k];
      if a <= b {
        assert a[1..] == b[1..][..|a| - 1];
      }
      if a[1..] <= b[1..] {
        assert a == [a[0]] + a[1..] && b == [b[0]] + b[1..];
      }
    }
  }

  function Ups(n: nat): seq<string> {
    seq(n, i => "..")
  }

  /** The path that leads from `base` to `target`; None when only one of them is absolute, or
      when `base` climbs above the place where they part. */
  function Rel(base: string, target: string): Option<string> {
    var b := Normal(Split(base), IsAbs(base));
    var t := Normal(Split(target), IsAbs(target));
    var k := CommonPrefix(b, t);
    CommonPrefixIsCommon(b, t);
    if IsAbs(base) != IsAbs(target) || ".." in b[k..] then None
    else Some(Render(Ups(|b| - k) + t[k..], false))
  }

  predicate Climbs(rel: string) {
    rel == ".." || "../" <= rel || IsAbs(rel)
  }

  predicate Within(path: string, root: string) {
    var rel := Rel(root, path);
    rel.Some? && !Climbs(rel.value)
  }

  lemma FirstSegment(segs: seq<string>)
    requires |segs| > 0 && segs[0] != "" && forall i :: 0 <= i < |segs| ==> '/' !in segs[i]
    ensures Climbs(Join(segs)) <==> segs[0] == ".."
    ensures Join(segs) == "." ==> segs == ["."]
  {
    var s := Join(segs);
    SplitJoin(segs);
    if segs[0] == ".." {
      if |segs| > 1 {
        assert s == "../" + Join(segs[1..]);
        assert s[..3] == "../";
      }
    } else if s == ".." {
      SplitSingle("..");
    }
    if s == "." {
      SplitSingle(".");
    }
  }

  lemma NormalOfAbs(segs: seq<string>)
    requires AllPlain(segs)
    ensures Normal(Split(Abs(segs)), true) == segs
  {
    SplitAtSlash("", Join(segs));
    assert "" + "/" + Join(segs) == Abs(segs);
    assert Normal([""], true) == [] by {
      assert Normal([""][..0], true) == [];
    }
    if segs == [] {
      assert ([""] + [""])[..1] == [""];
    } else {
      SplitJoin(segs);
      NormalOfPlain([""], segs, true);
    }
  }

  /** The relative path climbs exactly when some of the base is left to leave. */
  lemma RelClimbs(ups: nat, rest: seq<string>)
    requires AllPlain(rest)
    ensures Climbs(Render(Ups(ups) + rest, false)) <==> ups > 0
  {
    var segs := Ups(ups) + rest;
    forall i | 0 <= i < |segs| ensures '/' !in segs[i] && segs[i] != "" {
      assert i >= ups ==> segs[i] == rest[i - ups];
    }
    if segs != [] {
      FirstSegment(segs);
      assert segs[0] == if ups > 0 then ".." else rest[0];
    }
  }

  /** On cleaned absolute paths `within` is exactly segment prefix, whatever the names look like. */
  lemma WithinIsSegmentPrefix(path: seq<string>, root: seq<string>)
    requires AllPlain(path) && AllPlain(root)
    ensures Within(Abs(path), Abs(root)) <==> root <= path
  {
    NormalOfAbs(path);
    NormalOfAbs(root);
    CommonPrefixIsCommon(root, path);
    var k := CommonPrefix(root, path);
    assert forall i :: 0 <= i < |root[k..]| ==> root[k..][i] == root[k + i] && Plain(root[k + i]);
    assert AllPlain(path[k..]);
    RelClimbs(|root| - k, path[k..]);
  }

  // ---------- archive entries ----------

  function ArchiveDestination(root: string, name: string): Option<string> {
    var clean := Clean(name);
    if clean == "." || Climbs(clean) then None
    else
      var path := Clean(root + "/" + clean);
      if !Within(path, root) then None else Some(path)
  }

  /** How many levels below the start a walk over these segments ends. */
  function Depth(segs: seq<string>): int {
    if segs == [] then 0
    else
      var last := segs[|segs| - 1];
      Depth(segs[..|segs| - 1]) + if last == "" || last == "." then 0 else if last == ".." then -1 else 1
  }

  /** The walk never climbs above its start. */
  predicate StaysInside(segs: seq<string>) {
    segs == [] || (StaysInside(segs[..|segs| - 1]) && Depth(segs) >= 0)
  }

  /** Where a walk over these segments ends, as a directory tree would have it. */
  function Follow(start: seq<string>, segs: seq<string>): seq<string> {
    if segs == [] then start
    else
      var at := Follow(start, segs[..|segs| - 1]);
      var last := segs[|segs| - 1];
      if last == "" || last == "." then at
      else if last == ".." then (if at == [] then [] else at[..|at| - 1])
      else at + [last]
  }

  /** A walk that stays inside ends where its normal form leads. */
  lemma {:induction false} NormalFollows(root: seq<string>, segs: seq<string>)
    requires StaysInside(segs) && forall i :: 0 <= i < |segs| ==> '/' !in segs[i]
    ensures AllPlain(Normal(segs, false)) && |Normal(segs, false)| == Depth(segs)
    ensures Follow(root, segs) == root + Normal(segs, false)
  {
    if segs != [] {
      NormalFollows(root, segs[..|segs| - 1]);
    }
  }

  /** A walk that leaves has a normal form that begins by climbing. */
  lemma {:induction false} NormalClimbs(segs: seq<string>)
    requires !StaysInside(segs) && forall i :: 0 <= i < |segs| ==> '/' !in segs[i]
    ensures Normal(segs, false) != [] && Normal(segs, false)[0] == ".."
    ensures forall i :: 0 <= i < |Normal(segs, false)| ==> '/' !in Normal(segs, false)[i]
  {
    if segs != [] {
      var init := segs[..|segs| - 1];
      if StaysInside(init) {
        NormalFollows([], init);
      } else {
        NormalClimbs(init);
      }
    }
  }

  lemma {:induction false} SplitHasNoSlash(s: string)
    ensures forall i :: 0 <= i < |Split(s)| ==> '/' !in Split(s)[i]
    ensures IsAbs(s) ==> |Split(s)| > 1 && Split(s)[0] == ""
  {
    if s != "" {
      SplitHasNoSlash(s[1..]);
    }
  }

  lemma NormalAfterBlank(segs: seq<string>)
    requires AllPlain(segs)
    ensures Normal([""] + segs, true) == segs && Normal(["", ""] + segs, true) == segs
  {
    assert [""][..0] == [] && ["", ""][..1] == [""];
    assert Normal([""], true) == [];
    assert Normal(["", ""], true) == [];
    NormalOfPlain([""], segs, true);
    NormalOfPlain(["", ""], segs, true);
  }

  lemma SplitSlash(rest: string)
    ensures Split("/" + rest) == [""] + Split(rest)
  {
    assert ("/" + rest)[1..] == rest;
  }

  lemma SplitUnderTop(form: seq<string>)
    requires AllPlain(form) && form != []
    ensures Split("/" + ("/" + Join(form))) == ["", ""] + form
  {
    SplitSlash("/" + Join(form));
    SplitSlash(Join(form));
    SplitJoin(form);
    assert [""] + ([""] + form) == ["", ""] + form;
  }

  lemma SplitUnderRoot(root: seq<string>, form: seq<string>)
    requires AllPlain(root) && AllPlain(form) && root != [] && form != []
    ensures Split(Abs(root) + "/" + Join(form)) == [""] + (root + form)
  {
    assert Abs(root) + "/" + Join(form) == "/" + (Join(root) + "/" + Join(form));
    SplitSlash(Join(root) + "/" + Join(form));
    JoinConcat(root, form);
    SplitJoin(root + form);
  }

  /** Joining a relative normal form to a cleaned root concatenates the segments. */
  lemma JoinedSegments(root: seq<string>, form: seq<string>)
    requires AllPlain(root) && AllPlain(form) && form != []
    ensures Clean(Abs(root) + "/" + Join(form)) == Abs(root + form)
  {
    NormalAfterBlank(root + form);
    if root == [] {
      SplitUnderTop(form);
      assert Abs(root) + "/" + Join(form) == "/" + ("/" + Join(form));
      assert root + form == form;
    } else {
      SplitUnderRoot(root, form);
    }
    assert IsAbs(Abs(root) + "/" + Join(form));
  }

  lemma {:induction false} JoinConcat(a: seq<string>, b: seq<string>)
    requires a != [] && b != []
    ensures Join(a) + "/" + Join(b) == Join(a + b)
  {
    if |a| == 1 {
      assert (a + b)[1..] == b;
    } else {
      JoinConcat(a[1..], b);
      assert (a + b)[1..] == a[1..] + b;
      assert Join(a) + "/" + Join(b) == a[0] + "/" + (Join(a[1..]) + "/" + Join(b));
    }
  }

  /** An archive entry is accepted exactly when it is relative, never climbs above the root on its
      way and ends below it; it then goes where following it from the root leads. */
  lemma ArchiveEntriesStayInside(root: seq<string>, name: string)
    requires AllPlain(root)
    ensures ArchiveDestination(Abs(root), name)
         == if !IsAbs(name) && StaysInside(Split(name)) && Depth(Split(name)) > 0
            then Some(Abs(Follow(root, Split(name)))) else None
    ensures !IsAbs(name) && StaysInside(Split(name)) ==> root <= Follow(root, Split(name))
  {
    var segs := Split(name);
    SplitHasNoSlash(name);
    if IsAbs(name) {
      assert Climbs(Clean(name));
    } else if StaysInside(segs) {
      NormalFollows(root, segs);
      var form := Normal(segs, false);
      if form != [] {
        FirstSegment(form);
        JoinedSegments(root, form);
        WithinIsSegmentPrefix(root + form, root);
      }
    } else {
      NormalClimbs(segs);
      FirstSegment(Normal(segs, false));
    }
  }

  /** The check after joining never refuses anything. */
  lemma SecondCheckNeverFires(root: seq<string>, name: string)
    requires AllPlain(root) && Clean(name) != "." && !Climbs(Clean(name))
    ensures Within(Clean(Abs(root) + "/" + Clean(name)), Abs(root))
  {
    ArchiveEntriesStayInside(root, name);
    var segs := Split(name);
    SplitHasNoSlash(name);
    if !IsAbs(name) && !StaysInside(segs) {
      NormalClimbs(segs);
      FirstSegment(Normal(segs, false));
    } else if !IsAbs(name) {
      NormalFollows(root, segs);
    }
  }
}
