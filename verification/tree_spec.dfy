/** What a tree sync should leave, step by step: the states its two walks go through. */
module TreeSpec {
  import opened Options
  import opened FileTree

  // ---------- what a sync should leave ----------

  /** The source path that corresponds to a path in the target. */
  function SourceOf(p: Path, S: Path, T: Path): Path
    requires T <= p
  {
    S + p[|T|..]
  }

  function TargetOf(c: Path, S: Path, T: Path): Path
    requires S <= c
  {
    T + c[|S|..]
  }

  lemma CorrespondenceInverts(c: Path, S: Path, T: Path)
    requires Above(S, c)
    ensures Above(T, TargetOf(c, S, T)) && SourceOf(TargetOf(c, S, T), S, T) == c
  {
    assert TargetOf(c, S, T)[|T|..] == c[|S|..];
  }

  predicate Prescribed(t: Tree, c: Path) {
    IsDir(t, c) || IsFile(t, c)
  }

  /** The node a source entry turns into; only permission bits travel. */
  function Image(n: Node): Node
    requires n.Dir? || n.File?
  {
    match n
    case Dir(m) => Dir(Perm(m))
    case File(data, m) => File(data, Perm(m))
  }

  /** The target entry is of another type than the source entry that replaces it. */
  predicate Conflict(t: Tree, c: Path, p: Path) {
    || (IsDir(t, c) && p in t && !t[p].Dir?)
    || (IsFile(t, c) && IsDir(t, p))
  }

  /** A source entry that stops the sync. */
  predicate Blocked(t: Tree, c: Path, p: Path, delete: bool) {
    && c in t
    && (|| t[c].Special?
        || (Prescribed(t, c) && p in t && t[p].Symlink?)
        || (!delete && Conflict(t, c, p)))
  }

  /** The node at `p` after a successful sync. */
  function Synced(t: Tree, S: Path, T: Path, delete: bool, p: Path): Option<Node> {
    if !Above(T, p) then At(t, p)
    else
      var c := SourceOf(p, S, T);
      if Prescribed(t, c) then Some(Image(t[c]))
      else if delete && c !in t then None
      else At(t, p)
  }

  /** Some file of the source takes the place of a directory above `p`. */
  ghost predicate UnderFile(t: Tree, S: Path, T: Path, p: Path) {
    exists a :: Above(T, a) && Above(a, p) && IsFile(t, SourceOf(a, S, T))
  }

  lemma SourceOrder(a: Path, p: Path, S: Path, T: Path)
    requires Above(T, a) && Above(a, p)
    ensures Above(S, SourceOf(a, S, T)) && Above(SourceOf(a, S, T), SourceOf(p, S, T))
  {
    assert p[|T|..][..|a| - |T|] == a[|T|..];
  }

  lemma UnderFileHasNoSource(t: Tree, S: Path, T: Path, p: Path)
    requires Rooted(t) && UnderFile(t, S, T, p)
    ensures Above(T, p) && SourceOf(p, S, T) !in t
  {
    var a :| Above(T, a) && Above(a, p) && IsFile(t, SourceOf(a, S, T));
    SourceOrder(a, p, S, T);
    if SourceOf(p, S, T) in t {
      AncestorIsDir(t, SourceOf(a, S, T), SourceOf(p, S, T));
    }
  }

  // ---------- the copy walk ----------

  predicate Due(t: Tree, S: Path, T: Path, done: set<Path>, p: Path) {
    Above(T, p) && SourceOf(p, S, T) in done && Prescribed(t, SourceOf(p, S, T))
  }

  /** The walk has handled the source paths in `done`: they hold, and nothing else changed but what
      lay under a directory that a file replaced. */
  ghost predicate Copied(start: Tree, now: Tree, S: Path, T: Path, done: set<Path>, delete: bool) {
    forall p {:trigger At(now, p)} ::
      if Due(start, S, T, done, p) then At(now, p) == Some(Image(start[SourceOf(p, S, T)]))
      else At(now, p) == At(start, p) || (delete && At(now, p) == None && UnderFile(start, S, T, p))
  }

  /** `n` was put at `p`, and a file has nothing below it. */
  ghost predicate Placed(was: Tree, now: Tree, p: Path, n: Node) {
    forall q {:trigger At(now, q)} ::
      At(now, q) == (if q == p then Some(n) else if Above(p, q) && n.File? then None else At(was, q))
  }

  lemma CopiedOneMore(start: Tree, was: Tree, now: Tree, S: Path, T: Path, done: set<Path>, delete: bool, c: Path)
    requires Rooted(start) && Rooted(was) && !(S <= T) && !(T <= S)
    requires Copied(start, was, S, T, done, delete)
    requires Above(S, c) && Prescribed(start, c)
    requires Placed(was, now, TargetOf(c, S, T), Image(start[c]))
    requires IsFile(start, c) ==> delete || !IsDir(was, TargetOf(c, S, T))
    ensures Copied(start, now, S, T, done + {c}, delete)
  {
    var p := TargetOf(c, S, T);
    CorrespondenceInverts(c, S, T);
    forall q
      ensures if Due(start, S, T, done + {c}, q) then At(now, q) == Some(Image(start[SourceOf(q, S, T)]))
              else At(now, q) == At(start, q) || (delete && At(now, q) == None && UnderFile(start, S, T, q))
    {
      assert At(was, q) == At(was, q);
      if q == p {
      } else if Above(p, q) && IsFile(start, c) {
        assert UnderFile(start, S, T, q);
        UnderFileHasNoSource(start, S, T, q);
        if !delete && q in was {
          AncestorIsDir(was, p, q);
        }
      }
    }
  }

  /** A step that failed may have left its own entry old, new, removed or freshly made. */
  ghost predicate Spoiled(was: Tree, now: Tree, p: Path, n: Node, made: Mode, delete: bool) {
    forall q {:trigger At(now, q)} ::
      || At(now, q) == At(was, q)
      || (q == p && (delete || !(p in was && was[p].Dir? != n.Dir?))
          && (At(now, q) == Some(n) || (n.Dir? && !IsDir(was, p) && At(now, q) == Some(Dir(made)))))
      || (delete && q == p && At(now, q) == None && p in was && was[p].Dir? != n.Dir?)
      || (delete && Above(p, q) && At(now, q) == None && n.File?)
  }

  // ---------- making room in the target ----------

  /** The directories below `T` on the way to `p`, all made; what was in their way is gone. */
  function MadeDirs(t: Tree, T: Path, p: Path, k: nat, m: Mode): Tree
    requires k <= |p|
  {
    if k <= |T| then t
    else
      var u := MadeDirs(t, T, p, k - 1, m);
      if IsDir(u, p[..k]) then u else Without(u, p[..k])[p[..k] := Dir(m)]
  }

  /** Every directory between `T` and `p` is there. */
  ghost predicate Grounded(t: Tree, T: Path, p: Path) {
    forall a {:trigger Above(a, p)} :: Above(T, a) && Above(a, p) ==> IsDir(t, a)
  }

  lemma {:induction false} GroundedNeedsNothing(t: Tree, T: Path, p: Path, k: nat, m: Mode)
    requires T <= p && Grounded(t, T, p) && k < |p|
    ensures MadeDirs(t, T, p, k, m) == t
  {
    if k > |T| {
      GroundedNeedsNothing(t, T, p, k - 1, m);
      assert Above(T, p[..k]) && Above(p[..k], p);
    }
  }

  lemma NothingBelow(t: Tree, p: Path)
    requires Rooted(t) && !IsDir(t, p)
    ensures p !in t ==> Without(t, p) == t
    ensures forall q :: Above(p, q) ==> q !in t
  {
    forall q | Above(p, q) ensures q !in t {
      if q in t {
        AncestorIsDir(t, p, q);
      }
    }
    if p !in t {
      forall q | q in t ensures !(p <= q) {
        assert p <= q ==> q == p || Above(p, q);
      }
      assert Without(t, p) == t;
    }
  }

  /** What is left when making the directory `p` fails on the way. */
  ghost predicate HalfMade(was: Tree, now: Tree, p: Path, m: Mode, replace: bool) {
    || now == was
    || (!IsDir(was, p) && replace && now == Without(was, p))
    || (!IsDir(was, p) && (replace || p !in was) && now == Without(was, p)[p := Dir(m)])
  }

  lemma PartlyRemoved(was: Tree, now: Tree, p: Path)
    requires forall q :: Above(p, q) ==> q !in was
    requires forall q :: At(now, q) == At(was, q) || (p <= q && q !in now)
    ensures now == was || now == Without(was, p)
  {
    forall q ensures q in now ==> q in was && now[q] == was[q] {
      assert At(now, q) == At(was, q) || (p <= q && q !in now);
    }
    forall q ensures q in was && q != p ==> q in now {
      assert At(now, q) == At(was, q) || (p <= q && q !in now);
      assert p <= q ==> q == p || Above(p, q);
    }
    if p in now || p !in was {
      assert now == was;
    } else {
      forall q | q in now ensures !(p <= q) {
        assert p <= q ==> q == p || Above(p, q);
      }
      assert now == Without(was, p);
    }
  }

  /** On cleared ground, making a directory puts it at `p` and does nothing else. */
  lemma MadeInPlace(was: Tree, now: Tree, T: Path, p: Path, m: Mode, mode: Mode)
    requires Rooted(was) && Above(T, p) && Grounded(was, T, p)
    requires now == MadeDirs(was, T, p, |p|, m)[p := Dir(mode)]
    ensures Placed(was, now, p, Dir(mode))
  {
    GroundedNeedsNothing(was, T, p, |p| - 1, m);
    assert p[..|p|] == p;
    if !IsDir(was, p) {
      NothingBelow(was, p);
    }
  }

  lemma HalfMadeSpoils(was: Tree, now: Tree, p: Path, m: Mode, n: Node, replace: bool)
    requires Rooted(was) && n.Dir? && HalfMade(was, now, p, m, replace)
    ensures Spoiled(was, now, p, n, m, replace)
  {
    if !IsDir(was, p) {
      NothingBelow(was, p);
    }
  }

  // ---------- the delete walk ----------

  /** `p`, or something between `T` and `p`, is not an entry of the source. */
  ghost predicate Extraneous(entries: set<Path>, T: Path, p: Path) {
    exists a {:trigger Above(T, a)} :: Above(T, a) && a <= p && a[|T|..] !in entries
  }

  /** The topmost extraneous paths: what the delete walk removes and reports. */
  ghost predicate TopExtraneous(entries: set<Path>, T: Path, p: Path) {
    && Above(T, p) && p[|T|..] !in entries
    && forall a {:trigger Above(a, p)} :: Above(T, a) && Above(a, p) ==> a[|T|..] in entries
  }

  ghost predicate NoRepeats(ps: seq<Path>) {
    forall i, j :: 0 <= i < j < |ps| ==> ps[i] != ps[j]
  }

  lemma NoRepeatsJoined(a: seq<Path>, b: seq<Path>)
    requires NoRepeats(a) && NoRepeats(b) && forall p :: p in a ==> p !in b
    ensures NoRepeats(a + b)
  {
    forall i, j | 0 <= i < j < |a + b|
      ensures (a + b)[i] != (a + b)[j]
    {
      assert i < |a| <= j ==> a[i] !in b && b[j - |a|] in b;
    }
  }

  /** The next path of a walk is none of those removed while visiting earlier ones. */
  lemma NextIsNew(order: seq<Path>, j: nat, gone: seq<Path>)
    requires NoRepeats(order) && j < |order| && Among(gone, order[..j])
    ensures order[j] !in gone
    ensures Among(gone, order[..j] + [order[j]]) && Among(gone + [order[j]], order[..j] + [order[j]])
  {
    assert order[j] !in order[..j];
  }

  ghost predicate Among(ps: seq<Path>, all: seq<Path>) {
    forall p :: p in ps ==> p in all
  }

  /** A list without repeats is as long as the set it lists. */
  lemma {:induction false} LengthIsCount(ps: seq<Path>, s: set<Path>)
    requires NoRepeats(ps) && forall p :: p in ps <==> p in s
    ensures |ps| == |s|
  {
    if ps == [] {
      assert s == {};
    } else {
      var init, last := ps[..|ps| - 1], ps[|ps| - 1];
      assert ps == init + [last];
      assert last !in init;
      LengthIsCount(init, s - {last});
    }
  }

  ghost predicate Covered(gone: seq<Path>, p: Path) {
    exists i :: 0 <= i < |gone| && gone[i] <= p
  }

  /** The state of the delete walk after it has visited the paths in `seen`. */
  ghost predicate Swept(was: Tree, now: Tree, entries: set<Path>, T: Path, seen: seq<Path>, gone: seq<Path>) {
    && (forall q {:trigger At(now, q)} :: At(now, q) == if Covered(gone, q) then None else At(was, q))
    && (forall i :: 0 <= i < |gone| ==> gone[i] in was && TopExtraneous(entries, T, gone[i]))
    && NoRepeats(gone)
    && (forall q :: q in seen && Extraneous(entries, T, q) ==> Covered(gone, q))
    && (forall q :: q in seen && TopExtraneous(entries, T, q) ==> q in gone)
  }

  lemma SweptTop(was: Tree, now: Tree, entries: set<Path>, T: Path, seen: seq<Path>, gone: seq<Path>, p: Path)
    requires Swept(was, now, entries, T, seen, gone)
    requires Above(T, p) && p[|T|..] !in entries && forall a :: Above(T, a) && Above(a, p) ==> a in seen
    requires forall i :: 0 <= i < |gone| ==> !Above(gone[i], p)
    ensures TopExtraneous(entries, T, p)
  {
    forall a | Above(T, a) && Above(a, p) ensures a[|T|..] in entries {
      if a[|T|..] !in entries {
        assert Extraneous(entries, T, a);
        assert Covered(gone, a);
        var i :| 0 <= i < |gone| && gone[i] <= a;
        assert Above(gone[i], p);
      }
    }
  }

  /** Visiting a path that is no top extra changes nothing; visiting one removes it. */
  lemma SweptOneMore(was: Tree, now: Tree, now': Tree, entries: set<Path>, T: Path, seen: seq<Path>, gone: seq<Path>,
                     p: Path)
    requires Swept(was, now, entries, T, seen, gone) && TopExtraneous(entries, T, p) && p in was && p !in gone
    requires now' == Without(now, p)
    ensures Swept(was, now', entries, T, seen + [p], gone + [p])
  {
    forall q ensures Covered(gone + [p], q) <==> Covered(gone, q) || p <= q {
      if Covered(gone, q) {
        var i :| 0 <= i < |gone| && gone[i] <= q;
        assert (gone + [p])[i] <= q;
      } else if p <= q {
        assert (gone + [p])[|gone|] <= q;
      }
    }
    forall q ensures At(now', q) == if Covered(gone + [p], q) then None else At(was, q) {
      assert At(now, q) == At(now, q);
    }
  }

  lemma SweptKeeps(was: Tree, now: Tree, entries: set<Path>, T: Path, seen: seq<Path>, gone: seq<Path>, p: Path)
    requires Swept(was, now, entries, T, seen, gone) && Above(T, p)
    requires p[|T|..] in entries || exists i :: 0 <= i < |gone| && Above(gone[i], p)
    requires forall a :: Above(T, a) && Above(a, p) ==> a in seen
    ensures Swept(was, now, entries, T, seen + [p], gone)
  {
    if Extraneous(entries, T, p) {
      if p[|T|..] in entries {
        var a :| Above(T, a) && a <= p && a[|T|..] !in entries;
        assert a != p;
        assert Above(a, p) && Extraneous(entries, T, a);
        assert Covered(gone, a);
        var i :| 0 <= i < |gone| && gone[i] <= a;
        assert gone[i] <= p;
      }
      assert Covered(gone, p);
    }
    if TopExtraneous(entries, T, p) {
      var i :| 0 <= i < |gone| && Above(gone[i], p);
      assert TopExtraneous(entries, T, gone[i]);
    }
  }

  lemma SweptExtent(was: Tree, now: Tree, entries: set<Path>, T: Path, seen: seq<Path>, gone: seq<Path>)
    requires Swept(was, now, entries, T, seen, gone)
    ensures forall q :: Covered(gone, q) ==> Extraneous(entries, T, q)
    ensures forall q {:trigger At(now, q)} ::
      At(now, q) == At(was, q) || (Extraneous(entries, T, q) && At(now, q) == None)
  {
    forall q | Covered(gone, q) ensures Extraneous(entries, T, q) {
      var i :| 0 <= i < |gone| && gone[i] <= q;
      assert TopExtraneous(entries, T, gone[i]);
    }
  }

  // ---------- the whole copy walk ----------

  /** What a sync that stopped early may have changed: a target entry is as it was, what the source
      prescribes, a directory just made, or removed because the source has no place for it. */
  ghost predicate Touched(start: Tree, now: Tree, S: Path, T: Path, delete: bool, umask: set<nat>) {
    forall q {:trigger At(now, q)} ::
      || At(now, q) == At(start, q)
      || (Above(T, q) && (delete || !Conflict(start, SourceOf(q, S, T), q))
          && Prescribed(start, SourceOf(q, S, T)) && At(now, q) == Some(Image(start[SourceOf(q, S, T)])))
      || (Above(T, q) && (delete || q !in start) && IsDir(start, SourceOf(q, S, T)) && !IsDir(start, q)
          && At(now, q) == Some(Dir(Masked(Perm(start[SourceOf(q, S, T)].mode), umask))))
      || (Above(T, q) && delete && At(now, q) == None
          && (SourceOf(q, S, T) !in start || Conflict(start, SourceOf(q, S, T), q)))
  }

  lemma SourceIsApart(S: Path, T: Path, q: Path)
    requires !(S <= T) && !(T <= S) && S <= q
    ensures !(T <= q)
  {
    if T <= q {
      ComparablePrefixes(S, T, q);
    }
  }

  /** What the walk finds at its next entry: the source as it was, the way to the target cleared,
      the target entry itself not yet touched. */
  lemma NextEntry(start: Tree, now: Tree, S: Path, T: Path, done: set<Path>, delete: bool, c: Path)
    requires Rooted(start) && IsDir(start, T) && !(S <= T) && !(T <= S)
    requires Copied(start, now, S, T, done, delete)
    requires Above(S, c) && c in start && c !in done
    requires forall a :: Above(S, a) && Above(a, c) ==> a in done
    ensures At(now, c) == At(start, c) && At(now, T) == At(start, T)
    ensures At(now, TargetOf(c, S, T)) == At(start, TargetOf(c, S, T))
    ensures Grounded(now, T, TargetOf(c, S, T))
  {
    var p := TargetOf(c, S, T);
    CorrespondenceInverts(c, S, T);
    SourceIsApart(S, T, c);
    assert At(now, c) == At(now, c) && At(now, T) == At(now, T) && At(now, p) == At(now, p);
    forall q | UnderFile(start, S, T, q) && (q == c || q == T || q == p) ensures false {
      UnderFileHasNoSource(start, S, T, q);
    }
    forall a | Above(T, a) && Above(a, p) ensures IsDir(now, a) {
      SourceOrder(a, p, S, T);
      AncestorIsDir(start, SourceOf(a, S, T), c);
      assert Due(start, S, T, done, a);
      assert At(now, a) == Some(Image(start[SourceOf(a, S, T)]));
    }
  }

  lemma SpoiledIsTouched(start: Tree, was: Tree, now: Tree, S: Path, T: Path, done: set<Path>, delete: bool,
                         c: Path, umask: set<nat>)
    requires Rooted(start) && !(S <= T) && !(T <= S)
    requires Copied(start, was, S, T, done, delete) && Clear(start, S, T, done, delete)
    requires Above(S, c) && Prescribed(start, c)
    requires At(was, TargetOf(c, S, T)) == At(start, TargetOf(c, S, T))
    requires Spoiled(was, now, TargetOf(c, S, T), Image(start[c]), Masked(Perm(start[c].mode), umask), delete)
    ensures Touched(start, now, S, T, delete, umask)
  {
    var p := TargetOf(c, S, T);
    CorrespondenceInverts(c, S, T);
    forall q
      ensures || At(now, q) == At(start, q)
              || (Above(T, q) && (delete || !Conflict(start, SourceOf(q, S, T), q))
                  && Prescribed(start, SourceOf(q, S, T)) && At(now, q) == Some(Image(start[SourceOf(q, S, T)])))
              || (Above(T, q) && (delete || q !in start) && IsDir(start, SourceOf(q, S, T)) && !IsDir(start, q)
                  && At(now, q) == Some(Dir(Masked(Perm(start[SourceOf(q, S, T)].mode), umask))))
              || (Above(T, q) && delete && At(now, q) == None
                  && (SourceOf(q, S, T) !in start || Conflict(start, SourceOf(q, S, T), q)))
    {
      assert At(was, q) == At(was, q) && At(now, q) == At(now, q);
      if Due(start, S, T, done, q) {
        ClearMeansNoConflict(start, S, T, done, delete, q);
      }
      if UnderFile(start, S, T, q) {
        UnderFileHasNoSource(start, S, T, q);
      }
      if q != p && At(now, q) != At(was, q) {
        assert Above(T, p) && Above(p, q) && IsFile(start, c);
        assert UnderFile(start, S, T, q);
        UnderFileHasNoSource(start, S, T, q);
      }
    }
  }

  lemma CopiedIsTouched(start: Tree, now: Tree, S: Path, T: Path, done: set<Path>, delete: bool, umask: set<nat>)
    requires Rooted(start) && Copied(start, now, S, T, done, delete) && Clear(start, S, T, done, delete)
    ensures Touched(start, now, S, T, delete, umask)
  {
    forall q | UnderFile(start, S, T, q) ensures Above(T, q) && SourceOf(q, S, T) !in start {
      UnderFileHasNoSource(start, S, T, q);
    }
    forall q | Due(start, S, T, done, q) ensures delete || !Conflict(start, SourceOf(q, S, T), q) {
      ClearMeansNoConflict(start, S, T, done, delete, q);
    }
  }

  datatype TreeResult = TreeResult(filesCopied: nat, directoriesCreated: nat, deleted: seq<Path>, skipped: seq<Path>)

  function DirsToMake(t: Tree, S: Path, T: Path, done: set<Path>): set<Path> {
    set c | c in done && Above(S, c) && IsDir(t, c) && !IsDir(t, TargetOf(c, S, T))
  }

  function FilesToCopy(t: Tree, done: set<Path>): set<Path> {
    set c | c in done && IsFile(t, c)
  }

  /** The counters after the source entries in `done`. */
  ghost predicate Counted(t: Tree, S: Path, T: Path, done: set<Path>, r: TreeResult) {
    && r.filesCopied == |FilesToCopy(t, done)|
    && r.directoriesCreated == |DirsToMake(t, S, T, done)|
    && (forall p :: p in r.deleted <==> Above(T, p) && SourceOf(p, S, T) in done && Conflict(t, SourceOf(p, S, T), p))
    && (forall c :: c in r.skipped <==> c in done && c in t && t[c].Symlink?)
    && NoRepeats(r.deleted) && NoRepeats(r.skipped)
  }

  function Tally(r: TreeResult, created: bool, copied: bool, removed: seq<Path>, skipped: bool, c: Path): TreeResult {
    TreeResult(r.filesCopied + (if copied then 1 else 0), r.directoriesCreated + (if created then 1 else 0),
               r.deleted + removed, r.skipped + (if skipped then [c] else []))
  }

  lemma CountedOneMore(t: Tree, S: Path, T: Path, done: set<Path>, r: TreeResult, c: Path,
                       created: bool, copied: bool, removed: seq<Path>, skipped: bool)
    requires Counted(t, S, T, done, r) && c !in done && Above(S, c) && c in t
    requires created <==> IsDir(t, c) && !IsDir(t, TargetOf(c, S, T))
    requires copied <==> IsFile(t, c)
    requires skipped <==> t[c].Symlink?
    requires removed == if Conflict(t, c, TargetOf(c, S, T)) then [TargetOf(c, S, T)] else []
    ensures Counted(t, S, T, done + {c}, Tally(r, created, copied, removed, skipped, c))
  {
    CountersOneMore(t, S, T, done, c);
    CorrespondenceInverts(c, S, T);
    var more := Tally(r, created, copied, removed, skipped, c);
    forall p
      ensures p in more.deleted <==>
        Above(T, p) && SourceOf(p, S, T) in done + {c} && Conflict(t, SourceOf(p, S, T), p)
    {
      assert Above(T, p) && SourceOf(p, S, T) == c ==> p == TargetOf(c, S, T);
    }
    NoRepeatsJoined(r.deleted, removed);
    NoRepeatsJoined(r.skipped, if skipped then [c] else []);
  }

  lemma CountersOneMore(t: Tree, S: Path, T: Path, done: set<Path>, c: Path)
    requires c !in done && Above(S, c)
    ensures |FilesToCopy(t, done + {c})| == |FilesToCopy(t, done)| + if IsFile(t, c) then 1 else 0
    ensures |DirsToMake(t, S, T, done + {c})|
         == |DirsToMake(t, S, T, done)| + if IsDir(t, c) && !IsDir(t, TargetOf(c, S, T)) then 1 else 0
  {
    FilesOneMore(t, done, c);
    if IsDir(t, c) && !IsDir(t, TargetOf(c, S, T)) {
      assert DirsToMake(t, S, T, done + {c}) == DirsToMake(t, S, T, done) + {c};
    } else {
      assert DirsToMake(t, S, T, done + {c}) == DirsToMake(t, S, T, done);
    }
  }

  lemma FilesOneMore(t: Tree, done: set<Path>, c: Path)
    requires c !in done
    ensures |FilesToCopy(t, done + {c})| == |FilesToCopy(t, done)| + if IsFile(t, c) then 1 else 0
  {
    if IsFile(t, c) {
      assert FilesToCopy(t, done + {c}) == FilesToCopy(t, done) + {c};
    } else {
      assert FilesToCopy(t, done + {c}) == FilesToCopy(t, done);
    }
  }

  /** Everything below the source. */
  function Below(t: Tree, S: Path): set<Path> {
    set c | c in t && Above(S, c)
  }

  ghost predicate SomeBlocked(t: Tree, S: Path, T: Path, delete: bool) {
    exists c :: c in Below(t, S) && Blocked(t, c, TargetOf(c, S, T), delete)
  }

  /** The state of the copy walk after the source entries in `done`. */
  ghost predicate Walked(start: Tree, now: Tree, S: Path, T: Path, done: set<Path>, delete: bool,
                         entries: set<Path>, result: TreeResult) {
    && Copied(start, now, S, T, done, delete)
    && Counted(start, S, T, done, result)
    && (forall c :: Above(S, c) ==> (c[|S|..] in entries <==> c in done))
    && Clear(start, S, T, done, delete)
  }

  /** Nothing met so far stops the sync. */
  ghost predicate Clear(start: Tree, S: Path, T: Path, done: set<Path>, delete: bool) {
    forall c :: c in done ==> Above(S, c) && c in start && !Blocked(start, c, TargetOf(c, S, T), delete)
  }

  lemma ClearMeansNoConflict(start: Tree, S: Path, T: Path, done: set<Path>, delete: bool, q: Path)
    requires Clear(start, S, T, done, delete) && Above(T, q) && SourceOf(q, S, T) in done
    ensures delete || !Conflict(start, SourceOf(q, S, T), q)
  {
    assert TargetOf(SourceOf(q, S, T), S, T) == q;
  }

  lemma WalkedOneMore(start: Tree, was: Tree, now: Tree, S: Path, T: Path, done: set<Path>, delete: bool, c: Path,
                      entries: set<Path>, result: TreeResult,
                      created: bool, copied: bool, removed: seq<Path>, skipped: bool)
    requires Walked(start, was, S, T, done, delete, entries, result)
    requires Above(S, c) && c in start && c !in done && At(was, c) == At(start, c)
    requires At(was, TargetOf(c, S, T)) == At(start, TargetOf(c, S, T))
    requires !Blocked(was, c, TargetOf(c, S, T), delete)
    requires created <==> IsDir(was, c) && !IsDir(was, TargetOf(c, S, T))
    requires copied <==> IsFile(was, c)
    requires skipped <==> was[c].Symlink?
    requires removed == if Conflict(was, c, TargetOf(c, S, T)) then [TargetOf(c, S, T)] else []
    requires if Prescribed(was, c) then Placed(was, now, TargetOf(c, S, T), Image(was[c])) else now == was
    requires Rooted(start) && Rooted(was) && !(S <= T) && !(T <= S)
    ensures Walked(start, now, S, T, done + {c}, delete, entries + {c[|S|..]},
                   Tally(result, created, copied, removed, skipped, c))
  {
    forall d | Above(S, d) && d[|S|..] == c[|S|..] ensures d == c {
      assert d == S + d[|S|..];
    }
    EntryCopied(start, was, now, S, T, done, delete, c);
    CountedOneMore(start, S, T, done, result, c, created, copied, removed, skipped);
  }

  lemma EntryCopied(start: Tree, was: Tree, now: Tree, S: Path, T: Path, done: set<Path>, delete: bool, c: Path)
    requires Rooted(start) && Rooted(was) && !(S <= T) && !(T <= S)
    requires Copied(start, was, S, T, done, delete) && Above(S, c) && c in start
    requires At(was, TargetOf(c, S, T)) == At(start, TargetOf(c, S, T))
    requires !Blocked(start, c, TargetOf(c, S, T), delete)
    requires if Prescribed(start, c) then Placed(was, now, TargetOf(c, S, T), Image(start[c])) else now == was
    ensures Copied(start, now, S, T, done + {c}, delete)
  {
    if Prescribed(start, c) {
      CopiedOneMore(start, was, now, S, T, done, delete, c);
    } else {
      forall p ensures Due(start, S, T, done + {c}, p) == Due(start, S, T, done, p) {
      }
    }
  }

  lemma EntryFailed(start: Tree, was: Tree, now: Tree, S: Path, T: Path, done: set<Path>, delete: bool,
                    c: Path, umask: set<nat>, faulted: bool)
    requires Rooted(start) && !(S <= T) && !(T <= S)
    requires Copied(start, was, S, T, done, delete) && Clear(start, S, T, done, delete)
    requires Above(S, c) && c in start && At(was, c) == At(start, c)
    requires At(was, TargetOf(c, S, T)) == At(start, TargetOf(c, S, T))
    requires if Prescribed(was, c)
             then Spoiled(was, now, TargetOf(c, S, T), Image(was[c]), Masked(Perm(was[c].mode), umask), delete)
             else now == was
    requires faulted || Blocked(was, c, TargetOf(c, S, T), delete)
    ensures Touched(start, now, S, T, delete, umask)
    ensures faulted || SomeBlocked(start, S, T, delete)
  {
    if Prescribed(start, c) {
      SpoiledIsTouched(start, was, now, S, T, done, delete, c, umask);
    } else {
      CopiedIsTouched(start, was, S, T, done, delete, umask);
    }
    assert faulted || (c in Below(start, S) && Blocked(start, c, TargetOf(c, S, T), delete));
  }

  // ---------- preparing the target ----------

  /** `T` and the directories above it exist; nothing else changed. */
  ghost predicate Prepared(was: Tree, now: Tree, T: Path) {
    forall q {:trigger At(now, q)} ::
      if q <= T then IsDir(now, q) && (q in was ==> At(now, q) == At(was, q)) else At(now, q) == At(was, q)
  }

  /** Nothing but a directory stands at `T` or above it. */
  ghost predicate TargetUsable(t: Tree, T: Path) {
    forall q {:trigger At(t, q)} :: q <= T && At(t, q).Some? ==> IsDir(t, q)
  }

  // ---------- the sync ----------

  /** Below the target and anywhere else the tree is as a successful sync should leave it. */
  ghost predicate IsSynced(was: Tree, now: Tree, S: Path, T: Path, delete: bool) {
    forall q {:trigger At(now, q)} ::
      if q <= T then IsDir(now, q) && (q in was ==> At(now, q) == At(was, q))
      else At(now, q) == Synced(was, S, T, delete, q)
  }

  /** What a failed sync may have changed. */
  ghost predicate CutShort(was: Tree, now: Tree, S: Path, T: Path, delete: bool, umask: set<nat>) {
    forall q {:trigger At(now, q)} ::
      || At(now, q) == At(was, q)
      || (q <= T && q !in was && IsDir(now, q))
      || (Above(T, q) && (delete || !Conflict(was, SourceOf(q, S, T), q))
          && Prescribed(was, SourceOf(q, S, T)) && At(now, q) == Some(Image(was[SourceOf(q, S, T)])))
      || (Above(T, q) && (delete || q !in was) && IsDir(was, SourceOf(q, S, T)) && !IsDir(was, q)
          && At(now, q) == Some(Dir(Masked(Perm(was[SourceOf(q, S, T)].mode), umask))))
      || (Above(T, q) && delete && At(now, q) == None
          && (SourceOf(q, S, T) !in was || Conflict(was, SourceOf(q, S, T), q)))
  }

  /** A sync without faults succeeds under exactly these conditions. */
  ghost predicate Feasible(t: Tree, S: Path, T: Path, delete: bool) {
    IsDir(t, S) && !(S <= T) && !(T <= S) && TargetUsable(t, T) && !SomeBlocked(t, S, T, delete)
  }

  /** What a sync deletes and reports: entries in conflict, and the topmost extra ones. */
  ghost predicate Discarded(t: Tree, S: Path, T: Path, delete: bool, p: Path) {
    && Above(T, p) && p in t && delete
    && (|| Conflict(t, SourceOf(p, S, T), p)
        || (SourceOf(p, S, T) !in t && !UnderFile(t, S, T, p)
            && forall a {:trigger Above(a, p)} :: Above(T, a) && Above(a, p) ==> SourceOf(a, S, T) in t))
  }

  lemma SourceAgrees(was: Tree, now: Tree, S: Path, T: Path, q: Path)
    requires Prepared(was, now, T) && !(S <= T) && S <= q
    ensures At(now, q) == At(was, q)
  {
    assert q <= T ==> S <= T;
    assert At(now, q) == At(now, q);
  }

  /** Preparing the target changes nothing that matters to the sync. */
  lemma PreparedAgrees(was: Tree, now: Tree, S: Path, T: Path, delete: bool)
    requires Prepared(was, now, T) && !(S <= T) && !(T <= S)
    ensures Below(now, S) == Below(was, S)
    ensures forall c {:trigger At(now, c)} :: Above(S, c) ==> At(now, c) == At(was, c)
    ensures forall q :: !(q <= T) ==> Synced(now, S, T, delete, q) == Synced(was, S, T, delete, q)
    ensures forall p :: Discarded(now, S, T, delete, p) == Discarded(was, S, T, delete, p)
    ensures forall c :: Above(S, c) ==>
              Blocked(now, c, TargetOf(c, S, T), delete) == Blocked(was, c, TargetOf(c, S, T), delete)
    ensures DirsToMake(now, S, T, Below(was, S)) == DirsToMake(was, S, T, Below(was, S))
    ensures FilesToCopy(now, Below(was, S)) == FilesToCopy(was, Below(was, S))
  {
    forall q | S <= q ensures At(now, q) == At(was, q) {
      SourceAgrees(was, now, S, T, q);
    }
    forall q | Above(T, q) ensures At(now, q) == At(was, q) && At(now, SourceOf(q, S, T)) == At(was, SourceOf(q, S, T)) {
      assert At(now, q) == At(now, q);
      SourceAgrees(was, now, S, T, SourceOf(q, S, T));
    }
    forall c | Above(S, c) ensures At(now, c) == At(was, c) && At(now, TargetOf(c, S, T)) == At(was, TargetOf(c, S, T)) {
      CorrespondenceInverts(c, S, T);
    }
    forall p | Above(T, p) ensures UnderFile(now, S, T, p) == UnderFile(was, S, T, p) {
    }
  }

  lemma ExtraneousMeansAbsent(t: Tree, S: Path, T: Path, entries: set<Path>, p: Path)
    requires Rooted(t) && forall c :: Above(S, c) ==> (c[|S|..] in entries <==> c in Below(t, S))
    ensures Extraneous(entries, T, p) <==> Above(T, p) && SourceOf(p, S, T) !in t
  {
    forall a | Above(T, a) ensures a[|T|..] in entries <==> SourceOf(a, S, T) in t {
      assert SourceOf(a, S, T)[|S|..] == a[|T|..];
    }
    if Extraneous(entries, T, p) {
      var a :| Above(T, a) && a <= p && a[|T|..] !in entries;
      if a != p {
        SourceOrder(a, p, S, T);
        if SourceOf(p, S, T) in t {
          AncestorIsDir(t, SourceOf(a, S, T), SourceOf(p, S, T));
        }
      }
    }
  }

  /** The copy walk, and the delete walk if there is one, leave what a sync should. */
  lemma WalksSync(start: Tree, mid: Tree, now: Tree, S: Path, T: Path, delete: bool, entries: set<Path>, r: TreeResult)
    requires Rooted(start) && Rooted(mid) && Walked(start, mid, S, T, Below(start, S), delete, entries, r)
    requires if delete then forall q {:trigger At(now, q)} ::
                 At(now, q) == if Extraneous(entries, T, q) then None else At(mid, q)
             else now == mid
    ensures forall q {:trigger At(now, q)} :: At(now, q) == Synced(start, S, T, delete, q)
  {
    forall q ensures At(now, q) == Synced(start, S, T, delete, q) {
      ExtraneousMeansAbsent(start, S, T, entries, q);
      assert At(mid, q) == At(mid, q) && At(now, q) == At(now, q);
      if UnderFile(start, S, T, q) {
        UnderFileHasNoSource(start, S, T, q);
      }
    }
  }

  lemma SweepIsTouched(start: Tree, mid: Tree, now: Tree, S: Path, T: Path, delete: bool, entries: set<Path>,
                       r: TreeResult, umask: set<nat>)
    requires Rooted(start) && Walked(start, mid, S, T, Below(start, S), delete, entries, r) && delete
    requires forall q {:trigger At(now, q)} ::
      At(now, q) == At(mid, q) || (Extraneous(entries, T, q) && At(now, q) == None)
    ensures Touched(start, now, S, T, delete, umask)
  {
    CopiedIsTouched(start, mid, S, T, Below(start, S), delete, umask);
    forall q
      ensures || At(now, q) == At(mid, q)
              || (Above(T, q) && At(now, q) == None && SourceOf(q, S, T) !in start)
    {
      ExtraneousMeansAbsent(start, S, T, entries, q);
    }
    forall q ensures At(mid, q) == At(mid, q) {
    }
    TouchedFurther(start, mid, now, S, T, umask);
  }

  lemma TouchedFurther(start: Tree, mid: Tree, now: Tree, S: Path, T: Path, umask: set<nat>)
    requires Touched(start, mid, S, T, true, umask)
    requires forall q {:trigger At(now, q)} ::
      At(now, q) == At(mid, q) || (Above(T, q) && At(now, q) == None && SourceOf(q, S, T) !in start)
    ensures Touched(start, now, S, T, true, umask)
  {
  }

  /** What the two walks report as deleted. */
  lemma WalksReport(start: Tree, mid: Tree, S: Path, T: Path, entries: set<Path>, r: TreeResult, p: Path)
    requires Rooted(start) && Rooted(mid) && Walked(start, mid, S, T, Below(start, S), true, entries, r)
    ensures p in r.deleted || (p in mid && TopExtraneous(entries, T, p)) <==> Discarded(start, S, T, true, p)
  {
    assert At(mid, p) == At(mid, p);
    forall a ensures Extraneous(entries, T, a) <==> Above(T, a) && SourceOf(a, S, T) !in start {
      ExtraneousMeansAbsent(start, S, T, entries, a);
    }
    forall a | Above(T, a) ensures a[|T|..] in entries <==> SourceOf(a, S, T) in start {
      assert SourceOf(a, S, T)[|S|..] == a[|T|..];
    }
    if UnderFile(start, S, T, p) {
      UnderFileHasNoSource(start, S, T, p);
      var a :| Above(T, a) && Above(a, p) && IsFile(start, SourceOf(a, S, T));
      assert Due(start, S, T, Below(start, S), a) by {
        SourceOrder(a, p, S, T);
      }
      assert At(mid, a).value.File?;
      if p in mid {
        AncestorIsDir(mid, a, p);
      }
    }
  }

  /** What the copy walk discards has a source entry, what the delete walk discards has none. */
  lemma WalksReportOnce(start: Tree, mid: Tree, S: Path, T: Path, entries: set<Path>, r: TreeResult, removed: seq<Path>)
    requires Rooted(start) && Walked(start, mid, S, T, Below(start, S), true, entries, r)
    requires NoRepeats(removed) && forall p :: p in removed ==> TopExtraneous(entries, T, p)
    ensures NoRepeats(r.deleted + removed) && NoRepeats(r.skipped)
  {
    forall p | p in removed
      ensures p !in r.deleted
    {
      assert SourceOf(p, S, T)[|S|..] == p[|T|..];
    }
    NoRepeatsJoined(r.deleted, removed);
  }

  /** Everything a sync discards. */
  ghost function AllDiscarded(t: Tree, S: Path, T: Path, delete: bool): set<Path> {
    set p | p in t && Discarded(t, S, T, delete, p)
  }

  /** Without deletion nothing is reported as deleted. */
  lemma NothingReported(start: Tree, mid: Tree, S: Path, T: Path, entries: set<Path>, r: TreeResult)
    requires Walked(start, mid, S, T, Below(start, S), false, entries, r)
    ensures forall p :: p !in r.deleted
  {
    forall p ensures p !in r.deleted {
      assert Above(T, p) ==> TargetOf(SourceOf(p, S, T), S, T) == p;
    }
  }

  lemma PreparedAt(was: Tree, start: Tree, S: Path, T: Path, q: Path)
    requires Prepared(was, start, T) && !(S <= T) && !(T <= S)
    ensures if q <= T then IsDir(start, q) && (q in was ==> At(start, q) == At(was, q)) else At(start, q) == At(was, q)
    ensures Above(T, q) ==> At(start, SourceOf(q, S, T)) == At(was, SourceOf(q, S, T))
  {
    assert At(start, q) == At(start, q);
    if Above(T, q) {
      SourceAgrees(was, start, S, T, SourceOf(q, S, T));
    }
  }

  lemma TouchedIsCutShort(was: Tree, start: Tree, now: Tree, S: Path, T: Path, delete: bool, umask: set<nat>)
    requires Prepared(was, start, T) && !(S <= T) && !(T <= S)
    requires Touched(start, now, S, T, delete, umask)
    ensures CutShort(was, now, S, T, delete, umask)
  {
    forall q
      ensures At(now, q) == At(now, q)
      ensures if q <= T then IsDir(start, q) && (q in was ==> At(start, q) == At(was, q)) else At(start, q) == At(was, q)
      ensures Above(T, q) ==> At(start, SourceOf(q, S, T)) == At(was, SourceOf(q, S, T))
    {
      PreparedAt(was, start, S, T, q);
    }
  }

  lemma SyncedIsCutShort(was: Tree, start: Tree, now: Tree, S: Path, T: Path, delete: bool, umask: set<nat>)
    requires Prepared(was, start, T) && !(S <= T) && !(T <= S)
    requires forall q {:trigger At(now, q)} :: At(now, q) == Synced(start, S, T, delete, q)
    requires Clear(start, S, T, Below(start, S), delete)
    ensures CutShort(was, now, S, T, delete, umask) && IsSynced(was, now, S, T, delete)
  {
    forall q
      ensures if q <= T then IsDir(now, q) && (q in was ==> At(now, q) == At(was, q))
              else At(now, q) == Synced(was, S, T, delete, q)
    {
      PreparedAt(was, start, S, T, q);
      assert At(now, q) == At(now, q);
    }
    forall q | Above(T, q) && Prescribed(start, SourceOf(q, S, T))
      ensures delete || !Conflict(was, SourceOf(q, S, T), q)
    {
      PreparedAt(was, start, S, T, q);
      ClearMeansNoConflict(start, S, T, Below(start, S), delete, q);
    }
  }
}
