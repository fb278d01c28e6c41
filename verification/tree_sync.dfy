/** Mirroring one directory tree into another: a copy walk, then an optional delete walk. */
module TreeSync {
  import opened Options
  import opened FileTree
  import opened TreeSpec

  /** One step of both loops over a path: makes the directory `p`, replacing what is in its way if
      allowed. A symlink always stops it. */
  method MakeDirectory(fs: FileSystem, p: Path, mode: Mode, replace: bool) returns (ok: bool, created: bool, removed: bool)
    requires Rooted(fs.nodes) && p != [] && IsDir(fs.nodes, p[..|p| - 1])
    modifies fs
    ensures Rooted(fs.nodes) && (old(fs.faulted) ==> fs.faulted)
    ensures ok ==> fs.nodes == if IsDir(old(fs.nodes), p) then old(fs.nodes)
                               else Without(old(fs.nodes), p)[p := Dir(Masked(mode, fs.umask))]
    ensures ok ==> p in old(fs.nodes) ==> !old(fs.nodes)[p].Symlink? && (replace || IsDir(old(fs.nodes), p))
    ensures ok ==> (created <==> !IsDir(old(fs.nodes), p))
    ensures ok ==> (removed <==> p in old(fs.nodes) && !IsDir(old(fs.nodes), p))
    ensures !ok ==> HalfMade(old(fs.nodes), fs.nodes, p, Masked(mode, fs.umask), replace)
    ensures !ok && !fs.faulted ==> p in old(fs.nodes) && !IsDir(old(fs.nodes), p)
                                   && (!replace || old(fs.nodes)[p].Symlink?)
  {
    created, removed := false, false;
    var read, info := fs.Lstat(p);
    if !read {
      return false, false, false;
    }
    if info.None? {
      NothingBelow(fs.nodes, p);
      ok := fs.Mkdir(p, mode);
      created := true;
    } else if info.value.Symlink? {
      ok := false;
    } else if info.value.Dir? {
      ok := true;
    } else if !replace {
      ok := false;
    } else {
      NothingBelow(fs.nodes, p);
      ghost var was := fs.nodes;
      ok := fs.RemoveAll(p);
      removed := true;
      if !ok {
        PartlyRemoved(was, fs.nodes, p);
        return;
      }
      assert IsDir(fs.nodes, p[..|p| - 1]);
      ok := fs.Mkdir(p, mode);
      created := true;
    }
  }

  method EnsureTreeDirectory(fs: FileSystem, T: Path, p: Path, mode: Mode, replace: bool)
    returns (ok: bool, created: bool, removed: seq<Path>)
    requires Rooted(fs.nodes) && IsDir(fs.nodes, T) && Above(T, p)
    modifies fs
    ensures Rooted(fs.nodes) && (old(fs.faulted) ==> fs.faulted)
    ensures ok ==> fs.nodes == MadeDirs(old(fs.nodes), T, p, |p|, Masked(Perm(mode), fs.umask))[p := Dir(Perm(mode))]
    ensures Grounded(old(fs.nodes), T, p) ==>
      && (!ok ==> HalfMade(old(fs.nodes), fs.nodes, p, Masked(Perm(mode), fs.umask), replace))
      && (!ok && !fs.faulted ==> p in old(fs.nodes) && !IsDir(old(fs.nodes), p)
                                 && (!replace || old(fs.nodes)[p].Symlink?))
      && (ok ==> p in old(fs.nodes) ==> !old(fs.nodes)[p].Symlink? && (replace || IsDir(old(fs.nodes), p)))
      && (ok ==> (created <==> !IsDir(old(fs.nodes), p)))
      && (ok ==> removed == if p in old(fs.nodes) && !IsDir(old(fs.nodes), p) then [p] else [])
  {
    ghost var start := fs.nodes;
    ghost var m := Masked(Perm(mode), fs.umask);
    created, removed := false, [];
    assert p[..|T|] == T && p[..|p|] == p;
    for k := |T| to |p|
      invariant Rooted(fs.nodes) && (old(fs.faulted) ==> fs.faulted)
      invariant fs.nodes == MadeDirs(start, T, p, k, m) && IsDir(fs.nodes, p[..k])
      invariant k < |p| && Grounded(start, T, p) ==> fs.nodes == start && !created && removed == []
      invariant k == |p| && Grounded(start, T, p) ==>
        && (p in start ==> !start[p].Symlink? && (replace || IsDir(start, p)))
        && (created <==> !IsDir(start, p))
        && removed == (if p in start && !IsDir(start, p) then [p] else [])
        && fs.nodes == if IsDir(start, p) then start else Without(start, p)[p := Dir(m)]
    {
      var current := p[..k + 1];
      assert k + 1 < |p| ==> Above(T, current) && Above(current, p);
      assert current[..|current| - 1] == p[..k];
      var made, isNew, replaced := MakeDirectory(fs, current, Perm(mode), replace);
      if !made {
        return false, created, removed;
      }
      created := created || isNew;
      removed := removed + if replaced then [current] else [];
    }
    ok := fs.Chmod(p, Perm(mode));
  }

  method EnsureTreeParent(fs: FileSystem, T: Path, d: Path, replace: bool) returns (ok: bool, removed: seq<Path>)
    requires Rooted(fs.nodes) && IsDir(fs.nodes, T) && T <= d
    modifies fs
    ensures Rooted(fs.nodes) && (old(fs.faulted) ==> fs.faulted)
    ensures ok ==> fs.nodes == MadeDirs(old(fs.nodes), T, d, |d|, Masked(MODE_0755, fs.umask)) && IsDir(fs.nodes, d)
    ensures Grounded(old(fs.nodes), T, d) && IsDir(old(fs.nodes), d) ==>
      fs.nodes == old(fs.nodes) && removed == [] && (!ok ==> fs.faulted)
  {
    ghost var start := fs.nodes;
    removed := [];
    assert d[..|T|] == T && d[..|d|] == d;
    for k := |T| to |d|
      invariant Rooted(fs.nodes) && (old(fs.faulted) ==> fs.faulted)
      invariant fs.nodes == MadeDirs(start, T, d, k, Masked(MODE_0755, fs.umask)) && IsDir(fs.nodes, d[..k])
      invariant Grounded(start, T, d) && IsDir(start, d) ==> fs.nodes == start && removed == []
    {
      var current := d[..k + 1];
      assert k + 1 < |d| ==> Above(T, current) && Above(current, d);
      assert current[..|current| - 1] == d[..k];
      var made, _, replaced := MakeDirectory(fs, current, MODE_0755, replace);
      if !made {
        return false, removed;
      }
      removed := removed + if replaced then [current] else [];
    }
    ok := true;
  }

  method PrepareTreeFileDestination(fs: FileSystem, T: Path, p: Path, replace: bool)
    returns (ok: bool, removed: seq<Path>)
    requires Rooted(fs.nodes) && IsDir(fs.nodes, T) && Above(T, p)
    modifies fs
    ensures Rooted(fs.nodes) && (old(fs.faulted) ==> fs.faulted)
    ensures ok ==> IsDir(fs.nodes, p[..|p| - 1]) && !IsDir(fs.nodes, p)
    ensures Grounded(old(fs.nodes), T, p) ==>
      && (ok ==> fs.nodes == if IsDir(old(fs.nodes), p) then Without(old(fs.nodes), p) else old(fs.nodes))
      && (ok ==> p in old(fs.nodes) ==> !old(fs.nodes)[p].Symlink? && (replace || !IsDir(old(fs.nodes), p)))
      && (ok ==> removed == if IsDir(old(fs.nodes), p) then [p] else [])
      && (!ok ==> forall q {:trigger At(fs.nodes, q)} ::
            || At(fs.nodes, q) == At(old(fs.nodes), q)
            || (replace && p <= q && IsDir(old(fs.nodes), p) && At(fs.nodes, q) == None))
      && (!ok && !fs.faulted ==> p in old(fs.nodes)
                                 && (old(fs.nodes)[p].Symlink? || (IsDir(old(fs.nodes), p) && !replace)))
  {
    var d := p[..|p| - 1];
    if Grounded(fs.nodes, T, p) {
      assert d == T || (Above(T, d) && Above(d, p));
      forall a | Above(T, a) && Above(a, d) ensures IsDir(fs.nodes, a) {
        assert Above(a, p);
      }
    }
    ok, removed := EnsureTreeParent(fs, T, d, replace);
    if !ok {
      return;
    }
    var read, info := fs.Lstat(p);
    if !read {
      return false, removed;
    }
    if info.None? {
      return;
    }
    if info.value.Symlink? {
      return false, removed;
    }
    if info.value.Dir? {
      if !replace {
        return false, removed;
      }
      ok := fs.RemoveAll(p);
      if !ok {
        return;
      }
      removed := removed + [p];
    }
  }

  /** Copies one source entry; `created` and `copied` say what the counters gain. */
  method CopyEntry(fs: FileSystem, S: Path, T: Path, c: Path, delete: bool)
    returns (ok: bool, created: bool, copied: bool, removed: seq<Path>, skipped: bool)
    requires Rooted(fs.nodes) && IsDir(fs.nodes, T) && !(S <= T) && !(T <= S)
    requires Above(S, c) && c in fs.nodes && Grounded(fs.nodes, T, TargetOf(c, S, T))
    modifies fs
    ensures Rooted(fs.nodes) && (old(fs.faulted) ==> fs.faulted)
    ensures !ok ==> if Prescribed(old(fs.nodes), c)
                    then Spoiled(old(fs.nodes), fs.nodes, TargetOf(c, S, T), Image(old(fs.nodes)[c]),
                                 Masked(Perm(old(fs.nodes)[c].mode), fs.umask), delete)
                    else fs.nodes == old(fs.nodes)
    ensures !ok && !fs.faulted ==> Blocked(old(fs.nodes), c, TargetOf(c, S, T), delete)
    ensures ok ==>
      && !Blocked(old(fs.nodes), c, TargetOf(c, S, T), delete)
      && (if Prescribed(old(fs.nodes), c)
          then Placed(old(fs.nodes), fs.nodes, TargetOf(c, S, T), Image(old(fs.nodes)[c]))
          else fs.nodes == old(fs.nodes))
      && (created <==> IsDir(old(fs.nodes), c) && !IsDir(old(fs.nodes), TargetOf(c, S, T)))
      && (copied <==> IsFile(old(fs.nodes), c))
      && (skipped <==> old(fs.nodes)[c].Symlink?)
      && removed == if Conflict(old(fs.nodes), c, TargetOf(c, S, T)) then [TargetOf(c, S, T)] else []
  {
    ghost var was := fs.nodes;
    var p := TargetOf(c, S, T);
    created, copied, removed, skipped := false, false, [], false;
    var read, info := fs.Lstat(c);
    if !read {
      return false, false, false, [], false;
    }
    match info.value {
      case Symlink(_) =>
        return true, false, false, [], true;
      case Dir(mode) =>
        ok, created, removed := EnsureTreeDirectory(fs, T, p, mode, delete);
        if ok {
          MadeInPlace(was, fs.nodes, T, p, Masked(Perm(mode), fs.umask), Perm(mode));
        } else {
          HalfMadeSpoils(was, fs.nodes, p, Masked(Perm(mode), fs.umask), Dir(Perm(mode)), delete);
        }
      case Special =>
        return false, false, false, [], false;
      case File(_, _) =>
        if !IsDir(was, p) {
          NothingBelow(was, p);
        }
        ok, removed := PrepareTreeFileDestination(fs, T, p, delete);
        if !ok {
          return;
        }
        if p <= c {
          ComparablePrefixes(S, p, c);
          ComparablePrefixes(S, T, p);
        }
        assert c in fs.nodes && fs.nodes[c] == was[c];
        ok := fs.CopyFile(c, p);
        copied := true;
    }
  }

  /** WalkDir does not descend into a directory that the callback removed. */
  method WasSkipped(gone: seq<Path>, p: Path) returns (skip: bool)
    ensures skip <==> exists i :: 0 <= i < |gone| && Above(gone[i], p)
  {
    skip := false;
    for i := 0 to |gone|
      invariant !skip && forall j :: 0 <= j < i ==> !Above(gone[j], p)
    {
      if Above(gone[i], p) {
        return true;
      }
    }
  }

  method DeleteTreeExtras(fs: FileSystem, T: Path, entries: set<Path>) returns (ok: bool, removed: seq<Path>)
    requires Rooted(fs.nodes)
    modifies fs
    ensures Rooted(fs.nodes) && (old(fs.faulted) ==> fs.faulted) && (!ok ==> fs.faulted)
    ensures ok ==> forall q {:trigger At(fs.nodes, q)} ::
      At(fs.nodes, q) == if Extraneous(entries, T, q) then None else At(old(fs.nodes), q)
    ensures forall q {:trigger At(fs.nodes, q)} ::
      At(fs.nodes, q) == At(old(fs.nodes), q) || (Extraneous(entries, T, q) && At(fs.nodes, q) == None)
    ensures ok ==> forall q :: q in removed <==> q in old(fs.nodes) && TopExtraneous(entries, T, q)
    ensures ok ==> NoRepeats(removed)
  {
    ghost var was := fs.nodes;
    removed := [];
    var order := fs.Walk(T);
    var j := 0;
    while j < |order|
      invariant j <= |order|
      invariant Rooted(fs.nodes) && (old(fs.faulted) ==> fs.faulted)
      invariant Swept(was, fs.nodes, entries, T, order[..j], removed) && Among(removed, order[..j])
    {
      var current := order[j];
      assert order[..j + 1] == order[..j] + [current];
      NextIsNew(order, j, removed);
      var read, _ := fs.Lstat(current);
      if !read {
        SweptExtent(was, fs.nodes, entries, T, order[..j], removed);
        return false, removed;
      }
      var skip := WasSkipped(removed, current);
      if skip || current[|T|..] in entries {
        SweptKeeps(was, fs.nodes, entries, T, order[..j], removed, current);
      } else {
        SweptTop(was, fs.nodes, entries, T, order[..j], removed, current);
        ghost var now := fs.nodes;
        var gone := fs.RemoveAll(current);
        if !gone {
          SweptExtent(was, now, entries, T, order[..j], removed);
          assert Extraneous(entries, T, current);
          return false, removed;
        }
        SweptOneMore(was, now, fs.nodes, entries, T, order[..j], removed, current);
        removed := removed + [current];
      }
      j := j + 1;
    }
    assert order[..j] == order;
    SweptExtent(was, fs.nodes, entries, T, order, removed);
    ok := true;
  }

  method CopyWalk(fs: FileSystem, S: Path, T: Path, delete: bool)
    returns (ok: bool, result: TreeResult, entries: set<Path>)
    requires Rooted(fs.nodes) && IsDir(fs.nodes, T) && !(S <= T) && !(T <= S)
    modifies fs
    ensures Rooted(fs.nodes) && (old(fs.faulted) ==> fs.faulted)
    ensures ok ==> Walked(old(fs.nodes), fs.nodes, S, T, Below(old(fs.nodes), S), delete, entries, result)
    ensures !ok ==> Touched(old(fs.nodes), fs.nodes, S, T, delete, fs.umask)
    ensures !ok && !fs.faulted ==> SomeBlocked(old(fs.nodes), S, T, delete)
  {
    ghost var start := fs.nodes;
    ghost var done: set<Path> := {};
    result, entries := TreeResult(0, 0, [], []), {};
    var order := fs.Walk(S);
    assert DirsToMake(start, S, T, done) == {} && FilesToCopy(start, done) == {};
    var i := 0;
    while i < |order|
      invariant i <= |order|
      invariant forall c :: c in done <==> c in order[..i]
      invariant Rooted(fs.nodes) && (old(fs.faulted) ==> fs.faulted)
      invariant Walked(start, fs.nodes, S, T, done, delete, entries, result)
    {
      var c := order[i];
      assert order[..i + 1] == order[..i] + [c];
      ghost var was := fs.nodes;
      NextEntry(start, was, S, T, done, delete, c);
      var copied, created, isFile, removed, skipped := CopyEntry(fs, S, T, c, delete);
      if !copied {
        EntryFailed(start, was, fs.nodes, S, T, done, delete, c, fs.umask, fs.faulted);
        return false, result, entries;
      }
      WalkedOneMore(start, was, fs.nodes, S, T, done, delete, c, entries, result, created, isFile, removed, skipped);
      entries := entries + {c[|S|..]};
      result := Tally(result, created, isFile, removed, skipped, c);
      done := done + {c};
      i := i + 1;
    }
    assert order[..i] == order;
    assert done == Below(start, S);
    ok := true;
  }

  method PrepareTreeTarget(fs: FileSystem, T: Path, allowed: bool) returns (ok: bool)
    requires Rooted(fs.nodes) && IsDir(fs.nodes, [])
    modifies fs
    ensures Rooted(fs.nodes) && (old(fs.faulted) ==> fs.faulted)
    ensures ok ==> allowed && Prepared(old(fs.nodes), fs.nodes, T) && TargetUsable(old(fs.nodes), T)
    ensures forall q {:trigger At(fs.nodes, q)} ::
      At(fs.nodes, q) == At(old(fs.nodes), q) || (q <= T && q !in old(fs.nodes) && IsDir(fs.nodes, q))
    ensures !ok && !fs.faulted ==> !allowed || !TargetUsable(old(fs.nodes), T)
    ensures forall q {:trigger At(fs.nodes, q)} ::
      At(fs.nodes, q) == At(old(fs.nodes), q) || At(fs.nodes, q) == Some(Dir(Mode({0, 2, 3, 5, 6, 7, 8} - fs.umask, {})))
  {
    ghost var start := fs.nodes;
    var read, info := fs.Lstat(T);
    if !read {
      return false;
    }
    if info.Some? {
      if !info.value.Dir? || !allowed {
        return false;
      }
      forall q | q <= T ensures At(start, q) == At(start, q) && IsDir(start, q) {
        if q != T {
          AncestorIsDir(start, q, T);
        }
      }
      return true;
    }
    if !allowed {
      return false;
    }
    assert T[..0] == [] && T[..|T|] == T;
    for k := 0 to |T|
      invariant Rooted(fs.nodes) && (old(fs.faulted) ==> fs.faulted)
      invariant forall q {:trigger At(fs.nodes, q)} ::
        At(fs.nodes, q) == At(start, q) || (q <= T && q !in start && IsDir(fs.nodes, q))
      invariant forall q {:trigger At(fs.nodes, q)} ::
        At(fs.nodes, q) == At(start, q) || At(fs.nodes, q) == Some(Dir(Mode({0, 2, 3, 5, 6, 7, 8} - fs.umask, {})))
      invariant IsDir(fs.nodes, T[..k])
      invariant forall q :: q <= T && |q| <= k ==> IsDir(fs.nodes, q)
    {
      var current := T[..k + 1];
      ghost var was := fs.nodes;
      assert current[..|current| - 1] == T[..k];
      assert At(was, current) == At(was, current);
      forall q | q <= T && |q| <= k + 1 ensures q == current || |q| <= k {
        assert q == T[..|q|];
      }
      read, info := fs.Lstat(current);
      if !read {
        return false;
      }
      if info.None? {
        ok := fs.Mkdir(current, MODE_0755);
        forall q
          ensures At(fs.nodes, q) == At(start, q) || (q <= T && q !in start && IsDir(fs.nodes, q))
          ensures At(fs.nodes, q) == At(start, q) || At(fs.nodes, q) == Some(Dir(Mode({0, 2, 3, 5, 6, 7, 8} - fs.umask, {})))
        {
          assert At(was, q) == At(was, q);
        }
        if !ok {
          return;
        }
      } else if !info.value.Dir? {
        assert At(start, current).Some? && !IsDir(start, current);
        return false;
      }
    }
    forall q | q <= T ensures IsDir(fs.nodes, q) && (q in start ==> At(fs.nodes, q) == At(start, q)) {
      assert At(fs.nodes, q) == At(fs.nodes, q);
    }
    ok := true;
  }

  method SyncTree(fs: FileSystem, S: Path, T: Path, delete: bool, sourceAllowed: bool, targetAllowed: bool)
    returns (ok: bool, result: TreeResult)
    requires Rooted(fs.nodes)
    modifies fs
    ensures Rooted(fs.nodes) && (old(fs.faulted) ==> fs.faulted)
    ensures ok ==> IsSynced(old(fs.nodes), fs.nodes, S, T, delete)
    ensures !ok ==> CutShort(old(fs.nodes), fs.nodes, S, T, delete, fs.umask)
    ensures !fs.faulted ==> (ok <==> sourceAllowed && targetAllowed && Feasible(old(fs.nodes), S, T, delete))
    ensures ok ==> Feasible(old(fs.nodes), S, T, delete)
    ensures ok ==> forall q {:trigger At(fs.nodes, q)} :: q <= T ==>
      At(fs.nodes, q) == At(old(fs.nodes), q) || At(fs.nodes, q) == Some(Dir(Mode({0, 2, 3, 5, 6, 7, 8} - fs.umask, {})))
    ensures ok ==>
      && result.filesCopied == |FilesToCopy(old(fs.nodes), Below(old(fs.nodes), S))|
      && result.directoriesCreated == |DirsToMake(old(fs.nodes), S, T, Below(old(fs.nodes), S))|
      && (forall p :: p in result.deleted <==> Discarded(old(fs.nodes), S, T, delete, p))
      && (forall c :: c in result.skipped <==> Above(S, c) && c in old(fs.nodes) && old(fs.nodes)[c].Symlink?)
      && NoRepeats(result.deleted) && NoRepeats(result.skipped)
      && |result.deleted| == |AllDiscarded(old(fs.nodes), S, T, delete)|
  {
    result := TreeResult(0, 0, [], []);
    if !sourceAllowed {
      return false, result;
    }
    var read, info := fs.Lstat(S);
    if !read {
      return false, result;
    }
    if info.None? || !info.value.Dir? {
      return false, result;
    }
    if T <= S || S <= T {
      return false, result;
    }
    ghost var was := fs.nodes;
    if S != [] {
      AncestorIsDir(was, [], S);
    }
    ok := PrepareTreeTarget(fs, T, targetAllowed);
    if !ok {
      return false, result;
    }
    ghost var start := fs.nodes;
    PreparedAgrees(was, start, S, T, delete);
    assert At(start, T) == At(start, T);
    forall c | Above(S, c) ensures At(start, c) == At(was, c) {
    }
    var entries;
    ok, result, entries := CopyWalk(fs, S, T, delete);
    if !ok {
      TouchedIsCutShort(was, start, fs.nodes, S, T, delete, fs.umask);
      return;
    }
    ghost var mid := fs.nodes;
    ghost var counted := result;
    if delete {
      var removed;
      ok, removed := DeleteTreeExtras(fs, T, entries);
      result := result.(deleted := result.deleted + removed);
      if !ok {
        SweepIsTouched(start, mid, fs.nodes, S, T, delete, entries, counted, fs.umask);
        TouchedIsCutShort(was, start, fs.nodes, S, T, delete, fs.umask);
        return;
      }
      WalksReportOnce(start, mid, S, T, entries, counted, removed);
      forall p ensures p in result.deleted <==> Discarded(start, S, T, true, p) {
        WalksReport(start, mid, S, T, entries, counted, p);
      }
    } else {
      NothingReported(start, mid, S, T, entries, counted);
    }
    LengthIsCount(result.deleted, AllDiscarded(was, S, T, delete));
    WalksSync(start, mid, fs.nodes, S, T, delete, entries, counted);
    SyncedIsCutShort(was, start, fs.nodes, S, T, delete, fs.umask);
    forall q {:trigger At(fs.nodes, q)} | q <= T ensures At(fs.nodes, q) == At(start, q) {
      assert At(fs.nodes, q) == Synced(start, S, T, delete, q);
    }
    forall q ensures At(start, q) == At(start, q) {
    }
    ok := fs.SyncDirectory(T);
  }
}
