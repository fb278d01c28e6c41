/** What a tree sync means for its caller. */
module TreePromises {
  import opened Options
  import opened FileTree
  import opened TreeSpec

  /** When a sync can succeed: the source is a directory, neither lies in the other, the target and what is above
      it are directories as far as they exist; the source holds only files, directories and symlinks; and no file or
      directory of it meets a symlink in the target, nor without deletion an entry of the other kind. */
  lemma FeasibleMeans(t: Tree, S: Path, T: Path, delete: bool)
    ensures Feasible(t, S, T, delete) <==>
      && S in t && t[S].Dir? && !(S <= T) && !(T <= S)
      && (forall q :: q <= T && q in t ==> t[q].Dir?)
      && (forall c :: c in t && S < c ==>
            var p := T + c[|S|..];
            match t[c]
            case Symlink(_) => true
            case Special => false
            case Dir(_) => p in t ==> t[p].Dir? || (delete && !t[p].Symlink?)
            case File(_, _) => p in t ==> !t[p].Symlink? && (t[p].Dir? ==> delete))
  {
    forall c | c in t && S < c
      ensures c in Below(t, S) && TargetOf(c, S, T) == T + c[|S|..]
    {
      assert Above(S, c);
    }
    if Feasible(t, S, T, delete) {
      forall q | q <= T && q in t ensures t[q].Dir? {
        assert At(t, q).Some?;
      }
      forall c | c in t && S < c
        ensures !Blocked(t, c, TargetOf(c, S, T), delete)
      {
        assert c in Below(t, S);
      }
    }
  }

  /** What the report counts: every source file, and every source directory the target lacks. */
  lemma CountersMean(t: Tree, S: Path, T: Path)
    ensures FilesToCopy(t, Below(t, S)) == set c | c in t && S < c && t[c].File?
    ensures DirsToMake(t, S, T, Below(t, S)) ==
              set c | c in t && S < c && t[c].Dir? && !(T + c[|S|..] in t && t[T + c[|S|..]].Dir?)
  {
    forall c
      ensures c in DirsToMake(t, S, T, Below(t, S)) <==>
                c in t && S < c && t[c].Dir? && !(T + c[|S|..] in t && t[T + c[|S|..]].Dir?)
    {
      assert S < c ==> TargetOf(c, S, T) == T + c[|S|..];
    }
  }

  /** What it lists as deleted: of the target, what the source has as the other kind, or has not at all while
      it has everything above, and none of that as a file. */
  lemma DeletedMeans(t: Tree, S: Path, T: Path, delete: bool, p: Path)
    ensures Discarded(t, S, T, delete, p) <==>
      && delete && T < p && p in t
      && (var c := S + p[|T|..];
          if c in t then (t[c].Dir? && !t[p].Dir?) || (t[c].File? && t[p].Dir?)
          else forall a :: T < a && a < p ==> S + a[|T|..] in t && !t[S + a[|T|..]].File?)
  {
    if delete && T < p && p in t && S + p[|T|..] !in t {
      forall a | T < a && a < p
        ensures Above(T, a) && Above(a, p) && SourceOf(a, S, T) == S + a[|T|..]
      {
      }
      if Discarded(t, S, T, delete, p) {
        forall a | T < a && a < p
          ensures S + a[|T|..] in t && !t[S + a[|T|..]].File?
        {
          assert Above(T, a) && Above(a, p);
          assert IsFile(t, SourceOf(a, S, T)) ==> UnderFile(t, S, T, p);
        }
      } else if UnderFile(t, S, T, p) {
        var a :| Above(T, a) && Above(a, p) && IsFile(t, SourceOf(a, S, T));
        assert T < a && a < p;
      } else {
        var a :| Above(T, a) && Above(a, p) && SourceOf(a, S, T) !in t;
        assert T < a && a < p;
      }
    }
  }

  /** A mirroring sync makes the target match: source files and directories are there, what the
      source lacks is gone, an entry where the source has a symlink stays as it was but with
      nothing below it; the source and everything outside the target are untouched. */
  lemma MirrorMatches(was: Tree, now: Tree, S: Path, T: Path, q: Path)
    requires Rooted(was) && Rooted(now) && Feasible(was, S, T, true) && IsSynced(was, now, S, T, true)
    ensures S <= q || !(T <= q || q <= T) ==> At(now, q) == At(was, q)
    ensures Above(T, q) ==>
      match At(was, SourceOf(q, S, T))
      case None => q !in now
      case Some(Symlink(_)) =>
        && At(now, q) == At(was, q)
        && (forall d {:trigger At(now, d)} :: Above(q, d) ==> At(now, d) == None)
      case Some(Dir(m)) => At(now, q) == Some(Dir(Mode(m.perm, {})))
      case Some(File(data, m)) => At(now, q) == Some(File(data, Mode(m.perm, {})))
      case Some(Special) => false
  {
    assert At(now, q) == At(now, q);
    if S <= q {
      SourceIsApart(S, T, q);
      assert q <= T ==> S <= T;
    }
    if Above(T, q) && SourceOf(q, S, T) in was {
      var c := SourceOf(q, S, T);
      assert TargetOf(c, S, T) == q;
      assert c in Below(was, S);
      assert !Blocked(was, c, TargetOf(c, S, T), true);
      if was[c].Symlink? {
        forall d | Above(q, d) ensures At(now, d) == None {
          SourceOrder(q, d, S, T);
          if SourceOf(d, S, T) in was {
            AncestorIsDir(was, c, SourceOf(d, S, T));
          }
        }
      }
    }
  }

  /** A sync without deletion overlays: the source's files and directories override, all else stays;
      and even one that fails loses no entry and leaves each file wholly old or wholly new. */
  lemma OverlayLosesNothing(was: Tree, now: Tree, S: Path, T: Path, umask: set<nat>, q: Path)
    requires Rooted(was) && !(S <= T) && !(T <= S)
    requires (Feasible(was, S, T, false) && IsSynced(was, now, S, T, false)) || CutShort(was, now, S, T, false, umask)
    ensures q in was ==> q in now
    ensures IsFile(was, q) && At(now, q) != At(was, q) ==>
      && Above(T, q) && IsFile(was, SourceOf(q, S, T))
      && At(now, q) == Some(File(was[SourceOf(q, S, T)].data, Mode(was[SourceOf(q, S, T)].mode.perm, {})))
    ensures IsSynced(was, now, S, T, false) && Above(T, q) ==>
      match At(was, SourceOf(q, S, T))
      case Some(Dir(m)) => At(now, q) == Some(Dir(Mode(m.perm, {})))
      case Some(File(data, m)) => At(now, q) == Some(File(data, Mode(m.perm, {})))
      case _ => At(now, q) == At(was, q)
  {
    assert At(now, q) == At(now, q);
    if Above(T, q) && Feasible(was, S, T, false) {
      assert SourceOf(q, S, T) in was ==> SourceOf(q, S, T) in Below(was, S);
      assert TargetOf(SourceOf(q, S, T), S, T) == q;
    }
  }

  /** Syncing again is feasible and changes, creates and deletes nothing. */
  lemma SecondSyncIsIdle(was: Tree, now: Tree, S: Path, T: Path, delete: bool)
    requires Rooted(was) && Feasible(was, S, T, delete) && IsSynced(was, now, S, T, delete)
    ensures Feasible(now, S, T, delete)
    ensures DirsToMake(now, S, T, Below(now, S)) == {}
    ensures forall p :: !Discarded(now, S, T, delete, p)
    ensures forall after: Tree :: IsSynced(now, after, S, T, delete) ==> after == now
  {
    forall c | S <= c ensures At(now, c) == At(was, c) {
      SourceIsApart(S, T, c);
      assert c <= T ==> S <= T;
    }
    assert At(now, S) == At(was, S);
    forall c | Above(S, c) && c in now
      ensures c in was && now[c] == was[c]
      ensures !Blocked(now, c, TargetOf(c, S, T), delete) && !Conflict(now, c, TargetOf(c, S, T))
      ensures IsDir(now, c) ==> IsDir(now, TargetOf(c, S, T))
    {
      CorrespondenceInverts(c, S, T);
      assert At(now, c) == At(was, c);
      assert c in Below(was, S);
      assert !Blocked(was, c, TargetOf(c, S, T), delete);
      assert At(now, TargetOf(c, S, T)) == Synced(was, S, T, delete, TargetOf(c, S, T));
    }
    forall q | !(q <= T) ensures At(now, q) == Synced(was, S, T, delete, q) == Synced(now, S, T, delete, q) {
      assert At(now, q) == At(now, q);
      if Above(T, q) {
        assert At(now, SourceOf(q, S, T)) == At(was, SourceOf(q, S, T));
      }
    }
    forall p ensures !Discarded(now, S, T, delete, p) {
      if Above(T, p) {
        assert TargetOf(SourceOf(p, S, T), S, T) == p;
        assert At(now, SourceOf(p, S, T)) == At(was, SourceOf(p, S, T));
        assert At(now, p) == Synced(was, S, T, delete, p);
      }
    }
    forall q | q <= T ensures At(now, q) == At(now, q) && IsDir(now, q) {
    }
    forall after: Tree | IsSynced(now, after, S, T, delete) ensures after == now {
      forall q ensures At(after, q) == At(now, q) {
        assert At(after, q) == At(after, q) && At(now, q) == At(now, q);
      }
      assert forall q :: q in after <==> At(after, q).Some?;
      assert forall q :: q in now <==> At(now, q).Some?;
      forall q ensures q in after <==> q in now {
        assert At(after, q) == At(now, q);
      }
      forall q | q in now ensures after[q] == now[q] {
        assert At(after, q) == At(now, q);
      }
    }
  }
}
