/** A file system as a map from resolved paths to nodes, with operations that may fault. */
module FileTree {
  import opened Options

  /** A cleaned absolute path, as its segments. */
  type Path = seq<string>

  /** Permission bits, and the set-id and sticky bits beside them. */
  datatype Mode = Mode(perm: set<nat>, extra: set<nat>)

  datatype Node = Dir(mode: Mode) | File(data: string, mode: Mode) | Symlink(dest: string) | Special

  type Tree = map<Path, Node>

  const MODE_0755 := Mode({0, 2, 3, 5, 6, 7, 8}, {})

  function Perm(m: Mode): Mode {
    Mode(m.perm, {})
  }

  /** The mode a new directory gets. */
  function Masked(m: Mode, umask: set<nat>): Mode {
    Mode(m.perm - umask, m.extra)
  }

  predicate IsDir(t: Tree, p: Path) {
    p in t && t[p].Dir?
  }

  predicate IsFile(t: Tree, p: Path) {
    p in t && t[p].File?
  }

  function At(t: Tree, p: Path): Option<Node> {
    if p in t then Some(t[p]) else None
  }

  predicate Above(a: Path, p: Path) {
    a < p
  }

  function Without(t: Tree, p: Path): Tree {
    map q | q in t && !(p <= q) :: t[q]
  }

  /** Everything lies in directories. */
  ghost predicate Rooted(t: Tree) {
    forall p, k {:trigger p[..k], p in t} :: p in t && 0 <= k < |p| ==> IsDir(t, p[..k])
  }

  lemma AncestorIsDir(t: Tree, a: Path, p: Path)
    requires Rooted(t) && p in t && a < p
    ensures IsDir(t, a)
  {
    assert p[..|a|] == a;
  }

  lemma ComparablePrefixes(a: Path, b: Path, p: Path)
    requires a <= p && b <= p
    ensures a <= b || b <= a
  {
    if |a| <= |b| {
      assert b[..|a|] == p[..|a|] == a;
    } else {
      assert a[..|b|] == p[..|b|] == b;
    }
  }

  /** What a walk below `root` visits: every path there once, each after the directories above it. */
  ghost predicate WalkOf(t: Tree, root: Path, order: seq<Path>) {
    && (forall i :: 0 <= i < |order| ==> root < order[i] && order[i] in t)
    && (forall p :: p in t && root < p ==> p in order)
    && (forall i, j :: 0 <= i < j < |order| ==> order[i] != order[j])
    && (forall i, a {:trigger Above(a, order[i])} ::
          0 <= i < |order| && Above(root, a) && Above(a, order[i]) ==> a in order[..i])
  }

  class FileSystem {
    var nodes: Tree
    const umask: set<nat>
    ghost var faulted: bool  // some operation failed for a reason outside the tree

    method Lstat(p: Path) returns (ok: bool, info: Option<Node>)
      modifies this`faulted
      ensures ok ==> info == At(nodes, p) && faulted == old(faulted)
      ensures !ok ==> faulted
    {
      ok := *;
      info := if p in nodes then Some(nodes[p]) else None;
      if !ok {
        faulted := true;
      }
    }

    method Mkdir(p: Path, mode: Mode) returns (ok: bool)
      requires Rooted(nodes) && p !in nodes && p != []
      modifies this
      ensures Rooted(nodes)
      ensures ok ==> nodes == old(nodes)[p := Dir(Masked(mode, umask))] && faulted == old(faulted)
      ensures !ok ==> nodes == old(nodes) && (faulted == old(faulted) || faulted)
      ensures !ok && !faulted ==> !IsDir(nodes, p[..|p| - 1])
    {
      ok := *;
      if !ok {
        faulted := true;
        return;
      }
      if p[..|p| - 1] !in nodes || !nodes[p[..|p| - 1]].Dir? {
        return false;
      }
      ghost var was := nodes;
      nodes := nodes[p := Dir(Masked(mode, umask))];
      forall q, k | q in nodes && 0 <= k < |q| ensures IsDir(nodes, q[..k]) {
        if q == p {
          assert k < |p| - 1 ==> p[..k] == p[..|p| - 1][..k];
        } else {
          assert q in was;
          assert IsDir(was, q[..k]);
        }
      }
    }

    method Chmod(p: Path, mode: Mode) returns (ok: bool)
      requires Rooted(nodes) && IsDir(nodes, p)
      modifies this
      ensures Rooted(nodes)
      ensures ok ==> nodes == old(nodes)[p := Dir(mode)] && faulted == old(faulted)
      ensures !ok ==> nodes == old(nodes) && faulted
    {
      ok := *;
      if !ok {
        faulted := true;
        return;
      }
      nodes := nodes[p := Dir(mode)];
    }

    /** A removal that faults may have removed any part of the tree that leaves it rooted. */
    method RemoveAll(p: Path) returns (ok: bool)
      requires Rooted(nodes)
      modifies this
      ensures Rooted(nodes)
      ensures ok ==> nodes == Without(old(nodes), p) && faulted == old(faulted)
      ensures !ok ==> faulted
      ensures forall q :: At(nodes, q) == At(old(nodes), q) || (p <= q && q !in nodes)
    {
      ok := *;
      if ok {
        nodes := Without(nodes, p);
      } else {
        faulted := true;
        var gone: Path := *;
        if p <= gone {
          nodes := Without(nodes, gone);
        }
      }
    }

    /** Writes a temporary file beside the target and renames it; a fault may come after the rename. */
    method CopyFile(from: Path, to: Path) returns (ok: bool)
      requires Rooted(nodes) && IsFile(nodes, from) && !IsDir(nodes, to)
      requires to != [] && IsDir(nodes, to[..|to| - 1])
      modifies this
      ensures Rooted(nodes)
      ensures ok ==> faulted == old(faulted)
      ensures !ok ==> faulted
      ensures nodes == old(nodes)[to := File(old(nodes)[from].data, Mode(old(nodes)[from].mode.perm, {}))]
           || (!ok && nodes == old(nodes))
    {
      ok := *;
      var renamed: bool := *;
      if !ok {
        faulted := true;
      }
      if ok || renamed {
        ghost var was := nodes;
        nodes := nodes[to := File(nodes[from].data, Perm(nodes[from].mode))];
        forall q, k | q in nodes && 0 <= k < |q| ensures IsDir(nodes, q[..k]) {
          if q == to {
            assert k < |to| - 1 ==> to[..k] == to[..|to| - 1][..k];
          } else {
            assert q in was;
            assert IsDir(was, q[..k]);
          }
        }
      }
    }

    method SyncDirectory(p: Path) returns (ok: bool)
      modifies this`faulted
      ensures ok ==> faulted == old(faulted)
      ensures !ok ==> faulted
    {
      ok := *;
      if !ok {
        faulted := true;
      }
    }

    /** Lists what lies below a directory. A fault while walking is the caller's to model. */
    method Walk(root: Path) returns (order: seq<Path>)
      requires Rooted(nodes)
      ensures WalkOf(nodes, root, order)
    {
      var rest := set p | p in nodes && root < p;
      order := [];
      while rest != {}
        invariant forall p :: p in rest ==> p in nodes && root < p && p !in order
        invariant forall i :: 0 <= i < |order| ==> root < order[i] && order[i] in nodes
        invariant forall p :: p in nodes && root < p ==> p in rest || p in order
        invariant forall i, j :: 0 <= i < j < |order| ==> order[i] != order[j]
        invariant forall i, a {:trigger Above(a, order[i])} ::
          0 <= i < |order| && Above(root, a) && Above(a, order[i]) ==> a in order[..i]
        decreases |rest|
      {
        var next := Shallowest(rest);
        forall a | Above(root, a) && Above(a, next) ensures a in order {
          AncestorIsDir(nodes, a, next);
        }
        order := order + [next];
        rest := rest - {next};
      }
    }

    static method Shallowest(rest: set<Path>) returns (p: Path)
      requires rest != {}
      ensures p in rest && forall q :: q in rest ==> |p| <= |q|
    {
      p :| p in rest;
      var others := rest - {p};
      while others != {}
        invariant p in rest && others <= rest
        invariant forall q :: q in rest && q !in others ==> |p| <= |q|
        decreases |others|
      {
        var q :| q in others;
        others := others - {q};
        if |q| < |p| {
          p := q;
        }
      }
    }
  }
}
