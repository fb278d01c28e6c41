/** Idempotency keys: one retained job a key while the process lives, and what of that a
    restart keeps. */
module JobKeys {
  import opened Options
  import opened JobRecords
  import opened JobSpec
  import opened JobWorld
  import opened JobHistory
  import opened JobPromises

  // ---------- within one process ----------

  ghost predicate KeysDistinct(t: Table) {
    forall a, b :: a in t && b in t && t[a].key == t[b].key && t[a].key != "" ==> a == b
  }

  /** Within one process, distinct keys stay distinct. */
  lemma KeysStayDistinct(w: World, i: nat, op: Op, m: Mem, es: seq<Effect>)
    requires Safe(w) && MayRun(w, i, op) && Does(w.limits, w.mem, op, m, es) && KeysDistinct(w.mem.table)
    ensures KeysDistinct(m.table)
  {
    DoesWrites(w.limits, w.mem, op, m, es);
    WritesAreProper(w, i, op, m, es);
    var r := Written(w.mem, op, m);
    if r.Some? {
      forall a, b | a in m.table && b in m.table && m.table[a].key == m.table[b].key && m.table[a].key != ""
        ensures a == b
      {
        WroteTable(w.limits, w.mem, r.value, Trims(op), m, es, a);
        WroteTable(w.limits, w.mem, r.value, Trims(op), m, es, b);
      }
    }
  }

  lemma StepKeepsKeys(w: World, a: Action, w': World)
    requires Safe(w) && Next(w, a, w') && w.up && w'.up && KeysDistinct(w.mem.table)
    ensures KeysDistinct(w'.mem.table)
  {
    match a
    case Locked(i, op, m, es) => KeysStayDistinct(w, i, op, m, es);
    case CrashIn(_, _, _, _, _) =>
    case Crash =>
    case Boot(_, _, _, _, _) =>
    case CrashInBoot(_, _, _, _, _, _) =>
    case _ => LockFreeFrame(w, a, w');
  }

  lemma KeysOneStep(ws: seq<World>, acts: seq<Action>, n: nat)
    requires Run(ws, acts) && n < |acts| && ws[n].up && ws[n + 1].up && KeysDistinct(ws[n].mem.table)
    ensures KeysDistinct(ws[n + 1].mem.table)
  {
    RunStep(ws, acts, n);
    StepKeepsKeys(ws[n], acts[n], ws[n + 1]);
  }

  /** As long as the process lives, no two retained jobs come to share a key. */
  lemma {:induction false} NoSharedKeyWithinProcess(ws: seq<World>, acts: seq<Action>, i: nat, j: nat)
    requires Run(ws, acts) && i <= j < |ws| && KeysDistinct(ws[i].mem.table)
    requires forall n :: i <= n <= j ==> ws[n].up
    ensures KeysDistinct(ws[j].mem.table)
  {
    if i < j {
      NoSharedKeyWithinProcess(ws, acts, i, j - 1);
      KeysOneStep(ws, acts, j - 1);
    }
  }

  /** A start with the key of a retained job answers with that job and nothing else happens,
      even while stopping; only otherwise is a start refused or run. */
  lemma StartIsIdempotent(w: World, i: nat, o: StartOptions, stamp: string, now: Time, reply: StartReply, m: Mem,
                          es: seq<Effect>,
                          w': World, holder: Id)
    requires Safe(w) && Next(w, Locked(i, Start(o, stamp, now, reply), m, es), w')
    requires KeysDistinct(w.mem.table) && o.key != "" && holder in w.mem.table && w.mem.table[holder].key == o.key
    ensures reply == Reused(holder)
    ensures w' == w
  {
    assert ApplyAll(w.store, []) == w.store;
  }

  // ---------- across a restart ----------

  /** Jobs created after this one. */
  function Newer(t: Table, id: Id): set<Id>
    requires id in t
  {
    set x | x in t && t[x].createdAt > t[id].createdAt
  }

  /** This job and those created no earlier. */
  function NotOlder(t: Table, id: Id): set<Id>
    requires id in t
  {
    set x | x in t && t[x].createdAt >= t[id].createdAt
  }

  lemma SubsetIsNoLarger(a: set<Id>, b: set<Id>)
    requires a <= b
    ensures |a| <= |b|
  {
    assert b == a + (b - a);
  }

  /** `kept` are the newest `max` of the table, ties resolved either way. */
  ghost predicate KeepsNewest(t: Table, kept: set<Id>, max: nat) {
    && kept <= t.Keys && |kept| == (if |t.Keys| <= max then |t.Keys| else max)
    && forall gone, stays :: gone in t && gone !in kept && stays in kept ==> t[gone].createdAt <= t[stays].createdAt
  }

  lemma NewestAreFew(t: Table, kept: set<Id>, max: nat, id: Id)
    requires KeepsNewest(t, kept, max) && id in t && id in kept
    ensures |Newer(t, id)| < max
  {
    SubsetIsNoLarger(Newer(t, id) + {id}, kept);
  }

  lemma DroppedAreOutnumbered(t: Table, kept: set<Id>, max: nat, id: Id)
    requires KeepsNewest(t, kept, max) && id in t && id !in kept
    ensures |NotOlder(t, id)| > max
  {
    SubsetIsNoLarger(kept + {id}, t.Keys);
    SubsetIsNoLarger(kept + {id}, NotOlder(t, id));
  }

  lemma RecoveredAreNewest(l: Limits, d: Store, t: Table, now: Time, m: Mem, es: seq<Effect>, lost: set<Id>)
    requires Recovers(l, d, t, now, m, es, lost)
    ensures KeepsNewest(t, m.table.Keys, l.maxHistory)
    ensures forall id :: id in m.table ==> id in t && m.table[id].key == t[id].key
  {
    RecoveryKeepsTheNewest(l, d, t, now, m, es, lost);
    assert |m.table| == |m.table.Keys| && |t| == |t.Keys|;
    assert forall id :: Recorded(d, id) == Lookup(t, id);
  }

  /** Recovery drops a job with `maxHistory` newer ones and keeps a job when at most that
      many, itself included, are as new. */
  lemma RetainedByAge(l: Limits, d: Store, t: Table, now: Time, m: Mem, es: seq<Effect>, lost: set<Id>, id: Id)
    requires Recovers(l, d, t, now, m, es, lost) && id in t
    ensures |Newer(t, id)| >= l.maxHistory ==> id !in m.table
    ensures |NotOlder(t, id)| <= l.maxHistory ==> id in m.table
  {
    RecoveredAreNewest(l, d, t, now, m, es, lost);
    if id in m.table {
      NewestAreFew(t, m.table.Keys, l.maxHistory, id);
    } else {
      DroppedAreOutnumbered(t, m.table.Keys, l.maxHistory, id);
    }
  }

  /** Creation times tell the recorded jobs apart, or all of them fit. */
  ghost predicate AgeDecides(t: Table, max: nat) {
    |t| <= max || forall a, b :: a in t && b in t && t[a].createdAt == t[b].createdAt ==> a == b
  }

  /** Of any two recorded jobs with one key, one has `max` newer jobs beside it. */
  ghost predicate KeysApartByAge(t: Table, max: nat) {
    forall a, b :: a in t && b in t && t[a].key == t[b].key && t[a].key != "" && a != b ==>
      |Newer(t, a)| >= max || |Newer(t, b)| >= max
  }

  lemma KeptByAge(t: Table, kept: set<Id>, max: nat, id: Id)
    requires KeepsNewest(t, kept, max) && AgeDecides(t, max) && id in t
    ensures id in kept <==> |Newer(t, id)| < max
  {
    if id in kept {
      NewestAreFew(t, kept, max, id);
    } else {
      DroppedAreOutnumbered(t, kept, max, id);
      if |t| <= max {
        assert |t| == |t.Keys|;
        SubsetIsNoLarger(NotOlder(t, id), t.Keys);
        assert false;
      }
      assert NotOlder(t, id) == Newer(t, id) + {id};
    }
  }

  lemma RetainedExactly(l: Limits, d: Store, t: Table, now: Time, m: Mem, es: seq<Effect>, lost: set<Id>, id: Id)
    requires Recovers(l, d, t, now, m, es, lost) && AgeDecides(t, l.maxHistory)
    ensures id in m.table <==> id in t && |Newer(t, id)| < l.maxHistory
  {
    RecoveredAreNewest(l, d, t, now, m, es, lost);
    if id in t {
      KeptByAge(t, m.table.Keys, l.maxHistory, id);
    }
  }

  lemma NewerFit(t: Table, max: nat)
    requires |t| <= max
    ensures forall id :: id in t ==> |Newer(t, id)| < max
  {
    forall id | id in t
      ensures |Newer(t, id)| < max
    {
      assert |t| == |t.Keys|;
      SubsetIsNoLarger(Newer(t, id) + {id}, t.Keys);
    }
  }

  lemma SharedByAge(t: Table, kept: Table, max: nat)
    requires forall id :: id in kept <==> id in t && |Newer(t, id)| < max
    requires forall id :: id in kept ==> kept[id].key == t[id].key
    ensures KeysDistinct(kept) <==> KeysApartByAge(t, max)
  {
    if !KeysDistinct(kept) {
      var a, b :| a in kept && b in kept && kept[a].key == kept[b].key && kept[a].key != "" && a != b;
      assert a in t && b in t;
    } else {
      forall a, b | a in t && b in t && t[a].key == t[b].key && t[a].key != "" && a != b
        ensures |Newer(t, a)| >= max || |Newer(t, b)| >= max
      {
        assert a !in kept || b !in kept;
      }
    }
  }

  /** A restart leaves the keys of the retained jobs distinct exactly when, of any two
      recorded jobs with one key, one is too old to be retained. When all recorded jobs
      fit, that is when the recorded keys are distinct. */
  lemma KeysAfterRestart(l: Limits, d: Store, t: Table, now: Time, m: Mem, es: seq<Effect>, lost: set<Id>)
    requires Recovers(l, d, t, now, m, es, lost) && AgeDecides(t, l.maxHistory)
    ensures KeysDistinct(m.table) <==> KeysApartByAge(t, l.maxHistory)
    ensures |t| <= l.maxHistory ==> (KeysApartByAge(t, l.maxHistory) <==> KeysDistinct(t))
  {
    RecoveredAreNewest(l, d, t, now, m, es, lost);
    forall id
      ensures id in m.table <==> id in t && |Newer(t, id)| < l.maxHistory
    {
      RetainedExactly(l, d, t, now, m, es, lost, id);
    }
    SharedByAge(t, m.table, l.maxHistory);
    if |t| <= l.maxHistory {
      NewerFit(t, l.maxHistory);
      SharedByAge(t, t, l.maxHistory);
    }
  }

  /** Whatever the creation times, distinct recorded keys stay distinct; in particular when
      every recorded job with a key was still retained before the process ended. */
  lemma RetainedKeysSurvive(w: World, t: Table, now: Time, m: Mem, es: seq<Effect>, lost: set<Id>)
    requires Safe(w) && w.up && KeysDistinct(w.mem.table)
    requires forall id :: Recorded(w.store, id).Some? && Recorded(w.store, id).value.key != "" ==> id in w.mem.table
    requires Recovers(w.limits, w.store, t, now, m, es, lost)
    ensures KeysDistinct(t) && KeysDistinct(m.table)
  {
    RecoveredAreNewest(w.limits, w.store, t, now, m, es, lost);
    forall id | id in t && t[id].key != ""
      ensures id in w.mem.table && w.mem.table[id].key == t[id].key
    {
      assert Lookup(t, id) == Recorded(w.store, id);
      assert DiskLags(w, id);
    }
  }

  // ---------- how a key comes to be shared ----------

  /** A write that does not list a job removes it from disk exactly when it empties the
      journal, or publishes a snapshot while the journal holds no record of the job. */
  lemma UnlistedJobStays(d: Store, t: Table, r: Record, es: seq<Effect>, id: Id)
    requires Sound(t) && Storable(r) && Persisted(es, r, t) && id !in t && Recorded(d, id).Some?
    ensures var back := Recorded(ApplyAll(d, es), id);
      && (back.Some? <==> |es| < 2 || (|es| == 2 && id != "" && (id == r.id || Latest(d.journal, id).Some?)))
      && (back.Some? ==> back == Recorded(d, id) || (id == r.id && back == Some(r)))
  {
    assert es[..|es|] == es;
    PersistCrashPoints(d, t, r, es, |es|, id);
  }

  /** A job trimmed from memory stays on disk, with its key, until a compaction removes it. */
  lemma TrimmedJobStaysRecorded(w: World, i: nat, op: Op, m: Mem, es: seq<Effect>, id: Id)
    requires Safe(w) && MayRun(w, i, op) && Does(w.limits, w.mem, op, m, es)
    requires id in w.mem.table && id !in m.table && Recorded(w.store, id).Some?
    ensures var back := Recorded(ApplyAll(w.store, es), id);
      && (|es| < 2 ==> back.Some?) && (|es| == 3 ==> back.None?)
      && (back.Some? ==> back.value.key == w.mem.table[id].key)
  {
    TrimmingWrite(w, i, op, m, es, id);
    assert DiskLags(w, id);
    UnlistedJobStays(w.store, m.table, Written(w.mem, op, m).value, es, id);
  }

  lemma TrimmingWrite(w: World, i: nat, op: Op, m: Mem, es: seq<Effect>, id: Id)
    requires Safe(w) && MayRun(w, i, op) && Does(w.limits, w.mem, op, m, es)
    requires id in w.mem.table && id !in m.table
    ensures Written(w.mem, op, m).Some? && Sound(m.table)
    ensures var r := Written(w.mem, op, m).value;
      Storable(r) && Persisted(es, r, m.table) && (r.id == id ==> r.key == w.mem.table[id].key)
  {
    DoesWrites(w.limits, w.mem, op, m, es);
    WritesAreProper(w, i, op, m, es);
    SoundUpdate(w.mem.table, Written(w.mem, op, m).value);
  }
}
