/** What the durable state promises over every run: crashes, failed writes and restarts
    included. */
module JobHistory {
  import opened Options
  import opened JobRecords
  import opened JobIds
  import opened JobSpec
  import opened JobWorld

  // ---------- one locked operation ----------

  predicate Trims(op: Op) {
    op.Start? || op.Finish?
  }

  lemma DoesWrites(l: Limits, m: Mem, op: Op, m': Mem, es: seq<Effect>)
    requires Does(l, m, op, m', es)
    ensures Written(m, op, m').None? ==> m'.table == m.table && es == []
    ensures Written(m, op, m').Some? ==> Wrote(l, m, Written(m, op, m').value, Trims(op), m', es)
  {
  }

  /** A record written over an earlier one of the same job. */
  ghost predicate Follows(was: Record, now: Record) {
    now.id == was.id && now.key == was.key && now.createdAt == was.createdAt && now.resource == was.resource
  }

  /** What an operation may write: a new queued job, or a new record of a job that has not
      ended. A cancelled job never succeeds or fails; nothing ends while stopping. */
  ghost predicate ProperWrite(w: World, op: Op, r: Record) {
    && Storable(r) && r.id != ""
    && (if Spawned(op) == Some(r.id) then r.id !in w.used && r.status == Queued
        else r.id in w.mem.table && Follows(w.mem.table[r.id], r) && !Terminal(w.mem.table[r.id].status))
    && (r.id in w.mem.cancelled ==> r.status != Succeeded && r.status != Failed)
    && (w.mem.stopping ==> !Terminal(r.status))
  }

  lemma WritesAreProper(w: World, i: nat, op: Op, m: Mem, es: seq<Effect>)
    requires Safe(w) && MayRun(w, i, op) && Does(w.limits, w.mem, op, m, es)
    ensures Written(w.mem, op, m).Some? ==> ProperWrite(w, op, Written(w.mem, op, m).value)
    ensures Spawned(op).Some? ==> Spawned(op).value !in w.used && Written(w.mem, op, m).Some?
  {
    match op
    case Start(_, _, _, _) => StartWritesProperly(w, i, op, m, es);
    case MarkRunning(_, _) => MarkingWritesProperly(w, i, op, m, es);
    case AppendLog(_, _) => LoggingWritesProperly(w, i, op, m, es);
    case Finish(_, _, _) => FinishWritesProperly(w, i, op, m, es);
    case _ =>
  }

  lemma StartWritesProperly(w: World, i: nat, op: Op, m: Mem, es: seq<Effect>)
    requires op.Start? && Safe(w) && MayRun(w, i, op) && Does(w.limits, w.mem, op, m, es)
    ensures Written(w.mem, op, m).Some? ==> ProperWrite(w, op, Written(w.mem, op, m).value)
    ensures Spawned(op).Some? ==> Spawned(op).value !in w.used && Written(w.mem, op, m).Some?
  {
    if op.reply.Started? {
      NewIdsAreNew(w, op.stamp);
      assert op.reply.id !in w.used;
    }
  }

  lemma MarkingWritesProperly(w: World, i: nat, op: Op, m: Mem, es: seq<Effect>)
    requires op.MarkRunning? && Safe(w) && MayRun(w, i, op) && Does(w.limits, w.mem, op, m, es)
    ensures Written(w.mem, op, m).Some? ==> ProperWrite(w, op, Written(w.mem, op, m).value)
  {
    assert JobOfThread(w, w.threads[i]);
  }

  lemma LoggingWritesProperly(w: World, i: nat, op: Op, m: Mem, es: seq<Effect>)
    requires op.AppendLog? && Safe(w) && MayRun(w, i, op) && Does(w.limits, w.mem, op, m, es)
    ensures Written(w.mem, op, m).Some? ==> ProperWrite(w, op, Written(w.mem, op, m).value)
  {
    assert JobOfThread(w, w.threads[i]);
    if m != w.mem {
      assert Follows(w.mem.table[op.id], m.table[op.id]);
    }
  }

  lemma FinishWritesProperly(w: World, i: nat, op: Op, m: Mem, es: seq<Effect>)
    requires op.Finish? && Safe(w) && MayRun(w, i, op) && Does(w.limits, w.mem, op, m, es)
    ensures Written(w.mem, op, m).Some? ==> ProperWrite(w, op, Written(w.mem, op, m).value)
  {
    assert JobOfThread(w, w.threads[i]);
    if !w.mem.stopping {
      FinishIsProper(w, op, op.outcome, op.id, op.now);
    }
  }

  lemma FinishIsProper(w: World, op: Op, outcome: Outcome, id: Id, now: Time)
    requires op.Finish? && now != 0 && Sound(w.mem.table) && id != ""
    requires id in w.mem.table && !Terminal(w.mem.table[id].status) && !w.mem.stopping
    ensures ProperWrite(w, op, Finished(w.mem.table[id], outcome, id in w.mem.cancelled, now))
  {
  }

  // ---------- the durable invariant ----------

  /** Ids of this process carry their counter; ids of earlier processes are told apart. */
  ghost predicate IdsOk(w: World) {
    && w.born.Keys <= w.used
    && forall id :: id in w.born ==> id == JobId(w.born[id].0, w.born[id].1) && 0 < w.born[id].1 <= w.mem.next
  }

  lemma NewIdsAreNew(w: World, stamp: string)
    requires IdsOk(w)
    ensures JobId(stamp, w.mem.next + 1) !in w.born && JobId(stamp, w.mem.next + 1) != ""
  {
    var id := JobId(stamp, w.mem.next + 1);
    if id in w.born {
      CounterIsInId(stamp, w.mem.next + 1, w.born[id].0, w.born[id].1);
    }
  }

  ghost predicate MemOk(w: World) {
    && Sound(w.mem.table)
    && (forall id :: id in w.mem.table ==> id in w.used)
    && (forall id :: id in w.mem.cancelled ==> id in w.used)
    && (forall id :: id in w.mem.collected ==> id in w.used)
    && (forall id :: id in w.mem.table ==> DiskLags(w, id))
  }

  /** The disk may be behind memory but never ahead of it: an ended job on disk is the job
      in memory, and the two agree unless the job's last append failed. */
  ghost predicate DiskLags(w: World, id: Id)
    requires id in w.mem.table
  {
    Lags(Recorded(w.store, id), w.mem.table[id], id in w.stale)
  }

  ghost predicate Lags(found: Option<Record>, r: Record, stale: bool) {
    && (found.Some? && Terminal(found.value.status) ==> found.value == r)
    && (!stale ==> found == Some(r))
    && (found.Some? ==> Follows(found.value, r))
  }

  /** Threads with an unfinished job have it, unfinished, in the table. */
  ghost predicate JobOfThread(w: World, t: Thread) {
    && t.id in w.born
    && match t.phase
       case WantResource => Has(w, t.id, Queued)
       case WantSlot => Has(w, t.id, Queued)
       case Admitted => Has(w, t.id, Queued)
       case Marked => Has(w, t.id, Running)
       case InFn => Has(w, t.id, Running)
       case Returned(_) => Has(w, t.id, Queued) || Has(w, t.id, Running)
       case _ => t.id in w.mem.table ==> w.mem.stopping || Terminal(w.mem.table[t.id].status)
  }

  predicate Has(w: World, id: Id, s: Status) {
    id in w.mem.table && w.mem.table[id].status == s
  }

  ghost predicate ThreadsOk(w: World) {
    && (forall i :: 0 <= i < |w.threads| ==> JobOfThread(w, w.threads[i]))
    && (forall i, j :: 0 <= i < j < |w.threads| ==> w.threads[i].id != w.threads[j].id)
  }

  ghost predicate Safe(w: World) {
    StoreOk(w) && IdsOk(w) && (w.up ==> MemOk(w) && ThreadsOk(w)) && (!w.up ==> w == Down(w, w.store))
  }

  /** What a job reads back as after part of an operation's writes. */
  lemma ReadsBack(w: World, i: nat, op: Op, m: Mem, es: seq<Effect>, k: nat, id: Id)
    requires Safe(w) && MayRun(w, i, op) && Does(w.limits, w.mem, op, m, es) && k <= |es|
    ensures Sound(m.table)
    ensures var was, now, r := Recorded(w.store, id), Recorded(ApplyAll(w.store, es[..k]), id), Written(w.mem, op, m);
      && (now == was || now == Lookup(m.table, id) || (now == r && r.Some? && r.value.id == id))
      && (r.None? || r.value.id != id ==> now == was || now == Lookup(m.table, id))
      && (k == |es| && r.Some? && r.value.id == id && es != [] && id in m.table ==> now == r)
      && (k == 3 ==> now == Lookup(m.table, id))
  {
    DoesWrites(w.limits, w.mem, op, m, es);
    WritesAreProper(w, i, op, m, es);
    var r := Written(w.mem, op, m);
    if r.Some? {
      SoundUpdate(w.mem.table, r.value);
      PersistCrashPoints(w.store, m.table, r.value, es, k, id);
    } else {
      assert es[..k] == [];
    }
  }

  // ---------- every step keeps the invariant ----------

  /** The table after a write, entry by entry: other live jobs are all still there. */
  lemma WroteTable(l: Limits, m: Mem, r: Record, trims: bool, m': Mem, es: seq<Effect>, id: Id)
    requires Wrote(l, m, r, trims, m', es)
    ensures id in m'.table ==> if id == r.id then m'.table[id] == r else id in m.table && m'.table[id] == m.table[id]
    ensures id != r.id && id in m.table && !Terminal(m.table[id].status) ==> id in m'.table
    ensures !Terminal(r.status) || !trims ==> r.id in m'.table
  {
  }

  lemma LockedKeepsStore(w: World, i: nat, op: Op, m: Mem, es: seq<Effect>, k: nat)
    requires Safe(w) && MayRun(w, i, op) && Does(w.limits, w.mem, op, m, es) && k <= |es|
    ensures StoreOk(AfterLocked(w, i, op, m, es).(store := ApplyAll(w.store, es[..k])))
    ensures Sound(m.table) && forall id :: id in m.table ==> id in AfterLocked(w, i, op, m, es).used
  {
    var w', r := AfterLocked(w, i, op, m, es), Written(w.mem, op, m);
    DoesWrites(w.limits, w.mem, op, m, es);
    WritesAreProper(w, i, op, m, es);
    ReadsBack(w, i, op, m, es, k, "");
    forall id | id in m.table
      ensures id in w'.used
    {
      if r.Some? {
        WroteTable(w.limits, w.mem, r.value, Trims(op), m, es, id);
      }
    }
    forall id | Recorded(ApplyAll(w.store, es[..k]), id).Some?
      ensures id in w'.used
    {
      ReadsBack(w, i, op, m, es, k, id);
    }
  }

  lemma LockedKeepsMem(w: World, i: nat, op: Op, m: Mem, es: seq<Effect>, id: Id)
    requires Safe(w) && MayRun(w, i, op) && Does(w.limits, w.mem, op, m, es) && id in m.table
    ensures DiskLags(AfterLocked(w, i, op, m, es), id)
  {
    ReadsBack(w, i, op, m, es, |es|, id);
    assert es[..|es|] == es;
    var r := Written(w.mem, op, m);
    if r.Some? && r.value.id == id {
      WrittenJobLags(w, i, op, m, es, id);
    } else {
      OtherJobIsKept(w.limits, w.mem, op, m, es, id);
      assert DiskLags(w, id);
      OtherJobLags(w, i, op, m, es, id);
    }
  }

  lemma WrittenJobLags(w: World, i: nat, op: Op, m: Mem, es: seq<Effect>, id: Id)
    requires Safe(w) && MayRun(w, i, op) && Does(w.limits, w.mem, op, m, es) && id in m.table
    requires Written(w.mem, op, m).Some? && Written(w.mem, op, m).value.id == id
    requires var was, now := Recorded(w.store, id), Recorded(ApplyAll(w.store, es), id);
      (now == was || now == Some(Written(w.mem, op, m).value) || now == Lookup(m.table, id))
      && (es != [] ==> now == Some(Written(w.mem, op, m).value))
    ensures DiskLags(AfterLocked(w, i, op, m, es), id)
  {
    DoesWrites(w.limits, w.mem, op, m, es);
    WritesAreProper(w, i, op, m, es);
    WroteTable(w.limits, w.mem, Written(w.mem, op, m).value, Trims(op), m, es, id);
    if id in w.mem.table {
      assert DiskLags(w, id);
    }
  }

  lemma OtherJobLags(w: World, i: nat, op: Op, m: Mem, es: seq<Effect>, id: Id)
    requires MayRun(w, i, op) && id in m.table && id in w.mem.table && m.table[id] == w.mem.table[id] && DiskLags(w, id)
    requires |es| <= 3 && (Written(w.mem, op, m).None? || Written(w.mem, op, m).value.id != id)
    requires var was, now := Recorded(w.store, id), Recorded(ApplyAll(w.store, es), id);
      (now == was || now == Lookup(m.table, id)) && (|es| == 3 ==> now == Lookup(m.table, id))
    ensures DiskLags(AfterLocked(w, i, op, m, es), id)
  {
    StillLags(Recorded(w.store, id), Recorded(ApplyAll(w.store, es), id), m.table[id],
              id in w.stale, id in AfterLocked(w, i, op, m, es).stale);
  }

  lemma OtherJobIsKept(l: Limits, m: Mem, op: Op, m': Mem, es: seq<Effect>, id: Id)
    requires Does(l, m, op, m', es) && id in m'.table
    requires Written(m, op, m').None? || Written(m, op, m').value.id != id
    ensures id in m.table && m'.table[id] == m.table[id] && |es| <= 3
  {
    DoesWrites(l, m, op, m', es);
    if Written(m, op, m').Some? {
      WroteTable(l, m, Written(m, op, m').value, Trims(op), m', es, id);
    }
  }

  lemma StillLags(was: Option<Record>, now: Option<Record>, r: Record, stale: bool, stale': bool)
    requires Lags(was, r, stale) && (now == was || now == Some(r)) && (stale && !stale' ==> now == Some(r))
    ensures Lags(now, r, stale')
  {
  }

  /** The thread that performs an operation moves with its job. */
  lemma ActorFollowsJob(w: World, i: nat, op: Op, m: Mem, es: seq<Effect>)
    requires Safe(w) && MayRun(w, i, op) && Does(w.limits, w.mem, op, m, es) && (op.MarkRunning? || op.Finish?)
    ensures JobOfThread(AfterLocked(w, i, op, m, es), ThreadsAfter(w, i, op)[i])
  {
    assert JobOfThread(w, w.threads[i]);
    DoesWrites(w.limits, w.mem, op, m, es);
    var r := Written(w.mem, op, m);
    if r.Some? {
      WroteTable(w.limits, w.mem, r.value, Trims(op), m, es, w.threads[i].id);
    }
  }

  /** An operation leaves the status of every other job alone, and trims no live job. */
  lemma OtherJobsStay(w: World, i: nat, op: Op, m: Mem, es: seq<Effect>, id: Id)
    requires Safe(w) && MayRun(w, i, op) && Does(w.limits, w.mem, op, m, es) && id in w.used
    requires op.MarkRunning? || op.Finish? ==> id != op.id
    ensures id in w.mem.table && !Terminal(w.mem.table[id].status) ==> id in m.table
    ensures id in m.table ==> id in w.mem.table && m.table[id].status == w.mem.table[id].status
    ensures w.mem.stopping ==> m.stopping
  {
    DoesWrites(w.limits, w.mem, op, m, es);
    WritesAreProper(w, i, op, m, es);
    var r := Written(w.mem, op, m);
    if r.Some? {
      WroteTable(w.limits, w.mem, r.value, Trims(op), m, es, id);
    }
  }

  lemma OthersKeepTheirJob(w: World, i: nat, op: Op, m: Mem, es: seq<Effect>, t: Thread)
    requires Safe(w) && MayRun(w, i, op) && Does(w.limits, w.mem, op, m, es)
    requires JobOfThread(w, t)
    requires op.MarkRunning? || op.Finish? ==> t.id != op.id
    ensures JobOfThread(AfterLocked(w, i, op, m, es), t)
  {
    OtherJobsStay(w, i, op, m, es, t.id);
    SameStatusSameThread(w, AfterLocked(w, i, op, m, es), t);
  }

  lemma SameStatusSameThread(w: World, w': World, t: Thread)
    requires JobOfThread(w, t) && t.id in w'.born
    requires t.id in w.mem.table && !Terminal(w.mem.table[t.id].status) ==> t.id in w'.mem.table
    requires t.id in w'.mem.table ==> t.id in w.mem.table && w'.mem.table[t.id].status == w.mem.table[t.id].status
    requires w.mem.stopping ==> w'.mem.stopping
    ensures JobOfThread(w', t)
  {
  }

  lemma NewThreadHasItsJob(w: World, i: nat, op: Op, m: Mem, es: seq<Effect>)
    requires Safe(w) && MayRun(w, i, op) && Does(w.limits, w.mem, op, m, es) && Spawned(op).Some?
    ensures JobOfThread(AfterLocked(w, i, op, m, es), ThreadsAfter(w, i, op)[|w.threads|])
  {
    DoesWrites(w.limits, w.mem, op, m, es);
    WroteTable(w.limits, w.mem, Written(w.mem, op, m).value, true, m, es, Spawned(op).value);
  }

  lemma LockedKeepsThreads(w: World, i: nat, op: Op, m: Mem, es: seq<Effect>)
    requires Safe(w) && MayRun(w, i, op) && Does(w.limits, w.mem, op, m, es)
    ensures ThreadsOk(AfterLocked(w, i, op, m, es))
  {
    var w' := AfterLocked(w, i, op, m, es);
    WritesAreProper(w, i, op, m, es);
    forall j | 0 <= j < |w'.threads|
      ensures JobOfThread(w', w'.threads[j])
      ensures j < |w.threads| ==> w'.threads[j].id == w.threads[j].id
      ensures j >= |w.threads| ==> w'.threads[j].id !in w.born && j == |w.threads|
    {
      if j >= |w.threads| {
        NewThreadHasItsJob(w, i, op, m, es);
      } else if j == i && (op.MarkRunning? || op.Finish?) {
        ActorFollowsJob(w, i, op, m, es);
      } else {
        assert JobOfThread(w, w.threads[j]);
        OthersKeepTheirJob(w, i, op, m, es, w.threads[j]);
      }
    }
    forall j, k | 0 <= j < k < |w'.threads|
      ensures w'.threads[j].id != w'.threads[k].id
    {
      assert JobOfThread(w, w.threads[j]);
    }
  }

  lemma CounterGrows(l: Limits, m: Mem, op: Op, m': Mem, es: seq<Effect>)
    requires Does(l, m, op, m', es)
    ensures m'.next >= m.next
    ensures Spawned(op).Some? ==> m'.next == m.next + 1 && Spawned(op).value == JobId(op.stamp, m'.next)
  {
  }

  lemma LockedKeepsIds(w: World, i: nat, op: Op, m: Mem, es: seq<Effect>)
    requires IdsOk(w) && MayRun(w, i, op)
    requires m.next >= w.mem.next
    requires Spawned(op).Some? ==> m.next == w.mem.next + 1 && Spawned(op).value == JobId(op.stamp, m.next)
    ensures IdsOk(AfterLocked(w, i, op, m, es))
  {
  }

  lemma LockedKeepsSafe(w: World, i: nat, op: Op, m: Mem, es: seq<Effect>)
    requires Safe(w) && MayRun(w, i, op) && Does(w.limits, w.mem, op, m, es)
    ensures Safe(AfterLocked(w, i, op, m, es))
  {
    assert es[..|es|] == es;
    LockedKeepsStore(w, i, op, m, es, |es|);
    CounterGrows(w.limits, w.mem, op, m, es);
    LockedKeepsIds(w, i, op, m, es);
    LockedKeepsThreads(w, i, op, m, es);
    forall id | id in m.table
      ensures DiskLags(AfterLocked(w, i, op, m, es), id)
    {
      LockedKeepsMem(w, i, op, m, es, id);
    }
  }

  lemma RecoveryReads(w: World, t: Table, now: Time, m: Mem, es: seq<Effect>, lost: set<Id>, k: nat, id: Id)
    requires StoreOk(w) && Recovers(w.limits, w.store, t, now, m, es, lost) && k <= |es|
    ensures var was, back := Recorded(w.store, id), Recorded(ApplyAll(w.store, es[..k]), id);
      && Lookup(t, id) == was
      && (back == was || (was.Some? && back == Some(Interrupt(was.value, now))))
    ensures id !in lost ==> Recorded(ApplyAll(w.store, es), id) == Lookup(InterruptAll(t, now), id)
  {
    assert RecoveryPoint(w.store, es, k, id, now);
  }

  lemma BootKeepsStore(w: World, t: Table, now: Time, m: Mem, es: seq<Effect>, lost: set<Id>, k: nat)
    requires StoreOk(w) && Recovers(w.limits, w.store, t, now, m, es, lost) && k <= |es|
    ensures StoreOk(w.(store := ApplyAll(w.store, es[..k])))
  {
    forall id {:trigger Recorded(ApplyAll(w.store, es[..k]), id)}
      ensures Recorded(ApplyAll(w.store, es[..k]), id).Some? ==> Recorded(w.store, id).Some?
    {
      RecoveryReads(w, t, now, m, es, lost, k, id);
    }
  }

  lemma BootLoadsMem(w: World, t: Table, now: Time, m: Mem, es: seq<Effect>, lost: set<Id>)
    requires Safe(w) && !w.up && now != 0 && Recovers(w.limits, w.store, t, now, m, es, lost)
    ensures MemOk(w.(up := true, mem := m, stale := lost, store := ApplyAll(w.store, es)))
  {
    var w' := w.(up := true, mem := m, stale := lost, store := ApplyAll(w.store, es));
    assert es[..|es|] == es;
    forall id | id in m.table
      ensures m.table[id].id == id && Storable(m.table[id]) && id in w.used && DiskLags(w', id)
    {
      RecoveryReads(w, t, now, m, es, lost, |es|, id);
      RecordedIsStorable(w.store, id);
    }
  }

  lemma MoveKeepsSafe(w: World, i: nat, t: Thread, w': World)
    requires Safe(w) && w.up && i < |w.threads| && t.id == w.threads[i].id
    requires w' == Move(w, i, t).(held := w'.held, slots := w'.slots, invoked := w'.invoked)
    requires JobOfThread(w, t)
    ensures Safe(w')
  {
    assert forall j :: 0 <= j < |w'.threads| && j != i ==> w'.threads[j] == w.threads[j];
    forall j | 0 <= j < |w'.threads|
      ensures JobOfThread(w', w'.threads[j])
    {
      assert JobOfThread(w, if j == i then t else w.threads[j]);
    }
    assert forall id :: id in w.mem.table ==> DiskLags(w', id) == DiskLags(w, id);
  }

  lemma BootKeepsSafe(w: World, t: Table, now: Time, m: Mem, es: seq<Effect>, lost: set<Id>, w': World)
    requires Safe(w) && Next(w, Boot(t, now, m, es, lost), w')
    ensures Safe(w')
  {
    assert es[..|es|] == es;
    BootKeepsStore(w, t, now, m, es, lost, |es|);
    BootLoadsMem(w, t, now, m, es, lost);
    assert w.threads == [] && w.born == map[];
  }

  lemma DownIsSafe(w: World, store: Store)
    requires StoreOk(w.(store := store))
    ensures Safe(Down(w, store))
  {
  }

  lemma StepKeepsSafe(w: World, a: Action, w': World)
    requires Safe(w) && Next(w, a, w')
    ensures Safe(w')
  {
    if a.Locked? {
      LockedKeepsSafe(w, a.i, a.op, a.m, a.es);
    } else if LockFree(a) {
      ThreadStepKeepsSafe(w, a, w');
    } else if a.Boot? {
      BootKeepsSafe(w, a.t, a.now, a.m, a.es, a.lost, w');
    } else {
      CrashKeepsSafe(w, a, w');
    }
  }

  lemma CrashKeepsSafe(w: World, a: Action, w': World)
    requires Safe(w) && Next(w, a, w') && (a.Crash? || a.CrashIn? || a.CrashInBoot?)
    ensures Safe(w')
  {
    match a
    case CrashIn(i, op, m, es, k) =>
      LockedKeepsStore(w, i, op, m, es, k);
      DownIsSafe(AfterLocked(w, i, op, m, es), ApplyAll(w.store, es[..k]));
    case Crash => DownIsSafe(w, w.store);
    case CrashInBoot(t, now, m, es, lost, k) => BootKeepsStore(w, t, now, m, es, lost, k);
  }

  /** The steps a goroutine takes without the manager's lock. */
  predicate LockFree(a: Action) {
    a.TakeResource? || a.GiveUpResource? || a.TakeSlot? || a.GiveUpSlot? || a.Invoke? || a.Return?
    || a.FreeSlot? || a.FreeResource? || a.Exit?
  }

  lemma LockFreeFrame(w: World, a: Action, w': World)
    requires Next(w, a, w') && LockFree(a)
    ensures w.up && w' == w.(threads := w'.threads, held := w'.held, slots := w'.slots, invoked := w'.invoked)
    ensures a.i < |w.threads| == |w'.threads| && w'.threads == w.threads[a.i := w'.threads[a.i]]
    ensures w'.threads[a.i].id == w.threads[a.i].id && w'.threads[a.i].resource == w.threads[a.i].resource
    ensures w'.invoked == if a.Invoke? then w.invoked + multiset{w.threads[a.i].id} else w.invoked
  {
  }

  lemma ThreadStepKeepsSafe(w: World, a: Action, w': World)
    requires Safe(w) && Next(w, a, w') && LockFree(a)
    ensures Safe(w')
  {
    var i := a.i;
    assert JobOfThread(w, w.threads[i]);
    MoveKeepsSafe(w, i, w'.threads[i], w');
  }

  lemma {:induction false} RunIsSafe(ws: seq<World>, acts: seq<Action>, n: nat)
    requires Run(ws, acts) && n < |ws|
    ensures Safe(ws[n])
  {
    if n == 0 {
      InitialIsSafe(ws[0]);
    } else {
      RunIsSafe(ws, acts, n - 1);
      SafeOneStep(ws, acts, n - 1);
    }
  }

  lemma InitialIsSafe(w: World)
    requires Initial(w)
    ensures Safe(w)
  {
  }

  lemma SafeOneStep(ws: seq<World>, acts: seq<Action>, n: nat)
    requires Run(ws, acts) && n < |acts| && Safe(ws[n])
    ensures Safe(ws[n + 1])
  {
    assert StepOf(ws, acts, n);
    StepKeepsSafe(ws[n], acts[n], ws[n + 1]);
  }

  lemma RunStep(ws: seq<World>, acts: seq<Action>, n: nat)
    requires Run(ws, acts) && n < |acts|
    ensures Safe(ws[n]) && Safe(ws[n + 1]) && Next(ws[n], acts[n], ws[n + 1])
  {
    RunIsSafe(ws, acts, n);
    RunIsSafe(ws, acts, n + 1);
    assert StepOf(ws, acts, n);
  }

  // ---------- agreement ----------

  /** At every lock release the store holds exactly the record of every retained job, unless
      that job's last append failed. Failed compactions never matter. */
  lemma StoreAgreesWithMemory(ws: seq<World>, acts: seq<Action>, n: nat, id: Id)
    requires Run(ws, acts) && n < |ws| && ws[n].up && id !in ws[n].stale
    ensures id in ws[n].mem.table ==> Recorded(ws[n].store, id) == Some(ws[n].mem.table[id])
  {
    RunIsSafe(ws, acts, n);
    if id in ws[n].mem.table {
      assert DiskLags(ws[n], id);
    }
  }

  /** A failed append is made good by the job's next one and by any completed compaction. */
  lemma AgreementReturns(w: World, i: nat, op: Op, m: Mem, es: seq<Effect>, id: Id)
    requires Safe(w) && MayRun(w, i, op) && Does(w.limits, w.mem, op, m, es) && es != [] && id in m.table
    requires |es| == 3 || Written(w.mem, op, m).value.id == id
    ensures Recorded(ApplyAll(w.store, es), id) == Some(m.table[id])
  {
    LockedKeepsMem(w, i, op, m, es, id);
    DoesWrites(w.limits, w.mem, op, m, es);
  }

  /** A crash inside an operation: every job that stays in the table reads back as it was,
      and the one being written as it was or as it was to become. */
  lemma CrashPointAgrees(ws: seq<World>, acts: seq<Action>, n: nat, i: nat, op: Op, m: Mem, es: seq<Effect>,
                         k: nat, id: Id)
    requires Run(ws, acts) && n < |ws| && id !in ws[n].stale
    requires MayRun(ws[n], i, op) && Does(ws[n].limits, ws[n].mem, op, m, es) && k <= |es|
    requires id in m.table
    ensures var w := ws[n];
      Recorded(ApplyAll(w.store, es[..k]), id) == Some(m.table[id])
      || (Written(w.mem, op, m).Some? && Written(w.mem, op, m).value.id == id
          && Recorded(ApplyAll(w.store, es[..k]), id) == Lookup(w.mem.table, id))
  {
    var w := ws[n];
    RunIsSafe(ws, acts, n);
    ReadsBack(w, i, op, m, es, k, id);
    DoesWrites(w.limits, w.mem, op, m, es);
    WritesAreProper(w, i, op, m, es);
    var r := Written(w.mem, op, m);
    if r.Some? {
      WroteTable(w.limits, w.mem, r.value, Trims(op), m, es, id);
    }
    if id in w.mem.table {
      assert DiskLags(w, id);
    } else {
      assert Recorded(w.store, id).None?;
    }
  }

  // ---------- verdicts are final ----------

  /** Wherever the job can be found, it is this ended record. */
  ghost predicate Settled(w: World, r: Record) {
    && Terminal(r.status) && r.id in w.used
    && (Recorded(w.store, r.id).Some? ==> Recorded(w.store, r.id).value == r)
    && (w.up && r.id in w.mem.table ==> w.mem.table[r.id] == r)
  }

  lemma EndedJobIsNotWritten(w: World, i: nat, op: Op, m: Mem, es: seq<Effect>, id: Id)
    requires Safe(w) && MayRun(w, i, op) && Does(w.limits, w.mem, op, m, es)
    requires id in w.used && (id in w.mem.table ==> Terminal(w.mem.table[id].status))
    ensures Written(w.mem, op, m).Some? ==> Written(w.mem, op, m).value.id != id
    ensures id in m.table ==> id in w.mem.table && m.table[id] == w.mem.table[id]
  {
    DoesWrites(w.limits, w.mem, op, m, es);
    WritesAreProper(w, i, op, m, es);
    var written := Written(w.mem, op, m);
    if written.Some? {
      WroteTable(w.limits, w.mem, written.value, Trims(op), m, es, id);
    }
  }

  lemma LockedKeepsSettled(w: World, i: nat, op: Op, m: Mem, es: seq<Effect>, k: nat, r: Record)
    requires Safe(w) && MayRun(w, i, op) && Does(w.limits, w.mem, op, m, es) && k <= |es| && Settled(w, r)
    ensures Settled(AfterLocked(w, i, op, m, es).(store := ApplyAll(w.store, es[..k])), r)
  {
    EndedJobIsNotWritten(w, i, op, m, es, r.id);
    ReadsBack(w, i, op, m, es, k, r.id);
  }

  lemma BootKeepsSettled(w: World, t: Table, now: Time, m: Mem, es: seq<Effect>, lost: set<Id>, k: nat, r: Record)
    requires StoreOk(w) && Recovers(w.limits, w.store, t, now, m, es, lost) && k <= |es| && Settled(w, r)
    ensures Settled(w.(up := true, mem := m, stale := lost, store := ApplyAll(w.store, es[..k])), r)
  {
    RecoveryReads(w, t, now, m, es, lost, k, r.id);
  }

  lemma StepKeepsSettled(w: World, a: Action, w': World, r: Record)
    requires Safe(w) && Next(w, a, w') && Settled(w, r)
    ensures Settled(w', r)
  {
    if a.Locked? || a.CrashIn? {
      LockedStepKeepsSettled(w, a, w', r);
    } else if a.Boot? || a.CrashInBoot? {
      BootStepKeepsSettled(w, a, w', r);
    } else if LockFree(a) {
      LockFreeKeepsSettled(w, a, w', r);
    }
  }

  lemma LockedStepKeepsSettled(w: World, a: Action, w': World, r: Record)
    requires Safe(w) && Next(w, a, w') && Settled(w, r) && (a.Locked? || a.CrashIn?)
    ensures Settled(w', r)
  {
    assert a.es[..|a.es|] == a.es;
    LockedKeepsSettled(w, a.i, a.op, a.m, a.es, if a.CrashIn? then a.k else |a.es|, r);
  }

  lemma BootStepKeepsSettled(w: World, a: Action, w': World, r: Record)
    requires Safe(w) && Next(w, a, w') && Settled(w, r) && (a.Boot? || a.CrashInBoot?)
    ensures Settled(w', r)
  {
    assert a.es[..|a.es|] == a.es;
    BootKeepsSettled(w, a.t, a.now, a.m, a.es, a.lost, if a.CrashInBoot? then a.k else |a.es|, r);
  }

  lemma LockFreeKeepsSettled(w: World, a: Action, w': World, r: Record)
    requires Next(w, a, w') && LockFree(a) && Settled(w, r)
    ensures Settled(w', r)
  {
    LockFreeFrame(w, a, w');
  }

  lemma {:induction false} SettledForever(ws: seq<World>, acts: seq<Action>, i: nat, j: nat, r: Record)
    requires Run(ws, acts) && i <= j < |ws| && Settled(ws[i], r)
    ensures Settled(ws[j], r)
  {
    if i < j {
      SettledForever(ws, acts, i, j - 1, r);
      SettledOneStep(ws, acts, j - 1, r);
    }
  }

  lemma SettledOneStep(ws: seq<World>, acts: seq<Action>, n: nat, r: Record)
    requires Run(ws, acts) && n < |acts| && Settled(ws[n], r)
    ensures Settled(ws[n + 1], r)
  {
    RunStep(ws, acts, n);
    StepKeepsSettled(ws[n], acts[n], ws[n + 1], r);
  }

  /** A job that has ended on disk keeps that very record through any number of crashes,
      recoveries and compactions, until it is dropped; memory never shows another one. */
  lemma DurableVerdictIsFinal(ws: seq<World>, acts: seq<Action>, i: nat, j: nat, id: Id)
    requires Run(ws, acts) && i <= j < |ws|
    requires Recorded(ws[i].store, id).Some? && Terminal(Recorded(ws[i].store, id).value.status)
    ensures Recorded(ws[j].store, id).Some? ==> Recorded(ws[j].store, id) == Recorded(ws[i].store, id)
    ensures ws[j].up && id in ws[j].mem.table ==> Some(ws[j].mem.table[id]) == Recorded(ws[i].store, id)
  {
    var w := ws[i];
    RunIsSafe(ws, acts, i);
    RecordedIsStorable(w.store, id);
    if w.up && id in w.mem.table {
      assert DiskLags(w, id);
    }
    SettledForever(ws, acts, i, j, Recorded(w.store, id).value);
  }
}
