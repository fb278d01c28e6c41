/** Scheduling: bounded concurrency, exclusive resources, no deadlock, and a bound on the
    steps until every goroutine has ended. */
module JobScheduling {
  import opened JobRecords
  import opened JobSpec
  import opened JobWorld
  import opened JobHistory

  // ---------- locks and slots ----------

  function SlotsTaken(ts: seq<Thread>): nat {
    if ts == [] then 0 else SlotsTaken(ts[..|ts| - 1]) + (if ts[|ts| - 1].slot then 1 else 0)
  }

  function Running(ts: seq<Thread>): nat {
    if ts == [] then 0 else Running(ts[..|ts| - 1]) + (if ts[|ts| - 1].phase.InFn? then 1 else 0)
  }

  lemma {:induction false} SlotsAfterUpdate(ts: seq<Thread>, i: nat, t: Thread)
    requires i < |ts|
    ensures SlotsTaken(ts[i := t]) == SlotsTaken(ts) - (if ts[i].slot then 1 else 0) + (if t.slot then 1 else 0)
  {
    var n := |ts| - 1;
    if i < n {
      SlotsAfterUpdate(ts[..n], i, t);
      assert ts[i := t][..n] == ts[..n][i := t];
    } else {
      assert ts[i := t][..n] == ts[..n];
    }
  }

  lemma {:induction false} RunningHoldSlots(ts: seq<Thread>)
    requires forall i :: 0 <= i < |ts| && ts[i].phase.InFn? ==> ts[i].slot
    ensures Running(ts) <= SlotsTaken(ts)
  {
    if ts != [] {
      RunningHoldSlots(ts[..|ts| - 1]);
    }
  }

  /** What a goroutine holds in each phase. */
  predicate HoldsWhatItShould(t: Thread) {
    var locked := t.lock <==> t.resource != "";
    match t.phase
    case WantResource => !t.lock && !t.slot
    case WantSlot => locked && !t.slot
    case Returned(_) => (t.lock ==> t.resource != "") && (t.slot ==> locked)
    case Closing => (t.lock ==> t.resource != "") && (t.slot ==> locked)
    case Gone => !t.lock && !t.slot
    case _ => locked && t.slot
  }

  ghost predicate LockedBySomeone(ts: seq<Thread>, resource: string) {
    exists i :: 0 <= i < |ts| && ts[i].lock && ts[i].resource == resource
  }

  ghost predicate LocksOk(w: World) {
    && (forall i :: 0 <= i < |w.threads| ==> HoldsWhatItShould(w.threads[i]))
    && w.slots == SlotsTaken(w.threads) <= w.limits.maxConcurrent
    && w.limits.maxConcurrent > 0
    && (forall i :: 0 <= i < |w.threads| && w.threads[i].lock ==> w.threads[i].resource in w.held)
    && (forall i, j :: 0 <= i < j < |w.threads| && w.threads[i].lock && w.threads[j].lock
          ==> w.threads[i].resource != w.threads[j].resource)
    && (forall r :: r in w.held ==> LockedBySomeone(w.threads, r))
  }

  /** The lock channel a goroutine fills or drains as it goes from `t` to `t'`. */
  ghost predicate LockMoves(w: World, t: Thread, t': Thread, w': World) {
    || (t'.lock == t.lock && w'.held == w.held)
    || (!t.lock && t'.lock && t.resource !in w.held && w'.held == w.held + {t.resource})
    || (t.lock && !t'.lock && w'.held == w.held - {t.resource})
  }

  lemma MoveKeepsLocks(w: World, i: nat, t': Thread, w': World)
    requires LocksOk(w) && i < |w.threads| && t'.resource == w.threads[i].resource && HoldsWhatItShould(t')
    requires w'.threads == w.threads[i := t'] && w'.limits == w.limits
    requires w'.slots == w.slots - (if w.threads[i].slot then 1 else 0) + (if t'.slot then 1 else 0)
    requires w'.slots <= w.limits.maxConcurrent
    requires LockMoves(w, w.threads[i], t', w')
    ensures LocksOk(w')
  {
    SlotsAfterUpdate(w.threads, i, t');
    forall r | r in w'.held
      ensures LockedBySomeone(w'.threads, r)
    {
      LockIsStillHeld(w, i, t', w', r);
    }
    forall j | 0 <= j < |w'.threads| && w'.threads[j].lock
      ensures w'.threads[j].resource in w'.held
    {
      assert j == i || w.threads[j].lock;
      assert j < i || j == i || i < j;
    }
  }

  lemma LockIsStillHeld(w: World, i: nat, t': Thread, w': World, r: string)
    requires LocksOk(w) && i < |w.threads| && t'.resource == w.threads[i].resource
    requires w'.threads == w.threads[i := t']
    requires LockMoves(w, w.threads[i], t', w') && r in w'.held
    ensures LockedBySomeone(w'.threads, r)
  {
    if t'.lock && t'.resource == r {
      assert w'.threads[i].lock;
    } else {
      assert LockedBySomeone(w.threads, r);
      var j :| 0 <= j < |w.threads| && w.threads[j].lock && w.threads[j].resource == r;
      assert w'.threads[j].lock;
    }
  }

  lemma LockFreeKeepsLocks(w: World, a: Action, w': World)
    requires LocksOk(w) && Next(w, a, w') && LockFree(a)
    ensures LocksOk(w')
  {
    LockFreeFrame(w, a, w');
    assert HoldsWhatItShould(w.threads[a.i]);
    MoveKeepsLocks(w, a.i, w'.threads[a.i], w');
  }

  lemma LockedKeepsLocks(w: World, i: nat, op: Op)
    requires LocksOk(w) && MayRun(w, i, op)
    ensures LocksOk(w.(threads := ThreadsAfter(w, i, op)))
  {
    var ts := ThreadsAfter(w, i, op);
    if op.MarkRunning? || op.Finish? {
      RelabelKeepsLocks(w, i, ts[i]);
    } else if |ts| > |w.threads| {
      SpawnKeepsLocks(w, ts[|w.threads|]);
    }
  }

  lemma RelabelKeepsLocks(w: World, i: nat, t: Thread)
    requires LocksOk(w) && i < |w.threads| && HoldsWhatItShould(t)
    requires t.lock == w.threads[i].lock && t.slot == w.threads[i].slot && t.resource == w.threads[i].resource
    ensures LocksOk(w.(threads := w.threads[i := t]))
  {
    SlotsAfterUpdate(w.threads, i, t);
    forall r | r in w.held ensures LockedBySomeone(w.threads[i := t], r) {
      LocksStayHeld(w.threads, w.threads[i := t], r);
    }
  }

  lemma SpawnKeepsLocks(w: World, t: Thread)
    requires LocksOk(w) && t.phase.WantResource? && !t.lock && !t.slot
    ensures LocksOk(w.(threads := w.threads + [t]))
  {
    var ts := w.threads + [t];
    assert ts[..|ts| - 1] == w.threads;
    forall r | r in w.held ensures LockedBySomeone(ts, r) {
      LocksStayHeld(w.threads, ts, r);
    }
  }

  lemma LocksStayHeld(was: seq<Thread>, ts: seq<Thread>, r: string)
    requires LockedBySomeone(was, r) && |was| <= |ts|
    requires forall j :: 0 <= j < |was| ==> ts[j].lock == was[j].lock && ts[j].resource == was[j].resource
    ensures LockedBySomeone(ts, r)
  {
    var j :| 0 <= j < |was| && was[j].lock && was[j].resource == r;
    assert ts[j].lock;
  }

  lemma StepKeepsLocks(w: World, a: Action, w': World)
    requires Safe(w) && LocksOk(w) && Next(w, a, w')
    ensures LocksOk(w')
  {
    if a.Locked? {
      LockedKeepsLocks(w, a.i, a.op);
    } else if LockFree(a) {
      LockFreeKeepsLocks(w, a, w');
    } else {
      DownKeepsLocks(w, a, w');
    }
  }

  lemma DownKeepsLocks(w: World, a: Action, w': World)
    requires Safe(w) && LocksOk(w) && Next(w, a, w') && !a.Locked? && !LockFree(a)
    ensures LocksOk(w')
  {
  }

  lemma LocksOneStep(ws: seq<World>, acts: seq<Action>, n: nat)
    requires Run(ws, acts) && n < |acts| && LocksOk(ws[n])
    ensures LocksOk(ws[n + 1])
  {
    RunStep(ws, acts, n);
    StepKeepsLocks(ws[n], acts[n], ws[n + 1]);
  }

  lemma {:induction false} RunKeepsLocks(ws: seq<World>, acts: seq<Action>, n: nat)
    requires Run(ws, acts) && n < |ws|
    ensures LocksOk(ws[n])
  {
    if n > 0 {
      RunKeepsLocks(ws, acts, n - 1);
      LocksOneStep(ws, acts, n - 1);
    }
  }

  /** In every interleaving at most `maxConcurrent` functions run at a time, and no two of
      them on the same resource. */
  lemma BoundedAndExclusive(ws: seq<World>, acts: seq<Action>, n: nat)
    requires Run(ws, acts) && n < |ws|
    ensures Running(ws[n].threads) <= ws[n].limits.maxConcurrent
    ensures forall i, j :: 0 <= i < j < |ws[n].threads| && ws[n].threads[i].phase.InFn? && ws[n].threads[j].phase.InFn? ==>
              ws[n].threads[i].resource == "" || ws[n].threads[i].resource != ws[n].threads[j].resource
  {
    RunKeepsLocks(ws, acts, n);
    RunningHoldSlots(ws[n].threads);
  }

  // ---------- no deadlock ----------

  /** The steps that a goroutine takes on its own behalf. */
  predicate GoroutineStep(a: Action) {
    LockFree(a) || (a.Locked? && (a.op.MarkRunning? || a.op.Finish?))
  }

  lemma {:induction false} OldestExists(t: Table, among: set<Id>, some: Id) returns (oldest: Id)
    requires among <= t.Keys && some in among && Terminal(t[some].status)
    ensures oldest in among && Terminal(t[oldest].status)
    ensures forall id :: id in among && Terminal(t[id].status) ==> t[oldest].createdAt <= t[id].createdAt
    decreases |among|
  {
    if other :| other in among && other != some && Terminal(t[other].status) {
      var better := if t[other].createdAt < t[some].createdAt then other else some;
      var worse := if better == other then some else other;
      oldest := OldestExists(t, among - {worse}, better);
    } else {
      oldest := some;
    }
  }

  lemma {:induction false} TrimExists(before: Table, t: Table, max: nat) returns (after: Table)
    requires PartlyTrimmed(before, t, max)
    ensures Trimmed(before, after, max)
    decreases |t|
  {
    if id :| id in t && Terminal(t[id].status) && |t| > max {
      var oldest := OldestExists(t, t.Keys, id);
      TrimStep(before, t, oldest, max);
      after := TrimExists(before, t - {oldest}, max);
    } else {
      after := t;
    }
  }

  /** A waiting goroutine goes on when what it waits for is free; a cancelled one need not wait for a slot, nor
      for a resource, and has its outcome at once. */
  lemma WaiterMoves(w: World, i: nat) returns (a: Action, w': World)
    requires LocksOk(w) && (At(w, i, WantResource) || At(w, i, WantSlot))
    requires var t := w.threads[i];
      || t.id in w.mem.cancelled
      || (if t.phase.WantResource? then t.resource !in w.held else w.slots < w.limits.maxConcurrent)
    ensures GoroutineStep(a) && a.i == i && Next(w, a, w') && i < |w'.threads|
    ensures var t, t' := w.threads[i], w'.threads[i];
      if t.id in w.mem.cancelled && !(t.phase.WantResource? && t.resource == "")
      then t' == t.(phase := Returned(Outcome(NoResult, CanceledError)))
      else if t.phase.WantResource? then t' == t.(phase := WantSlot, lock := t.resource != "")
      else t' == t.(phase := Admitted, slot := true)
  {
    var t := w.threads[i];
    assert HoldsWhatItShould(t);
    if t.phase.WantResource? {
      if t.id in w.mem.cancelled && t.resource != "" {
        a, w' := GiveUpResource(i), Move(w, i, t.(phase := Returned(GAVE_UP)));
      } else if t.resource == "" {
        a, w' := TakeResource(i), Move(w, i, t.(phase := WantSlot));
      } else {
        a, w' := TakeResource(i), Move(w, i, t.(phase := WantSlot, lock := true)).(held := w.held + {t.resource});
      }
    } else if t.id in w.mem.cancelled {
      a, w' := GiveUpSlot(i), Move(w, i, t.(phase := Returned(GAVE_UP)));
    } else {
      a, w' := TakeSlot(i), Move(w, i, t.(phase := Admitted, slot := true)).(slots := w.slots + 1);
    }
  }

  lemma SlotIsCounted(ts: seq<Thread>, i: nat)
    requires i < |ts| && ts[i].slot
    ensures SlotsTaken(ts) > 0
  {
    SlotsAfterUpdate(ts, i, ts[i].(slot := false));
  }

  lemma MarkingMoves(w: World, i: nat) returns (a: Action, w': World)
    requires Safe(w) && At(w, i, Admitted)
    ensures GoroutineStep(a) && Next(w, a, w')
  {
    var id := w.threads[i].id;
    assert JobOfThread(w, w.threads[i]);
    var r := Ran(w.mem.table[id], 1);
    var m := w.mem.(table := w.mem.table[id := r]);
    a := Locked(i, Op.MarkRunning(id, 1), m, [Append(r)]);
    w' := AfterLocked(w, i, a.op, m, a.es);
  }

  /** A goroutine past both waits can always go on, once its function returns. */
  lemma PastTheWaitsItMoves(w: World, i: nat) returns (a: Action, w': World)
    requires Safe(w) && LocksOk(w) && w.up && i < |w.threads|
    requires !w.threads[i].phase.WantResource? && !w.threads[i].phase.WantSlot? && !w.threads[i].phase.Gone?
    ensures GoroutineStep(a) && Next(w, a, w')
  {
    var t := w.threads[i];
    assert JobOfThread(w, t) && HoldsWhatItShould(t);
    match t.phase
    case Admitted =>
      a, w' := MarkingMoves(w, i);
    case Marked =>
      a, w' := Invoke(i), Move(w, i, t.(phase := InFn)).(invoked := w.invoked + multiset{t.id});
    case InFn =>
      a, w' := Return(i, GAVE_UP), Move(w, i, t.(phase := Returned(GAVE_UP)));
    case Returned(outcome) =>
      a, w' := FinishMoves(w, i, outcome);
    case Closing =>
      if t.slot {
        SlotIsCounted(w.threads, i);
        a, w' := FreeSlot(i), Move(w, i, t.(slot := false)).(slots := w.slots - 1);
      } else if t.lock {
        a, w' := FreeResource(i), Move(w, i, t.(lock := false)).(held := w.held - {t.resource});
      } else {
        a, w' := Exit(i), Move(w, i, t.(phase := Gone));
      }
  }

  lemma FinishMoves(w: World, i: nat, outcome: Outcome) returns (a: Action, w': World)
    requires Safe(w) && At(w, i, Returned(outcome))
    ensures GoroutineStep(a) && Next(w, a, w')
  {
    var id := w.threads[i].id;
    assert JobOfThread(w, w.threads[i]);
    var op := Op.Finish(id, outcome, 1);
    var m, es := FinishCanBeDone(w.limits, w.mem, id, outcome);
    a, w' := Locked(i, op, m, es), AfterLocked(w, i, op, m, es);
  }

  lemma FinishCanBeDone(l: Limits, m: Mem, id: Id, outcome: Outcome) returns (m': Mem, es: seq<Effect>)
    requires id in m.table && !Terminal(m.table[id].status)
    ensures Does(l, m, Op.Finish(id, outcome, 1), m', es)
  {
    if m.stopping {
      m', es := m, [];
    } else {
      var r := Finished(m.table[id], outcome, id in m.cancelled, 1);
      var updated := m.table[r.id := r];
      var after := TrimExists(updated, updated, l.maxHistory);
      m', es := m.(table := after), [Append(r)];
    }
  }

  /** A full lock channel was filled by a goroutine that is past the lock. */
  lemma HolderIsPastTheLock(w: World, r: string) returns (i: nat)
    requires LocksOk(w) && r in w.held
    ensures i < |w.threads| && !w.threads[i].phase.WantResource? && !w.threads[i].phase.Gone?
  {
    assert LockedBySomeone(w.threads, r);
    i :| i < |w.threads| && w.threads[i].lock && w.threads[i].resource == r;
    assert HoldsWhatItShould(w.threads[i]);
  }

  lemma {:induction false} SlotHolderExists(ts: seq<Thread>) returns (i: nat)
    requires SlotsTaken(ts) > 0
    ensures i < |ts| && ts[i].slot
  {
    if ts[|ts| - 1].slot {
      i := |ts| - 1;
    } else {
      i := SlotHolderExists(ts[..|ts| - 1]);
    }
  }

  lemma SlotWaiterMoves(w: World, i: nat) returns (a: Action, w': World)
    requires Safe(w) && LocksOk(w) && At(w, i, WantSlot)
    ensures GoroutineStep(a) && Next(w, a, w')
  {
    if w.slots < w.limits.maxConcurrent {
      a, w' := TakeSlot(i), Move(w, i, w.threads[i].(phase := Admitted, slot := true)).(slots := w.slots + 1);
    } else {
      var j := SlotHolderExists(w.threads);
      assert HoldsWhatItShould(w.threads[j]);
      a, w' := PastTheWaitsItMoves(w, j);
    }
  }

  /** As long as some goroutine has not ended, some goroutine can take a step. */
  lemma NoDeadlock(ws: seq<World>, acts: seq<Action>, n: nat, i: nat) returns (a: Action, w': World)
    requires Run(ws, acts) && n < |ws| && ws[n].up && i < |ws[n].threads| && !ws[n].threads[i].phase.Gone?
    ensures GoroutineStep(a) && Next(ws[n], a, w')
  {
    RunIsSafe(ws, acts, n);
    RunKeepsLocks(ws, acts, n);
    a, w' := SomeoneMoves(ws[n], i);
  }

  lemma SomeoneMoves(w: World, i: nat) returns (a: Action, w': World)
    requires Safe(w) && LocksOk(w) && w.up && i < |w.threads| && !w.threads[i].phase.Gone?
    ensures GoroutineStep(a) && Next(w, a, w')
  {
    var t, j := w.threads[i], i;
    if t.phase.WantResource? {
      if t.resource !in w.held {
        w' := if t.resource == "" then Move(w, i, t.(phase := WantSlot))
              else Move(w, i, t.(phase := WantSlot, lock := true)).(held := w.held + {t.resource});
        return TakeResource(i), w';
      }
      j := HolderIsPastTheLock(w, t.resource);
    }
    if w.threads[j].phase.WantSlot? {
      a, w' := SlotWaiterMoves(w, j);
    } else {
      a, w' := PastTheWaitsItMoves(w, j);
    }
  }

  // ---------- a bound on the remaining steps ----------

  const STEPS_PER_JOB := 9

  function StepsLeft(t: Thread): (n: nat)
    ensures n <= STEPS_PER_JOB
  {
    match t.phase
    case WantResource => 9
    case WantSlot => 8
    case Admitted => 7
    case Marked => 6
    case InFn => 5
    case Returned(_) => 4
    case Closing => 1 + (if t.slot then 1 else 0) + (if t.lock then 1 else 0)
    case Gone => 0
  }

  function AllStepsLeft(ts: seq<Thread>): nat {
    if ts == [] then 0 else AllStepsLeft(ts[..|ts| - 1]) + StepsLeft(ts[|ts| - 1])
  }

  lemma {:induction false} StepsAfterUpdate(ts: seq<Thread>, i: nat, t: Thread)
    requires i < |ts|
    ensures AllStepsLeft(ts[i := t]) == AllStepsLeft(ts) - StepsLeft(ts[i]) + StepsLeft(t)
  {
    var n := |ts| - 1;
    if i < n {
      StepsAfterUpdate(ts[..n], i, t);
      assert ts[i := t][..n] == ts[..n][i := t];
    } else {
      assert ts[i := t][..n] == ts[..n];
    }
  }

  predicate StartsJob(a: Action) {
    a.Locked? && Spawned(a.op).Some?
  }

  /** Each goroutine step uses up the measure; only starting a job adds to it. */
  lemma StepUsesMeasure(w: World, a: Action, w': World)
    requires Next(w, a, w') && w.up && w'.up
    ensures GoroutineStep(a) ==> AllStepsLeft(w'.threads) < AllStepsLeft(w.threads)
    ensures StartsJob(a) ==> AllStepsLeft(w'.threads) == AllStepsLeft(w.threads) + STEPS_PER_JOB
    ensures !GoroutineStep(a) && !StartsJob(a) ==> AllStepsLeft(w'.threads) == AllStepsLeft(w.threads)
  {
    if LockFree(a) {
      LockFreeFrame(w, a, w');
      StepsAfterUpdate(w.threads, a.i, w'.threads[a.i]);
      assert StepsLeft(w'.threads[a.i]) < StepsLeft(w.threads[a.i]);
    } else if a.Locked? {
      LockedMeasure(w, a.i, a.op);
    }
  }

  lemma LockedMeasure(w: World, i: nat, op: Op)
    requires MayRun(w, i, op)
    ensures var left, left' := AllStepsLeft(w.threads), AllStepsLeft(ThreadsAfter(w, i, op));
      && (op.MarkRunning? || op.Finish? ==> left' < left)
      && (Spawned(op).Some? ==> left' == left + STEPS_PER_JOB)
      && (!op.MarkRunning? && !op.Finish? && Spawned(op).None? ==> left' == left)
  {
    var ts := ThreadsAfter(w, i, op);
    if op.MarkRunning? || op.Finish? {
      StepsAfterUpdate(w.threads, i, ts[i]);
    } else if Spawned(op).Some? {
      assert ts[..|w.threads|] == w.threads;
    }
  }

  function Count(acts: seq<Action>, p: Action -> bool): nat {
    if acts == [] then 0 else Count(acts[..|acts| - 1], p) + (if p(acts[|acts| - 1]) then 1 else 0)
  }

  lemma MeasureOneStep(ws: seq<World>, acts: seq<Action>, n: nat)
    requires Run(ws, acts) && n < |acts| && ws[n].up && ws[n + 1].up
    ensures AllStepsLeft(ws[n + 1].threads) + (if GoroutineStep(acts[n]) then 1 else 0)
            <= AllStepsLeft(ws[n].threads) + (if StartsJob(acts[n]) then STEPS_PER_JOB else 0)
  {
    RunStep(ws, acts, n);
    StepUsesMeasure(ws[n], acts[n], ws[n + 1]);
  }

  /** While the process lives, goroutines take at most nine steps for every job started plus
      those still owed at the beginning: with NoDeadlock, every goroutine ends if every
      function returns. */
  lemma {:induction false} GoroutinesEnd(ws: seq<World>, acts: seq<Action>, i: nat, j: nat)
    requires Run(ws, acts) && i <= j < |ws| && forall n :: i <= n <= j ==> ws[n].up
    ensures Count(acts[i..j], GoroutineStep) + AllStepsLeft(ws[j].threads)
            <= AllStepsLeft(ws[i].threads) + STEPS_PER_JOB * Count(acts[i..j], StartsJob)
  {
    if i < j {
      GoroutinesEnd(ws, acts, i, j - 1);
      MeasureOneStep(ws, acts, j - 1);
      assert acts[i..j][..j - i - 1] == acts[i..j - 1];
    }
  }
}
