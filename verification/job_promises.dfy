/** The promises made to callers: cancelled jobs stay cancelled, no function runs twice,
    restarts recover exactly what was recorded. */
module JobPromises {
  import opened JobRecords
  import opened JobSpec
  import opened JobWorld
  import opened JobHistory

  // ---------- a function runs at most once ----------

  ghost predicate NotYetInvoked(p: Phase) {
    p.WantResource? || p.WantSlot? || p.Admitted? || p.Marked?
  }

  ghost predicate InvokedOk(w: World) {
    && (forall id :: id in w.invoked ==> id in w.used && w.invoked[id] == 1)
    && (forall i :: 0 <= i < |w.threads| && NotYetInvoked(w.threads[i].phase) ==> w.threads[i].id !in w.invoked)
  }

  lemma StepKeepsInvokedOk(w: World, a: Action, w': World)
    requires Safe(w) && Next(w, a, w') && InvokedOk(w)
    ensures InvokedOk(w')
  {
    if a.Locked? {
      LockedKeepsInvokedOk(w, a.i, a.op, a.m, a.es);
    } else if LockFree(a) {
      LockFreeKeepsInvokedOk(w, a, w');
    } else {
      DownKeepsInvokedOk(w, a, w');
    }
  }

  lemma DownKeepsInvokedOk(w: World, a: Action, w': World)
    requires Safe(w) && Next(w, a, w') && InvokedOk(w) && !a.Locked? && !LockFree(a)
    ensures InvokedOk(w')
  {
  }

  lemma LockedKeepsInvokedOk(w: World, i: nat, op: Op, m: Mem, es: seq<Effect>)
    requires Safe(w) && MayRun(w, i, op) && Does(w.limits, w.mem, op, m, es) && InvokedOk(w)
    ensures InvokedOk(AfterLocked(w, i, op, m, es))
  {
    WritesAreProper(w, i, op, m, es);
    NewThreadNotInvoked(w, i, op);
  }

  lemma NewThreadNotInvoked(w: World, i: nat, op: Op)
    requires MayRun(w, i, op) && InvokedOk(w) && (Spawned(op).Some? ==> Spawned(op).value !in w.used)
    ensures var ts := ThreadsAfter(w, i, op);
      forall j :: 0 <= j < |ts| && NotYetInvoked(ts[j].phase) ==> ts[j].id !in w.invoked
  {
    var ts := ThreadsAfter(w, i, op);
    forall j | 0 <= j < |ts| && NotYetInvoked(ts[j].phase)
      ensures ts[j].id !in w.invoked
    {
      assert j < |w.threads| ==> ts[j].id == w.threads[j].id;
    }
  }

  lemma LockFreeKeepsInvokedOk(w: World, a: Action, w': World)
    requires Safe(w) && Next(w, a, w') && InvokedOk(w) && LockFree(a)
    ensures InvokedOk(w')
  {
    LockFreeFrame(w, a, w');
    var i := a.i;
    assert JobOfThread(w, w.threads[i]);
    assert NotYetInvoked(w'.threads[i].phase) ==> NotYetInvoked(w.threads[i].phase) && !a.Invoke?;
    if a.Invoke? {
      assert w.threads[i].id !in w.invoked;
    }
    forall j | 0 <= j < |w'.threads| && NotYetInvoked(w'.threads[j].phase)
      ensures w'.threads[j].id !in w'.invoked
    {
      assert w.threads[j].id !in w.invoked;
      assert j < i || j == i || i < j;
    }
  }

  lemma {:induction false} RunKeepsInvokedOk(ws: seq<World>, acts: seq<Action>, n: nat)
    requires Run(ws, acts) && n < |ws|
    ensures InvokedOk(ws[n])
  {
    if n > 0 {
      RunKeepsInvokedOk(ws, acts, n - 1);
      InvokedOneStep(ws, acts, n - 1);
    }
  }

  lemma InvokedOneStep(ws: seq<World>, acts: seq<Action>, n: nat)
    requires Run(ws, acts) && n < |acts| && InvokedOk(ws[n])
    ensures InvokedOk(ws[n + 1])
  {
    RunStep(ws, acts, n);
    StepKeepsInvokedOk(ws[n], acts[n], ws[n + 1]);
  }

  /** Over the whole history, with any number of crashes and restarts, the function of a job
      is called at most once. */
  lemma NoFunctionRunsTwice(ws: seq<World>, acts: seq<Action>, n: nat, id: Id)
    requires Run(ws, acts) && n < |ws|
    ensures ws[n].invoked[id] <= 1
  {
    RunKeepsInvokedOk(ws, acts, n);
  }

  // ---------- cancelled stays cancelled ----------

  predicate Completed(r: Record) {
    r.status == Succeeded || r.status == Failed
  }

  /** No trace of success or failure, and a live job will be finished as cancelled. */
  ghost predicate CalledOff(w: World, id: Id) {
    && id in w.used
    && (Recorded(w.store, id).Some? ==> !Completed(Recorded(w.store, id).value))
    && (w.up && id in w.mem.table ==>
          !Completed(w.mem.table[id]) && (!Terminal(w.mem.table[id].status) ==> id in w.mem.cancelled))
  }

  lemma WritesNoCompletion(w: World, i: nat, op: Op, m: Mem, es: seq<Effect>, id: Id)
    requires Safe(w) && MayRun(w, i, op) && Does(w.limits, w.mem, op, m, es) && CalledOff(w, id)
    ensures Written(w.mem, op, m).Some? && Written(w.mem, op, m).value.id == id ==> !Completed(Written(w.mem, op, m).value)
    ensures id in m.table ==> !Completed(m.table[id]) && (!Terminal(m.table[id].status) ==> id in m.cancelled)
  {
    DoesWrites(w.limits, w.mem, op, m, es);
    WritesAreProper(w, i, op, m, es);
    CancelledGrows(w.limits, w.mem, op, m, es);
    var r := Written(w.mem, op, m);
    if r.Some? {
      WroteTable(w.limits, w.mem, r.value, Trims(op), m, es, id);
    }
  }

  lemma CancelledGrows(l: Limits, m: Mem, op: Op, m': Mem, es: seq<Effect>)
    requires Does(l, m, op, m', es)
    ensures m.cancelled <= m'.cancelled
  {
  }

  lemma LockedKeepsCalledOff(w: World, i: nat, op: Op, m: Mem, es: seq<Effect>, k: nat, id: Id)
    requires Safe(w) && MayRun(w, i, op) && Does(w.limits, w.mem, op, m, es) && k <= |es| && CalledOff(w, id)
    ensures CalledOff(AfterLocked(w, i, op, m, es).(store := ApplyAll(w.store, es[..k])), id)
  {
    ReadsBack(w, i, op, m, es, k, id);
    WritesNoCompletion(w, i, op, m, es, id);
  }

  lemma BootKeepsCalledOff(w: World, t: Table, now: Time, m: Mem, es: seq<Effect>, lost: set<Id>, k: nat, id: Id)
    requires StoreOk(w) && Recovers(w.limits, w.store, t, now, m, es, lost) && k <= |es| && CalledOff(w, id)
    ensures CalledOff(w.(up := true, mem := m, stale := lost, store := ApplyAll(w.store, es[..k])), id)
    ensures !w.up ==> CalledOff(w.(store := ApplyAll(w.store, es[..k])), id)
  {
    RecoveryReads(w, t, now, m, es, lost, k, id);
  }

  lemma StepKeepsCalledOff(w: World, a: Action, w': World, id: Id)
    requires Safe(w) && Next(w, a, w') && CalledOff(w, id)
    ensures CalledOff(w', id)
  {
    if a.Locked? || a.CrashIn? {
      LockedStepKeepsCalledOff(w, a, w', id);
    } else if a.Boot? || a.CrashInBoot? {
      BootStepKeepsCalledOff(w, a, w', id);
    } else if LockFree(a) {
      LockFreeKeepsCalledOff(w, a, w', id);
    }
  }

  lemma LockedStepKeepsCalledOff(w: World, a: Action, w': World, id: Id)
    requires Safe(w) && Next(w, a, w') && CalledOff(w, id) && (a.Locked? || a.CrashIn?)
    ensures CalledOff(w', id)
  {
    assert a.es[..|a.es|] == a.es;
    LockedKeepsCalledOff(w, a.i, a.op, a.m, a.es, if a.CrashIn? then a.k else |a.es|, id);
  }

  lemma BootStepKeepsCalledOff(w: World, a: Action, w': World, id: Id)
    requires Safe(w) && Next(w, a, w') && CalledOff(w, id) && (a.Boot? || a.CrashInBoot?)
    ensures CalledOff(w', id)
  {
    assert a.es[..|a.es|] == a.es;
    BootKeepsCalledOff(w, a.t, a.now, a.m, a.es, a.lost, if a.CrashInBoot? then a.k else |a.es|, id);
  }

  lemma LockFreeKeepsCalledOff(w: World, a: Action, w': World, id: Id)
    requires Next(w, a, w') && LockFree(a) && CalledOff(w, id)
    ensures CalledOff(w', id)
  {
    LockFreeFrame(w, a, w');
  }

  lemma CalledOffOneStep(ws: seq<World>, acts: seq<Action>, n: nat, id: Id)
    requires Run(ws, acts) && n < |acts| && CalledOff(ws[n], id)
    ensures CalledOff(ws[n + 1], id)
  {
    RunStep(ws, acts, n);
    StepKeepsCalledOff(ws[n], acts[n], ws[n + 1], id);
  }

  lemma {:induction false} CalledOffForever(ws: seq<World>, acts: seq<Action>, i: nat, j: nat, id: Id)
    requires Run(ws, acts) && i <= j < |ws| && CalledOff(ws[i], id)
    ensures CalledOff(ws[j], id)
  {
    if i < j {
      CalledOffForever(ws, acts, i, j - 1, id);
      CalledOffOneStep(ws, acts, j - 1, id);
    }
  }

  lemma CancelCallsOff(w: World, i: nat, id: Id, m: Mem, es: seq<Effect>, w': World)
    requires Safe(w) && Next(w, Locked(i, Cancel(id, true), m, es), w')
    ensures CalledOff(w', id)
  {
    assert DiskLags(w, id);
    assert es == [] && ApplyAll(w.store, es) == w.store;
  }

  /** Once Cancel has answered true, the job is never seen as succeeded or failed: not in
      memory, not on disk, not after any restart. */
  lemma CancelSticks(ws: seq<World>, acts: seq<Action>, n: nat, j: nat, id: Id)
    requires Run(ws, acts) && n < j < |ws|
    requires acts[n].Locked? && acts[n].op == Cancel(id, true)
    ensures Recorded(ws[j].store, id).Some? ==> !Completed(Recorded(ws[j].store, id).value)
    ensures ws[j].up && id in ws[j].mem.table ==> !Completed(ws[j].mem.table[id])
  {
    RunStep(ws, acts, n);
    CancelCallsOff(ws[n], acts[n].i, id, acts[n].m, acts[n].es, ws[n + 1]);
    CalledOffForever(ws, acts, n + 1, j, id);
  }

  // ---------- recovery ----------

  /** Start-up keeps exactly the newest `maxHistory` recorded jobs, each of them ended. */
  lemma RecoveryKeepsTheNewest(l: Limits, d: Store, t: Table, now: Time, m: Mem, es: seq<Effect>, lost: set<Id>)
    requires Recovers(l, d, t, now, m, es, lost)
    ensures |m.table| == if |t| <= l.maxHistory then |t| else l.maxHistory
    ensures forall id :: id in m.table ==>
              Recorded(d, id).Some? && m.table[id] == Interrupt(Recorded(d, id).value, now) && Terminal(m.table[id].status)
    ensures forall gone, stays :: Recorded(d, gone).Some? && gone !in m.table && stays in m.table
              ==> Recorded(d, gone).value.createdAt <= m.table[stays].createdAt
  {
    var all := InterruptAll(t, now);
    assert all.Keys == t.Keys && |all| == |all.Keys| && |t| == |t.Keys|;
    EndedTrimToNewest(all, m.table, l.maxHistory);
    forall id
      ensures Recorded(d, id) == Lookup(t, id)
      ensures id in all ==> all[id] == Interrupt(t[id], now) && all[id].createdAt == t[id].createdAt
    {
    }
  }

  lemma EndedTrimToNewest(all: Table, kept: Table, max: nat)
    requires Trimmed(all, kept, max) && forall id :: id in all ==> Terminal(all[id].status)
    ensures |kept| == if |all| <= max then |all| else max
    ensures forall id :: id in kept ==> id in all && kept[id] == all[id]
    ensures forall gone, stays :: gone in all && gone !in kept && stays in kept ==> all[gone].createdAt <= kept[stays].createdAt
  {
  }

  /** A recovery cut short anywhere leaves the next one with the same jobs and the same
      verdicts; jobs that had ended keep their very record. */
  lemma RecoveryMayBeRepeated(w: World, t: Table, now: Time, m: Mem, es: seq<Effect>, lost: set<Id>, k: nat,
                              t2: Table, now2: Time, m2: Mem, es2: seq<Effect>, lost2: set<Id>, id: Id)
    requires StoreOk(w) && Recovers(w.limits, w.store, t, now, m, es, lost) && k <= |es|
    requires Recovers(w.limits, ApplyAll(w.store, es[..k]), t2, now2, m2, es2, lost2)
    ensures id in t2 <==> id in t
    ensures id in t ==>
      && Follows(t[id], t2[id])
      && Interrupt(t2[id], now2).status == Interrupt(t[id], now).status
      && (Terminal(t[id].status) ==> t2[id] == t[id])
  {
    RecoveryReads(w, t, now, m, es, lost, k, id);
    assert Lookup(t2, id) == Recorded(ApplyAll(w.store, es[..k]), id);
    if id in t {
      RecordedIsStorable(w.store, id);
    }
  }

  // ---------- shutdown ----------

  /** While stopping, no job enters or leaves the table and none ends. */
  lemma StoppingFreezesVerdicts(w: World, i: nat, op: Op, m: Mem, es: seq<Effect>)
    requires Safe(w) && MayRun(w, i, op) && Does(w.limits, w.mem, op, m, es) && w.mem.stopping
    ensures m.stopping && Spawned(op).None?
    ensures forall id :: id in m.table <==> id in w.mem.table
    ensures forall id :: id in m.table ==> (Terminal(m.table[id].status) <==> Terminal(w.mem.table[id].status))
  {
    DoesWrites(w.limits, w.mem, op, m, es);
    WritesAreProper(w, i, op, m, es);
    assert !Trims(op) || Written(w.mem, op, m).None?;
  }

  /** Once the manager stops, every job that has not ended is cancelled, or its cancellation is still to be called. */
  ghost predicate AllCalledOff(w: World) {
    w.up && w.mem.stopping ==>
      forall id :: id in w.mem.table && !Terminal(w.mem.table[id].status) ==>
        id in w.mem.cancelled || id in w.mem.collected
  }

  lemma LockedKeepsAllCalledOff(w: World, i: nat, op: Op, m: Mem, es: seq<Effect>)
    requires Safe(w) && MayRun(w, i, op) && Does(w.limits, w.mem, op, m, es) && AllCalledOff(w)
    ensures AllCalledOff(AfterLocked(w, i, op, m, es))
  {
    if w.mem.stopping {
      StoppingFreezesVerdicts(w, i, op, m, es);
      assert w.mem.cancelled + w.mem.collected <= m.cancelled + m.collected;
    }
  }

  lemma StepKeepsAllCalledOff(w: World, a: Action, w': World)
    requires Safe(w) && Next(w, a, w') && AllCalledOff(w)
    ensures AllCalledOff(w')
  {
    if a.Locked? {
      LockedKeepsAllCalledOff(w, a.i, a.op, a.m, a.es);
    } else if LockFree(a) {
      LockFreeFrame(w, a, w');
    }
  }

  /** At every moment of every run. */
  lemma {:induction false} StoppingCallsOff(ws: seq<World>, acts: seq<Action>, n: nat)
    requires Run(ws, acts) && n < |ws|
    ensures AllCalledOff(ws[n])
  {
    if n > 0 {
      StoppingCallsOff(ws, acts, n - 1);
      RunStep(ws, acts, n - 1);
      StepKeepsAllCalledOff(ws[n - 1], acts[n - 1], ws[n]);
    }
  }

  /** On the way from shutdown to the next boot: unfinished wherever it can be found. */
  ghost predicate LeftBehind(w: World, id: Id) {
    && id in w.used
    && Recorded(w.store, id).Some?
    && (Terminal(Recorded(w.store, id).value.status) ==> Recorded(w.store, id).value.status == Interrupted)
    && (w.up ==> w.mem.stopping && id in w.mem.table && !Terminal(w.mem.table[id].status))
  }

  lemma LockedKeepsLeftBehind(w: World, i: nat, op: Op, m: Mem, es: seq<Effect>, k: nat, id: Id)
    requires Safe(w) && MayRun(w, i, op) && Does(w.limits, w.mem, op, m, es) && k <= |es| && LeftBehind(w, id)
    ensures LeftBehind(AfterLocked(w, i, op, m, es).(store := ApplyAll(w.store, es[..k])), id)
  {
    StoppingFreezesVerdicts(w, i, op, m, es);
    ReadsBack(w, i, op, m, es, k, id);
    WritesAreProper(w, i, op, m, es);
  }

  lemma StepKeepsLeftBehind(w: World, a: Action, w': World, id: Id)
    requires Safe(w) && Next(w, a, w') && LeftBehind(w, id) && !a.Boot?
    ensures LeftBehind(w', id)
  {
    if a.Locked? || a.CrashIn? {
      LockedStepKeepsLeftBehind(w, a, w', id);
    } else if a.CrashInBoot? {
      RecoveryReads(w, a.t, a.now, a.m, a.es, a.lost, a.k, id);
    } else if LockFree(a) {
      LockFreeKeepsLeftBehind(w, a, w', id);
    }
  }

  lemma LockedStepKeepsLeftBehind(w: World, a: Action, w': World, id: Id)
    requires Safe(w) && Next(w, a, w') && LeftBehind(w, id) && (a.Locked? || a.CrashIn?)
    ensures LeftBehind(w', id)
  {
    assert a.es[..|a.es|] == a.es;
    LockedKeepsLeftBehind(w, a.i, a.op, a.m, a.es, if a.CrashIn? then a.k else |a.es|, id);
  }

  lemma LockFreeKeepsLeftBehind(w: World, a: Action, w': World, id: Id)
    requires Next(w, a, w') && LockFree(a) && LeftBehind(w, id)
    ensures LeftBehind(w', id)
  {
    LockFreeFrame(w, a, w');
  }

  lemma LeftBehindOneStep(ws: seq<World>, acts: seq<Action>, n: nat, id: Id)
    requires Run(ws, acts) && n < |acts| && LeftBehind(ws[n], id) && !acts[n].Boot?
    ensures LeftBehind(ws[n + 1], id)
  {
    RunStep(ws, acts, n);
    StepKeepsLeftBehind(ws[n], acts[n], ws[n + 1], id);
  }

  lemma {:induction false} LeftBehindUntilBoot(ws: seq<World>, acts: seq<Action>, i: nat, j: nat, id: Id)
    requires Run(ws, acts) && i <= j < |ws| && LeftBehind(ws[i], id)
    requires forall n :: i <= n < j ==> !acts[n].Boot?
    ensures LeftBehind(ws[j], id)
  {
    if i < j {
      LeftBehindUntilBoot(ws, acts, i, j - 1, id);
      LeftBehindOneStep(ws, acts, j - 1, id);
    }
  }

  /** A job that is unfinished when the manager starts stopping is recovered as interrupted
      by the next boot, whatever happens before: the process may run on, crash inside a
      write, or crash inside earlier recovery attempts. */
  lemma ShutdownLeavesJobsToRecovery(ws: seq<World>, acts: seq<Action>, i: nat, j: nat, id: Id)
    requires Run(ws, acts) && i <= j < |acts|
    requires ws[i].up && ws[i].mem.stopping && Recorded(ws[i].store, id).Some?
    requires id in ws[i].mem.table && !Terminal(ws[i].mem.table[id].status)
    requires acts[j].Boot? && forall n :: i <= n < j ==> !acts[n].Boot?
    ensures id in acts[j].t && Interrupt(acts[j].t[id], acts[j].now).status == Interrupted
  {
    RunIsSafe(ws, acts, i);
    assert DiskLags(ws[i], id);
    LeftBehindUntilBoot(ws, acts, i, j, id);
    RunStep(ws, acts, j);
    assert Lookup(acts[j].t, id) == Recorded(ws[j].store, id);
  }
}
