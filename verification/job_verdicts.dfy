/** What the record of a job says at each stage of its life, and how a job ends. */
module JobVerdicts {
  import opened Options
  import opened JobRecords
  import opened JobSpec
  import opened JobWorld
  import opened JobHistory

  // ---------- ending ----------

  /** The final record of a job that was `was`: cancelled if its context was or its function says so, failed
      with the text of any other error, else succeeded with the result. */
  predicate EndsAs(was: Record, r: Record, outcome: Outcome, contextCancelled: bool, now: Time) {
    var called := contextCancelled || outcome.error == CanceledError;
    && (r.status == Cancelled || r.status == Failed || r.status == Succeeded)
    && (r.status == Cancelled <==> called)
    && (r.status == Failed <==> !called && outcome.error != NoError)
    && (r.status == Succeeded <==> !called && outcome.error == NoError)
    && r.run.error == (match r.status
                       case Cancelled => "context canceled"
                       case Failed => (match outcome.error case OtherError(text) => text case _ => "")
                       case _ => was.run.error)
    && r.run.result == (if r.status != Succeeded then was.run.result
                        else match outcome.result
                          case NoResult => None
                          case Value(text) => Some(text)
                          case Command(_, summary) => Some(summary))
    && r.run.exitCode == (match outcome.result case Command(exitCode, _) => Some(exitCode) case _ => was.run.exitCode)
    && r.run.finishedAt == Some(now) && r.updatedAt == now && r.run.startedAt == was.run.startedAt
    && r.id == was.id && r.origin == was.origin && r.resource == was.resource && r.createdAt == was.createdAt
    && r.key == was.key && r.log == was.log && r.recovery == was.recovery
  }

  lemma FinishEnds(l: Limits, m: Mem, id: Id, outcome: Outcome, now: Time, m': Mem, es: seq<Effect>) returns (r: Record)
    requires Does(l, m, Op.Finish(id, outcome, now), m', es) && Sound(m.table)
    requires !Terminal(m.table[id].status) && !m.stopping
    ensures EndsAs(m.table[id], r, outcome, id in m.cancelled, now)
    ensures r.id == id && (id in m'.table ==> m'.table[id] == r) && (es != [] ==> es[0] == Append(r))
    ensures Written(m, Op.Finish(id, outcome, now), m') == Some(r)
  {
    r := Written(m, Op.Finish(id, outcome, now), m').value;
    FinishedEndsAs(m.table[id], outcome, id in m.cancelled, now);
  }

  lemma FinishedEndsAs(was: Record, outcome: Outcome, contextCancelled: bool, now: Time)
    ensures EndsAs(was, Finished(was, outcome, contextCancelled, now), outcome, contextCancelled, now)
  {
  }

  /** Right after a recorded end the job is found nowhere but as it ended. */
  lemma EndedIsSettled(w: World, i: nat, op: Op, m: Mem, es: seq<Effect>, w': World, r: Record)
    requires Safe(w) && Next(w, Locked(i, op, m, es), w') && es != [] && op.Finish?
    requires Written(w.mem, op, m) == Some(r) && Terminal(r.status) && r.id in w.used
    ensures Settled(w', r)
  {
    assert es[..|es|] == es;
    DoesWrites(w.limits, w.mem, op, m, es);
    WritesAreProper(w, i, op, m, es);
    ReadsBack(w, i, op, m, es, |es|, r.id);
    WroteTable(w.limits, w.mem, r, true, m, es, r.id);
    SoundUpdate(w.mem.table, r);
    PersistCrashPoints(w.store, m.table, r, es, |es|, r.id);
  }

  /** The step by which a goroutine ends its job, whose record becomes `r`. */
  ghost predicate Ends(w: World, a: Action, w': World, r: Record) {
    && a.Locked? && a.op.Finish? && a.i < |w.threads|
    && w.threads[a.i].id == a.op.id && w.threads[a.i].phase == Returned(a.op.outcome)
    && a.op.id in w.mem.table && EndsAs(w.mem.table[a.op.id], r, a.op.outcome, a.op.id in w.mem.cancelled, a.op.now)
    && (a.op.id in w'.mem.table ==> w'.mem.table[a.op.id] == r)
    && (a.es != [] && a.op.id in w'.mem.table ==> Recorded(w'.store, a.op.id) == Some(r))
    && (a.es != [] ==> Settled(w', r))
  }

  lemma EndStep(w: World, a: Action, w': World) returns (r: Record)
    requires Safe(w) && Next(w, a, w') && a.Locked? && a.op.Finish? && !w.mem.stopping
    ensures Ends(w, a, w', r) && (a.es != [] ==> Settled(w', r))
  {
    assert JobOfThread(w, w.threads[a.i]);
    r := FinishEnds(w.limits, w.mem, a.op.id, a.op.outcome, a.op.now, a.m, a.es);
    if a.es != [] {
      EndedIsSettled(w, a.i, a.op, a.m, a.es, w', r);
      if a.op.id in a.m.table {
        AgreementReturns(w, a.i, a.op, a.m, a.es, a.op.id);
      }
    }
  }

  lemma EndStepOf(ws: seq<World>, acts: seq<Action>, n: nat) returns (r: Record)
    requires Run(ws, acts) && n < |acts| && acts[n].Locked? && acts[n].op.Finish? && !ws[n].mem.stopping
    ensures Ends(ws[n], acts[n], ws[n + 1], r) && (acts[n].es != [] ==> Settled(ws[n + 1], r))
  {
    RunStep(ws, acts, n);
    r := EndStep(ws[n], acts[n], ws[n + 1]);
  }

  /** A job that ends while the manager is not stopping ends as its function returned, in memory if the trim
      keeps it; and unless the append failed it is found with that record wherever it is found later. */
  lemma JobEndsAsReturned(ws: seq<World>, acts: seq<Action>, n: nat, j: nat) returns (r: Record)
    requires Run(ws, acts) && n < j < |ws| && acts[n].Locked? && acts[n].op.Finish? && !ws[n].mem.stopping
    ensures Ends(ws[n], acts[n], ws[n + 1], r)
    ensures acts[n].es != [] ==> Settled(ws[j], r)
  {
    r := EndStepOf(ws, acts, n);
    if acts[n].es != [] {
      SettledForever(ws, acts, n + 1, j, r);
    }
  }

  /** Within a process a job comes to its end in no other way. */
  lemma OnlyFinishEnds(w: World, a: Action, w': World, id: Id)
    requires Safe(w) && Next(w, a, w') && w.up && w'.up
    requires id in w.mem.table && !Terminal(w.mem.table[id].status)
    requires id in w'.mem.table ==> Terminal(w'.mem.table[id].status)
    ensures a.Locked? && a.op.Finish? && a.op.id == id && !w.mem.stopping
  {
    if a.Locked? {
      OnlyFinishWritesEnd(w, a.i, a.op, a.m, a.es, id);
    } else if LockFree(a) {
      LockFreeFrame(w, a, w');
    }
  }

  lemma OnlyFinishWritesEnd(w: World, i: nat, op: Op, m: Mem, es: seq<Effect>, id: Id)
    requires Safe(w) && MayRun(w, i, op) && Does(w.limits, w.mem, op, m, es)
    requires id in w.mem.table && !Terminal(w.mem.table[id].status) && (id in m.table ==> Terminal(m.table[id].status))
    ensures op.Finish? && op.id == id && !w.mem.stopping
  {
    DoesWrites(w.limits, w.mem, op, m, es);
    WritesAreProper(w, i, op, m, es);
    var r := Written(w.mem, op, m);
    if r.Some? {
      WroteTable(w.limits, w.mem, r.value, Trims(op), m, es, id);
    }
  }

  /** A job has ended exactly in these states. */
  lemma EndedMeans(s: Status)
    ensures Terminal(s) <==> s != Queued && s != Status.Running
  {
  }

  // ---------- giving up ----------

  /** A goroutine that has an outcome without ever having called its function belongs to a cancelled job. */
  ghost predicate GivesUpOk(w: World) {
    forall i :: 0 <= i < |w.threads| && w.threads[i].phase.Returned? ==> ReturnedRightly(w, w.threads[i])
  }

  predicate ReturnedRightly(w: World, t: Thread)
    requires t.phase.Returned?
  {
    t.id in w.invoked || (t.id in w.mem.cancelled && t.phase.outcome == Outcome(NoResult, CanceledError))
  }

  lemma StepKeepsGivesUp(w: World, a: Action, w': World)
    requires Safe(w) && Next(w, a, w') && GivesUpOk(w) && InFnInvoked(w)
    ensures GivesUpOk(w')
  {
    if a.Locked? {
      LockedKeepsGivesUp(w, a.i, a.op, a.m, a.es);
    } else if LockFree(a) {
      LockFreeKeepsGivesUp(w, a, w');
    } else {
      assert w'.threads == [] || w'.threads == w.threads;
    }
  }

  lemma CancellationsStay(l: Limits, m: Mem, op: Op, m': Mem, es: seq<Effect>)
    requires Does(l, m, op, m', es)
    ensures m.cancelled <= m'.cancelled
  {
  }

  lemma LockedKeepsGivesUp(w: World, i: nat, op: Op, m: Mem, es: seq<Effect>)
    requires Safe(w) && MayRun(w, i, op) && Does(w.limits, w.mem, op, m, es) && GivesUpOk(w)
    ensures GivesUpOk(AfterLocked(w, i, op, m, es))
  {
    CancellationsStay(w.limits, w.mem, op, m, es);
    var ts := ThreadsAfter(w, i, op);
    forall j | 0 <= j < |ts| && ts[j].phase.Returned?
      ensures j < |w.threads| && ts[j] == w.threads[j]
    {
    }
  }

  /** A function that is running, or has returned, was called. */
  ghost predicate InFnInvoked(w: World) {
    forall i :: 0 <= i < |w.threads| && w.threads[i].phase.InFn? ==> w.threads[i].id in w.invoked
  }

  lemma LockFreeKeepsGivesUp(w: World, a: Action, w': World)
    requires Next(w, a, w') && LockFree(a) && GivesUpOk(w) && InFnInvoked(w)
    ensures GivesUpOk(w')
  {
    LockFreeFrame(w, a, w');
    forall j | 0 <= j < |w'.threads| && w'.threads[j].phase.Returned?
      ensures ReturnedRightly(w', w'.threads[j])
    {
      assert j != a.i ==> w'.threads[j] == w.threads[j];
      if j == a.i {
        assert w.threads[j].phase.InFn? ==> w.threads[j].id in w.invoked;
      }
    }
  }

  lemma LockedKeepsInFn(w: World, i: nat, op: Op)
    requires MayRun(w, i, op) && InFnInvoked(w)
    ensures forall j :: 0 <= j < |ThreadsAfter(w, i, op)| && ThreadsAfter(w, i, op)[j].phase.InFn? ==>
              ThreadsAfter(w, i, op)[j].id in w.invoked
  {
    var ts := ThreadsAfter(w, i, op);
    forall j | 0 <= j < |ts| && ts[j].phase.InFn?
      ensures j < |w.threads| && ts[j] == w.threads[j]
    {
    }
  }

  lemma StepKeepsInFn(w: World, a: Action, w': World)
    requires Safe(w) && Next(w, a, w') && InFnInvoked(w)
    ensures InFnInvoked(w')
  {
    if a.Locked? {
      LockedKeepsInFn(w, a.i, a.op);
    } else if LockFree(a) {
      LockFreeFrame(w, a, w');
    } else {
      assert w'.threads == [] || w'.threads == w.threads;
    }
  }

  lemma {:induction false} RunKeepsGivesUp(ws: seq<World>, acts: seq<Action>, n: nat)
    requires Run(ws, acts) && n < |ws|
    ensures GivesUpOk(ws[n]) && InFnInvoked(ws[n])
  {
    if n > 0 {
      RunKeepsGivesUp(ws, acts, n - 1);
      RunStep(ws, acts, n - 1);
      StepKeepsGivesUp(ws[n - 1], acts[n - 1], ws[n]);
      StepKeepsInFn(ws[n - 1], acts[n - 1], ws[n]);
    }
  }

  /** A job whose function was never called ends only if it was cancelled, and then as cancelled. */
  lemma UncalledEndsCancelled(ws: seq<World>, acts: seq<Action>, n: nat) returns (r: Record)
    requires Run(ws, acts) && n < |acts| && acts[n].Locked? && acts[n].op.Finish? && !ws[n].mem.stopping
    requires acts[n].op.id !in ws[n].invoked
    ensures acts[n].op.id in ws[n].mem.cancelled && r.status == Cancelled
    ensures Ends(ws[n], acts[n], ws[n + 1], r)
  {
    r := JobEndsAsReturned(ws, acts, n, n + 1);
    RunKeepsGivesUp(ws, acts, n);
    assert ReturnedRightly(ws[n], ws[n].threads[acts[n].i]);
  }

  // ---------- beginning, running, being interrupted ----------

  /** The record a job starts with. */
  lemma StartedRecord(l: Limits, m: Mem, o: StartOptions, stamp: string, now: Time, id: Id, m': Mem, es: seq<Effect>)
    returns (r: Record)
    requires Does(l, m, Op.Start(o, stamp, now, Started(id)), m', es)
    ensures id in m'.table && m'.table[id] == r && (es != [] ==> es[0] == Append(r))
    ensures r.id == id && r.status == Queued && r.resource == o.resource && r.key == o.key
    ensures r.createdAt == now == r.updatedAt && r.run == RunInfo(None, None, None, None, "")
    ensures r.origin == Origin(if o.kind == "" then "job" else o.kind, o.requestId, o.operation)
    ensures r.log.count == 0 && r.log.bytes == 0 && !r.log.truncated && !r.recovery.recovered
  {
    r := NewRecord(id, o, now);
  }

  /** Marking a job as running changes its state, and notes when. */
  lemma MarkedRecord(l: Limits, m: Mem, id: Id, now: Time, m': Mem, es: seq<Effect>)
    requires Does(l, m, Op.MarkRunning(id, now), m', es) && m.table[id].status == Queued && Sound(m.table)
    ensures var was := m.table[id];
      && id in m'.table
      && m'.table[id] == was.(status := Status.Running, updatedAt := now,
                              run := RunInfo(Some(now), was.run.finishedAt, was.run.exitCode, was.run.result, was.run.error))
  {
  }

  /** A start is answered with the retained job of its key if there is one, refused only while stopping, and
      otherwise accepted. */
  lemma StartAnswers(l: Limits, m: Mem, o: StartOptions, stamp: string, now: Time, reply: StartReply, m': Mem, es: seq<Effect>)
    requires Does(l, m, Op.Start(o, stamp, now, reply), m', es)
    ensures reply.Reused? <==> o.key != "" && exists id :: id in m.table && m.table[id].key == o.key
    ensures reply.Refused? <==> m.stopping && (o.key == "" || forall id :: id in m.table ==> m.table[id].key != o.key)
    ensures reply.Reused? ==> reply.id in m.table && m.table[reply.id].key == o.key
  {
    if reply.Reused? {
      assert m.table[reply.id].key == o.key;
    }
  }

  /** What recovery makes of a recorded job: one that was queued or running is interrupted, to be inspected
      and not to be retried; any other is as it was. */
  lemma RecoveredRecord(l: Limits, d: Store, t: Table, now: Time, m: Mem, es: seq<Effect>, lost: set<Id>, id: Id)
    requires Recovers(l, d, t, now, m, es, lost) && id in m.table
    ensures Recorded(d, id).Some?
    ensures var was, r := Recorded(d, id).value, m.table[id];
      if was.status == Queued || was.status == Status.Running then
        && r.status == Interrupted && r.updatedAt == now && r.run.finishedAt == Some(now)
        && r.run.error == "agent restarted before job completed"
        && r.recovery == Recovery(true, "needs_inspection", false)
        && r.run.startedAt == was.run.startedAt && r.run.exitCode == was.run.exitCode && r.run.result == was.run.result
        && r.id == was.id && r.origin == was.origin && r.resource == was.resource && r.createdAt == was.createdAt
        && r.key == was.key && r.log == was.log
      else r == was
  {
    assert Lookup(t, id) == Recorded(d, id);
  }
}
