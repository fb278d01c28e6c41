/** How many jobs are recorded as running, which is not how many functions run. */
module JobRunning {
  import opened JobRecords
  import opened JobSpec
  import opened JobWorld
  import opened JobHistory
  import opened JobScheduling

  function RunningJobs(t: Table): set<Id> {
    set id | id in t && t[id].status == Status.Running
  }

  /** The goroutine works for the job and holds a slot. */
  predicate WorksFor(t: Thread, id: Id) {
    t.id == id && t.slot && (t.phase.Marked? || t.phase.InFn? || t.phase.Returned?)
  }

  ghost predicate Attended(ts: seq<Thread>, id: Id) {
    exists i :: 0 <= i < |ts| && WorksFor(ts[i], id)
  }

  /** Until the manager stops, every job recorded as running has a goroutine that works for it. */
  ghost predicate RunnersOk(w: World) {
    w.up && !w.mem.stopping ==> forall id :: id in RunningJobs(w.mem.table) ==> Attended(w.threads, id)
  }

  lemma AttendedStays(ts: seq<Thread>, ts': seq<Thread>, i: nat, id: Id)
    requires Attended(ts, id) && |ts| <= |ts'|
    requires forall j :: 0 <= j < |ts| && j != i ==> ts'[j] == ts[j]
    requires i < |ts| && WorksFor(ts[i], id) ==> WorksFor(ts'[i], id)
    ensures Attended(ts', id)
  {
    var j :| 0 <= j < |ts| && WorksFor(ts[j], id);
    assert WorksFor(ts'[j], id);
  }

  lemma LockFreeKeepsRunners(w: World, a: Action, w': World)
    requires LocksOk(w) && RunnersOk(w) && Next(w, a, w') && LockFree(a)
    ensures RunnersOk(w')
  {
    LockFreeFrame(w, a, w');
    if !w.mem.stopping {
      forall id | id in RunningJobs(w'.mem.table)
        ensures Attended(w'.threads, id)
      {
        WorkGoesOn(w, a, w', id);
        AttendedStays(w.threads, w'.threads, a.i, id);
      }
    }
  }

  /** A goroutine that works for a job keeps its slot until the job has ended. */
  lemma WorkGoesOn(w: World, a: Action, w': World, id: Id)
    requires Next(w, a, w') && LockFree(a)
    ensures a.i < |w.threads| && |w'.threads| == |w.threads|
    ensures WorksFor(w.threads[a.i], id) ==> WorksFor(w'.threads[a.i], id)
  {
  }

  lemma LockedKeepsRunners(w: World, i: nat, op: Op, m: Mem, es: seq<Effect>)
    requires Safe(w) && LocksOk(w) && RunnersOk(w) && MayRun(w, i, op) && Does(w.limits, w.mem, op, m, es)
    ensures RunnersOk(AfterLocked(w, i, op, m, es))
  {
    if !m.stopping {
      forall id | id in RunningJobs(m.table)
        ensures Attended(ThreadsAfter(w, i, op), id)
      {
        LockedKeepsRunner(w, i, op, m, es, id);
      }
    }
  }

  lemma LockedKeepsRunner(w: World, i: nat, op: Op, m: Mem, es: seq<Effect>, id: Id)
    requires Safe(w) && LocksOk(w) && RunnersOk(w) && MayRun(w, i, op) && Does(w.limits, w.mem, op, m, es)
    requires !m.stopping && id in RunningJobs(m.table)
    ensures Attended(ThreadsAfter(w, i, op), id)
  {
    StartedRunning(w, i, op, m, es, id);
    var ts := ThreadsAfter(w, i, op);
    if op.MarkRunning? && op.id == id {
      assert HoldsWhatItShould(w.threads[i]);
      assert WorksFor(ts[i], id);
    } else {
      AttendedStays(w.threads, ts, i, id);
    }
  }

  /** A job runs after an operation only if it ran before or was just marked, and not if it was just
      finished. */
  lemma StartedRunning(w: World, i: nat, op: Op, m: Mem, es: seq<Effect>, id: Id)
    requires Safe(w) && MayRun(w, i, op) && Does(w.limits, w.mem, op, m, es)
    requires !m.stopping && id in RunningJobs(m.table)
    ensures !w.mem.stopping
    ensures !(op.MarkRunning? && op.id == id) ==> id in RunningJobs(w.mem.table)
    ensures op.Finish? ==> op.id != id
  {
    DoesWrites(w.limits, w.mem, op, m, es);
    WritesAreProper(w, i, op, m, es);
    var r := Written(w.mem, op, m);
    if r.Some? {
      WroteTable(w.limits, w.mem, r.value, Trims(op), m, es, id);
    }
  }

  lemma StepKeepsRunners(w: World, a: Action, w': World)
    requires Safe(w) && LocksOk(w) && RunnersOk(w) && Next(w, a, w')
    ensures RunnersOk(w')
  {
    if a.Locked? {
      LockedKeepsRunners(w, a.i, a.op, a.m, a.es);
    } else if LockFree(a) {
      LockFreeKeepsRunners(w, a, w');
    } else if a.Boot? {
      NothingRunsAtBoot(w, a, w');
    }
  }

  lemma NothingRunsAtBoot(w: World, a: Action, w': World)
    requires Next(w, a, w') && a.Boot?
    ensures RunningJobs(w'.mem.table) == {}
  {
  }

  lemma RunnersOneStep(ws: seq<World>, acts: seq<Action>, n: nat)
    requires Run(ws, acts) && n < |acts| && RunnersOk(ws[n])
    ensures RunnersOk(ws[n + 1])
  {
    RunStep(ws, acts, n);
    RunKeepsLocks(ws, acts, n);
    StepKeepsRunners(ws[n], acts[n], ws[n + 1]);
  }

  lemma {:induction false} RunKeepsRunners(ws: seq<World>, acts: seq<Action>, n: nat)
    requires Run(ws, acts) && n < |ws|
    ensures RunnersOk(ws[n])
  {
    if n > 0 {
      RunKeepsRunners(ws, acts, n - 1);
      RunnersOneStep(ws, acts, n - 1);
    }
  }

  lemma {:induction false} AttendedHoldSlots(ts: seq<Thread>, ids: set<Id>)
    requires forall id :: id in ids ==> Attended(ts, id)
    ensures |ids| <= SlotsTaken(ts)
  {
    if ts == [] {
      assert ids == {};
    } else {
      var init, last := ts[..|ts| - 1], ts[|ts| - 1];
      var rest := if last.slot then ids - {last.id} else ids;
      forall id | id in rest
        ensures Attended(init, id)
      {
        var i :| 0 <= i < |ts| && WorksFor(ts[i], id);
        assert WorksFor(init[i], id);
      }
      AttendedHoldSlots(init, rest);
      assert last.slot ==> ids <= rest + {last.id};
      assert |ids| <= |rest| + if last.slot then 1 else 0;
    }
  }

  function AttendedJobs(w: World): set<Id> {
    set id | id in RunningJobs(w.mem.table) && (exists i :: 0 <= i < |w.threads| && WorksFor(w.threads[i], id))
  }

  /** As long as the manager is not stopping, at most `maxConcurrent` jobs are recorded as running. Once it
      is, the bound holds for those whose goroutine still works for them. */
  lemma RecordedRunningIsBounded(ws: seq<World>, acts: seq<Action>, n: nat)
    requires Run(ws, acts) && n < |ws|
    ensures |AttendedJobs(ws[n])| <= ws[n].limits.maxConcurrent
    ensures ws[n].up && !ws[n].mem.stopping ==>
              AttendedJobs(ws[n]) == RunningJobs(ws[n].mem.table) && |RunningJobs(ws[n].mem.table)| <= ws[n].limits.maxConcurrent
  {
    RunKeepsLocks(ws, acts, n);
    RunKeepsRunners(ws, acts, n);
    forall id | id in AttendedJobs(ws[n])
      ensures Attended(ws[n].threads, id)
    {
    }
    AttendedHoldSlots(ws[n].threads, AttendedJobs(ws[n]));
    if ws[n].up && !ws[n].mem.stopping {
      forall id | id in RunningJobs(ws[n].mem.table)
        ensures id in AttendedJobs(ws[n])
      {
        assert Attended(ws[n].threads, id);
      }
      assert AttendedJobs(ws[n]) == RunningJobs(ws[n].mem.table);
    }
  }
}
