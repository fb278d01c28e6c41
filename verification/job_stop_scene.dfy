/** A run in which, after shutdown has begun, more jobs are recorded as running than may run. */
module JobStopScene {
  import opened JobRecords
  import opened JobIds
  import opened JobSpec
  import opened JobWorld
  import opened JobHistory
  import opened JobRunning
  import opened JobScenes

  const FREE := StartOptions("", "", "", "", "")
  const DONE := Outcome(NoResult, NoError)

  function IdOf(n: nat): Id {
    JobId("s", n)
  }

  lemma IdsDiffer()
    ensures IdOf(1) != IdOf(2)
  {
    if IdOf(1) == IdOf(2) {
      CounterIsInId("s", 1, "s", 2);
    }
  }

  /** Two jobs without resources, each with its goroutine; one slot in all. */
  ghost predicate Scene(w: World, a: Status, b: Status, stopping: bool, p: Phase, q: Phase, slotA: bool, slotB: bool) {
    && w.limits == LIMITS && w.up && w.held == {} && w.mem.stopping == stopping
    && w.mem.table.Keys == {IdOf(1), IdOf(2)}
    && w.mem.table[IdOf(1)].status == a && w.mem.table[IdOf(1)].id == IdOf(1)
    && w.mem.table[IdOf(2)].status == b && w.mem.table[IdOf(2)].id == IdOf(2)
    && w.threads == [Thread(IdOf(1), "", p, false, slotA), Thread(IdOf(2), "", q, false, slotB)]
    && w.slots == (if slotA then 1 else 0) + (if slotB then 1 else 0)
  }

  lemma TwoStarted() returns (ws: seq<World>, acts: seq<Action>)
    ensures Run(ws, acts) && Scene(Last(ws), Queued, Queued, false, WantResource, WantResource, false, false)
  {
    IdsDiffer();
    var a, b := Thread(IdOf(1), "", WantResource, false, false), Thread(IdOf(2), "", WantResource, false, false);
    var r, s := NewRecord(IdOf(1), FREE, 1), NewRecord(IdOf(2), FREE, 2);
    ws, acts := FirstBoot();
    ws, acts := StartOne(ws, acts, map[], {}, 0, [], [], FREE, 1);
    assert [] + [a] == [a];
    ws, acts := StartOne(ws, acts, map[][IdOf(1) := r], {}, 1, [a], [] + [r], FREE, 2);
    assert [a] + [b] == [a, b];
    var w := Last(ws);
    assert w.mem.table == map[][IdOf(1) := r][IdOf(2) := s];
    assert w.mem.table.Keys == {IdOf(1), IdOf(2)};
  }

  /** Marking the `i`-th job's goroutine, admitted, as running. */
  lemma Mark(ws: seq<World>, acts: seq<Action>, i: nat, now: Time) returns (ws': seq<World>, acts': seq<Action>)
    requires Run(ws, acts) && Last(ws).up && now != 0
    requires var w := Last(ws);
      i < |w.threads| && w.threads[i].phase.Admitted?
      && Has(w, w.threads[i].id, Queued) && w.mem.table[w.threads[i].id].id == w.threads[i].id
    ensures Run(ws', acts')
    ensures var w, w' := Last(ws), Last(ws');
      var id := w.threads[i].id;
      w' == w.(mem := w.mem.(table := w.mem.table[id := Ran(w.mem.table[id], now)]), threads := w'.threads,
               store := w'.store, stale := w'.stale)
      && w'.threads == w.threads[i := w.threads[i].(phase := Marked)]
  {
    var w := Last(ws);
    var id := w.threads[i].id;
    var r := Ran(w.mem.table[id], now);
    var op, m, es := Op.MarkRunning(id, now), w.mem.(table := w.mem.table[id := r]), [Append(r)];
    assert Wrote(w.limits, w.mem, r, false, m, es);
    var w' := AfterLocked(w, i, op, m, es);
    Extend(ws, acts, Locked(i, op, m, es), w');
    ws', acts' := ws + [w'], acts + [Locked(i, op, m, es)];
  }

  lemma Quietly(ws: seq<World>, acts: seq<Action>, i: nat, op: Op, m: Mem) returns (ws': seq<World>, acts': seq<Action>)
    requires Run(ws, acts) && MayRun(Last(ws), i, op) && Does(Last(ws).limits, Last(ws).mem, op, m, [])
    requires m.table == Last(ws).mem.table && Spawned(op).None?
    ensures Run(ws', acts') && Last(ws') == AfterLocked(Last(ws), i, op, m, [])
  {
    var w' := AfterLocked(Last(ws), i, op, m, []);
    Extend(ws, acts, Locked(i, op, m, []), w');
    ws', acts' := ws + [w'], acts + [Locked(i, op, m, [])];
  }

  lemma Free(ws: seq<World>, acts: seq<Action>, a: Action, w': World) returns (ws': seq<World>, acts': seq<Action>)
    requires Run(ws, acts) && Next(Last(ws), a, w')
    ensures Run(ws', acts') && Last(ws') == w'
  {
    Extend(ws, acts, a, w');
    ws', acts' := ws + [w'], acts + [a];
  }

  lemma FirstInFunction() returns (ws: seq<World>, acts: seq<Action>)
    ensures Run(ws, acts) && Scene(Last(ws), Status.Running, Queued, false, InFn, WantResource, true, false)
  {
    IdsDiffer();
    ws, acts := TwoStarted();
    var w := Last(ws);
    ws, acts := Free(ws, acts, TakeResource(0), Move(w, 0, w.threads[0].(phase := WantSlot)));
    w := Last(ws);
    ws, acts := Free(ws, acts, TakeSlot(0), Move(w, 0, w.threads[0].(phase := Admitted, slot := true)).(slots := w.slots + 1));
    assert Scene(Last(ws), Queued, Queued, false, Admitted, WantResource, true, false);
    ws, acts := Mark(ws, acts, 0, 3);
    w := Last(ws);
    assert Scene(w, Status.Running, Queued, false, Marked, WantResource, true, false);
    ws, acts := Free(ws, acts, Invoke(0), Move(w, 0, w.threads[0].(phase := InFn)).(invoked := w.invoked + multiset{w.threads[0].id}));
  }

  /** The manager stops, and the first function returns: its job stays recorded as running. */
  lemma FirstReturned() returns (ws: seq<World>, acts: seq<Action>)
    ensures Run(ws, acts) && Scene(Last(ws), Status.Running, Queued, true, Closing, WantResource, false, false)
  {
    IdsDiffer();
    ws, acts := FirstInFunction();
    var w := Last(ws);
    ws, acts := Quietly(ws, acts, 0, Shutdown, w.mem.(stopping := true, collected := w.mem.collected + Live(w.mem.table)));
    w := Last(ws);
    ws, acts := Free(ws, acts, Return(0, DONE), Move(w, 0, w.threads[0].(phase := Returned(DONE))));
    w := Last(ws);
    assert Scene(w, Status.Running, Queued, true, Returned(DONE), WantResource, true, false);
    ws, acts := Quietly(ws, acts, 0, Op.Finish(IdOf(1), DONE, 4), w.mem);
    w := Last(ws);
    assert Scene(w, Status.Running, Queued, true, Closing, WantResource, true, false);
    ws, acts := Free(ws, acts, FreeSlot(0), Move(w, 0, w.threads[0].(slot := false)).(slots := w.slots - 1));
  }

  /** So the second goroutine gets the slot and its job is recorded as running as well. */
  lemma MoreRecordedThanMayRun() returns (ws: seq<World>, acts: seq<Action>)
    ensures Run(ws, acts) && Last(ws).up
    ensures |RunningJobs(Last(ws).mem.table)| == 2 && Last(ws).limits.maxConcurrent == 1
  {
    IdsDiffer();
    ws, acts := FirstReturned();
    var w := Last(ws);
    ws, acts := Free(ws, acts, TakeResource(1), Move(w, 1, w.threads[1].(phase := WantSlot)));
    w := Last(ws);
    ws, acts := Free(ws, acts, TakeSlot(1), Move(w, 1, w.threads[1].(phase := Admitted, slot := true)).(slots := w.slots + 1));
    assert Scene(Last(ws), Status.Running, Queued, true, Closing, Admitted, false, true);
    ws, acts := Mark(ws, acts, 1, 5);
    assert RunningJobs(Last(ws).mem.table) == {IdOf(1), IdOf(2)};
  }
}
