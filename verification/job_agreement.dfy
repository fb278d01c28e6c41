/** Disagreement between memory and disk traced to the failed append that caused it. */
module JobAgreement {
  import opened Options
  import opened JobRecords
  import opened JobSpec
  import opened JobWorld
  import opened JobHistory

  /** Recovery has to record that it interrupted the job. */
  predicate Interrupts(a: Action, id: Id) {
    a.Boot? && id in a.t && !Terminal(a.t[id].status)
  }

  ghost predicate Writes(w: World, a: Action, id: Id) {
    a.Locked? && Written(w.mem, a.op, a.m).Some? && Written(w.mem, a.op, a.m).value.id == id
  }

  /** The step has a record of the job to append and the append fails. */
  ghost predicate AppendFails(w: World, a: Action, id: Id) {
    || (Writes(w, a, id) && a.es == [])
    || (Interrupts(a, id) && Append(Interrupt(a.t[id], a.now)) !in a.es)
  }

  ghost predicate AppendSucceeds(w: World, a: Action, id: Id) {
    || (Writes(w, a, id) && a.es != [])
    || (Interrupts(a, id) && Append(Interrupt(a.t[id], a.now)) in a.es)
  }

  /** What a stale job is stale from: this step's failed append, or an earlier one of the same process
      that this step does not make good. */
  lemma StaleStep(w: World, a: Action, w': World, id: Id)
    requires Safe(w) && Next(w, a, w') && id != "" && id in w'.stale
    ensures AppendFails(w, a, id) || (id in w.stale && w.up && !AppendSucceeds(w, a, id))
  {
    if a.Locked? {
      StaleAfterLocked(w, a.i, a.op, a.m, a.es, id);
    } else if LockFree(a) {
      LockFreeFrame(w, a, w');
    } else {
      StaleAfterStart(w, a, w', id);
    }
  }

  lemma StaleAfterStart(w: World, a: Action, w': World, id: Id)
    requires Safe(w) && Next(w, a, w') && !a.Locked? && !LockFree(a) && id != "" && id in w'.stale
    ensures a.Boot? && AppendFails(w, a, id)
  {
    if a.Boot? {
      assert LostOnly(a.t, a.now, a.es, a.lost);
    }
  }

  lemma StaleAfterLocked(w: World, i: nat, op: Op, m: Mem, es: seq<Effect>, id: Id)
    requires MayRun(w, i, op) && id != "" && id in AfterLocked(w, i, op, m, es).stale
    ensures AppendFails(w, Locked(i, op, m, es), id) || (id in w.stale && !AppendSucceeds(w, Locked(i, op, m, es), id))
  {
  }

  /** Step `j` failed to append the job's record, the process has lived on to `n`, and no later append
      of the job has succeeded. */
  ghost predicate LastAppendFailed(ws: seq<World>, acts: seq<Action>, j: nat, n: nat, id: Id)
    requires n <= |acts| < |ws|
  {
    && j < n && AppendFails(ws[j], acts[j], id)
    && forall k {:trigger AppendSucceeds(ws[k], acts[k], id)} :: j < k < n ==> !AppendSucceeds(ws[k], acts[k], id) && ws[k].up
  }

  /** A job counts as stale only from its last append, which failed in this very process. */
  lemma {:induction false} StaleMeansLastAppendFailed(ws: seq<World>, acts: seq<Action>, n: nat, id: Id) returns (j: nat)
    requires Run(ws, acts) && n < |ws| && id != "" && id in ws[n].stale
    ensures LastAppendFailed(ws, acts, j, n, id)
  {
    StaleOneStep(ws, acts, n - 1, id);
    if AppendFails(ws[n - 1], acts[n - 1], id) {
      j := n - 1;
    } else {
      j := StaleMeansLastAppendFailed(ws, acts, n - 1, id);
      forall k {:trigger AppendSucceeds(ws[k], acts[k], id)} | j < k < n
        ensures !AppendSucceeds(ws[k], acts[k], id) && ws[k].up
      {
        assert k == n - 1 || k < n - 1;
      }
    }
  }

  lemma StaleOneStep(ws: seq<World>, acts: seq<Action>, k: int, id: Id)
    requires Run(ws, acts) && k + 1 < |ws| && k >= -1 && id != "" && id in ws[k + 1].stale
    ensures k >= 0
    ensures AppendFails(ws[k], acts[k], id) || (id in ws[k].stale && ws[k].up && !AppendSucceeds(ws[k], acts[k], id))
  {
    if k >= 0 {
      RunStep(ws, acts, k);
      StaleStep(ws[k], acts[k], ws[k + 1], id);
    }
  }

  /** At every lock release a retained job reads back exactly as it is in memory, or its last append
      failed in this process. */
  lemma DiskAgreesOrAppendFailed(ws: seq<World>, acts: seq<Action>, n: nat, id: Id)
    requires Run(ws, acts) && n < |ws| && ws[n].up && id != "" && id in ws[n].mem.table
    ensures Recorded(ws[n].store, id) == Some(ws[n].mem.table[id]) || exists j :: LastAppendFailed(ws, acts, j, n, id)
  {
    if id in ws[n].stale {
      var j := StaleMeansLastAppendFailed(ws, acts, n, id);
    } else {
      StoreAgreesWithMemory(ws, acts, n, id);
    }
  }

  /** No append of a job with an id failed in the first `n` steps. */
  ghost predicate NoAppendFails(ws: seq<World>, acts: seq<Action>, n: nat)
    requires n <= |acts| < |ws|
  {
    forall j, id {:trigger AppendFails(ws[j], acts[j], id)} :: 0 <= j < n && id != "" ==> !AppendFails(ws[j], acts[j], id)
  }

  /** Without a failed append nothing but a job without an id is ever stale, restarts included. */
  lemma NothingStale(ws: seq<World>, acts: seq<Action>, n: nat)
    requires Run(ws, acts) && n < |ws| && NoAppendFails(ws, acts, n)
    ensures ws[n].stale <= {""}
    ensures ws[n].up ==> forall id :: id in ws[n].mem.table && id != "" ==> Recorded(ws[n].store, id) == Some(ws[n].mem.table[id])
  {
    forall id | id in ws[n].stale
      ensures id == ""
    {
      if id != "" {
        var j := StaleMeansLastAppendFailed(ws, acts, n, id);
        assert false;
      }
    }
    if ws[n].up {
      forall id | id in ws[n].mem.table && id != ""
        ensures Recorded(ws[n].store, id) == Some(ws[n].mem.table[id])
      {
        StoreAgreesWithMemory(ws, acts, n, id);
      }
    }
  }

  /** So a crash inside an operation finds every other retained job exact, and the written one as it was
      or as it was to become. */
  lemma CrashPointIsExact(ws: seq<World>, acts: seq<Action>, n: nat, i: nat, op: Op, m: Mem, es: seq<Effect>, k: nat, id: Id)
    requires Run(ws, acts) && n < |ws| && NoAppendFails(ws, acts, n) && id != "" && id in m.table
    requires MayRun(ws[n], i, op) && Does(ws[n].limits, ws[n].mem, op, m, es) && k <= |es|
    ensures var w := ws[n];
      Recorded(ApplyAll(w.store, es[..k]), id) == Some(m.table[id])
      || (Written(w.mem, op, m).Some? && Written(w.mem, op, m).value.id == id
          && Recorded(ApplyAll(w.store, es[..k]), id) == Lookup(w.mem.table, id))
  {
    NothingStale(ws, acts, n);
    CrashPointAgrees(ws, acts, n, i, op, m, es, k, id);
  }
}
