/** The job manager: a table of jobs under one lock, kept durable by a journal and a snapshot. */
module JobManager {
  import opened Options
  import opened JobRecords
  import opened JobIds
  import opened JobSpec
  import opened JobLog

  /** Journal and snapshot files. Every call may fail; a failed truncation may still have emptied the file. */
  class Disk {
    var state: Store
    const works: nat -> bool  // whether each call succeeds
    var calls: nat

    /** Whether the call after the next `k` will succeed. */
    predicate Goes(k: nat)
      reads this`calls
    {
      works(calls + k)
    }

    ghost predicate Faultless() {
      forall k :: works(k)
    }

    method Append(r: Record) returns (ok: bool)
      modifies this
      ensures ok == old(Goes(0)) && calls == old(calls) + 1
      ensures state == if ok then Apply(old(state), Effect.Append(r)) else old(state)
    {
      ok := Goes(0);
      calls := calls + 1;
      if ok {
        state := state.(journal := state.journal + [r]);
      }
    }

    method JournalSize(recordBytes: Record -> nat) returns (size: Option<nat>)
      modifies this`calls
      ensures size == (if old(Goes(0)) then Some(FileBytes(state.journal, recordBytes)) else None) && calls == old(calls) + 1
    {
      size := if Goes(0) then Some(FileBytes(state.journal, recordBytes)) else None;
      calls := calls + 1;
    }

    method Publish(rs: seq<Record>) returns (ok: bool)
      modifies this
      ensures ok == old(Goes(0)) && calls == old(calls) + 1
      ensures state == if ok then Apply(old(state), Effect.Publish(rs)) else old(state)
    {
      ok := Goes(0);
      calls := calls + 1;
      if ok {
        state := state.(snapshot := rs);
      }
    }

    /** Opening the file empties it; closing it may fail. */
    method Truncate() returns (ok: bool, ghost emptied: bool)
      modifies this
      ensures emptied == old(Goes(0)) && ok == (emptied && old(Goes(1)))
      ensures state == if emptied then Apply(old(state), Effect.Truncate) else old(state)
    {
      emptied := Goes(0);
      ok := Goes(0) && Goes(1);
      if Goes(0) {
        state := state.(journal := []);
      }
      calls := calls + 2;
    }
  }

  const DEFAULT_COMPACT_BYTES := 32 * 1024 * 1024

  class Manager {
    const limits: Limits
    const durable: bool  // a journal path is configured
    const compactBytes: int          // size of the journal from which it is compacted
    const recordBytes: Record -> nat // length of a journal line
    const disk: Disk
    var jobs: Table
    var logs: map<Id, seq<string>>  // lines held in memory
    var cancelled: set<Id>          // jobs whose context has been cancelled
    var collected: set<Id>          // jobs whose cancellation a shutdown is about to call
    var next: nat
    var stopping: bool

    /** The lines a live job has logged are all in memory; only jobs that had ended before
        the process began have them in a file alone. */
    ghost predicate Valid()
      reads this
    {
      Sound(jobs) && forall id :: id in jobs && !Terminal(jobs[id].status) ==> jobs[id].log.count <= |Held(id)|
    }

    function Held(id: Id): seq<string>
      reads this`logs
    {
      if id in logs then logs[id] else []
    }

    /** The whole state as a value. */
    ghost function State(): Mem
      reads this
    {
      Mem(jobs, next, stopping, cancelled, collected)
    }

    constructor Empty(limits: Limits, durable: bool, compactBytes: int, recordBytes: Record -> nat, disk: Disk)
      ensures Valid() && State() == EMPTY_MEM
      ensures this.limits == limits && this.durable == durable && this.disk == disk
      ensures this.compactBytes == compactBytes && this.recordBytes == recordBytes
    {
      this.limits, this.durable, this.disk := limits, durable, disk;
      this.compactBytes, this.recordBytes := compactBytes, recordBytes;
      jobs, logs, cancelled, collected, next, stopping := map[], map[], {}, {}, 0, false;
    }

    /** A manager for the given files, with what they hold already recovered. */
    static method NewWithOptions(maxHistory: int, maxConcurrent: int, durable: bool, compactBytes: int,
                                 recordBytes: Record -> nat, disk: Disk, now: Time)
      returns (m: Manager, ghost t: Table, ghost es: seq<Effect>, ghost lost: set<Id>)
      requires now != 0
      modifies disk
      ensures fresh(m) && m.Valid() && m.disk == disk && m.durable == durable && m.recordBytes == recordBytes
      ensures m.limits.maxHistory == (if maxHistory <= 0 then 200 else maxHistory)
      ensures m.limits.maxConcurrent == (if maxConcurrent <= 0 then 4 else maxConcurrent)
      ensures m.compactBytes == (if compactBytes <= 0 then 33_554_432 else compactBytes)
      ensures m.limits.maxLogBytes == 16_777_216
      ensures disk.state == ApplyAll(old(disk.state), es)
      ensures if durable then Recovers(m.limits, old(disk.state), t, now, m.State(), es, lost)
              else m.State() == EMPTY_MEM && es == []
      ensures disk.Faultless() ==> lost <= {""}
    {
      var limits := Limits(if maxHistory <= 0 then 200 else maxHistory,
                           if maxConcurrent <= 0 then 4 else maxConcurrent,
                           DEFAULT_MAX_LOG_BYTES);
      m := new Manager.Empty(limits, durable, if compactBytes <= 0 then DEFAULT_COMPACT_BYTES else compactBytes,
                             recordBytes, disk);
      t, es, lost := m.LoadState(now);
    }

    // ---------- operations under the lock ----------

    /** Returns the retained job with the same key if there is one, refuses while stopping,
        and otherwise enters a queued job. `stamp` is the formatted time `now`. */
    method StartWithOptions(o: StartOptions, stamp: string, now: Time) returns (reply: StartReply, ghost es: seq<Effect>)
      requires Valid() && now != 0
      modifies this`jobs, this`next, disk
      ensures Valid() && disk.state == ApplyAll(old(disk.state), es)
      ensures Does(limits, old(State()), Op.Start(o, stamp, now, reply), State(), es)
      ensures es != [] <==> reply.Started? && durable && old(disk.Goes(0))
    {
      es := [];
      if o.key != "" {
        var existing := FindKey(o.key);
        if existing.Some? {
          return Reused(existing.value), es;
        }
      }
      assert KeyIsFree(jobs, o.key);
      next := next + 1;
      if stopping {
        return Refused, es;
      }
      var id;
      id, es := Enter(o, stamp, now);
      EnteredIsStarted(limits, old(State()), o, stamp, now, id, State(), es);
      reply := Started(id);
    }

    /** A queued job under the counter just drawn. */
    method Enter(o: StartOptions, stamp: string, now: Time) returns (id: Id, ghost es: seq<Effect>)
      requires Valid() && now != 0
      modifies this`jobs, disk
      ensures Valid() && disk.state == ApplyAll(old(disk.state), es)
      ensures id == JobId(stamp, next)
      ensures Wrote(limits, old(State()), NewRecord(id, o, now), true, State(), es)
      ensures es != [] <==> durable && old(disk.Goes(0))
    {
      var digits := PrintId(next);
      id := stamp + "-" + digits;
      var job := Record(id, Origin(if o.kind == "" then "job" else o.kind, o.requestId, o.operation),
                        Queued, o.resource, now, now, o.key,
                        RunInfo(None, None, None, None, ""), LogInfo(0, 0, false), Recovery(false, "", false));
      es := Write(job, true);
    }

    method FindKey(key: string) returns (existing: Option<Id>)
      ensures existing.Some? ==> existing.value in jobs && jobs[existing.value].key == key
      ensures existing.None? ==> forall id :: id in jobs ==> jobs[id].key != key
    {
      var rest := jobs.Keys;
      while rest != {}
        invariant rest <= jobs.Keys
        invariant forall id :: id in jobs && id !in rest ==> jobs[id].key != key
        decreases |rest|
      {
        var id :| id in rest;
        if jobs[id].key == key {
          return Some(id);
        }
        rest := rest - {id};
      }
      existing := None;
    }

    method MarkRunning(id: Id, now: Time) returns (ghost es: seq<Effect>)
      requires Valid() && id in jobs && now != 0
      modifies this`jobs, disk
      ensures Valid() && disk.state == ApplyAll(old(disk.state), es)
      ensures Does(limits, old(State()), Op.MarkRunning(id, now), State(), es)
      ensures es != [] <==> old(jobs)[id].status == Queued && durable && old(disk.Goes(0))
    {
      es := [];
      if jobs[id].status != Queued {
        return;
      }
      var job := jobs[id].(status := Running, updatedAt := now, run := jobs[id].run.(startedAt := Some(now)));
      es := Write(job, false);
    }

    /** Records the outcome, unless the job already ended or the manager is stopping. The
        trim may drop the very job that is then persisted. */
    method Finish(id: Id, outcome: Outcome, now: Time) returns (ghost es: seq<Effect>)
      requires Valid() && id in jobs && now != 0
      modifies this`jobs, disk
      ensures Valid() && disk.state == ApplyAll(old(disk.state), es)
      ensures Does(limits, old(State()), Op.Finish(id, outcome, now), State(), es)
      ensures es != [] <==> !Terminal(old(jobs)[id].status) && !stopping && durable && old(disk.Goes(0))
    {
      es := [];
      if Terminal(jobs[id].status) {
        return;
      }
      if stopping {
        return;
      }
      var job := Close(jobs[id], outcome, id in cancelled, now);
      es := Write(job, true);
    }

    static method Close(r: Record, outcome: Outcome, contextCancelled: bool, now: Time) returns (job: Record)
      ensures job == Finished(r, outcome, contextCancelled, now)
    {
      var run := r.run.(finishedAt := Some(now));
      var status: Status;
      if contextCancelled || outcome.error.CanceledError? {
        status := Cancelled;
        run := run.(error := "context canceled");
      } else if outcome.error.OtherError? {
        status := Failed;
        run := run.(error := outcome.error.text);
      } else {
        status := Succeeded;
        run := run.(result := PersistedResult(outcome.result));
      }
      if outcome.result.Command? {
        run := run.(exitCode := Some(outcome.result.exitCode));
      }
      job := r.(status := status, updatedAt := now, run := run);
    }

    /** Stores a job's new record in the table, trims if asked, and persists it. */
    method Write(job: Record, trims: bool) returns (ghost es: seq<Effect>)
      requires Valid() && Storable(job) && (!Terminal(job.status) ==> job.log.count <= |Held(job.id)|)
      modifies this`jobs, disk
      ensures Valid() && disk.state == ApplyAll(old(disk.state), es)
      ensures Wrote(limits, old(State()), job, trims, State(), es)
      ensures es != [] <==> durable && old(disk.Goes(0))
    {
      SoundUpdate(jobs, job);
      jobs := jobs[job.id := job];
      if trims {
        TrimLocked();
      }
      es := PersistLocked(job);
    }

    method Cancel(id: Id) returns (ok: bool)
      requires Valid()
      modifies this`cancelled
      ensures Valid() && Does(limits, old(State()), Op.Cancel(id, ok), State(), [])
    {
      if id !in jobs || Terminal(jobs[id].status) {
        return false;
      }
      cancelled := cancelled + {id};
      ok := true;
    }

    /** The part of shutdown that runs under the lock: collects the cancellations to call. */
    method Shutdown()
      requires Valid()
      modifies this`stopping, this`collected
      ensures Valid() && Does(limits, old(State()), Op.Shutdown, State(), [])
    {
      stopping := true;
      var cancels := {};
      var rest := jobs.Keys;
      while rest != {}
        invariant rest <= jobs.Keys
        invariant forall id :: id in cancels <==> id in jobs && id !in rest && !Terminal(jobs[id].status)
        decreases |rest|
      {
        var id :| id in rest;
        if !Terminal(jobs[id].status) {
          cancels := cancels + {id};
        }
        rest := rest - {id};
      }
      assert cancels == Live(jobs);
      collected := collected + cancels;
    }

    /** One of the calls that follow without the lock. */
    method CancelCollected(id: Id)
      requires Valid() && id in collected
      modifies this`cancelled, this`collected
      ensures Valid() && Does(limits, old(State()), Op.CancelCollected(id), State(), [])
    {
      cancelled := cancelled + {id};
      collected := collected - {id};
    }

    function LogOf(id: Id): Log
      requires id in jobs
      reads this
    {
      Log(Held(id), jobs[id].log.count, jobs[id].log.bytes, jobs[id].log.truncated)
    }

    /** Adds a line within the bounds; the record is written exactly when the log changed. */
    method AppendLog(id: Id, line: string, now: Time) returns (ghost es: seq<Effect>)
      requires Valid() && id in jobs && !Terminal(jobs[id].status) && now != 0
      modifies this`jobs, this`logs, disk
      ensures Valid() && disk.state == ApplyAll(old(disk.state), es)
      ensures id in jobs && LogOf(id) == Appended(old(LogOf(id)), line, limits.maxLogBytes)
      ensures Does(limits, old(State()), Op.AppendLog(id, now), State(), es)
      ensures LogOf(id) == old(LogOf(id)) ==> State() == old(State())
      ensures es != [] <==> LogOf(id) != old(LogOf(id)) && durable && old(disk.Goes(0))
    {
      es := [];
      var held := Held(id);
      if jobs[id].log.truncated || |held| >= MAX_LINES {
        if !jobs[id].log.truncated {
          es := FlagTruncated(id, now);
        }
        return;
      }
      var remaining := limits.maxLogBytes - jobs[id].log.bytes;
      if remaining <= 0 {
        es := FlagTruncated(id, now);
        return;
      }
      if |line| > remaining {
        es := StoreLine(id, line[..remaining], true, now);
      } else {
        es := StoreLine(id, line, false, now);
      }
    }

    method FlagTruncated(id: Id, now: Time) returns (ghost es: seq<Effect>)
      requires Valid() && id in jobs && !Terminal(jobs[id].status) && now != 0 && !jobs[id].log.truncated
      modifies this`jobs, disk
      ensures Valid() && disk.state == ApplyAll(old(disk.state), es)
      ensures id in jobs && LogOf(id) == old(LogOf(id)).(truncated := true)
      ensures Does(limits, old(State()), Op.AppendLog(id, now), State(), es)
      ensures es != [] <==> durable && old(disk.Goes(0))
    {
      es := Write(jobs[id].(log := jobs[id].log.(truncated := true), updatedAt := now), false);
    }

    method StoreLine(id: Id, kept: string, cut: bool, now: Time) returns (ghost es: seq<Effect>)
      requires Valid() && id in jobs && !Terminal(jobs[id].status) && now != 0 && !jobs[id].log.truncated
      modifies this`jobs, this`logs, disk
      ensures Valid() && disk.state == ApplyAll(old(disk.state), es)
      ensures var g := old(LogOf(id));
        id in jobs && LogOf(id) == Log(g.lines + [kept], |g.lines| + 1, g.bytes + |kept|, cut)
      ensures Does(limits, old(State()), Op.AppendLog(id, now), State(), es)
      ensures es != [] <==> durable && old(disk.Goes(0))
    {
      var held := Held(id);
      logs := logs[id := held + [kept]];
      es := Write(jobs[id].(log := LogInfo(|held| + 1, jobs[id].log.bytes + |kept|, cut), updatedAt := now), false);
    }

    /** One page of a job's log. Lines no longer in memory are read from the log file. */
    method Logs(id: Id, cursor: int, limit: int, logFile: seq<string>)
      returns (page: seq<string>, next: nat, truncated: bool, found: bool)
      ensures found <==> id in jobs
      ensures found ==>
        var lines := if LogOf(id).lines == [] && jobs[id].log.count > 0 then logFile else LogOf(id).lines;
        && page == Page(lines, cursor, limit) && next == PageEnd(lines, cursor, limit)
        && truncated == jobs[id].log.truncated
    {
      var start: int := if cursor < 0 then 0 else cursor;
      var size: int := if limit <= 0 || limit > MAX_PAGE then DEFAULT_PAGE else limit;
      if id !in jobs {
        return [], 0, false, false;
      }
      var lines := Held(id);
      if |lines| == 0 && jobs[id].log.count > 0 {
        lines := logFile;
      }
      if start > |lines| {
        start := |lines|;
      }
      var end := start + size;
      if end > |lines| {
        end := |lines|;
      }
      page, next, truncated, found := lines[start..end], end, jobs[id].log.truncated, true;
    }

    // ---------- trimming ----------

    /** Drops the oldest terminal jobs until the table fits, or only live jobs remain. */
    method TrimLocked()
      modifies this`jobs
      ensures Trimmed(old(jobs), jobs, limits.maxHistory)
    {
      while |jobs| > limits.maxHistory
        invariant PartlyTrimmed(old(jobs), jobs, limits.maxHistory)
        decreases |jobs|
      {
        var oldest := OldestTerminal();
        if oldest.None? {
          break;
        }
        TrimStep(old(jobs), jobs, oldest.value, limits.maxHistory);
        jobs := jobs - {oldest.value};
      }
    }

    method OldestTerminal() returns (oldest: Option<Id>)
      ensures oldest.None? ==> forall id :: id in jobs ==> !Terminal(jobs[id].status)
      ensures oldest.Some? ==> OldestIn(jobs, oldest.value)
    {
      oldest := None;
      var rest := jobs.Keys;
      while rest != {}
        invariant rest <= jobs.Keys
        invariant oldest.Some? ==> oldest.value in jobs && Terminal(jobs[oldest.value].status)
        invariant forall id :: id in jobs && id !in rest && Terminal(jobs[id].status)
                    ==> oldest.Some? && jobs[oldest.value].createdAt <= jobs[id].createdAt
        decreases |rest|
      {
        var id :| id in rest;
        rest := rest - {id};
        if !Terminal(jobs[id].status) {
          continue;
        }
        if oldest.None? || jobs[id].createdAt < jobs[oldest.value].createdAt {
          oldest := Some(id);
        }
      }
    }

    // ---------- persistence ----------

    /** Appends the record to the journal, then compacts if that is due. */
    method PersistLocked(job: Record) returns (ghost es: seq<Effect>)
      requires Sound(jobs)
      modifies disk
      ensures Persisted(es, job, jobs)
      ensures es != [] <==> durable && old(disk.Goes(0))
      ensures |es| > 1 <==>
        && durable && old(disk.Goes(0)) && old(disk.Goes(1)) && old(disk.Goes(2))
        && 0 < compactBytes <= FileBytes(old(disk.state).journal + [job], recordBytes)
      ensures |es| > 2 <==> |es| > 1 && old(disk.Goes(3))
      ensures disk.state == ApplyAll(old(disk.state), es)
    {
      es := [];
      if !durable {
        return;
      }
      var ok := disk.Append(job);
      if ok {
        es := [Effect.Append(job)];
        assert es[..0] == [];
        if compactBytes > 0 {
          ghost var more := CompactIfNeededLocked();
          ApplyAllConcat(old(disk.state), es, more);
          es := es + more;
        }
      }
    }

    method CompactIfNeededLocked() returns (ghost es: seq<Effect>)
      requires Sound(jobs) && compactBytes > 0
      modifies disk
      ensures |es| <= 2
      ensures |es| > 0 ==> es[0].Publish? && Lists(es[0].records, jobs) && ByAge(es[0].records)
      ensures |es| > 1 ==> es[1] == Effect.Truncate
      ensures |es| > 0 <==>
        old(disk.Goes(0)) && compactBytes <= FileBytes(old(disk.state).journal, recordBytes) && old(disk.Goes(1))
      ensures |es| > 1 <==> |es| > 0 && old(disk.Goes(2))
      ensures disk.state == ApplyAll(old(disk.state), es)
    {
      es := [];
      var size := disk.JournalSize(recordBytes);
      if size.None? || size.value < compactBytes {
        return;
      }
      es := CompactLocked();
    }

    /** Publishes the retained jobs as the new snapshot, then empties the journal. */
    method CompactLocked() returns (ghost es: seq<Effect>)
      requires Sound(jobs)
      modifies disk
      ensures |es| <= 2
      ensures |es| > 0 ==> es[0].Publish? && Lists(es[0].records, jobs) && ByAge(es[0].records)
      ensures |es| > 1 ==> es[1] == Effect.Truncate
      ensures |es| > 0 <==> old(disk.Goes(0))
      ensures |es| > 1 <==> |es| > 0 && old(disk.Goes(1))
      ensures disk.state == ApplyAll(old(disk.state), es)
    {
      var rs := CollectJobs();
      rs := SortByAge(rs, jobs);
      es := [];
      var ok := disk.Publish(rs);
      if !ok {
        return;
      }
      es := [Effect.Publish(rs)];
      assert es[..0] == [];
      ghost var emptied;
      ok, emptied := disk.Truncate();
      if emptied {
        assert [Effect.Publish(rs), Effect.Truncate][..1] == es;
        es := [Effect.Publish(rs), Effect.Truncate];
      }
    }

    method CollectJobs() returns (rs: seq<Record>)
      requires Sound(jobs)
      ensures Lists(rs, jobs)
    {
      rs := [];
      var rest := jobs.Keys;
      while rest != {}
        invariant rest <= jobs.Keys && |rs| == |jobs| - |rest|
        invariant forall r :: r in rs ==> r.id in jobs && r.id !in rest && jobs[r.id] == r
        invariant forall id :: id in jobs && id !in rest ==> jobs[id] in rs
        decreases |rest|
      {
        var id :| id in rest;
        rest := rest - {id};
        rs := rs + [jobs[id]];
      }
    }

    static method SortByAge(rs: seq<Record>, ghost t: Table) returns (sorted: seq<Record>)
      requires Lists(rs, t)
      ensures ByAge(sorted) && Lists(sorted, t)
    {
      sorted := [];
      for k := 0 to |rs|
        invariant ByAge(sorted) && multiset(sorted) == multiset(rs[..k])
      {
        var i := PlaceByAge(sorted, rs[k]);
        ByAgeWithOneMore(sorted, i, rs[k]);
        SameWithOneMore(sorted, i, rs[k]);
        sorted := sorted[..i] + [rs[k]] + sorted[i..];
        assert rs[..k + 1] == rs[..k] + [rs[k]];
      }
      assert rs[..|rs|] == rs;
      ListsInAnyOrder(rs, sorted, t);
    }

    static method PlaceByAge(sorted: seq<Record>, r: Record) returns (i: nat)
      ensures i <= |sorted|
      ensures (i > 0 ==> sorted[i - 1].createdAt <= r.createdAt) && (i < |sorted| ==> r.createdAt <= sorted[i].createdAt)
    {
      i := |sorted|;
      while i > 0 && r.createdAt < sorted[i - 1].createdAt
        invariant i <= |sorted|
        invariant i < |sorted| ==> r.createdAt <= sorted[i].createdAt
      {
        i := i - 1;
      }
    }

    // ---------- recovery ----------

    /** Reads the snapshot and the journal, interrupts every live job, trims. */
    method LoadState(now: Time) returns (ghost t: Table, ghost es: seq<Effect>, ghost lost: set<Id>)
      requires Sound(jobs) && State() == EMPTY_MEM && now != 0
      modifies this, disk
      ensures Valid()
      ensures disk.state == ApplyAll(old(disk.state), es)
      ensures if durable then Recovers(limits, old(disk.state), t, now, State(), es, lost)
              else State() == EMPTY_MEM && es == []
      ensures disk.Faultless() ==> lost <= {""}
    {
      t, es, lost := map[], [], {};
      if !durable {
        return;
      }
      LoadSnapshot();
      LoadJournal();
      t := jobs;
      es, lost := InterruptLive(now);
      TrimLocked();
    }

    method InterruptLive(now: Time) returns (ghost es: seq<Effect>, ghost lost: set<Id>)
      requires Sound(jobs) && Replays(disk.state, jobs) && now != 0 && durable
      modifies this`jobs, disk
      ensures Sound(jobs) && jobs == InterruptAll(old(jobs), now)
      ensures disk.state == ApplyAll(old(disk.state), es) && RecoveryTrail(old(disk.state), es, now)
      ensures AgreesBut(disk.state, jobs, lost) && LostOnly(old(jobs), now, es, lost)
      ensures disk.Faultless() ==> lost <= {""}
    {
      es, lost := [], {};
      ghost var d, base := disk.state, jobs;
      var rest := jobs.Keys;
      RecoveryStarts(d, jobs, now);
      while rest != {}
        invariant Sound(jobs) && disk.state == ApplyAll(d, es) && RecoveryProgress(d, base, rest, now, jobs, es, lost)
        invariant disk.Faultless() ==> lost <= {""}
        decreases |rest|
      {
        var id :| id in rest;
        es, lost := Visit(id, now, d, base, rest, es, lost);
        rest := rest - {id};
      }
      RecoveryDone(d, base, now, jobs, es, lost);
    }

    method Visit(id: Id, now: Time, ghost d: Store, ghost base: Table, ghost rest: set<Id>, ghost es: seq<Effect>,
                 ghost lost: set<Id>)
      returns (ghost es': seq<Effect>, ghost lost': set<Id>)
      requires Sound(jobs) && id in rest && now != 0 && durable
      requires disk.state == ApplyAll(d, es) && RecoveryProgress(d, base, rest, now, jobs, es, lost)
      modifies this`jobs, disk
      ensures Sound(jobs) && disk.state == ApplyAll(d, es') && RecoveryProgress(d, base, rest - {id}, now, jobs, es', lost')
      ensures old(disk.Goes(0)) ==> lost' <= if id == "" then lost + {id} else lost
    {
      if jobs[id].status == Queued || jobs[id].status == Running {
        ghost var more := InterruptOne(id, now);
        RecoveryStep(d, base, rest, now, old(jobs), es, lost, id, more);
        es', lost' := es + more, StaleAfter(lost, jobs[id], more);
      } else {
        RecoverySkip(d, base, rest, now, jobs, es, lost, id);
        es', lost' := es, lost;
      }
    }

    method InterruptOne(id: Id, now: Time) returns (ghost more: seq<Effect>)
      requires Sound(jobs) && id in jobs && !Terminal(jobs[id].status) && now != 0
      modifies this`jobs, disk
      ensures Sound(jobs) && jobs == old(jobs)[id := Interrupt(old(jobs)[id], now)]
      ensures disk.state == ApplyAll(old(disk.state), more) && Persisted(more, jobs[id], jobs)
      ensures more != [] <==> durable && old(disk.Goes(0))
    {
      var job := jobs[id].(status := Interrupted, updatedAt := now,
                           run := jobs[id].run.(finishedAt := Some(now), error := "agent restarted before job completed"),
                           recovery := Recovery(true, "needs_inspection", false));
      SoundUpdate(jobs, job);
      jobs := jobs[id := job];
      more := PersistLocked(job);
    }

    method LoadSnapshot()
      requires jobs == map[]
      modifies this`jobs
      ensures Sound(jobs)
      ensures Replays(disk.state.(journal := []), jobs)
    {
      var items := disk.state.snapshot;
      for i := 0 to |items|
        invariant Sound(jobs)
        invariant Replays(Store(items[..i], []), jobs)
      {
        assert items[i] in items;
        ReplayOfOneMore(items[..i], [], items[i], jobs);
        RestoreJob(items[i]);
        assert items[..i] + [items[i]] == items[..i + 1];
      }
      assert items[..|items|] == items;
    }

    method LoadJournal()
      requires Sound(jobs)
      requires Replays(disk.state.(journal := []), jobs)
      modifies this`jobs
      ensures Sound(jobs)
      ensures Replays(disk.state, jobs)
    {
      var items := disk.state.journal;
      for i := 0 to |items|
        invariant Sound(jobs)
        invariant Replays(Store(disk.state.snapshot, items[..i]), jobs)
      {
        ReplayOfOneMore(disk.state.snapshot, items[..i], items[i], jobs);
        if items[i].id != "" {
          RestoreJob(items[i]);
        }
        assert items[..i] + [items[i]] == items[..i + 1];
      }
      assert items[..|items|] == items;
    }

    method RestoreJob(item: Record)
      requires Sound(jobs)
      modifies this`jobs
      ensures Sound(jobs) && jobs == old(jobs)[item.id := Restore(item)]
    {
      SoundUpdate(jobs, Restore(item));
      jobs := jobs[item.id := Restore(item)];
    }
  }
}
