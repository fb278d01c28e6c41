/** What each job-manager operation does to memory and which writes it issues. */
module JobSpec {
  import opened Options
  import opened JobRecords
  import opened JobIds

  datatype Limits = Limits(maxHistory: nat, maxConcurrent: nat, maxLogBytes: nat)

  /** The manager's memory: the table of retained jobs, the start counter, the shutdown
      flag, the jobs whose context was cancelled, and those whose cancellation a shutdown
      has collected and is yet to call. */
  datatype Mem = Mem(table: Table, next: nat, stopping: bool, cancelled: set<Id>, collected: set<Id>)

  const EMPTY_MEM := Mem(map[], 0, false, {}, {})

  datatype StartOptions = StartOptions(kind: string, resource: string, requestId: string, operation: string, key: string)

  datatype StartReply = Reused(id: Id) | Refused | Started(id: Id)

  datatype Result = NoResult | Value(text: string) | Command(exitCode: int, summary: string)

  datatype Error = NoError | CanceledError | OtherError(text: string)

  datatype Outcome = Outcome(result: Result, error: Error)

  /** One atomic operation under the manager's lock, labelled with its inputs and reply. */
  datatype Op =
    | Start(o: StartOptions, stamp: string, now: Time, reply: StartReply)
    | MarkRunning(id: Id, now: Time)
    | Finish(id: Id, outcome: Outcome, now: Time)
    | AppendLog(id: Id, now: Time)
    | Cancel(id: Id, ok: bool)
    | Shutdown
    | CancelCollected(id: Id)

  function NewRecord(id: Id, o: StartOptions, now: Time): Record {
    Record(id, Origin(if o.kind == "" then "job" else o.kind, o.requestId, o.operation), Queued, o.resource, now, now, o.key,
           RunInfo(None, None, None, None, ""), LogInfo(0, 0, false), Recovery(false, "", false))
  }

  function Ran(r: Record, now: Time): Record {
    r.(status := Running, updatedAt := now, run := r.run.(startedAt := Some(now)))
  }

  function FinalStatus(error: Error, cancelled: bool): Status {
    if cancelled || error.CanceledError? then Cancelled else if error.OtherError? then Failed else Succeeded
  }

  function Finished(r: Record, outcome: Outcome, cancelled: bool, now: Time): Record {
    var status := FinalStatus(outcome.error, cancelled);
    var run := RunInfo(
      r.run.startedAt,
      Some(now),
      if outcome.result.Command? then Some(outcome.result.exitCode) else r.run.exitCode,
      if status == Succeeded then PersistedResult(outcome.result) else r.run.result,
      if status == Cancelled then "context canceled"
      else if status == Failed && outcome.error.OtherError? then outcome.error.text else r.run.error);
    r.(status := status, updatedAt := now, run := run)
  }

  function PersistedResult(result: Result): Option<string> {
    match result
    case NoResult => None
    case Value(text) => Some(text)
    case Command(_, summary) => Some(summary)
  }

  function Interrupt(r: Record, now: Time): Record {
    if Terminal(r.status) then r
    else r.(status := Interrupted, updatedAt := now,
            run := r.run.(finishedAt := Some(now), error := "agent restarted before job completed"),
            recovery := Recovery(true, "needs_inspection", false))
  }

  function InterruptAll(t: Table, now: Time): Table {
    map id | id in t :: Interrupt(t[id], now)
  }

  /** Logging touches only the log counters and the update time. */
  ghost predicate Logged(r: Record, r': Record, now: Time) {
    && r' == r.(log := r'.log, updatedAt := now)
    && r'.log.count >= r.log.count && r'.log.bytes >= r.log.bytes && (r.log.truncated ==> r'.log.truncated)
  }

  /** `r` enters or replaces its entry, the table is trimmed if asked, and then `r` is
      recorded: even if the trim has just dropped it. */
  ghost predicate Wrote(l: Limits, m: Mem, r: Record, trims: bool, m': Mem, es: seq<Effect>) {
    && m' == m.(table := m'.table, next := m'.next)
    && (if trims then Trimmed(m.table[r.id := r], m'.table, l.maxHistory) else m'.table == m.table[r.id := r])
    && Persisted(es, r, m'.table)
  }

  ghost predicate KeyIsFree(t: Table, key: string) {
    key == "" || forall id :: id in t ==> t[id].key != key
  }

  ghost predicate Does(l: Limits, m: Mem, op: Op, m': Mem, es: seq<Effect>) {
    match op
    case Start(o, stamp, now, reply) =>
      StartDoes(l, m, o, stamp, now, reply, m', es)
    case MarkRunning(id, now) =>
      id in m.table &&
      if m.table[id].status != Queued then m' == m && es == []
      else m'.next == m.next && Wrote(l, m, Ran(m.table[id], now), false, m', es)
    case Finish(id, outcome, now) =>
      id in m.table &&
      if Terminal(m.table[id].status) || m.stopping then m' == m && es == []
      else m'.next == m.next && Wrote(l, m, Finished(m.table[id], outcome, id in m.cancelled, now), true, m', es)
    case AppendLog(id, now) =>
      id in m.table &&
      if m' == m then es == []
      else m'.next == m.next && id in m'.table && Logged(m.table[id], m'.table[id], now)
           && Wrote(l, m, m'.table[id], false, m', es)
    case Cancel(id, ok) =>
      && (ok <==> id in m.table && !Terminal(m.table[id].status))
      && m' == (if ok then m.(cancelled := m.cancelled + {id}) else m) && es == []
    case Shutdown =>
      && m' == m.(stopping := true, collected := m.collected + Live(m.table)) && es == []
    case CancelCollected(id) =>
      && id in m.collected
      && m' == m.(cancelled := m.cancelled + {id}, collected := m.collected - {id}) && es == []
  }

  ghost predicate StartDoes(l: Limits, m: Mem, o: StartOptions, stamp: string, now: Time, reply: StartReply,
                            m': Mem, es: seq<Effect>) {
    match reply
    case Reused(id) =>
      o.key != "" && id in m.table && m.table[id].key == o.key && m' == m && es == []
    case Refused =>
      KeyIsFree(m.table, o.key) && m.stopping && m' == m.(next := m.next + 1) && es == []
    case Started(id) =>
      && KeyIsFree(m.table, o.key) && !m.stopping
      && id == JobId(stamp, m.next + 1) && m'.next == m.next + 1
      && Wrote(l, m, NewRecord(id, o, now), true, m', es)
  }

  /** A queued job that entered under the next counter was started. */
  lemma EnteredIsStarted(l: Limits, m: Mem, o: StartOptions, stamp: string, now: Time, id: Id, m': Mem, es: seq<Effect>)
    requires KeyIsFree(m.table, o.key) && !m.stopping && id == JobId(stamp, m.next + 1)
    requires Wrote(l, m.(next := m.next + 1), NewRecord(id, o, now), true, m', es) && m'.next == m.next + 1
    ensures Does(l, m, Op.Start(o, stamp, now, Started(id)), m', es)
  {
    assert Wrote(l, m, NewRecord(id, o, now), true, m', es);
  }

  /** The record an operation writes, if it writes one. */
  ghost function Written(m: Mem, op: Op, m': Mem): Option<Record> {
    match op
    case Start(o, _, now, reply) =>
      if reply.Started? then Some(NewRecord(reply.id, o, now)) else None
    case MarkRunning(id, now) =>
      if id in m.table && m.table[id].status == Queued then Some(Ran(m.table[id], now)) else None
    case Finish(id, outcome, now) =>
      if id in m.table && !Terminal(m.table[id].status) && !m.stopping
      then Some(Finished(m.table[id], outcome, id in m.cancelled, now)) else None
    case AppendLog(id, _) =>
      if m' != m && id in m'.table then Some(m'.table[id]) else None
    case _ => None
  }

  function Live(t: Table): (ids: set<Id>)
    ensures forall id :: id in ids <==> id in t && !Terminal(t[id].status)
  {
    set id | id in t && !Terminal(t[id].status)
  }

  /** Every store a crash inside recovery can leave reads back, job by job, as before or
      with a live job already turned into its interrupted form. */
  ghost predicate RecoveryTrail(d: Store, es: seq<Effect>, now: Time) {
    forall k: nat, id: Id :: k <= |es| ==> RecoveryPoint(d, es, k, id, now)
  }

  ghost predicate RecoveryPoint(d: Store, es: seq<Effect>, k: nat, id: Id, now: Time)
    requires k <= |es|
  {
    var was, back := Recorded(d, id), Recorded(ApplyAll(d, es[..k]), id);
    back == was || (was.Some? && back == Some(Interrupt(was.value, now)))
  }

  /** Recovery can fail to record only a job that was live and whose interruption was not
      appended, or that has no id to be read back by. */
  ghost predicate LostOnly(t: Table, now: Time, es: seq<Effect>, lost: set<Id>) {
    forall id :: id in lost ==>
      id in t && !Terminal(t[id].status) && (id == "" || Append(Interrupt(t[id], now)) !in es)
  }

  /** Start-up: the table is the replayed store `t` with every live job interrupted, then
      trimmed. But for the jobs in `lost` the store then agrees with what was recovered. */
  ghost predicate Recovers(l: Limits, d: Store, t: Table, now: Time, m: Mem, es: seq<Effect>, lost: set<Id>) {
    && Replays(d, t)
    && m == EMPTY_MEM.(table := m.table)
    && Trimmed(InterruptAll(t, now), m.table, l.maxHistory)
    && RecoveryTrail(d, es, now)
    && AgreesBut(ApplyAll(d, es), InterruptAll(t, now), lost)
    && LostOnly(t, now, es, lost)
  }

  /** Recovery half way through: the jobs in `rest` are still to be visited. */
  ghost predicate PartlyInterrupted(base: Table, t: Table, rest: set<Id>, now: Time) {
    && t.Keys == base.Keys
    && forall id :: id in base ==> t[id] == if id in rest then base[id] else Interrupt(base[id], now)
  }

  /** A point of the trail that lies within the new record's writes. */
  lemma TrailPoint(d: Store, es: seq<Effect>, more: seq<Effect>, base: Table, t: Table, rest: set<Id>, r: Record, now: Time,
                   k: nat, id: Id)
    requires k <= |more| && RecoveryPoint(d, es, |es|, id, now) && Sound(t) && Storable(r) && Persisted(more, r, t)
    requires r.id in base && Lookup(base, id) == Recorded(d, id) && r == Interrupt(base[r.id], now)
    requires PartlyInterrupted(base, t, rest - {r.id}, now)
    ensures RecoveryPoint(d, es + more, |es| + k, id, now)
  {
    assert es[..|es|] == es;
    assert (es + more)[..|es| + k] == es + more[..k];
    ApplyAllConcat(d, es, more[..k]);
    PersistCrashPoints(ApplyAll(d, es), t, r, more, k, id);
  }

  /** Recording one more recovered job keeps the trail. */
  lemma TrailGrows(d: Store, es: seq<Effect>, more: seq<Effect>, base: Table, t: Table, rest: set<Id>, r: Record, now: Time)
    requires RecoveryTrail(d, es, now) && Sound(t) && Storable(r) && Persisted(more, r, t)
    requires r.id in base && Replays(d, base) && r == Interrupt(base[r.id], now)
    requires PartlyInterrupted(base, t, rest - {r.id}, now)
    ensures RecoveryTrail(d, es + more, now)
  {
    forall k: nat, id: Id | k <= |es + more|
      ensures RecoveryPoint(d, es + more, k, id, now)
    {
      assert Lookup(base, id) == Recorded(d, id);
      if k <= |es| {
        assert (es + more)[..k] == es[..k];
        assert RecoveryPoint(d, es, k, id, now);
      } else {
        assert RecoveryPoint(d, es, |es|, id, now);
        TrailPoint(d, es, more, base, t, rest, r, now, k - |es|, id);
      }
    }
  }

  ghost predicate RecoveryProgress(d: Store, base: Table, rest: set<Id>, now: Time, t: Table, es: seq<Effect>, lost: set<Id>) {
    && rest <= base.Keys && Replays(d, base)
    && PartlyInterrupted(base, t, rest, now)
    && RecoveryTrail(d, es, now)
    && AgreesBut(ApplyAll(d, es), t, lost)
    && LostOnly(base, now, es, lost) && Unvisited(rest, es)
  }

  ghost predicate Unvisited(rest: set<Id>, es: seq<Effect>) {
    forall e :: e in es && e.Append? ==> e.record.id !in rest
  }

  lemma OneAppended(more: seq<Effect>, r: Record, t: Table, q: Record)
    requires Persisted(more, r, t)
    ensures Append(q) in more ==> q == r
  {
  }

  /** Recording one more job leaves only the others to be visited. */
  lemma VisitedStep(es: seq<Effect>, more: seq<Effect>, r: Record, t: Table, rest: set<Id>)
    requires Unvisited(rest, es) && Persisted(more, r, t)
    ensures Unvisited(rest - {r.id}, es + more)
  {
    forall e | e in es + more && e.Append?
      ensures e.record.id !in rest - {r.id}
    {
      if e in more {
        OneAppended(more, r, t, e.record);
      }
    }
  }

  /** It settles the job, or adds it to those lost. */
  lemma LostStep(base: Table, t: Table, rest: set<Id>, now: Time, es: seq<Effect>, lost: set<Id>, r: Record, more: seq<Effect>)
    requires LostOnly(base, now, es, lost) && Unvisited(rest, es) && Persisted(more, r, t)
    requires forall x :: x in base ==> base[x].id == x
    requires r.id in rest && r.id in base && !Terminal(base[r.id].status) && r == Interrupt(base[r.id], now)
    ensures LostOnly(base, now, es + more, StaleAfter(lost, r, more))
  {
    forall x | x in StaleAfter(lost, r, more)
      ensures x in base && !Terminal(base[x].status) && (x == "" || Append(Interrupt(base[x], now)) !in es + more)
    {
      OneAppended(more, r, t, Interrupt(base[x], now));
      assert Append(r) !in es;
    }
  }

  lemma KeyedAsBefore(base: Table, t: Table, rest: set<Id>, now: Time)
    requires PartlyInterrupted(base, t, rest, now) && Sound(t)
    ensures forall x :: x in base ==> base[x].id == x
  {
  }

  lemma RecoveryStep(d: Store, base: Table, rest: set<Id>, now: Time, t: Table, es: seq<Effect>, lost: set<Id>,
                     id: Id, more: seq<Effect>)
    requires RecoveryProgress(d, base, rest, now, t, es, lost) && Sound(t) && now != 0
    requires id in rest && !Terminal(t[id].status)
    requires var r := Interrupt(t[id], now); Persisted(more, r, t[id := r])
    ensures RecoveryProgress(d, base, rest - {id}, now, t[id := Interrupt(t[id], now)], es + more,
                             StaleAfter(lost, Interrupt(t[id], now), more))
    ensures ApplyAll(d, es + more) == ApplyAll(ApplyAll(d, es), more)
  {
    var r := Interrupt(t[id], now);
    SoundUpdate(t, r);
    TrailGrows(d, es, more, base, t[id := r], rest, r, now);
    ApplyAllConcat(d, es, more);
    AgreementGrows(ApplyAll(d, es), more, t[id := r], r, lost);
    VisitedStep(es, more, r, t[id := r], rest);
    KeyedAsBefore(base, t, rest, now);
    LostStep(base, t[id := r], rest, now, es, lost, r, more);
  }

  lemma RecoveryStarts(d: Store, base: Table, now: Time)
    requires Replays(d, base)
    ensures RecoveryProgress(d, base, base.Keys, now, base, [], {})
  {
  }

  lemma RecoverySkip(d: Store, base: Table, rest: set<Id>, now: Time, t: Table, es: seq<Effect>, lost: set<Id>, id: Id)
    requires RecoveryProgress(d, base, rest, now, t, es, lost) && id in rest && Terminal(t[id].status)
    ensures RecoveryProgress(d, base, rest - {id}, now, t, es, lost)
  {
  }

  lemma RecoveryDone(d: Store, base: Table, now: Time, t: Table, es: seq<Effect>, lost: set<Id>)
    requires RecoveryProgress(d, base, {}, now, t, es, lost)
    ensures t == InterruptAll(base, now) && RecoveryTrail(d, es, now) && AgreesBut(ApplyAll(d, es), t, lost)
    ensures LostOnly(base, now, es, lost)
  {
  }
}
