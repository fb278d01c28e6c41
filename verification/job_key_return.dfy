/** A run without failed writes after which every restart loads two jobs with one key. */
module JobKeyReturn {
  import opened Options
  import opened JobRecords
  import opened JobIds
  import opened JobSpec
  import opened JobWorld
  import opened JobKeys
  import opened JobScenes

  const PLAIN := StartOptions("", "r", "", "", "")
  const KEYED := StartOptions("", "r", "", "", "k")

  lemma CancelOne(ws: seq<World>, acts: seq<Action>, t: Table, next: nat, threads: seq<Thread>, journal: seq<Record>, id: Id)
    returns (ws': seq<World>, acts': seq<Action>)
    requires Run(ws, acts) && Stage(Last(ws), t, {}, next, threads, journal)
    requires id in t && !Terminal(t[id].status)
    ensures Run(ws', acts') && Stage(Last(ws'), t, {id}, next, threads, journal)
  {
    var w, op, m := Last(ws), Op.Cancel(id, true), Mem(t, next, false, {id}, {});
    assert {} + {id} == {id};
    var w' := AfterLocked(w, 0, op, m, []);
    Extend(ws, acts, Locked(0, op, m, []), w');
    ws', acts' := ws + [w'], acts + [Locked(0, op, m, [])];
  }

  lemma GiveUp(ws: seq<World>, acts: seq<Action>, t: Table, next: nat, threads: seq<Thread>, journal: seq<Record>, id: Id, i: nat)
    returns (ws': seq<World>, acts': seq<Action>)
    requires Run(ws, acts) && Stage(Last(ws), t, {id}, next, threads, journal)
    requires i < |threads| && threads[i] == Thread(id, "r", WantResource, false, false)
    ensures Run(ws', acts')
    ensures Stage(Last(ws'), t, {id}, next, threads[i := Thread(id, "r", Returned(GAVE_UP), false, false)], journal)
  {
    var w := Last(ws);
    var w' := Move(w, i, w.threads[i].(phase := Returned(GAVE_UP)));
    Extend(ws, acts, GiveUpResource(i), w');
    ws', acts' := ws + [w'], acts + [GiveUpResource(i)];
  }

  /** The job that ends is the only one that has, so it is the one trimmed. */
  lemma FinishDrops(m: Mem, id: Id, now: Time)
    requires !m.stopping && id in m.table && m.table[id].id == id && |m.table| == 3
    requires forall x :: x in m.table ==> !Terminal(m.table[x].status)
    ensures var r := Finished(m.table[id], GAVE_UP, id in m.cancelled, now);
      Does(LIMITS, m, Op.Finish(id, GAVE_UP, now), m.(table := m.table - {id}), [Append(r)])
  {
    var r := Finished(m.table[id], GAVE_UP, id in m.cancelled, now);
    var before, after := m.table[id := r], m.table - {id};
    assert before.Keys == m.table.Keys && after.Keys == m.table.Keys - {id};
    assert |m.table| == |m.table.Keys| && |before| == |before.Keys| && |after| == |after.Keys|;
    assert Trimmed(before, after, 2);
  }

  lemma FinishOne(ws: seq<World>, acts: seq<Action>, t: Table, next: nat, threads: seq<Thread>, journal: seq<Record>,
                  id: Id, i: nat, now: Time)
    returns (ws': seq<World>, acts': seq<Action>, threads': seq<Thread>)
    requires Run(ws, acts) && Stage(Last(ws), t, {id}, next, threads, journal)
    requires id in t && t[id].id == id && |t| == 3 && forall x :: x in t ==> !Terminal(t[x].status)
    requires i < |threads| && threads[i].id == id && threads[i].phase == Returned(GAVE_UP) && now != 0
    ensures Run(ws', acts')
    ensures Stage(Last(ws'), t - {id}, {id}, next, threads', journal + [Finished(t[id], GAVE_UP, true, now)])
  {
    var w := Last(ws);
    FinishDrops(w.mem, id, now);
    var r := Finished(t[id], GAVE_UP, true, now);
    var op, m, es := Op.Finish(id, GAVE_UP, now), Mem(t - {id}, next, false, {id}, {}), [Append(r)];
    var w' := AfterLocked(w, i, op, m, es);
    AfterAppend(w, i, op, m, r, journal);
    Extend(ws, acts, Locked(i, op, m, es), w');
    ws', acts', threads' := ws + [w'], acts + [Locked(i, op, m, es)], ThreadsAfter(w, i, op);
  }

  function IdOf(n: nat): Id {
    JobId("s", n)
  }

  function Job(n: nat): Record {
    NewRecord(IdOf(n), if n < 3 then PLAIN else KEYED, n)
  }

  lemma IdsDiffer(a: nat, b: nat)
    requires a != b
    ensures IdOf(a) != IdOf(b)
  {
    if IdOf(a) == IdOf(b) {
      CounterIsInId("s", a, "s", b);
    }
  }

  function Three(): Table {
    map[][IdOf(1) := Job(1)][IdOf(2) := Job(2)][IdOf(3) := Job(3)]
  }

  lemma ThreeJobs()
    ensures var t := Three();
      |t| == 3 && t[IdOf(3)] == Job(3) && t - {IdOf(3)} == map[][IdOf(1) := Job(1)][IdOf(2) := Job(2)]
  {
    IdsDiffer(1, 2);
    IdsDiffer(1, 3);
    IdsDiffer(2, 3);
    assert Three().Keys == {IdOf(1), IdOf(2), IdOf(3)} && |Three()| == |Three().Keys|;
  }

  function Ended(): Record {
    Finished(Job(3), GAVE_UP, true, 4)
  }

  function Journal(): seq<Record> {
    [Job(1), Job(2), Job(3), Ended(), Job(4)]
  }

  lemma ThreeStarted() returns (ws: seq<World>, acts: seq<Action>, ts: seq<Thread>)
    ensures Run(ws, acts) && Stage(Last(ws), Three(), {}, 3, ts, [Job(1), Job(2), Job(3)])
    ensures |ts| == 3 && ts[2] == Thread(IdOf(3), "r", WantResource, false, false)
  {
    var t1, t2 := map[][IdOf(1) := Job(1)], map[][IdOf(1) := Job(1)][IdOf(2) := Job(2)];
    var a := Thread(IdOf(1), "r", WantResource, false, false);
    var b := Thread(IdOf(2), "r", WantResource, false, false);
    var c := Thread(IdOf(3), "r", WantResource, false, false);
    ws, acts := FirstBoot();
    ws, acts := StartOne(ws, acts, map[], {}, 0, [], [], PLAIN, 1);
    assert [] + [a] == [a] && [] + [Job(1)] == [Job(1)];
    ws, acts := StartOne(ws, acts, t1, {}, 1, [a], [Job(1)], PLAIN, 2);
    assert [a] + [b] == [a, b] && [Job(1)] + [Job(2)] == [Job(1), Job(2)];
    ws, acts := StartOne(ws, acts, t2, {}, 2, [a, b], [Job(1), Job(2)], KEYED, 3);
    assert [a, b] + [c] == [a, b, c] && [Job(1), Job(2)] + [Job(3)] == [Job(1), Job(2), Job(3)];
    ts := [a, b, c];
  }

  lemma KeyFreed(ws: seq<World>, acts: seq<Action>, t: Table, ts: seq<Thread>, journal: seq<Record>, id: Id)
    returns (ws': seq<World>, acts': seq<Action>, ts': seq<Thread>)
    requires Run(ws, acts) && Stage(Last(ws), t, {}, 3, ts, journal)
    requires id in t && t[id].id == id && |t| == 3 && forall x :: x in t ==> !Terminal(t[x].status)
    requires |ts| == 3 && ts[2] == Thread(id, "r", WantResource, false, false)
    ensures Run(ws', acts') && Stage(Last(ws'), t - {id}, {id}, 3, ts', journal + [Finished(t[id], GAVE_UP, true, 4)])
  {
    ws', acts' := CancelOne(ws, acts, t, 3, ts, journal, id);
    ws', acts' := GiveUp(ws', acts', t, 3, ts, journal, id, 2);
    ws', acts', ts' := FinishOne(ws', acts', t, 3, ts[2 := Thread(id, "r", Returned(GAVE_UP), false, false)], journal, id, 2, 4);
  }

  /** Two jobs without a key run on while the keyed third ends and is trimmed; the fourth
      may take its key. */
  lemma KeyTakenAgain() returns (ws: seq<World>, acts: seq<Action>)
    ensures Run(ws, acts) && Last(ws).limits == LIMITS && !Last(ws).up && Last(ws).store == Store([], Journal())
  {
    var ts;
    ws, acts, ts := ThreeStarted();
    ThreeJobs();
    ws, acts, ts := KeyFreed(ws, acts, Three(), ts, [Job(1), Job(2), Job(3)], IdOf(3));
    ws, acts := StartOne(ws, acts, Three() - {IdOf(3)}, {IdOf(3)}, 3, ts, [Job(1), Job(2), Job(3)] + [Ended()], KEYED, 4);
    assert [Job(1), Job(2), Job(3)] + [Ended()] + [Job(4)] == Journal();
    var w := Down(Last(ws), Last(ws).store);
    Extend(ws, acts, Crash, w);
    ws, acts := ws + [w], acts + [Crash];
  }

  lemma LatestOfMore(rs: seq<Record>, r: Record, id: Id)
    ensures Latest(rs + [r], id) == if r.id == id then Some(r) else Latest(rs, id)
  {
    assert (rs + [r])[..|rs|] == rs;
  }

  lemma JournalReads(id: Id)
    ensures Latest(Journal(), id) ==
      if id == IdOf(4) then Some(Job(4)) else if id == IdOf(3) then Some(Ended())
      else if id == IdOf(2) then Some(Job(2)) else if id == IdOf(1) then Some(Job(1)) else None
  {
    LatestOfMore([Job(1), Job(2), Job(3), Ended()], Job(4), id);
    LatestOfMore([Job(1), Job(2), Job(3)], Ended(), id);
    LatestOfMore([Job(1), Job(2)], Job(3), id);
    LatestOfMore([Job(1)], Job(2), id);
    LatestOfMore([], Job(1), id);
    assert Journal() == [Job(1), Job(2), Job(3), Ended()] + [Job(4)];
    assert [Job(1), Job(2), Job(3), Ended()] == [Job(1), Job(2), Job(3)] + [Ended()];
    assert [Job(1), Job(2), Job(3)] == [Job(1), Job(2)] + [Job(3)];
    assert [Job(1), Job(2)] == [Job(1)] + [Job(2)];
    assert [Job(1)] == [] + [Job(1)];
  }

  /** What a restart loads: the ended job and the one that took its key are the newest. */
  ghost predicate SharesKey(t: Table, a: Id, b: Id) {
    && a != b && a in t && b in t && t[a].key == "k" && t[b].key == "k"
    && NotOlder(t, a) <= {a, b} && NotOlder(t, b) <= {a, b}
  }

  lemma LoadedJob(t: Table, id: Id)
    requires Replays(Store([], Journal()), t)
    ensures id in t && id != IdOf(3) && id != IdOf(4) ==> t[id].createdAt < 3
    ensures id == IdOf(3) ==> id in t && t[id].key == "k" && t[id].createdAt == 3
    ensures id == IdOf(4) ==> id in t && t[id].key == "k" && t[id].createdAt == 4
  {
    IdsDiffer(3, 4);
    JournalReads(id);
    assert Lookup(t, id) == Recorded(Store([], Journal()), id);
    assert IdOf(3) != "" && IdOf(4) != "";
  }

  lemma LoadedSharesKey(t: Table)
    requires Replays(Store([], Journal()), t)
    ensures SharesKey(t, IdOf(3), IdOf(4))
  {
    IdsDiffer(3, 4);
    forall id
      ensures id in t && id != IdOf(3) && id != IdOf(4) ==> t[id].createdAt < 3
    {
      LoadedJob(t, id);
    }
    LoadedJob(t, IdOf(3));
    LoadedJob(t, IdOf(4));
  }

  lemma BothReturn(d: Store, t: Table, now: Time, m: Mem, es: seq<Effect>, lost: set<Id>, a: Id, b: Id)
    requires Recovers(LIMITS, d, t, now, m, es, lost) && SharesKey(t, a, b)
    ensures !KeysDistinct(m.table)
  {
    SubsetIsNoLarger(NotOlder(t, a), {a, b});
    SubsetIsNoLarger(NotOlder(t, b), {a, b});
    RetainedByAge(LIMITS, d, t, now, m, es, lost, a);
    RetainedByAge(LIMITS, d, t, now, m, es, lost, b);
    RecoveredAreNewest(LIMITS, d, t, now, m, es, lost);
  }

  /** No write fails, the clock never steps back and the only crash falls between two
      operations. Still every restart loads two jobs with one key. */
  lemma KeyReturnsAfterRestart() returns (ws: seq<World>, acts: seq<Action>)
    ensures Run(ws, acts) && !Last(ws).up
    ensures forall t, now, m, es, lost :: Recovers(Last(ws).limits, Last(ws).store, t, now, m, es, lost) ==>
      !KeysDistinct(m.table)
  {
    ws, acts := KeyTakenAgain();
    var d := Last(ws).store;
    forall t, now, m, es, lost | Recovers(LIMITS, d, t, now, m, es, lost)
      ensures !KeysDistinct(m.table)
    {
      LoadedSharesKey(t);
      BothReturn(d, t, now, m, es, lost, IdOf(3), IdOf(4));
    }
  }
}
