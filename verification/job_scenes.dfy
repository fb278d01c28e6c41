/** Building a run step by step: the first boot, and starts while no job has ended. */
module JobScenes {
  import opened JobRecords
  import opened JobIds
  import opened JobSpec
  import opened JobWorld
  import opened JobHistory

  const LIMITS := Limits(2, 1, 0)

  /** A running process that started `next` jobs, with nothing compacted so far. */
  ghost predicate Stage(w: World, t: Table, cancelled: set<Id>, next: nat, threads: seq<Thread>, journal: seq<Record>) {
    && w.limits == LIMITS && w.up && w.mem == Mem(t, next, false, cancelled, {}) && w.threads == threads
    && w.store == Store([], journal) && w.used == w.born.Keys && w.held == {} && w.slots == 0
  }

  function Last(ws: seq<World>): World
    requires ws != []
  {
    ws[|ws| - 1]
  }

  lemma Extend(ws: seq<World>, acts: seq<Action>, a: Action, w: World)
    requires Run(ws, acts) && Next(Last(ws), a, w)
    ensures Run(ws + [w], acts + [a])
  {
    var ws', acts' := ws + [w], acts + [a];
    forall i | 0 <= i < |acts'|
      ensures StepOf(ws', acts', i)
    {
      if i < |acts| {
        assert StepOf(ws, acts, i);
      }
    }
  }

  lemma OneAppend(d: Store, r: Record)
    ensures ApplyAll(d, [Append(r)]) == d.(journal := d.journal + [r])
  {
    assert [Append(r)][..0] == [];
  }

  /** The world after an operation that appends one record. */
  lemma AfterAppend(w: World, i: nat, op: Op, m: Mem, r: Record, journal: seq<Record>)
    requires MayRun(w, i, op) && w.limits == LIMITS && w.store == Store([], journal) && w.used == w.born.Keys
    requires !m.stopping && m.collected == {} && w.held == {} && w.slots == 0
    ensures Stage(AfterLocked(w, i, op, m, [Append(r)]), m.table, m.cancelled, m.next, ThreadsAfter(w, i, op), journal + [r])
  {
    OneAppend(w.store, r);
    var w' := AfterLocked(w, i, op, m, [Append(r)]);
    assert w'.used == w'.born.Keys;
  }

  lemma FirstBoot() returns (ws: seq<World>, acts: seq<Action>)
    ensures Run(ws, acts) && Stage(Last(ws), map[], {}, 0, [], [])
  {
    var w := World(LIMITS, false, EMPTY_MEM, [], {}, 0, {}, Store([], []), {}, map[], multiset{});
    assert InterruptAll(map[], 1) == map[];
    assert Recovers(LIMITS, w.store, map[], 1, EMPTY_MEM, [], {});
    assert Run([w], []);
    var w' := w.(up := true, mem := EMPTY_MEM, stale := {}, store := ApplyAll(w.store, []));
    Extend([w], [], Boot(map[], 1, EMPTY_MEM, [], {}), w');
    ws, acts := [w, w'], [Boot(map[], 1, EMPTY_MEM, [], {})];
    assert [w] + [w'] == ws && [] + acts == acts;
  }

  /** Starting a job when none has ended: nothing is trimmed. */
  lemma StartDoesAppend(m: Mem, o: StartOptions, now: Time, id: Id)
    requires !m.stopping && KeyIsFree(m.table, o.key) && id == JobId("s", m.next + 1)
    requires forall id :: id in m.table ==> !Terminal(m.table[id].status)
    ensures var r := NewRecord(id, o, now);
      Does(LIMITS, m, Op.Start(o, "s", now, Started(id)), m.(table := m.table[id := r], next := m.next + 1), [Append(r)])
  {
    var r := NewRecord(id, o, now);
    assert Trimmed(m.table[id := r], m.table[id := r], LIMITS.maxHistory);
  }

  lemma StartOne(ws: seq<World>, acts: seq<Action>, t: Table, cancelled: set<Id>, next: nat, threads: seq<Thread>,
                 journal: seq<Record>, o: StartOptions, now: Time)
    returns (ws': seq<World>, acts': seq<Action>)
    requires Run(ws, acts) && Stage(Last(ws), t, cancelled, next, threads, journal)
    requires forall id :: id in t ==> !Terminal(t[id].status)
    requires KeyIsFree(t, o.key) && now != 0
    ensures var id := JobId("s", next + 1);
      var r := NewRecord(id, o, now);
      Run(ws', acts') && Stage(Last(ws'), t[id := r], cancelled, next + 1,
                               threads + [Thread(id, o.resource, WantResource, false, false)], journal + [r])
  {
    var w, id := Last(ws), JobId("s", next + 1);
    var r := NewRecord(id, o, now);
    RunIsSafe(ws, acts, |ws| - 1);
    NewIdsAreNew(w, "s");
    StartDoesAppend(w.mem, o, now, id);
    var op, m, es := Op.Start(o, "s", now, Started(id)), Mem(t[id := r], next + 1, false, cancelled, {}), [Append(r)];
    var w' := AfterLocked(w, 0, op, m, es);
    AfterAppend(w, 0, op, m, r, journal);
    Extend(ws, acts, Locked(0, op, m, es), w');
    ws', acts' := ws + [w'], acts + [Locked(0, op, m, es)];
  }
}
