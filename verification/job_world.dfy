/** The running system: one goroutine per job, the resource locks and the semaphore, the
    manager's locked operations, the disk, crashes and restarts. */
module JobWorld {
  import opened Options
  import opened JobRecords
  import opened JobSpec

  /** Where a job's goroutine stands. */
  datatype Phase = WantResource | WantSlot | Admitted | Marked | InFn | Returned(outcome: Outcome) | Closing | Gone

  datatype Thread = Thread(id: Id, resource: string, phase: Phase, lock: bool, slot: bool)

  datatype World = World(
    limits: Limits,
    up: bool,
    // process memory, lost in a crash
    mem: Mem,
    threads: seq<Thread>,
    held: set<string>,   // resources whose lock channel is full
    slots: nat,          // tokens in the semaphore channel
    stale: set<Id>,      // jobs the store may be behind on
    // disk
    store: Store,
    // history
    used: set<Id>,                     // every job id so far
    born: map<Id, (string, nat)>,      // stamp and counter of the ids made by this process
    invoked: multiset<Id>)             // calls of job functions

  datatype Action =
    | Locked(i: nat, op: Op, m: Mem, es: seq<Effect>)
    | TakeResource(i: nat) | GiveUpResource(i: nat)
    | TakeSlot(i: nat) | GiveUpSlot(i: nat)
    | Invoke(i: nat) | Return(i: nat, outcome: Outcome)
    | FreeSlot(i: nat) | FreeResource(i: nat) | Exit(i: nat)
    | Crash
    | CrashIn(i: nat, op: Op, m: Mem, es: seq<Effect>, k: nat)
    | Boot(t: Table, now: Time, m: Mem, es: seq<Effect>, lost: set<Id>)
    | CrashInBoot(t: Table, now: Time, m: Mem, es: seq<Effect>, lost: set<Id>, k: nat)

  const GAVE_UP := Outcome(NoResult, CanceledError)

  predicate At(w: World, i: nat, p: Phase) {
    w.up && i < |w.threads| && w.threads[i].phase == p
  }

  /** Who may run a locked operation. New ids do not repeat ids of earlier processes. */
  predicate MayRun(w: World, i: nat, op: Op) {
    w.up &&
    match op
    case Start(_, _, now, reply) => now != 0 && (reply.Started? ==> reply.id in w.born || reply.id !in w.used)
    case MarkRunning(id, now) => now != 0 && At(w, i, Admitted) && w.threads[i].id == id
    case Finish(id, outcome, now) => now != 0 && At(w, i, Returned(outcome)) && w.threads[i].id == id
    case AppendLog(id, now) => now != 0 && At(w, i, InFn) && w.threads[i].id == id
    case Cancel(_, _) => true
    case Shutdown => true
    case CancelCollected(_) => true
  }

  function Spawned(op: Op): Option<Id> {
    if op.Start? && op.reply.Started? then Some(op.reply.id) else None
  }

  function ThreadsAfter(w: World, i: nat, op: Op): seq<Thread>
    requires MayRun(w, i, op)
  {
    match op
    case Start(o, _, _, reply) =>
      if reply.Started? then w.threads + [Thread(reply.id, o.resource, WantResource, false, false)] else w.threads
    case MarkRunning(_, _) => w.threads[i := w.threads[i].(phase := Marked)]
    case Finish(_, _, _) => w.threads[i := w.threads[i].(phase := Closing)]
    case _ => w.threads
  }

  ghost function AfterLocked(w: World, i: nat, op: Op, m: Mem, es: seq<Effect>): World
    requires MayRun(w, i, op)
  {
    w.(mem := m, threads := ThreadsAfter(w, i, op), store := ApplyAll(w.store, es),
       stale := if Written(w.mem, op, m).Some? then StaleAfter(w.stale, Written(w.mem, op, m).value, es) else w.stale,
       used := w.used + (if Spawned(op).Some? then {Spawned(op).value} else {}),
       born := if Spawned(op).Some? then w.born[Spawned(op).value := (op.stamp, m.next)] else w.born)
  }

  function Down(w: World, store: Store): World {
    w.(up := false, mem := EMPTY_MEM, threads := [], held := {}, slots := 0, stale := {}, born := map[], store := store)
  }

  function Move(w: World, i: nat, t: Thread): World
    requires i < |w.threads|
  {
    w.(threads := w.threads[i := t])
  }

  ghost predicate Next(w: World, a: Action, w': World) {
    match a
    case Locked(i, op, m, es) =>
      MayRun(w, i, op) && Does(w.limits, w.mem, op, m, es) && w' == AfterLocked(w, i, op, m, es)
    case TakeResource(i) =>
      At(w, i, WantResource) && w.threads[i].resource !in w.held &&
      var t := w.threads[i];
      w' == if t.resource == "" then Move(w, i, t.(phase := WantSlot))
            else Move(w, i, t.(phase := WantSlot, lock := true)).(held := w.held + {t.resource})
    case GiveUpResource(i) =>
      At(w, i, WantResource) && w.threads[i].resource != "" && w.threads[i].id in w.mem.cancelled
      && w' == Move(w, i, w.threads[i].(phase := Returned(GAVE_UP)))
    case TakeSlot(i) =>
      At(w, i, WantSlot) && w.slots < w.limits.maxConcurrent
      && w' == Move(w, i, w.threads[i].(phase := Admitted, slot := true)).(slots := w.slots + 1)
    case GiveUpSlot(i) =>
      At(w, i, WantSlot) && w.threads[i].id in w.mem.cancelled
      && w' == Move(w, i, w.threads[i].(phase := Returned(GAVE_UP)))
    case Invoke(i) =>
      At(w, i, Marked)
      && w' == Move(w, i, w.threads[i].(phase := InFn)).(invoked := w.invoked + multiset{w.threads[i].id})
    case Return(i, outcome) =>
      At(w, i, InFn) && w' == Move(w, i, w.threads[i].(phase := Returned(outcome)))
    case FreeSlot(i) =>
      At(w, i, Closing) && w.threads[i].slot && w.slots > 0
      && w' == Move(w, i, w.threads[i].(slot := false)).(slots := w.slots - 1)
    case FreeResource(i) =>
      At(w, i, Closing) && !w.threads[i].slot && w.threads[i].lock
      && w' == Move(w, i, w.threads[i].(lock := false)).(held := w.held - {w.threads[i].resource})
    case Exit(i) =>
      At(w, i, Closing) && !w.threads[i].slot && !w.threads[i].lock
      && w' == Move(w, i, w.threads[i].(phase := Gone))
    case Crash =>
      w' == Down(w, w.store)
    case CrashIn(i, op, m, es, k) =>
      MayRun(w, i, op) && Does(w.limits, w.mem, op, m, es) && k <= |es|
      && w' == Down(AfterLocked(w, i, op, m, es), ApplyAll(w.store, es[..k]))
    case Boot(t, now, m, es, lost) =>
      !w.up && now != 0 && Recovers(w.limits, w.store, t, now, m, es, lost)
      && w' == w.(up := true, mem := m, stale := lost, store := ApplyAll(w.store, es))
    case CrashInBoot(t, now, m, es, lost, k) =>
      !w.up && now != 0 && Recovers(w.limits, w.store, t, now, m, es, lost) && k <= |es|
      && w' == w.(store := ApplyAll(w.store, es[..k]))
  }

  /** Before the first boot: any store, its jobs known. */
  ghost predicate Initial(w: World) {
    && w.limits.maxConcurrent > 0
    && w == World(w.limits, false, EMPTY_MEM, [], {}, 0, {}, w.store, w.used, map[], multiset{})
    && StoreOk(w)
  }

  ghost predicate StoreOk(w: World) {
    forall id :: Recorded(w.store, id).Some? ==> id in w.used
  }

  ghost predicate Run(ws: seq<World>, acts: seq<Action>) {
    && |ws| == |acts| + 1
    && Initial(ws[0])
    && forall i {:trigger StepOf(ws, acts, i)} :: 0 <= i < |acts| ==> StepOf(ws, acts, i)
  }

  ghost predicate StepOf(ws: seq<World>, acts: seq<Action>, i: nat)
    requires i < |acts| < |ws|
  {
    Next(ws[i], acts[i], ws[i + 1])
  }
}
