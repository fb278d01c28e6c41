/** Credentials over any history of starts, rotations, failed writes and crashes, whether the agent
    began with a token file or only with a stored hash. */
module TokenHistory {
  import opened Options
  import opened TokenStore
  import opened TokenRotation

  // ---------- histories ----------

  /** The disk, and the agent if one is running. */
  datatype Machine = Machine(files: Files, running: Option<Runtime>)

  /** A `Cut` event is a crash after the event's k-th disk state. */
  datatype Event =
    | Boot(start: StartPlan)
    | BootCut(start: StartPlan, k: nat)
    | Rotate(bearer: string, token: string, plan: Plan)
    | RotateCut(bearer: string, token: string, plan: Plan, k: nat)
    | Stop

  /** The start-up of an agent: load the config, reconcile, take its hash as the active one. */
  function Started(f: Files, plan: StartPlan): StartCourse
    requires f.config.Some?
  {
    CourseOfStart(f, f.config.value.cfg, plan)
  }

  function Turn(m: Machine, e: Event): RotationCourse
    requires (e.Rotate? || e.RotateCut?) && m.running.Some?
  {
    CourseOfRotation(m.files, m.running.value, e.bearer, e.token, e.plan)
  }

  ghost predicate Happens(m: Machine, e: Event, n: Machine) {
    match e
    case Boot(plan) =>
      && m.running.None? && m.files.config.Some?
      && var c := Started(m.files, plan);
         n == Machine(Last(c.states), if c.result.StartFailed? then None else Some(Runtime(Trimmed(c.cfg.hash), c.cfg)))
    case BootCut(plan, k) =>
      && m.running.None? && m.files.config.Some?
      && k < |Started(m.files, plan).states|
      && n == Machine(Started(m.files, plan).states[k], None)
    case Rotate(_, _, _) =>
      && m.running.Some?
      && n == Machine(Last(Turn(m, e).states), Some(Turn(m, e).runtime))
    case RotateCut(_, _, _, k) =>
      && m.running.Some?
      && k < |Turn(m, e).states|
      && n == Machine(Turn(m, e).states[k], None)
    case Stop =>
      n == m.(running := None)
  }

  ghost predicate StepOf(ms: seq<Machine>, es: seq<Event>, i: nat)
    requires |ms| == |es| + 1 && i < |es|
  {
    Happens(ms[i], es[i], ms[i + 1])
  }

  /** A history: an agent that is down, a config file, and a run of events. */
  ghost predicate Run(ms: seq<Machine>, es: seq<Event>) {
    && |ms| == |es| + 1
    && ms[0].running.None? && ms[0].files.config.Some?
    && forall i {:trigger StepOf(ms, es, i)} :: 0 <= i < |es| ==> StepOf(ms, es, i)
  }

  predicate Commits(m: Machine, e: Event) {
    e.Rotate? && m.running.Some? && Turn(m, e).result.Rotated?
  }

  predicate NeedsRecovery(m: Machine, e: Event) {
    e.Rotate? && m.running.Some? && Turn(m, e).result == RotationFailed(RecoveryRequired)
  }

  // ---------- one event ----------

  /** An update, wherever it is cut off, leaves the standing hash as it was or makes it the new token's. */
  lemma UpdateStanding(f: Files, cfg: Config, token: string, g: Files)
    requires f.config.Some? && MidUpdate(f, cfg, token, g)
    ensures g.config.Some? && (Standing(g) == Standing(f) || Standing(g) == HashToken(token))
  {
  }

  /** So does a start, which never changes it at all. */
  lemma StartStanding(f: Files, plan: StartPlan, k: nat)
    requires f.config.Some? && k < |Started(f, plan).states|
    ensures var g := Started(f, plan).states[k];
      && g.config.Some? && Standing(g) == Standing(f)
      && (TokenInForce(g, g.config.value.cfg.hash).Found? <==> TokenInForce(f, f.config.value.cfg.hash).Found?)
      && (ReadToken(f).Found? ==> ReadToken(g) == ReadToken(f))
      && (Startable(g) <==> Startable(f))
      && (f.config.value.cfg.hash == Standing(f) ==> g.config.value.cfg.hash == Standing(f))
  {
    StartCrashPoints(f, f.config.value.cfg, plan, k);
    OldTokenReadsBack(f);
  }

  /** The hash a start makes active is the standing one, and a token it activates is on disk. */
  lemma StartActive(f: Files, plan: StartPlan)
    requires f.config.Some? && !Started(f, plan).result.StartFailed?
    ensures var c := Started(f, plan);
      && Startable(f) && Trimmed(c.cfg.hash) == Standing(f) == Standing(Last(c.states))
      && Last(c.states).config.Some? && Trimmed(Last(c.states).config.value.cfg.hash) == Standing(f)
      && (c.result.Active? ==>
            && ReadToken(Last(c.states)) == Found(c.result.token)
            && c.cfg.hash == Last(c.states).config.value.cfg.hash == HashToken(c.result.token))
      && (c.result.HashOnly? ==> c.states == [f] && ReadToken(f).Missing?)
  {
    StartReconciles(f, f.config.value.cfg, plan);
    StartStanding(f, plan, |Started(f, plan).states| - 1);
  }

  // ---------- what a history adds up to ----------

  /** `holder` is the hash the running agent accepts, `possible` the hashes the next start may make
      active, `clean` says that disk and agent agree. */
  datatype Ledger = Ledger(holder: Option<HashText>, possible: set<HashText>, clean: bool)

  function Booked(l: Ledger, m: Machine, e: Event): Ledger {
    match e
    case Boot(plan) =>
      if m.files.config.Some? && !Started(m.files, plan).result.StartFailed?
      then var h := Trimmed(Started(m.files, plan).cfg.hash); Ledger(Some(h), {h}, true)
      else Ledger(None, l.possible, true)
    case BootCut(_, _) => l
    case Rotate(_, token, _) =>
      if Commits(m, e) then Ledger(Some(HashToken(token)), {HashToken(token)}, true)
      else if NeedsRecovery(m, e) then Ledger(l.holder, l.possible + {HashToken(token)}, false)
      else l
    case RotateCut(_, token, _, _) => Ledger(None, l.possible + {HashToken(token)}, true)
    case Stop => Ledger(None, l.possible, true)
  }

  function LedgerAt(ms: seq<Machine>, es: seq<Event>, n: nat): Ledger
    requires |ms| == |es| + 1 && n <= |es| && ms[0].files.config.Some?
  {
    if n == 0 then Ledger(None, {Standing(ms[0].files)}, true)
    else Booked(LedgerAt(ms, es, n - 1), ms[n - 1], es[n - 1])
  }

  /** What the files say and what the agent accepts are what the ledger says. */
  ghost predicate InOrder(m: Machine, l: Ledger, startable: bool) {
    && m.files.config.Some? && Standing(m.files) in l.possible
    && (Startable(m.files) <==> startable) && (m.running.Some? ==> startable)
    && (l.holder.Some? <==> m.running.Some?)
    && (m.running.Some? ==>
          && m.running.value.active == l.holder.value == Trimmed(m.running.value.cfg.hash)
          && l.holder.value in l.possible)
    && (m.running.Some? && l.clean ==>
          && l.possible == {l.holder.value}
          && Trimmed(m.files.config.value.cfg.hash) == l.holder.value)
  }

  lemma BootStaysInOrder(m: Machine, e: Event, n: Machine, l: Ledger, startable: bool)
    requires e.Boot? || e.BootCut?
    requires InOrder(m, l, startable) && Happens(m, e, n)
    ensures InOrder(n, Booked(l, m, e), startable)
  {
    var states := Started(m.files, e.start).states;
    StartStanding(m.files, e.start, if e.BootCut? then e.k else |states| - 1);
    if e.Boot? && !Started(m.files, e.start).result.StartFailed? {
      StartActive(m.files, e.start);
    }
  }

  lemma RotationStaysInOrder(m: Machine, e: Event, n: Machine, l: Ledger, startable: bool)
    requires e.Rotate? || e.RotateCut?
    requires InOrder(m, l, startable) && Happens(m, e, n)
    ensures InOrder(n, Booked(l, m, e), startable)
  {
    if m.running.value.active == HashToken(e.bearer) {
      if e.RotateCut? {
        CutRotationStaysInOrder(m, e, n, l, startable);
      } else {
        EndedRotationStaysInOrder(m, e, n, l, startable);
      }
    }
  }

  lemma CutRotationStaysInOrder(m: Machine, e: Event, n: Machine, l: Ledger, startable: bool)
    requires e.RotateCut?
    requires InOrder(m, l, startable) && Happens(m, e, n) && m.running.value.active == HashToken(e.bearer)
    ensures InOrder(n, Booked(l, m, e), startable)
  {
    UpdateStays(m.files, m.running.value.cfg, e.token, e.plan, e.k);
  }

  lemma EndedRotationStaysInOrder(m: Machine, e: Event, n: Machine, l: Ledger, startable: bool)
    requires e.Rotate?
    requires InOrder(m, l, startable) && Happens(m, e, n) && m.running.value.active == HashToken(e.bearer)
    ensures InOrder(n, Booked(l, m, e), startable)
  {
    UpdateStays(m.files, m.running.value.cfg, e.token, e.plan, |Turn(m, e).states| - 1);
    RotationOutcome(m.files, m.running.value, e.bearer, e.token, e.plan);
    TurnInOrder(m, n, l, startable, e.token, Turn(m, e));
  }

  /** An ended rotation that meets `RotationOutcome` and leaves a possible standing hash. */
  lemma TurnInOrder(m: Machine, n: Machine, l: Ledger, startable: bool, token: string, c: RotationCourse)
    requires InOrder(m, l, startable) && m.running.Some?
    requires c.states != [] && n == Machine(Last(c.states), Some(c.runtime))
    requires n.files.config.Some? && n.files.legacy == m.files.legacy && (startable ==> Startable(n.files))
    requires Standing(n.files) == Standing(m.files) || Standing(n.files) == HashToken(token)
    requires c.result.Rotated? ==>
      && c.runtime.active == c.runtime.cfg.hash == HashToken(token)
      && ReadToken(n.files) == Found(token) && n.files.config == Some(Saved(c.runtime.cfg))
    requires !c.result.Rotated? ==> c.runtime == m.running.value
    requires !c.result.Rotated? && c.result != RotationFailed(RecoveryRequired) ==>
      ReadToken(n.files) == ReadToken(m.files) && n.files.config == m.files.config
    ensures InOrder(n, if c.result.Rotated? then Ledger(Some(HashToken(token)), {HashToken(token)}, true)
                       else if c.result == RotationFailed(RecoveryRequired)
                       then Ledger(l.holder, l.possible + {HashToken(token)}, false) else l, startable)
  {
  }

  lemma UpdateStays(f: Files, cfg: Config, token: string, plan: Plan, k: nat)
    requires f.config.Some? && k < |CourseOfUpdate(f, cfg, token, plan).states|
    ensures var g := CourseOfUpdate(f, cfg, token, plan).states[k];
      && g.config.Some? && g.legacy == f.legacy && (Standing(g) == Standing(f) || Standing(g) == HashToken(token))
      && (Startable(f) ==> Startable(g))
  {
    UpdateCrashPoints(f, cfg, token, plan, k);
    UpdateStanding(f, cfg, token, CourseOfUpdate(f, cfg, token, plan).states[k]);
    if Startable(f) {
      UpdateStaysStartable(f, cfg, token, plan, k);
    }
  }

  lemma UpdateStaysStartable(f: Files, cfg: Config, token: string, plan: Plan, k: nat)
    requires Startable(f) && k < |CourseOfUpdate(f, cfg, token, plan).states|
    ensures Startable(CourseOfUpdate(f, cfg, token, plan).states[k])
  {
    UpdateCrashPoints(f, cfg, token, plan, k);
    if ValidToken(token) {
      WrittenTokenReadsBack(f, token);
    }
  }

  lemma {:induction false} RunStaysInOrder(ms: seq<Machine>, es: seq<Event>, n: nat)
    requires Run(ms, es) && n <= |es|
    ensures InOrder(ms[n], LedgerAt(ms, es, n), Startable(ms[0].files))
  {
    if n > 0 {
      RunStaysInOrder(ms, es, n - 1);
      var l := LedgerAt(ms, es, n - 1);
      assert StepOf(ms, es, n - 1);
      if es[n - 1].Boot? || es[n - 1].BootCut? {
        BootStaysInOrder(ms[n - 1], es[n - 1], ms[n], l, Startable(ms[0].files));
      } else if es[n - 1].Rotate? || es[n - 1].RotateCut? {
        RotationStaysInOrder(ms[n - 1], es[n - 1], ms[n], l, Startable(ms[0].files));
      }
    }
  }

  // ---------- surviving crashes ----------

  /** After any history, crashes and failed writes included, the next successful start accepts one of
      the possible hashes, and a token it activates is in the token file with its hash in the config
      file. Without faults a start succeeds exactly when the very first one would have. */
  lemma CredentialsSurviveCrashes(ms: seq<Machine>, es: seq<Event>, n: nat, plan: StartPlan)
    requires Run(ms, es) && n <= |es|
    ensures ms[n].files.config.Some?
    ensures Started(ms[n].files, FAULTLESS).result.StartFailed? <==> !Startable(ms[0].files)
    ensures var c := Started(ms[n].files, plan);
      !c.result.StartFailed? ==>
        && Trimmed(c.cfg.hash) in LedgerAt(ms, es, n).possible
        && (c.result.Active? ==>
              && ReadToken(Last(c.states)) == Found(c.result.token) && Last(c.states).config.Some?
              && c.cfg.hash == Last(c.states).config.value.cfg.hash == HashToken(c.result.token))
        && (c.result.HashOnly? ==> c.states == [ms[n].files] && ReadToken(ms[n].files).Missing?)
  {
    RunStaysInOrder(ms, es, n);
    StartActivates(ms[n].files, ms[n].files.config.value.cfg);
    if !Started(ms[n].files, plan).result.StartFailed? {
      StartActive(ms[n].files, plan);
    }
  }

  /** An update that is cut off, or needs recovery, leaves only the accepted and the new hash possible. */
  lemma OldOrNew(ms: seq<Machine>, es: seq<Event>, n: nat)
    requires Run(ms, es) && n < |es| && (es[n].Rotate? || es[n].RotateCut?)
    requires LedgerAt(ms, es, n).clean
    ensures LedgerAt(ms, es, n).holder.Some?
    ensures LedgerAt(ms, es, n + 1).possible <= {LedgerAt(ms, es, n).holder.value, HashToken(es[n].token)}
  {
    RunStaysInOrder(ms, es, n);
    assert StepOf(ms, es, n);
  }

  /** While no update needed recovery, the active hash, the loaded config and the config file agree, and
      a token file that is there holds the token they stand for. */
  lemma RunningAgentAgrees(ms: seq<Machine>, es: seq<Event>, n: nat)
    requires Run(ms, es) && n <= |es| && ms[n].running.Some? && LedgerAt(ms, es, n).clean
    ensures ms[n].files.config.Some?
    ensures LedgerAt(ms, es, n).holder == Some(ms[n].running.value.active)
    ensures ms[n].running.value.active == Trimmed(ms[n].running.value.cfg.hash)
         == Trimmed(ms[n].files.config.value.cfg.hash)
    ensures ReadToken(ms[n].files).Found? ==> ms[n].running.value.active == HashToken(ReadToken(ms[n].files).token)
  {
    RunStaysInOrder(ms, es, n);
  }

  /** Every committed rotation presented the token whose hash the running agent then accepted. */
  lemma CommitPresentsHolder(ms: seq<Machine>, es: seq<Event>, n: nat)
    requires Run(ms, es) && n < |es| && Commits(ms[n], es[n])
    ensures LedgerAt(ms, es, n).holder == Some(HashToken(es[n].bearer))
    ensures LedgerAt(ms, es, n + 1).holder == Some(HashToken(es[n].token))
  {
    RunStaysInOrder(ms, es, n);
  }

  // ---------- the chain of rotations ----------

  /** Machines joined by events, from any beginning. */
  ghost predicate Linked(ms: seq<Machine>, es: seq<Event>, i: nat, j: nat) {
    |ms| == |es| + 1 && i <= j < |es|
    && forall k {:trigger StepOf(ms, es, k)} :: i <= k < j ==> StepOf(ms, es, k)
  }

  predicate CommitsNothing(m: Machine, e: Event) {
    e.Rotate? && !Commits(m, e)
  }

  /** The agent runs and accepts just this token. */
  predicate Accepts(m: Machine, token: string) {
    m.running.Some? && m.running.value.active == HashToken(token)
  }

  lemma CommitInstalls(m: Machine, e: Event, n: Machine)
    requires Commits(m, e) && Happens(m, e, n)
    ensures Accepts(m, e.bearer) && Accepts(n, e.token) && Installed(n, e.token)
  {
    RotationOutcome(m.files, m.running.value, e.bearer, e.token, e.plan);
  }

  lemma AcceptedStays(m: Machine, e: Event, n: Machine, token: string)
    requires CommitsNothing(m, e) && Happens(m, e, n) && Accepts(m, token)
    ensures Accepts(n, token)
  {
    RotationOutcome(m.files, m.running.value, e.bearer, e.token, e.plan);
  }

  lemma {:induction false} AcceptedLasts(ms: seq<Machine>, es: seq<Event>, i: nat, j: nat, token: string)
    requires Linked(ms, es, i, j) && Accepts(ms[i], token)
    requires forall k {:trigger CommitsNothing(ms[k], es[k])} :: i <= k < j ==> CommitsNothing(ms[k], es[k])
    ensures Accepts(ms[j], token)
    decreases j - i
  {
    if i < j {
      AcceptedLasts(ms, es, i, j - 1, token);
      assert StepOf(ms, es, j - 1) && CommitsNothing(ms[j - 1], es[j - 1]);
      AcceptedStays(ms[j - 1], es[j - 1], ms[j], token);
    }
  }

  /** Rotations form a chain: of two commits in a row, the second presented the token the first
      installed, whatever the agent began with and whatever failed in between. */
  lemma RotationsFormAChain(ms: seq<Machine>, es: seq<Event>, i: nat, j: nat)
    requires Linked(ms, es, i, j) && i < j && Commits(ms[i], es[i]) && Commits(ms[j], es[j])
    requires forall k {:trigger CommitsNothing(ms[k], es[k])} :: i < k < j ==> CommitsNothing(ms[k], es[k])
    ensures es[j].bearer == es[i].token
  {
    assert StepOf(ms, es, i);
    CommitInstalls(ms[i], es[i], ms[i + 1]);
    AcceptedLasts(ms, es, i + 1, j, es[i].token);
    RotationOutcome(ms[j].files, ms[j].running.value, es[j].bearer, es[j].token, es[j].plan);
  }

  /** The event installs nothing and leaves what is stored alone: a stop, a start however it goes, or a
      rotation that fails and needs no recovery. */
  predicate LeavesStored(m: Machine, e: Event) {
    e.Stop? || e.Boot? || e.BootCut? || (e.Rotate? && !Commits(m, e) && !NeedsRecovery(m, e))
  }

  /** The token and its hash are stored, and the agent, if it runs, agrees. */
  predicate Installed(m: Machine, token: string) {
    && ReadToken(m.files) == Found(token)
    && m.files.config.Some? && m.files.config.value.cfg.hash == HashToken(token)
    && (m.running.Some? ==> m.running.value.active == m.running.value.cfg.hash == HashToken(token))
  }

  lemma InstalledStays(m: Machine, e: Event, n: Machine, token: string)
    requires LeavesStored(m, e) && Happens(m, e, n) && Installed(m, token)
    ensures Installed(n, token)
  {
    match e
    case Boot(plan) => InstalledStarts(m.files, plan, |Started(m.files, plan).states| - 1, token);
    case BootCut(plan, k) => InstalledStarts(m.files, plan, k, token);
    case Rotate(_, _, _) => RotationOutcome(m.files, m.running.value, e.bearer, e.token, e.plan);
    case Stop =>
  }

  lemma InstalledStarts(f: Files, plan: StartPlan, k: nat, token: string)
    requires f.config.Some? && k < |Started(f, plan).states|
    requires ReadToken(f) == Found(token) && f.config.value.cfg.hash == HashToken(token)
    ensures Started(f, plan).states[k] == f && Started(f, plan).cfg == f.config.value.cfg
    ensures !Started(f, plan).result.HashOnly?
  {
  }

  lemma {:induction false} InstalledLasts(ms: seq<Machine>, es: seq<Event>, i: nat, j: nat, token: string)
    requires Linked(ms, es, i, j) && Installed(ms[i], token)
    requires forall k {:trigger LeavesStored(ms[k], es[k])} :: i <= k < j ==> LeavesStored(ms[k], es[k])
    ensures Installed(ms[j], token)
    decreases j - i
  {
    if i < j {
      InstalledLasts(ms, es, i, j - 1, token);
      assert StepOf(ms, es, j - 1) && LeavesStored(ms[j - 1], es[j - 1]);
      InstalledStays(ms[j - 1], es[j - 1], ms[j], token);
    }
  }

  /** From a commit on, through stops, starts and failed requests, the token file, the config file and
      the agent, whenever it runs, all stand for the committed token; and the next commit presents it. */
  lemma CommitLastsAcrossRestarts(ms: seq<Machine>, es: seq<Event>, i: nat, j: nat)
    requires Linked(ms, es, i, j) && i < j && Commits(ms[i], es[i])
    requires forall k {:trigger LeavesStored(ms[k], es[k])} :: i < k < j ==> LeavesStored(ms[k], es[k])
    ensures Installed(ms[j], es[i].token)
    ensures Commits(ms[j], es[j]) ==> es[j].bearer == es[i].token
  {
    assert StepOf(ms, es, i);
    CommitInstalls(ms[i], es[i], ms[i + 1]);
    InstalledLasts(ms, es, i + 1, j, es[i].token);
    if Commits(ms[j], es[j]) {
      RotationOutcome(ms[j].files, ms[j].running.value, es[j].bearer, es[j].token, es[j].plan);
    }
  }
}
