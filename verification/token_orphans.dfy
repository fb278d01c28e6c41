/** When an agent is left with a hash whose token nobody holds. */
module TokenOrphans {
  import opened Options
  import opened TokenStore
  import opened TokenRotation
  import opened TokenHistory

  /** The hash that someone is known to hold the token of: the first one, then that of each committed
      token and of each token a start finds on disk. */
  function VouchedAt(ms: seq<Machine>, es: seq<Event>, n: nat): HashText
    requires |ms| == |es| + 1 && n <= |es| && ms[0].files.config.Some?
  {
    if n == 0 then Standing(ms[0].files)
    else Vouched(VouchedAt(ms, es, n - 1), ms[n - 1], es[n - 1])
  }

  function Vouched(v: HashText, m: Machine, e: Event): HashText {
    if Commits(m, e) then HashToken(e.token)
    else if e.Boot? && m.files.config.Some? && Started(m.files, e.start).result.Active?
    then HashToken(Started(m.files, e.start).result.token)
    else v
  }

  /** The next start would accept only a token that is not on disk and that no commit vouched for. */
  predicate Orphaned(f: Files, vouched: HashText) {
    f.config.Some? && !TokenInForce(f, f.config.value.cfg.hash).Found? && Standing(f) != vouched
  }

  /** An update of an agent without a token file that saves the new hash late, cannot restore the config
      and removes the new token. */
  predicate LosesToken(f: Files, token: string, plan: Plan) {
    && ValidToken(token) && plan.writable && plan.readable && ReadToken(f).Missing?
    && plan.tokenWrite.Done? && plan.configSave.Late?
    && plan.restoreConfig.Refused? && !plan.restoreToken.Refused?
  }

  /** The one way to get there: such an update by the token's holder, left at its end. */
  predicate Orphans(m: Machine, e: Event, vouched: HashText) {
    && (e.Rotate? || e.RotateCut?) && m.running.Some? && m.running.value.active == HashToken(e.bearer)
    && LosesToken(m.files, e.token, e.plan) && (e.RotateCut? ==> e.k == 4)
    && HashToken(e.token) != vouched && LegacyToken(m.files, HashToken(e.token)).None?
  }

  /** Without a token file afterwards there was none before, and the config is as it was unless the
      token was lost. */
  lemma TokenlessAfterUpdate(f: Files, cfg: Config, token: string, plan: Plan, k: nat)
    requires k < |CourseOfUpdate(f, cfg, token, plan).states|
    ensures var g := CourseOfUpdate(f, cfg, token, plan).states[k];
      && g.legacy == f.legacy
      && (ReadToken(g).Missing? ==>
            ReadToken(f).Missing? && (g.config == f.config || (LosesToken(f, token, plan) && k == 4)))
      && (LosesToken(f, token, plan) && k == 4 ==>
            ReadToken(g).Missing? && g.config == Some(Saved(cfg.(hash := HashToken(token)))))
    ensures LosesToken(f, token, plan) ==> |CourseOfUpdate(f, cfg, token, plan).states| == 5
                                           && CourseOfUpdate(f, cfg, token, plan).result.UpdateFailed?
  {
    if ValidToken(token) {
      WrittenTokenReadsBack(f, token);
      OldTokenReadsBack(f);
    }
  }

  lemma StartOrphansNothing(m: Machine, e: Event, n: Machine, v: HashText)
    requires e.Boot? || e.BootCut?
    requires Happens(m, e, n) && !Orphaned(m.files, v)
    ensures !Orphaned(n.files, Vouched(v, m, e))
  {
    var states := Started(m.files, e.start).states;
    StartStanding(m.files, e.start, if e.BootCut? then e.k else |states| - 1);
    if e.Boot? && !Started(m.files, e.start).result.StartFailed? {
      StartActive(m.files, e.start);
    }
  }

  lemma UpdateOrphansExactly(m: Machine, e: Event, n: Machine, v: HashText)
    requires e.Rotate? || e.RotateCut?
    requires Happens(m, e, n) && m.files.config.Some? && Startable(m.files) && !Orphaned(m.files, v)
    ensures Orphaned(n.files, Vouched(v, m, e)) <==> Orphans(m, e, v)
  {
    var r := m.running.value;
    if r.active == HashToken(e.bearer) {
      var course := CourseOfUpdate(m.files, r.cfg, e.token, e.plan);
      var k := if e.RotateCut? then e.k else |course.states| - 1;
      assert n.files == course.states[k];
      TokenlessAfterUpdate(m.files, r.cfg, e.token, e.plan, k);
      UpdateStaysStartable(m.files, r.cfg, e.token, e.plan, k);
      CommitIsNotTokenless(m.files, r.cfg, e.token, e.plan);
      TokenlessOrphan(m.files, n.files, e.token, v);
    }
  }

  lemma CommitIsNotTokenless(f: Files, cfg: Config, token: string, plan: Plan)
    ensures var c := CourseOfUpdate(f, cfg, token, plan); c.result.Updated? ==> ReadToken(Last(c.states)) == Found(token)
  {
    UpdateIsAllOrNothing(f, cfg, token, plan);
  }

  /** Orphaning, in terms of what an update left. */
  lemma TokenlessOrphan(f: Files, g: Files, token: string, v: HashText)
    requires f.config.Some? && !Orphaned(f, v) && g.legacy == f.legacy && !ReadToken(g).Invalid?
    requires ReadToken(g).Missing? ==> ReadToken(f).Missing?
    ensures ReadToken(g).Found? ==> forall other :: !Orphaned(g, other)
    ensures g.config == f.config && ReadToken(g).Missing? ==> !Orphaned(g, v)
    ensures g.config.Some? && g.config.value.cfg.hash == HashToken(token) && ReadToken(g).Missing? ==>
              (Orphaned(g, v) <==> HashToken(token) != v && LegacyToken(f, HashToken(token)).None?)
  {
  }

  /** In any history the agent is left with a hash whose token nobody holds exactly by such an update. */
  lemma OrphanedExactly(ms: seq<Machine>, es: seq<Event>, n: nat)
    requires Run(ms, es) && n < |es| && !Orphaned(ms[n].files, VouchedAt(ms, es, n))
    ensures Orphaned(ms[n + 1].files, VouchedAt(ms, es, n + 1)) <==> Orphans(ms[n], es[n], VouchedAt(ms, es, n))
  {
    var v := VouchedAt(ms, es, n);
    RunStaysInOrder(ms, es, n);
    assert StepOf(ms, es, n);
    if es[n].Boot? || es[n].BootCut? {
      StartOrphansNothing(ms[n], es[n], ms[n + 1], v);
    } else if es[n].Rotate? || es[n].RotateCut? {
      UpdateOrphansExactly(ms[n], es[n], ms[n + 1], v);
    }
  }

  /** So an orphaned hash always has such an update behind it; and with a token file there never is one. */
  lemma {:induction false} OrphanHasCause(ms: seq<Machine>, es: seq<Event>, n: nat) returns (i: nat)
    requires Run(ms, es) && n <= |es| && Orphaned(ms[n].files, VouchedAt(ms, es, n))
    ensures i < n && Orphans(ms[i], es[i], VouchedAt(ms, es, i)) && ReadToken(ms[i].files).Missing?
  {
    if Orphaned(ms[n - 1].files, VouchedAt(ms, es, n - 1)) {
      i := OrphanHasCause(ms, es, n - 1);
    } else {
      OrphanedExactly(ms, es, n - 1);
      i := n - 1;
    }
  }

  lemma {:induction false} TokenFileStays(ms: seq<Machine>, es: seq<Event>, n: nat)
    requires Run(ms, es) && n <= |es| && ReadToken(ms[0].files).Found?
    ensures ReadToken(ms[n].files).Found? && !Orphaned(ms[n].files, VouchedAt(ms, es, n))
  {
    if n > 0 {
      TokenFileStays(ms, es, n - 1);
      assert StepOf(ms, es, n - 1);
      TokenFileKept(ms[n - 1], es[n - 1], ms[n]);
    }
  }

  lemma TokenFileKept(m: Machine, e: Event, n: Machine)
    requires Happens(m, e, n) && ReadToken(m.files).Found?
    ensures ReadToken(n.files).Found?
  {
    if e.Boot? || e.BootCut? {
      StartStanding(m.files, e.start, if e.BootCut? then e.k else |Started(m.files, e.start).states| - 1);
    } else if (e.Rotate? || e.RotateCut?) && m.running.value.active == HashToken(e.bearer) {
      var states := CourseOfUpdate(m.files, m.running.value.cfg, e.token, e.plan).states;
      UpdateCrashPoints(m.files, m.running.value.cfg, e.token, e.plan, if e.RotateCut? then e.k else |states| - 1);
    }
  }
}
