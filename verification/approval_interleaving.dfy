/** Requests served at the same time: their ticket operations interleave in any order, each under
    the manager's lock. */
module ApprovalInterleaving {
  import opened Options
  import opened Text
  import opened CanonicalJson
  import opened ApprovalTickets
  import opened ApprovalHistory
  import opened ApprovalGate
  import opened ApprovalPromises

  /** A request with the clock readings and the ticket identifier it is given. */
  datatype Arrival = Arrival(request: Request, clocks: Clocks, freshId: string)

  /** The ticket operation a handler performs next, after those in `mine`. */
  function HandlerOp(a: Arrival, mine: History): Option<Event> {
    if !(DECISIONS <= a.request.path) then None
    else
      match VerdictOf(a.request)
      case None => None
      case Some(Verdict(id, approve)) =>
        if mine == [] then Some(Decide(id, approve, a.clocks.decided, a.clocks.again))
        else if |mine| == 1 && !mine[0].granted then Some(Lookup(id, a.clocks.again))
        else None
  }

  /** The ticket operation a request performs next, after its operations in `mine`, which record
      how each was answered. */
  function NextOp(policy: Policy, a: Arrival, mine: History): Option<Event> {
    var r, op, id := a.request, Resolve(policy, a.request), TrimSpace(a.request.approvalHeader);
    if policy.readOnly && !policy.allowedReadOnly(r.verb, r.path) then None
    else if !RequiresApproval(policy, op) then HandlerOp(a, mine)
    else if id == "" then
      if mine == []
      then Some(Create(r.requestId, op, BindingFor(policy, r), a.clocks.pruned, a.clocks.created, a.freshId))
      else None
    else if mine == [] then Some(Consume(id, BindingFor(policy, r), a.clocks.checked))
    else if mine[0].granted then HandlerOp(a, mine[1..])
    else if |mine| == 1 then Some(Lookup(id, a.clocks.again))
    else None
  }

  /** What happened: operation `p` was performed by request `who[p]`. */
  datatype Traffic = Traffic(requests: seq<Arrival>, who: seq<nat>, history: History)

  /** The operations of one request among the first `n`. */
  function Mine(who: seq<nat>, h: History, r: nat, n: nat): History
    requires n <= |h| == |who|
  {
    if n == 0 then [] else Mine(who, h, r, n - 1) + if who[n - 1] == r then [h[n - 1]] else []
  }

  predicate PerformsNext(policy: Policy, c: Traffic, p: nat)
    requires |c.who| == |c.history| && p < |c.who|
  {
    && c.who[p] < |c.requests|
    && NextOp(policy, c.requests[c.who[p]], Mine(c.who, c.history, c.who[p], p)) == Some(c.history[p].event)
  }

  /** Every operation is the next one of some request and was answered by the manager in the state
      that all earlier ones left, whoever performed them. */
  ghost predicate Interleaved(policy: Policy, ttl: Time, c: Traffic) {
    && |c.who| == |c.history| && Honest(c.history, ttl)
    && forall p {:trigger PerformsNext(policy, c, p)} :: 0 <= p < |c.who| ==> PerformsNext(policy, c, p)
  }

  function RequestOf(c: Traffic, p: nat): Arrival
    requires p < |c.who| && c.who[p] < |c.requests|
  {
    c.requests[c.who[p]]
  }

  /** What an operation says about the request that performed it. */
  lemma OperationTellsRequest(policy: Policy, ttl: Time, c: Traffic, p: nat)
    requires Interleaved(policy, ttl, c) && p < |c.who|
    ensures c.who[p] < |c.requests|
    ensures var a, e := RequestOf(c, p), c.history[p].event;
      && (e.Create? ==> e.binding == BindingFor(policy, a.request) && e.at == a.clocks.created)
      && (e.Consume? ==>
            && e.id == TrimSpace(a.request.approvalHeader) && e.wanted == BindingFor(policy, a.request)
            && e.at == a.clocks.checked && RequiresApproval(policy, Resolve(policy, a.request))
            && Mine(c.who, c.history, c.who[p], p) == [])
      && (e.Decide? ==> VerdictOf(a.request) == Some(Verdict(e.id, e.approve)))
  {
    assert PerformsNext(policy, c, p);
  }

  /** The request had to have a ticket and has used up this one: it goes on to its handler. */
  predicate ReachesHandler(policy: Policy, c: Traffic, r: nat, id: string)
    requires |c.who| == |c.history|
  {
    && r < |c.requests| && RequiresApproval(policy, Resolve(policy, c.requests[r].request))
    && var mine := Mine(c.who, c.history, r, |c.history|);
       mine != [] && mine[0].granted && mine[0].event.Consume? && mine[0].event.id == id
  }

  /** The request has passed the gate: at once, or by using up a ticket. */
  predicate PassesGate(policy: Policy, c: Traffic, r: nat)
    requires |c.who| == |c.history| && r < |c.requests|
  {
    var request := c.requests[r].request;
    var mine := Mine(c.who, c.history, r, |c.history|);
    && !(policy.readOnly && !policy.allowedReadOnly(request.verb, request.path))
    && (RequiresApproval(policy, Resolve(policy, request)) ==> mine != [] && mine[0].event.Consume? && mine[0].granted)
  }

  /** When a request needs the user, among concurrent ones as in a sequence: then it passes the gate exactly
      by using up a ticket, and otherwise without any. */
  lemma GateFollowsMode(policy: Policy, ttl: Time, c: Traffic, r: nat)
    requires Interleaved(policy, ttl, c) && r < |c.requests|
    ensures var request := c.requests[r].request;
      var op := policy.resolve(request.verb, request.path, request.body);
      var shut := policy.readOnly && !policy.allowedReadOnly(request.verb, request.path);
      var needs := op.name != "approval.decision"
                   && match policy.mode
                      case AllWrite => op.risk == Write || op.risk == Sensitive
                      case SensitiveOnly => op.risk == Sensitive
                      case Off => false;
      && (PassesGate(policy, c, r) <==> !shut && (needs ==> exists id :: ReachesHandler(policy, c, r, id)))
      && (!needs ==> forall p :: 0 <= p < |c.who| && c.who[p] == r ==>
                       !c.history[p].event.Create? && !c.history[p].event.Consume?)
  {
    var mine := Mine(c.who, c.history, r, |c.history|);
    if PassesGate(policy, c, r) && RequiresApproval(policy, Resolve(policy, c.requests[r].request)) {
      assert ReachesHandler(policy, c, r, mine[0].event.id);
    }
    forall p | 0 <= p < |c.who| && c.who[p] == r
      ensures c.history[p].event.Create? || c.history[p].event.Consume? ==>
                RequiresApproval(policy, Resolve(policy, c.requests[r].request))
    {
      assert PerformsNext(policy, c, p);
    }
  }

  lemma {:induction false} FirstOfMine(who: seq<nat>, h: History, r: nat, n: nat) returns (p: nat)
    requires n <= |h| == |who| && Mine(who, h, r, n) != []
    ensures p < n && who[p] == r && h[p] == Mine(who, h, r, n)[0]
  {
    if Mine(who, h, r, n - 1) != [] {
      p := FirstOfMine(who, h, r, n - 1);
    } else {
      p := n - 1;
    }
  }

  /** However requests interleave, no two of them reach their handlers with one ticket. */
  lemma OneHandlerPerTicket(policy: Policy, ttl: Time, c: Traffic, r: nat, s: nat, id: string)
    requires Interleaved(policy, ttl, c) && FreshIds(c.history)
    requires ReachesHandler(policy, c, r, id) && ReachesHandler(policy, c, s, id)
    ensures r == s
  {
    var p := FirstOfMine(c.who, c.history, r, |c.history|);
    var q := FirstOfMine(c.who, c.history, s, |c.history|);
    if p < q {
      ConsumedAtMostOnce(c.history, ttl, p, q, id);
    } else if q < p {
      ConsumedAtMostOnce(c.history, ttl, q, p, id);
    }
  }

  /** What using up a ticket amounts to: the request names it, needs it, and goes on to its handler; and so
      does no request in another way. */
  lemma ConsumersReachHandlers(policy: Policy, ttl: Time, c: Traffic, r: nat, id: string)
    requires Interleaved(policy, ttl, c)
    ensures ReachesHandler(policy, c, r, id) <==> exists p :: 0 <= p < |c.who| && c.who[p] == r && Consumes(c.history, p, id)
  {
    if ReachesHandler(policy, c, r, id) {
      var p := FirstOfMine(c.who, c.history, r, |c.history|);
      assert Consumes(c.history, p, id);
    }
    if p :| 0 <= p < |c.who| && c.who[p] == r && Consumes(c.history, p, id) {
      OperationTellsRequest(policy, ttl, c, p);
      assert Mine(c.who, c.history, r, p + 1) == [c.history[p]];
      MineGrows(c.who, c.history, r, p + 1, |c.history|);
    }
  }

  lemma {:induction false} MineGrows(who: seq<nat>, h: History, r: nat, m: nat, n: nat)
    requires m <= n <= |h| == |who|
    ensures Mine(who, h, r, m) <= Mine(who, h, r, n)
  {
    if m < n {
      MineGrows(who, h, r, m, n - 1);
    }
  }

  /** A request that uses up a ticket was asked for by a request with the same method, path and
      operation and a body hashed alike, was approved in between by a request that carried that
      decision, was never denied or used before, and is in time: whatever else ran meanwhile. */
  lemma ConcurrentRunIsApproved(policy: Policy, ttl: Time, c: Traffic, q: nat, id: string) returns (asked: nat, approved: nat)
    requires Interleaved(policy, ttl, c) && FreshIds(c.history) && q < |c.who| && Consumes(c.history, q, id)
    ensures asked < approved < q && c.who[asked] < |c.requests| && c.who[approved] < |c.requests| && c.who[q] < |c.requests|
    ensures Creates(c.history, asked, id) && Decides(c.history, approved, id, true)
    ensures var a, b, d := RequestOf(c, asked).request, RequestOf(c, q).request, RequestOf(c, approved).request;
      && a.verb == b.verb && a.path == b.path && Resolve(policy, a).name == Resolve(policy, b).name
      && HashedAlike(a.body, b.body)
      && VerdictOf(d) == Some(Verdict(id, true)) && id == TrimSpace(b.approvalHeader)
    ensures RequestOf(c, q).clocks.checked < RequestOf(c, asked).clocks.created + ttl
    ensures forall p :: asked < p < q ==> !Decides(c.history, p, id, false) && !Consumes(c.history, p, id)
  {
    var h := c.history;
    GrantNeedsTicket(h, ttl, q);
    asked := CreationExists(h, ttl, q, id);
    GrantMeansEntitled(h, ttl, asked, q);
    approved :| asked < approved < q && Decides(h, approved, id, true);
    OperationTellsRequest(policy, ttl, c, asked);
    OperationTellsRequest(policy, ttl, c, approved);
    OperationTellsRequest(policy, ttl, c, q);
    BindingIsSharedExactly(policy, RequestOf(c, asked).request, RequestOf(c, q).request);
  }

  // ---------- one request after the other ----------

  function ArrivalOf(x: Exchange): Arrival {
    Arrival(x.request, x.clocks, x.freshId)
  }

  /** Serving a request performs its operations one by one and leaves none out. */
  lemma ServeFollowsNextOp(policy: Policy, ttl: Time, ts: Tickets, a: Arrival)
    ensures var es := Serve(policy, ttl, ts, a.request, a.clocks, a.freshId).entries;
      && (forall i :: 0 <= i < |es| ==> NextOp(policy, a, es[..i]) == Some(es[i].event))
      && NextOp(policy, a, es) == None
  {
    var r, id := a.request, TrimSpace(a.request.approvalHeader);
    if policy.readOnly && !policy.allowedReadOnly(r.verb, r.path) {
    } else if !RequiresApproval(policy, Resolve(policy, r)) {
      HandleFollowsHandlerOp(ts, a, None);
    } else if id != "" {
      var consumed := Consumed(ts, id, BindingFor(policy, r), a.clocks.checked);
      if consumed.outcome.Granted? {
        var es, more := Serve(policy, ttl, ts, r, a.clocks, a.freshId).entries, Handle(consumed.tickets, r, a.clocks, Some(id)).entries;
        HandleFollowsHandlerOp(consumed.tickets, a, Some(id));
        assert es[1..] == more;
        forall i | 0 < i < |es|
          ensures NextOp(policy, a, es[..i]) == Some(es[i].event)
        {
          assert es[..i][1..] == more[..i - 1];
        }
      }
    }
  }

  lemma HandleFollowsHandlerOp(ts: Tickets, a: Arrival, used: Option<string>)
    ensures var es := Handle(ts, a.request, a.clocks, used).entries;
      && (forall i :: 0 <= i < |es| ==> HandlerOp(a, es[..i]) == Some(es[i].event))
      && HandlerOp(a, es) == None
  {
  }

  /** Who performed the operations of the first `n` exchanges. */
  function Serially(log: Log, n: nat): (who: seq<nat>)
    requires n <= |log|
    ensures |who| == |HistoryOf(log, n)| && forall r :: r in who ==> r < n
  {
    if n == 0 then [] else Serially(log, n - 1) + seq(|log[n - 1].entries|, _ => n - 1)
  }

  lemma {:induction false} NothingOfMine(who: seq<nat>, h: History, r: nat, n: nat)
    requires n <= |h| == |who| && forall p :: 0 <= p < n ==> who[p] != r
    ensures Mine(who, h, r, n) == []
  {
    if n > 0 {
      NothingOfMine(who, h, r, n - 1);
    }
  }

  lemma {:induction false} MineInARow(who: seq<nat>, h: History, r: nat, from: nat, i: nat)
    requires from + i <= |h| == |who|
    requires (forall p :: 0 <= p < from ==> who[p] != r) && forall p :: from <= p < from + i ==> who[p] == r
    ensures Mine(who, h, r, from + i) == h[from..from + i]
  {
    if i == 0 {
      NothingOfMine(who, h, r, from);
    } else {
      MineInARow(who, h, r, from, i - 1);
    }
  }

  lemma {:induction false} SeriallyExtends(log: Log, m: nat, n: nat)
    requires m <= n <= |log|
    ensures Serially(log, m) <= Serially(log, n) && HistoryOf(log, m) <= HistoryOf(log, n)
  {
    if m < n {
      SeriallyExtends(log, m, n - 1);
    }
  }

  function Arrivals(log: Log): (requests: seq<Arrival>)
    ensures |requests| == |log| && forall n :: 0 <= n < |log| ==> requests[n] == ArrivalOf(log[n])
  {
    seq(|log|, n requires 0 <= n < |log| => ArrivalOf(log[n]))
  }

  function SerialTraffic(log: Log): Traffic {
    Traffic(Arrivals(log), Serially(log, |log|), HistoryOf(log, |log|))
  }

  /** Requests served one after the other are one way to interleave them. */
  lemma SerialIsInterleaved(policy: Policy, ttl: Time, log: Log)
    requires Genuine(policy, ttl, log)
    ensures Interleaved(policy, ttl, SerialTraffic(log))
  {
    HistoryIsHonest(policy, ttl, log, |log|);
    forall p | 0 <= p < |HistoryOf(log, |log|)|
      ensures PerformsNext(policy, SerialTraffic(log), p)
    {
      SerialPerformsNext(policy, ttl, log, p);
    }
  }

  lemma SerialPerformsNext(policy: Policy, ttl: Time, log: Log, p: nat)
    requires Genuine(policy, ttl, log) && p < |HistoryOf(log, |log|)|
    ensures PerformsNext(policy, SerialTraffic(log), p)
  {
    var m, i := OperationHasRequest(log, |log|, p);
    SerialStep(policy, ttl, log, m, i);
  }

  /** In the serial order a request's operations stand in a row. */
  lemma SerialPlaces(log: Log, m: nat, p: nat)
    requires m < |log| && p < |HistoryOf(log, |log|)|
    ensures p < |HistoryOf(log, m)| ==> Serially(log, |log|)[p] != m
    ensures |HistoryOf(log, m)| <= p < |HistoryOf(log, m)| + |log[m].entries| ==>
              Serially(log, |log|)[p] == m && HistoryOf(log, |log|)[p] == log[m].entries[p - |HistoryOf(log, m)|]
  {
    if p < |HistoryOf(log, m)| {
      SeriallyExtends(log, m, |log|);
      assert Serially(log, |log|)[p] == Serially(log, m)[p] && Serially(log, m)[p] in Serially(log, m);
    } else if p < |HistoryOf(log, m)| + |log[m].entries| {
      SeriallyExtends(log, m + 1, |log|);
      SerialStepPlaces(log, m, p - |HistoryOf(log, m)|);
    }
  }

  lemma SerialStepPlaces(log: Log, m: nat, i: nat)
    requires m < |log| && i < |log[m].entries|
    ensures var p := |HistoryOf(log, m)| + i;
      p < |HistoryOf(log, m + 1)| && Serially(log, m + 1)[p] == m && HistoryOf(log, m + 1)[p] == log[m].entries[i]
  {
  }

  lemma SerialPast(log: Log, m: nat, i: nat)
    requires m < |log| && i < |log[m].entries|
    ensures |HistoryOf(log, m)| + i < |HistoryOf(log, |log|)|
    ensures Mine(Serially(log, |log|), HistoryOf(log, |log|), m, |HistoryOf(log, m)| + i) == log[m].entries[..i]
  {
    var h, who, from := HistoryOf(log, |log|), Serially(log, |log|), |HistoryOf(log, m)|;
    SeriallyExtends(log, m + 1, |log|);
    forall p | 0 <= p < from + i
      ensures p < from ==> who[p] != m
      ensures p >= from ==> who[p] == m && h[p] == log[m].entries[p - from]
    {
      SerialPlaces(log, m, p);
    }
    MineInARow(who, h, m, from, i);
    assert h[from..from + i] == log[m].entries[..i];
  }

  lemma ExchangeFollowsNextOp(policy: Policy, ttl: Time, log: Log, m: nat, i: nat)
    requires Genuine(policy, ttl, log) && m < |log| && i < |log[m].entries|
    ensures NextOp(policy, ArrivalOf(log[m]), log[m].entries[..i]) == Some(log[m].entries[i].event)
  {
    assert GenuineAt(policy, ttl, log, m);
    var before := HistoryOf(log, m);
    ServeFollowsNextOp(policy, ttl, TicketsAt(before, ttl, |before|), ArrivalOf(log[m]));
  }

  lemma SerialStep(policy: Policy, ttl: Time, log: Log, m: nat, i: nat)
    requires Genuine(policy, ttl, log) && m < |log| && i < |log[m].entries|
    ensures var h, who, p := HistoryOf(log, |log|), Serially(log, |log|), |HistoryOf(log, m)| + i;
      p < |h| && who[p] == m && NextOp(policy, ArrivalOf(log[m]), Mine(who, h, m, p)) == Some(h[p].event)
  {
    SerialPast(log, m, i);
    SerialPlaces(log, m, |HistoryOf(log, m)| + i);
    ExchangeFollowsNextOp(policy, ttl, log, m, i);
  }
}
