/** Every history of ticket operations: what a ticket's state says about its past, and that each
    ticket is consumed at most once. */
module ApprovalHistory {
  import opened Options
  import opened ApprovalTickets

  datatype Event =
    | Create(requestId: string, op: Operation, binding: Binding, prunedAt: Time, at: Time, id: string)
    | Decide(id: string, approve: bool, at: Time, decidedAt: Time)
    | Lookup(id: string, at: Time)
    | Consume(id: string, wanted: Binding, at: Time)

  function Happens(ts: Tickets, ttl: Time, e: Event): Effect {
    match e
    case Create(requestId, op, binding, prunedAt, at, id) => Created(ts, ttl, requestId, op, binding, prunedAt, at, id)
    case Decide(id, approve, at, decidedAt) => Decided(ts, id, approve, at, decidedAt)
    case Lookup(id, at) => LookedUp(ts, id, at)
    case Consume(id, wanted, at) => Consumed(ts, id, wanted, at)
  }

  /** An event and whether it was granted. */
  datatype Entry = Entry(event: Event, granted: bool)

  type History = seq<Entry>

  /** The tickets after the first `n` entries, from an empty table. */
  function TicketsAt(h: History, ttl: Time, n: nat): Tickets
    requires n <= |h|
  {
    if n == 0 then map[] else Happens(TicketsAt(h, ttl, n - 1), ttl, h[n - 1].event).tickets
  }

  predicate HonestAt(h: History, ttl: Time, i: nat)
    requires i < |h|
  {
    h[i].granted <==> Happens(TicketsAt(h, ttl, i), ttl, h[i].event).outcome.Granted?
  }

  /** Each entry records what the manager answered. */
  ghost predicate Honest(h: History, ttl: Time) {
    forall i {:trigger HonestAt(h, ttl, i)} :: 0 <= i < |h| ==> HonestAt(h, ttl, i)
  }

  predicate Creates(h: History, i: nat, id: string)
    requires i < |h|
  {
    h[i].event.Create? && h[i].event.id == id
  }

  predicate Decides(h: History, i: nat, id: string, approve: bool)
    requires i < |h|
  {
    h[i].event.Decide? && h[i].event.id == id && h[i].event.approve == approve && h[i].granted
  }

  predicate Consumes(h: History, i: nat, id: string)
    requires i < |h|
  {
    h[i].event.Consume? && h[i].event.id == id && h[i].granted
  }

  /** Identifiers are never issued twice. */
  ghost predicate FreshIds(h: History) {
    forall i, j, id {:trigger Creates(h, i, id), Creates(h, j, id)} ::
      0 <= i < |h| && 0 <= j < |h| && Creates(h, i, id) && Creates(h, j, id) ==> i == j
  }

  // ---------- a ticket's past ----------

  /** The event reads the clock for this ticket, by pruning or access, and finds it past `expiry`. */
  predicate FindsExpired(e: Event, id: string, expiry: Time) {
    if e.Create? then expiry <= e.prunedAt else e.id == id && expiry <= e.at
  }

  ghost predicate EverConsumed(h: History, c: nat, n: nat, id: string)
    requires n <= |h|
  {
    exists i {:trigger Consumes(h, i, id)} :: c < i < n && Consumes(h, i, id)
  }

  ghost predicate EverDecided(h: History, c: nat, n: nat, id: string, approve: bool)
    requires n <= |h|
  {
    exists i {:trigger Decides(h, i, id, approve)} :: c < i < n && Decides(h, i, id, approve)
  }

  ghost predicate EverExpired(h: History, c: nat, n: nat, id: string, expiry: Time)
    requires n <= |h|
  {
    exists i {:trigger FindsExpired(h[i].event, id, expiry)} :: c < i < n && FindsExpired(h[i].event, id, expiry)
  }

  /** The state a ticket's past adds up to: used if ever consumed, else denied if ever denied,
      else approved if ever approved. */
  ghost function StateFromPast(h: History, c: nat, n: nat, id: string): State
    requires n <= |h|
  {
    if EverConsumed(h, c, n, id) then Used
    else if EverDecided(h, c, n, id, false) then Denied
    else if EverDecided(h, c, n, id, true) then Approved
    else Pending
  }

  lemma {:induction false} UncreatedIsAbsent(h: History, ttl: Time, n: nat, id: string)
    requires n <= |h| && forall i {:trigger Creates(h, i, id)} :: 0 <= i < n ==> !Creates(h, i, id)
    ensures id !in TicketsAt(h, ttl, n)
  {
    if n > 0 {
      UncreatedIsAbsent(h, ttl, n - 1, id);
      assert !Creates(h, n - 1, id);
      OneEventElsewhere(TicketsAt(h, ttl, n - 1), ttl, h[n - 1].event, id);
    }
  }

  /** The ticket created by entry `c`, as the table holds it after `n` entries, fits its past. */
  ghost predicate MatchesPast(h: History, ttl: Time, c: nat, n: nat)
    requires c < n <= |h| && h[c].event.Create?
  {
    var e := h[c].event;
    var found := TicketsAt(h, ttl, n);
    if EverExpired(h, c, n, e.id, e.at + ttl) then e.id !in found
    else
      && e.id in found && found[e.id].binding == e.binding && found[e.id].expiresAt == e.at + ttl
      && found[e.id].state == StateFromPast(h, c, n, e.id)
  }

  /** What one event does to one ticket that is in the table. */
  lemma OneEvent(ts: Tickets, ttl: Time, e: Event, id: string)
    requires id in ts && (e.Create? ==> e.id != id)
    ensures var after := Happens(ts, ttl, e);
      var hit := e.id == id && after.outcome.Granted?;
      && (if FindsExpired(e, id, ts[id].expiresAt) then id !in after.tickets && !hit
          else
            && id in after.tickets
            && after.tickets[id].binding == ts[id].binding && after.tickets[id].expiresAt == ts[id].expiresAt
            && after.tickets[id].state == if e.Consume? && hit then Used
                                          else if e.Decide? && hit then (if e.approve then Approved else Denied)
                                          else ts[id].state)
      && (e.Consume? && hit ==> ts[id].state == Approved)
      && (e.Decide? && hit ==> ts[id].state == Approved || ts[id].state == Pending)
  {
  }

  lemma OneEventElsewhere(ts: Tickets, ttl: Time, e: Event, id: string)
    requires id !in ts && (e.Create? ==> e.id != id)
    ensures id !in Happens(ts, ttl, e).tickets
    ensures e.id == id ==> Happens(ts, ttl, e).outcome.Refused?
  {
  }

  /** One more entry extends the past by itself. */
  lemma PastGrows(h: History, c: nat, n: nat, id: string, expiry: Time)
    requires c < n < |h|
    ensures EverConsumed(h, c, n + 1, id) <==> EverConsumed(h, c, n, id) || Consumes(h, n, id)
    ensures EverDecided(h, c, n + 1, id, true) <==> EverDecided(h, c, n, id, true) || Decides(h, n, id, true)
    ensures EverDecided(h, c, n + 1, id, false) <==> EverDecided(h, c, n, id, false) || Decides(h, n, id, false)
    ensures EverExpired(h, c, n + 1, id, expiry) <==>
            EverExpired(h, c, n, id, expiry) || FindsExpired(h[n].event, id, expiry)
  {
    assert c < n < n + 1;
  }

  lemma StateStep(h: History, ttl: Time, c: nat, n: nat)
    requires Honest(h, ttl) && FreshIds(h) && c < n < |h| && h[c].event.Create? && MatchesPast(h, ttl, c, n)
    ensures MatchesPast(h, ttl, c, n + 1)
  {
    var id := h[c].event.id;
    PastGrows(h, c, n, id, h[c].event.at + ttl);
    assert Creates(h, c, id) && !Creates(h, n, id) && HonestAt(h, ttl, n);
    var ts := TicketsAt(h, ttl, n);
    if EverExpired(h, c, n, id, h[c].event.at + ttl) {
      OneEventElsewhere(ts, ttl, h[n].event, id);
    } else {
      OneEvent(ts, ttl, h[n].event, id);
    }
  }

  lemma NewTicketMatches(h: History, ttl: Time, c: nat)
    requires c < |h| && h[c].event.Create?
    ensures MatchesPast(h, ttl, c, c + 1)
  {
  }

  /** A ticket is in the table exactly while no event has found it expired, and its state is what
      its successful decisions and consumption add up to. */
  lemma {:induction false} StateIsHistory(h: History, ttl: Time, c: nat, n: nat)
    requires Honest(h, ttl) && FreshIds(h) && c < n <= |h| && h[c].event.Create?
    ensures MatchesPast(h, ttl, c, n)
  {
    if n == c + 1 {
      NewTicketMatches(h, ttl, c);
    } else {
      StateIsHistory(h, ttl, c, n - 1);
      StateStep(h, ttl, c, n - 1);
    }
  }

  // ---------- single use ----------

  /** Only created tickets are ever in the table. */
  lemma CreationExists(h: History, ttl: Time, n: nat, id: string) returns (c: nat)
    requires n <= |h| && id in TicketsAt(h, ttl, n)
    ensures c < n && Creates(h, c, id)
  {
    if c' :| 0 <= c' < n && Creates(h, c', id) {
      c := c';
    } else {
      UncreatedIsAbsent(h, ttl, n, id);
      assert false;
    }
  }

  /** A grant concerns a ticket that is in the table. */
  lemma GrantNeedsTicket(h: History, ttl: Time, i: nat)
    requires Honest(h, ttl) && i < |h| && h[i].granted && !h[i].event.Create?
    ensures h[i].event.id in TicketsAt(h, ttl, i)
  {
    assert HonestAt(h, ttl, i);
  }

  /** What must have happened for entry `n`, a consumption, to be granted: its ticket was created by
      entry `c` for this very binding, was approved, was never denied or consumed, and neither this
      entry nor one before it found it expired. */
  ghost predicate Entitled(h: History, ttl: Time, c: nat, n: nat)
    requires c < n < |h| && h[n].event.Consume?
  {
    var e := h[n].event;
    && Creates(h, c, e.id) && h[c].event.binding == e.wanted && e.at < h[c].event.at + ttl
    && !EverExpired(h, c, n, e.id, h[c].event.at + ttl)
    && EverDecided(h, c, n, e.id, true)
    && !EverDecided(h, c, n, e.id, false)
    && !EverConsumed(h, c, n, e.id)
  }

  lemma GrantMeansEntitled(h: History, ttl: Time, c: nat, n: nat)
    requires Honest(h, ttl) && FreshIds(h) && c < n < |h| && h[n].event.Consume? && Creates(h, c, h[n].event.id)
    ensures h[n].granted <==> Entitled(h, ttl, c, n)
  {
    StateIsHistory(h, ttl, c, n);
    assert HonestAt(h, ttl, n);
  }

  /** A consumption is granted exactly when some creation entitles it. */
  lemma ConsumeSucceedsExactly(h: History, ttl: Time, n: nat)
    requires Honest(h, ttl) && FreshIds(h) && n < |h| && h[n].event.Consume?
    ensures h[n].granted <==> exists c :: 0 <= c < n && Entitled(h, ttl, c, n)
  {
    if h[n].granted {
      GrantNeedsTicket(h, ttl, n);
      var c := CreationExists(h, ttl, n, h[n].event.id);
      GrantMeansEntitled(h, ttl, c, n);
    }
    if c :| 0 <= c < n && Entitled(h, ttl, c, n) {
      GrantMeansEntitled(h, ttl, c, n);
    }
  }

  /** No ticket is consumed twice. */
  lemma ConsumedAtMostOnce(h: History, ttl: Time, i: nat, j: nat, id: string)
    requires Honest(h, ttl) && FreshIds(h) && i < j < |h| && Consumes(h, i, id)
    ensures !Consumes(h, j, id)
  {
    GrantNeedsTicket(h, ttl, i);
    var c := CreationExists(h, ttl, i, id);
    if Consumes(h, j, id) {
      GrantMeansEntitled(h, ttl, c, j);
    }
  }

  /** A denied ticket stays denied: no consumption and no decision of it is granted again. */
  lemma DenialIsFinal(h: History, ttl: Time, i: nat, j: nat, id: string, approve: bool)
    requires Honest(h, ttl) && FreshIds(h) && i < j < |h| && Decides(h, i, id, false)
    ensures !Consumes(h, j, id) && !Decides(h, j, id, approve)
  {
    GrantNeedsTicket(h, ttl, i);
    var c := CreationExists(h, ttl, i, id);
    assert EverDecided(h, c, j, id, false);
    StateIsHistory(h, ttl, c, j);
    assert HonestAt(h, ttl, j);
    if id in TicketsAt(h, ttl, j) && !h[j].event.Create? {
      OneEvent(TicketsAt(h, ttl, j), ttl, h[j].event, id);
    }
  }

  // ---------- every answer ----------

  function Answer(h: History, ttl: Time, n: nat): Outcome
    requires n < |h|
  {
    Happens(TicketsAt(h, ttl, n), ttl, h[n].event).outcome
  }

  /** Without a creation there is no ticket. */
  lemma UncreatedIsNotFound(h: History, ttl: Time, n: nat)
    requires n < |h| && !h[n].event.Create? && forall c :: 0 <= c < n ==> !Creates(h, c, h[n].event.id)
    ensures Answer(h, ttl, n) == Refused(NotFound)
  {
    UncreatedIsAbsent(h, ttl, n, h[n].event.id);
  }

  /** Every answer to an attempt to use up a ticket, from the ticket's past alone. */
  lemma ConsumptionAnswers(h: History, ttl: Time, c: nat, n: nat)
    requires Honest(h, ttl) && FreshIds(h) && c < n < |h| && h[n].event.Consume? && Creates(h, c, h[n].event.id)
    ensures var e, was := h[n].event, h[c].event;
      var answer := Answer(h, ttl, n);
      if EverExpired(h, c, n, e.id, was.at + ttl) then answer == Refused(NotFound)
      else if e.at >= was.at + ttl then answer == Refused(Expired)
      else if e.wanted != was.binding then answer == Refused(BindingMismatch)
      else if EverConsumed(h, c, n, e.id) then answer == Refused(WasUsed)
      else if EverDecided(h, c, n, e.id, false) then answer == Refused(WasDenied)
      else if EverDecided(h, c, n, e.id, true) then
        answer.Granted? && answer.ticket.state == Used
        && answer.ticket.binding == Blank && answer.ticket.expiresAt == was.at + ttl
      else answer == Refused(NotApproved)
  {
    StateIsHistory(h, ttl, c, n);
  }

  /** Every answer to a decision: the last one counts, until the ticket is denied, used up or expired. */
  lemma DecisionAnswers(h: History, ttl: Time, c: nat, n: nat)
    requires Honest(h, ttl) && FreshIds(h) && c < n < |h| && h[n].event.Decide? && Creates(h, c, h[n].event.id)
    ensures var e, was := h[n].event, h[c].event;
      var answer := Answer(h, ttl, n);
      if EverExpired(h, c, n, e.id, was.at + ttl) then answer == Refused(NotFound)
      else if e.at >= was.at + ttl then answer == Refused(Expired)
      else if EverConsumed(h, c, n, e.id) then answer == Refused(WasUsed)
      else if EverDecided(h, c, n, e.id, false) then answer == Refused(WasDenied)
      else
        answer.Granted? && answer.ticket.state == (if e.approve then Approved else Denied)
        && answer.ticket.decisionAt == Some(e.decidedAt) && answer.ticket.binding == Blank
        && answer.ticket.expiresAt == was.at + ttl
  {
    StateIsHistory(h, ttl, c, n);
  }

  /** A look-up shows the state the past adds up to, without the binding. */
  lemma LookupAnswers(h: History, ttl: Time, c: nat, n: nat)
    requires Honest(h, ttl) && FreshIds(h) && c < n < |h| && h[n].event.Lookup? && Creates(h, c, h[n].event.id)
    ensures var e, was := h[n].event, h[c].event;
      var answer := Answer(h, ttl, n);
      if EverExpired(h, c, n, e.id, was.at + ttl) then answer == Refused(NotFound)
      else if e.at >= was.at + ttl then answer == Refused(Expired)
      else
        && answer.Granted? && answer.ticket.binding == Blank && answer.ticket.expiresAt == was.at + ttl
        && (answer.ticket.state == Used <==> EverConsumed(h, c, n, e.id))
        && (answer.ticket.state == Pending <==>
              !EverConsumed(h, c, n, e.id) && !EverDecided(h, c, n, e.id, true) && !EverDecided(h, c, n, e.id, false))
        && (answer.ticket.state == Denied <==> !EverConsumed(h, c, n, e.id) && EverDecided(h, c, n, e.id, false))
  {
    StateIsHistory(h, ttl, c, n);
  }
}
