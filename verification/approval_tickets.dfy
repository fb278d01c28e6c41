/** Short-lived, single-use approval tickets, kept in memory. */
module ApprovalTickets {
  import opened Options
  import opened CanonicalJson

  /** Clock readings, in nanoseconds. The wall clock need not move forward. */
  type Time = int

  const DEFAULT_TTL: Time := 600_000_000_000

  datatype State = Pending | Approved | Denied | Used

  datatype Risk = Read | Write | Sensitive

  datatype Operation = Operation(name: string, risk: Risk, target: string, summary: string)

  /** SHA-256 idealised as a constructor: equal hashes have equal contents. */
  datatype RequestHash = Sha(content: HashedBody)

  /** `Blank` is the zero binding of the copies handed out. */
  datatype Binding = Blank | Binding(verb: string, path: string, hash: RequestHash, operation: string)

  datatype Ticket = Ticket(
    id: string, requestId: string, operation: Operation, state: State,
    createdAt: Time, decisionAt: Option<Time>, expiresAt: Time, binding: Binding)

  datatype ApprovalError = NotFound | Expired | NotApproved | WasDenied | WasUsed | BindingMismatch

  datatype Outcome = Granted(ticket: Ticket) | Refused(error: ApprovalError)

  type Tickets = map<string, Ticket>

  /** A copy without its binding. */
  function Clone(t: Ticket): Ticket {
    t.(binding := Blank)
  }

  // ---------- what each operation does to the table ----------

  datatype Effect = Effect(tickets: Tickets, outcome: Outcome)

  function Pruned(ts: Tickets, now: Time): Tickets {
    map id | id in ts && now < ts[id].expiresAt :: ts[id]
  }

  function Created(ts: Tickets, ttl: Time, requestId: string, op: Operation, binding: Binding,
                   prunedAt: Time, at: Time, id: string): Effect {
    var t := Ticket(id, requestId, op, Pending, at, None, at + ttl, binding);
    Effect(Pruned(ts, prunedAt)[id := t], Granted(Clone(t)))
  }

  /** The table after looking a ticket up, which deletes it once expired, and the ticket. */
  function Active(ts: Tickets, id: string, at: Time): Effect {
    if id !in ts then Effect(ts, Refused(NotFound))
    else if !(at < ts[id].expiresAt) then Effect(ts - {id}, Refused(Expired))
    else Effect(ts, Granted(ts[id]))
  }

  function Decided(ts: Tickets, id: string, approve: bool, at: Time, decidedAt: Time): Effect {
    var found := Active(ts, id, at);
    if found.outcome.Refused? then found
    else if found.outcome.ticket.state == Used then Effect(ts, Refused(WasUsed))
    else if found.outcome.ticket.state == Denied then Effect(ts, Refused(WasDenied))
    else
      var t := ts[id].(state := if approve then Approved else Denied, decisionAt := Some(decidedAt));
      Effect(ts[id := t], Granted(Clone(t)))
  }

  function LookedUp(ts: Tickets, id: string, at: Time): Effect {
    var found := Active(ts, id, at);
    if found.outcome.Refused? then found else Effect(ts, Granted(Clone(found.outcome.ticket)))
  }

  function Consumed(ts: Tickets, id: string, binding: Binding, at: Time): Effect {
    var found := Active(ts, id, at);
    if found.outcome.Refused? then found
    else if found.outcome.ticket.binding != binding then Effect(ts, Refused(BindingMismatch))
    else
      match found.outcome.ticket.state
      case Pending => Effect(ts, Refused(NotApproved))
      case Approved => Effect(ts[id := ts[id].(state := Used)], Granted(Clone(ts[id].(state := Used))))
      case Denied => Effect(ts, Refused(WasDenied))
      case Used => Effect(ts, Refused(WasUsed))
  }

  // ---------- the manager ----------

  class Manager {
    const ttl: Time
    var tickets: Tickets

    constructor (ttl: Time)
      ensures tickets == map[] && this.ttl == if ttl <= 0 then 600_000_000_000 else ttl
    {
      this.ttl := if ttl <= 0 then DEFAULT_TTL else ttl;
      tickets := map[];
    }

    method Create(requestId: string, op: Operation, binding: Binding, prunedAt: Time, at: Time, id: string)
      returns (ticket: Ticket)
      modifies this
      ensures Effect(tickets, Granted(ticket)) == Created(old(tickets), ttl, requestId, op, binding, prunedAt, at, id)
    {
      PruneLocked(prunedAt);
      var t := Ticket(id, requestId, op, Pending, at, None, at + ttl, binding);
      tickets := tickets[id := t];
      ticket := Clone(t);
    }

    method Decide(id: string, approve: bool, at: Time, decidedAt: Time) returns (outcome: Outcome)
      modifies this
      ensures Effect(tickets, outcome) == Decided(old(tickets), id, approve, at, decidedAt)
    {
      outcome := ActiveLocked(id, at);
      if outcome.Refused? {
        return;
      }
      var t := outcome.ticket;
      if t.state == Used {
        return Refused(WasUsed);
      }
      if t.state == Denied {
        return Refused(WasDenied);
      }
      if approve {
        t := t.(state := Approved);
      } else {
        t := t.(state := Denied);
      }
      t := t.(decisionAt := Some(decidedAt));
      tickets := tickets[id := t];
      outcome := Granted(Clone(t));
    }

    method Lookup(id: string, at: Time) returns (outcome: Outcome)
      modifies this
      ensures Effect(tickets, outcome) == LookedUp(old(tickets), id, at)
    {
      outcome := ActiveLocked(id, at);
      if outcome.Granted? {
        outcome := Granted(Clone(outcome.ticket));
      }
    }

    method Consume(id: string, binding: Binding, at: Time) returns (outcome: Outcome)
      modifies this
      ensures Effect(tickets, outcome) == Consumed(old(tickets), id, binding, at)
    {
      outcome := ActiveLocked(id, at);
      if outcome.Refused? {
        return;
      }
      var t := outcome.ticket;
      if t.binding != binding {
        return Refused(BindingMismatch);
      }
      match t.state {
        case Pending =>
          outcome := Refused(NotApproved);
        case Approved =>
          t := t.(state := Used);
          tickets := tickets[id := t];
          outcome := Granted(Clone(t));
        case Denied =>
          outcome := Refused(WasDenied);
        case Used =>
          outcome := Refused(WasUsed);
      }
    }

    method ActiveLocked(id: string, at: Time) returns (outcome: Outcome)
      modifies this
      ensures Effect(tickets, outcome) == Active(old(tickets), id, at)
    {
      if id !in tickets {
        return Refused(NotFound);
      }
      var t := tickets[id];
      if !(at < t.expiresAt) {
        tickets := tickets - {id};
        return Refused(Expired);
      }
      outcome := Granted(t);
    }

    method PruneLocked(now: Time)
      modifies this
      ensures tickets == Pruned(old(tickets), now)
    {
      var all := tickets;
      var ids := all.Keys;
      while ids != {}
        invariant ids <= all.Keys
        invariant forall id :: id in tickets <==> id in all && (id in ids || now < all[id].expiresAt)
        invariant forall id :: id in tickets ==> tickets[id] == all[id]
        decreases |ids|
      {
        var id :| id in ids;
        if !(now < all[id].expiresAt) {
          tickets := tickets - {id};
        }
        ids := ids - {id};
      }
    }
  }
}
