/** The gate in front of every handler, and the decision endpoint behind it. */
module ApprovalGate {
  import opened Options
  import opened Text
  import opened JsonNumbers
  import opened CanonicalJson
  import opened ApprovalTickets
  import opened ApprovalHistory

  // ---------- requests ----------

  datatype Request = Request(verb: string, path: string, body: Body, approvalHeader: string, requestId: string)

  datatype Mode = AllWrite | SensitiveOnly | Off

  /** How requests are classified. The rules that recognise dangerous payloads are a parameter. */
  datatype Policy = Policy(
    mode: Mode, readOnly: bool,
    resolve: (string, string, Body) -> Operation,
    allowedReadOnly: (string, string) -> bool)

  function Resolve(policy: Policy, r: Request): Operation {
    policy.resolve(r.verb, r.path, r.body)
  }

  predicate RequiresApproval(policy: Policy, op: Operation) {
    && op.name != "approval.decision" && op.risk != Read
    && (policy.mode == AllWrite || (policy.mode == SensitiveOnly && op.risk == Sensitive))
  }

  function BindingFor(policy: Policy, r: Request): Binding {
    Binding(r.verb, r.path, Sha(CanonicalBody(r.body)), Resolve(policy, r).name)
  }

  /** Two requests have one binding exactly when method, path and operation agree and their bodies are
      hashed alike. */
  lemma BindingIsSharedExactly(policy: Policy, r: Request, s: Request)
    ensures BindingFor(policy, r) == BindingFor(policy, s) <==>
      && r.verb == s.verb && r.path == s.path && Resolve(policy, r).name == Resolve(policy, s).name
      && HashedAlike(r.body, s.body)
  {
    HashedAlikeExactly(r.body, s.body);
  }

  /** With whole numbers below 53 bits only layout, field order and overwritten fields are left open. */
  lemma SmallBodiesAreBoundExactly(a: Body, b: Body)
    requires Decodes(a) && Small(a.value) && Decodes(b) && Small(b.value)
    ensures HashedAlike(a, b) <==> Same(a.value, b.value, true)
  {
    SmallValuesAreExact(a.value, b.value);
    if a == b {
      HashedAlikeExactly(a, b);
      CanonicalMergesFloatsOnly(a.value, b.value);
    }
  }

  function OneNumber(d: Decimal, layout: string): Body {
    JsonBody(Obj([Field("n", Num(d))]), layout, "")
  }

  lemma OneNumberAlike(d: Decimal, e: Decimal, layout: string)
    requires InRange(d) && InRange(e) && FloatOf(d) == FloatOf(e)
    ensures HashedAlike(OneNumber(d, layout), OneNumber(e, layout))
  {
    var v, w := [Field("n", Num(d))], [Field("n", Num(e))];
    assert v[0] in v && w[0] in w;
    assert Names(v) == {"n"} && Names(w) == {"n"};
    assert LastAt(v, "n") == 0 && LastAt(w, "n") == 0;
    assert Same(v[0].value, w[0].value, false);
    assert Same(Obj(v), Obj(w), false);
    assert InFloatRange(v[0].value) && InFloatRange(w[0].value);
  }

  /** Otherwise unequal bodies share a binding: another spelling of a number, or beyond 53 bits another
      number. */
  lemma NumbersShareABinding(d: Decimal, layout: string)
    ensures var longer := Decimal(d.negative, 10 * d.digits, d.exponent - 1);
      InRange(d) ==> longer != d && HashedAlike(OneNumber(d, layout), OneNumber(longer, layout))
    ensures HashedAlike(OneNumber(Decimal(false, 9007199254740993, 0), layout), OneNumber(Decimal(false, 9007199254740992, 0), layout))
  {
    if InRange(d) {
      SpellingsMerge(d);
      OneNumberAlike(d, Decimal(d.negative, 10 * d.digits, d.exponent - 1), layout);
    }
    LargeNumbersMerge();
    OneNumberAlike(Decimal(false, 9007199254740993, 0), Decimal(false, 9007199254740992, 0), layout);
  }

  /** The clock readings one request takes, in order of use. */
  datatype Clocks = Clocks(pruned: Time, created: Time, checked: Time, decided: Time, again: Time)

  /** What the handler did: acted on a decision, rejected a malformed one, or something else. */
  datatype HandlerResult = Decision(id: string, approve: bool, outcome: Outcome) | BadDecision | Other

  datatype Reply =
    | NotAvailable
    | ApprovalRequired(ticket: Ticket)
    | ApprovalRefused(id: string, error: ApprovalError)
    | Handled(used: Option<string>, result: HandlerResult)

  function ApprovalCode(error: ApprovalError): string {
    match error
    case Expired => "approval_expired"
    case NotApproved => "approval_not_approved"
    case WasDenied => "approval_denied"
    case WasUsed => "approval_used"
    case BindingMismatch => "approval_mismatch"
    case NotFound => "approval_not_found"
  }

  // ---------- the decision endpoint ----------

  const DECISIONS := "/v1/approvals/"
  const DECISION := "/decision"

  datatype Verdict = Verdict(id: string, approve: bool)

  /** Letters that count as one in the name of a field. */
  function FoldChar(c: char): char {
    if 'A' <= c <= 'Z' then c - 'A' + 'a' else if c == '\U{017F}' then 's' else if c == '\U{212A}' then 'k' else c
  }

  function FoldName(name: string): string {
    seq(|name|, i requires 0 <= i < |name| => FoldChar(name[i]))
  }

  /** The decision decoded from the value a body begins with, empty if it is not set; None if there is no such
      value, it has an unknown field, or its decision is no text. */
  function DecodedDecision(b: Body): Option<string> {
    if !b.JsonBody? then None
    else if b.value.Null? then Some("")
    else if !b.value.Obj? then None
    else AssignedText(b.value.fields, "decision")
  }

  /** The text assigned field by field to the only known one, whose name may be in any letter case. The null
      value assigns nothing. */
  function AssignedText(fields: seq<Field>, name: string): Option<string> {
    if fields == [] then Some("")
    else
      var f := fields[|fields| - 1];
      var before := AssignedText(fields[..|fields| - 1], name);
      if before.None? || FoldName(f.name) != name || !(f.value.Str? || f.value.Null?) then None
      else if f.value.Null? then before
      else Some(f.value.text)
  }

  /** The decision a request to the endpoint carries, if it is well formed. */
  function VerdictOf(r: Request): Option<Verdict> {
    var id := TrimSuffix(TrimPrefix(r.path, DECISIONS), DECISION);
    if r.verb != "POST" || !HasSuffix(r.path, DECISION) || id == "" || '/' in id then None
    else if DecodedDecision(r.body) == Some("approve") then Some(Verdict(id, true))
    else if DecodedDecision(r.body) == Some("deny") then Some(Verdict(id, false))
    else None
  }

  // ---------- one request ----------

  /** What serving a request does: the ticket operations it performs, and its reply. */
  datatype Service = Service(entries: History, tickets: Tickets, reply: Reply)

  function Handle(ts: Tickets, r: Request, k: Clocks, used: Option<string>): Service {
    if !(DECISIONS <= r.path) then Service([], ts, Handled(used, Other))
    else
      match VerdictOf(r)
      case None => Service([], ts, Handled(used, BadDecision))
      case Some(Verdict(id, approve)) =>
        var decided := Decided(ts, id, approve, k.decided, k.again);
        var entry := Entry(Decide(id, approve, k.decided, k.again), decided.outcome.Granted?);
        if decided.outcome.Granted?
        then Service([entry], decided.tickets, Handled(used, Decision(id, approve, decided.outcome)))
        else
          var looked := LookedUp(decided.tickets, id, k.again);
          Service([entry, Entry(Lookup(id, k.again), looked.outcome.Granted?)], looked.tickets,
                  Handled(used, Decision(id, approve, decided.outcome)))
  }

  function Serve(policy: Policy, ttl: Time, ts: Tickets, r: Request, k: Clocks, freshId: string): Service {
    var op := Resolve(policy, r);
    var id := TrimSpace(r.approvalHeader);
    if policy.readOnly && !policy.allowedReadOnly(r.verb, r.path) then Service([], ts, NotAvailable)
    else if !RequiresApproval(policy, op) then Handle(ts, r, k, None)
    else if id == "" then
      var created := Created(ts, ttl, r.requestId, op, BindingFor(policy, r), k.pruned, k.created, freshId);
      Service([Entry(Create(r.requestId, op, BindingFor(policy, r), k.pruned, k.created, freshId), true)],
              created.tickets, ApprovalRequired(created.outcome.ticket))
    else
      var consumed := Consumed(ts, id, BindingFor(policy, r), k.checked);
      var entry := Entry(Consume(id, BindingFor(policy, r), k.checked), consumed.outcome.Granted?);
      if consumed.outcome.Granted? then
        var handled := Handle(consumed.tickets, r, k, Some(id));
        Service([entry] + handled.entries, handled.tickets, handled.reply)
      else
        var looked := LookedUp(consumed.tickets, id, k.again);
        Service([entry, Entry(Lookup(id, k.again), looked.outcome.Granted?)], looked.tickets,
                ApprovalRefused(id, consumed.outcome.error))
  }

  class Server {
    const policy: Policy
    const approvals: Manager

    constructor (policy: Policy, approvals: Manager)
      ensures this.policy == policy && this.approvals == approvals
    {
      this.policy := policy;
      this.approvals := approvals;
    }

    /** The entries it returns are the ticket operations performed, in order. */
    method OperationControl(r: Request, k: Clocks, freshId: string) returns (reply: Reply, ghost entries: History)
      modifies approvals
      ensures Service(entries, approvals.tickets, reply)
           == Serve(policy, approvals.ttl, old(approvals.tickets), r, k, freshId)
    {
      var op := policy.resolve(r.verb, r.path, r.body);
      entries := [];
      if policy.readOnly && !policy.allowedReadOnly(r.verb, r.path) {
        return NotAvailable, entries;
      }
      var used := None;
      if RequiresApproval(policy, op) {
        var binding := Binding(r.verb, r.path, Sha(CanonicalBody(r.body)), op.name);
        var id := TrimSpace(r.approvalHeader);
        if id == "" {
          var ticket := approvals.Create(r.requestId, op, binding, k.pruned, k.created, freshId);
          entries := [Entry(Create(r.requestId, op, binding, k.pruned, k.created, freshId), true)];
          return ApprovalRequired(ticket), entries;
        }
        var outcome := approvals.Consume(id, binding, k.checked);
        entries := [Entry(Consume(id, binding, k.checked), outcome.Granted?)];
        if outcome.Refused? {
          var looked := approvals.Lookup(id, k.again);
          entries := entries + [Entry(Lookup(id, k.again), looked.Granted?)];
          return ApprovalRefused(id, outcome.error), entries;
        }
        used := Some(id);
      }
      ghost var more;
      reply, more := Routes(r, k, used);
      entries := entries + more;
    }

    method Routes(r: Request, k: Clocks, used: Option<string>) returns (reply: Reply, ghost entries: History)
      modifies approvals
      ensures Service(entries, approvals.tickets, reply) == Handle(old(approvals.tickets), r, k, used)
    {
      entries := [];
      if !(DECISIONS <= r.path) {
        return Handled(used, Other), entries;
      }
      reply, entries := ApprovalRoute(r, k, used);
    }

    method ApprovalRoute(r: Request, k: Clocks, used: Option<string>) returns (reply: Reply, ghost entries: History)
      requires DECISIONS <= r.path
      modifies approvals
      ensures Service(entries, approvals.tickets, reply) == Handle(old(approvals.tickets), r, k, used)
    {
      entries := [];
      if r.verb != "POST" || !HasSuffix(r.path, DECISION) {
        return Handled(used, BadDecision), entries;
      }
      var id := TrimSuffix(TrimPrefix(r.path, DECISIONS), DECISION);
      if id == "" || '/' in id {
        return Handled(used, BadDecision), entries;
      }
      var decoded := DecodedDecision(r.body);
      if decoded.None? {
        return Handled(used, BadDecision), entries;
      }
      var decision := decoded.value;
      if decision != "approve" && decision != "deny" {
        return Handled(used, BadDecision), entries;
      }
      var outcome := approvals.Decide(id, decision == "approve", k.decided, k.again);
      entries := [Entry(Decide(id, decision == "approve", k.decided, k.again), outcome.Granted?)];
      if outcome.Refused? {
        var looked := approvals.Lookup(id, k.again);
        entries := entries + [Entry(Lookup(id, k.again), looked.Granted?)];
      }
      reply := Handled(used, Decision(id, decision == "approve", outcome));
    }
  }

  // ---------- histories of requests ----------

  /** One request served: what came in, the ticket operations performed, the reply. */
  datatype Exchange = Exchange(request: Request, clocks: Clocks, freshId: string, entries: History, reply: Reply)

  type Log = seq<Exchange>

  /** The ticket operations of the first `n` exchanges. */
  function HistoryOf(log: Log, n: nat): History
    requires n <= |log|
  {
    if n == 0 then [] else HistoryOf(log, n - 1) + log[n - 1].entries
  }

  predicate GenuineAt(policy: Policy, ttl: Time, log: Log, n: nat)
    requires n < |log|
  {
    var h := HistoryOf(log, n);
    var s := Serve(policy, ttl, TicketsAt(h, ttl, |h|), log[n].request, log[n].clocks, log[n].freshId);
    log[n].entries == s.entries && log[n].reply == s.reply
  }

  /** Each exchange is what the server does in the state its predecessors leave. */
  ghost predicate Genuine(policy: Policy, ttl: Time, log: Log) {
    forall n {:trigger GenuineAt(policy, ttl, log, n)} :: 0 <= n < |log| ==> GenuineAt(policy, ttl, log, n)
  }

  lemma {:induction false} TicketsOfPrefix(h: History, more: History, ttl: Time, n: nat)
    requires n <= |h|
    ensures TicketsAt(h + more, ttl, n) == TicketsAt(h, ttl, n)
  {
    if n > 0 {
      TicketsOfPrefix(h, more, ttl, n - 1);
    }
  }

  lemma HonestAtStays(h: History, more: History, ttl: Time, i: nat)
    requires i < |h| && HonestAt(h, ttl, i)
    ensures HonestAt(h + more, ttl, i)
  {
    TicketsOfPrefix(h, more, ttl, i);
  }

  /** Appending what one event did, recorded as it was answered. */
  lemma AppendEntry(h: History, ttl: Time, e: Event, granted: bool)
    requires Honest(h, ttl)
    requires granted == Happens(TicketsAt(h, ttl, |h|), ttl, e).outcome.Granted?
    ensures Honest(h + [Entry(e, granted)], ttl)
    ensures TicketsAt(h + [Entry(e, granted)], ttl, |h| + 1) == Happens(TicketsAt(h, ttl, |h|), ttl, e).tickets
  {
    var longer := h + [Entry(e, granted)];
    TicketsOfPrefix(h, [Entry(e, granted)], ttl, |h|);
    forall i | 0 <= i < |longer| ensures HonestAt(longer, ttl, i) {
      if i < |h| {
        assert HonestAt(h, ttl, i);
        HonestAtStays(h, [Entry(e, granted)], ttl, i);
      }
    }
  }

  lemma HandleIsHonest(h: History, ttl: Time, r: Request, k: Clocks, used: Option<string>)
    requires Honest(h, ttl)
    ensures var s := Handle(TicketsAt(h, ttl, |h|), r, k, used);
      Honest(h + s.entries, ttl) && TicketsAt(h + s.entries, ttl, |h + s.entries|) == s.tickets
  {
    var ts := TicketsAt(h, ttl, |h|);
    var s := Handle(ts, r, k, used);
    if s.entries == [] {
      assert h + [] == h;
    } else {
      var first := s.entries[0];
      if |s.entries| == 2 {
        var second := s.entries[1];
        var after := Happens(ts, ttl, first.event);
        AppendTwo(h, ttl, first, second, after, Happens(after.tickets, ttl, second.event));
        assert s.entries == [first, second];
      } else {
        AppendEntry(h, ttl, first.event, first.granted);
        assert s.entries == [first];
      }
    }
  }

  /** Two entries appended one after the other, the second answered after the first. */
  lemma AppendTwo(h: History, ttl: Time, first: Entry, second: Entry, after: Effect, last: Effect)
    requires Honest(h, ttl)
    requires after == Happens(TicketsAt(h, ttl, |h|), ttl, first.event) && first.granted == after.outcome.Granted?
    requires last == Happens(after.tickets, ttl, second.event) && second.granted == last.outcome.Granted?
    ensures Honest(h + [first, second], ttl)
    ensures TicketsAt(h + [first, second], ttl, |h| + 2) == last.tickets
  {
    var longer := h + [first];
    AppendOne(h, ttl, first, after);
    AppendOne(longer, ttl, second, last);
    assert h + [first, second] == longer + [second];
  }

  lemma AppendOne(h: History, ttl: Time, x: Entry, after: Effect)
    requires Honest(h, ttl)
    requires after == Happens(TicketsAt(h, ttl, |h|), ttl, x.event) && x.granted == after.outcome.Granted?
    ensures Honest(h + [x], ttl) && |h + [x]| == |h| + 1
    ensures TicketsAt(h + [x], ttl, |h| + 1) == after.tickets
  {
    AppendEntry(h, ttl, x.event, x.granted);
    assert x == Entry(x.event, x.granted);
  }

  lemma RefusalIsHonest(h: History, ttl: Time, id: string, wanted: Binding, k: Clocks)
    requires Honest(h, ttl) && Consumed(TicketsAt(h, ttl, |h|), id, wanted, k.checked).outcome.Refused?
    ensures var consumed := Consumed(TicketsAt(h, ttl, |h|), id, wanted, k.checked);
      var looked := LookedUp(consumed.tickets, id, k.again);
      var entries := [Entry(Consume(id, wanted, k.checked), false), Entry(Lookup(id, k.again), looked.outcome.Granted?)];
      Honest(h + entries, ttl) && TicketsAt(h + entries, ttl, |h + entries|) == looked.tickets
  {
    var consumed := Consumed(TicketsAt(h, ttl, |h|), id, wanted, k.checked);
    var looked := LookedUp(consumed.tickets, id, k.again);
    var first := Entry(Consume(id, wanted, k.checked), false);
    var second := Entry(Lookup(id, k.again), looked.outcome.Granted?);
    AppendTwo(h, ttl, first, second, consumed, looked);
  }

  lemma HandledAfter(h: History, ttl: Time, first: Entry, ts: Tickets, r: Request, k: Clocks, used: Option<string>)
    requires Honest(h + [first], ttl) && TicketsAt(h + [first], ttl, |h| + 1) == ts
    ensures var s := Handle(ts, r, k, used);
      var entries := [first] + s.entries;
      Honest(h + entries, ttl) && TicketsAt(h + entries, ttl, |h + entries|) == s.tickets
  {
    var longer, more := h + [first], Handle(ts, r, k, used).entries;
    assert |longer| == |h| + 1;
    HandleIsHonest(longer, ttl, r, k, used);
    assert h + ([first] + more) == longer + more;
  }

  lemma GrantIsHonest(h: History, ttl: Time, id: string, wanted: Binding, r: Request, k: Clocks)
    requires Honest(h, ttl) && Consumed(TicketsAt(h, ttl, |h|), id, wanted, k.checked).outcome.Granted?
    ensures var consumed := Consumed(TicketsAt(h, ttl, |h|), id, wanted, k.checked);
      var handled := Handle(consumed.tickets, r, k, Some(id));
      var entries := [Entry(Consume(id, wanted, k.checked), true)] + handled.entries;
      Honest(h + entries, ttl) && TicketsAt(h + entries, ttl, |h + entries|) == handled.tickets
  {
    var consumed := Consumed(TicketsAt(h, ttl, |h|), id, wanted, k.checked);
    var first := Entry(Consume(id, wanted, k.checked), true);
    AppendOne(h, ttl, first, consumed);
    HandledAfter(h, ttl, first, consumed.tickets, r, k, Some(id));
  }

  lemma ServeIsHonest(policy: Policy, h: History, ttl: Time, r: Request, k: Clocks, freshId: string)
    requires Honest(h, ttl)
    ensures var s := Serve(policy, ttl, TicketsAt(h, ttl, |h|), r, k, freshId);
      Honest(h + s.entries, ttl) && TicketsAt(h + s.entries, ttl, |h + s.entries|) == s.tickets
  {
    var ts := TicketsAt(h, ttl, |h|);
    var id := TrimSpace(r.approvalHeader);
    var wanted := BindingFor(policy, r);
    if policy.readOnly && !policy.allowedReadOnly(r.verb, r.path) {
      assert h + [] == h;
    } else if !RequiresApproval(policy, Resolve(policy, r)) {
      HandleIsHonest(h, ttl, r, k, None);
    } else if id == "" {
      AppendEntry(h, ttl, Create(r.requestId, Resolve(policy, r), wanted, k.pruned, k.created, freshId), true);
    } else if Consumed(ts, id, wanted, k.checked).outcome.Granted? {
      GrantIsHonest(h, ttl, id, wanted, r, k);
    } else {
      RefusalIsHonest(h, ttl, id, wanted, k);
    }
  }

  /** The operations of any exchanges form an honest history. */
  lemma {:induction false} HistoryIsHonest(policy: Policy, ttl: Time, log: Log, n: nat)
    requires Genuine(policy, ttl, log) && n <= |log|
    ensures Honest(HistoryOf(log, n), ttl)
  {
    if n > 0 {
      HistoryIsHonest(policy, ttl, log, n - 1);
      assert GenuineAt(policy, ttl, log, n - 1);
      var x := log[n - 1];
      ServeIsHonest(policy, HistoryOf(log, n - 1), ttl, x.request, x.clocks, x.freshId);
    }
  }
}
