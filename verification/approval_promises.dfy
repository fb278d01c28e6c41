/** What the gate promises over any sequence of requests, whatever the clock reads. */
module ApprovalPromises {
  import opened Options
  import opened Text
  import opened CanonicalJson
  import opened ApprovalTickets
  import opened ApprovalHistory
  import opened ApprovalGate

  /** Request `n` reached its handler by using up ticket `id`. */
  predicate RunsWith(log: Log, n: nat, id: string)
    requires n < |log|
  {
    log[n].reply.Handled? && log[n].reply.used == Some(id)
  }

  /** Request `c` was told to get approval and given ticket `id`. */
  predicate Asked(log: Log, c: nat, id: string)
    requires c < |log|
  {
    log[c].reply.ApprovalRequired? && log[c].reply.ticket.id == id
  }

  /** Request `d` carried a decision on ticket `id` and it was recorded. */
  predicate Recorded(log: Log, d: nat, id: string, approve: bool)
    requires d < |log|
  {
    && log[d].reply.Handled? && log[d].reply.result.Decision? && log[d].reply.result.outcome.Granted?
    && log[d].reply.result.id == id && log[d].reply.result.approve == approve
  }

  /** What an exchange's entries say about its reply: a granted consumption comes first and means the
      handler ran with that ticket; a creation means the reply asks for approval; a granted decision
      is the one the request carried, and a recorded decision is among the entries. */
  ghost predicate EntriesTellReply(policy: Policy, x: Exchange) {
    EntriesAreInReply(policy, x) && ReplyIsInEntries(policy, x)
  }

  ghost predicate EntriesAreInReply(policy: Policy, x: Exchange) {
    forall i :: 0 <= i < |x.entries| ==> EntryIsInReply(policy, x, x.entries[i], i)
  }

  ghost predicate EntryIsInReply(policy: Policy, x: Exchange, e: Entry, i: nat) {
    && (e.event.Consume? && e.granted ==> i == 0 && x.reply.Handled? && x.reply.used == Some(e.event.id))
    && (e.event.Create? ==>
          && x.reply.ApprovalRequired? && x.reply.ticket.id == e.event.id
          && e.event.binding == BindingFor(policy, x.request) && e.event.at == x.clocks.created)
    && (e.event.Decide? && e.granted ==>
          && x.reply.Handled? && x.reply.result.Decision? && x.reply.result.outcome.Granted?
          && x.reply.result.id == e.event.id && x.reply.result.approve == e.event.approve)
  }

  ghost predicate ReplyIsInEntries(policy: Policy, x: Exchange) {
    && (x.reply.ApprovalRequired? ==>
          && |x.entries| == 1 && x.entries[0].event.Create? && x.entries[0].event.id == x.reply.ticket.id)
    && (x.reply.Handled? && x.reply.used.Some? ==>
          && |x.entries| > 0
          && x.entries[0] == Entry(Consume(x.reply.used.value, BindingFor(policy, x.request), x.clocks.checked), true))
    && (x.reply.Handled? && x.reply.result.Decision? && x.reply.result.outcome.Granted? ==>
          && |x.entries| > 0
          && var e := x.entries[|x.entries| - 1];
             e.event.Decide? && e.granted && e.event.id == x.reply.result.id && e.event.approve == x.reply.result.approve)
  }

  lemma ServedEntriesTellReply(policy: Policy, ttl: Time, ts: Tickets, x: Exchange)
    requires var s := Serve(policy, ttl, ts, x.request, x.clocks, x.freshId);
      x.entries == s.entries && x.reply == s.reply
    ensures EntriesTellReply(policy, x)
  {
    ServedEntriesAreInReply(policy, ttl, ts, x);
    ServedReplyIsInEntries(policy, ttl, ts, x);
  }

  lemma ServedEntriesAreInReply(policy: Policy, ttl: Time, ts: Tickets, x: Exchange)
    requires var s := Serve(policy, ttl, ts, x.request, x.clocks, x.freshId);
      x.entries == s.entries && x.reply == s.reply
    ensures EntriesAreInReply(policy, x)
  {
    var id, binding := TrimSpace(x.request.approvalHeader), BindingFor(policy, x.request);
    forall i | 0 <= i < |x.entries|
      ensures EntryIsInReply(policy, x, x.entries[i], i)
    {
      if policy.readOnly && !policy.allowedReadOnly(x.request.verb, x.request.path) {
        assert false;
      } else if !RequiresApproval(policy, Resolve(policy, x.request)) {
        HandledEntry(policy, ts, x, None, x.entries[i], i);
      } else if id != "" && i > 0 {
        var consumed := Consumed(ts, id, binding, x.clocks.checked);
        if consumed.outcome.Granted? {
          assert x.entries[i] == Handle(consumed.tickets, x.request, x.clocks, Some(id)).entries[i - 1];
          HandledEntry(policy, consumed.tickets, x, Some(id), x.entries[i], i);
        }
      }
    }
  }

  lemma HandledEntry(policy: Policy, ts: Tickets, x: Exchange, used: Option<string>, e: Entry, i: nat)
    requires var s := Handle(ts, x.request, x.clocks, used); x.reply == s.reply && e in s.entries
    ensures EntryIsInReply(policy, x, e, i)
  {
  }

  lemma ServedReplyIsInEntries(policy: Policy, ttl: Time, ts: Tickets, x: Exchange)
    requires var s := Serve(policy, ttl, ts, x.request, x.clocks, x.freshId);
      x.entries == s.entries && x.reply == s.reply
    ensures ReplyIsInEntries(policy, x)
  {
  }

  lemma EntriesTell(policy: Policy, ttl: Time, log: Log, n: nat)
    requires Genuine(policy, ttl, log) && n < |log|
    ensures EntriesTellReply(policy, log[n])
  {
    assert GenuineAt(policy, ttl, log, n);
    var h := HistoryOf(log, n);
    ServedEntriesTellReply(policy, ttl, TicketsAt(h, ttl, |h|), log[n]);
  }

  /** A handler runs with a ticket exactly when its operation requires approval. */
  lemma HandlerNeedsTicket(policy: Policy, ttl: Time, log: Log, n: nat)
    requires Genuine(policy, ttl, log) && n < |log| && log[n].reply.Handled?
    ensures RequiresApproval(policy, Resolve(policy, log[n].request)) <==> log[n].reply.used.Some?
    ensures log[n].reply.used.Some? ==> log[n].reply.used.value == TrimSpace(log[n].request.approvalHeader)
  {
    assert GenuineAt(policy, ttl, log, n);
  }

  /** When an operation needs the user: in the mode for all writes unless it only reads, in the mode for
      sensitive operations if it is one, and never otherwise or for a decision itself. */
  lemma HandlersFollowMode(policy: Policy, ttl: Time, log: Log, n: nat)
    requires Genuine(policy, ttl, log) && n < |log| && log[n].reply.Handled?
    ensures var r := log[n].request;
      var op := policy.resolve(r.verb, r.path, r.body);
      && (policy.readOnly ==> policy.allowedReadOnly(r.verb, r.path))
      && (log[n].reply.used.Some? <==>
            && op.name != "approval.decision"
            && match policy.mode
               case AllWrite => op.risk == Write || op.risk == Sensitive
               case SensitiveOnly => op.risk == Sensitive
               case Off => false)
  {
    assert GenuineAt(policy, ttl, log, n);
  }

  /** Which requests are not handled: those a read-only agent does not allow; and of the others those that
      need the user and name no ticket, which are asked about, or a ticket that does not entitle them. */
  lemma RepliesFollowMode(policy: Policy, ttl: Time, log: Log, n: nat)
    requires Genuine(policy, ttl, log) && n < |log|
    ensures var r, reply := log[n].request, log[n].reply;
      var op := policy.resolve(r.verb, r.path, r.body);
      var needs := op.name != "approval.decision"
                   && ((policy.mode == AllWrite && op.risk != Read) || (policy.mode == SensitiveOnly && op.risk == Sensitive));
      var shut := policy.readOnly && !policy.allowedReadOnly(r.verb, r.path);
      && (reply.NotAvailable? <==> shut)
      && (reply.ApprovalRequired? <==> !shut && needs && TrimSpace(r.approvalHeader) == "")
      && (reply.ApprovalRefused? ==> !shut && needs && reply.id == TrimSpace(r.approvalHeader) != "")
      && (!shut && !needs ==> reply.Handled? && reply.used == None)
  {
    assert GenuineAt(policy, ttl, log, n);
  }

  /** What is asked about is what the request is for, and the ticket is a new one. */
  lemma QuestionIsTheRequests(policy: Policy, ttl: Time, log: Log, n: nat)
    requires Genuine(policy, ttl, log) && n < |log| && log[n].reply.ApprovalRequired?
    ensures var r, t := log[n].request, log[n].reply.ticket;
      && t.id == log[n].freshId && t.requestId == r.requestId && t.operation == policy.resolve(r.verb, r.path, r.body)
      && t.state == Pending && t.createdAt == log[n].clocks.created && t.decisionAt == None
      && t.expiresAt == t.createdAt + ttl && t.binding == Blank
  {
    assert GenuineAt(policy, ttl, log, n);
  }

  /** A decision that was granted put its ticket into the state it asked for. */
  lemma DecisionTakesEffect(policy: Policy, ttl: Time, log: Log, n: nat)
    requires Genuine(policy, ttl, log) && n < |log| && log[n].reply.Handled?
    requires log[n].reply.result.Decision? && log[n].reply.result.outcome.Granted?
    ensures var d := log[n].reply.result;
      && d.outcome.ticket.state == (if d.approve then Approved else Denied)
      && d.outcome.ticket.decisionAt == Some(log[n].clocks.again)
  {
    assert GenuineAt(policy, ttl, log, n);
  }

  /** Which handled requests are decisions, well formed ones or others. */
  lemma HandledAsItShould(policy: Policy, ttl: Time, log: Log, n: nat)
    requires Genuine(policy, ttl, log) && n < |log| && log[n].reply.Handled?
    ensures log[n].reply.result.Other? <==> !("/v1/approvals/" <= log[n].request.path)
    ensures log[n].reply.result.Decision? <==> "/v1/approvals/" <= log[n].request.path && VerdictOf(log[n].request).Some?
  {
    assert GenuineAt(policy, ttl, log, n);
  }

  /** The decision endpoint acts on the decision its request carried. */
  lemma DecisionIsTheRequests(policy: Policy, ttl: Time, log: Log, n: nat)
    requires Genuine(policy, ttl, log) && n < |log| && log[n].reply.Handled? && log[n].reply.result.Decision?
    ensures VerdictOf(log[n].request) == Some(Verdict(log[n].reply.result.id, log[n].reply.result.approve))
  {
    assert GenuineAt(policy, ttl, log, n);
  }

  // ---------- requests and their ticket operations ----------

  lemma {:induction false} HistoryExtends(log: Log, m: nat, n: nat)
    requires m <= n <= |log|
    ensures HistoryOf(log, m) <= HistoryOf(log, n)
    decreases n - m
  {
    if m < n {
      HistoryExtends(log, m, n - 1);
    }
  }

  /** Request `m` performed operation `p` as its `i`-th. */
  predicate OperationOf(log: Log, n: nat, m: nat, i: nat, p: nat)
    requires m < n <= |log|
  {
    i < |log[m].entries| && p == |HistoryOf(log, m)| + i && p < |HistoryOf(log, n)|
    && HistoryOf(log, n)[p] == log[m].entries[i]
  }

  lemma OperationPosition(log: Log, n: nat, m: nat, i: nat)
    requires m < n <= |log| && i < |log[m].entries|
    ensures OperationOf(log, n, m, i, |HistoryOf(log, m)| + i)
  {
    HistoryExtends(log, m + 1, n);
    assert HistoryOf(log, m + 1)[|HistoryOf(log, m)| + i] == log[m].entries[i];
  }

  /** Every ticket operation belongs to a request. */
  lemma {:induction false} OperationHasRequest(log: Log, n: nat, p: nat) returns (m: nat, i: nat)
    requires n <= |log| && p < |HistoryOf(log, n)|
    ensures m < n && OperationOf(log, n, m, i, p)
  {
    if p < |HistoryOf(log, n - 1)| {
      m, i := OperationHasRequest(log, n - 1, p);
    } else {
      m, i := n - 1, p - |HistoryOf(log, n - 1)|;
    }
  }

  /** Requests perform their operations in the order they are served. */
  lemma OperationOrder(log: Log, n: nat, m: nat, i: nat, p: nat, m': nat, i': nat, p': nat)
    requires m < n <= |log| && m' < n && OperationOf(log, n, m, i, p) && OperationOf(log, n, m', i', p')
    ensures m < m' ==> p < p'
  {
    if m < m' {
      HistoryExtends(log, m + 1, m');
    }
  }

  /** No ticket identifier is issued twice. */
  ghost predicate FreshTickets(log: Log) {
    forall i, j, id {:trigger Asked(log, i, id), Asked(log, j, id)} ::
      0 <= i < |log| && 0 <= j < |log| && Asked(log, i, id) && Asked(log, j, id) ==> i == j
  }

  lemma FreshTicketsMeanFreshIds(policy: Policy, ttl: Time, log: Log, n: nat)
    requires Genuine(policy, ttl, log) && FreshTickets(log) && n <= |log|
    ensures FreshIds(HistoryOf(log, n))
  {
    var h := HistoryOf(log, n);
    forall p, q, id | 0 <= p < |h| && 0 <= q < |h| && Creates(h, p, id) && Creates(h, q, id) ensures p == q {
      var c, i := OperationHasRequest(log, n, p);
      var d, j := OperationHasRequest(log, n, q);
      EntriesTell(policy, ttl, log, c);
      EntriesTell(policy, ttl, log, d);
      assert Asked(log, c, id) && Asked(log, d, id);
    }
  }

  // ---------- one run, one ticket ----------

  /** Handler runs that needed approval correspond one to one to tickets: none serves two runs. */
  lemma OneRunPerTicket(policy: Policy, ttl: Time, log: Log, i: nat, j: nat, id: string)
    requires Genuine(policy, ttl, log) && FreshTickets(log) && i < j < |log|
    requires RunsWith(log, i, id)
    ensures !RunsWith(log, j, id)
  {
    if RunsWith(log, j, id) {
      var h := HistoryOf(log, |log|);
      HistoryIsHonest(policy, ttl, log, |log|);
      FreshTicketsMeanFreshIds(policy, ttl, log, |log|);
      EntriesTell(policy, ttl, log, i);
      EntriesTell(policy, ttl, log, j);
      OperationPosition(log, |log|, i, 0);
      OperationPosition(log, |log|, j, 0);
      var p, q := |HistoryOf(log, i)|, |HistoryOf(log, j)|;
      OperationOrder(log, |log|, i, 0, p, j, 0, q);
      ConsumedAtMostOnce(h, ttl, p, q, id);
    }
  }

  /** A ticket was consumed exactly when some handler ran with it. */
  lemma ConsumedMeansRun(policy: Policy, ttl: Time, log: Log, id: string)
    requires Genuine(policy, ttl, log)
    ensures (exists p :: 0 <= p < |HistoryOf(log, |log|)| && Consumes(HistoryOf(log, |log|), p, id))
       <==> (exists n :: 0 <= n < |log| && RunsWith(log, n, id))
  {
    var h := HistoryOf(log, |log|);
    if p :| 0 <= p < |h| && Consumes(h, p, id) {
      var n, i := OperationHasRequest(log, |log|, p);
      EntriesTell(policy, ttl, log, n);
      assert RunsWith(log, n, id);
    }
    if n :| 0 <= n < |log| && RunsWith(log, n, id) {
      EntriesTell(policy, ttl, log, n);
      OperationPosition(log, |log|, n, 0);
      assert Consumes(h, |HistoryOf(log, n)|, id);
    }
  }

  lemma RecordedIsDecision(policy: Policy, ttl: Time, log: Log, n: nat, d: nat, id: string, approve: bool)
    returns (i: nat, p: nat)
    requires Genuine(policy, ttl, log) && d < n <= |log| && Recorded(log, d, id, approve)
    ensures OperationOf(log, n, d, i, p) && Decides(HistoryOf(log, n), p, id, approve)
  {
    EntriesTell(policy, ttl, log, d);
    i := |log[d].entries| - 1;
    OperationPosition(log, n, d, i);
    p := |HistoryOf(log, d)| + i;
  }

  /** A handler run with a ticket was asked for by an earlier request with the same method, path and
      operation and a body that is hashed alike, approved in between and never denied, and read the
      clock before the ticket expired. */
  lemma RunIsApproved(policy: Policy, ttl: Time, log: Log, n: nat, id: string) returns (c: nat, d: nat)
    requires Genuine(policy, ttl, log) && FreshTickets(log) && n < |log| && RunsWith(log, n, id)
    ensures c < d < n && Asked(log, c, id) && Recorded(log, d, id, true)
    ensures BindingFor(policy, log[c].request) == BindingFor(policy, log[n].request)
    ensures log[c].request.verb == log[n].request.verb && log[c].request.path == log[n].request.path
    ensures HashedAlike(log[c].request.body, log[n].request.body)
    ensures log[n].clocks.checked < log[c].clocks.created + ttl
    ensures forall m :: c < m < n ==> !Recorded(log, m, id, false)
  {
    var h := HistoryOf(log, |log|);
    HistoryIsHonest(policy, ttl, log, |log|);
    FreshTicketsMeanFreshIds(policy, ttl, log, |log|);
    EntriesTell(policy, ttl, log, n);
    OperationPosition(log, |log|, n, 0);
    var q := |HistoryOf(log, n)|;
    GrantNeedsTicket(h, ttl, q);
    var cp := CreationExists(h, ttl, q, id);
    GrantMeansEntitled(h, ttl, cp, q);
    var dp :| cp < dp < q && Decides(h, dp, id, true);
    var ci, di;
    c, ci := OperationHasRequest(log, |log|, cp);
    d, di := OperationHasRequest(log, |log|, dp);
    EntriesTell(policy, ttl, log, c);
    EntriesTell(policy, ttl, log, d);
    RunOrder(log, c, ci, cp, d, di, dp, n, q);
    BindingIsSharedExactly(policy, log[c].request, log[n].request);
    forall m | c < m < n ensures !Recorded(log, m, id, false) {
      if Recorded(log, m, id, false) {
        var i, p := RecordedIsDecision(policy, ttl, log, |log|, m, id, false);
        OperationOrder(log, |log|, c, ci, cp, m, i, p);
        OperationOrder(log, |log|, m, i, p, n, 0, q);
      }
    }
  }

  lemma RunOrder(log: Log, c: nat, ci: nat, cp: nat, d: nat, di: nat, dp: nat, n: nat, q: nat)
    requires c < |log| && d < |log| && n < |log|
    requires OperationOf(log, |log|, c, ci, cp) && OperationOf(log, |log|, d, di, dp) && OperationOf(log, |log|, n, 0, q)
    requires cp < dp < q
    requires |log[c].entries| == 1
    ensures c < d < n
  {
    OperationOrder(log, |log|, d, di, dp, c, ci, cp);
    OperationOrder(log, |log|, n, 0, q, d, di, dp);
  }

  // ---------- why a request is refused ----------

  lemma JoinedWithin(before: History, more: History, h: History)
    requires before + more <= h
    ensures before <= h && |before| + |more| <= |h| && h[|before|..|before| + |more|] == more
  {
    var joined := before + more;
    assert h[..|joined|] == joined;
    assert joined[|before|..] == more && joined[..|before|] == before;
  }

  lemma PrefixKeepsTickets(before: History, h: History, ttl: Time)
    requires before <= h
    ensures TicketsAt(h, ttl, |before|) == TicketsAt(before, ttl, |before|)
  {
    var more := h[|before|..];
    assert h == before + more;
    TicketsOfPrefix(before, more, ttl, |before|);
  }

  lemma AnswerInLog(ttl: Time, log: Log, n: nat, i: nat)
    requires n < |log| && i < |log[n].entries|
    ensures var h, q := HistoryOf(log, |log|), |HistoryOf(log, n)|;
      && q + i < |h| && h[q + i] == log[n].entries[i]
      && TicketsAt(h, ttl, q) == TicketsAt(HistoryOf(log, n), ttl, q)
  {
    var h, before := HistoryOf(log, |log|), HistoryOf(log, n);
    HistoryExtends(log, n, |log|);
    OperationPosition(log, |log|, n, i);
    PrefixKeepsTickets(before, h, ttl);
  }

  /** The reason a request is refused for is the one for which its ticket could not be used up. */
  lemma RefusalIsAnswer(policy: Policy, ttl: Time, log: Log, n: nat)
    requires Genuine(policy, ttl, log) && n < |log| && log[n].reply.ApprovalRefused?
    ensures var h, q := HistoryOf(log, |log|), |HistoryOf(log, n)|;
      && q < |h|
      && h[q].event == Consume(log[n].reply.id, BindingFor(policy, log[n].request), log[n].clocks.checked)
      && Answer(h, ttl, q) == Refused(log[n].reply.error)
  {
    assert GenuineAt(policy, ttl, log, n);
    AnswerInLog(ttl, log, n, 0);
  }

  lemma TicketsNext(h: History, ttl: Time, n: nat)
    requires n < |h|
    ensures TicketsAt(h, ttl, n + 1) == Happens(TicketsAt(h, ttl, n), ttl, h[n].event).tickets
  {
  }

  lemma HandledOutcome(ts: Tickets, ttl: Time, r: Request, k: Clocks, used: Option<string>)
    ensures var s := Handle(ts, r, k, used);
      s.reply.Handled? && (s.reply.result.Decision? ==>
        && s.entries != []
        && s.entries[0].event == Decide(s.reply.result.id, s.reply.result.approve, k.decided, k.again)
        && s.reply.result.outcome == Happens(ts, ttl, s.entries[0].event).outcome)
  {
  }

  /** What its reply says about entry `i` of an exchange that was a decision, with the tickets it found. */
  ghost predicate DecidesAt(x: Exchange, i: nat, ttl: Time, ts: Tickets) {
    && x.reply.Handled? && x.reply.result.Decision? && i < |x.entries|
    && x.entries[i].event == Decide(x.reply.result.id, x.reply.result.approve, x.clocks.decided, x.clocks.again)
    && x.reply.result.outcome == Happens(ts, ttl, x.entries[i].event).outcome
  }

  /** Without a ticket the decision is the first operation. */
  lemma PlainDecision(policy: Policy, ttl: Time, log: Log, n: nat)
    requires Genuine(policy, ttl, log) && n < |log| && log[n].reply.Handled? && log[n].reply.result.Decision?
    requires log[n].reply.used.None?
    ensures DecidesAt(log[n], 0, ttl, TicketsAt(HistoryOf(log, n), ttl, |HistoryOf(log, n)|))
  {
    assert GenuineAt(policy, ttl, log, n);
    var x, before := log[n], HistoryOf(log, n);
    HandledOutcome(TicketsAt(before, ttl, |before|), ttl, x.request, x.clocks, None);
  }

  /** With one it is the second, after the one that used the ticket up. */
  lemma TicketedDecision(policy: Policy, ttl: Time, log: Log, n: nat)
    requires Genuine(policy, ttl, log) && n < |log| && log[n].reply.Handled? && log[n].reply.result.Decision?
    requires log[n].reply.used.Some?
    ensures |log[n].entries| > 1
    ensures var before := HistoryOf(log, n);
      DecidesAt(log[n], 1, ttl, Happens(TicketsAt(before, ttl, |before|), ttl, log[n].entries[0].event).tickets)
  {
    assert GenuineAt(policy, ttl, log, n);
    var x, before := log[n], HistoryOf(log, n);
    var ts := TicketsAt(before, ttl, |before|);
    var consumed := Consumed(ts, TrimSpace(x.request.approvalHeader), BindingFor(policy, x.request), x.clocks.checked);
    HandledOutcome(consumed.tickets, ttl, x.request, x.clocks, x.reply.used);
  }

  /** The operation at `q` is the decision that the exchange was answered with. */
  ghost predicate OutcomeAt(h: History, ttl: Time, q: nat, x: Exchange) {
    && x.reply.Handled? && x.reply.result.Decision? && q < |h|
    && h[q].event == Decide(x.reply.result.id, x.reply.result.approve, x.clocks.decided, x.clocks.again)
    && Answer(h, ttl, q) == x.reply.result.outcome
  }

  lemma OutcomeFrom(h: History, ttl: Time, q: nat, x: Exchange, i: nat, ts: Tickets)
    requires DecidesAt(x, i, ttl, ts) && q < |h| && h[q] == x.entries[i] && TicketsAt(h, ttl, q) == ts
    ensures OutcomeAt(h, ttl, q, x)
  {
  }

  /** The history `h` goes on from the tickets the exchange found with its operations. */
  ghost predicate GoesOn(h: History, ttl: Time, q: nat, log: Log, n: nat)
    requires n < |log|
  {
    && q + |log[n].entries| <= |h| && h[q..q + |log[n].entries|] == log[n].entries
    && TicketsAt(h, ttl, q) == TicketsAt(HistoryOf(log, n), ttl, |HistoryOf(log, n)|)
  }

  lemma PlainOutcome(policy: Policy, ttl: Time, log: Log, n: nat, h: History, q: nat)
    requires Genuine(policy, ttl, log) && n < |log| && log[n].reply.Handled? && log[n].reply.result.Decision?
    requires log[n].reply.used.None? && GoesOn(h, ttl, q, log, n)
    ensures OutcomeAt(h, ttl, q, log[n])
  {
    PlainDecision(policy, ttl, log, n);
    assert h[q..q + |log[n].entries|][0] == h[q];
    OutcomeFrom(h, ttl, q, log[n], 0, TicketsAt(h, ttl, q));
  }

  lemma TicketedOutcome(policy: Policy, ttl: Time, log: Log, n: nat, h: History, q: nat)
    requires Genuine(policy, ttl, log) && n < |log| && log[n].reply.Handled? && log[n].reply.result.Decision?
    requires log[n].reply.used.Some? && GoesOn(h, ttl, q, log, n)
    ensures OutcomeAt(h, ttl, q + 1, log[n])
  {
    TicketedDecision(policy, ttl, log, n);
    assert h[q..q + |log[n].entries|][0] == h[q] && h[q..q + |log[n].entries|][1] == h[q + 1];
    TicketsNext(h, ttl, q);
    OutcomeFrom(h, ttl, q + 1, log[n], 1, TicketsAt(h, ttl, q + 1));
  }

  lemma HistoryGoesOn(ttl: Time, log: Log, n: nat)
    requires n < |log|
    ensures GoesOn(HistoryOf(log, |log|), ttl, |HistoryOf(log, n)|, log, n)
  {
    HistoryExtends(log, n + 1, |log|);
    JoinedWithin(HistoryOf(log, n), log[n].entries, HistoryOf(log, |log|));
    PrefixKeepsTickets(HistoryOf(log, n), HistoryOf(log, |log|), ttl);
  }

  /** The outcome a decision is answered with is that of its attempt to decide. */
  lemma OutcomeIsAnswer(policy: Policy, ttl: Time, log: Log, n: nat)
    requires Genuine(policy, ttl, log) && n < |log| && log[n].reply.Handled? && log[n].reply.result.Decision?
    ensures log[n].reply.used.None? ==> OutcomeAt(HistoryOf(log, |log|), ttl, |HistoryOf(log, n)|, log[n])
    ensures log[n].reply.used.Some? ==> OutcomeAt(HistoryOf(log, |log|), ttl, |HistoryOf(log, n)| + 1, log[n])
  {
    HistoryGoesOn(ttl, log, n);
    if log[n].reply.used.None? {
      PlainOutcome(policy, ttl, log, n, HistoryOf(log, |log|), |HistoryOf(log, n)|);
    } else {
      TicketedOutcome(policy, ttl, log, n, HistoryOf(log, |log|), |HistoryOf(log, n)|);
    }
  }

  /** Where the question and the attempt stand in the history. */
  lemma RefusalInLog(policy: Policy, ttl: Time, log: Log, c: nat, n: nat, id: string)
    requires Genuine(policy, ttl, log) && c < n < |log| && Asked(log, c, id)
    requires log[n].reply.ApprovalRefused? && log[n].reply.id == id
    ensures var h, cp, q := HistoryOf(log, |log|), |HistoryOf(log, c)|, |HistoryOf(log, n)|;
      && cp < q < |h| && Creates(h, cp, id)
      && h[cp].event.binding == BindingFor(policy, log[c].request) && h[cp].event.at == log[c].clocks.created
  {
    RefusalIsAnswer(policy, ttl, log, n);
    EntriesTell(policy, ttl, log, c);
    AnswerInLog(ttl, log, c, 0);
    assert EntryIsInReply(policy, log[c], log[c].entries[0], 0);
    HistoryExtends(log, c + 1, n);
  }

  /** What a refused attempt says about the ticket's past. */
  ghost predicate Explains(error: ApprovalError, h: History, c: nat, n: nat, id: string, expiry: Time, at: Time,
                           was: Binding, wanted: Binding)
    requires n <= |h|
  {
    match error
    case NotFound => EverExpired(h, c, n, id, expiry)
    case Expired => at >= expiry
    case BindingMismatch => wanted != was
    case WasUsed => EverConsumed(h, c, n, id)
    case WasDenied => EverDecided(h, c, n, id, false) && !EverConsumed(h, c, n, id)
    case NotApproved => !EverDecided(h, c, n, id, true) && !EverDecided(h, c, n, id, false)
  }

  lemma RefusalExplained(h: History, ttl: Time, c: nat, n: nat, id: string, error: ApprovalError)
    requires Honest(h, ttl) && FreshIds(h) && c < n < |h| && Creates(h, c, id)
    requires h[n].event.Consume? && h[n].event.id == id && Answer(h, ttl, n) == Refused(error)
    ensures Explains(error, h, c, n, id, h[c].event.at + ttl, h[n].event.at, h[c].event.binding, h[n].event.wanted)
  {
    ConsumptionAnswers(h, ttl, c, n);
  }

  /** A request that names a ticket someone was given is refused for what happened to that ticket. */
  lemma RefusalTellsWhy(policy: Policy, ttl: Time, log: Log, c: nat, n: nat, id: string)
    requires Genuine(policy, ttl, log) && FreshTickets(log) && c < n < |log| && Asked(log, c, id)
    requires log[n].reply.ApprovalRefused? && log[n].reply.id == id
    ensures |HistoryOf(log, n)| < |HistoryOf(log, |log|)|
    ensures Explains(log[n].reply.error, HistoryOf(log, |log|), |HistoryOf(log, c)|, |HistoryOf(log, n)|, id,
                     log[c].clocks.created + ttl, log[n].clocks.checked,
                     BindingFor(policy, log[c].request), BindingFor(policy, log[n].request))
  {
    RefusalInLog(policy, ttl, log, c, n, id);
    RefusalIsAnswer(policy, ttl, log, n);
    HistoryIsHonest(policy, ttl, log, |log|);
    FreshTicketsMeanFreshIds(policy, ttl, log, |log|);
    RefusalExplained(HistoryOf(log, |log|), ttl, |HistoryOf(log, c)|, |HistoryOf(log, n)|, id, log[n].reply.error);
  }
}
