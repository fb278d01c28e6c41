/** The bridge's tool call as the sequence of sends it is, with other requests in between and
    messages that may be lost. */
module BridgeFlow {
  import opened Options
  import opened Text
  import opened CanonicalJson
  import opened ApprovalTickets
  import opened ApprovalHistory
  import opened ApprovalGate
  import opened ApprovalPromises
  import opened ApprovalBridge

  /** What an identifier looks like: non-empty, without white space or slashes. */
  predicate IsId(id: string) {
    id != "" && forall i :: 0 <= i < |id| ==> !IsSpace(id[i]) && id[i] != '/'
  }

  lemma IdsAreTrimmed(id: string)
    requires IsId(id)
    ensures TrimSpace(id) == id && '/' !in id
  {
    assert !IsSpace(id[0]) && !IsSpace(id[|id| - 1]);
  }

  lemma FreshIdExists(issued: set<string>) returns (id: string)
    ensures IsId(id) && id !in issued
  {
    var longest: nat := 0;
    var rest := issued;
    while rest != {}
      invariant forall s :: s in issued && s !in rest ==> |s| <= longest
      decreases |rest|
    {
      var s :| s in rest;
      longest := if |s| > longest then |s| else longest;
      rest := rest - {s};
    }
    id := seq(longest + 1, i => 'a');
  }

  /** What becomes of one request and its reply. */
  datatype Passage = Lost | ReplyLost | Through

  /** The agent behind the network, and everything it has served. */
  class Network {
    const server: Server
    var issued: set<string>
    ghost var log: Log

    ghost predicate Valid()
      reads this, server.approvals
    {
      && Genuine(server.policy, server.approvals.ttl, log)
      && server.approvals.tickets == TicketsAt(HistoryOf(log, |log|), server.approvals.ttl, |HistoryOf(log, |log|)|)
      && FreshTickets(log)
      && (forall i, id {:trigger Asked(log, i, id)} :: 0 <= i < |log| && Asked(log, i, id) ==> id in issued && IsId(id))
    }

    constructor (policy: Policy, ttl: Time)
      ensures Valid() && log == []
    {
      var approvals := new Manager(ttl);
      server := new Server(policy, approvals);
      issued, log := {}, [];
    }

    /** One request reaches the agent, at whatever time its clock shows. */
    method Deliver(r: Request) returns (reply: Reply)
      requires Valid()
      modifies this, server.approvals
      ensures Valid() && |log| == |old(log)| + 1 && old(log) == log[..|old(log)|]
      ensures log[|old(log)|].request == r && log[|old(log)|].reply == reply
    {
      var k: Clocks := *;
      ghost var example := FreshIdExists(issued);
      var id: string :| IsId(id) && id !in issued;
      ghost var was := log;
      ghost var entries;
      reply, entries := server.OperationControl(r, k, id);
      issued := issued + {id};
      log := log + [Exchange(r, k, id, entries, reply)];
      LogGrows(server.policy, server.approvals.ttl, was, log[|was|]);
      forall i, d | 0 <= i < |log| && Asked(log, i, d) ensures if i < |was| then Asked(was, i, d) else d == id {
        if i == |was| {
          AskedIdIsFresh(server.policy, server.approvals.ttl, log, i, d);
        }
      }
    }

    /** Other clients and other tools are served meanwhile. */
    method Others()
      requires Valid()
      modifies this, server.approvals
      ensures Valid() && |old(log)| <= |log| && old(log) == log[..|old(log)|]
    {
      var n :| 0 <= n;
      for i := 0 to n
        invariant Valid() && |old(log)| <= |log| && old(log) == log[..|old(log)|]
      {
        var r: Request := *;
        var _ := Deliver(r);
      }
    }

    /** Sends a request, which is served unless it is lost, and gets the reply unless that is lost. `at` is when
        it was served. */
    method Fetch(r: Request, passage: Passage) returns (reply: Option<Reply>, ghost at: Option<nat>)
      requires Valid()
      modifies this, server.approvals
      ensures Valid() && |old(log)| <= |log| && old(log) == log[..|old(log)|]
      ensures at.Some? <==> passage != Lost
      ensures at.Some? ==> |old(log)| <= at.value < |log| && log[at.value].request == r
      ensures reply.Some? <==> passage == Through
      ensures reply.Some? ==> reply.value == log[at.value].reply
    {
      Others();
      reply, at := None, None;
      if passage != Lost {
        at := Some(|log|);
        var answer := Deliver(r);
        if passage == Through {
          reply := Some(answer);
        }
      }
      Others();
    }
  }

  lemma {:induction false} HistoryOfGrown(log: Log, x: Exchange, n: nat)
    requires n <= |log|
    ensures HistoryOf(log + [x], n) == HistoryOf(log, n)
  {
    if n > 0 {
      HistoryOfGrown(log, x, n - 1);
    }
  }

  /** One more exchange served from the current tickets keeps the log genuine. */
  lemma LogGrows(policy: Policy, ttl: Time, log: Log, x: Exchange)
    requires Genuine(policy, ttl, log)
    requires var h := HistoryOf(log, |log|);
      var s := Serve(policy, ttl, TicketsAt(h, ttl, |h|), x.request, x.clocks, x.freshId);
      x.entries == s.entries && x.reply == s.reply
    ensures Genuine(policy, ttl, log + [x])
    ensures var h := HistoryOf(log, |log|);
      var longer := HistoryOf(log + [x], |log| + 1);
      TicketsAt(longer, ttl, |longer|)
        == Serve(policy, ttl, TicketsAt(h, ttl, |h|), x.request, x.clocks, x.freshId).tickets
  {
    var h := HistoryOf(log, |log|);
    forall n | 0 <= n < |log + [x]| ensures GenuineAt(policy, ttl, log + [x], n) {
      HistoryOfGrown(log, x, n);
      if n < |log| {
        assert GenuineAt(policy, ttl, log, n);
      }
    }
    HistoryOfGrown(log, x, |log|);
    HistoryIsHonest(policy, ttl, log, |log|);
    ServeIsHonest(policy, h, ttl, x.request, x.clocks, x.freshId);
  }

  lemma AskedIdIsFresh(policy: Policy, ttl: Time, log: Log, i: nat, id: string)
    requires Genuine(policy, ttl, log) && i < |log| && Asked(log, i, id)
    ensures id == log[i].freshId
  {
    assert GenuineAt(policy, ttl, log, i);
  }

  // ---------- the tool call ----------

  datatype ToolResult = Succeeded | Failed(code: string)

  /** Which of a tool call's own requests were served, and when. */
  datatype Trail = Trail(first: Option<nat>, decision: Option<nat>, retry: Option<nat>)

  /** What becomes of each of them on the way. */
  datatype Passages = Passages(first: Passage, decision: Passage, retry: Passage)

  /** The code of a reply that is an error. What a handler answers is its own affair. */
  function ErrorCode(reply: Option<Reply>): Option<string> {
    match reply
    case None => None
    case Some(NotAvailable) => Some("supplement_read_only")
    case Some(ApprovalRequired(_)) => Some("approval_required")
    case Some(ApprovalRefused(_, error)) => Some(ApprovalCode(error))
    case Some(Handled(_, Decision(_, _, Refused(error)))) => Some(ApprovalCode(error))
    case Some(Handled(_, _)) => None
  }

  function CodeOr(reply: Option<Reply>, otherwise: string): string {
    if ErrorCode(reply).Some? then ErrorCode(reply).value else otherwise
  }

  predicate Complete(spec: Prepared) {
    spec.verb != "" && spec.path != "" && spec.requestId != ""
  }

  // ---------- how it may end ----------

  predicate Served(log: Log, at: Option<nat>, since: nat, r: Request) {
    at.Some? ==> since <= at.value < |log| && log[at.value].request == r
  }

  predicate Ran(log: Log, at: Option<nat>) {
    at.Some? && at.value < |log| && log[at.value].reply.Handled?
  }

  /** The user accepted the form without denying. */
  predicate Approves(client: Client) {
    && client.supportsForm && client.form.FormAnswered?
    && client.form.action == "accept" && !ExplicitDeny(client.form.content)
  }

  predicate Denies(client: Client) {
    && client.supportsForm && client.form.FormAnswered?
    && (|| client.form.action in {"decline", "cancel"}
        || (client.form.action == "accept" && ExplicitDeny(client.form.content)))
  }

  /** The decision, if it was served, told the agent what to record for the ticket. */
  predicate Carries(log: Log, at: Option<nat>, since: nat, id: string, approve: bool) {
    at.Some? ==>
      && since <= at.value < |log|
      && log[at.value].request.verb == "POST" && log[at.value].request.path == "/v1/approvals/" + id + "/decision"
      && VerdictOf(log[at.value].request) == Some(Verdict(id, approve))
  }

  /** The agent recorded the decision and its reply came back. */
  predicate Confirmed(log: Log, at: Option<nat>, passage: Passage, id: string, approve: bool) {
    passage == Through && at.Some? && at.value < |log| && Recorded(log, at.value, id, approve)
  }

  /** The failure names the reason for which the agent refused, or `otherwise` if the reply was lost. */
  predicate FailsFor(log: Log, at: Option<nat>, passage: Passage, result: ToolResult, otherwise: string) {
    && result.Failed?
    && (passage != Through ==> result.code == otherwise)
    && (passage == Through && at.Some? && at.value < |log| ==>
          var reply := log[at.value].reply;
          && (reply.ApprovalRefused? ==> NamesError(result.code, reply.error))
          && (reply.Handled? && reply.result.Decision? && reply.result.outcome.Refused? ==>
                NamesError(result.code, reply.result.outcome.error)))
  }

  predicate NamesError(code: string, error: ApprovalError) {
    && (code == "approval_not_found" <==> error == NotFound)
    && (code == "approval_expired" <==> error == Expired)
    && (code == "approval_not_approved" <==> error == NotApproved)
    && (code == "approval_denied" <==> error == WasDenied)
    && (code == "approval_used" <==> error == WasUsed)
    && (code == "approval_mismatch" <==> error == BindingMismatch)
  }

  /** What a tool call comes to once it was asked to get approval under ticket `id`. */
  ghost predicate FlowEnds(log: Log, client: Client, spec: Prepared, passages: Passages, id: string,
                           decision: Option<nat>, retry: Option<nat>, result: ToolResult) {
    && (!client.supportsForm ==> result == Failed("approval_interaction_unavailable"))
    && (client.supportsForm && client.form.FormFailed? ==> result == Failed("approval_interaction_failed"))
    && (client.supportsForm && client.form.FormAnswered? && client.form.action !in {"accept", "decline", "cancel"} ==>
          result == Failed("approval_invalid_response"))
    && (decision.Some? <==> (Approves(client) || Denies(client)) && passages.decision != Lost)
    && (Denies(client) && Confirmed(log, decision, passages.decision, id, false) ==> result == Failed("approval_denied"))
    && (Denies(client) && !Confirmed(log, decision, passages.decision, id, false) ==>
          FailsFor(log, decision, passages.decision, result, "approval_decision_failed"))
    && (Approves(client) && !Confirmed(log, decision, passages.decision, id, true) ==>
          FailsFor(log, decision, passages.decision, result, "approval_decision_failed"))
    && (Approves(client) && Confirmed(log, decision, passages.decision, id, true) && !Complete(spec) ==>
          result == Failed("approval_request_unavailable"))
    && (retry.Some? <==> Approves(client) && Confirmed(log, decision, passages.decision, id, true) && Complete(spec)
                         && passages.retry != Lost)
    && (Approves(client) && Confirmed(log, decision, passages.decision, id, true) && Complete(spec) ==>
          if passages.retry == Through && Ran(log, retry) then result == Succeeded
          else FailsFor(log, retry, passages.retry, result, "approval_retry_failed"))
  }

  /** The retry of `prepared` with a ticket, once: the user accepted the form without denying, the
      agent recorded the approval of the ticket that the first attempt was given, and the retry is the
      first attempt again but for naming the ticket. */
  ghost predicate ApprovedRetry(log: Log, client: Client, prepared: Prepared, trail: Trail, id: string) {
    && Approves(client)
    && trail.first.Some? && trail.decision.Some? && trail.retry.Some?
    && trail.first.value < trail.decision.value < trail.retry.value < |log|
    && log[trail.first.value].request == ToRequest(prepared)
    && Retries(log, trail.first.value, trail.retry.value, id)
    && Recorded(log, trail.decision.value, id, true)
  }

  // ---------- its steps ----------

  /** Asks the user about the ticket, records the decision, and retries if it was approved. */
  method HandleApprovalRequired(net: Network, client: Client, spec: Prepared, ticket: Ticket, decisionId: string,
                                passages: Passages, ghost first: nat)
    returns (result: ToolResult, ghost decision: Option<nat>, ghost retry: Option<nat>)
    requires net.Valid() && first < |net.log| && Asked(net.log, first, ticket.id)
    requires net.log[first].request == ToRequest(spec)
    modifies net, net.server.approvals
    ensures net.Valid() && |old(net.log)| <= |net.log| && old(net.log) == net.log[..|old(net.log)|]
    ensures Carries(net.log, decision, |old(net.log)|, ticket.id, Approves(client))
    ensures retry.Some? ==> ApprovedRetry(net.log, client, spec, Trail(Some(first), decision, retry), ticket.id)
    ensures FlowEnds(net.log, client, spec, passages, ticket.id, decision, retry, result)
  {
    decision, retry := None, None;
    IdsAreTrimmed(ticket.id);
    if !client.supportsForm {
      return Failed("approval_interaction_unavailable"), decision, retry;
    }
    if client.form.FormFailed? {
      return Failed("approval_interaction_failed"), decision, retry;
    }
    var choice := DecisionFromResult(client.form.action, client.form.content);
    AnswerApprovesExactly(client.form.action, client.form.content);
    if choice.None? {
      return Failed("approval_invalid_response"), decision, retry;
    }
    ghost var log := net.log;
    var state, code;
    state, code, decision := RecordDecision(net, ticket.id, choice.value, decisionId, passages.decision);
    assert net.log[first] == log[first];
    if state.None? {
      return Failed(code), decision, retry;
    }
    if state.value != (if choice.value == Approve then Approved else Denied) {
      return Failed("approval_decision_unconfirmed"), decision, retry;
    }
    if choice.value == Deny {
      return Failed("approval_denied"), decision, retry;
    }
    ghost var recorded := net.log;
    result, retry := RetryRequest(net, client, spec, ticket.id, passages.retry, first, decision.value);
    assert net.log[decision.value] == recorded[decision.value];
  }

  lemma DecisionCarries(log: Log, at: Option<nat>, since: nat, id: string, choice: Choice, decisionId: string)
    requires at.Some? ==> since <= at.value < |log| && log[at.value].request == DecisionRequest(id, choice, decisionId)
    requires id != "" && '/' !in id
    ensures Carries(log, at, since, id, choice == Approve)
  {
    DecisionIsUnderstood(id, choice, decisionId);
    PostIsUpper();
  }

  /** A decision that was granted is recorded as it was carried, with the state that belongs to it. */
  lemma GrantIsRecorded(policy: Policy, ttl: Time, log: Log, at: Option<nat>, since: nat, id: string, approve: bool)
    requires Genuine(policy, ttl, log) && at.Some? && Carries(log, at, since, id, approve)
    requires var reply := log[at.value].reply;
      reply.Handled? && reply.result.Decision? && reply.result.outcome.Granted?
    ensures Recorded(log, at.value, id, approve)
    ensures log[at.value].reply.result.outcome.ticket.state == if approve then Approved else Denied
  {
    DecisionIsTheRequests(policy, ttl, log, at.value);
    DecisionTakesEffect(policy, ttl, log, at.value);
  }

  lemma ReplyFails(log: Log, at: Option<nat>, passage: Passage, reply: Option<Reply>, otherwise: string)
    requires at.Some? ==> at.value < |log|
    requires reply.Some? <==> passage == Through
    requires reply.Some? ==> at.Some? && reply.value == log[at.value].reply
    ensures FailsFor(log, at, passage, Failed(CodeOr(reply, otherwise)), otherwise)
  {
  }

  /** Sends the decision; a state comes back exactly if the agent recorded it and says so. */
  method RecordDecision(net: Network, id: string, choice: Choice, decisionId: string, passage: Passage)
    returns (state: Option<State>, code: string, ghost at: Option<nat>)
    requires net.Valid() && id != "" && '/' !in id
    modifies net, net.server.approvals
    ensures net.Valid() && |old(net.log)| <= |net.log| && old(net.log) == net.log[..|old(net.log)|]
    ensures at.Some? <==> passage != Lost
    ensures Carries(net.log, at, |old(net.log)|, id, choice == Approve)
    ensures state.Some? <==> Confirmed(net.log, at, passage, id, choice == Approve)
    ensures state.Some? ==> state.value == if choice == Approve then Approved else Denied
    ensures state.None? ==> FailsFor(net.log, at, passage, Failed(code), "approval_decision_failed")
  {
    var reply;
    reply, at := net.Fetch(DecisionRequest(id, choice, decisionId), passage);
    code := CodeOr(reply, "approval_decision_failed");
    DecisionCarries(net.log, at, |old(net.log)|, id, choice, decisionId);
    ReplyFails(net.log, at, passage, reply, "approval_decision_failed");
    if reply.None? || !reply.value.Handled? || !reply.value.result.Decision? || reply.value.result.outcome.Refused? {
      return None, code, at;
    }
    GrantIsRecorded(net.server.policy, net.server.approvals.ttl, net.log, at, |old(net.log)|, id, choice == Approve);
    state := Some(reply.value.result.outcome.ticket.state);
  }

  /** Sends the request again with its ticket. */
  method RetryRequest(net: Network, ghost client: Client, spec: Prepared, id: string, passage: Passage,
                      ghost first: nat, ghost decision: nat)
    returns (result: ToolResult, ghost retry: Option<nat>)
    requires net.Valid() && first < decision < |net.log| && Asked(net.log, first, id) && TrimSpace(id) == id && id != ""
    requires net.log[first].request == ToRequest(spec) && Recorded(net.log, decision, id, true)
    requires Approves(client)
    modifies net, net.server.approvals
    ensures net.Valid() && |old(net.log)| <= |net.log| && old(net.log) == net.log[..|old(net.log)|]
    ensures retry.Some? ==> ApprovedRetry(net.log, client, spec, Trail(Some(first), Some(decision), retry), id)
    ensures retry.Some? <==> Complete(spec) && passage != Lost
    ensures !Complete(spec) ==> result == Failed("approval_request_unavailable")
    ensures Complete(spec) ==>
      if passage == Through && Ran(net.log, retry) then result == Succeeded
      else FailsFor(net.log, retry, passage, result, "approval_retry_failed")
  {
    retry := None;
    if spec.verb == "" || spec.path == "" || spec.requestId == "" {
      return Failed("approval_request_unavailable"), retry;
    }
    ghost var log := net.log;
    var reply;
    reply, retry := net.Fetch(ToRequest(spec.(approvalId := id)), passage);
    assert forall i :: 0 <= i < |log| ==> net.log[i] == log[i];
    if reply.None? || !reply.value.Handled? {
      ReplyFails(net.log, retry, passage, reply, "approval_retry_failed");
      return Failed(CodeOr(reply, "approval_retry_failed")), retry;
    }
    result := Succeeded;
  }

  /** One tool call: the first attempt, and at most one approved retry. The handler runs at most once,
      whatever is lost on the way, and if it ran by the retry the user had approved. */
  method CallTool(net: Network, client: Client, verb: string, path: string, args: Option<JsonValue>,
                  requestId: string, decisionId: string, passages: Passages)
    returns (result: ToolResult, ghost trail: Trail)
    requires net.Valid()
    modifies net, net.server.approvals
    ensures net.Valid() && |old(net.log)| <= |net.log| && old(net.log) == net.log[..|old(net.log)|]
    ensures Served(net.log, trail.first, |old(net.log)|, ToRequest(PrepareRequest(verb, path, args, requestId)))
    ensures trail.first.Some? <==> passages.first != Lost
    ensures !(Ran(net.log, trail.first) && trail.retry.Some?)
    ensures passages.first != Through ==> result == Failed("transport") && trail.decision.None? && trail.retry.None?
    ensures passages.first == Through && Ran(net.log, trail.first) ==> result == Succeeded && trail.decision.None?
    ensures passages.first == Through && !Ran(net.log, trail.first) ==>
      var reply := net.log[trail.first.value].reply;
      if reply.ApprovalRequired? then
        && FlowEnds(net.log, client, PrepareRequest(verb, path, args, requestId), passages, reply.ticket.id,
                    trail.decision, trail.retry, result)
        && Carries(net.log, trail.decision, trail.first.value + 1, reply.ticket.id, Approves(client))
      else result == Failed("refused") && trail.decision.None? && trail.retry.None?
    ensures trail.retry.Some? ==>
      exists id :: ApprovedRetry(net.log, client, PrepareRequest(verb, path, args, requestId), trail, id)
  {
    var spec := PrepareRequest(verb, path, args, requestId);
    var reply;
    ghost var first;
    reply, first := net.Fetch(ToRequest(spec), passages.first);
    trail := Trail(first, None, None);
    if reply.None? {
      return Failed("transport"), trail;
    }
    if reply.value.Handled? {
      return Succeeded, trail;
    }
    if !reply.value.ApprovalRequired? {
      return Failed("refused"), trail;
    }
    assert Asked(net.log, first.value, reply.value.ticket.id);
    if reply.value.ticket.id == "" {
      return Failed("approval_request_unavailable"), trail;
    }
    ghost var log := net.log;
    ghost var decision, retry;
    result, decision, retry :=
      HandleApprovalRequired(net, client, spec, reply.value.ticket, decisionId, passages, first.value);
    trail := Trail(first, decision, retry);
    assert net.log[first.value] == log[first.value];
  }

  /** What the retry came to: it ran the handler, or it was refused for another reason than not
      matching its ticket; and unless the ticket expired, was decided otherwise or was used
      meanwhile, it ran. */
  lemma RetryOutcome(policy: Policy, ttl: Time, log: Log, client: Client, spec: Prepared, trail: Trail, id: string)
    requires Genuine(policy, ttl, log) && FreshTickets(log) && ApprovedRetry(log, client, spec, trail, id)
    ensures var r := log[trail.retry.value].reply;
      r.Handled? || (r.ApprovalRefused? && r.error != BindingMismatch)
    ensures var c := log[trail.first.value].clocks.created + ttl;
      && Quiet(log, trail.first.value, trail.retry.value, id, c)
      && log[trail.retry.value].clocks.checked < c
      ==> RunsWith(log, trail.retry.value, id)
  {
    RetryMatchesItsTicket(policy, ttl, log, trail.first.value, trail.retry.value, id);
    var c := log[trail.first.value].clocks.created + ttl;
    if Quiet(log, trail.first.value, trail.retry.value, id, c) && log[trail.retry.value].clocks.checked < c {
      UndisturbedRetryRuns(policy, ttl, log, trail.first.value, trail.decision.value, trail.retry.value, id);
    }
  }

  /** The server recognises decisions and lets them pass. */
  ghost predicate AcceptsDecisions(policy: Policy) {
    forall r: Request {:trigger Resolve(policy, r)} :: "/v1/approvals/" <= r.path ==>
      && Resolve(policy, r).name == "approval.decision"
      && (policy.readOnly ==> policy.allowedReadOnly(r.verb, r.path))
  }

  /** What the decision came to: unless the ticket expired, was denied or was used meanwhile, it is recorded. */
  lemma DecisionOutcome(policy: Policy, ttl: Time, log: Log, trail: Trail, id: string, approve: bool)
    requires Genuine(policy, ttl, log) && FreshTickets(log) && AcceptsDecisions(policy)
    requires trail.first.Some? && trail.first.value < |log| && Asked(log, trail.first.value, id)
    requires trail.decision.Some? && Carries(log, trail.decision, trail.first.value + 1, id, approve)
    ensures var c := log[trail.first.value].clocks.created + ttl;
      && Quiet(log, trail.first.value, trail.decision.value, id, c)
      && log[trail.decision.value].clocks.decided < c
      ==> Recorded(log, trail.decision.value, id, approve)
  {
    var c := log[trail.first.value].clocks.created + ttl;
    var d := trail.decision.value;
    assert Resolve(policy, log[d].request).name == "approval.decision" by {
      assert log[d].request.path[..|DECISIONS|] == DECISIONS;
    }
    if Quiet(log, trail.first.value, d, id, c) && log[d].clocks.decided < c {
      UndisturbedDecisionIsRecorded(policy, ttl, log, trail.first.value, d, id, approve);
    }
  }

  /** Once the user approved, nothing is lost and nothing disturbs the ticket, the call runs its handler and
      succeeds. */
  lemma ApprovedCallSucceeds(policy: Policy, ttl: Time, log: Log, client: Client, spec: Prepared, trail: Trail,
                             id: string, result: ToolResult)
    requires Genuine(policy, ttl, log) && FreshTickets(log) && AcceptsDecisions(policy)
    requires Approves(client) && Complete(spec)
    requires trail.first.Some? && trail.first.value < |log| && Asked(log, trail.first.value, id)
    requires Carries(log, trail.decision, trail.first.value + 1, id, true)
    requires FlowEnds(log, client, spec, Passages(Through, Through, Through), id, trail.decision, trail.retry, result)
    requires trail.retry.Some? ==> ApprovedRetry(log, client, spec, trail, id)
    requires var c := log[trail.first.value].clocks.created + ttl;
      && Quiet(log, trail.first.value, trail.decision.value, id, c) && log[trail.decision.value].clocks.decided < c
      && (trail.retry.Some? ==>
            Quiet(log, trail.first.value, trail.retry.value, id, c) && log[trail.retry.value].clocks.checked < c)
    ensures trail.retry.Some? && RunsWith(log, trail.retry.value, id) && result == Succeeded
  {
    DecisionOutcome(policy, ttl, log, trail, id, true);
    RetryOutcome(policy, ttl, log, client, spec, trail, id);
  }
}
