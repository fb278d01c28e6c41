/** The bridge that asks the user and retries once, composed with the gate and with whatever else
    reaches the agent meanwhile. */
module ApprovalBridge {
  import opened Options
  import opened Text
  import opened CanonicalJson
  import opened ApprovalTickets
  import opened ApprovalHistory
  import opened ApprovalGate
  import opened ApprovalPromises

  // ---------- the user's answer ----------

  /** The content of a form result: absent, an empty object, or the fields that matter. */
  datatype FormContent = Absent | EmptyObject | Filled(decision: Option<string>, approved: Option<bool>)

  datatype FormResult = FormFailed | FormAnswered(action: string, content: FormContent)

  datatype Client = Client(supportsForm: bool, form: FormResult)

  datatype Choice = Approve | Deny

  /** The decision an answer stands for; None when the answer is invalid. */
  function DecisionFromResult(action: string, content: FormContent): Option<Choice> {
    if action == "decline" || action == "cancel" then Some(Deny)
    else if action != "accept" then None
    else if !content.Filled? then Some(Approve)
    else
      var explicit := if content.decision.Some? then ToLower(content.decision.value) else "";
      if explicit == "deny" || explicit == "denied" then Some(Deny)
      else if explicit == "approve" || explicit == "approved" then Some(Approve)
      else if content.approved.Some? then Some(if content.approved.value then Approve else Deny)
      else Some(Approve)
  }

  predicate SaysAny(content: FormContent, words: set<string>) {
    content.Filled? && content.decision.Some? && ToLower(content.decision.value) in words
  }

  /** The form says no: in words, or by its flag when the words decide nothing. */
  predicate ExplicitDeny(content: FormContent) {
    || SaysAny(content, {"deny", "denied"})
    || (content.Filled? && content.approved == Some(false) && !SaysAny(content, {"approve", "approved"}))
  }

  /** An answer approves exactly when the form was accepted without an explicit denial, and is
      rejected exactly when it is none of accept, decline and cancel. */
  lemma AnswerApprovesExactly(action: string, content: FormContent)
    ensures DecisionFromResult(action, content) == Some(Approve) <==> action == "accept" && !ExplicitDeny(content)
    ensures DecisionFromResult(action, content) == Some(Deny) <==>
            action == "decline" || action == "cancel" || (action == "accept" && ExplicitDeny(content))
    ensures DecisionFromResult(action, content) == None <==> action !in {"accept", "decline", "cancel"}
  {
  }

  // ---------- prepared requests ----------

  /** Everything about a request but the credentials, so that it can be sent again unchanged. */
  datatype Prepared = Prepared(
    verb: string, path: string, body: Body, approvalId: string, idempotencyKey: string, requestId: string)

  function TextOf(fields: seq<Field>, name: string): string {
    if name in Names(fields) && Final(fields, name).Str? then Final(fields, name).text else ""
  }

  const CONTROL_FIELDS := ["approval_id", "idempotency_key"]

  /** The fields that stay in the body, in their order. */
  function Dropped(fields: seq<Field>): seq<Field> {
    if fields == [] then []
    else
      var f := fields[|fields| - 1];
      Dropped(fields[..|fields| - 1]) + if f.name in CONTROL_FIELDS then [] else [f]
  }

  /** Only the two control fields leave the body. */
  lemma DropOneMore(fields: seq<Field>, f: Field)
    ensures Dropped([]) == []
    ensures Dropped(fields + [f])
         == Dropped(fields) + if f.name == "approval_id" || f.name == "idempotency_key" then [] else [f]
  {
    assert (fields + [f])[..|fields|] == fields;
    assert CONTROL_FIELDS[0] == "approval_id" && CONTROL_FIELDS[1] == "idempotency_key";
  }

  function PrepareRequest(verb: string, path: string, body: Option<JsonValue>, requestId: string): Prepared {
    match body
    case None => Prepared(ToUpper(verb), path, Empty, "", "", requestId)
    case Some(Obj(fields)) =>
      Prepared(ToUpper(verb), path, JsonBody(Obj(Dropped(fields)), "", ""),
               TextOf(fields, "approval_id"), TextOf(fields, "idempotency_key"), requestId)
    case Some(value) => Prepared(ToUpper(verb), path, JsonBody(value, "", ""), "", "", requestId)
  }

  function ToRequest(p: Prepared): Request {
    Request(p.verb, p.path, p.body, p.approvalId, p.requestId)
  }

  /** The control fields are not part of what a request is bound to, so repeating a call with the
      ticket it was given asks for the very same operation. */
  lemma ControlFieldsDoNotBind(policy: Policy, verb: string, path: string, fields: seq<Field>,
                               id: string, key: string, firstId: string, secondId: string)
    ensures var again := fields + [Field("approval_id", Str(id))] + [Field("idempotency_key", Str(key))];
      var p := PrepareRequest(verb, path, Some(Obj(fields)), firstId);
      var q := PrepareRequest(verb, path, Some(Obj(again)), secondId);
      && BindingFor(policy, ToRequest(q)) == BindingFor(policy, ToRequest(p))
      && q.approvalId == id && q.idempotencyKey == key
  {
    ControlFieldsDrop(fields, id, key);
  }

  lemma ControlFieldsDrop(fields: seq<Field>, id: string, key: string)
    ensures var again := fields + [Field("approval_id", Str(id))] + [Field("idempotency_key", Str(key))];
      Dropped(again) == Dropped(fields) && TextOf(again, "approval_id") == id && TextOf(again, "idempotency_key") == key
  {
    var f, g := Field("approval_id", Str(id)), Field("idempotency_key", Str(key));
    DropOneMore(fields, f);
    DropOneMore(fields + [f], g);
    LastIs(fields + [f] + [g], "idempotency_key", |fields| + 1);
    LastIs(fields + [f] + [g], "approval_id", |fields|);
  }

  lemma LastIs(fields: seq<Field>, name: string, i: nat)
    requires i < |fields| && fields[i].name == name && forall j :: i < j < |fields| ==> fields[j].name != name
    ensures name in Names(fields) && LastAt(fields, name) == i
  {
    assert fields[i] in fields;
  }

  function DecisionRequest(id: string, choice: Choice, requestId: string): Request {
    var body := Obj([Field("decision", Str(if choice == Approve then "approve" else "deny"))]);
    ToRequest(PrepareRequest("POST", DECISIONS + id + DECISION, Some(body), requestId))
  }

  lemma DecisionPathParses(id: string)
    ensures HasSuffix(DECISIONS + id + DECISION, DECISION)
    ensures TrimSuffix(TrimPrefix(DECISIONS + id + DECISION, DECISIONS), DECISION) == id
  {
    assert TrimPrefix(DECISIONS + id + DECISION, DECISIONS) == id + DECISION;
    assert TrimSuffix(id + DECISION, DECISION) == id;
  }

  lemma PostIsUpper()
    ensures ToUpper("POST") == "POST"
  {
    assert ToUpper("ST") == "ST";
  }

  lemma DecisionIsDecoded(text: string)
    ensures var fields := [Field("decision", Str(text))];
      Dropped(fields) == fields && DecodedDecision(JsonBody(Obj(fields), "", "")) == Some(text)
  {
    var f := Field("decision", Str(text));
    DropOneMore([], f);
    assert [] + [f] == [f] && [f][..0] == [];
    assert FoldName(f.name) == "decision";
    assert AssignedText([], "decision") == Some("");
    assert AssignedText([f], "decision") == Some(text);
  }

  /** A decision request is understood as what it means, for an identifier without a slash. */
  lemma DecisionIsUnderstood(id: string, choice: Choice, requestId: string)
    requires id != "" && '/' !in id
    ensures VerdictOf(DecisionRequest(id, choice, requestId)) == Some(Verdict(id, choice == Approve))
  {
    DecisionPathParses(id);
    DecisionIsDecoded(if choice == Approve then "approve" else "deny");
    PostIsUpper();
  }

  // ---------- the retry and its ticket ----------

  /** What may come between the question and the retry without spoiling the ticket. */
  predicate Undisturbed(x: Exchange, id: string, expiry: Time) {
    && !(x.reply.Handled? && x.reply.used == Some(id))
    && !(&& x.reply.Handled? && x.reply.result.Decision? && x.reply.result.outcome.Granted?
         && x.reply.result.id == id && !x.reply.result.approve)
    && forall i :: 0 <= i < |x.entries| ==> !FindsExpired(x.entries[i].event, id, expiry)
  }

  /** A retry differs from the request that was asked about only in naming its ticket. */
  predicate Retries(log: Log, c: nat, r: nat, id: string)
    requires c < |log| && r < |log|
  {
    Asked(log, c, id) && log[r].request == log[c].request.(approvalHeader := id) && TrimSpace(id) == id && id != ""
  }

  lemma QuestionCreates(policy: Policy, ttl: Time, log: Log, c: nat, id: string)
    requires Genuine(policy, ttl, log) && c < |log| && Asked(log, c, id)
    ensures RequiresApproval(policy, Resolve(policy, log[c].request))
    ensures !(policy.readOnly && !policy.allowedReadOnly(log[c].request.verb, log[c].request.path))
    ensures var p := |HistoryOf(log, c)|;
      && OperationOf(log, |log|, c, 0, p) && Creates(HistoryOf(log, |log|), p, id)
      && HistoryOf(log, |log|)[p].event.binding == BindingFor(policy, log[c].request)
      && HistoryOf(log, |log|)[p].event.at == log[c].clocks.created
  {
    EntriesTell(policy, ttl, log, c);
    OperationPosition(log, |log|, c, 0);
    assert GenuineAt(policy, ttl, log, c);
  }

  lemma SameBinding(policy: Policy, r: Request, s: Request, id: string)
    requires s == r.(approvalHeader := id)
    ensures Resolve(policy, s) == Resolve(policy, r) && BindingFor(policy, s) == BindingFor(policy, r)
  {
  }

  /** How a request that needs approval and names a ticket is answered. */
  lemma NamedTicketReply(policy: Policy, ttl: Time, log: Log, r: nat)
    requires Genuine(policy, ttl, log) && r < |log|
    requires RequiresApproval(policy, Resolve(policy, log[r].request)) && TrimSpace(log[r].request.approvalHeader) != ""
    requires !(policy.readOnly && !policy.allowedReadOnly(log[r].request.verb, log[r].request.path))
    ensures var h := HistoryOf(log, r);
      var id := TrimSpace(log[r].request.approvalHeader);
      var wanted := BindingFor(policy, log[r].request);
      && |log[r].entries| > 0
      && log[r].entries[0].event == Consume(id, wanted, log[r].clocks.checked)
      && (if log[r].entries[0].granted then log[r].reply.Handled? && log[r].reply.used == Some(id)
          else log[r].reply.ApprovalRefused?
               && (log[r].reply.error == BindingMismatch ==>
                     id in TicketsAt(h, ttl, |h|) && TicketsAt(h, ttl, |h|)[id].binding != wanted))
  {
    assert GenuineAt(policy, ttl, log, r);
  }

  /** A retry is never refused for not matching its ticket. */
  lemma RetryMatchesItsTicket(policy: Policy, ttl: Time, log: Log, c: nat, r: nat, id: string)
    requires Genuine(policy, ttl, log) && FreshTickets(log)
    requires c < r < |log| && Retries(log, c, r, id)
    ensures !(log[r].reply.ApprovalRefused? && log[r].reply.error == BindingMismatch)
    ensures log[r].reply.Handled? || log[r].reply.ApprovalRefused?
  {
    QuestionCreates(policy, ttl, log, c, id);
    SameBinding(policy, log[c].request, log[r].request, id);
    NamedTicketReply(policy, ttl, log, r);
    TicketKeepsBinding(policy, ttl, log, c, r, id);
  }

  lemma TicketKeepsBinding(policy: Policy, ttl: Time, log: Log, c: nat, r: nat, id: string)
    requires Genuine(policy, ttl, log) && FreshTickets(log) && c < r < |log| && Asked(log, c, id)
    ensures var h := HistoryOf(log, r);
      id in TicketsAt(h, ttl, |h|) ==> TicketsAt(h, ttl, |h|)[id].binding == BindingFor(policy, log[c].request)
  {
    var h := HistoryOf(log, r);
    var cp := |HistoryOf(log, c)|;
    QuestionCreates(policy, ttl, log, c, id);
    EntriesTell(policy, ttl, log, c);
    OperationPosition(log, r, c, 0);
    HistoryIsHonest(policy, ttl, log, r);
    HistoryExtends(log, r, |log|);
    FreshTicketsMeanFreshIds(policy, ttl, log, r);
    assert h[cp] == HistoryOf(log, |log|)[cp];
    StateIsHistory(h, ttl, cp, |h|);
  }

  /** No exchange between `c` and `r` used the ticket, denied it or found it expired. */
  ghost predicate Quiet(log: Log, c: nat, r: nat, id: string, expiry: Time)
    requires c < r < |log|
  {
    forall m {:trigger Undisturbed(log[m], id, expiry)} :: c < m < r ==> Undisturbed(log[m], id, expiry)
  }

  lemma QuietPast(policy: Policy, ttl: Time, log: Log, c: nat, r: nat, id: string, expiry: Time)
    requires Genuine(policy, ttl, log) && c < r < |log| && Asked(log, c, id)
    requires Quiet(log, c, r, id, expiry) && |log[r].entries| > 0
    ensures |HistoryOf(log, r)| <= |HistoryOf(log, |log|)|
    ensures var h := HistoryOf(log, |log|);
      var cp, q := |HistoryOf(log, c)|, |HistoryOf(log, r)|;
      !EverConsumed(h, cp, q, id) && !EverDecided(h, cp, q, id, false) && !EverExpired(h, cp, q, id, expiry)
  {
    var h := HistoryOf(log, |log|);
    var cp, q := |HistoryOf(log, c)|, |HistoryOf(log, r)|;
    HistoryExtends(log, r, |log|);
    forall p | cp < p < q
      ensures !Consumes(h, p, id) && !Decides(h, p, id, false) && !FindsExpired(h[p].event, id, expiry)
    {
      UndisturbedOperation(policy, ttl, log, c, r, p, id, expiry);
    }
  }

  lemma ApprovalInPast(policy: Policy, ttl: Time, log: Log, c: nat, d: nat, r: nat, id: string)
    requires Genuine(policy, ttl, log) && c < d < r < |log| && Asked(log, c, id) && Recorded(log, d, id, true)
    requires |log[r].entries| > 0
    ensures |HistoryOf(log, c)| < |HistoryOf(log, r)| < |HistoryOf(log, |log|)|
    ensures EverDecided(HistoryOf(log, |log|), |HistoryOf(log, c)|, |HistoryOf(log, r)|, id, true)
  {
    EntriesTell(policy, ttl, log, c);
    OperationPosition(log, |log|, c, 0);
    OperationPosition(log, |log|, r, 0);
    var di, dp := RecordedIsDecision(policy, ttl, log, |log|, d, id, true);
    OperationOrder(log, |log|, c, 0, |HistoryOf(log, c)|, d, di, dp);
    OperationOrder(log, |log|, d, di, dp, r, 0, |HistoryOf(log, r)|);
  }

  /** If its approval was recorded and nothing in between used the ticket, denied it or found it
      expired, and the retry itself reads the clock in time, the retry runs the handler. */
  lemma UndisturbedRetryRuns(policy: Policy, ttl: Time, log: Log, c: nat, d: nat, r: nat, id: string)
    requires Genuine(policy, ttl, log) && FreshTickets(log)
    requires c < d < r < |log| && Retries(log, c, r, id) && Recorded(log, d, id, true)
    requires Quiet(log, c, r, id, log[c].clocks.created + ttl)
    requires log[r].clocks.checked < log[c].clocks.created + ttl
    ensures RunsWith(log, r, id)
  {
    var expiry := log[c].clocks.created + ttl;
    var h := HistoryOf(log, |log|);
    RetryConsumes(policy, ttl, log, c, r, id);
    QuietPast(policy, ttl, log, c, r, id, expiry);
    ApprovalInPast(policy, ttl, log, c, d, r, id);
    HistoryIsHonest(policy, ttl, log, |log|);
    FreshTicketsMeanFreshIds(policy, ttl, log, |log|);
    EntitledIsGranted(h, ttl, |HistoryOf(log, c)|, |HistoryOf(log, r)|, id, BindingFor(policy, log[c].request),
                      log[r].clocks.checked);
  }

  lemma RetryConsumes(policy: Policy, ttl: Time, log: Log, c: nat, r: nat, id: string)
    requires Genuine(policy, ttl, log) && c < r < |log| && Retries(log, c, r, id)
    ensures |log[r].entries| > 0
    ensures var h := HistoryOf(log, |log|);
      var cp, q := |HistoryOf(log, c)|, |HistoryOf(log, r)|;
      && cp < |h| && q < |h|
      && Creates(h, cp, id) && h[cp].event.binding == BindingFor(policy, log[c].request)
      && h[cp].event.at == log[c].clocks.created
      && h[q].event == Consume(id, BindingFor(policy, log[c].request), log[r].clocks.checked)
      && (h[q].granted ==> RunsWith(log, r, id))
  {
    QuestionCreates(policy, ttl, log, c, id);
    SameBinding(policy, log[c].request, log[r].request, id);
    NamedTicketReply(policy, ttl, log, r);
    OperationPosition(log, |log|, r, 0);
  }

  lemma EntitledIsGranted(h: History, ttl: Time, c: nat, n: nat, id: string, wanted: Binding, checked: Time)
    requires Honest(h, ttl) && FreshIds(h) && c < n < |h|
    requires Creates(h, c, id) && h[c].event.binding == wanted && checked < h[c].event.at + ttl
    requires h[n].event == Consume(id, wanted, checked)
    requires !EverExpired(h, c, n, id, h[c].event.at + ttl) && EverDecided(h, c, n, id, true)
    requires !EverDecided(h, c, n, id, false) && !EverConsumed(h, c, n, id)
    ensures h[n].granted
  {
    GrantMeansEntitled(h, ttl, c, n);
  }

  /** How a decision that passes the gate without a ticket is served. */
  lemma DecisionPerforms(policy: Policy, ttl: Time, log: Log, d: nat, id: string, approve: bool)
    requires Genuine(policy, ttl, log) && d < |log|
    requires DECISIONS <= log[d].request.path && VerdictOf(log[d].request) == Some(Verdict(id, approve))
    requires Resolve(policy, log[d].request).name == "approval.decision"
    requires !(policy.readOnly && !policy.allowedReadOnly(log[d].request.verb, log[d].request.path))
    ensures |log[d].entries| > 0
    ensures log[d].entries[0].event == Decide(id, approve, log[d].clocks.decided, log[d].clocks.again)
    ensures log[d].entries[0].granted ==> Recorded(log, d, id, approve)
  {
    assert GenuineAt(policy, ttl, log, d);
  }

  /** If nothing since the question used the ticket, denied it or found it expired, and the decision itself reads
      the clock in time, the decision is recorded. */
  lemma UndisturbedDecisionIsRecorded(policy: Policy, ttl: Time, log: Log, c: nat, d: nat, id: string, approve: bool)
    requires Genuine(policy, ttl, log) && FreshTickets(log) && c < d < |log| && Asked(log, c, id)
    requires DECISIONS <= log[d].request.path && VerdictOf(log[d].request) == Some(Verdict(id, approve))
    requires Resolve(policy, log[d].request).name == "approval.decision"
    requires !(policy.readOnly && !policy.allowedReadOnly(log[d].request.verb, log[d].request.path))
    requires Quiet(log, c, d, id, log[c].clocks.created + ttl)
    requires log[d].clocks.decided < log[c].clocks.created + ttl
    ensures Recorded(log, d, id, approve)
  {
    var h := HistoryOf(log, |log|);
    var cp, q := |HistoryOf(log, c)|, |HistoryOf(log, d)|;
    QuestionCreates(policy, ttl, log, c, id);
    DecisionPerforms(policy, ttl, log, d, id, approve);
    QuietPast(policy, ttl, log, c, d, id, log[c].clocks.created + ttl);
    OperationPosition(log, |log|, c, 0);
    OperationPosition(log, |log|, d, 0);
    OperationOrder(log, |log|, c, 0, cp, d, 0, q);
    HistoryIsHonest(policy, ttl, log, |log|);
    FreshTicketsMeanFreshIds(policy, ttl, log, |log|);
    OpenIsDecided(h, ttl, cp, q, id, approve, log[d].clocks.decided, log[d].clocks.again);
  }

  lemma OpenIsDecided(h: History, ttl: Time, c: nat, n: nat, id: string, approve: bool, at: Time, decidedAt: Time)
    requires Honest(h, ttl) && FreshIds(h) && c < n < |h|
    requires Creates(h, c, id) && at < h[c].event.at + ttl && h[n].event == Decide(id, approve, at, decidedAt)
    requires !EverExpired(h, c, n, id, h[c].event.at + ttl)
    requires !EverDecided(h, c, n, id, false) && !EverConsumed(h, c, n, id)
    ensures h[n].granted
  {
    DecisionAnswers(h, ttl, c, n);
    assert HonestAt(h, ttl, n);
  }

  lemma UndisturbedOperation(policy: Policy, ttl: Time, log: Log, c: nat, r: nat, p: nat, id: string, expiry: Time)
    requires Genuine(policy, ttl, log) && c < r < |log| && Asked(log, c, id)
    requires Quiet(log, c, r, id, expiry)
    requires |HistoryOf(log, c)| < p < |HistoryOf(log, r)| && p < |HistoryOf(log, |log|)| && |log[r].entries| > 0
    ensures var h := HistoryOf(log, |log|);
      !Consumes(h, p, id) && !Decides(h, p, id, false) && !FindsExpired(h[p].event, id, expiry)
  {
    var m, i := OperationHasRequest(log, |log|, p);
    QuestionCreates(policy, ttl, log, c, id);
    EntriesTell(policy, ttl, log, c);
    EntriesTell(policy, ttl, log, m);
    OperationPosition(log, |log|, r, 0);
    OperationOrder(log, |log|, m, i, p, c, 0, |HistoryOf(log, c)|);
    OperationOrder(log, |log|, r, 0, |HistoryOf(log, r)|, m, i, p);
    assert c < m < r;
    assert Undisturbed(log[m], id, expiry);
  }
}
