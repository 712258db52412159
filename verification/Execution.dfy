// Carrying out an approved plan: one signed egress call per step, and the record that is left.
module Execution {
  import opened Wrappers
  import opened Json
  import opened Models
  import opened InternalAuth
  import opened Egress
  import opened Redaction
  import Equality
  import Dispatcher
  import Policy
  import Hashing
  import ToolCatalog

  datatype TokenResponse = TokenResponse(accessToken: string, scopes: seq<string>, audience: Option<string>)

  datatype ExecutionError =
    | TokenAudienceRequired
    | ApprovalExpired
    | TargetMissing(stepId: string)
    | UndecodablePayload
    | InvalidGrant
    | SecretMissing
    | HttpFailure
    | McpFailure

  // What the gateway answers to a call.
  datatype Reply = HttpError | Answer(result: map<string, Json>)

  function Grant(record: WorkflowRecord, approval: ApprovedWorkflow, token: TokenResponse, step: WorkflowStep,
                 target: string, arguments: map<string, Json>): ExecutionGrant {
    ExecutionGrant(
      record.workflowId, approval.approvalId, record.planHash, step.stepId,
      if step.operationType == READ then "READ" else "EXECUTE",
      if step.operationType == READ then "GET" else "POST",
      target, step.action, arguments, step.requiredScopes, token.audience,
      record.userId, record.sessionId, record.tenantId, approval.approvedByUserId, approval.expiresAt,
      record.workflowId + ":" + step.stepId)
  }

  function RequestFor(g: ExecutionGrant, signature: string, token: TokenResponse): EgressRequest {
    EgressRequest(
      g.primitive, g.verb, g.targetMcp, g.toolName, g.arguments, g.workflowId, Some(g.approvalId),
      Some("obo:" + g.approvalId), Some(g), Some(signature), token.scopes, token.audience, Some(token.accessToken))
  }

  // The call of one step, as far as it is not stopped before it is sent.
  function BuildRequest(record: WorkflowRecord, approval: ApprovedWorkflow, token: TokenResponse, step: WorkflowStep,
                        now: Time, keys: Keys): Result<EgressRequest, ExecutionError> {
    if approval.expiresAt.Some? && approval.expiresAt.value <= now then Err(ApprovalExpired)
    else if !Truthy(step.downstreamAudience) then Err(TargetMissing(step.stepId))
    else
      match Loads(step.inputPayloadJson)
      case None => Err(UndecodablePayload)
      case Some(Obj(arguments)) =>
        if "" in arguments then Err(InvalidGrant)
        else
          var g := Grant(record, approval, token, step, step.downstreamAudience.value, arguments);
          (match SignGrant(g, keys)
           case Err(_) => Err(SecretMissing)
           case Ok(signature) => Ok(RequestFor(g, signature, token)))
      case Some(_) => Err(InvalidGrant)
  }

  // `_egress_trusted_context`; it lasts five minutes.
  function EgressContext(record: WorkflowRecord, approval: ApprovedWorkflow, now: Time): TrustedSessionContext {
    TrustedSessionContext(
      record.userId, record.sessionId, record.tenantId, record.tokenRef, record.policy.requiredScopes, None,
      approval.approvalId, now + 5 * 60 * 1_000_000)
  }

  // `_egress_result_failed`.
  predicate IsFailedResult(result: map<string, Json>) {
    match Get(result, "outbound")
    case Some(Obj(outbound)) =>
      (match Get(outbound, "mcp_result")
       case Some(Obj(mcp)) => Get(mcp, "status") == Some(Str("failed")) || Get(mcp, "is_error") == Some(Bool(true))
       case _ => true)
    case _ => false
  }

  // How the step comes out, given the time it is tried and the answer it would get.
  function StepOutcome(record: WorkflowRecord, approval: ApprovedWorkflow, token: TokenResponse, step: WorkflowStep,
                       now: Time, reply: Reply, keys: Keys): Result<Json, ExecutionError> {
    match BuildRequest(record, approval, token, step, now, keys)
    case Err(e) => Err(e)
    case Ok(_) =>
      match reply
      case HttpError => Err(HttpFailure)
      case Answer(result) => if IsFailedResult(result) then Err(McpFailure)
        else Ok(StripKeys(Obj(result), IsBrowserPrivate))
  }

  // ---- What is sent, and what comes of it ----

  // The grant for one step: what it names of the record, the approval, the token and the step.
  predicate IsGrantOf(g: ExecutionGrant, record: WorkflowRecord, approval: ApprovedWorkflow, token: TokenResponse,
                      step: WorkflowStep) {
    && g.workflowId == record.workflowId && g.planHash == record.planHash && g.userId == record.userId
    && g.sessionId == record.sessionId && g.tenantId == record.tenantId
    && g.approvalId == approval.approvalId && g.approvedByUserId == approval.approvedByUserId
    && g.expiresAt == approval.expiresAt && g.audience == token.audience
    && g.stepId == step.stepId && g.toolName == step.action && step.downstreamAudience == Some(g.targetMcp)
    && g.requiredScopes == step.requiredScopes && Loads(step.inputPayloadJson) == Some(Obj(g.arguments))
    && g.correlationId == record.workflowId + ":" + step.stepId
    && (step.operationType == READ ==> g.primitive == "READ" && g.verb == "GET")
    && (step.operationType != READ ==> g.primitive == "EXECUTE" && g.verb == "POST")
  }

  // The call for one step: its grant, signed, and the token.
  predicate IsCallOf(p: EgressRequest, record: WorkflowRecord, approval: ApprovedWorkflow, token: TokenResponse,
                     step: WorkflowStep, keys: Keys) {
    && p.executionGrant.Some? && IsGrantOf(p.executionGrant.value, record, approval, token, step)
    && p.grantSignature == Some(keys.hmac(keys.secret, Hashing.CanonicalGrant(p.executionGrant.value, keys.show)))
    && var g := p.executionGrant.value;
    && p.primitive == g.primitive && p.verb == g.verb && p.targetMcp == g.targetMcp && p.toolName == g.toolName
    && p.arguments == g.arguments && p.workflowId == g.workflowId && p.approvalId == Some(g.approvalId)
    && p.oboTokenRef == Some("obo:" + approval.approvalId) && p.accessToken == Some(token.accessToken)
    && p.tokenScopes == token.scopes && p.tokenAudience == token.audience
  }

  predicate IsExpired(approval: ApprovedWorkflow, now: Time) {
    approval.expiresAt.Some? && approval.expiresAt.value <= now
  }

  // A payload that can be granted: an object without a nameless argument.
  predicate IsGrantable(payload: string) {
    Loads(payload).Some? && Loads(payload).value.Obj? && "" !in Loads(payload).value.members
  }

  predicate CanBeSent(approval: ApprovedWorkflow, step: WorkflowStep, now: Time, keys: Keys) {
    !IsExpired(approval, now) && Truthy(step.downstreamAudience) && IsGrantable(step.inputPayloadJson) &&
    keys.secret != ""
  }

  // The gateway answered; and if it answered with an outbound call, that has a result which
  // neither says that it failed nor is marked as an error.
  predicate ReportsSuccess(reply: Reply) {
    reply.Answer? &&
    ("outbound" in reply.result && reply.result["outbound"].Obj? ==>
      var outbound := reply.result["outbound"].members;
      "mcp_result" in outbound && outbound["mcp_result"].Obj? &&
      Get(outbound["mcp_result"].members, "status") != Some(Str("failed")) &&
      Get(outbound["mcp_result"].members, "is_error") != Some(Bool(true)))
  }

  // When each error stops a step.
  predicate IsStepError(approval: ApprovedWorkflow, step: WorkflowStep, now: Time, reply: Reply, keys: Keys,
                        e: ExecutionError) {
    match e
    case TokenAudienceRequired => false
    case ApprovalExpired => IsExpired(approval, now)
    case TargetMissing(stepId) => !IsExpired(approval, now) && !Truthy(step.downstreamAudience) && stepId == step.stepId
    case UndecodablePayload =>
      !IsExpired(approval, now) && Truthy(step.downstreamAudience) && Loads(step.inputPayloadJson) == None
    case InvalidGrant =>
      !IsExpired(approval, now) && Truthy(step.downstreamAudience) && Loads(step.inputPayloadJson) != None &&
      !IsGrantable(step.inputPayloadJson)
    case SecretMissing =>
      !IsExpired(approval, now) && Truthy(step.downstreamAudience) && IsGrantable(step.inputPayloadJson) &&
      keys.secret == ""
    case HttpFailure => CanBeSent(approval, step, now, keys) && reply.HttpError?
    case McpFailure => CanBeSent(approval, step, now, keys) && reply.Answer? && !ReportsSuccess(reply)
  }

  lemma BuiltCallIsExact(record: WorkflowRecord, approval: ApprovedWorkflow, token: TokenResponse, step: WorkflowStep,
                         now: Time, reply: Reply, keys: Keys)
    ensures var request := BuildRequest(record, approval, token, step, now, keys);
      && (request.Ok? <==> CanBeSent(approval, step, now, keys))
      && (request.Ok? ==> IsCallOf(request.value, record, approval, token, step, keys))
      && (request.Err? ==> IsStepError(approval, step, now, reply, keys, request.error))
  {
    hide Loads, Hashing.CanonicalGrant, ReportsSuccess;
  }

  lemma FailedResultIsExact(reply: Reply)
    ensures ReportsSuccess(reply) <==> reply.Answer? && !IsFailedResult(reply.result)
  {
  }

  // A step succeeds exactly when its call can be sent and the answer reports no failure; its
  // result is the answer without private members.
  lemma StepOutcomeIsExact(record: WorkflowRecord, approval: ApprovedWorkflow, token: TokenResponse,
                           step: WorkflowStep, now: Time, reply: Reply, keys: Keys)
    ensures var outcome := StepOutcome(record, approval, token, step, now, reply, keys);
      && (outcome.Ok? <==> CanBeSent(approval, step, now, keys) && ReportsSuccess(reply))
      && (outcome.Ok? ==> outcome.value == StripKeys(Obj(reply.result), IsBrowserPrivate))
      && (outcome.Err? ==> IsStepError(approval, step, now, reply, keys, outcome.error))
  {
    BuiltCallIsExact(record, approval, token, step, now, reply, keys);
    FailedResultIsExact(reply);
    hide BuildRequest, IsFailedResult, ReportsSuccess, CanBeSent, IsCallOf, StripKeys;
  }

  // ---- The loop over the steps ----

  // The times at which the steps are tried and the answers they get.
  datatype World = World(clock: nat -> Time, reply: nat -> Reply)

  function OutcomeAt(record: WorkflowRecord, approval: ApprovedWorkflow, token: TokenResponse, world: World, keys: Keys,
                     i: nat)
    : Result<Json, ExecutionError>
    requires i < |record.proposal.steps|
  {
    StepOutcome(record, approval, token, record.proposal.steps[i], world.clock(i), world.reply(i), keys)
  }

  function RequestAt(record: WorkflowRecord, approval: ApprovedWorkflow, token: TokenResponse, world: World, keys: Keys,
                     i: nat)
    : Result<EgressRequest, ExecutionError>
    requires i < |record.proposal.steps|
  {
    BuildRequest(record, approval, token, record.proposal.steps[i], world.clock(i), keys)
  }

  // The calls sent are those of the first steps, in order, and the results those of the steps
  // before the first failure.
  ghost predicate IsPrefixOfPlan(record: WorkflowRecord, approval: ApprovedWorkflow, token: TokenResponse, world: World,
                                 keys: Keys, sent: seq<EgressRequest>, results: seq<Json>) {
    && |results| <= |sent| <= |record.proposal.steps| && |sent| <= |results| + 1
    && (forall i :: 0 <= i < |sent| ==> RequestAt(record, approval, token, world, keys, i) == Ok(sent[i]))
    && (forall i :: 0 <= i < |results| ==> OutcomeAt(record, approval, token, world, keys, i) == Ok(results[i]))
  }

  ghost predicate AllSucceed(record: WorkflowRecord, approval: ApprovedWorkflow, token: TokenResponse, world: World,
                             keys: Keys) {
    Truthy(token.audience) &&
    forall i :: 0 <= i < |record.proposal.steps| ==> OutcomeAt(record, approval, token, world, keys, i).Ok?
  }

  lemma OutcomeOfStep(record: WorkflowRecord, approval: ApprovedWorkflow, token: TokenResponse, world: World,
                      keys: Keys, i: nat)
    requires i < |record.proposal.steps|
    ensures var request, reply := RequestAt(record, approval, token, world, keys, i), world.reply(i);
      OutcomeAt(record, approval, token, world, keys, i)
      == if request.Err? then Err(request.error)
         else if reply.HttpError? then Err(HttpFailure)
         else if IsFailedResult(reply.result) then Err(McpFailure)
         else Ok(StripKeys(Obj(reply.result), IsBrowserPrivate))
  {
    hide BuildRequest;
  }

  lemma FirstFailure(record: WorkflowRecord, approval: ApprovedWorkflow, token: TokenResponse, world: World, keys: Keys,
                     i: nat)
    requires i < |record.proposal.steps| && OutcomeAt(record, approval, token, world, keys, i).Err?
    ensures !AllSucceed(record, approval, token, world, keys)
  {
    hide OutcomeAt;
  }

  lemma NoFailure(record: WorkflowRecord, approval: ApprovedWorkflow, token: TokenResponse, world: World, keys: Keys,
                  sent: seq<EgressRequest>, results: seq<Json>)
    requires IsPrefixOfPlan(record, approval, token, world, keys, sent, results)
    requires |results| == |record.proposal.steps| && Truthy(token.audience)
    ensures AllSucceed(record, approval, token, world, keys)
  {
    hide OutcomeAt, RequestAt;
  }

  lemma OneMoreSent(record: WorkflowRecord, approval: ApprovedWorkflow, token: TokenResponse, world: World, keys: Keys,
                    sent: seq<EgressRequest>, results: seq<Json>, request: EgressRequest)
    requires IsPrefixOfPlan(record, approval, token, world, keys, sent, results) &&
      |sent| == |results| < |record.proposal.steps|
    requires RequestAt(record, approval, token, world, keys, |sent|) == Ok(request)
    ensures IsPrefixOfPlan(record, approval, token, world, keys, sent + [request], results)
  {
    hide RequestAt, OutcomeAt;
  }

  lemma OneMoreResult(record: WorkflowRecord, approval: ApprovedWorkflow, token: TokenResponse, world: World,
                      keys: Keys, sent: seq<EgressRequest>, results: seq<Json>, result: Json)
    requires IsPrefixOfPlan(record, approval, token, world, keys, sent, results) && |sent| == |results| + 1
    requires OutcomeAt(record, approval, token, world, keys, |results|) == Ok(result)
    ensures IsPrefixOfPlan(record, approval, token, world, keys, sent, results + [result])
  {
    hide RequestAt, OutcomeAt;
  }

  // Every step is sent and answered without a failure.
  predicate AllReportSuccess(approval: ApprovedWorkflow, steps: seq<WorkflowStep>, token: TokenResponse, world: World,
                             keys: Keys) {
    Truthy(token.audience) &&
    forall i :: 0 <= i < |steps| ==>
      CanBeSent(approval, steps[i], world.clock(i), keys) && ReportsSuccess(world.reply(i))
  }

  // The i-th step is the first that does not, and this is why.
  predicate IsFirstFailure(approval: ApprovedWorkflow, steps: seq<WorkflowStep>, world: World, keys: Keys, i: nat,
                           e: ExecutionError) {
    && i < |steps| && IsStepError(approval, steps[i], world.clock(i), world.reply(i), keys, e)
    && forall j :: 0 <= j < i ==>
      CanBeSent(approval, steps[j], world.clock(j), keys) && ReportsSuccess(world.reply(j))
  }

  // The calls for the first steps, and what the answers to them leave.
  predicate AreCallsAndResults(record: WorkflowRecord, approval: ApprovedWorkflow, token: TokenResponse, world: World,
                               keys: Keys, sent: seq<EgressRequest>, results: seq<Json>) {
    && |results| <= |sent| <= |record.proposal.steps|
    && (forall i :: 0 <= i < |sent| ==> IsCallOf(sent[i], record, approval, token, record.proposal.steps[i], keys))
    && (forall i :: 0 <= i < |results| ==>
          world.reply(i).Answer? && results[i] == StripKeys(Obj(world.reply(i).result), IsBrowserPrivate))
  }

  lemma PrefixIsExact(record: WorkflowRecord, approval: ApprovedWorkflow, token: TokenResponse, world: World,
                      keys: Keys, sent: seq<EgressRequest>, results: seq<Json>)
    requires IsPrefixOfPlan(record, approval, token, world, keys, sent, results)
    ensures AreCallsAndResults(record, approval, token, world, keys, sent, results)
    ensures forall i :: 0 <= i < |results| ==>
      CanBeSent(approval, record.proposal.steps[i], world.clock(i), keys) && ReportsSuccess(world.reply(i))
  {
    hide BuildRequest, StepOutcome, IsCallOf, CanBeSent, ReportsSuccess, StripKeys, IsStepError;
    forall i | 0 <= i < |sent| ensures IsCallOf(sent[i], record, approval, token, record.proposal.steps[i], keys) {
      BuiltCallIsExact(record, approval, token, record.proposal.steps[i], world.clock(i), world.reply(i), keys);
    }
    forall i | 0 <= i < |results|
      ensures CanBeSent(approval, record.proposal.steps[i], world.clock(i), keys) && ReportsSuccess(world.reply(i))
      ensures world.reply(i).Answer? && results[i] == StripKeys(Obj(world.reply(i).result), IsBrowserPrivate)
    {
      assert OutcomeAt(record, approval, token, world, keys, i) == Ok(results[i]);
      StepOutcomeIsExact(record, approval, token, record.proposal.steps[i], world.clock(i), world.reply(i), keys);
      FailedResultIsExact(world.reply(i));
    }
  }

  lemma SuccessIsExact(record: WorkflowRecord, approval: ApprovedWorkflow, token: TokenResponse, world: World,
                       keys: Keys)
    ensures AllSucceed(record, approval, token, world, keys) <==>
      AllReportSuccess(approval, record.proposal.steps, token, world, keys)
  {
    hide StepOutcome, CanBeSent, ReportsSuccess, IsStepError, StripKeys;
    forall i: nat | i < |record.proposal.steps|
      ensures OutcomeAt(record, approval, token, world, keys, i).Ok? <==>
        CanBeSent(approval, record.proposal.steps[i], world.clock(i), keys) && ReportsSuccess(world.reply(i))
    {
      StepOutcomeIsExact(record, approval, token, record.proposal.steps[i], world.clock(i), world.reply(i), keys);
    }
  }

  lemma FailureIsExact(record: WorkflowRecord, approval: ApprovedWorkflow, token: TokenResponse, world: World,
                       keys: Keys, sent: seq<EgressRequest>, results: seq<Json>, e: ExecutionError)
    requires IsPrefixOfPlan(record, approval, token, world, keys, sent, results) &&
      |results| < |record.proposal.steps|
    requires OutcomeAt(record, approval, token, world, keys, |results|) == Err(e)
    ensures IsFirstFailure(approval, record.proposal.steps, world, keys, |results|, e)
  {
    hide StepOutcome, CanBeSent, ReportsSuccess, IsStepError, StripKeys, IsPrefixOfPlan;
    var i := |results|;
    PrefixIsExact(record, approval, token, world, keys, sent, results);
    StepOutcomeIsExact(record, approval, token, record.proposal.steps[i], world.clock(i), world.reply(i), keys);
  }

  // What a run over the steps comes to, on the calls, the answers and the steps themselves.
  predicate IsExecution(record: WorkflowRecord, approval: ApprovedWorkflow, token: TokenResponse, world: World,
                        keys: Keys, sent: seq<EgressRequest>, results: seq<Json>, error: Option<ExecutionError>) {
    && AreCallsAndResults(record, approval, token, world, keys, sent, results)
    && (error == None <==> AllReportSuccess(approval, record.proposal.steps, token, world, keys))
    && (error == None ==> |results| == |sent| == |record.proposal.steps|)
    && (!Truthy(token.audience) ==> sent == [] && error == Some(TokenAudienceRequired))
    && (Truthy(token.audience) && error.Some? ==>
         IsFirstFailure(approval, record.proposal.steps, world, keys, |results|, error.value) &&
         (|sent| > |results| <==> error == Some(HttpFailure) || error == Some(McpFailure)))
  }

  lemma ExecutionSucceedsExactly(record: WorkflowRecord, approval: ApprovedWorkflow, token: TokenResponse, world: World,
                                 keys: Keys, sent: seq<EgressRequest>, results: seq<Json>,
                                 error: Option<ExecutionError>)
    requires IsExecution(record, approval, token, world, keys, sent, results, error)
    ensures error == None <==> AllReportSuccess(approval, record.proposal.steps, token, world, keys)
  {
    hide AreCallsAndResults, AllReportSuccess, IsFirstFailure;
  }

  lemma CallIsSentExactly(record: WorkflowRecord, approval: ApprovedWorkflow, token: TokenResponse, world: World,
                          keys: Keys, i: nat)
    requires i < |record.proposal.steps| && OutcomeAt(record, approval, token, world, keys, i).Err?
    ensures var e := OutcomeAt(record, approval, token, world, keys, i).error;
      RequestAt(record, approval, token, world, keys, i).Ok? <==> e == HttpFailure || e == McpFailure
  {
    var step := record.proposal.steps[i];
    BuiltCallIsExact(record, approval, token, step, world.clock(i), world.reply(i), keys);
    hide BuildRequest, IsFailedResult, CanBeSent, ReportsSuccess, IsCallOf;
  }

  lemma FailedExecution(record: WorkflowRecord, approval: ApprovedWorkflow, token: TokenResponse, world: World,
                        keys: Keys, sent: seq<EgressRequest>, results: seq<Json>, e: ExecutionError)
    requires Truthy(token.audience) && IsPrefixOfPlan(record, approval, token, world, keys, sent, results)
    requires |results| < |record.proposal.steps| && OutcomeAt(record, approval, token, world, keys, |results|) == Err(e)
    requires |sent| > |results| <==> RequestAt(record, approval, token, world, keys, |results|).Ok?
    ensures IsExecution(record, approval, token, world, keys, sent, results, Some(e))
  {
    hide IsPrefixOfPlan, OutcomeAt, RequestAt, AllReportSuccess, AreCallsAndResults, IsFirstFailure, AllSucceed;
    PrefixIsExact(record, approval, token, world, keys, sent, results);
    FailureIsExact(record, approval, token, world, keys, sent, results, e);
    FirstFailure(record, approval, token, world, keys, |results|);
    SuccessIsExact(record, approval, token, world, keys);
    CallIsSentExactly(record, approval, token, world, keys, |results|);
  }

  lemma CompletedExecution(record: WorkflowRecord, approval: ApprovedWorkflow, token: TokenResponse, world: World,
                           keys: Keys, sent: seq<EgressRequest>, results: seq<Json>)
    requires Truthy(token.audience) && IsPrefixOfPlan(record, approval, token, world, keys, sent, results)
    requires |results| == |sent| == |record.proposal.steps|
    ensures IsExecution(record, approval, token, world, keys, sent, results, None)
  {
    hide IsPrefixOfPlan, OutcomeAt, RequestAt, AllReportSuccess, AreCallsAndResults, IsFirstFailure, AllSucceed;
    PrefixIsExact(record, approval, token, world, keys, sent, results);
    NoFailure(record, approval, token, world, keys, sent, results);
    SuccessIsExact(record, approval, token, world, keys);
  }

  method ExecuteApprovedSteps(record: WorkflowRecord, approval: ApprovedWorkflow, token: TokenResponse, world: World,
                              keys: Keys)
    returns (sent: seq<EgressRequest>, results: seq<Json>, error: Option<ExecutionError>)
    ensures IsPrefixOfPlan(record, approval, token, world, keys, sent, results)
    ensures error.None? <==> AllSucceed(record, approval, token, world, keys)
    ensures error.None? ==> |results| == |sent| == |record.proposal.steps|
    ensures error.Some? && Truthy(token.audience) ==>
      |results| < |record.proposal.steps| &&
        OutcomeAt(record, approval, token, world, keys, |results|) == Err(error.value)
    ensures !Truthy(token.audience) ==> sent == [] && error == Some(TokenAudienceRequired)
    ensures IsExecution(record, approval, token, world, keys, sent, results, error)
  {
    sent, results, error := [], [], None;
    if !Truthy(token.audience) {
      return [], [], Some(TokenAudienceRequired);
    }
    for i := 0 to |record.proposal.steps|
      invariant |sent| == |results| == i && error.None?
      invariant IsPrefixOfPlan(record, approval, token, world, keys, sent, results)
    {
      hide BuildRequest, OutcomeAt, AllSucceed, IsFailedResult, StripKeys, IsPrefixOfPlan, IsExecution;
      OutcomeOfStep(record, approval, token, world, keys, i);
      if OutcomeAt(record, approval, token, world, keys, i).Err? {
        FirstFailure(record, approval, token, world, keys, i);
      }
      match BuildRequest(record, approval, token, record.proposal.steps[i], world.clock(i), keys) {
        case Err(e) =>
          error := Some(e);
          FailedExecution(record, approval, token, world, keys, sent, results, e);
          return;
        case Ok(request) =>
          OneMoreSent(record, approval, token, world, keys, sent, results, request);
          sent := sent + [request];
          match world.reply(i) {
            case HttpError =>
              error := Some(HttpFailure);
              FailedExecution(record, approval, token, world, keys, sent, results, HttpFailure);
              return;
            case Answer(result) =>
              if IsFailedResult(result) {
                error := Some(McpFailure);
                FailedExecution(record, approval, token, world, keys, sent, results, McpFailure);
                return;
              }
              OneMoreResult(record, approval, token, world, keys, sent, results,
                StripKeys(Obj(result), IsBrowserPrivate));
              results := results + [StripKeys(Obj(result), IsBrowserPrivate)];
          }
      }
    }
    NoFailure(record, approval, token, world, keys, sent, results);
    CompletedExecution(record, approval, token, world, keys, sent, results);
  }

  // ---- Approving ----

  datatype ApproveRequest = ApproveRequest(approved: bool, planHash: string)

  datatype Beginning =
    | NotFound
    | PlanHashConflict
    | AlreadySettled(record: WorkflowRecord)
    | Cancels(record: WorkflowRecord)
    | TokenRefRequired
    | AuthContextRequired
    | Begins(record: WorkflowRecord, approval: ApprovedWorkflow)

  predicate IsSettled(status: Status) {
    status == Completed || status == Failed || status == Cancelled
  }

  predicate IsOpen(status: Status) {
    status == AwaitingApproval || status == Ready || status == Approved
  }

  // From the read of the record to the first write; `authContext` is what the store knows for
  // the record's token.
  function Begin(found: Option<WorkflowRecord>, request: ApproveRequest, c: TrustedSessionContext,
                 authContext: Option<string>, approvalId: string, now: Time): Beginning {
    match found
    case None => NotFound
    case Some(record) =>
      if request.planHash != record.planHash then PlanHashConflict
      else if !IsOpen(record.status) then AlreadySettled(record)
      else if !request.approved then Cancels(record.(status := Cancelled))
      else if !Truthy(record.tokenRef) then TokenRefRequired
      else if authContext.None? then AuthContextRequired
      else
        var approval := ApprovedWorkflow(
          record.workflowId, approvalId, record.planHash, now, c.userId, record.policy.requiredScopes,
          Some(now + 15 * 60 * 1_000_000));
        Begins(record.(status := Executing, approvedWorkflow := Some(approval)), approval)
  }

  // The request is for the plan that is there.
  predicate ShowsItsHash(found: Option<WorkflowRecord>, request: ApproveRequest) {
    found.Some? && found.value.planHash == request.planHash
  }

  // What an approval holds: the caller, the plan and the scopes of its policy, for fifteen minutes.
  predicate IsApprovalOf(a: ApprovedWorkflow, record: WorkflowRecord, userId: string, approvalId: string, now: Time) {
    && a.workflowId == record.workflowId && a.planHash == record.planHash && a.approvalId == approvalId
    && a.approvedByUserId == userId && a.approvedScopes == record.policy.requiredScopes
    && a.approvedAt == now && a.expiresAt == Some(now + 900_000_000)
  }

  // When an approve call begins in which way.
  predicate IsBeginning(found: Option<WorkflowRecord>, request: ApproveRequest, c: TrustedSessionContext,
                        authContext: Option<string>, approvalId: string, now: Time, b: Beginning) {
    match b
    case NotFound => found == None
    case PlanHashConflict => found.Some? && !ShowsItsHash(found, request)
    case AlreadySettled(record) =>
      ShowsItsHash(found, request) && found == Some(record) && (IsSettled(record.status) || record.status == Executing)
    case Cancels(record) =>
      ShowsItsHash(found, request) && IsOpen(found.value.status) && !request.approved &&
      record == found.value.(status := Cancelled)
    case TokenRefRequired =>
      ShowsItsHash(found, request) && IsOpen(found.value.status) && request.approved &&
      (found.value.tokenRef == None || found.value.tokenRef == Some(""))
    case AuthContextRequired =>
      ShowsItsHash(found, request) && IsOpen(found.value.status) && request.approved && Truthy(found.value.tokenRef) &&
      authContext == None
    case Begins(record, approval) =>
      ShowsItsHash(found, request) && IsOpen(found.value.status) && request.approved && Truthy(found.value.tokenRef) &&
      authContext != None && IsApprovalOf(approval, found.value, c.userId, approvalId, now) &&
      record == found.value.(status := Executing, approvedWorkflow := Some(approval))
  }

  // Each way occurs exactly when it is called for.
  lemma BeginIsExact(found: Option<WorkflowRecord>, request: ApproveRequest, c: TrustedSessionContext,
                     authContext: Option<string>, approvalId: string, now: Time, b: Beginning)
    ensures b == Begin(found, request, c, authContext, approvalId, now) <==>
      IsBeginning(found, request, c, authContext, approvalId, now, b)
  {
    assert forall s: Status :: IsOpen(s) <==> !(IsSettled(s) || s == Executing);
  }

  function FailureEntry(kind: string, message: string): Json {
    Obj(map["error_type" := Str(kind), "message" := Str(message), "status" := Str("failed")])
  }

  function CompletedRecord(executing: WorkflowRecord, results: seq<Json>): WorkflowRecord {
    executing.(status := Completed, egressResults := results)
  }

  function FailedRecord(executing: WorkflowRecord, failure: Json): WorkflowRecord {
    executing.(status := Failed, egressResults := [failure])
  }

  type Id = (Option<string>, string, string, string)

  function IdOf(record: WorkflowRecord): Id {
    (record.tenantId, record.userId, record.sessionId, record.workflowId)
  }

  // How an error is described to the user, kind and text; any description will do.
  type Describe = ExecutionError -> (string, string)

  // The one entry of a failed record.
  predicate IsFailureEntry(entry: Json, kind: string, message: string) {
    entry.Obj? && entry.members.Keys == {"error_type", "message", "status"} &&
    entry.members["error_type"] == Str(kind) && entry.members["message"] == Str(message) &&
    entry.members["status"] == Str("failed")
  }

  predicate IsFailed(final: WorkflowRecord, executing: WorkflowRecord, kind: string, message: string) {
    final == executing.(status := Failed, egressResults := final.egressResults) &&
    |final.egressResults| == 1 && IsFailureEntry(final.egressResults[0], kind, message)
  }

  lemma FailedIsExact(executing: WorkflowRecord, kind: string, message: string)
    ensures IsFailed(FailedRecord(executing, FailureEntry(kind, message)), executing, kind, message)
  {
    assert "error_type"[0] == 'e' && "message"[0] == 'm' && "status"[0] == 's';
    assert FailureEntry(kind, message).members.Keys == {"error_type", "message", "status"};
  }

  // The record that a begun plan ends as: failed with what the exchange raised, or with the first
  // failure of a step, or completed with the result of each.
  ghost predicate IsSettledAs(final: WorkflowRecord, executing: WorkflowRecord, approval: ApprovedWorkflow,
                              exchange: Result<TokenResponse, (string, string)>, world: World, keys: Keys,
                              describe: Describe, sent: seq<EgressRequest>) {
    match exchange
    case Err(raised) => sent == [] && IsFailed(final, executing, raised.0, raised.1)
    case Ok(token) =>
      exists results, error :: IsExecution(executing, approval, token, world, keys, sent, results, error) &&
        match error
        case None => final == executing.(status := Completed, egressResults := results)
        case Some(e) => IsFailed(final, executing, describe(e).0, describe(e).1)
  }

  class AgentService {
    var workflows: map<Id, WorkflowRecord>
    // Every record saved so far.
    ghost var saves: seq<WorkflowRecord>

    method Save(record: WorkflowRecord)
      modifies this
      ensures workflows == old(workflows)[IdOf(record) := record]
      ensures saves == old(saves) + [record]
    {
      workflows := workflows[IdOf(record) := record];
      saves := saves + [record];
    }

    // `approve_workflow`, when nothing else writes the record meanwhile; `exchange` is the
    // outcome of the token exchange.
    method Approve(id: Id, request: ApproveRequest, c: TrustedSessionContext, authContext: Option<string>,
                   approvalId: string, now: Time, exchange: Result<TokenResponse, (string, string)>, world: World,
                   keys: Keys, describe: Describe)
      returns (beginning: Beginning, sent: seq<EgressRequest>)
      requires id in workflows ==> IdOf(workflows[id]) == id
      modifies this
      ensures IsBeginning(if id in old(workflows) then Some(old(workflows)[id]) else None,
                          request, c, authContext, approvalId, now, beginning)
      // Nothing is written unless the plan is cancelled or begun.
      ensures !beginning.Cancels? && !beginning.Begins? ==>
        workflows == old(workflows) && saves == old(saves) && sent == []
      ensures beginning.Cancels? ==>
        workflows == old(workflows)[id := beginning.record] && saves == old(saves) + [beginning.record] && sent == []
      // A begun plan is saved twice, as executing and as settled.
      ensures beginning.Begins? ==>
        id in workflows && workflows == old(workflows)[id := workflows[id]] &&
        saves == old(saves) + [beginning.record, workflows[id]] &&
        IsSettledAs(workflows[id], beginning.record, beginning.approval, exchange, world, keys, describe, sent)
      // It is completed exactly when the exchange succeeded with an audience, every call can be
      // sent and every answer reports success.
      ensures beginning.Begins? ==>
        (workflows[id].status == Completed <==>
           exchange.Ok? && AllReportSuccess(beginning.approval, beginning.record.proposal.steps, exchange.value, world,
             keys))
    {
      sent := [];
      var found := if id in workflows then Some(workflows[id]) else None;
      beginning := Begin(found, request, c, authContext, approvalId, now);
      BeginIsExact(found, request, c, authContext, approvalId, now, beginning);
      hide Begin, IsExecution, AllReportSuccess;
      match beginning {
        case Cancels(record) =>
          Save(record);
        case Begins(executing, approval) =>
          Save(executing);
          match exchange {
            case Err(failure) =>
              Save(FailedRecord(executing, FailureEntry(failure.0, failure.1)));
              FailedIsExact(executing, failure.0, failure.1);
            case Ok(token) =>
              var results, error;
              sent, results, error := ExecuteApprovedSteps(executing, approval, token, world, keys);
              ExecutionSucceedsExactly(executing, approval, token, world, keys, sent, results, error);
              match error {
                case None =>
                  Save(CompletedRecord(executing, results));
                case Some(e) =>
                  Save(FailedRecord(executing, FailureEntry(describe(e).0, describe(e).1)));
                  FailedIsExact(executing, describe(e).0, describe(e).1);
              }
          }
        case _ =>
      }
    }
  }

  // ---- What the executor builds is what the gateway checks ----

  // For a dispatched step, the call that is sent gets out exactly while the approval lasts and
  // the token has the scopes of the step.
  lemma SentCallGetsOut(record: WorkflowRecord, approval: ApprovedWorkflow, token: TokenResponse, step: WorkflowStep,
                        sentAt: Time, checkedAt: Time, keys: Keys)
    requires Dispatcher.IsDispatched(step) && token.accessToken != "" && Truthy(token.audience)
    requires forall text :: keys.hmac(keys.secret, text) != ""
    requires BuildRequest(record, approval, token, step, sentAt, keys).Ok?
    ensures var request := BuildRequest(record, approval, token, step, sentAt, keys).value;
      Derive(request, EgressContext(record, approval, sentAt), checkedAt, keys).Ok? <==>
        (approval.expiresAt.Some? ==> checkedAt < approval.expiresAt.value) &&
        forall scope <- step.requiredScopes :: scope in token.scopes
  {
    hide ToolCatalog.Catalog, Derive, Hashing.CanonicalGrant, Loads, Equality.AreEqual;
    var request := BuildRequest(record, approval, token, step, sentAt, keys).value;
    Equality.EqualToItself(Obj(request.arguments), keys.value);
    OnlyCoveredCallsGetOut(request, EgressContext(record, approval, sentAt), checkedAt, keys);
  }

  datatype Refusal = Unauthenticated(cause: AuthError) | Denied(reason: EgressError)

  // `egress_mcp` up to the outbound call: the headers first, then the request.
  function EgressMcp(encoded: Option<string>, signature: Option<string>, p: EgressRequest, now: Time, keys: Keys,
                     codec: TimeCodec)
    : Result<Outbound, Refusal>
  {
    match VerifyContext(encoded, signature, keys.secret, keys.hmac, codec.read, now)
    case Err(e) => Err(Unauthenticated(e))
    case Ok(context) =>
      match Derive(p, context, now, keys)
      case Err(e) => Err(Denied(e))
      case Ok(out) => Ok(out)
  }

  // What the record's own validators and planning establish.
  predicate IsPlannedRecord(record: WorkflowRecord) {
    && record.userId != "" && record.sessionId != "" && record.tenantId != Some("") && record.tokenRef != Some("")
    && record.policy == Policy.Evaluate(record.proposal.steps)
    && forall i :: 0 <= i < |record.proposal.steps| ==> Dispatcher.IsDispatched(record.proposal.steps[i])
  }

  lemma EgressContextIsValid(record: WorkflowRecord, approval: ApprovedWorkflow, now: Time)
    requires IsPlannedRecord(record) && approval.approvalId != ""
    ensures IsValid(EgressContext(record, approval, now))
  {
    var steps := record.proposal.steps;
    Policy.PolicyIsExact(steps, "");
    hide ToolCatalog.Catalog, Policy.Evaluate, Loads;
  }

  // A dispatched step is sent exactly when the approval lasts, the tool has a downstream server,
  // the services share a secret, and no argument is nameless.
  lemma DispatchedStepIsSent(record: WorkflowRecord, approval: ApprovedWorkflow, token: TokenResponse,
                             step: WorkflowStep, now: Time, keys: Keys)
    requires Dispatcher.IsDispatched(step)
    ensures BuildRequest(record, approval, token, step, now, keys).Ok? <==>
      (approval.expiresAt.Some? ==> now < approval.expiresAt.value) && Truthy(step.downstreamAudience) &&
      keys.secret != "" && "" !in Loads(step.inputPayloadJson).value.members
  {
    hide ToolCatalog.Catalog, Hashing.CanonicalGrant, Loads;
  }

  // `signed_session_context_headers`; without a secret there are none that verify.
  function SentHeaders(record: WorkflowRecord, approval: ApprovedWorkflow, now: Time, keys: Keys, codec: TimeCodec)
    : (Option<string>, Option<string>)
  {
    var encoded := EncodeContext(EgressContext(record, approval, now), codec.show);
    match SignContext(encoded, keys.secret, keys.hmac)
    case Err(_) => (Some(encoded), None)
    case Ok(signature) => (Some(encoded), Some(signature))
  }

  // The step's call is built, its headers are signed, and the gateway lets it out.
  predicate GetsOut(record: WorkflowRecord, approval: ApprovedWorkflow, token: TokenResponse, step: WorkflowStep,
                    sentAt: Time, checkedAt: Time, keys: Keys, codec: TimeCodec) {
    match BuildRequest(record, approval, token, step, sentAt, keys)
    case Err(_) => false
    case Ok(request) =>
      var headers := SentHeaders(record, approval, sentAt, keys, codec);
      EgressMcp(headers.0, headers.1, request, checkedAt, keys, codec).Ok?
  }

  lemma EgressMcpIsBothChecks(encoded: Option<string>, signature: Option<string>, p: EgressRequest, now: Time,
                              keys: Keys, codec: TimeCodec)
    ensures var verified := VerifyContext(encoded, signature, keys.secret, keys.hmac, codec.read, now);
      EgressMcp(encoded, signature, p, now, keys, codec).Ok? <==>
        verified.Ok? && Derive(p, verified.value, now, keys).Ok?
  {
    hide VerifyContext, Derive;
  }

  // What the gateway reads from the headers: the owner of the record, the scopes of its policy and
  // all tools, for this approval and for five minutes.
  predicate IsContextOf(c: TrustedSessionContext, record: WorkflowRecord, approval: ApprovedWorkflow, sentAt: Time) {
    && c.userId == record.userId && c.sessionId == record.sessionId && c.tenantId == record.tenantId
    && c.tokenRef == record.tokenRef && c.tokenScopes == record.policy.requiredScopes && c.allowedTools == None
    && c.correlationId == approval.approvalId && c.expiresAt == sentAt + 300_000_000
  }

  lemma SentHeadersVerify(record: WorkflowRecord, approval: ApprovedWorkflow, sentAt: Time, checkedAt: Time, keys: Keys,
                          codec: TimeCodec)
    requires IsPlannedRecord(record) && approval.approvalId != "" && keys.secret != ""
    requires forall text :: keys.hmac(keys.secret, text) != ""
    requires IsFaithful(codec) && codec.show(sentAt + 5 * 60 * 1_000_000) != ""
    ensures var headers := SentHeaders(record, approval, sentAt, keys, codec);
      VerifyContext(headers.0, headers.1, keys.secret, keys.hmac, codec.read, checkedAt)
      == if checkedAt < sentAt + 5 * 60 * 1_000_000 then Ok(EgressContext(record, approval, sentAt)) else Err(Expired)
    ensures IsContextOf(EgressContext(record, approval, sentAt), record, approval, sentAt)
  {
    EgressContextIsValid(record, approval, sentAt);
    hide EncodeContext, VerifyContext, IsValid, IsPlannedRecord;
    SignedHeadersVerifyUntilExpiry(EgressContext(record, approval, sentAt), keys.secret, keys.hmac, codec, checkedAt);
  }

  // From the executor through both checks of the gateway: the call of a step of a planned
  // workflow is built and gets out exactly when the tool has a downstream server, the services
  // share a secret, no argument is nameless, the headers and the approval last, and the token has
  // the scopes of the step.
  lemma StepCrossesTheGateway(record: WorkflowRecord, approval: ApprovedWorkflow, token: TokenResponse, i: nat,
                              sentAt: Time, checkedAt: Time, keys: Keys, codec: TimeCodec)
    requires IsPlannedRecord(record) && approval.approvalId != "" && i < |record.proposal.steps|
    requires token.accessToken != "" && Truthy(token.audience) && sentAt <= checkedAt
    requires forall text :: keys.hmac(keys.secret, text) != ""
    requires IsFaithful(codec) && codec.show(sentAt + 5 * 60 * 1_000_000) != ""
    ensures var step := record.proposal.steps[i];
      Loads(step.inputPayloadJson).Some? && Loads(step.inputPayloadJson).value.Obj? &&
      (GetsOut(record, approval, token, step, sentAt, checkedAt, keys, codec) <==>
        Truthy(step.downstreamAudience) && keys.secret != "" && "" !in Loads(step.inputPayloadJson).value.members
        && checkedAt < sentAt + 5 * 60 * 1_000_000
        && (approval.expiresAt.Some? ==> checkedAt < approval.expiresAt.value)
        && forall scope <- step.requiredScopes :: scope in token.scopes)
  {
    var step := record.proposal.steps[i];
    assert Dispatcher.IsDispatched(step);
    assert Loads(step.inputPayloadJson).Some? && Loads(step.inputPayloadJson).value.Obj?;
    DispatchedStepIsSent(record, approval, token, step, sentAt, keys);
    hide BuildRequest, Derive, EncodeContext, DecodeContext, Dispatcher.IsDispatched, IsValid, IsPlannedRecord,
         VerifyContext, EgressContext, Loads, EgressMcp;
    if BuildRequest(record, approval, token, step, sentAt, keys).Ok? {
      SentCallGetsOut(record, approval, token, step, sentAt, checkedAt, keys);
      SentHeadersVerify(record, approval, sentAt, checkedAt, keys, codec);
      var request := BuildRequest(record, approval, token, step, sentAt, keys).value;
      var headers := SentHeaders(record, approval, sentAt, keys, codec);
      hide SentHeaders;
      EgressMcpIsBothChecks(headers.0, headers.1, request, checkedAt, keys, codec);
    }
  }
}
