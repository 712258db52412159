// Planning, approving, executing and egress as one state machine: any number of workflows, of
// approvals under way, and of callers of the gateway.
module WorkflowProtocol {
  import opened Wrappers
  import opened Json
  import opened Models
  import opened InternalAuth
  import opened Egress
  import opened Execution
  import opened Equality
  import Hashing
  import BrowserView
  import RunStream
  import Dispatcher
  import Policy
  import ToolCatalog

  // What the services are configured with.
  datatype Env = Env(keys: Keys, sha: string -> string, codec: TimeCodec)

  // An approval that was begun: the record as it was saved then, the approval itself, and the
  // hash that the user sent with it.
  datatype Begun = Begun(record: WorkflowRecord, approval: ApprovedWorkflow, shown: string)

  // An approve call under way: which approval it carries out, the token once it has one, and the
  // results so far.
  datatype Call = Call(entry: nat, token: Option<TokenResponse>, results: seq<Json>)

  datatype Signed = Signed(entry: nat, step: nat, token: TokenResponse, grant: ExecutionGrant)

  // A call that got out: its headers, what they were verified to, and when.
  datatype Accepted = Accepted(
    encoded: Option<string>,
    signature: Option<string>,
    request: EgressRequest,
    context: TrustedSessionContext,
    at: Time)

  datatype State = State(
    store: map<Id, WorkflowRecord>,
    begun: seq<Begun>,
    calls: map<nat, Call>,
    signed: seq<Signed>,
    accepted: seq<Accepted>)

  datatype Event =
    | Plan(record: WorkflowRecord)
    | Approve(call: nat, workflowId: string, request: ApproveRequest, context: TrustedSessionContext,
              authContext: Option<string>, approvalId: string, now: Time)
    | Exchange(call: nat, outcome: Option<TokenResponse>, failure: Json)
    | Send(call: nat, now: Time, checkedAt: Time, reply: Reply, failure: Json)
    | Finish(call: nat)
    // A call of the gateway by anyone, with any headers.
    | Foreign(encoded: Option<string>, signature: Option<string>, egress: EgressRequest, now: Time)

  // What planning saves.
  predicate IsPlanned(r: WorkflowRecord, env: Env) {
    && r.status == (if r.policy.requiresHitl then AwaitingApproval else Ready)
    && r.policy == Policy.Evaluate(r.proposal.steps)
    && r.planHash == Hashing.PlanHash(r.proposal, env.keys.show, env.sha)
    && (forall i :: 0 <= i < |r.proposal.steps| ==> Dispatcher.IsDispatched(r.proposal.steps[i]))
  }

  function Fail(s: State, call: nat, failure: Json): State
    requires call in s.calls && s.calls[call].entry < |s.begun|
  {
    var record := s.begun[s.calls[call].entry].record;
    s.(store := s.store[IdOf(record) := FailedRecord(record, failure)], calls := s.calls - {call})
  }

  // What the gateway makes of the two headers.
  function Verified(env: Env, encoded: Option<string>, signature: Option<string>, now: Time)
    : Result<TrustedSessionContext, AuthError>
  {
    VerifyContext(encoded, signature, env.keys.secret, env.keys.hmac, env.codec.read, now)
  }

  // The gateway gets a call.
  function Receive(env: Env, s: State, encoded: Option<string>, signature: Option<string>, request: EgressRequest,
                   now: Time): (s': State)
    ensures s' == s.(accepted := s'.accepted)
  {
    if EgressMcp(encoded, signature, request, now, env.keys, env.codec).Err? then s
    else
      var context := Verified(env, encoded, signature, now).value;
      s.(accepted := s.accepted + [Accepted(encoded, signature, request, context, now)])
  }

  // One step is tried: signed, sent, checked by the gateway, answered.
  function SendNext(env: Env, s: State, call: nat, now: Time, checkedAt: Time, reply: Reply, failure: Json): State
    requires call in s.calls && s.calls[call].entry < |s.begun| && s.calls[call].token.Some?
    requires |s.calls[call].results| < |s.begun[s.calls[call].entry].record.proposal.steps|
  {
    var c := s.calls[call];
    var (b, token, i) := (s.begun[c.entry], c.token.value, |c.results|);
    match BuildRequest(b.record, b.approval, token, b.record.proposal.steps[i], now, env.keys)
    case Err(_) => Fail(s, call, failure)
    case Ok(request) =>
      var sent := s.(signed := s.signed + [Signed(c.entry, i, token, request.executionGrant.value)]);
      var headers := SentHeaders(b.record, b.approval, now, env.keys, env.codec);
      if EgressMcp(headers.0, headers.1, request, checkedAt, env.keys, env.codec).Err? then Fail(sent, call, failure)
      else
        var out := Receive(env, sent, headers.0, headers.1, request, checkedAt);
        match StepOutcome(b.record, b.approval, token, b.record.proposal.steps[i], now, reply, env.keys)
        case Err(_) => Fail(out, call, failure)
        case Ok(result) => out.(calls := s.calls[call := c.(results := c.results + [result])])
  }

  // A right signature of a grant that the agent service never signed.
  predicate IsForged(env: Env, s: State, request: EgressRequest) {
    request.executionGrant.Some? && request.grantSignature.Some? &&
    IsSignatureOf(request.executionGrant.value, request.grantSignature.value, env.keys) &&
    forall i :: 0 <= i < |s.signed| ==>
      Hashing.CanonicalGrant(s.signed[i].grant, env.keys.show) != Hashing.CanonicalGrant(request.executionGrant.value,
        env.keys.show)
  }

  // One event; what cannot happen is no step.  Nobody forges a signature.
  function Next(env: Env, s: State, e: Event): State {
    match e
    case Plan(record) =>
      if IsPlanned(record, env) then s.(store := s.store[IdOf(record) := record]) else s
    case Approve(call, workflowId, request, context, authContext, approvalId, now) =>
      if call in s.calls then s
      else
        var id := (context.tenantId, context.userId, context.sessionId, workflowId);
        (match Begin(if id in s.store then Some(s.store[id]) else None, request, context, authContext, approvalId, now)
         case Cancels(record) => s.(store := s.store[id := record])
         case Begins(record, approval) =>
           s.(store := s.store[id := record], begun := s.begun + [Begun(record, approval, request.planHash)],
              calls := s.calls[call := Call(|s.begun|, None, [])])
         case _ => s)
    case Exchange(call, outcome, failure) =>
      if call in s.calls && s.calls[call].entry < |s.begun| && s.calls[call].token.None? then
        if outcome.Some? && Truthy(outcome.value.audience)
        then s.(calls := s.calls[call := s.calls[call].(token := outcome)])
        else Fail(s, call, failure)
      else s
    case Send(call, now, checkedAt, reply, failure) =>
      if call in s.calls && s.calls[call].entry < |s.begun| && s.calls[call].token.Some? &&
         |s.calls[call].results| < |s.begun[s.calls[call].entry].record.proposal.steps|
      then SendNext(env, s, call, now, checkedAt, reply, failure)
      else s
    case Finish(call) =>
      if call in s.calls && s.calls[call].entry < |s.begun| && s.calls[call].token.Some? &&
         |s.calls[call].results| == |s.begun[s.calls[call].entry].record.proposal.steps|
      then
        var record := s.begun[s.calls[call].entry].record;
        s.(store := s.store[IdOf(record) := CompletedRecord(record, s.calls[call].results)], calls := s.calls - {call})
      else s
    case Foreign(encoded, signature, request, now) =>
      if IsForged(env, s, request) then s else Receive(env, s, encoded, signature, request, now)
  }

  function Run(env: Env, s: State, events: seq<Event>): State {
    if events == [] then s else Next(env, Run(env, s, events[..|events| - 1]), events[|events| - 1])
  }

  const START := State(map[], [], map[], [], [])

  // ---- Safety of every run ----

  // A record keeps the hash and the policy of its plan.
  predicate IsSoundRecord(env: Env, r: WorkflowRecord) {
    && r.planHash == Hashing.PlanHash(r.proposal, env.keys.show, env.sha)
    && r.policy == Policy.Evaluate(r.proposal.steps)
    && forall i :: 0 <= i < |r.proposal.steps| ==> Dispatcher.IsDispatched(r.proposal.steps[i])
  }

  predicate IsSoundBegun(env: Env, b: Begun) {
    && IsSoundRecord(env, b.record)
    && b.record.status == Executing && b.record.approvedWorkflow == Some(b.approval)
    && b.approval.planHash == b.record.planHash && b.approval.workflowId == b.record.workflowId
    && b.approval.approvedByUserId == b.record.userId && b.shown == b.record.planHash
    && b.approval.approvedScopes == b.record.policy.requiredScopes
  }

  // The grant of one step of a begun approval.
  predicate IsSoundSigned(s: State, x: Signed) {
    && x.entry < |s.begun|
    && var b := s.begun[x.entry];
    && x.step < |b.record.proposal.steps|
    && var step := b.record.proposal.steps[x.step];
    && IsGrantOf(x.grant, b.record, b.approval, x.token, step)
  }

  // The call that got out is one step of an approved plan: the plan that the hash sent by its
  // owner names, for this user, session and tenant, with the step's own tool and server and equal
  // arguments, while the approval lasts, with the step's scopes approved and shown by the token.
  predicate IsStepOfApprovedPlan(env: Env, a: Accepted, b: Begun, step: WorkflowStep) {
    && step in b.record.proposal.steps
    && b.shown == Hashing.PlanHash(b.record.proposal, env.keys.show, env.sha)
    && b.approval.planHash == b.shown && b.approval.approvedByUserId == b.record.userId
    && a.request.workflowId == b.record.workflowId && a.request.approvalId == Some(b.approval.approvalId)
    && a.request.toolName == step.action
    && a.request.executionGrant.Some?
    && Loads(step.inputPayloadJson) == Some(Obj(a.request.executionGrant.value.arguments))
    && AgreeOn(a.request, a.request.executionGrant.value, env.keys.value)
    && step.downstreamAudience == Some(a.request.targetMcp)
    && a.request.verb == (if step.operationType == READ then "GET" else "POST")
    && a.request.primitive == (if step.operationType == READ then "READ" else "EXECUTE")
    && a.context.userId == b.record.userId && a.context.sessionId == b.record.sessionId &&
       a.context.tenantId == b.record.tenantId
    && (b.approval.expiresAt.Some? ==> a.at < b.approval.expiresAt.value)
    && (forall scope <- step.requiredScopes :: scope in b.approval.approvedScopes && scope in a.request.tokenScopes)
  }

  ghost predicate IsJustified(env: Env, s: State, a: Accepted) {
    exists e, i :: 0 <= e < |s.begun| && 0 <= i < |s.begun[e].record.proposal.steps| &&
      IsStepOfApprovedPlan(env, a, s.begun[e], s.begun[e].record.proposal.steps[i])
  }

  ghost predicate StoreIsSound(env: Env, s: State) {
    forall id <- s.store :: IdOf(s.store[id]) == id && IsSoundRecord(env, s.store[id])
  }

  // Each call carries out an approval of its own.
  ghost predicate CallsAreSound(s: State) {
    && (forall c <- s.calls :: s.calls[c].entry < |s.begun|)
    && (forall c, d | c in s.calls && d in s.calls && c != d :: s.calls[c].entry != s.calls[d].entry)
  }

  ghost predicate BegunIsSound(env: Env, s: State) {
    forall i :: 0 <= i < |s.begun| ==> IsSoundBegun(env, s.begun[i])
  }

  ghost predicate SignedIsSound(s: State) {
    forall i :: 0 <= i < |s.signed| ==> IsSoundSigned(s, s.signed[i])
  }

  ghost predicate AcceptedIsJustified(env: Env, s: State) {
    forall i :: 0 <= i < |s.accepted| ==> IsJustified(env, s, s.accepted[i])
  }

  ghost predicate Safe(env: Env, s: State) {
    StoreIsSound(env, s) && CallsAreSound(s) && BegunIsSound(env, s) && SignedIsSound(s) && AcceptedIsJustified(env, s)
  }

  // The call is given up and its record fails.
  ghost predicate GivesUp(s: State, s': State, call: nat, failure: Json) {
    call in s.calls && s.calls[call].entry < |s.begun| && s'.store == Fail(s, call, failure).store &&
    s'.calls == s.calls - {call}
  }

  // The call has one more result.
  ghost predicate Advances(s: State, s': State, call: nat) {
    && call in s.calls && s'.store == s.store && s'.calls.Keys == s.calls.Keys
    && (forall c <- s.calls :: c != call ==> s'.calls[c] == s.calls[c])
    && s'.calls[call].entry == s.calls[call].entry && |s'.calls[call].results| == |s.calls[call].results| + 1
  }

  // The grant of the next step of the call, signed.
  ghost predicate SignsNext(s: State, s': State, call: nat, x: Signed) {
    && call in s.calls && s'.signed == s.signed + [x]
    && x.entry == s.calls[call].entry && x.step == |s.calls[call].results|
  }

  lemma SendEffect(env: Env, s: State, e: Event)
    requires e.Send?
    ensures var s' := Next(env, s, e);
      && s'.begun == s.begun
      && (s' == s || GivesUp(s, s', e.call, e.failure) ||
          (Advances(s, s', e.call) && |s'.signed| > |s.signed|))
      && (s'.signed == s.signed || exists x :: SignsNext(s, s', e.call, x))
  {
    hide BuildRequest, EgressMcp, Receive, StepOutcome, SentHeaders, IsPlanned, Begin, IsForged;
    var s' := Next(env, s, e);
    if |s'.signed| > |s.signed| {
      assert SignsNext(s, s', e.call, s'.signed[|s.signed|]);
    }
  }

  lemma FailedIs(s: State, call: nat, failure: Json)
    requires call in s.calls && s.calls[call].entry < |s.begun|
    ensures Fail(s, call, failure).begun == s.begun && Fail(s, call, failure).calls == s.calls - {call}
  {
  }

  lemma FailedIsSound(env: Env, s: State, s': State, call: nat, failure: Json)
    requires StoreIsSound(env, s) && BegunIsSound(env, s) && GivesUp(s, s', call, failure)
    ensures StoreIsSound(env, s')
  {
    hide Hashing.PlanHash, Dispatcher.IsDispatched, Policy.Evaluate;
    assert IsSoundBegun(env, s.begun[s.calls[call].entry]);
  }

  lemma ApprovedIsSound(env: Env, s: State, e: Event)
    requires StoreIsSound(env, s) && e.Approve?
    ensures StoreIsSound(env, Next(env, s, e))
  {
    hide Receive, SendNext, Hashing.PlanHash, Dispatcher.IsDispatched, Policy.Evaluate, IsForged, Truthy, IsPlanned;
  }

  lemma StoreStaysSound(env: Env, s: State, e: Event)
    requires Safe(env, s)
    ensures StoreIsSound(env, Next(env, s, e))
  {
    hide Receive, SendNext, Hashing.PlanHash, Dispatcher.IsDispatched, Policy.Evaluate, IsForged, Truthy, Begin,
         SignedIsSound, AcceptedIsJustified, CallsAreSound, Fail, IsSoundBegun;
    var s' := Next(env, s, e);
    match e
    case Approve(_, _, _, _, _, _, _) =>
      ApprovedIsSound(env, s, e);
    case Send(call, _, _, _, failure) =>
      SendEffect(env, s, e);
      if GivesUp(s, s', call, failure) {
        FailedIsSound(env, s, s', call, failure);
      }
    case Exchange(call, _, failure) =>
      if s'.store != s.store {
        FailedIs(s, call, failure);
        FailedIsSound(env, s, s', call, failure);
      }
    case Finish(call) =>
      if s'.store != s.store {
        assert IsSoundBegun(env, s.begun[s.calls[call].entry]);
        CompletedIsSound(env, s.begun[s.calls[call].entry], s.calls[call].results);
      }
    case _ =>
  }

  lemma CompletedIsSound(env: Env, b: Begun, results: seq<Json>)
    requires IsSoundBegun(env, b)
    ensures IsSoundRecord(env, CompletedRecord(b.record, results))
    ensures IdOf(CompletedRecord(b.record, results)) == IdOf(b.record)
  {
    hide Hashing.PlanHash, Dispatcher.IsDispatched, Policy.Evaluate;
  }

  lemma BegunStaysSound(env: Env, s: State, e: Event)
    requires Safe(env, s)
    ensures BegunIsSound(env, Next(env, s, e))
  {
    hide Receive, SendNext, Hashing.PlanHash, Dispatcher.IsDispatched, IsForged, Policy.Evaluate, SignedIsSound,
         AcceptedIsJustified, CallsAreSound, IsPlanned;
    if e.Send? {
      SendEffect(env, s, e);
    }
  }

  lemma CallsStaySound(env: Env, s: State, e: Event)
    requires Safe(env, s)
    ensures CallsAreSound(Next(env, s, e))
  {
    hide Receive, SendNext, IsPlanned, IsForged, StoreIsSound, BegunIsSound, SignedIsSound, AcceptedIsJustified;
    if e.Send? {
      SendEffect(env, s, e);
    }
  }

  // A request that was built is the call of its step.
  lemma BuiltRequestIsGranted(b: Begun, token: TokenResponse, step: WorkflowStep, now: Time, keys: Keys)
    requires BuildRequest(b.record, b.approval, token, step, now, keys).Ok?
    ensures IsCallOf(BuildRequest(b.record, b.approval, token, step, now, keys).value, b.record, b.approval, token,
                     step, keys)
  {
    hide BuildRequest, CanBeSent, IsStepError;
    BuiltCallIsExact(b.record, b.approval, token, step, now, HttpError, keys);
  }

  lemma NextKeepsBegun(env: Env, s: State, e: Event)
    ensures s.begun <= Next(env, s, e).begun
  {
    hide EgressMcp, Receive, BuildRequest, StepOutcome, IsForged, IsPlanned, SentHeaders;
  }

  lemma SentIsSigned(env: Env, s: State, e: Event)
    requires e.Send?
    ensures var s' := Next(env, s, e);
      s'.signed == s.signed || exists x :: s'.signed == s.signed + [x] && IsSoundSigned(s', x)
  {
    hide BuildRequest, EgressMcp, Receive, StepOutcome, SentHeaders, Loads, Grant;
    var s' := Next(env, s, e);
    if |s'.signed| > |s.signed| {
      var c := s.calls[e.call];
      var b := s.begun[c.entry];
      BuiltRequestIsGranted(b, c.token.value, b.record.proposal.steps[|c.results|], e.now, env.keys);
      var x := s'.signed[|s.signed|];
      assert s'.signed == s.signed + [x] && IsSoundSigned(s', x);
    }
  }

  lemma OnlySendSigns(env: Env, s: State, e: Event)
    ensures !e.Send? ==> Next(env, s, e).signed == s.signed
  {
    hide SendNext, Receive, IsPlanned, IsForged, Begin;
  }

  lemma SignedStaysSound(env: Env, s: State, e: Event)
    requires Safe(env, s)
    ensures SignedIsSound(Next(env, s, e))
  {
    hide Next, StoreIsSound, CallsAreSound, BegunIsSound, AcceptedIsJustified, Loads, Grant;
    NextKeepsBegun(env, s, e);
    OnlySendSigns(env, s, e);
    if e.Send? {
      SentIsSigned(env, s, e);
    }
    var s' := Next(env, s, e);
    forall i | 0 <= i < |s'.signed| ensures IsSoundSigned(s', s'.signed[i]) {
      assert i < |s.signed| ==> IsSoundSigned(s, s.signed[i]);
    }
  }

  // The approved scopes are those of all steps.
  lemma ScopesAreApproved(env: Env, b: Begun, step: WorkflowStep, scope: string)
    requires IsSoundBegun(env, b) && step in b.record.proposal.steps && scope in step.requiredScopes
    ensures scope in b.approval.approvedScopes
  {
    hide Dispatcher.IsDispatched, Hashing.PlanHash, Policy.Evaluate;
    Policy.PolicyIsExact(b.record.proposal.steps, scope);
  }

  // The gateway lets out nothing but calls for a signed grant.
  lemma AcceptedGrantIsJustified(env: Env, s: State, a: Accepted, x: Signed)
    requires BegunIsSound(env, s) && IsSoundSigned(s, x)
    requires IsCovered(a.request, a.context, a.at, env.keys) && a.request.executionGrant.value == x.grant
    ensures IsJustified(env, s, a)
  {
    hide Dispatcher.IsDispatched, Hashing.PlanHash, IsSignatureOf, Loads, AgreeOn, Policy.Evaluate;
    var b := s.begun[x.entry];
    var step := b.record.proposal.steps[x.step];
    assert IsSoundBegun(env, b);
    forall scope | scope in step.requiredScopes ensures scope in b.approval.approvedScopes {
      ScopesAreApproved(env, b, step, scope);
    }
    assert IsStepOfApprovedPlan(env, a, b, step);
  }

  lemma JustificationLasts(env: Env, s: State, s': State, a: Accepted)
    requires IsJustified(env, s, a) && s.begun <= s'.begun
    ensures IsJustified(env, s', a)
  {
    hide IsStepOfApprovedPlan;
    var e, i :| 0 <= e < |s.begun| && 0 <= i < |s.begun[e].record.proposal.steps| &&
      IsStepOfApprovedPlan(env, a, s.begun[e], s.begun[e].record.proposal.steps[i]);
    assert s'.begun[e] == s.begun[e];
  }

  lemma CoveredIsSigned(env: Env, s: State, a: Accepted)
    requires IsCovered(a.request, a.context, a.at, env.keys) && !IsForged(env, s, a.request)
    ensures a.request.executionGrant.Some?
    ensures exists i :: 0 <= i < |s.signed| &&
              Hashing.CanonicalGrant(s.signed[i].grant, env.keys.show)
              == Hashing.CanonicalGrant(a.request.executionGrant.value, env.keys.show)
  {
    hide Hashing.CanonicalGrant, IsSignatureOf;
  }

  // Both checks passed.
  predicate GotOut(env: Env, a: Accepted) {
    Verified(env, a.encoded, a.signature, a.at) == Ok(a.context) && IsCovered(a.request, a.context, a.at, env.keys)
  }

  // A call gets out exactly when its headers verify to a context for which a grant covers it.
  lemma ReceiveIsExact(env: Env, s: State, encoded: Option<string>, signature: Option<string>, p: EgressRequest,
                       now: Time)
    ensures var context := Verified(env, encoded, signature, now);
      EgressMcp(encoded, signature, p, now, env.keys, env.codec).Ok? <==>
        context.Ok? && IsCovered(p, context.value, now, env.keys)
    ensures var context := Verified(env, encoded, signature, now);
      Receive(env, s, encoded, signature, p, now)
      == if context.Ok? && IsCovered(p, context.value, now, env.keys)
        then s.(accepted := s.accepted + [Accepted(encoded, signature, p, context.value, now)]) else s
  {
    EgressMcpIsBothChecks(encoded, signature, p, now, env.keys, env.codec);
    hide EgressMcp, VerifyContext, Derive, IsCovered;
    var context := Verified(env, encoded, signature, now);
    if context.Ok? {
      OnlyCoveredCallsGetOut(p, context.value, now, env.keys);
    }
  }

  // One more call than before, and why it is there: it is the one that was just signed, or comes
  // from elsewhere with no forged grant.
  ghost predicate IsNew(env: Env, s: State, s': State, a: Accepted) {
    && s'.accepted == s.accepted + [a] && GotOut(env, a)
    && (if |s'.signed| > |s.signed|
          then s'.signed[..|s.signed|] == s.signed && a.request.executionGrant == Some(s'.signed[|s.signed|].grant)
        else s'.signed == s.signed && !IsForged(env, s, a.request))
  }

  lemma SentIsNew(env: Env, s: State, e: Event)
    requires e.Send?
    ensures var s' := Next(env, s, e);
      s.signed <= s'.signed && (s'.accepted == s.accepted || exists a :: IsNew(env, s, s', a))
  {
    hide EgressMcp, Verified, StepOutcome, SentHeaders, BuildRequest, IsCovered, IsForged, Receive, IsGrantOf;
    var s' := Next(env, s, e);
    if s'.accepted != s.accepted {
      var c := s.calls[e.call];
      var b := s.begun[c.entry];
      var step := b.record.proposal.steps[|c.results|];
      var request := BuildRequest(b.record, b.approval, c.token.value, step, e.now, env.keys).value;
      BuiltRequestIsGranted(b, c.token.value, step, e.now, env.keys);
      var headers := SentHeaders(b.record, b.approval, e.now, env.keys, env.codec);
      var sent := s.(signed := s'.signed);
      ReceiveIsExact(env, sent, headers.0, headers.1, request, e.checkedAt);
      var a := s'.accepted[|s.accepted|];
      assert IsNew(env, s, s', a);
    }
  }

  lemma NewAcceptedIs(env: Env, s: State, e: Event)
    ensures var s' := Next(env, s, e);
      s.signed <= s'.signed && (s'.accepted == s.accepted || exists a :: IsNew(env, s, s', a))
  {
    hide EgressMcp, Verified, IsPlanned, Begin, IsCovered, IsForged, Receive, SendNext;
    if e.Send? {
      SentIsNew(env, s, e);
    } else {
      var s' := Next(env, s, e);
      if s'.accepted != s.accepted {
        ReceiveIsExact(env, s, e.encoded, e.signature, e.egress, e.now);
        assert IsNew(env, s, s', s'.accepted[|s.accepted|]);
      }
    }
  }

  lemma NewAcceptedIsJustified(env: Env, s: State, e: Event, a: Accepted)
    requires Safe(env, s) && Hashing.TellsTimesApart(env.keys.show) && IsNew(env, s, Next(env, s, e), a)
    ensures IsJustified(env, Next(env, s, e), a)
  {
    hide Next, StoreIsSound, CallsAreSound, AcceptedIsJustified, IsSoundSigned, IsJustified, BegunIsSound, IsCovered,
         Hashing.CanonicalGrant, IsForged, Verified, Hashing.TellsTimesApart;
    BegunStaysSound(env, s, e);
    SignedStaysSound(env, s, e);
    NextKeepsBegun(env, s, e);
    var s' := Next(env, s, e);
    if |s'.signed| > |s.signed| {
      AcceptedGrantIsJustified(env, s', a, s'.signed[|s.signed|]);
    } else {
      CoveredIsSigned(env, s, a);
      var i :| 0 <= i < |s.signed| &&
        Hashing.CanonicalGrant(s.signed[i].grant, env.keys.show)
        == Hashing.CanonicalGrant(a.request.executionGrant.value, env.keys.show);
      Hashing.CanonicalGrantIsInjective(s.signed[i].grant, a.request.executionGrant.value, env.keys.show);
      assert IsSoundSigned(s', s'.signed[i]);
      AcceptedGrantIsJustified(env, s', a, s.signed[i]);
    }
  }

  lemma AcceptedStaysJustified(env: Env, s: State, e: Event)
    requires Safe(env, s) && Hashing.TellsTimesApart(env.keys.show)
    ensures AcceptedIsJustified(env, Next(env, s, e))
  {
    hide IsJustified, Next, StoreIsSound, CallsAreSound, BegunIsSound, SignedIsSound, GotOut, IsForged,
         Hashing.TellsTimesApart;
    NewAcceptedIs(env, s, e);
    NextKeepsBegun(env, s, e);
    var s' := Next(env, s, e);
    if a :| IsNew(env, s, s', a) {
      NewAcceptedIsJustified(env, s, e, a);
    }
    forall i | 0 <= i < |s'.accepted| ensures IsJustified(env, s', s'.accepted[i]) {
      if i < |s.accepted| {
        assert s'.accepted[i] == s.accepted[i];
        JustificationLasts(env, s, s', s.accepted[i]);
      }
    }
  }

  lemma NextIsSafe(env: Env, s: State, e: Event)
    requires Safe(env, s) && Hashing.TellsTimesApart(env.keys.show)
    ensures Safe(env, Next(env, s, e))
  {
    hide Next, IsJustified, StoreIsSound, CallsAreSound, BegunIsSound, SignedIsSound, AcceptedIsJustified;
    StoreStaysSound(env, s, e);
    BegunStaysSound(env, s, e);
    CallsStaySound(env, s, e);
    SignedStaysSound(env, s, e);
    AcceptedStaysJustified(env, s, e);
  }

  lemma StartIsSafe(env: Env)
    ensures Safe(env, START)
  {
    hide IsSoundRecord, IsSoundBegun, IsSoundSigned, IsJustified;
  }

  lemma {:induction false} RunIsSafe(env: Env, s: State, events: seq<Event>)
    requires Safe(env, s) && Hashing.TellsTimesApart(env.keys.show)
    ensures Safe(env, Run(env, s, events))
  {
    if events != [] {
      hide Safe, Next;
      RunIsSafe(env, s, events[..|events| - 1]);
      NextIsSafe(env, Run(env, s, events[..|events| - 1]), events[|events| - 1]);
    }
  }

  lemma RigidArgumentsAreSent(env: Env, a: Accepted, b: Begun, step: WorkflowStep)
    requires IsStepOfApprovedPlan(env, a, b, step) && IsRigid(Loads(step.inputPayloadJson).value, env.keys.value)
    ensures Loads(step.inputPayloadJson) == Some(Obj(a.request.arguments))
  {
    hide Loads, Hashing.PlanHash, IsRigid, AreEqual;
    RigidEqualsItselfOnly(Loads(step.inputPayloadJson).value, Obj(a.request.arguments), env.keys.value);
  }

  // In every run, with any number of plannings, approvals and callers, each call that gets out
  // is one step of an approved plan, with exactly its arguments where those are rigid.
  lemma EveryAcceptedCallIsApproved(env: Env, events: seq<Event>, i: nat) returns (e: nat, k: nat)
    requires Hashing.TellsTimesApart(env.keys.show) && i < |Run(env, START, events).accepted|
    ensures var (s, a) := (Run(env, START, events), Run(env, START, events).accepted[i]);
      && e < |s.begun| && k < |s.begun[e].record.proposal.steps|
      && var step := s.begun[e].record.proposal.steps[k];
      && IsStepOfApprovedPlan(env, a, s.begun[e], step)
      && (IsRigid(Loads(step.inputPayloadJson).value, env.keys.value) ==>
           Loads(step.inputPayloadJson) == Some(Obj(a.request.arguments)))
  {
    hide IsStepOfApprovedPlan, Run, Hashing.TellsTimesApart, StoreIsSound, CallsAreSound, BegunIsSound, SignedIsSound,
         IsRigid, Loads;
    StartIsSafe(env);
    RunIsSafe(env, START, events);
    var (s, a) := (Run(env, START, events), Run(env, START, events).accepted[i]);
    assert IsJustified(env, s, a);
    e, k :| 0 <= e < |s.begun| && 0 <= k < |s.begun[e].record.proposal.steps| &&
      IsStepOfApprovedPlan(env, a, s.begun[e], s.begun[e].record.proposal.steps[k]);
    StepLoads(env, a, s.begun[e], s.begun[e].record.proposal.steps[k]);
    if IsRigid(Loads(s.begun[e].record.proposal.steps[k].inputPayloadJson).value, env.keys.value) {
      RigidArgumentsAreSent(env, a, s.begun[e], s.begun[e].record.proposal.steps[k]);
    }
  }

  lemma StepLoads(env: Env, a: Accepted, b: Begun, step: WorkflowStep)
    requires IsStepOfApprovedPlan(env, a, b, step)
    ensures Loads(step.inputPayloadJson).Some?
  {
    hide Loads, Hashing.PlanHash, AgreeOn;
  }

  // ---- The life of one planning ----

  predicate IsOn(s: State, c: Call, id: Id) {
    c.entry < |s.begun| && IdOf(s.begun[c.entry].record) == id
  }

  ghost predicate IsQuiet(s: State, id: Id) {
    forall c <- s.calls :: !IsOn(s, s.calls[c], id)
  }

  // Of the approvals begun since `from`, which are for this workflow.
  ghost predicate NoneBegun(s: State, id: Id, from: nat) {
    forall k :: from <= k < |s.begun| ==> IdOf(s.begun[k].record) != id
  }

  ghost predicate OnlyBegun(s: State, id: Id, from: nat, e: nat) {
    from <= e < |s.begun| && forall k :: from <= k < |s.begun| ==> (IdOf(s.begun[k].record) == id <==> k == e)
  }

  ghost predicate OnlyCallIs(s: State, id: Id, e: nat) {
    forall c <- s.calls :: IsOn(s, s.calls[c], id) ==> s.calls[c].entry == e
  }

  // What a planning has come to: before its approval nothing was begun; since then one approval
  // was, and only its call writes the record.
  ghost predicate IsTracked(s: State, id: Id, from: nat) {
    id in s.store &&
    var status := s.store[id].status;
    if IsOpen(status) || status == Cancelled then NoneBegun(s, id, from) && IsQuiet(s, id)
    else if status == Executing then
      exists e: nat :: OnlyBegun(s, id, from, e) && s.store[id] == s.begun[e].record && OnlyCallIs(s, id, e)
    else (exists e: nat :: OnlyBegun(s, id, from, e)) && IsQuiet(s, id)
  }

  predicate MayFollow(before: Status, after: Status) {
    before == after || (IsOpen(before) && (after == Cancelled || after == Executing))
    || (before == Executing && (after == Completed || after == Failed))
  }

  predicate ReplansNot(e: Event, id: Id) {
    e.Plan? ==> IdOf(e.record) != id
  }

  // What an event may do to one planning: nothing, cancel it, begin it, or settle it.
  ghost predicate LeavesAlone(s: State, s': State, id: Id) {
    && id in s.store && id in s'.store && s'.store[id] == s.store[id]
    && s.begun <= s'.begun && (forall k :: |s.begun| <= k < |s'.begun| ==> IdOf(s'.begun[k].record) != id)
    && (forall c <- s'.calls :: IsOn(s', s'.calls[c], id) ==> c in s.calls && s.calls[c].entry == s'.calls[c].entry)
  }

  predicate CancelsIt(s: State, s': State, id: Id) {
    && id in s.store && IsOpen(s.store[id].status)
    && s'.store == s.store[id := s.store[id].(status := Cancelled)] && s'.begun == s.begun && s'.calls == s.calls
  }

  predicate BeginsIt(s: State, s': State, id: Id, call: nat, approval: ApprovedWorkflow, shown: string) {
    && id in s.store && IsOpen(s.store[id].status) && call !in s.calls
    && var record := s.store[id].(status := Executing, approvedWorkflow := Some(approval));
    && s'.store == s.store[id := record] && s'.begun == s.begun + [Begun(record, approval, shown)]
    && s'.calls == s.calls[call := Call(|s.begun|, None, [])]
  }

  predicate SettlesIt(s: State, s': State, id: Id, call: nat, status: Status, results: seq<Json>) {
    && id in s.store && call in s.calls && IsOn(s, s.calls[call], id) && (status == Completed || status == Failed)
    && s'.store == s.store[id := s.begun[s.calls[call].entry].record.(status := status, egressResults := results)]
    && s'.begun == s.begun && s'.calls == s.calls - {call}
  }

  ghost predicate MovesOn(s: State, s': State, id: Id) {
    || LeavesAlone(s, s', id) || CancelsIt(s, s', id)
    || (exists call: nat, approval, shown :: BeginsIt(s, s', id, call, approval, shown))
    || (exists call: nat, status, results :: SettlesIt(s, s', id, call, status, results))
  }

  lemma FailMovesOn(s: State, call: nat, failure: Json, id: Id)
    requires call in s.calls && s.calls[call].entry < |s.begun| && id in s.store
    ensures MovesOn(s, Fail(s, call, failure), id)
  {
    if IsOn(s, s.calls[call], id) {
      assert SettlesIt(s, Fail(s, call, failure), id, call, Failed, [failure]);
    }
  }

  lemma ApproveMovesOn(env: Env, s: State, e: Event, id: Id)
    requires Safe(env, s) && id in s.store && e.Approve?
    ensures MovesOn(s, Next(env, s, e), id)
  {
    hide BegunIsSound, SignedIsSound, AcceptedIsJustified, IsSoundRecord, IsPlanned, IsForged, Receive, SendNext;
    var s' := Next(env, s, e);
    var own := (e.context.tenantId, e.context.userId, e.context.sessionId, e.workflowId);
    if e.call !in s.calls && own == id {
      match Begin(Some(s.store[id]), e.request, e.context, e.authContext, e.approvalId, e.now)
      case Begins(record, approval) => assert BeginsIt(s, s', id, e.call, approval, e.request.planHash);
      case _ =>
    } else {
      assert own in s.store ==> IdOf(s.store[own]) == own;
    }
  }

  lemma StandingStillMovesOn(s: State, s': State, like: State, id: Id)
    requires id in s.store && s'.begun == s.begun
    requires LeavesAlone(s, s', id) ||
             (s'.store == like.store && like.begun == s.begun && s'.calls == like.calls && MovesOn(s, like, id))
    ensures MovesOn(s, s', id)
  {
    if !LeavesAlone(s, s', id) && (exists call: nat, status, results :: SettlesIt(s, like, id, call, status, results)) {
      var call: nat, status, results :| SettlesIt(s, like, id, call, status, results);
      assert SettlesIt(s, s', id, call, status, results);
    }
  }

  lemma SendMovesOn(env: Env, s: State, e: Event, id: Id)
    requires id in s.store && e.Send?
    ensures MovesOn(s, Next(env, s, e), id)
  {
    hide Next, Fail, MovesOn, Advances;
    SendEffect(env, s, e);
    var s' := Next(env, s, e);
    if GivesUp(s, s', e.call, e.failure) {
      FailMovesOn(s, e.call, e.failure, id);
      FailedIs(s, e.call, e.failure);
      StandingStillMovesOn(s, s', Fail(s, e.call, e.failure), id);
    } else {
      StandsStill(s, s', e.call, id);
      StandingStillMovesOn(s, s', s, id);
    }
  }

  lemma StandsStill(s: State, s': State, call: nat, id: Id)
    requires id in s.store && s'.begun == s.begun && (s' == s || Advances(s, s', call))
    ensures LeavesAlone(s, s', id)
  {
  }

  lemma EventMovesOn(env: Env, s: State, e: Event, id: Id)
    requires Safe(env, s) && id in s.store && ReplansNot(e, id)
    ensures MovesOn(s, Next(env, s, e), id)
  {
    hide Safe, EgressMcp, Receive, IsForged, Begin, SendNext, IsPlanned;
    var s' := Next(env, s, e);
    match e
    case Approve(_, _, _, _, _, _, _) => ApproveMovesOn(env, s, e, id);
    case Send(_, _, _, _, _) => SendMovesOn(env, s, e, id);
    case Exchange(call, _, failure) =>
      if call in s.calls && s.calls[call].entry < |s.begun| {
        FailMovesOn(s, call, failure, id);
        assert s' == Fail(s, call, failure) || LeavesAlone(s, s', id);
      }
    case Finish(call) =>
      if call in s.calls && IsOn(s, s.calls[call], id) && s' != s {
        assert SettlesIt(s, s', id, call, Completed, s.calls[call].results);
      }
    case _ => assert LeavesAlone(s, s', id);
  }

  // A tracked planning stays tracked, keeps its plan and its hash, and its status moves only
  // from open to cancelled or executing, and from executing to completed or failed.
  ghost predicate GoesOn(s: State, s': State, id: Id, from: nat) {
    && id in s.store && id in s'.store
    && IsTracked(s', id, from)
    && MayFollow(s.store[id].status, s'.store[id].status)
    && s'.store[id].proposal == s.store[id].proposal && s'.store[id].planHash == s.store[id].planHash
    && (IsSettled(s.store[id].status) ==> s'.store[id] == s.store[id])
  }

  lemma LeftAloneGoesOn(s: State, s': State, id: Id, from: nat)
    requires IsTracked(s, id, from) && LeavesAlone(s, s', id) && from <= |s.begun|
    ensures GoesOn(s, s', id, from)
  {
    forall k | from <= k < |s'.begun|
      ensures IdOf(s'.begun[k].record) == id ==> k < |s.begun| && IdOf(s.begun[k].record) == id {
    }
    if !IsOpen(s.store[id].status) && s.store[id].status != Cancelled {
      var e: nat :| OnlyBegun(s, id, from, e) &&
        (s.store[id].status == Executing ==> s.store[id] == s.begun[e].record && OnlyCallIs(s, id, e));
      assert OnlyBegun(s', id, from, e);
    }
  }

  lemma CancelledGoesOn(s: State, s': State, id: Id, from: nat)
    requires IsTracked(s, id, from) && CancelsIt(s, s', id)
    ensures GoesOn(s, s', id, from)
  {
  }

  lemma BegunGoesOn(s: State, s': State, id: Id, from: nat, call: nat, approval: ApprovedWorkflow, shown: string)
    requires IsTracked(s, id, from) && BeginsIt(s, s', id, call, approval, shown) && from <= |s.begun|
    requires IdOf(s.store[id]) == id && CallsAreSound(s)
    ensures GoesOn(s, s', id, from)
  {
    assert OnlyBegun(s', id, from, |s.begun|);
    assert OnlyCallIs(s', id, |s.begun|) by {
      forall c | c in s'.calls && IsOn(s', s'.calls[c], id) ensures s'.calls[c].entry == |s.begun| {
        if c != call {
          assert IsOn(s, s.calls[c], id);
        }
      }
    }
  }

  lemma SettledGoesOn(s: State, s': State, id: Id, from: nat, call: nat, status: Status, results: seq<Json>)
    requires IsTracked(s, id, from) && SettlesIt(s, s', id, call, status, results) && CallsAreSound(s)
    ensures GoesOn(s, s', id, from)
  {
    assert IsOn(s, s.calls[call], id);
    var e: nat :| OnlyBegun(s, id, from, e) && s.store[id] == s.begun[e].record && OnlyCallIs(s, id, e);
    assert OnlyBegun(s', id, from, e);
    assert IsQuiet(s', id) by {
      forall c | c in s'.calls ensures !IsOn(s', s'.calls[c], id) {
        assert s'.calls[c] == s.calls[c] && s.calls[c].entry != s.calls[call].entry;
      }
    }
  }

  lemma NextGoesOn(env: Env, s: State, e: Event, id: Id, from: nat)
    requires Safe(env, s) && IsTracked(s, id, from) && ReplansNot(e, id) && from <= |s.begun|
    ensures GoesOn(s, Next(env, s, e), id, from)
  {
    assert id in s.store;
    hide Next, SignedIsSound, AcceptedIsJustified, IsSoundRecord, BegunIsSound, GoesOn, IsTracked, LeavesAlone,
         SettlesIt, BeginsIt;
    EventMovesOn(env, s, e, id);
    var s' := Next(env, s, e);
    if LeavesAlone(s, s', id) {
      LeftAloneGoesOn(s, s', id, from);
    } else if CancelsIt(s, s', id) {
      CancelledGoesOn(s, s', id, from);
    } else if exists call: nat, approval, shown :: BeginsIt(s, s', id, call, approval, shown) {
      var call: nat, approval, shown :| BeginsIt(s, s', id, call, approval, shown);
      BegunGoesOn(s, s', id, from, call, approval, shown);
    } else {
      var call: nat, status, results :| SettlesIt(s, s', id, call, status, results);
      SettledGoesOn(s, s', id, from, call, status, results);
    }
  }

  // ---- The life of a planning over a whole run ----

  // Just planned: waiting for its approval, with no call for it under way.
  ghost predicate IsFresh(env: Env, s: State, id: Id) {
    Safe(env, s) && id in s.store && IsOpen(s.store[id].status) && IsQuiet(s, id)
  }

  predicate NeverReplans(events: seq<Event>, id: Id) {
    forall i :: 0 <= i < |events| ==> ReplansNot(events[i], id)
  }

  lemma {:induction false} RunIsTracked(env: Env, s: State, events: seq<Event>, id: Id)
    requires IsFresh(env, s, id) && NeverReplans(events, id) && Hashing.TellsTimesApart(env.keys.show)
    ensures var s' := Run(env, s, events);
      Safe(env, s') && IsTracked(s', id, |s.begun|) && |s.begun| <= |s'.begun| &&
      s'.store[id].proposal == s.store[id].proposal && s'.store[id].planHash == s.store[id].planHash
  {
    RunIsSafe(env, s, events);
    if events != [] {
      var n := |events| - 1;
      RunIsTracked(env, s, events[..n], id);
      hide Safe, Next, IsTracked;
      NextGoesOn(env, Run(env, s, events[..n]), events[n], id, |s.begun|);
      NextKeepsBegun(env, Run(env, s, events[..n]), events[n]);
    }
  }

  // After a planning and without another one for its workflow, the status only ever moves from
  // open to cancelled or executing and from executing to completed or failed; the plan and its
  // hash, which is always the hash of that plan, stay.
  lemma StatusMovesForward(env: Env, s: State, events: seq<Event>, id: Id, k: nat)
    requires IsFresh(env, s, id) && NeverReplans(events, id) && Hashing.TellsTimesApart(env.keys.show)
    requires k < |events|
    ensures var (before, after) := (Run(env, s, events[..k]), Run(env, s, events[..k + 1]));
      && id in before.store && id in after.store
      && MayFollow(before.store[id].status, after.store[id].status)
      && after.store[id].proposal == s.store[id].proposal
      && after.store[id].planHash == s.store[id].planHash
      && s.store[id].planHash == Hashing.PlanHash(s.store[id].proposal, env.keys.show, env.sha)
  {
    hide Next, IsTracked, Hashing.TellsTimesApart, Hashing.PlanHash, Policy.Evaluate, Dispatcher.IsDispatched,
         CallsAreSound, BegunIsSound, SignedIsSound, AcceptedIsJustified;
    RunIsTracked(env, s, events[..k], id);
    assert events[..k + 1][..k] == events[..k];
    NextGoesOn(env, Run(env, s, events[..k]), events[k], id, |s.begun|);
    assert IsSoundRecord(env, s.store[id]);
  }

  lemma LastStepGoesOn(env: Env, s: State, events: seq<Event>, id: Id)
    requires IsFresh(env, s, id) && NeverReplans(events, id) && Hashing.TellsTimesApart(env.keys.show) && events != []
    ensures GoesOn(Run(env, s, events[..|events| - 1]), Run(env, s, events), id, |s.begun|)
  {
    hide Next, IsTracked, Safe, IsFresh, GoesOn, ReplansNot, Hashing.TellsTimesApart;
    var n := |events| - 1;
    assert Run(env, s, events) == Next(env, Run(env, s, events[..n]), events[n]);
    hide Run;
    RunIsTracked(env, s, events[..n], id);
    NextGoesOn(env, Run(env, s, events[..n]), events[n], id, |s.begun|);
  }

  // Once completed, failed or cancelled, the record never changes again.
  lemma {:induction false} SettledStaysSettled(env: Env, s: State, events: seq<Event>, id: Id, k: nat)
    requires IsFresh(env, s, id) && NeverReplans(events, id) && Hashing.TellsTimesApart(env.keys.show)
    requires k <= |events| && id in Run(env, s, events[..k]).store &&
      IsSettled(Run(env, s, events[..k]).store[id].status)
    ensures id in Run(env, s, events).store && Run(env, s, events).store[id] == Run(env, s, events[..k]).store[id]
    decreases |events|
  {
    hide Run, Safe, IsFresh, IsTracked;
    if k == |events| {
      assert events[..k] == events;
    } else {
      var n := |events| - 1;
      assert events[..n][..k] == events[..k];
      SettledStaysSettled(env, s, events[..n], id, k);
      LastStepGoesOn(env, s, events, id);
    }
  }

  lemma TrackedBeganOnce(s: State, id: Id, from: nat, i: nat, j: nat)
    requires IsTracked(s, id, from) && from <= i < |s.begun| && from <= j < |s.begun|
    requires IdOf(s.begun[i].record) == id && IdOf(s.begun[j].record) == id
    ensures i == j
  {
  }

  // Execution of a planning begins at most once, whatever the approve calls.
  lemma ExecutionBeginsOnce(env: Env, s: State, events: seq<Event>, id: Id, i: nat, j: nat)
    requires IsFresh(env, s, id) && NeverReplans(events, id) && Hashing.TellsTimesApart(env.keys.show)
    requires var s' := Run(env, s, events);
      |s.begun| <= i < |s'.begun| && |s.begun| <= j < |s'.begun| &&
      IdOf(s'.begun[i].record) == id && IdOf(s'.begun[j].record) == id
    ensures i == j
  {
    hide Run, Safe, IsFresh, NeverReplans, Hashing.TellsTimesApart, IsTracked;
    RunIsTracked(env, s, events, id);
    TrackedBeganOnce(Run(env, s, events), id, |s.begun|, i, j);
  }

  lemma RunOneMore(env: Env, s: State, events: seq<Event>, e: Event)
    ensures Run(env, s, events + [e]) == Next(env, Run(env, s, events), e)
  {
    hide Next;
    assert (events + [e])[..|events|] == events;
  }

  lemma PlanIsStored(env: Env, s: State, r: WorkflowRecord)
    ensures Next(env, s, Plan(r)) == if IsPlanned(r, env) then s.(store := s.store[IdOf(r) := r]) else s
    ensures IsPlanned(r, env) ==> IsOpen(r.status)
  {
    hide Policy.Evaluate, Hashing.PlanHash, Dispatcher.IsDispatched;
  }

  // A run from nothing, and planning once more when no call is under way, gives a fresh planning.
  lemma PlanningIsFresh(env: Env, events: seq<Event>, record: WorkflowRecord)
    requires Hashing.TellsTimesApart(env.keys.show) && IsPlanned(record, env)
    requires IsQuiet(Run(env, START, events), IdOf(record))
    ensures IsFresh(env, Run(env, START, events + [Plan(record)]), IdOf(record))
  {
    hide Safe, Next, IsPlanned, Hashing.TellsTimesApart;
    StartIsSafe(env);
    RunIsSafe(env, START, events + [Plan(record)]);
    RunOneMore(env, START, events, Plan(record));
    hide Run;
    PlanIsStored(env, Run(env, START, events), record);
  }

  // ---- Settled records and older calls ----

  lemma QuietSettledStays(env: Env, s: State, e: Event, id: Id)
    requires Safe(env, s) && id in s.store && IsSettled(s.store[id].status) && IsQuiet(s, id) && ReplansNot(e, id)
    ensures id in Next(env, s, e).store && Next(env, s, e).store[id] == s.store[id]
  {
    hide Next, Safe, MovesOn, IsQuiet;
    EventMovesOn(env, s, e, id);
    QuietMoves(s, Next(env, s, e), id);
  }

  lemma QuietMoves(s: State, s': State, id: Id)
    requires MovesOn(s, s', id) && id in s.store && IsSettled(s.store[id].status) && IsQuiet(s, id)
    ensures id in s'.store && s'.store[id] == s.store[id]
  {
    hide IsOn;
  }

  // When no approve call for the workflow is under way, of all events only planning it again
  // changes a settled record, and that always does.
  lemma OnlyPlanningReopens(env: Env, s: State, e: Event, id: Id)
    requires Safe(env, s) && id in s.store && IsSettled(s.store[id].status) && IsQuiet(s, id)
    ensures id in Next(env, s, e).store
    ensures Next(env, s, e).store[id] != s.store[id] <==> e.Plan? && IsPlanned(e.record, env) && IdOf(e.record) == id
  {
    hide Next, Safe, IsPlanned, IsQuiet;
    if ReplansNot(e, id) {
      QuietSettledStays(env, s, e, id);
    } else {
      PlanIsStored(env, s, e.record);
    }
  }

  // A call that has not come to its end, or would end with another record than is there.
  predicate CanRewrite(s: State, call: nat, id: Id) {
    call in s.calls && IsOn(s, s.calls[call], id) && id in s.store &&
    var (c, record) := (s.calls[call], s.begun[s.calls[call].entry].record);
    c.token.None? || |c.results| < |record.proposal.steps|
    || (|c.results| == |record.proposal.steps| && CompletedRecord(record, c.results) != s.store[id])
  }

  predicate Rewrites(env: Env, s: State, e: Event, id: Id) {
    ReplansNot(e, id) && id in s.store && id in Next(env, s, e).store && Next(env, s, e).store[id] != s.store[id]
  }

  lemma RewritingIsByACall(env: Env, s: State, e: Event, id: Id)
    requires Safe(env, s) && id in s.store && IsSettled(s.store[id].status) && Rewrites(env, s, e, id)
    ensures exists call: nat :: CanRewrite(s, call, id)
  {
    hide EgressMcp, Receive, IsForged, BuildRequest, StepOutcome, SentHeaders, IsPlanned, BegunIsSound, SignedIsSound,
         AcceptedIsJustified, IsSoundRecord;
    match e
    case Exchange(call, _, _) => assert CanRewrite(s, call, id);
    case Send(call, _, _, _, _) => assert CanRewrite(s, call, id);
    case Finish(call) => assert CanRewrite(s, call, id);
    case _ =>
  }

  // Something else than what is there.
  function OtherFailure(record: WorkflowRecord): Json {
    if record.egressResults == [Null] then Bool(true) else Null
  }

  lemma FailureRewrites(env: Env, s: State, call: nat, id: Id)
    requires id in s.store && call in s.calls && IsOn(s, s.calls[call], id)
    ensures id in Fail(s, call, OtherFailure(s.store[id])).store
    ensures Fail(s, call, OtherFailure(s.store[id])).store[id] != s.store[id]
  {
    assert Fail(s, call, OtherFailure(s.store[id])).store[id].egressResults != s.store[id].egressResults;
  }

  lemma UnansweredSendFails(env: Env, s: State, call: nat, failure: Json)
    requires call in s.calls && s.calls[call].entry < |s.begun| && s.calls[call].token.Some?
    requires |s.calls[call].results| < |s.begun[s.calls[call].entry].record.proposal.steps|
    ensures Next(env, s, Send(call, 0, 0, HttpError, failure)).store == Fail(s, call, failure).store
  {
    hide EgressMcp, Receive, BuildRequest, SentHeaders;
  }

  lemma CallRewrites(env: Env, s: State, call: nat, id: Id) returns (e: Event)
    requires CanRewrite(s, call, id)
    ensures Rewrites(env, s, e, id)
  {
    var (c, failure) := (s.calls[call], OtherFailure(s.store[id]));
    FailureRewrites(env, s, call, id);
    if c.token.None? {
      e := Exchange(call, None, failure);
    } else if |c.results| < |s.begun[c.entry].record.proposal.steps| {
      e := Send(call, 0, 0, HttpError, failure);
      UnansweredSendFails(env, s, call, failure);
      hide Next, Fail;
    } else {
      e := Finish(call);
    }
  }

  // A settled record can change without being planned again exactly when a call for an older
  // planning of the workflow is still under way.
  lemma SettledChangesExactly(env: Env, s: State, id: Id)
    requires Safe(env, s) && id in s.store && IsSettled(s.store[id].status)
    ensures (exists e: Event :: Rewrites(env, s, e, id)) <==> (exists call: nat :: CanRewrite(s, call, id))
  {
    hide Safe, Rewrites, CanRewrite;
    if e: Event :| Rewrites(env, s, e, id) {
      RewritingIsByACall(env, s, e, id);
    }
    if call: nat :| CanRewrite(s, call, id) {
      var e := CallRewrites(env, s, call, id);
    }
  }

  // The owner of the record approves or refuses it, whatever the context, times and ids are.
  predicate IsOwnersAnswer(e: Event, r: WorkflowRecord, approved: bool) {
    && e.Approve? && e.workflowId == r.workflowId && e.request == ApproveRequest(approved, r.planHash)
    && e.context.userId == r.userId && e.context.sessionId == r.sessionId && e.context.tenantId == r.tenantId
    && (approved ==> e.authContext.Some?)
  }

  lemma ApproveIsBegun(env: Env, s: State, r: WorkflowRecord, e: Event)
    requires IdOf(r) in s.store && s.store[IdOf(r)] == r && IsOpen(r.status) && Truthy(r.tokenRef)
    requires IsOwnersAnswer(e, r, true) && e.call !in s.calls
    ensures var s' := Next(env, s, e);
      s'.calls == s.calls[e.call := Call(|s.begun|, None, [])] && |s'.begun| == |s.begun| + 1 &&
        IdOf(s'.begun[|s.begun|].record) == IdOf(r)
  {
  }

  lemma ApproveIsRefused(env: Env, s: State, r: WorkflowRecord, e: Event)
    requires IdOf(r) in s.store && s.store[IdOf(r)] == r && IsOpen(r.status)
    requires IsOwnersAnswer(e, r, false) && e.call !in s.calls
    ensures Next(env, s, e) == s.(store := s.store[IdOf(r) := r.(status := Cancelled)])
  {
  }

  lemma ExchangeFails(env: Env, s: State, call: nat, failure: Json)
    requires call in s.calls && s.calls[call].entry < |s.begun| && s.calls[call].token.None?
    ensures Next(env, s, Exchange(call, None, failure)) == Fail(s, call, failure)
  {
  }

  lemma RunOfFour(env: Env, a: Event, b: Event, c: Event, d: Event, last: Event)
    ensures Run(env, START, [a, b, c, d]) == Next(env, Next(env, Next(env, Next(env, START, a), b), c), d)
    ensures Run(env, START, [a, b, c, d, last]) == Next(env, Run(env, START, [a, b, c, d]), last)
  {
    hide Next;
    RunOneMore(env, START, [], a);
    assert [] + [a] == [a];
    RunOneMore(env, START, [a], b);
    assert [a] + [b] == [a, b];
    RunOneMore(env, START, [a, b], c);
    assert [a, b] + [c] == [a, b, c];
    RunOneMore(env, START, [a, b, c], d);
    assert [a, b, c] + [d] == [a, b, c, d];
    RunOneMore(env, START, [a, b, c, d], last);
    assert [a, b, c, d] + [last] == [a, b, c, d, last];
  }

  // Planned, approved by its owner, planned again, refused by its owner: the record is settled as
  // cancelled, and becomes failed when the token exchange of the older call fails.
  lemma OlderCallRewritesCancelled(env: Env, r: WorkflowRecord, approve: Event, refuse: Event, failure: Json)
    requires IsPlanned(r, env) && Truthy(r.tokenRef)
    requires IsOwnersAnswer(approve, r, true) && IsOwnersAnswer(refuse, r, false) && approve.call != refuse.call
    ensures var before := Run(env, START, [Plan(r), approve, Plan(r), refuse]);
      var after := Run(env, START, [Plan(r), approve, Plan(r), refuse, Exchange(approve.call, None, failure)]);
      && IdOf(r) in before.store && before.store[IdOf(r)].status == Cancelled
      && IdOf(r) in after.store && after.store[IdOf(r)].status == Failed
  {
    assert approve.Approve? && refuse.Approve?;
    hide Run, IsPlanned, Next, IsOwnersAnswer;
    RunOfFour(env, Plan(r), approve, Plan(r), refuse, Exchange(approve.call, None, failure));
    PlanIsStored(env, START, r);
    var s1 := Next(env, START, Plan(r));
    ApproveIsBegun(env, s1, r, approve);
    var s2 := Next(env, s1, approve);
    PlanIsStored(env, s2, r);
    var s3 := Next(env, s2, Plan(r));
    ApproveIsRefused(env, s3, r, refuse);
    ExchangeFails(env, Next(env, s3, refuse), approve.call, failure);
  }

  // ---- Signed once, let out any number of times ----

  predicate SameStep(x: Signed, y: Signed) {
    x.entry == y.entry && x.step == y.step
  }

  // No step of an approval is signed twice, and what a call signs next is still unsigned.
  ghost predicate SignedOnce(s: State) {
    && (forall i, j :: 0 <= i < j < |s.signed| ==> !SameStep(s.signed[i], s.signed[j]))
    && (forall i, c | 0 <= i < |s.signed| && c in s.calls ::
          s.signed[i].entry == s.calls[c].entry ==> s.signed[i].step < |s.calls[c].results|)
  }

  lemma FailKeepsSignedOnce(s: State, s': State, call: nat)
    requires SignedOnce(s) && call in s.calls && s'.signed == s.signed && s'.calls == s.calls - {call}
    ensures SignedOnce(s')
  {
  }

  // One more signature, by a call that then ends or goes on to the next step.
  // One more signature, by a call that then ends or goes on to the next step.
  lemma SendKeepsSignedOnce(s: State, s': State, call: nat, x: Signed)
    requires SignedOnce(s) && CallsAreSound(s) && SignsNext(s, s', call, x)
    requires s'.calls == s.calls - {call} || Advances(s, s', call)
    ensures SignedOnce(s')
  {
    forall i, j | 0 <= i < j < |s'.signed| ensures !SameStep(s'.signed[i], s'.signed[j]) {
      if j == |s.signed| {
        assert s'.signed[i] == s.signed[i];
      }
    }
    forall i, c | 0 <= i < |s'.signed| && c in s'.calls && s'.signed[i].entry == s'.calls[c].entry
      ensures s'.signed[i].step < |s'.calls[c].results|
    {
      assert c in s.calls && s'.calls[c].entry == s.calls[c].entry;
      if i < |s.signed| {
        assert s'.signed[i] == s.signed[i];
      }
    }
  }

  lemma SendSignsOnce(env: Env, s: State, e: Event)
    requires Safe(env, s) && SignedOnce(s) && e.Send?
    ensures SignedOnce(Next(env, s, e))
  {
    hide Next, SignedOnce, StoreIsSound, BegunIsSound, SignedIsSound, AcceptedIsJustified, Advances, Fail,
         CallsAreSound;
    SendEffect(env, s, e);
    var s' := Next(env, s, e);
    if x :| SignsNext(s, s', e.call, x) {
      SendKeepsSignedOnce(s, s', e.call, x);
    } else if s' != s {
      FailKeepsSignedOnce(s, s', e.call);
    }
  }

  lemma NextSignsOnce(env: Env, s: State, e: Event)
    requires Safe(env, s) && SignedOnce(s)
    ensures SignedOnce(Next(env, s, e))
  {
    hide SendNext, Receive, IsPlanned, IsForged, StoreIsSound, BegunIsSound, AcceptedIsJustified, Begin,
         IsSoundRecord;
    match e
    case Send(_, _, _, _, _) =>
      SendSignsOnce(env, s, e);
    case Approve(_, _, _, _, _, _, _) =>
      hide SignedOnce, Safe;
      ApproveSignsOnce(env, s, e);
    case _ =>
  }

  lemma ApproveSignsOnce(env: Env, s: State, e: Event)
    requires Safe(env, s) && SignedOnce(s) && e.Approve?
    ensures SignedOnce(Next(env, s, e))
  {
    hide StoreIsSound, BegunIsSound, AcceptedIsJustified, Begin, IsSoundRecord, IsForged, IsPlanned, Receive,
         SendNext, Grant, Loads;
    assert forall i :: 0 <= i < |s.signed| ==> IsSoundSigned(s, s.signed[i]);
  }

  // In every run each step of a begun approval is signed at most once.
  lemma {:induction false} EachStepIsSignedOnce(env: Env, events: seq<Event>)
    requires Hashing.TellsTimesApart(env.keys.show)
    ensures SignedOnce(Run(env, START, events))
    decreases |events|
  {
    if events != [] {
      var n := |events| - 1;
      hide Safe, Next, SignedOnce, Hashing.TellsTimesApart;
      EachStepIsSignedOnce(env, events[..n]);
      StartIsSafe(env);
      RunIsSafe(env, START, events[..n]);
      NextSignsOnce(env, Run(env, START, events[..n]), events[n]);
    }
  }

  // What was let out had passed both checks, with a grant that had been signed.
  ghost predicate AcceptedAreGranted(env: Env, s: State) {
    forall i :: 0 <= i < |s.accepted| ==> GotOut(env, s.accepted[i]) && !IsForged(env, s, s.accepted[i].request)
  }

  lemma ForgedStays(env: Env, s: State, s': State, request: EgressRequest)
    requires !IsForged(env, s, request) && s.signed <= s'.signed
    ensures !IsForged(env, s', request)
  {
    hide Hashing.CanonicalGrant, IsSignatureOf;
    if request.executionGrant.Some? {
      assert forall i :: 0 <= i < |s.signed| ==> s'.signed[i] == s.signed[i];
    }
  }

  lemma SignedIsNotForged(env: Env, s: State, request: EgressRequest, i: nat)
    requires i < |s.signed| && request.executionGrant == Some(s.signed[i].grant)
    ensures !IsForged(env, s, request)
  {
    hide Hashing.CanonicalGrant, IsSignatureOf;
  }

  lemma GrantedStays(env: Env, s: State, e: Event)
    requires AcceptedAreGranted(env, s)
    ensures AcceptedAreGranted(env, Next(env, s, e))
  {
    NewAcceptedIs(env, s, e);
    hide Next, GotOut, IsForged;
    var s' := Next(env, s, e);
    forall i | 0 <= i < |s'.accepted|
      ensures GotOut(env, s'.accepted[i]) && !IsForged(env, s', s'.accepted[i].request)
    {
      if i < |s.accepted| {
        assert s'.accepted[i] == s.accepted[i];
        ForgedStays(env, s, s', s.accepted[i].request);
      } else if |s'.signed| > |s.signed| {
        SignedIsNotForged(env, s', s'.accepted[i].request, |s.signed|);
      } else {
        ForgedStays(env, s, s', s'.accepted[i].request);
      }
    }
  }

  lemma {:induction false} RunIsGranted(env: Env, events: seq<Event>)
    ensures AcceptedAreGranted(env, Run(env, START, events))
    decreases |events|
  {
    if events != [] {
      hide AcceptedAreGranted, Next;
      RunIsGranted(env, events[..|events| - 1]);
      GrantedStays(env, Run(env, START, events[..|events| - 1]), events[|events| - 1]);
    }
  }

  predicate IsLive(a: Accepted, now: Time) {
    a.request.executionGrant.Some? &&
      (a.request.executionGrant.value.expiresAt.Some? ==> now < a.request.executionGrant.value.expiresAt.value)
  }

  // What it takes to send a call that was let out once more, with other arguments and headers.
  predicate CanBeSentAgain(env: Env, a: Accepted, arguments: map<string, Json>, encoded: Option<string>,
                           signature: Option<string>, now: Time) {
    var context := Verified(env, encoded, signature, now);
    && context.Ok? && context.value.userId == a.context.userId && context.value.sessionId == a.context.sessionId &&
       context.value.tenantId == a.context.tenantId
    && IsLive(a, now) && AreEqual(Obj(a.request.executionGrant.value.arguments), Obj(arguments), env.keys.value)
  }

  lemma AgainIsCoveredExactly(env: Env, a: Accepted, arguments: map<string, Json>, context: TrustedSessionContext,
                              now: Time)
    requires IsCovered(a.request, a.context, a.at, env.keys)
    ensures IsCovered(a.request.(arguments := arguments), context, now, env.keys) <==>
      context.userId == a.context.userId && context.sessionId == a.context.sessionId &&
      context.tenantId == a.context.tenantId && IsLive(a, now) &&
      AreEqual(Obj(a.request.executionGrant.value.arguments), Obj(arguments), env.keys.value)
  {
    hide IsSignatureOf, AreEqual;
  }

  lemma SameGrantIsNotForged(env: Env, s: State, p: EgressRequest, q: EgressRequest)
    requires !IsForged(env, s, p) && p.executionGrant == q.executionGrant && p.grantSignature == q.grantSignature
    ensures !IsForged(env, s, q)
  {
    hide IsSignatureOf, Hashing.CanonicalGrant;
  }

  lemma ForeignIsReceived(env: Env, s: State, encoded: Option<string>, signature: Option<string>, p: EgressRequest,
                          now: Time)
    requires !IsForged(env, s, p)
    ensures Next(env, s, Foreign(encoded, signature, p, now)) == Receive(env, s, encoded, signature, p, now)
  {
    hide IsForged, Receive, SendNext, Begin, IsPlanned;
  }

  lemma ReplayGoesOut(env: Env, s: State, a: Accepted, arguments: map<string, Json>, encoded: Option<string>,
                      signature: Option<string>, now: Time)
    requires GotOut(env, a) && !IsForged(env, s, a.request)
    ensures var p := a.request.(arguments := arguments);
      Next(env, s, Foreign(encoded, signature, p, now))
      == if CanBeSentAgain(env, a, arguments, encoded, signature, now)
        then s.(accepted := s.accepted +
          [Accepted(encoded, signature, p, Verified(env, encoded, signature, now).value, now)])
        else s
  {
    var p := a.request.(arguments := arguments);
    hide Next, IsForged, Receive, Verified, IsCovered, AreEqual, IsLive;
    SameGrantIsNotForged(env, s, a.request, p);
    ForeignIsReceived(env, s, encoded, signature, p, now);
    ReceiveIsExact(env, s, encoded, signature, p, now);
    var context := Verified(env, encoded, signature, now);
    if context.Ok? {
      AgainIsCoveredExactly(env, a, arguments, context.value, now);
    }
  }

  function Repeat<T>(x: T, n: nat): (xs: seq<T>)
    ensures |xs| == n
  {
    seq(n, _ => x)
  }

  lemma {:induction false} ReplaysGoOut(env: Env, s: State, a: Accepted, arguments: map<string, Json>,
                                        encoded: Option<string>, signature: Option<string>, now: Time, n: nat)
    requires GotOut(env, a) && !IsForged(env, s, a.request)
    ensures var p := a.request.(arguments := arguments);
      Run(env, s, Repeat(Foreign(encoded, signature, p, now), n))
      == if CanBeSentAgain(env, a, arguments, encoded, signature, now)
        then s.(accepted := s.accepted +
          Repeat(Accepted(encoded, signature, p, Verified(env, encoded, signature, now).value, now), n))
        else s
    decreases n
  {
    hide Next, GotOut, IsForged, Verified, IsLive, AreEqual;
    assert CanBeSentAgain(env, a, arguments, encoded, signature, now) ==> Verified(env, encoded, signature, now).Ok?;
    hide CanBeSentAgain;
    var p := a.request.(arguments := arguments);
    var again := Foreign(encoded, signature, p, now);
    if n == 0 {
    } else {
      ReplaysGoOut(env, s, a, arguments, encoded, signature, now, n - 1);
      var before := Run(env, s, Repeat(again, n - 1));
      assert Repeat(again, n) == Repeat(again, n - 1) + [again];
      RunOneMore(env, s, Repeat(again, n - 1), again);
      hide Run;
      ForgedStays(env, s, before, a.request);
      ReplayGoesOut(env, before, a, arguments, encoded, signature, now);
      if CanBeSentAgain(env, a, arguments, encoded, signature, now) {
        var out := Accepted(encoded, signature, p, Verified(env, encoded, signature, now).value, now);
        assert s.accepted + Repeat(out, n - 1) + [out] == s.accepted + Repeat(out, n);
      }
    }
  }

  // A call that was let out once in a run is let out as often as it is sent again, exactly with
  // equal arguments, headers that verify for its user, session and tenant, and a live grant.
  lemma GrantsCanBeReplayed(env: Env, events: seq<Event>, i: nat, arguments: map<string, Json>,
                            encoded: Option<string>, signature: Option<string>, now: Time, n: nat)
    requires i < |Run(env, START, events).accepted|
    ensures var s := Run(env, START, events);
      var (a, p) := (s.accepted[i], s.accepted[i].request.(arguments := arguments));
      Run(env, s, Repeat(Foreign(encoded, signature, p, now), n))
      == if CanBeSentAgain(env, a, arguments, encoded, signature, now)
        then s.(accepted := s.accepted +
          Repeat(Accepted(encoded, signature, p, Verified(env, encoded, signature, now).value, now), n))
        else s
  {
    RunIsGranted(env, events);
    hide Run, GotOut, IsForged, CanBeSentAgain;
    var s := Run(env, START, events);
    ReplaysGoOut(env, s, s.accepted[i], arguments, encoded, signature, now, n);
  }

  // Unchanged, with its own headers, exactly until those or its grant expire.
  lemma OwnHeadersReplay(env: Env, events: seq<Event>, i: nat, now: Time)
    requires i < |Run(env, START, events).accepted|
    ensures var a := Run(env, START, events).accepted[i];
      CanBeSentAgain(env, a, a.request.arguments, a.encoded, a.signature, now) <==>
        now < a.context.expiresAt && IsLive(a, now)
  {
    hide Run, DecodeContext, IsForged, IsSignatureOf, AreEqual, Hashing.CanonicalGrant, ToolCatalog.Catalog;
    RunIsGranted(env, events);
    assert GotOut(env, Run(env, START, events).accepted[i]);
  }

  // With other arguments than approved, exactly when the approved ones hold a boolean or a number
  // with a second equal form.
  lemma OtherArgumentsGetOutExactly(env: Env, events: seq<Event>, i: nat)
    requires i < |Run(env, START, events).accepted|
    ensures var a := Run(env, START, events).accepted[i];
      a.request.executionGrant.Some? &&
      var approved := a.request.executionGrant.value.arguments;
      (exists other: map<string, Json> ::
        CanBeSentAgain(env, a, other, a.encoded, a.signature, a.at) && other != approved) <==>
        !IsRigid(Obj(approved), env.keys.value)
  {
    hide Run, IsForged, Verified, IsRigid, AreEqual, IsSignatureOf, ToolCatalog.Catalog;
    RunIsGranted(env, events);
    var a := Run(env, START, events).accepted[i];
    assert GotOut(env, a);
    assert IsLive(a, a.at) && a.request.executionGrant.Some?;
    hide IsCovered, IsLive;
    var approved := a.request.executionGrant.value.arguments;
    if IsRigid(Obj(approved), env.keys.value) {
      forall other: map<string, Json> | CanBeSentAgain(env, a, other, a.encoded, a.signature, a.at)
        ensures other == approved
      {
        RigidEqualsItselfOnly(Obj(approved), Obj(other), env.keys.value);
      }
    } else {
      var twin := Twin(Obj(approved), env.keys.value);
      assert CanBeSentAgain(env, a, twin.members, a.encoded, a.signature, a.at);
    }
  }

  // Such a run: a call was let out for the approved argument n = 1, and the same headers and grant
  // let one out with n = true.
  lemma TrueGetsOutForOne(env: Env, events: seq<Event>, i: nat)
    requires i < |Run(env, START, events).accepted|
    requires var request := Run(env, START, events).accepted[i].request;
      request.executionGrant.Some? && request.executionGrant.value.arguments == map["n" := Num(Numeral(true))]
    ensures var s := Run(env, START, events);
      var a := s.accepted[i];
      var p := a.request.(arguments := map["n" := Bool(true)]);
      p.arguments != p.executionGrant.value.arguments &&
      Next(env, s, Foreign(a.encoded, a.signature, p, a.at))
      == s.(accepted := s.accepted + [a.(request := p)])
  {
    hide Run, Next, IsForged, Verified, AreEqual, IsSignatureOf, ToolCatalog.Catalog;
    RunIsGranted(env, events);
    var s := Run(env, START, events);
    var a := s.accepted[i];
    assert GotOut(env, a);
    assert IsLive(a, a.at);
    hide IsCovered, IsLive;
    TrueEqualsOne(env.keys.value);
    assert map["n" := Bool(true)]["n"] != map["n" := Num(Numeral(true))]["n"];
    ReplayGoesOut(env, s, a, map["n" := Bool(true)], a.encoded, a.signature, a.at);
  }

  // ---- Planning ----

  // A planned record waits for approval exactly when some step is no read, and is ready otherwise.
  lemma PlannedWaitsForApproval(r: WorkflowRecord, env: Env)
    requires IsPlanned(r, env)
    ensures r.status == AwaitingApproval <==> exists step <- r.proposal.steps :: step.operationType != READ
    ensures r.status == AwaitingApproval || r.status == Ready
  {
    hide Dispatcher.IsDispatched, Policy.Evaluate, Hashing.PlanHash;
    forall step | step in r.proposal.steps ensures Dispatcher.IsDispatched(step) {
      var i :| 0 <= i < |r.proposal.steps| && r.proposal.steps[i] == step;
    }
    Dispatcher.ApprovalIsForMoreThanReads(r.proposal.steps);
  }

  // ---- Approving what the browser shows ----

  // The owner answers the request for approval, by the id and the hash that it shows.
  predicate AnswersNotice(e: Event, notice: (string, Option<Json>), owner: WorkflowRecord) {
    && e.Approve? && notice.1.Some? && notice.1.value.Obj?
    && Get(notice.1.value.members, "workflow_id") == Some(Str(e.workflowId))
    && Get(notice.1.value.members, "plan_hash") == Some(Str(e.request.planHash))
    && e.context.userId == owner.userId && e.context.sessionId == owner.sessionId
    && e.context.tenantId == owner.tenantId
  }

  lemma NoticeNamesTheRecord(e: Event, notice: (string, Option<Json>), w: WorkflowRecord)
    requires AnswersNotice(e, notice, w) && RunStream.IsApprovalRequest(notice, w)
    ensures e.Approve? && e.workflowId == w.workflowId && e.request.planHash == w.planHash
    ensures e.context.userId == w.userId && e.context.sessionId == w.sessionId && e.context.tenantId == w.tenantId
  {
  }

  // What an answer with the right hash does to the record that is found.
  predicate IsAnswered(s: State, s': State, id: Id, e: Event)
    requires e.Approve? && id in s.store
  {
    var found := s.store[id];
    if !IsOpen(found.status) then s' == s
    else if !e.request.approved then s' == s.(store := s.store[id := found.(status := Cancelled)])
    else if found.tokenRef == None || found.tokenRef == Some("") || e.authContext.None? then s' == s
    else
      |s'.begun| > 0 &&
      var b := s'.begun[|s'.begun| - 1];
      && IsApprovalOf(b.approval, found, e.context.userId, e.approvalId, e.now) && b.shown == found.planHash
      && b.record == found.(status := Executing, approvedWorkflow := Some(b.approval))
      && s' == s.(store := s.store[id := b.record], begun := s.begun + [b],
                  calls := s.calls[e.call := Call(|s.begun|, None, [])])
  }

  lemma AnswerIsTaken(env: Env, s: State, w: WorkflowRecord, e: Event)
    requires IdOf(w) in s.store && s.store[IdOf(w)].planHash == w.planHash && e.Approve? && e.call !in s.calls
    requires e.workflowId == w.workflowId && e.request.planHash == w.planHash
    requires e.context.userId == w.userId && e.context.sessionId == w.sessionId && e.context.tenantId == w.tenantId
    ensures IsAnswered(s, Next(env, s, e), IdOf(w), e)
  {
    var found := s.store[IdOf(w)];
    var b := Begin(Some(found), e.request, e.context, e.authContext, e.approvalId, e.now);
    BeginIsExact(Some(found), e.request, e.context, e.authContext, e.approvalId, e.now, b);
    hide Begin;
  }

  // Whatever happens after a plan was shown, as long as it is not planned anew: the owner's answer
  // finds the record, and its hash is the one that is there.
  lemma ShownPlanCanBeAnswered(env: Env, s: State, events: seq<Event>, r: RunStream.RunRequest, p: RunStream.Planned,
                               view: BrowserView.View, values: seq<string>, e: Event)
    requires "" !in values && RunStream.ShowsRun(view, r, Ok(p), values, env.keys.show)
    requires p.workflow.status == AwaitingApproval && AnswersNotice(e, view.notices[0], p.workflow)
    requires IsFresh(env, s, IdOf(p.workflow)) && s.store[IdOf(p.workflow)] == p.workflow
    requires NeverReplans(events, IdOf(p.workflow)) && Hashing.TellsTimesApart(env.keys.show)
    requires e.call !in Run(env, s, events).calls
    ensures var s' := Run(env, s, events);
      IdOf(p.workflow) in s'.store && IsAnswered(s', Next(env, s', e), IdOf(p.workflow), e)
  {
    hide Next, Run, Safe, IsAnswered, RunStream.IsApprovalRequest, AnswersNotice, Hashing.TellsTimesApart, ReplansNot,
         RunStream.AreShown;
    NoticeNamesTheRecord(e, view.notices[0], p.workflow);
    RunIsTracked(env, s, events, IdOf(p.workflow));
    AnswerIsTaken(env, Run(env, s, events), p.workflow, e);
  }
}
