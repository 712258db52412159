// A workflow record as it is shown to the browser: dumped, and without the private members.
module PublicRecord {
  import opened Wrappers
  import opened Text
  import opened Json
  import opened Models
  import opened Redaction
  import opened Hashing

  // A dump keeps fields without a value, as null.
  function NullForNone(values: seq<Option<Json>>): seq<Option<Json>> {
    seq(|values|, i requires 0 <= i < |values| => if values[i].None? then Some(Null) else values[i])
  }

  function Dumped(names: seq<string>, values: seq<Option<Json>>): Json
    requires |names| == |values|
  {
    Obj(Members(names, NullForNone(values)))
  }

  function StatusName(status: Status): string {
    match status
    case AwaitingApproval => "awaiting_approval" case Ready => "ready" case Approved => "approved"
    case Executing => "executing" case Completed => "completed" case Failed => "failed" case Cancelled => "cancelled"
  }

  function StepDump(s: WorkflowStep): Json {
    Dumped(STEP_FIELDS, StepValues(s))
  }

  function Steps(steps: seq<WorkflowStep>): Json {
    Arr(seq(|steps|, i requires 0 <= i < |steps| => StepDump(steps[i])))
  }

  function PlanDump(p: WorkflowPlan, show: TimeFormat): Json {
    Dumped(PLAN_FIELDS,
      [Field(p.workflowId), Field(p.userId), Field(p.sessionId), OptionalField(p.tenantId), Field(show(p.createdAt)),
       Some(Steps(p.steps))])
  }

  const INTENT_FIELDS: seq<string> := ["agent_name", "mcp_server", "tool_name", "arguments", "reason", "metadata_ref"]

  function IntentDump(t: ToolIntent): Json {
    Dumped(INTENT_FIELDS,
      [Field(t.agentName), Field(t.mcpServer), Field(t.toolName), Some(Obj(t.arguments)), OptionalField(t.reason),
       Field(t.metadataRef)])
  }

  function Intents(intents: seq<ToolIntent>): Json {
    Arr(seq(|intents|, i requires 0 <= i < |intents| => IntentDump(intents[i])))
  }

  const POLICY_FIELDS: seq<string> :=
    ["requires_hitl", "blast_radius", "human_description", "required_scopes", "denied_reason"]

  function PolicyDump(p: WorkflowPolicyDecision): Json {
    Dumped(POLICY_FIELDS,
      [Some(Bool(p.requiresHitl)), Field(BlastName(p.blastRadius)), Field(p.humanDescription),
       Some(Strings(p.requiredScopes)), None])
  }

  const APPROVAL_FIELDS: seq<string> :=
    ["workflow_id", "approval_id", "plan_hash", "approved_at", "approved_by_user_id", "approved_scopes", "expires_at"]

  function ApprovalDump(a: ApprovedWorkflow, show: TimeFormat): Json {
    Dumped(APPROVAL_FIELDS,
      [Field(a.workflowId), Field(a.approvalId), Field(a.planHash), Field(show(a.approvedAt)),
       Field(a.approvedByUserId),
       Some(Strings(a.approvedScopes)), OptionalTime(a.expiresAt, show)])
  }

  const RECORD_FIELDS: seq<string> :=
    ["workflow_id", "thread_id", "session_id", "user_id", "tenant_id", "status", "proposal", "plan_hash",
     "tool_intents",
     "policy", "token_ref", "approved_workflow", "egress_results", "created_at"]

  function RecordValues(w: WorkflowRecord, show: TimeFormat): seq<Option<Json>> {
    [Field(w.workflowId), OptionalField(w.threadId), Field(w.sessionId), Field(w.userId), OptionalField(w.tenantId),
     Field(StatusName(w.status)), Some(PlanDump(w.proposal, show)), Field(w.planHash), Some(Intents(w.toolIntents)),
     Some(PolicyDump(w.policy)), OptionalField(w.tokenRef),
     match w.approvedWorkflow case None => None case Some(a) => Some(ApprovalDump(a, show)),
     Some(Arr(w.egressResults)), Field(show(w.createdAt))]
  }

  function Public(j: Json): Json {
    StripKeys(j, IsBrowserPrivate)
  }

  // `_public_workflow_payload`
  function PublicWorkflow(w: WorkflowRecord, show: TimeFormat): Json {
    Public(Dumped(RECORD_FIELDS, RecordValues(w, show)))
  }

  // ---- What it takes for a record to hold no v ----

  predicate AreFree(texts: seq<string>, v: string) {
    forall i :: 0 <= i < |texts| ==> !Contains(texts[i], v)
  }

  predicate IsFree(text: Option<string>, v: string) {
    text.Some? ==> !Contains(text.value, v)
  }

  // The public fields, by name and by value.
  predicate FieldsHoldNo(names: seq<string>, values: seq<Option<Json>>, v: string)
    requires |names| == |values|
  {
    forall i :: 0 <= i < |names| && !IsBrowserPrivate(names[i]) ==>
      !Contains(names[i], v) && (values[i].Some? ==> HoldsNo(Public(values[i].value), v))
  }

  lemma DumpedHoldsNo(names: seq<string>, values: seq<Option<Json>>, v: string)
    requires |names| == |values| && Distinct(names)
    ensures HoldsNo(Public(Dumped(names, values)), v) <==> FieldsHoldNo(names, values, v)
  {
    hide Contains, IsBrowserPrivate;
    var all := NullForNone(values);
    var m := Members(names, all);
    forall i | 0 <= i < |names| ensures names[i] in m && m[names[i]] == all[i].value {
      MemberAt(names, all, names[i]);
    }
    forall k | k in m ensures exists i :: 0 <= i < |names| && names[i] == k {
      MemberAt(names, all, k);
    }
    hide Members;
    var public := Public(Obj(m)).members;
    assert forall k :: k in public <==> k in m && !IsBrowserPrivate(k);
    assert forall k <- public :: public[k] == Public(m[k]);
    if HoldsNo(Obj(public), v) {
      forall i | 0 <= i < |names| && !IsBrowserPrivate(names[i])
        ensures !Contains(names[i], v) && (values[i].Some? ==> HoldsNo(Public(values[i].value), v))
      {
        assert names[i] in public;
      }
    }
    if FieldsHoldNo(names, values, v) {
      forall k | k in public ensures !Contains(k, v) && HoldsNo(public[k], v) {
        var i :| 0 <= i < |names| && names[i] == k;
      }
    }
  }

  predicate ValueHoldsNo(value: Option<Json>, v: string) {
    value.Some? ==> HoldsNo(Public(value.value), v)
  }

  predicate ValuesHoldNo(values: seq<Option<Json>>, v: string) {
    forall i :: 0 <= i < |values| ==> ValueHoldsNo(values[i], v)
  }

  predicate ArePublic(names: seq<string>) {
    forall i :: 0 <= i < |names| ==> !IsBrowserPrivate(names[i])
  }

  lemma PublicFields(names: seq<string>, values: seq<Option<Json>>, v: string)
    requires |names| == |values| && Distinct(names) && ArePublic(names)
    ensures HoldsNo(Public(Dumped(names, values)), v) <==> AreFree(names, v) && ValuesHoldNo(values, v)
  {
    DumpedHoldsNo(names, values, v);
    hide Contains, IsBrowserPrivate, HoldsNo, Public, Distinct, Dumped;
    assert FieldsHoldNo(names, values, v) ==> forall i :: 0 <= i < |names| ==>
      !Contains(names[i], v) && ValueHoldsNo(values[i], v);
  }

  lemma TextHoldsNo(text: string, v: string)
    ensures ValueHoldsNo(Field(text), v) <==> !Contains(text, v)
  {
    hide Contains;
  }

  lemma OptionalHoldsNo(text: Option<string>, v: string)
    ensures ValueHoldsNo(OptionalField(text), v) <==> IsFree(text, v)
  {
    hide Contains;
  }

  lemma StringsHoldNo(texts: seq<string>, v: string)
    ensures ValueHoldsNo(Some(Strings(texts)), v) <==> AreFree(texts, v)
  {
    hide Contains;
    var items := Public(Strings(texts)).items;
    forall i | 0 <= i < |texts|
      ensures items[i] == Str(texts[i]) && (HoldsNo(items[i], v) <==> !Contains(texts[i], v)) {
      assert items[i] == Public(Strings(texts).items[i]) && Strings(texts).items[i] == Str(texts[i]);
    }
  }

  // The names of a dump's members that could be private look like none of these.
  lemma PrivateKeysLook(key: string)
    requires IsBrowserPrivate(key)
    ensures 7 <= |key| <= 16 && |key| != 15
    ensures |key| == 7 ==> key[0] == 'u'
    ensures |key| == 8 ==> key[0] == 'i' || key[0] == 't'
    ensures |key| == 9 ==> key[0] == 't' && key[2] != 'r' && key[2] != 'o'
    ensures |key| == 10 ==> key[0] == 's'
    ensures |key| == 11 ==> key[0] == 'o'
    ensures |key| == 12 ==> key[0] == 'a' && key[1] == 'c'
    ensures |key| == 13 ==> key[2] != 'q' && key[0] != 'd'
    ensures |key| == 14 ==> key[0] == 'a'
    ensures |key| == 16 ==> key[0] == 'a'
  {
  }

  // The texts of a step.
  predicate StepHoldsNo(s: WorkflowStep, v: string) {
    && AreFree(STEP_FIELDS, v)
    && !Contains(s.stepId, v) && !Contains(s.targetAgent, v) && !Contains(s.action, v) && !Contains(s.inputModelType, v)
    && !Contains(s.inputPayloadJson, v) && AreFree(s.requiredScopes, v) && IsFree(s.downstreamAudience, v)
    && !Contains(OperationName(s.operationType), v) && !Contains(BlastName(s.blastRadius), v)
    && !Contains(s.hitlDescription, v)
  }

  lemma StepFieldsArePublic()
    ensures ArePublic(STEP_FIELDS) && Distinct(STEP_FIELDS)
  {
    FieldsAreDistinct();
    forall i | 0 <= i < |STEP_FIELDS| ensures !IsBrowserPrivate(STEP_FIELDS[i]) {
      if IsBrowserPrivate(STEP_FIELDS[i]) {
        PrivateKeysLook(STEP_FIELDS[i]);
      }
    }
  }

  lemma ValuesOneByOne(w: seq<Option<Json>>, v: string)
    requires |w| <= 11
    ensures ValuesHoldNo(w, v) <==>
      && (|w| > 0 ==> ValueHoldsNo(w[0], v))
      && (|w| > 1 ==> ValueHoldsNo(w[1], v))
      && (|w| > 2 ==> ValueHoldsNo(w[2], v))
      && (|w| > 3 ==> ValueHoldsNo(w[3], v))
      && (|w| > 4 ==> ValueHoldsNo(w[4], v))
      && (|w| > 5 ==> ValueHoldsNo(w[5], v))
      && (|w| > 6 ==> ValueHoldsNo(w[6], v))
      && (|w| > 7 ==> ValueHoldsNo(w[7], v))
      && (|w| > 8 ==> ValueHoldsNo(w[8], v))
      && (|w| > 9 ==> ValueHoldsNo(w[9], v))
      && (|w| > 10 ==> ValueHoldsNo(w[10], v))
  {
    hide ValueHoldsNo;
  }

  lemma StepHoldsNoExactly(s: WorkflowStep, v: string)
    ensures HoldsNo(Public(StepDump(s)), v) <==> StepHoldsNo(s, v)
  {
    StepFieldsArePublic();
    PublicFields(STEP_FIELDS, StepValues(s), v);
    ValuesOneByOne(StepValues(s), v);
    assert ValueHoldsNo(Some(Bool(s.mutatesExternalState)), v);
    hide ValueHoldsNo, ValuesHoldNo, Contains, STEP_FIELDS, HoldsNo, Public, Strings, Field, OptionalField,
         OperationName, BlastName, AreFree, IsFree;
    TextHoldsNo(s.stepId, v);
    TextHoldsNo(s.targetAgent, v);
    TextHoldsNo(s.action, v);
    TextHoldsNo(s.inputModelType, v);
    TextHoldsNo(s.inputPayloadJson, v);
    StringsHoldNo(s.requiredScopes, v);
    OptionalHoldsNo(s.downstreamAudience, v);
    TextHoldsNo(OperationName(s.operationType), v);
    TextHoldsNo(BlastName(s.blastRadius), v);
    TextHoldsNo(s.hitlDescription, v);
  }

  // ---- The whole record ----

  lemma PublicItems(items: seq<Json>, v: string)
    ensures ValueHoldsNo(Some(Arr(items)), v) <==> forall i :: 0 <= i < |items| ==> HoldsNo(Public(items[i]), v)
  {
    hide Contains;
    var out := Public(Arr(items)).items;
    assert forall i :: 0 <= i < |items| ==> out[i] == Public(items[i]);
  }

  predicate StepsHoldNo(steps: seq<WorkflowStep>, v: string) {
    forall i :: 0 <= i < |steps| ==> StepHoldsNo(steps[i], v)
  }

  lemma StepsHoldNoExactly(steps: seq<WorkflowStep>, v: string)
    ensures ValueHoldsNo(Some(Steps(steps)), v) <==> StepsHoldNo(steps, v)
  {
    hide Contains, StepHoldsNo, StepDump, HoldsNo, Public, ValueHoldsNo;
    var items := Steps(steps).items;
    PublicItems(items, v);
    forall i | 0 <= i < |steps| ensures HoldsNo(Public(items[i]), v) <==> StepHoldsNo(steps[i], v) {
      StepHoldsNoExactly(steps[i], v);
    }
  }

  predicate PlanHoldsNo(p: WorkflowPlan, v: string, show: TimeFormat) {
    && AreFree(["workflow_id", "created_at", "steps"], v)
    && !Contains(p.workflowId, v) && !Contains(show(p.createdAt), v) && StepsHoldNo(p.steps, v)
  }

  predicate IntentHoldsNo(t: ToolIntent, v: string) {
    && AreFree(INTENT_FIELDS, v)
    && !Contains(t.agentName, v) && !Contains(t.mcpServer, v) && !Contains(t.toolName, v)
    && HoldsNo(Public(Obj(t.arguments)), v) && IsFree(t.reason, v) && !Contains(t.metadataRef, v)
  }

  predicate IntentsHoldNo(intents: seq<ToolIntent>, v: string) {
    forall i :: 0 <= i < |intents| ==> IntentHoldsNo(intents[i], v)
  }

  predicate PolicyHoldsNo(p: WorkflowPolicyDecision, v: string) {
    AreFree(POLICY_FIELDS, v) && !Contains(BlastName(p.blastRadius), v) && !Contains(p.humanDescription, v) &&
    AreFree(p.requiredScopes, v)
  }

  predicate ApprovalHoldsNo(a: ApprovedWorkflow, v: string, show: TimeFormat) {
    && AreFree(APPROVAL_FIELDS, v)
    && !Contains(a.workflowId, v) && !Contains(a.approvalId, v) && !Contains(a.planHash, v) &&
       !Contains(show(a.approvedAt), v)
    && !Contains(a.approvedByUserId, v) && AreFree(a.approvedScopes, v)
    && (a.expiresAt.Some? ==> !Contains(show(a.expiresAt.value), v))
  }

  const PUBLIC_RECORD_FIELDS: seq<string> :=
    ["workflow_id", "thread_id", "status", "proposal", "plan_hash", "tool_intents", "policy", "approved_workflow",
     "egress_results",
     "created_at"]

  predicate RecordHoldsNo(w: WorkflowRecord, v: string, show: TimeFormat) {
    && AreFree(PUBLIC_RECORD_FIELDS, v)
    && !Contains(w.workflowId, v) && IsFree(w.threadId, v) && !Contains(StatusName(w.status), v) &&
       !Contains(w.planHash, v)
    && !Contains(show(w.createdAt), v) && PlanHoldsNo(w.proposal, v, show) && IntentsHoldNo(w.toolIntents, v)
    && PolicyHoldsNo(w.policy, v) && (w.approvedWorkflow.Some? ==> ApprovalHoldsNo(w.approvedWorkflow.value, v, show))
    && (forall i :: 0 <= i < |w.egressResults| ==> HoldsNo(Public(w.egressResults[i]), v))
  }

  lemma IntentFieldsArePublic()
    ensures ArePublic(INTENT_FIELDS) && Distinct(INTENT_FIELDS)
  {
    forall i | 0 <= i < |INTENT_FIELDS| ensures !IsBrowserPrivate(INTENT_FIELDS[i]) {
      if IsBrowserPrivate(INTENT_FIELDS[i]) {
        PrivateKeysLook(INTENT_FIELDS[i]);
      }
    }
    assert "agent_name"[0] == 'a' && "mcp_server"[0] == 'm' && "tool_name"[0] == 't' && "arguments"[0] == 'a';
  }

  lemma PolicyFieldsArePublic()
    ensures ArePublic(POLICY_FIELDS) && Distinct(POLICY_FIELDS)
  {
    forall i | 0 <= i < |POLICY_FIELDS| ensures !IsBrowserPrivate(POLICY_FIELDS[i]) {
      if IsBrowserPrivate(POLICY_FIELDS[i]) {
        PrivateKeysLook(POLICY_FIELDS[i]);
      }
    }
    assert "requires_hitl"[0] == 'r' && "denied_reason"[0] == 'd';
  }

  lemma ApprovalFieldsArePublic()
    ensures ArePublic(APPROVAL_FIELDS) && Distinct(APPROVAL_FIELDS)
  {
    forall i | 0 <= i < |APPROVAL_FIELDS| ensures !IsBrowserPrivate(APPROVAL_FIELDS[i]) {
      if IsBrowserPrivate(APPROVAL_FIELDS[i]) {
        PrivateKeysLook(APPROVAL_FIELDS[i]);
      }
    }
    assert "workflow_id"[0] == 'w' && "approval_id"[0] == 'a' && "approved_at"[5] == 'v' && "approval_id"[5] == 'v';
    assert "approval_id"[6] == 'a' && "approved_at"[6] == 'e' && "expires_at"[0] == 'e';
  }

  lemma IntentHoldsNoExactly(t: ToolIntent, v: string)
    ensures HoldsNo(Public(IntentDump(t)), v) <==> IntentHoldsNo(t, v)
  {
    var w := [Field(t.agentName), Field(t.mcpServer), Field(t.toolName), Some(Obj(t.arguments)),
              OptionalField(t.reason),
              Field(t.metadataRef)];
    IntentFieldsArePublic();
    PublicFields(INTENT_FIELDS, w, v);
    assert ValueHoldsNo(w[3], v) <==> HoldsNo(Public(Obj(t.arguments)), v);
    hide ValueHoldsNo, Contains, INTENT_FIELDS, HoldsNo, Public, Field, OptionalField, AreFree, IsFree;
    ValuesOneByOne(w, v);
    hide ValuesHoldNo;
    TextHoldsNo(t.agentName, v);
    TextHoldsNo(t.mcpServer, v);
    TextHoldsNo(t.toolName, v);
    OptionalHoldsNo(t.reason, v);
    TextHoldsNo(t.metadataRef, v);
  }

  lemma PolicyHoldsNoExactly(p: WorkflowPolicyDecision, v: string)
    ensures HoldsNo(Public(PolicyDump(p)), v) <==> PolicyHoldsNo(p, v)
  {
    var w := [Some(Bool(p.requiresHitl)), Field(BlastName(p.blastRadius)), Field(p.humanDescription),
              Some(Strings(p.requiredScopes)), None];
    PolicyFieldsArePublic();
    PublicFields(POLICY_FIELDS, w, v);
    assert ValueHoldsNo(w[0], v) && ValueHoldsNo(w[4], v);
    hide ValueHoldsNo, Contains, POLICY_FIELDS, HoldsNo, Public, Field, Strings, AreFree, BlastName;
    ValuesOneByOne(w, v);
    hide ValuesHoldNo;
    TextHoldsNo(BlastName(p.blastRadius), v);
    TextHoldsNo(p.humanDescription, v);
    StringsHoldNo(p.requiredScopes, v);
  }

  lemma ApprovalHoldsNoExactly(a: ApprovedWorkflow, v: string, show: TimeFormat)
    ensures HoldsNo(Public(ApprovalDump(a, show)), v) <==> ApprovalHoldsNo(a, v, show)
  {
    var w := [Field(a.workflowId), Field(a.approvalId), Field(a.planHash), Field(show(a.approvedAt)),
              Field(a.approvedByUserId),
              Some(Strings(a.approvedScopes)), OptionalTime(a.expiresAt, show)];
    ApprovalFieldsArePublic();
    PublicFields(APPROVAL_FIELDS, w, v);
    assert a.expiresAt.None? ==> ValueHoldsNo(w[6], v);
    assert a.expiresAt.Some? ==> w[6] == Field(show(a.expiresAt.value));
    hide ValueHoldsNo, Contains, APPROVAL_FIELDS, HoldsNo, Public, Field, Strings, AreFree, OptionalTime;
    ValuesOneByOne(w, v);
    hide ValuesHoldNo;
    TextHoldsNo(a.workflowId, v);
    TextHoldsNo(a.approvalId, v);
    TextHoldsNo(a.planHash, v);
    TextHoldsNo(show(a.approvedAt), v);
    TextHoldsNo(a.approvedByUserId, v);
    StringsHoldNo(a.approvedScopes, v);
    if a.expiresAt.Some? {
      TextHoldsNo(show(a.expiresAt.value), v);
    }
  }

  lemma IntentsHoldNoExactly(intents: seq<ToolIntent>, v: string)
    ensures ValueHoldsNo(Some(Intents(intents)), v) <==> IntentsHoldNo(intents, v)
  {
    hide Contains, IntentHoldsNo, IntentDump, HoldsNo, Public, ValueHoldsNo;
    var items := Intents(intents).items;
    PublicItems(items, v);
    forall i | 0 <= i < |intents| ensures HoldsNo(Public(items[i]), v) <==> IntentHoldsNo(intents[i], v) {
      IntentHoldsNoExactly(intents[i], v);
    }
  }

  // The four members that are left out of plans and records.
  lemma IdentityIsPrivate()
    ensures IsBrowserPrivate("user_id") && IsBrowserPrivate("session_id") && IsBrowserPrivate("tenant_id")
    ensures IsBrowserPrivate("token_ref")
  {
  }

  predicate FieldHoldsNo(name: string, value: Option<Json>, v: string) {
    IsBrowserPrivate(name) || (!Contains(name, v) && ValueHoldsNo(value, v))
  }

  lemma FieldsOneByOne(n: seq<string>, w: seq<Option<Json>>, v: string)
    requires |n| == |w| <= 14
    ensures FieldsHoldNo(n, w, v) <==>
      && (|n| > 0 ==> FieldHoldsNo(n[0], w[0], v))
      && (|n| > 1 ==> FieldHoldsNo(n[1], w[1], v))
      && (|n| > 2 ==> FieldHoldsNo(n[2], w[2], v))
      && (|n| > 3 ==> FieldHoldsNo(n[3], w[3], v))
      && (|n| > 4 ==> FieldHoldsNo(n[4], w[4], v))
      && (|n| > 5 ==> FieldHoldsNo(n[5], w[5], v))
      && (|n| > 6 ==> FieldHoldsNo(n[6], w[6], v))
      && (|n| > 7 ==> FieldHoldsNo(n[7], w[7], v))
      && (|n| > 8 ==> FieldHoldsNo(n[8], w[8], v))
      && (|n| > 9 ==> FieldHoldsNo(n[9], w[9], v))
      && (|n| > 10 ==> FieldHoldsNo(n[10], w[10], v))
      && (|n| > 11 ==> FieldHoldsNo(n[11], w[11], v))
      && (|n| > 12 ==> FieldHoldsNo(n[12], w[12], v))
      && (|n| > 13 ==> FieldHoldsNo(n[13], w[13], v))
  {
    hide Contains, IsBrowserPrivate, HoldsNo, Public;
  }

  lemma PlanFieldsAre()
    ensures Distinct(PLAN_FIELDS) && PLAN_FIELDS[0] == "workflow_id" && PLAN_FIELDS[1] == "user_id"
    ensures PLAN_FIELDS[2] == "session_id" && PLAN_FIELDS[3] == "tenant_id" && PLAN_FIELDS[4] == "created_at" &&
      PLAN_FIELDS[5] == "steps"
    ensures !IsBrowserPrivate("workflow_id") && !IsBrowserPrivate("created_at") && !IsBrowserPrivate("steps")
  {
    FieldsAreDistinct();
    if IsBrowserPrivate("workflow_id") {
      PrivateKeysLook("workflow_id");
    }
    if IsBrowserPrivate("created_at") {
      PrivateKeysLook("created_at");
    }
    if IsBrowserPrivate("steps") {
      PrivateKeysLook("steps");
    }
  }

  lemma PlanHoldsNoExactly(p: WorkflowPlan, v: string, show: TimeFormat)
    ensures HoldsNo(Public(PlanDump(p, show)), v) <==> PlanHoldsNo(p, v, show)
  {
    var w := [Field(p.workflowId), Field(p.userId), Field(p.sessionId), OptionalField(p.tenantId),
              Field(show(p.createdAt)),
              Some(Steps(p.steps))];
    PlanFieldsAre();
    IdentityIsPrivate();
    DumpedHoldsNo(PLAN_FIELDS, w, v);
    FieldsOneByOne(PLAN_FIELDS, w, v);
    hide ValueHoldsNo, Contains, PLAN_FIELDS, HoldsNo, Public, Field, Steps, FieldsHoldNo, IsBrowserPrivate,
         StepsHoldNo;
    TextHoldsNo(p.workflowId, v);
    TextHoldsNo(show(p.createdAt), v);
    StepsHoldNoExactly(p.steps, v);
    var names := ["workflow_id", "created_at", "steps"];
    assert names[0] == "workflow_id" && names[1] == "created_at" && names[2] == "steps";
    assert AreFree(names, v) <==> !Contains(names[0], v) && !Contains(names[1], v) && !Contains(names[2], v);
  }

  lemma RecordFieldsAre()
    ensures RECORD_FIELDS[0] == "workflow_id" && RECORD_FIELDS[1] == "thread_id" && RECORD_FIELDS[2] == "session_id"
    ensures RECORD_FIELDS[3] == "user_id" && RECORD_FIELDS[4] == "tenant_id" && RECORD_FIELDS[5] == "status"
    ensures RECORD_FIELDS[6] == "proposal" && RECORD_FIELDS[7] == "plan_hash" && RECORD_FIELDS[8] == "tool_intents"
    ensures RECORD_FIELDS[9] == "policy" && RECORD_FIELDS[10] == "token_ref" && RECORD_FIELDS[11] == "approved_workflow"
    ensures RECORD_FIELDS[12] == "egress_results" && RECORD_FIELDS[13] == "created_at"
    ensures Distinct(RECORD_FIELDS)
  {
    assert "thread_id"[1] == 'h' && "tenant_id"[1] == 'e' && "plan_hash"[1] == 'l' && "token_ref"[1] == 'o';
    assert "thread_id"[0] == 't' && "plan_hash"[0] == 'p' && "status"[0] == 's' && "policy"[0] == 'p';
    assert "session_id"[0] == 's' && "created_at"[0] == 'c';
  }

  lemma PublicRecordFieldsAre(v: string)
    ensures ArePublic(PUBLIC_RECORD_FIELDS)
    ensures var n := PUBLIC_RECORD_FIELDS;
      && n[0] == "workflow_id" && n[1] == "thread_id" && n[2] == "status" && n[3] == "proposal" && n[4] == "plan_hash"
      && n[5] == "tool_intents" && n[6] == "policy" && n[7] == "approved_workflow" && n[8] == "egress_results" &&
         n[9] == "created_at"
    ensures |PUBLIC_RECORD_FIELDS| == 10
  {
    forall i | 0 <= i < |PUBLIC_RECORD_FIELDS| ensures !IsBrowserPrivate(PUBLIC_RECORD_FIELDS[i]) {
      if IsBrowserPrivate(PUBLIC_RECORD_FIELDS[i]) {
        PrivateKeysLook(PUBLIC_RECORD_FIELDS[i]);
      }
    }
  }

  lemma TenNames(n: seq<string>, v: string)
    requires |n| == 10
    ensures AreFree(n, v) <==>
      !Contains(n[0], v) && !Contains(n[1], v) && !Contains(n[2], v) && !Contains(n[3], v) && !Contains(n[4], v) &&
      !Contains(n[5], v) && !Contains(n[6], v) && !Contains(n[7], v) && !Contains(n[8], v) && !Contains(n[9], v)
  {
    hide Contains;
  }

  // The values of a record, one by one.
  lemma RecordValuesHoldNo(w: WorkflowRecord, v: string, show: TimeFormat)
    ensures var x := RecordValues(w, show);
      && (ValueHoldsNo(x[0], v) <==> !Contains(w.workflowId, v)) && (ValueHoldsNo(x[1], v) <==> IsFree(w.threadId, v))
      && (ValueHoldsNo(x[5], v) <==> !Contains(StatusName(w.status), v))
      && (ValueHoldsNo(x[6], v) <==> PlanHoldsNo(w.proposal, v, show)) &&
         (ValueHoldsNo(x[7], v) <==> !Contains(w.planHash, v))
      && (ValueHoldsNo(x[8], v) <==> IntentsHoldNo(w.toolIntents, v)) &&
         (ValueHoldsNo(x[9], v) <==> PolicyHoldsNo(w.policy, v))
      && (ValueHoldsNo(x[11], v) <==> (w.approvedWorkflow.Some? ==> ApprovalHoldsNo(w.approvedWorkflow.value, v, show)))
      && (ValueHoldsNo(x[12], v) <==> forall i :: 0 <= i < |w.egressResults| ==> HoldsNo(Public(w.egressResults[i]), v))
      && (ValueHoldsNo(x[13], v) <==> !Contains(show(w.createdAt), v))
  {
    hide Contains, HoldsNo, Public, Field, OptionalField, PlanDump, PolicyDump, ApprovalDump, Intents, StatusName,
         IsFree, PlanHoldsNo, PolicyHoldsNo, ApprovalHoldsNo, IntentsHoldNo;
    TextHoldsNo(w.workflowId, v);
    OptionalHoldsNo(w.threadId, v);
    TextHoldsNo(StatusName(w.status), v);
    PlanHoldsNoExactly(w.proposal, v, show);
    TextHoldsNo(w.planHash, v);
    IntentsHoldNoExactly(w.toolIntents, v);
    PolicyHoldsNoExactly(w.policy, v);
    if w.approvedWorkflow.Some? {
      ApprovalHoldsNoExactly(w.approvedWorkflow.value, v, show);
    }
    PublicItems(w.egressResults, v);
    TextHoldsNo(show(w.createdAt), v);
  }

  // What is shown of a record holds no v exactly when none of its public texts does.
  lemma RecordHoldsNoExactly(w: WorkflowRecord, v: string, show: TimeFormat)
    ensures HoldsNo(PublicWorkflow(w, show), v) <==> RecordHoldsNo(w, v, show)
  {
    RecordFieldsAre();
    IdentityIsPrivate();
    PublicRecordFieldsAre(v);
    TenNames(PUBLIC_RECORD_FIELDS, v);
    var (n, x) := (RECORD_FIELDS, RecordValues(w, show));
    hide ValueHoldsNo, Contains, RECORD_FIELDS, PUBLIC_RECORD_FIELDS, HoldsNo, Public, FieldsHoldNo, IsBrowserPrivate,
         AreFree, PlanHoldsNo, PolicyHoldsNo, ApprovalHoldsNo, IntentsHoldNo, Dumped, RecordValues, IsFree, StatusName,
         Distinct;
    DumpedHoldsNo(n, x, v);
    FieldsOneByOne(n, x, v);
    RecordValuesHoldNo(w, v, show);
    assert forall i :: 0 <= i < 10 ==> !IsBrowserPrivate(PUBLIC_RECORD_FIELDS[i]);
  }

  // ---- What the browser is shown ----

  lemma ShownMember(names: seq<string>, values: seq<Option<Json>>, i: nat)
    requires |names| == |values| && i < |names| && Distinct(names)
    ensures Public(Dumped(names, values)).Obj?
    ensures Get(Public(Dumped(names, values)).members, names[i])
      == if IsBrowserPrivate(names[i]) then None
         else Some(if values[i].None? then Null else Public(values[i].value))
  {
    hide IsBrowserPrivate, Members, Distinct;
    var all := NullForNone(values);
    assert all[i] == if values[i].None? then Some(Null) else values[i];
    FieldIsMember(names, all, i);
    var m := Members(names, all);
    MemberIsPublic(m, names[i]);
    assert Public(Null) == Null;
  }

  lemma MemberIsPublic(m: map<string, Json>, key: string)
    requires key in m
    ensures Public(Obj(m)).Obj?
    ensures Get(Public(Obj(m)).members, key) == if IsBrowserPrivate(key) then None else Some(Public(m[key]))
  {
    hide IsBrowserPrivate;
  }

  lemma FieldIsMember(names: seq<string>, values: seq<Option<Json>>, i: nat)
    requires |names| == |values| && i < |names| && Distinct(names) && values[i].Some?
    ensures names[i] in Members(names, values) && Members(names, values)[names[i]] == values[i].value
  {
    MemberAt(names, values, names[i]);
    hide Members;
  }

  lemma ShownNames(names: seq<string>, values: seq<Option<Json>>, key: string)
    requires |names| == |values| && Distinct(names)
    ensures Public(Dumped(names, values)).Obj?
    ensures key in Public(Dumped(names, values)).members <==> key in names && !IsBrowserPrivate(key)
  {
    hide IsBrowserPrivate;
    MemberAt(names, NullForNone(values), key);
    if key in names {
      var i :| 0 <= i < |names| && names[i] == key;
      assert NullForNone(values)[i].Some?;
    }
    hide Members;
  }

  predicate HasTextOrNull(m: map<string, Json>, name: string, text: Option<string>) {
    Get(m, name) == Some(match text case None => Null case Some(s) => Str(s))
  }

  predicate IsShownStep(j: Json, s: WorkflowStep) {
    j.Obj? &&
    var m := j.members;
    && m.Keys == Elements(STEP_FIELDS)
    && HasText(m, "step_id", s.stepId) && HasText(m, "target_agent", s.targetAgent) && HasText(m, "action", s.action)
    && HasText(m, "input_model_type", s.inputModelType) && HasText(m, "input_payload_json", s.inputPayloadJson)
    && HasTexts(m, "required_scopes", s.requiredScopes)
    && HasTextOrNull(m, "downstream_audience", s.downstreamAudience)
    && HasText(m, "operation_type", OperationWord(s.operationType))
    && HasText(m, "blast_radius", BlastWord(s.blastRadius)) && HasText(m, "hitl_description", s.hitlDescription)
    && Get(m, "mutates_external_state") == Some(Bool(s.mutatesExternalState))
  }

  predicate IsShownIntent(j: Json, t: ToolIntent) {
    j.Obj? &&
    var m := j.members;
    && m.Keys == Elements(INTENT_FIELDS)
    && HasText(m, "agent_name", t.agentName) && HasText(m, "mcp_server", t.mcpServer)
    && HasText(m, "tool_name", t.toolName) && HasText(m, "metadata_ref", t.metadataRef)
    && HasTextOrNull(m, "reason", t.reason)
    && Get(m, "arguments") == Some(StripKeys(Obj(t.arguments), IsBrowserPrivate))
  }

  predicate IsShownPolicy(j: Json, p: WorkflowPolicyDecision) {
    j.Obj? &&
    var m := j.members;
    && m.Keys == Elements(POLICY_FIELDS)
    && Get(m, "requires_hitl") == Some(Bool(p.requiresHitl)) && HasText(m, "blast_radius", BlastWord(p.blastRadius))
    && HasText(m, "human_description", p.humanDescription) && HasTexts(m, "required_scopes", p.requiredScopes)
    && Get(m, "denied_reason") == Some(Null)
  }

  predicate IsShownApproval(j: Json, a: ApprovedWorkflow, show: TimeFormat) {
    j.Obj? &&
    var m := j.members;
    && m.Keys == Elements(APPROVAL_FIELDS)
    && HasText(m, "workflow_id", a.workflowId) && HasText(m, "approval_id", a.approvalId)
    && HasText(m, "plan_hash", a.planHash) && HasText(m, "approved_by_user_id", a.approvedByUserId)
    && HasText(m, "approved_at", show(a.approvedAt)) && HasTexts(m, "approved_scopes", a.approvedScopes)
    && HasTextOrNull(m, "expires_at", match a.expiresAt case None => None case Some(at) => Some(show(at)))
  }

  const PUBLIC_PLAN_FIELDS: seq<string> := ["workflow_id", "created_at", "steps"]

  predicate AreShownSteps(j: Json, steps: seq<WorkflowStep>) {
    j.Arr? && |j.items| == |steps| && forall i :: 0 <= i < |steps| ==> IsShownStep(j.items[i], steps[i])
  }

  predicate IsShownPlan(j: Json, p: WorkflowPlan, show: TimeFormat) {
    j.Obj? &&
    var m := j.members;
    && m.Keys == Elements(PUBLIC_PLAN_FIELDS)
    && HasText(m, "workflow_id", p.workflowId) && HasText(m, "created_at", show(p.createdAt))
    && (Get(m, "steps").Some? && AreShownSteps(Get(m, "steps").value, p.steps))
  }

  predicate AreShownIntents(j: Json, intents: seq<ToolIntent>) {
    j.Arr? && |j.items| == |intents| && forall i :: 0 <= i < |intents| ==> IsShownIntent(j.items[i], intents[i])
  }

  predicate AreShownResults(j: Json, results: seq<Json>) {
    j.Arr? && |j.items| == |results| &&
    forall i :: 0 <= i < |results| ==> j.items[i] == StripKeys(results[i], IsBrowserPrivate)
  }

  predicate IsShownRest(m: map<string, Json>, w: WorkflowRecord, show: TimeFormat) {
    && Get(m, "proposal").Some? && IsShownPlan(Get(m, "proposal").value, w.proposal, show)
    && Get(m, "tool_intents").Some? && AreShownIntents(Get(m, "tool_intents").value, w.toolIntents)
    && Get(m, "policy").Some? && IsShownPolicy(Get(m, "policy").value, w.policy)
    && Get(m, "approved_workflow").Some?
    && (if w.approvedWorkflow.Some?
        then IsShownApproval(Get(m, "approved_workflow").value, w.approvedWorkflow.value, show)
        else Get(m, "approved_workflow").value == Null)
    && Get(m, "egress_results").Some? && AreShownResults(Get(m, "egress_results").value, w.egressResults)
  }

  // The record as it is shown: each public field under its own name, and no other.
  predicate IsShownRecord(j: Json, w: WorkflowRecord, show: TimeFormat) {
    j.Obj? &&
    var m := j.members;
    && m.Keys == Elements(PUBLIC_RECORD_FIELDS)
    && HasText(m, "workflow_id", w.workflowId) && HasText(m, "plan_hash", w.planHash)
    && HasTextOrNull(m, "thread_id", w.threadId) && HasText(m, "status", StatusWord(w.status))
    && HasText(m, "created_at", show(w.createdAt)) && IsShownRest(m, w, show)
  }

  function StatusWord(status: Status): string {
    if status == AwaitingApproval then "awaiting_approval"
    else if status == Ready then "ready"
    else if status == Approved then "approved"
    else if status == Executing then "executing"
    else if status == Completed then "completed"
    else if status == Failed then "failed"
    else "cancelled"
  }

  lemma PublicTexts(texts: seq<string>)
    ensures Public(Strings(texts)).Arr? && |Public(Strings(texts)).items| == |texts|
    ensures forall i :: 0 <= i < |texts| ==> Public(Strings(texts)).items[i] == Str(texts[i])
  {
    var items := Strings(texts).items;
    forall i | 0 <= i < |texts| ensures Public(Strings(texts)).items[i] == Str(texts[i]) {
      assert items[i] == Str(texts[i]);
      assert Public(Strings(texts)).items[i] == Public(items[i]);
    }
  }

  // The public members of a dump, each under its own name.
  ghost predicate Shows(j: Json, names: seq<string>, values: seq<Option<Json>>, public: seq<string>)
    requires |names| == |values|
  {
    && j.Obj? && j.members.Keys == Elements(public)
    && forall i :: 0 <= i < |names| && names[i] in public ==>
      Get(j.members, names[i]) == Some(if values[i].None? then Null else Public(values[i].value))
  }

  lemma DumpShows(names: seq<string>, values: seq<Option<Json>>, public: seq<string>)
    requires |names| == |values| && Distinct(names) && ArePublic(public)
    requires forall name <- public :: name in names
    requires forall name <- names :: name in public || IsBrowserPrivate(name)
    ensures Shows(Public(Dumped(names, values)), names, values, public)
  {
    hide IsBrowserPrivate, Public, Dumped, Distinct;
    ShownNames(names, values, "");
    var m := Public(Dumped(names, values)).members;
    forall key ensures key in m <==> key in Elements(public) {
      ShownNames(names, values, key);
      if key in public {
        var i :| 0 <= i < |public| && public[i] == key;
        assert !IsBrowserPrivate(public[i]);
      }
    }
    forall i | 0 <= i < |names| && names[i] in public
      ensures Get(m, names[i]) == Some(if values[i].None? then Null else Public(values[i].value))
    {
      assert names[i] in Elements(public);
      ShownMember(names, values, i);
    }
  }

  lemma ShowsValue(j: Json, names: seq<string>, values: seq<Option<Json>>, public: seq<string>, i: nat, name: string)
    requires |names| == |values| && Shows(j, names, values, public)
    requires i < |names| && names[i] == name && names[i] in public
    ensures Get(j.members, name) == Some(if values[i].None? then Null else Public(values[i].value))
  {
    hide Elements, Get, Public;
  }

  lemma ShowsText(j: Json, names: seq<string>, values: seq<Option<Json>>, public: seq<string>, i: nat, name: string,
                  text: string)
    requires |names| == |values| && Shows(j, names, values, public)
    requires i < |names| && names[i] == name && names[i] in public && values[i] == Field(text)
    ensures HasText(j.members, name, text)
  {
    hide Elements;
  }

  lemma ShowsOptional(j: Json, names: seq<string>, values: seq<Option<Json>>, public: seq<string>, i: nat,
                      name: string, text: Option<string>)
    requires |names| == |values| && Shows(j, names, values, public)
    requires i < |names| && names[i] == name && names[i] in public && values[i] == OptionalField(text)
    ensures HasTextOrNull(j.members, name, text)
  {
    hide Elements;
  }

  lemma ShowsTexts(j: Json, names: seq<string>, values: seq<Option<Json>>, public: seq<string>, i: nat, name: string,
                   texts: seq<string>)
    requires |names| == |values| && Shows(j, names, values, public)
    requires i < |names| && names[i] == name && names[i] in public && values[i] == Some(Strings(texts))
    ensures HasTexts(j.members, name, texts)
  {
    PublicTexts(texts);
    hide Elements, Public, Strings;
  }

  lemma StepIsShown(s: WorkflowStep)
    ensures IsShownStep(Public(StepDump(s)), s)
  {
    StepFieldsArePublic();
    var (n, v, j) := (STEP_FIELDS, StepValues(s), Public(StepDump(s)));
    DumpShows(n, v, n);
    hide Dumped, Elements, Get, Public, Distinct, ArePublic, HasText, HasTextOrNull, HasTexts, StepDump,
         OperationName, BlastName, OperationWord, BlastWord, StepValues;
    assert j.Obj? && j.members.Keys == Elements(n);
    hide Shows, STEP_FIELDS;
    StepTextsAreShown(j, n, v, s);
    StepWordsAreShown(j, n, v, s);
    StepRestIsShown(j, n, v, s);
    WordsAre(s);
  }

  lemma StepRestIsShown(j: Json, n: seq<string>, v: seq<Option<Json>>, s: WorkflowStep)
    requires n == STEP_FIELDS && v == StepValues(s) && Shows(j, n, v, n)
    ensures HasTexts(j.members, "required_scopes", s.requiredScopes)
    ensures HasTextOrNull(j.members, "downstream_audience", s.downstreamAudience)
    ensures Get(j.members, "mutates_external_state") == Some(Bool(s.mutatesExternalState))
  {
    PublicBool(s.mutatesExternalState);
    assert j.Obj?;
    hide Elements, Get, Strings, Public, HasTexts, HasTextOrNull, Field, OptionalField, Shows;
    assert n[5] == "required_scopes" && n[6] == "downstream_audience" && n[10] == "mutates_external_state";
    assert v[5] == Some(Strings(s.requiredScopes)) && v[6] == OptionalField(s.downstreamAudience);
    assert v[10] == Some(Bool(s.mutatesExternalState)) && |v| == 11;
    hide STEP_FIELDS, StepValues;
    ShowsTexts(j, n, v, n, 5, "required_scopes", s.requiredScopes);
    ShowsOptional(j, n, v, n, 6, "downstream_audience", s.downstreamAudience);
    ShowsValue(j, n, v, n, 10, "mutates_external_state");
  }

  lemma StepTextsAreShown(j: Json, n: seq<string>, v: seq<Option<Json>>, s: WorkflowStep)
    requires n == STEP_FIELDS && v == StepValues(s) && Shows(j, n, v, n)
    ensures var m := j.members;
      && HasText(m, "step_id", s.stepId) && HasText(m, "target_agent", s.targetAgent) && HasText(m, "action", s.action)
      && HasText(m, "input_model_type", s.inputModelType)
  {
    assert j.Obj?;
    hide Elements, Get, Strings, Public, HasText, Field, OptionalField, Shows, OperationName, BlastName;
    assert n[0] == "step_id" && n[1] == "target_agent" && n[2] == "action" && n[3] == "input_model_type";
    assert v[0] == Field(s.stepId) && v[1] == Field(s.targetAgent) && v[2] == Field(s.action);
    assert v[3] == Field(s.inputModelType) && |v| == 11;
    hide STEP_FIELDS, StepValues;
    ShowsText(j, n, v, n, 0, "step_id", s.stepId);
    ShowsText(j, n, v, n, 1, "target_agent", s.targetAgent);
    ShowsText(j, n, v, n, 2, "action", s.action);
    ShowsText(j, n, v, n, 3, "input_model_type", s.inputModelType);
  }

  lemma StepWordsAreShown(j: Json, n: seq<string>, v: seq<Option<Json>>, s: WorkflowStep)
    requires n == STEP_FIELDS && v == StepValues(s) && Shows(j, n, v, n)
    ensures var m := j.members;
      && HasText(m, "input_payload_json", s.inputPayloadJson)
      && HasText(m, "operation_type", OperationName(s.operationType))
      && HasText(m, "blast_radius", BlastName(s.blastRadius)) && HasText(m, "hitl_description", s.hitlDescription)
  {
    assert j.Obj?;
    hide Elements, Get, Strings, Public, HasText, Field, OptionalField, Shows, OperationName, BlastName;
    assert n[4] == "input_payload_json" && n[7] == "operation_type" && n[8] == "blast_radius";
    assert n[9] == "hitl_description" && v[4] == Field(s.inputPayloadJson);
    assert v[7] == Field(OperationName(s.operationType)) && v[8] == Field(BlastName(s.blastRadius));
    assert v[9] == Field(s.hitlDescription) && |v| == 11;
    hide STEP_FIELDS, StepValues;
    ShowsText(j, n, v, n, 4, "input_payload_json", s.inputPayloadJson);
    ShowsText(j, n, v, n, 7, "operation_type", OperationName(s.operationType));
    ShowsText(j, n, v, n, 8, "blast_radius", BlastName(s.blastRadius));
    ShowsText(j, n, v, n, 9, "hitl_description", s.hitlDescription);
  }

  lemma PublicBool(b: bool)
    ensures Public(Bool(b)) == Bool(b)
  {
  }

  lemma PolicyIsShown(p: WorkflowPolicyDecision)
    ensures IsShownPolicy(Public(PolicyDump(p)), p)
  {
    PolicyFieldsArePublic();
    var (n, j) := (POLICY_FIELDS, Public(PolicyDump(p)));
    var v := [Some(Bool(p.requiresHitl)), Field(BlastName(p.blastRadius)), Field(p.humanDescription),
              Some(Strings(p.requiredScopes)), None];
    DumpShows(n, v, n);
    PublicBool(p.requiresHitl);
    hide Dumped, Elements, Get, Strings, Public, Distinct, ArePublic, HasText, HasTextOrNull, HasTexts, Field;
    assert j.Obj? && j.members.Keys == Elements(POLICY_FIELDS);
    ShowsValue(j, n, v, n, 0, "requires_hitl");
    ShowsText(j, n, v, n, 1, "blast_radius", BlastName(p.blastRadius));
    ShowsText(j, n, v, n, 2, "human_description", p.humanDescription);
    ShowsTexts(j, n, v, n, 3, "required_scopes", p.requiredScopes);
    ShowsValue(j, n, v, n, 4, "denied_reason");
  }

  lemma IntentIsShown(t: ToolIntent)
    ensures IsShownIntent(Public(IntentDump(t)), t)
  {
    IntentFieldsArePublic();
    var (n, j) := (INTENT_FIELDS, Public(IntentDump(t)));
    var v := [Field(t.agentName), Field(t.mcpServer), Field(t.toolName), Some(Obj(t.arguments)),
              OptionalField(t.reason), Field(t.metadataRef)];
    DumpShows(n, v, n);
    assert Public(Obj(t.arguments)) == StripKeys(Obj(t.arguments), IsBrowserPrivate);
    hide Dumped, Elements, Get, Public, Distinct, ArePublic, HasText, HasTextOrNull, Field, OptionalField, StripKeys;
    assert j.Obj? && j.members.Keys == Elements(INTENT_FIELDS);
    hide Shows;
    assert n[0] == "agent_name" && n[1] == "mcp_server" && n[2] == "tool_name" && n[3] == "arguments";
    assert n[4] == "reason" && n[5] == "metadata_ref";
    ShowsText(j, n, v, n, 0, "agent_name", t.agentName);
    ShowsText(j, n, v, n, 1, "mcp_server", t.mcpServer);
    ShowsText(j, n, v, n, 2, "tool_name", t.toolName);
    ShowsValue(j, n, v, n, 3, "arguments");
    ShowsOptional(j, n, v, n, 4, "reason", t.reason);
    ShowsText(j, n, v, n, 5, "metadata_ref", t.metadataRef);
  }

  lemma ApprovalIsShown(a: ApprovedWorkflow, show: TimeFormat)
    ensures IsShownApproval(Public(ApprovalDump(a, show)), a, show)
  {
    ApprovalFieldsArePublic();
    var (n, j) := (APPROVAL_FIELDS, Public(ApprovalDump(a, show)));
    var expiry := match a.expiresAt case None => None case Some(at) => Some(show(at));
    assert OptionalTime(a.expiresAt, show) == OptionalField(expiry);
    var v := [Field(a.workflowId), Field(a.approvalId), Field(a.planHash), Field(show(a.approvedAt)),
              Field(a.approvedByUserId), Some(Strings(a.approvedScopes)), OptionalTime(a.expiresAt, show)];
    DumpShows(n, v, n);
    hide Dumped, Elements, Get, Strings, Public, Distinct, ArePublic, HasText, HasTextOrNull, HasTexts, Field,
         OptionalField, OptionalTime;
    assert j.Obj? && j.members.Keys == Elements(APPROVAL_FIELDS);
    hide Shows;
    assert n[0] == "workflow_id" && n[1] == "approval_id" && n[2] == "plan_hash" && n[3] == "approved_at";
    assert n[4] == "approved_by_user_id" && n[5] == "approved_scopes" && n[6] == "expires_at";
    ShowsText(j, n, v, n, 0, "workflow_id", a.workflowId);
    ShowsText(j, n, v, n, 1, "approval_id", a.approvalId);
    ShowsText(j, n, v, n, 2, "plan_hash", a.planHash);
    ShowsText(j, n, v, n, 3, "approved_at", show(a.approvedAt));
    ShowsText(j, n, v, n, 4, "approved_by_user_id", a.approvedByUserId);
    ShowsTexts(j, n, v, n, 5, "approved_scopes", a.approvedScopes);
    ShowsOptional(j, n, v, n, 6, "expires_at", expiry);
  }

  lemma PublicOf(items: seq<Json>)
    ensures Public(Arr(items)).Arr? && |Public(Arr(items)).items| == |items|
    ensures forall i :: 0 <= i < |items| ==> Public(Arr(items)).items[i] == Public(items[i])
  {
  }

  lemma StepsAreShown(steps: seq<WorkflowStep>)
    ensures AreShownSteps(Public(Steps(steps)), steps)
  {
    hide Public, StepDump, IsShownStep;
    var items := Steps(steps).items;
    PublicOf(items);
    forall i | 0 <= i < |steps| ensures IsShownStep(Public(items[i]), steps[i]) {
      StepIsShown(steps[i]);
    }
  }

  lemma IntentsAreShown(intents: seq<ToolIntent>)
    ensures AreShownIntents(Public(Intents(intents)), intents)
  {
    hide Public, IntentDump, IsShownIntent;
    var items := Intents(intents).items;
    PublicOf(items);
    forall i | 0 <= i < |intents| ensures IsShownIntent(Public(items[i]), intents[i]) {
      IntentIsShown(intents[i]);
    }
  }

  lemma ResultsAreShown(results: seq<Json>)
    ensures AreShownResults(Public(Arr(results)), results)
  {
    PublicOf(results);
    assert forall i :: 0 <= i < |results| ==> Public(results[i]) == StripKeys(results[i], IsBrowserPrivate);
    hide StripKeys, Public;
  }

  lemma PlanFieldsArePublic()
    ensures ArePublic(PUBLIC_PLAN_FIELDS) && Distinct(PLAN_FIELDS)
    ensures forall name <- PUBLIC_PLAN_FIELDS :: name in PLAN_FIELDS
    ensures forall name <- PLAN_FIELDS :: name in PUBLIC_PLAN_FIELDS || IsBrowserPrivate(name)
  {
    FieldsAreDistinct();
    IdentityIsPrivate();
    var (p, n) := (PUBLIC_PLAN_FIELDS, PLAN_FIELDS);
    forall i | 0 <= i < |p| ensures !IsBrowserPrivate(p[i]) {
      if IsBrowserPrivate(p[i]) {
        PrivateKeysLook(p[i]);
      }
    }
    hide IsBrowserPrivate;
    assert p[0] == n[0] && p[1] == n[4] && p[2] == n[5];
  }

  lemma PlanIsShown(p: WorkflowPlan, show: TimeFormat)
    ensures IsShownPlan(Public(PlanDump(p, show)), p, show)
  {
    PlanFieldsArePublic();
    var (n, o, j) := (PLAN_FIELDS, PUBLIC_PLAN_FIELDS, Public(PlanDump(p, show)));
    var v := [Field(p.workflowId), Field(p.userId), Field(p.sessionId), OptionalField(p.tenantId),
              Field(show(p.createdAt)), Some(Steps(p.steps))];
    DumpShows(n, v, o);
    StepsAreShown(p.steps);
    hide Dumped, Elements, Public, Distinct, ArePublic, HasText, Field, OptionalField, AreShownSteps, Steps,
         IsBrowserPrivate;
    assert j.Obj? && j.members.Keys == Elements(o);
    hide Shows;
    assert n[0] == o[0] && n[4] == o[1] && n[5] == o[2];
    ShowsText(j, n, v, o, 0, "workflow_id", p.workflowId);
    ShowsText(j, n, v, o, 4, "created_at", show(p.createdAt));
    ShowsValue(j, n, v, o, 5, "steps");
  }

  lemma RecordFieldsArePublic()
    ensures ArePublic(PUBLIC_RECORD_FIELDS) && Distinct(RECORD_FIELDS)
    ensures forall name <- PUBLIC_RECORD_FIELDS :: name in RECORD_FIELDS
    ensures forall name <- RECORD_FIELDS :: name in PUBLIC_RECORD_FIELDS || IsBrowserPrivate(name)
  {
    RecordFieldsAre();
    IdentityIsPrivate();
    PublicRecordFieldsAre("");
    hide IsBrowserPrivate;
    var (p, n) := (PUBLIC_RECORD_FIELDS, RECORD_FIELDS);
    assert p[0] == n[0] && p[1] == n[1] && p[2] == n[5] && p[3] == n[6] && p[4] == n[7] && p[5] == n[8];
    assert p[6] == n[9] && p[7] == n[11] && p[8] == n[12] && p[9] == n[13] && |n| == 14;
    hide RECORD_FIELDS, PUBLIC_RECORD_FIELDS;
  }

  lemma StatusIs(status: Status)
    ensures StatusName(status) == StatusWord(status)
  {
  }

  lemma RestNames(n: seq<string>, o: seq<string>)
    requires n == RECORD_FIELDS && o == PUBLIC_RECORD_FIELDS
    ensures |n| == 14 && n[6] == "proposal" && n[8] == "tool_intents" && n[9] == "policy"
    ensures n[11] == "approved_workflow" && n[12] == "egress_results"
    ensures n[6] in o && n[8] in o && n[9] in o && n[11] in o && n[12] in o
  {
    RecordFieldsAre();
    PublicRecordFieldsAre("");
    assert |n| == 14 && |o| == 10;
    hide RECORD_FIELDS, PUBLIC_RECORD_FIELDS;
    assert n[6] == o[3] && n[8] == o[5] && n[9] == o[6] && n[11] == o[7] && n[12] == o[8];
  }

  lemma RestIsShown(j: Json, n: seq<string>, v: seq<Option<Json>>, o: seq<string>, w: WorkflowRecord, show: TimeFormat)
    requires n == RECORD_FIELDS && v == RecordValues(w, show) && o == PUBLIC_RECORD_FIELDS && Shows(j, n, v, o)
    ensures IsShownRest(j.members, w, show)
  {
    RestNames(n, o);
    hide RECORD_FIELDS, PUBLIC_RECORD_FIELDS, Public, PlanDump, PolicyDump, ApprovalDump, Intents, AreShownIntents,
         AreShownResults, IsShownApproval, IsShownPlan, IsShownPolicy, Elements, Field, OptionalField, StatusName,
         Distinct, ArePublic;
    assert j.Obj?;
    hide Shows;
    PlanIsShown(w.proposal, show);
    IntentsAreShown(w.toolIntents);
    PolicyIsShown(w.policy);
    ResultsAreShown(w.egressResults);
    if w.approvedWorkflow.Some? {
      ApprovalIsShown(w.approvedWorkflow.value, show);
    }
    ShowsValue(j, n, v, o, 6, "proposal");
    ShowsValue(j, n, v, o, 8, "tool_intents");
    ShowsValue(j, n, v, o, 9, "policy");
    ShowsValue(j, n, v, o, 11, "approved_workflow");
    ShowsValue(j, n, v, o, 12, "egress_results");
  }

  // The browser is shown each public field of the record under its own name, and nothing else.
  lemma RecordIsShown(w: WorkflowRecord, show: TimeFormat)
    ensures IsShownRecord(PublicWorkflow(w, show), w, show)
  {
    RecordFieldsArePublic();
    var (n, o, j) := (RECORD_FIELDS, PUBLIC_RECORD_FIELDS, PublicWorkflow(w, show));
    var v := RecordValues(w, show);
    DumpShows(n, v, o);
    RestIsShown(j, n, v, o, w, show);
    RecordFieldsAre();
    PublicRecordFieldsAre("");
    StatusIs(w.status);
    hide RECORD_FIELDS, PUBLIC_RECORD_FIELDS, Public, PlanDump, PolicyDump, ApprovalDump, Intents, IsShownRest,
         Elements, Field, OptionalField, StatusName, StatusWord, Distinct, ArePublic, Dumped, PublicWorkflow, HasText,
         HasTextOrNull, IsBrowserPrivate;
    assert j.Obj? && j.members.Keys == Elements(o);
    hide Shows;
    assert n[0] == o[0] && n[1] == o[1] && n[5] == o[2] && n[7] == o[4] && n[13] == o[9];
    ShowsText(j, n, v, o, 0, "workflow_id", w.workflowId);
    ShowsOptional(j, n, v, o, 1, "thread_id", w.threadId);
    ShowsText(j, n, v, o, 5, "status", StatusName(w.status));
    ShowsText(j, n, v, o, 7, "plan_hash", w.planHash);
    ShowsText(j, n, v, o, 13, "created_at", show(w.createdAt));
  }
}
