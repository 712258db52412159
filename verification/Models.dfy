// The records that the services exchange and store.
module Models {
  import opened Wrappers
  import opened Text
  import opened Json

  // Microseconds since the epoch.
  type Time = int

  datatype Operation = READ | WRITE | ADMIN

  datatype BlastRadius = Nothing | Low | Medium | High

  datatype Status = AwaitingApproval | Ready | Approved | Executing | Completed | Failed | Cancelled

  datatype ToolIntent = ToolIntent(
    agentName: string,
    mcpServer: string,
    toolName: string,
    arguments: map<string, Json>,
    reason: Option<string>,
    metadataRef: string)

  datatype ScopeRequirement = ScopeRequirement(scopeTemplate: string, scopeArgs: seq<string>)

  datatype WorkflowStep = WorkflowStep(
    stepId: string,
    targetAgent: string,
    action: string,
    inputModelType: string,
    inputPayloadJson: string,
    requiredScopes: seq<string>,
    downstreamAudience: Option<string>,
    operationType: Operation,
    blastRadius: BlastRadius,
    hitlDescription: string,
    mutatesExternalState: bool)

  datatype WorkflowPolicyDecision = WorkflowPolicyDecision(
    requiresHitl: bool,
    blastRadius: BlastRadius,
    humanDescription: string,
    requiredScopes: seq<string>)

  datatype WorkflowPlan = WorkflowPlan(
    workflowId: string,
    userId: string,
    sessionId: string,
    tenantId: Option<string>,
    createdAt: Time,
    steps: seq<WorkflowStep>)

  datatype ApprovedWorkflow = ApprovedWorkflow(
    workflowId: string,
    approvalId: string,
    planHash: string,
    approvedAt: Time,
    approvedByUserId: string,
    approvedScopes: seq<string>,
    expiresAt: Option<Time>)

  datatype ExecutionGrant = ExecutionGrant(
    workflowId: string,
    approvalId: string,
    planHash: string,
    stepId: string,
    primitive: string,
    verb: string,
    targetMcp: string,
    toolName: string,
    arguments: map<string, Json>,
    requiredScopes: seq<string>,
    audience: Option<string>,
    userId: string,
    sessionId: string,
    tenantId: Option<string>,
    approvedByUserId: string,
    expiresAt: Option<Time>,
    correlationId: string)

  datatype WorkflowRecord = WorkflowRecord(
    workflowId: string,
    threadId: Option<string>,
    sessionId: string,
    userId: string,
    tenantId: Option<string>,
    status: Status,
    proposal: WorkflowPlan,
    planHash: string,
    toolIntents: seq<ToolIntent>,
    policy: WorkflowPolicyDecision,
    tokenRef: Option<string>,
    approvedWorkflow: Option<ApprovedWorkflow>,
    egressResults: seq<Json>,
    createdAt: Time)

  datatype SessionRecord = SessionRecord(
    userId: string,
    sessionId: string,
    tenantId: Option<string>,
    tokenRef: Option<string>,
    authContextRef: Option<string>,
    tokenScopes: seq<string>,
    allowedTools: Option<seq<string>>,
    updatedAt: Time)

  datatype TokenRegistryRecord = TokenRegistryRecord(
    userId: string,
    sessionId: string,
    tenantId: Option<string>,
    tokenRef: string,
    authContextRef: string,
    updatedAt: Time)

  datatype ThreadRecord = ThreadRecord(
    threadId: string,
    userId: string,
    sessionId: string,
    tenantId: Option<string>,
    messages: seq<Json>,
    state: map<string, Json>,
    title: Option<string>,
    tokenRef: Option<string>,
    activeWorkflowId: Option<string>,
    createdAt: Time,
    updatedAt: Time)

  // `_dedupe_sorted`, for lists without empty strings.
  function DedupeSorted(values: seq<string>): seq<string> {
    Sorted(Elements(values))
  }

  // Python truthiness of an optional string.
  predicate Truthy(value: Option<string>) {
    value.Some? && value.value != ""
  }
}
