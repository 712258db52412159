// Canonical JSON of plans and grants, and the hash that names a plan.
module Hashing {
  import opened Wrappers
  import opened Text
  import opened Json
  import opened Models

  // How a datetime is written; any faithful format will do.
  type TimeFormat = Time -> string

  ghost predicate TellsTimesApart(show: TimeFormat) {
    forall a, b :: show(a) == show(b) ==> a == b
  }

  function OperationName(op: Operation): string {
    match op case READ => "READ" case WRITE => "WRITE" case ADMIN => "ADMIN"
  }

  function BlastName(b: BlastRadius): string {
    match b case Nothing => "none" case Low => "low" case Medium => "medium" case High => "high"
  }

  function Strings(xs: seq<string>): (list: Json)
    ensures list.Arr? && |list.items| == |xs|
  {
    Arr(seq(|xs|, i requires 0 <= i < |xs| => Str(xs[i])))
  }

  // A record as a JSON object; `exclude_none`: a field without a value has no member.
  function Members(names: seq<string>, values: seq<Option<Json>>): map<string, Json>
    requires |names| == |values|
  {
    if names == [] then map[]
    else
      var last := |names| - 1;
      var rest := Members(names[..last], values[..last]);
      if values[last].None? then rest else rest[names[last] := values[last].value]
  }

  predicate Distinct(names: seq<string>) {
    forall i, j :: 0 <= i < j < |names| ==> names[i] != names[j]
  }

  lemma {:induction false} MemberAt(names: seq<string>, values: seq<Option<Json>>, key: string)
    requires |names| == |values| && Distinct(names)
    ensures key in Members(names, values) ==> key in names
    ensures forall i :: 0 <= i < |names| && names[i] == key ==>
      values[i] == Get(Members(names, values), key)
  {
    if names != [] {
      var last := |names| - 1;
      MemberAt(names[..last], values[..last], key);
      assert forall i :: 0 <= i < last ==> names[..last][i] == names[i] && values[..last][i] == values[i];
    }
  }

  lemma MembersAreInjective(names: seq<string>, a: seq<Option<Json>>, b: seq<Option<Json>>)
    requires |names| == |a| == |b| && Distinct(names) && Members(names, a) == Members(names, b)
    ensures a == b
  {
    forall i | 0 <= i < |names| ensures a[i] == b[i] {
      MemberAt(names, a, names[i]);
      MemberAt(names, b, names[i]);
    }
  }

  function Field(value: string): Option<Json> {
    Some(Str(value))
  }

  function OptionalField(value: Option<string>): Option<Json> {
    match value case None => None case Some(text) => Field(text)
  }

  function OptionalTime(value: Option<Time>, show: TimeFormat): Option<Json> {
    match value case None => None case Some(time) => Field(show(time))
  }

  const STEP_FIELDS: seq<string> :=
    ["step_id", "target_agent", "action", "input_model_type", "input_payload_json", "required_scopes",
     "downstream_audience", "operation_type", "blast_radius", "hitl_description", "mutates_external_state"]

  function StepValues(s: WorkflowStep): seq<Option<Json>> {
    [Field(s.stepId), Field(s.targetAgent), Field(s.action), Field(s.inputModelType), Field(s.inputPayloadJson),
     Some(Strings(s.requiredScopes)), OptionalField(s.downstreamAudience), Field(OperationName(s.operationType)),
     Field(BlastName(s.blastRadius)), Field(s.hitlDescription), Some(Bool(s.mutatesExternalState))]
  }

  function StepJson(s: WorkflowStep): Json {
    Obj(Members(STEP_FIELDS, StepValues(s)))
  }

  const PLAN_FIELDS: seq<string> := ["workflow_id", "user_id", "session_id", "tenant_id", "created_at", "steps"]

  function PlanValues(p: WorkflowPlan, show: TimeFormat): seq<Option<Json>> {
    [Field(p.workflowId), Field(p.userId), Field(p.sessionId), OptionalField(p.tenantId), Field(show(p.createdAt)),
     Some(Arr(seq(|p.steps|, i requires 0 <= i < |p.steps| => StepJson(p.steps[i]))))]
  }

  function PlanJson(p: WorkflowPlan, show: TimeFormat): Json {
    Obj(Members(PLAN_FIELDS, PlanValues(p, show)))
  }

  const GRANT_FIELDS: seq<string> :=
    ["workflow_id", "approval_id", "plan_hash", "step_id", "primitive", "method", "target_mcp", "tool_name",
     "arguments", "required_scopes", "audience", "user_id", "session_id", "tenant_id", "approved_by_user_id",
     "expires_at", "correlation_id"]

  function GrantValues(g: ExecutionGrant, show: TimeFormat): seq<Option<Json>> {
    [Field(g.workflowId), Field(g.approvalId), Field(g.planHash), Field(g.stepId), Field(g.primitive), Field(g.verb),
     Field(g.targetMcp), Field(g.toolName), Some(Obj(g.arguments)), Some(Strings(g.requiredScopes)),
     OptionalField(g.audience), Field(g.userId), Field(g.sessionId), OptionalField(g.tenantId),
       Field(g.approvedByUserId),
     OptionalTime(g.expiresAt, show), Field(g.correlationId)]
  }

  function GrantJson(g: ExecutionGrant, show: TimeFormat): Json {
    Obj(Members(GRANT_FIELDS, GrantValues(g, show)))
  }

  function CanonicalPlan(p: WorkflowPlan, show: TimeFormat): string {
    Dumps(PlanJson(p, show), false)
  }

  function CanonicalGrant(g: ExecutionGrant, show: TimeFormat): string {
    Dumps(GrantJson(g, show), false)
  }

  // `plan_hash`, for a digest function `sha`.
  function PlanHash(p: WorkflowPlan, show: TimeFormat, sha: string -> string): string {
    "sha256:" + sha(CanonicalPlan(p, show))
  }

  lemma StringsAreInjective(a: seq<string>, b: seq<string>)
    requires Strings(a) == Strings(b)
    ensures a == b
  {
    var xs, ys := Strings(a).items, Strings(b).items;
    assert |xs| == |ys|;
    forall i | 0 <= i < |a| ensures a[i] == b[i] {
      assert xs[i] == ys[i];
    }
  }

  lemma FieldsAreDistinct()
    ensures Distinct(STEP_FIELDS) && Distinct(PLAN_FIELDS) && Distinct(GRANT_FIELDS)
  {
    forall i, j | 0 <= i < j < |GRANT_FIELDS| ensures GRANT_FIELDS[i] != GRANT_FIELDS[j] {
    }
    forall i, j | 0 <= i < j < |STEP_FIELDS| ensures STEP_FIELDS[i] != STEP_FIELDS[j] {
    }
  }

  lemma StepJsonIsInjective(a: WorkflowStep, b: WorkflowStep)
    requires StepJson(a) == StepJson(b)
    ensures a == b
  {
    hide Members;
    FieldsAreDistinct();
    var x, y := StepValues(a), StepValues(b);
    MembersAreInjective(STEP_FIELDS, x, y);
    assert x[0] == y[0] && x[1] == y[1] && x[2] == y[2] && x[3] == y[3] && x[4] == y[4] && x[5] == y[5];
    assert x[6] == y[6] && x[7] == y[7] && x[8] == y[8] && x[9] == y[9] && x[10] == y[10];
    StringsAreInjective(a.requiredScopes, b.requiredScopes);
  }

  lemma PlanJsonIsInjective(a: WorkflowPlan, b: WorkflowPlan, show: TimeFormat)
    requires TellsTimesApart(show) && PlanJson(a, show) == PlanJson(b, show)
    ensures a == b
  {
    hide Members, StepJson;
    FieldsAreDistinct();
    var x, y := PlanValues(a, show), PlanValues(b, show);
    MembersAreInjective(PLAN_FIELDS, x, y);
    assert x[0] == y[0] && x[1] == y[1] && x[2] == y[2] && x[3] == y[3] && x[4] == y[4] && x[5] == y[5];
    var xs, ys := x[5].value.items, y[5].value.items;
    assert |xs| == |ys|;
    forall i | 0 <= i < |a.steps| ensures a.steps[i] == b.steps[i] {
      assert xs[i] == ys[i];
      StepJsonIsInjective(a.steps[i], b.steps[i]);
    }
  }

  lemma GrantJsonIsInjective(a: ExecutionGrant, b: ExecutionGrant, show: TimeFormat)
    requires TellsTimesApart(show) && GrantJson(a, show) == GrantJson(b, show)
    ensures a == b
  {
    hide Members;
    FieldsAreDistinct();
    var x, y := GrantValues(a, show), GrantValues(b, show);
    MembersAreInjective(GRANT_FIELDS, x, y);
    assert x[0] == y[0] && x[1] == y[1] && x[2] == y[2] && x[3] == y[3] && x[4] == y[4] && x[5] == y[5];
    assert x[6] == y[6] && x[7] == y[7] && x[8] == y[8] && x[9] == y[9] && x[10] == y[10] && x[11] == y[11];
    assert x[12] == y[12] && x[13] == y[13] && x[14] == y[14] && x[15] == y[15] && x[16] == y[16];
    StringsAreInjective(a.requiredScopes, b.requiredScopes);
    if a.expiresAt.Some? {
      assert show(a.expiresAt.value) == show(b.expiresAt.value);
    }
  }

  // Two plans have one canonical text exactly when they are equal.
  lemma CanonicalPlanIsInjective(a: WorkflowPlan, b: WorkflowPlan, show: TimeFormat)
    requires TellsTimesApart(show)
    ensures CanonicalPlan(a, show) == CanonicalPlan(b, show) <==> a == b
  {
    DumpsIsInjective(PlanJson(a, show), PlanJson(b, show), false);
    if PlanJson(a, show) == PlanJson(b, show) {
      PlanJsonIsInjective(a, b, show);
    }
  }

  lemma CanonicalGrantIsInjective(a: ExecutionGrant, b: ExecutionGrant, show: TimeFormat)
    requires TellsTimesApart(show)
    ensures CanonicalGrant(a, show) == CanonicalGrant(b, show) <==> a == b
  {
    DumpsIsInjective(GrantJson(a, show), GrantJson(b, show), false);
    if GrantJson(a, show) == GrantJson(b, show) {
      GrantJsonIsInjective(a, b, show);
    }
  }

  // A hash names one plan, as long as the digest does not collide on the two texts.
  lemma PlanHashNamesThePlan(a: WorkflowPlan, b: WorkflowPlan, show: TimeFormat, sha: string -> string)
    requires TellsTimesApart(show)
    requires sha(CanonicalPlan(a, show)) == sha(CanonicalPlan(b, show)) ==>
      CanonicalPlan(a, show) == CanonicalPlan(b, show)
    ensures PlanHash(a, show, sha) == PlanHash(b, show, sha) <==> a == b
  {
    CanonicalPlanIsInjective(a, b, show);
    var ha, hb := PlanHash(a, show, sha), PlanHash(b, show, sha);
    assert ha[7..] == sha(CanonicalPlan(a, show)) && hb[7..] == sha(CanonicalPlan(b, show));
  }

  function WithScopes(p: WorkflowPlan, i: nat, scopes: seq<string>): WorkflowPlan
    requires i < |p.steps|
  {
    p.(steps := p.steps[i := p.steps[i].(requiredScopes := DedupeSorted(scopes))])
  }

  // The order and repetition of the scopes a step was given do not show; anything else does.
  lemma ScopesPrintAsSets(p: WorkflowPlan, i: nat, a: seq<string>, b: seq<string>, show: TimeFormat)
    requires TellsTimesApart(show) && i < |p.steps|
    ensures CanonicalPlan(WithScopes(p, i, a), show) == CanonicalPlan(WithScopes(p, i, b), show)
       <==> Elements(a) == Elements(b)
  {
    hide CanonicalPlan;
    var pa, pb := WithScopes(p, i, a), WithScopes(p, i, b);
    CanonicalPlanIsInjective(pa, pb, show);
    if pa == pb {
      assert pa.steps[i].requiredScopes == pb.steps[i].requiredScopes;
      assert forall k :: k in Elements(a) <==> k in DedupeSorted(a);
      assert forall k :: k in Elements(b) <==> k in DedupeSorted(b);
    }
  }

  // ---- What the canonical texts say ----

  predicate HasText(m: map<string, Json>, name: string, text: string) {
    Get(m, name) == Some(Str(text))
  }

  // A field without a value is left out.
  predicate MayHaveText(m: map<string, Json>, name: string, text: Option<string>) {
    if text.Some? then HasText(m, name, text.value) else name !in m
  }

  predicate HasTexts(m: map<string, Json>, name: string, texts: seq<string>) {
    && name in m && m[name].Arr? && |m[name].items| == |texts|
    && forall i :: 0 <= i < |texts| ==> m[name].items[i] == Str(texts[i])
  }

  function OperationWord(operation: Operation): string {
    if operation == READ then "READ" else if operation == WRITE then "WRITE" else "ADMIN"
  }

  function BlastWord(b: BlastRadius): string {
    if b == High then "high" else if b == Medium then "medium" else if b == Low then "low" else "none"
  }

  predicate SaysStep(j: Json, s: WorkflowStep) {
    j.Obj? && j.members.Keys <= Elements(STEP_FIELDS) &&
    var m := j.members;
    && HasText(m, "step_id", s.stepId) && HasText(m, "target_agent", s.targetAgent) && HasText(m, "action", s.action)
    && HasText(m, "input_model_type", s.inputModelType) && HasText(m, "input_payload_json", s.inputPayloadJson)
    && HasTexts(m, "required_scopes", s.requiredScopes) && MayHaveText(m, "downstream_audience", s.downstreamAudience)
    && HasText(m, "operation_type", OperationWord(s.operationType))
    && HasText(m, "blast_radius", BlastWord(s.blastRadius))
    && HasText(m, "hitl_description", s.hitlDescription)
    && Get(m, "mutates_external_state") == Some(Bool(s.mutatesExternalState))
  }

  predicate SaySteps(j: Json, steps: seq<WorkflowStep>) {
    j.Arr? && |j.items| == |steps| && forall i :: 0 <= i < |steps| ==> SaysStep(j.items[i], steps[i])
  }

  predicate SaysPlan(j: Json, p: WorkflowPlan, show: TimeFormat) {
    j.Obj? && j.members.Keys <= Elements(PLAN_FIELDS) &&
    var m := j.members;
    && HasText(m, "workflow_id", p.workflowId) && HasText(m, "user_id", p.userId)
    && HasText(m, "session_id", p.sessionId) && MayHaveText(m, "tenant_id", p.tenantId)
    && HasText(m, "created_at", show(p.createdAt)) && Get(m, "steps").Some? && SaySteps(Get(m, "steps").value, p.steps)
  }

  predicate SaysCall(m: map<string, Json>, g: ExecutionGrant) {
    && HasText(m, "primitive", g.primitive) && HasText(m, "method", g.verb) && HasText(m, "target_mcp", g.targetMcp)
    && HasText(m, "tool_name", g.toolName) && Get(m, "arguments") == Some(Obj(g.arguments))
    && HasTexts(m, "required_scopes", g.requiredScopes) && MayHaveText(m, "audience", g.audience)
  }

  predicate SaysApproval(m: map<string, Json>, g: ExecutionGrant) {
    && HasText(m, "workflow_id", g.workflowId) && HasText(m, "approval_id", g.approvalId)
    && HasText(m, "plan_hash", g.planHash) && HasText(m, "step_id", g.stepId)
    && HasText(m, "approved_by_user_id", g.approvedByUserId)
  }

  predicate SaysCaller(m: map<string, Json>, g: ExecutionGrant, show: TimeFormat) {
    && HasText(m, "user_id", g.userId) && HasText(m, "session_id", g.sessionId)
    && MayHaveText(m, "tenant_id", g.tenantId) && HasText(m, "correlation_id", g.correlationId)
    && MayHaveText(m, "expires_at", if g.expiresAt.Some? then Some(show(g.expiresAt.value)) else None)
  }

  predicate SaysGrant(j: Json, g: ExecutionGrant, show: TimeFormat) {
    && j.Obj? && j.members.Keys <= Elements(GRANT_FIELDS)
    && SaysCall(j.members, g) && SaysApproval(j.members, g) && SaysCaller(j.members, g, show)
  }

  lemma HasField(names: seq<string>, values: seq<Option<Json>>, i: nat, name: string, text: string)
    requires |names| == |values| && Distinct(names) && i < |names| && names[i] == name && values[i] == Field(text)
    ensures HasText(Members(names, values), name, text)
  {
    MemberAt(names, values, name);
    hide Members, Distinct;
  }

  lemma MayHaveField(names: seq<string>, values: seq<Option<Json>>, i: nat, name: string, text: Option<string>)
    requires |names| == |values| && Distinct(names) && i < |names|
    requires names[i] == name && values[i] == OptionalField(text)
    ensures MayHaveText(Members(names, values), name, text)
  {
    MemberAt(names, values, name);
    hide Members, Distinct;
  }

  lemma HasStrings(names: seq<string>, values: seq<Option<Json>>, i: nat, name: string, texts: seq<string>)
    requires |names| == |values| && Distinct(names) && i < |names|
    requires names[i] == name && values[i] == Some(Strings(texts))
    ensures HasTexts(Members(names, values), name, texts)
  {
    MemberAt(names, values, name);
    hide Members, Distinct;
    var items := Strings(texts).items;
    assert forall k :: 0 <= k < |texts| ==> items[k] == Str(texts[k]);
  }

  lemma HasValue(names: seq<string>, values: seq<Option<Json>>, i: nat, name: string)
    requires |names| == |values| && Distinct(names) && i < |names| && names[i] == name
    ensures Get(Members(names, values), name) == values[i]
  {
    MemberAt(names, values, name);
    hide Members, Distinct;
  }

  lemma MembersAreNamed(names: seq<string>, values: seq<Option<Json>>)
    requires |names| == |values| && Distinct(names)
    ensures Members(names, values).Keys <= Elements(names)
  {
    hide Members, Distinct;
    forall key | key in Members(names, values) ensures key in Elements(names) {
      MemberAt(names, values, key);
    }
  }

  lemma WordsAre(s: WorkflowStep)
    ensures OperationName(s.operationType) == OperationWord(s.operationType)
    ensures BlastName(s.blastRadius) == BlastWord(s.blastRadius)
  {
  }

  lemma StepFieldNames(n: seq<string>)
    requires n == STEP_FIELDS
    ensures |n| == 11 && n[0] == "step_id" && n[1] == "target_agent" && n[2] == "action" && n[3] == "input_model_type"
    ensures n[4] == "input_payload_json" && n[5] == "required_scopes" && n[6] == "downstream_audience"
    ensures n[7] == "operation_type" && n[8] == "blast_radius" && n[9] == "hitl_description"
    ensures n[10] == "mutates_external_state" && Distinct(n)
  {
    FieldsAreDistinct();
  }

  lemma StepIsSaid(s: WorkflowStep)
    ensures SaysStep(StepJson(s), s)
  {
    var (n, v) := (STEP_FIELDS, StepValues(s));
    StepFieldNames(n);
    hide Members, Distinct, HasText, MayHaveText, HasTexts, Field, OptionalField, OperationName, BlastName, Strings,
         OperationWord, BlastWord, STEP_FIELDS, Elements;
    MembersAreNamed(n, v);
    WordsAre(s);
    HasField(n, v, 0, "step_id", s.stepId);
    HasField(n, v, 1, "target_agent", s.targetAgent);
    HasField(n, v, 2, "action", s.action);
    HasField(n, v, 3, "input_model_type", s.inputModelType);
    HasField(n, v, 4, "input_payload_json", s.inputPayloadJson);
    HasStrings(n, v, 5, "required_scopes", s.requiredScopes);
    MayHaveField(n, v, 6, "downstream_audience", s.downstreamAudience);
    HasField(n, v, 7, "operation_type", OperationName(s.operationType));
    HasField(n, v, 8, "blast_radius", BlastName(s.blastRadius));
    HasField(n, v, 9, "hitl_description", s.hitlDescription);
    HasValue(n, v, 10, "mutates_external_state");
  }

  lemma PlanFieldNames(n: seq<string>)
    requires n == PLAN_FIELDS
    ensures |n| == 6 && n[0] == "workflow_id" && n[1] == "user_id" && n[2] == "session_id" && n[3] == "tenant_id"
    ensures n[4] == "created_at" && n[5] == "steps" && Distinct(n)
  {
    FieldsAreDistinct();
  }

  // The text that is hashed says every field of the plan, under its name, and nothing else.
  lemma CanonicalPlanSaysThePlan(p: WorkflowPlan, show: TimeFormat)
    ensures Loads(CanonicalPlan(p, show)).Some? && SaysPlan(Loads(CanonicalPlan(p, show)).value, p, show)
  {
    DumpsReadsBack(PlanJson(p, show), false);
    hide Dumps, Loads;
    var (n, v) := (PLAN_FIELDS, PlanValues(p, show));
    PlanFieldNames(n);
    hide Members, Distinct, HasText, MayHaveText, Field, OptionalField, PLAN_FIELDS, Elements, StepJson, SaysStep;
    MembersAreNamed(n, v);
    HasField(n, v, 0, "workflow_id", p.workflowId);
    HasField(n, v, 1, "user_id", p.userId);
    HasField(n, v, 2, "session_id", p.sessionId);
    MayHaveField(n, v, 3, "tenant_id", p.tenantId);
    HasField(n, v, 4, "created_at", show(p.createdAt));
    HasValue(n, v, 5, "steps");
    var items := v[5].value.items;
    forall i | 0 <= i < |p.steps| ensures SaysStep(items[i], p.steps[i]) {
      assert items[i] == StepJson(p.steps[i]);
      StepIsSaid(p.steps[i]);
    }
  }

  // A hash is of a text that says the plan.
  lemma PlanHashIsOfThePlan(p: WorkflowPlan, show: TimeFormat, sha: string -> string) returns (text: string)
    ensures Loads(text).Some? && SaysPlan(Loads(text).value, p, show)
    ensures PlanHash(p, show, sha) == "sha256:" + sha(text)
  {
    hide Loads, SaysPlan, CanonicalPlan;
    text := CanonicalPlan(p, show);
    CanonicalPlanSaysThePlan(p, show);
  }

  lemma GrantFieldNames(n: seq<string>)
    requires n == GRANT_FIELDS
    ensures |n| == 17 && n[0] == "workflow_id" && n[1] == "approval_id" && n[2] == "plan_hash" && n[3] == "step_id"
    ensures n[4] == "primitive" && n[5] == "method" && n[6] == "target_mcp" && n[7] == "tool_name"
    ensures n[8] == "arguments" && n[9] == "required_scopes" && n[10] == "audience" && n[11] == "user_id"
    ensures n[12] == "session_id" && n[13] == "tenant_id" && n[14] == "approved_by_user_id" && n[15] == "expires_at"
    ensures n[16] == "correlation_id" && Distinct(n)
  {
    FieldsAreDistinct();
  }

  lemma CallIsSaid(n: seq<string>, v: seq<Option<Json>>, g: ExecutionGrant, show: TimeFormat)
    requires n == GRANT_FIELDS && v == GrantValues(g, show)
    ensures SaysCall(Members(n, v), g)
  {
    GrantFieldNames(n);
    hide Members, Distinct, HasText, MayHaveText, HasTexts, Field, OptionalField, Strings, GRANT_FIELDS, OptionalTime;
    HasField(n, v, 4, "primitive", g.primitive);
    HasField(n, v, 5, "method", g.verb);
    HasField(n, v, 6, "target_mcp", g.targetMcp);
    HasField(n, v, 7, "tool_name", g.toolName);
    HasValue(n, v, 8, "arguments");
    HasStrings(n, v, 9, "required_scopes", g.requiredScopes);
    MayHaveField(n, v, 10, "audience", g.audience);
  }

  lemma ApprovalIsSaid(n: seq<string>, v: seq<Option<Json>>, g: ExecutionGrant, show: TimeFormat)
    requires n == GRANT_FIELDS && v == GrantValues(g, show)
    ensures SaysApproval(Members(n, v), g)
  {
    GrantFieldNames(n);
    hide Members, Distinct, HasText, MayHaveText, HasTexts, Field, OptionalField, Strings, GRANT_FIELDS, OptionalTime;
    HasField(n, v, 0, "workflow_id", g.workflowId);
    HasField(n, v, 1, "approval_id", g.approvalId);
    HasField(n, v, 2, "plan_hash", g.planHash);
    HasField(n, v, 3, "step_id", g.stepId);
    HasField(n, v, 14, "approved_by_user_id", g.approvedByUserId);
  }

  lemma CallerIsSaid(n: seq<string>, v: seq<Option<Json>>, g: ExecutionGrant, show: TimeFormat)
    requires n == GRANT_FIELDS && v == GrantValues(g, show)
    ensures SaysCaller(Members(n, v), g, show)
  {
    GrantFieldNames(n);
    var expiry := if g.expiresAt.Some? then Some(show(g.expiresAt.value)) else None;
    assert OptionalTime(g.expiresAt, show) == OptionalField(expiry);
    hide Members, Distinct, HasText, MayHaveText, HasTexts, Field, OptionalField, Strings, GRANT_FIELDS, OptionalTime;
    HasField(n, v, 11, "user_id", g.userId);
    HasField(n, v, 12, "session_id", g.sessionId);
    MayHaveField(n, v, 13, "tenant_id", g.tenantId);
    MayHaveField(n, v, 15, "expires_at", expiry);
    HasField(n, v, 16, "correlation_id", g.correlationId);
  }

  // The text that is signed says every field of the grant, under its name, and nothing else.
  lemma CanonicalGrantSaysTheGrant(g: ExecutionGrant, show: TimeFormat)
    ensures Loads(CanonicalGrant(g, show)).Some? && SaysGrant(Loads(CanonicalGrant(g, show)).value, g, show)
  {
    DumpsReadsBack(GrantJson(g, show), false);
    hide Dumps, Loads, Members, SaysCall, SaysApproval, SaysCaller;
    var (n, v) := (GRANT_FIELDS, GrantValues(g, show));
    GrantFieldNames(n);
    hide GRANT_FIELDS, GrantValues;
    MembersAreNamed(n, v);
    CallIsSaid(n, v, g, show);
    ApprovalIsSaid(n, v, g, show);
    CallerIsSaid(n, v, g, show);
  }
}
