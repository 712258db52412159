// The tools a workflow may call, and the scopes a call needs.
module ToolCatalog {
  import opened Wrappers
  import opened Text
  import opened Models

  datatype ToolSpec = ToolSpec(
    auth0Candidates: seq<string>,
    workflowScopes: seq<string>,
    scopeArgs: seq<string>,
    op: Operation,
    hitlDescription: string,
    blastRadius: BlastRadius,
    downstreamAudience: Option<string>)

  const GET_IDENTITY_PROFILE := ToolSpec(
    ["read:identity", "read:users", "profile", "email"], ["read:user:{subject_user_id}"], ["subject_user_id"],
    READ, "Read identity profile for selected user ID", Low, None)

  const GET_DEVELOPER_APP := ToolSpec(
    ["read:developer_apps", "read:apps", "read:developer"], ["read:client:{appid}"], ["appid"],
    READ, "Read developer app metadata for selected app ID", Low, None)

  const GET_ACCOUNT_BALANCE := ToolSpec(
    ["read:billing", "read:accounts"], ["read:account:{account_id}"], ["account_id"],
    READ, "Read billing balance for selected account ID", Low, None)

  const PROPOSE_WORKFLOW_PLAN := ToolSpec(
    ["plan:workflow", "read:workflow"], ["plan:workflow"], [],
    READ, "Review the user request and propose workflow steps", Nothing, None)

  const INSPECT_DNS_RECORD := ToolSpec(
    ["read:network", "read:dns"], ["read:dns:{record_name}"], ["record_name"],
    READ, "Inspect DNS record for selected hostname", Low, Some("network-mcp"))

  const UPDATE_FIREWALL_RULE := ToolSpec(
    ["write:network", "write:firewall"], ["write:firewall:{rule_id}"], ["rule_id"],
    WRITE, "Update firewall rule for selected rule ID", High, Some("network-mcp"))

  const ROTATE_VPN_CREDENTIAL := ToolSpec(
    ["admin:network", "admin:vpn"], ["admin:vpn:{credential_id}"], ["credential_id"],
    ADMIN, "Rotate VPN credential for selected credential ID", High, Some("network-mcp"))

  const INSPECT_VM := ToolSpec(
    ["read:cloud", "read:vm"], ["read:vm:{vm_id}"], ["vm_id"],
    READ, "Inspect virtual machine state for selected VM", Low, Some("cloud-mcp"))

  const RESTART_VM := ToolSpec(
    ["write:cloud", "write:vm"], ["write:vm:{vm_id}"], ["vm_id"],
    WRITE, "Restart selected virtual machine", Medium, Some("cloud-mcp"))

  const UPDATE_IAM_BINDING := ToolSpec(
    ["admin:cloud", "admin:iam"], ["admin:iam:{principal_id}"], ["principal_id"],
    ADMIN, "Update IAM binding for selected principal", High, Some("cloud-mcp"))

  // The catalog; a tool is read-only exactly when its blast radius is small.
  function Catalog(tool: string): (spec: Option<ToolSpec>)
    ensures spec.Some? ==> (spec.value.op == READ <==>
      spec.value.blastRadius == Nothing || spec.value.blastRadius == Low)
  {
    if tool == "get_identity_profile" then Some(GET_IDENTITY_PROFILE)
    else if tool == "get_developer_app" then Some(GET_DEVELOPER_APP)
    else if tool == "get_account_balance" then Some(GET_ACCOUNT_BALANCE)
    else if tool == "propose_workflow_plan" then Some(PROPOSE_WORKFLOW_PLAN)
    else if tool == "inspect_dns_record" then Some(INSPECT_DNS_RECORD)
    else if tool == "update_firewall_rule" then Some(UPDATE_FIREWALL_RULE)
    else if tool == "rotate_vpn_credential" then Some(ROTATE_VPN_CREDENTIAL)
    else if tool == "inspect_vm" then Some(INSPECT_VM)
    else if tool == "restart_vm" then Some(RESTART_VM)
    else if tool == "update_iam_binding" then Some(UPDATE_IAM_BINDING)
    else None
  }

  function TemplateRequirements(spec: ToolSpec): seq<ScopeRequirement> {
    seq(|spec.workflowScopes|, i requires 0 <= i < |spec.workflowScopes| =>
      ScopeRequirement(spec.workflowScopes[i], spec.scopeArgs))
  }

  function StrippedScopes(issued: seq<string>): set<string> {
    set s | s in issued && Strip(s) != "" :: Strip(s)
  }

  // `select_auth0_scopes_for_tool`.
  function SelectScopes(spec: ToolSpec, issued: seq<string>): seq<string> {
    var normalized := StrippedScopes(issued);
    var preferred := set c | c in spec.auth0Candidates && c in normalized;
    if preferred != {} then Sorted(preferred) else Sorted(normalized)
  }

  // `scope_requirements_for_auth0_token`.
  function TokenRequirements(spec: ToolSpec, issued: seq<string>): seq<ScopeRequirement> {
    var selected := SelectScopes(spec, issued);
    if (exists s <- selected :: s in spec.auth0Candidates) && spec.scopeArgs != [] then TemplateRequirements(spec)
    else seq(|selected|, i requires 0 <= i < |selected| => ScopeRequirement(selected[i], []))
  }

  function RequirementsFor(spec: ToolSpec, tokenScopes: seq<string>): seq<ScopeRequirement> {
    if tokenScopes != [] then TokenRequirements(spec, tokenScopes) else TemplateRequirements(spec)
  }

  // Only issued scopes are selected; the tool's own candidates as soon as one was issued, and
  // then all that were, else everything issued.
  // An issued scope, without the space around it.
  ghost predicate WasIssued(issued: seq<string>, scope: string) {
    scope != "" && exists s :: s in issued && IsStripOf(scope, s)
  }

  lemma StrippedWereIssued(issued: seq<string>, scope: string)
    ensures scope in StrippedScopes(issued) <==> WasIssued(issued, scope)
  {
    hide Strip, IsStripOf;
    forall s | s in issued ensures Strip(s) == scope <==> IsStripOf(scope, s) {
      StripIsExact(s, scope);
    }
  }

  lemma SelectedScopesWereIssued(spec: ToolSpec, issued: seq<string>, scope: string)
    ensures scope in SelectScopes(spec, issued) <==>
      scope in StrippedScopes(issued) &&
      ((exists c <- spec.auth0Candidates :: c in StrippedScopes(issued)) ==> scope in spec.auth0Candidates)
    ensures forall s :: s in StrippedScopes(issued) <==> WasIssued(issued, s)
  {
    forall s ensures s in StrippedScopes(issued) <==> WasIssued(issued, s) {
      StrippedWereIssued(issued, s);
    }
    hide StrippedScopes, WasIssued;
    var normalized := StrippedScopes(issued);
    var preferred := set c | c in spec.auth0Candidates && c in normalized;
    if preferred != {} {
      var c :| c in preferred;
      assert c in spec.auth0Candidates && c in normalized;
    } else {
      forall c <- spec.auth0Candidates ensures c !in normalized {
        assert c !in preferred;
      }
    }
  }

  predicate CandidateWasIssued(spec: ToolSpec, tokenScopes: seq<string>) {
    exists c <- spec.auth0Candidates :: c in StrippedScopes(tokenScopes)
  }

  // Without token scopes, and when a candidate of a tool that takes scope arguments was issued,
  // the tool's own templates count; else the issued scopes as they are.
  predicate UsesTemplates(spec: ToolSpec, tokenScopes: seq<string>) {
    tokenScopes == [] || (CandidateWasIssued(spec, tokenScopes) && spec.scopeArgs != [])
  }

  // The templates that a call of the tool has to fill.
  predicate NeedsTemplate(spec: ToolSpec, tokenScopes: seq<string>, template: string) {
    if UsesTemplates(spec, tokenScopes) then template in spec.workflowScopes
    else
      template in StrippedScopes(tokenScopes) &&
      (CandidateWasIssued(spec, tokenScopes) ==> template in spec.auth0Candidates)
  }

  lemma RequirementsAreExact(spec: ToolSpec, tokenScopes: seq<string>, template: string, scopeArgs: seq<string>)
    ensures ScopeRequirement(template, scopeArgs) in RequirementsFor(spec, tokenScopes) <==>
      NeedsTemplate(spec, tokenScopes, template) &&
      scopeArgs == if UsesTemplates(spec, tokenScopes) then spec.scopeArgs else []
  {
    var requirement := ScopeRequirement(template, scopeArgs);
    var selected := SelectScopes(spec, tokenScopes);
    SelectedScopesWereIssued(spec, tokenScopes, template);
    PreferredWereSelected(spec, tokenScopes);
    hide SelectScopes, StrippedScopes;
    var own := TemplateRequirements(spec);
    if template in spec.workflowScopes {
      var i :| 0 <= i < |spec.workflowScopes| && spec.workflowScopes[i] == template;
      assert own[i] == ScopeRequirement(template, spec.scopeArgs);
    }
    if template in selected {
      var i :| 0 <= i < |selected| && selected[i] == template;
      var issued := seq(|selected|, i requires 0 <= i < |selected| => ScopeRequirement(selected[i], []));
      assert issued[i] == ScopeRequirement(template, []);
    }
  }

  lemma PreferredWereSelected(spec: ToolSpec, issued: seq<string>)
    ensures (exists s <- SelectScopes(spec, issued) :: s in spec.auth0Candidates) <==> CandidateWasIssued(spec, issued)
  {
    if s :| s in SelectScopes(spec, issued) && s in spec.auth0Candidates {
      SelectedScopesWereIssued(spec, issued, s);
    }
    if c :| c in spec.auth0Candidates && c in StrippedScopes(issued) {
      SelectedScopesWereIssued(spec, issued, c);
    }
  }

  // ---- What the table says of a tool ----

  function OperationWord(op: Operation): string {
    match op case READ => "read" case WRITE => "write" case ADMIN => "admin"
  }

  // The scope of a call: the word for its operation, what it is about, and the one argument that
  // says which.
  predicate IsScopeOf(spec: ToolSpec, about: string) {
    |spec.scopeArgs| == 1 && about != "" &&
    spec.workflowScopes == [OperationWord(spec.op) + ":" + about + ":{" + spec.scopeArgs[0] + "}"]
  }

  // The server of a tool is the one for the domain that its first candidate scope names.
  predicate GoesToItsDomain(spec: ToolSpec, domain: string) {
    spec.downstreamAudience == Some(domain + "-mcp") && |spec.auth0Candidates| > 0 &&
    spec.auth0Candidates[0] == OperationWord(spec.op) + ":" + domain
  }

  ghost predicate IsConsistent(spec: ToolSpec) {
    && (exists about :: IsScopeOf(spec, about))
    && (spec.op != READ ==> spec.downstreamAudience.Some?)
    && (spec.downstreamAudience.Some? ==> exists domain :: GoesToItsDomain(spec, domain))
  }

  lemma ConsistentFor(spec: ToolSpec, about: string, domain: Option<string>, scope: string, candidate: string)
    requires |spec.scopeArgs| == 1 && about != "" && spec.workflowScopes == [scope] && |spec.auth0Candidates| > 0
    requires scope == OperationWord(spec.op) + ":" + about + ":{" + spec.scopeArgs[0] + "}"
    requires domain.Some? ==>
      spec.auth0Candidates[0] == candidate == OperationWord(spec.op) + ":" + domain.value &&
      spec.downstreamAudience == Some(domain.value + "-mcp")
    requires domain.None? ==> spec.downstreamAudience == None && spec.op == READ
    ensures IsConsistent(spec)
  {
    assert IsScopeOf(spec, about);
    assert domain.Some? ==> GoesToItsDomain(spec, domain.value);
  }

  lemma GetIdentityProfileIsConsistent()
    ensures IsConsistent(GET_IDENTITY_PROFILE)
  {
    hide IsConsistent;
    assert "read:user:{subject_user_id}" == "read" + ":" + "user" + ":{" + "subject_user_id" + "}";
    ConsistentFor(GET_IDENTITY_PROFILE, "user", None, "read:user:{subject_user_id}", "");
  }

  lemma GetDeveloperAppIsConsistent()
    ensures IsConsistent(GET_DEVELOPER_APP)
  {
    hide IsConsistent;
    assert "read:client:{appid}" == "read" + ":" + "client" + ":{" + "appid" + "}";
    ConsistentFor(GET_DEVELOPER_APP, "client", None, "read:client:{appid}", "");
  }

  lemma GetAccountBalanceIsConsistent()
    ensures IsConsistent(GET_ACCOUNT_BALANCE)
  {
    hide IsConsistent;
    assert "read:account:{account_id}" == "read" + ":" + "account" + ":{" + "account_id" + "}";
    ConsistentFor(GET_ACCOUNT_BALANCE, "account", None, "read:account:{account_id}", "");
  }

  lemma InspectDnsRecordIsConsistent()
    ensures IsConsistent(INSPECT_DNS_RECORD)
  {
    hide IsConsistent;
    assert "read:dns:{record_name}" == "read" + ":" + "dns" + ":{" + "record_name" + "}";
    assert "read:network" == "read" + ":" + "network" && "network-mcp" == "network" + "-mcp";
    ConsistentFor(INSPECT_DNS_RECORD, "dns", Some("network"), "read:dns:{record_name}", "read:network");
  }

  lemma UpdateFirewallRuleIsConsistent()
    ensures IsConsistent(UPDATE_FIREWALL_RULE)
  {
    hide IsConsistent;
    assert "write:firewall:{rule_id}" == "write" + ":" + "firewall" + ":{" + "rule_id" + "}";
    assert "write:network" == "write" + ":" + "network" && "network-mcp" == "network" + "-mcp";
    ConsistentFor(UPDATE_FIREWALL_RULE, "firewall", Some("network"), "write:firewall:{rule_id}", "write:network");
  }

  lemma RotateVpnCredentialIsConsistent()
    ensures IsConsistent(ROTATE_VPN_CREDENTIAL)
  {
    hide IsConsistent;
    assert "admin:vpn:{credential_id}" == "admin" + ":" + "vpn" + ":{" + "credential_id" + "}";
    assert "admin:network" == "admin" + ":" + "network" && "network-mcp" == "network" + "-mcp";
    ConsistentFor(ROTATE_VPN_CREDENTIAL, "vpn", Some("network"), "admin:vpn:{credential_id}", "admin:network");
  }

  lemma InspectVmIsConsistent()
    ensures IsConsistent(INSPECT_VM)
  {
    hide IsConsistent;
    assert "read:vm:{vm_id}" == "read" + ":" + "vm" + ":{" + "vm_id" + "}";
    assert "read:cloud" == "read" + ":" + "cloud" && "cloud-mcp" == "cloud" + "-mcp";
    ConsistentFor(INSPECT_VM, "vm", Some("cloud"), "read:vm:{vm_id}", "read:cloud");
  }

  lemma RestartVmIsConsistent()
    ensures IsConsistent(RESTART_VM)
  {
    hide IsConsistent;
    assert "write:vm:{vm_id}" == "write" + ":" + "vm" + ":{" + "vm_id" + "}";
    assert "write:cloud" == "write" + ":" + "cloud" && "cloud-mcp" == "cloud" + "-mcp";
    ConsistentFor(RESTART_VM, "vm", Some("cloud"), "write:vm:{vm_id}", "write:cloud");
  }

  lemma UpdateIamBindingIsConsistent()
    ensures IsConsistent(UPDATE_IAM_BINDING)
  {
    hide IsConsistent;
    assert "admin:iam:{principal_id}" == "admin" + ":" + "iam" + ":{" + "principal_id" + "}";
    assert "admin:cloud" == "admin" + ":" + "cloud" && "cloud-mcp" == "cloud" + "-mcp";
    ConsistentFor(UPDATE_IAM_BINDING, "iam", Some("cloud"), "admin:iam:{principal_id}", "admin:cloud");
  }

  // Every tool but the one that plans has one scope, for its operation and its one argument, and
  // the server for its domain; the one that plans needs no argument and goes nowhere.
  lemma CatalogIsConsistent(tool: string)
    requires Catalog(tool).Some?
    ensures tool != "propose_workflow_plan" ==> IsConsistent(Catalog(tool).value)
    ensures tool == "propose_workflow_plan" ==>
      var spec := Catalog(tool).value;
      spec.scopeArgs == [] && spec.workflowScopes == ["plan:workflow"] && spec.downstreamAudience == None &&
      spec.op == READ
  {
    GetIdentityProfileIsConsistent();
    GetDeveloperAppIsConsistent();
    GetAccountBalanceIsConsistent();
    InspectDnsRecordIsConsistent();
    UpdateFirewallRuleIsConsistent();
    RotateVpnCredentialIsConsistent();
    InspectVmIsConsistent();
    RestartVmIsConsistent();
    UpdateIamBindingIsConsistent();
    hide GET_IDENTITY_PROFILE, GET_DEVELOPER_APP, GET_ACCOUNT_BALANCE, INSPECT_DNS_RECORD, UPDATE_FIREWALL_RULE,
         ROTATE_VPN_CREDENTIAL, INSPECT_VM, RESTART_VM, UPDATE_IAM_BINDING, IsConsistent;
    PlannerIs(tool);
  }

  lemma PlannerIs(tool: string)
    ensures tool == "propose_workflow_plan" ==> Catalog(tool) == Some(PROPOSE_WORKFLOW_PLAN)
  {
    assert "propose_workflow_plan"[0] == 'p' && "get_identity_profile"[0] == 'g' && "get_developer_app"[0] == 'g' &&
      "get_account_balance"[0] == 'g';
  }

  predicate BeginsWithText(scope: string) {
    scope != "" && scope[0] != '{'
  }

  predicate ScopesBeginWithText(spec: ToolSpec) {
    && (forall i :: 0 <= i < |spec.auth0Candidates| ==> BeginsWithText(spec.auth0Candidates[i]))
    && (forall i :: 0 <= i < |spec.workflowScopes| ==> BeginsWithText(spec.workflowScopes[i]))
  }

  lemma BusinessScopesBeginWithText()
    ensures ScopesBeginWithText(GET_IDENTITY_PROFILE)
    ensures ScopesBeginWithText(GET_DEVELOPER_APP)
    ensures ScopesBeginWithText(GET_ACCOUNT_BALANCE)
    ensures ScopesBeginWithText(PROPOSE_WORKFLOW_PLAN)
  {
  }

  lemma NetworkScopesBeginWithText()
    ensures ScopesBeginWithText(INSPECT_DNS_RECORD)
    ensures ScopesBeginWithText(UPDATE_FIREWALL_RULE)
    ensures ScopesBeginWithText(ROTATE_VPN_CREDENTIAL)
  {
  }

  lemma CloudScopesBeginWithText()
    ensures ScopesBeginWithText(INSPECT_VM)
    ensures ScopesBeginWithText(RESTART_VM)
    ensures ScopesBeginWithText(UPDATE_IAM_BINDING)
  {
  }

  // No scope of the catalog begins with a field.
  lemma CatalogScopesBeginWithText(tool: string)
    requires Catalog(tool).Some?
    ensures forall scope <- Catalog(tool).value.auth0Candidates :: BeginsWithText(scope)
    ensures forall scope <- Catalog(tool).value.workflowScopes :: BeginsWithText(scope)
  {
    BusinessScopesBeginWithText();
    NetworkScopesBeginWithText();
    CloudScopesBeginWithText();
    hide GET_IDENTITY_PROFILE, GET_DEVELOPER_APP, GET_ACCOUNT_BALANCE, PROPOSE_WORKFLOW_PLAN, INSPECT_DNS_RECORD,
         UPDATE_FIREWALL_RULE, ROTATE_VPN_CREDENTIAL, INSPECT_VM, RESTART_VM, UPDATE_IAM_BINDING, BeginsWithText;
    assert ScopesBeginWithText(Catalog(tool).value);
  }
}
