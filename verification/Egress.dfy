// The egress gateway: which outbound calls it lets through.
module Egress {
  import opened Wrappers
  import opened Text
  import opened Json
  import opened Models
  import opened ToolCatalog
  import opened InternalAuth
  import opened Equality
  import Hashing

  datatype EgressRequest = EgressRequest(
    primitive: string,
    verb: string,
    targetMcp: string,
    toolName: string,
    arguments: map<string, Json>,
    workflowId: string,
    approvalId: Option<string>,
    oboTokenRef: Option<string>,
    executionGrant: Option<ExecutionGrant>,
    grantSignature: Option<string>,
    tokenScopes: seq<string>,
    tokenAudience: Option<string>,
    accessToken: Option<string>)

  datatype Outbound = Outbound(
    verb: string, targetMcp: string, toolName: string, headers: map<string, string>, arguments: map<string, Json>)

  // The secret the services share, the digest they use, how they write times, and what the
  // numerals are worth.
  datatype Keys = Keys(secret: string, hmac: Hmac, show: Hashing.TimeFormat, value: Valuation)

  datatype EgressError =
    | UnknownTool
    | WrongTarget
    | AccessTokenRequired
    | GrantRequired
    | SignatureRequired
    | GrantSecretRequired
    | InvalidGrantSignature
    | GrantExpired
    | RequestMismatch(fields: seq<string>)
    | ContextMismatch(fields: seq<string>)
    | MissingScopes
    | AudienceRequired
    | AudienceMismatch

  // ---- Grants ----

  function SignGrant(g: ExecutionGrant, keys: Keys): Result<string, EgressError> {
    if keys.secret == "" then Err(GrantSecretRequired)
      else Ok(keys.hmac(keys.secret, Hashing.CanonicalGrant(g, keys.show)))
  }

  function VerifyGrant(g: ExecutionGrant, signature: Option<string>, keys: Keys): Option<EgressError> {
    if !Truthy(signature) then Some(SignatureRequired)
    else
      match SignGrant(g, keys)
      case Err(e) => Some(e)
      case Ok(expected) => if signature.value == expected then None else Some(InvalidGrantSignature)
  }

  // The names of the fields that differ.
  function Differing(fields: seq<(string, bool)>): (names: seq<string>)
    ensures names == [] <==> forall i :: 0 <= i < |fields| ==> fields[i].1
  {
    if fields == [] then []
    else (if fields[0].1 then [] else [fields[0].0]) + Differing(fields[1..])
  }

  // `==` on the two dicts of arguments.
  predicate AgreeOn(p: EgressRequest, g: ExecutionGrant, value: Valuation) {
    AreEqual(Obj(g.arguments), Obj(p.arguments), value)
  }

  function RequestDifferences(p: EgressRequest, g: ExecutionGrant, value: Valuation): seq<string> {
    Differing([
      ("approval_id", p.approvalId == Some(g.approvalId)), ("arguments", AgreeOn(p, g, value)),
      ("method", p.verb == g.verb), ("primitive", p.primitive == g.primitive),
      ("target_mcp", p.targetMcp == g.targetMcp), ("tool_name", p.toolName == g.toolName),
      ("workflow_id", p.workflowId == g.workflowId)])
  }

  function ContextDifferences(g: ExecutionGrant, c: TrustedSessionContext): seq<string> {
    Differing([("session_id", g.sessionId == c.sessionId), ("tenant_id", g.tenantId == c.tenantId),
               ("user_id", g.userId == c.userId)])
  }

  // `_assert_grant_matches_request`; None when nothing is raised.
  function CheckGrant(p: EgressRequest, g: ExecutionGrant, c: TrustedSessionContext, now: Time, value: Valuation)
    : Option<EgressError>
  {
    if g.expiresAt.Some? && g.expiresAt.value <= now then Some(GrantExpired)
    else if RequestDifferences(p, g, value) != [] then Some(RequestMismatch(RequestDifferences(p, g, value)))
    else if ContextDifferences(g, c) != [] then Some(ContextMismatch(ContextDifferences(g, c)))
    else if !(Elements(g.requiredScopes) <= Elements(p.tokenScopes)) then Some(MissingScopes)
    else if !Truthy(g.audience) then Some(AudienceRequired)
    else if p.tokenAudience != g.audience then Some(AudienceMismatch)
    else None
  }

  // `_authorize_execution`.
  function Authorize(p: EgressRequest, c: TrustedSessionContext, now: Time, keys: Keys): Option<EgressError> {
    if !Truthy(p.accessToken) then Some(AccessTokenRequired)
    else if p.executionGrant.None? then Some(GrantRequired)
    else
      match VerifyGrant(p.executionGrant.value, p.grantSignature, keys)
      case Some(e) => Some(e)
      case None => CheckGrant(p, p.executionGrant.value, c, now, keys.value)
  }

  predicate IsReadBoundary(primitive: string, verb: string) {
    primitive == "DISCOVERY" || primitive == "READ" || verb == "GET"
  }

  function Headers(p: EgressRequest): map<string, string> {
    (if IsReadBoundary(p.primitive, p.verb) && Truthy(p.oboTokenRef) then map["X-AuthN-Context" := "[REDACTED]"]
      else map[])
    ["Authorization" := "[REDACTED]"]
  }

  function Derive(p: EgressRequest, c: TrustedSessionContext, now: Time, keys: Keys): Result<Outbound, EgressError> {
    match Catalog(p.toolName)
    case None => Err(UnknownTool)
    case Some(spec) =>
      if Truthy(spec.downstreamAudience) && p.targetMcp != spec.downstreamAudience.value then Err(WrongTarget)
      else
        match Authorize(p, c, now, keys)
        case Some(e) => Err(e)
        case None => Ok(Outbound(p.verb, p.targetMcp, p.toolName, Headers(p), p.arguments))
  }

  // The digest of the grant's text under the secret.
  predicate IsSignatureOf(g: ExecutionGrant, signature: string, keys: Keys) {
    keys.secret != "" && signature == keys.hmac(keys.secret, Hashing.CanonicalGrant(g, keys.show))
  }

  // What it takes to get out: a signed, unexpired grant for this call, user, session and tenant,
  // with equal arguments, whose scopes and audience the presented token has.
  predicate IsCovered(p: EgressRequest, c: TrustedSessionContext, now: Time, keys: Keys) {
    && Catalog(p.toolName).Some?
    && (Truthy(Catalog(p.toolName).value.downstreamAudience) ==>
         Catalog(p.toolName).value.downstreamAudience == Some(p.targetMcp))
    && Truthy(p.accessToken) && p.executionGrant.Some? && Truthy(p.grantSignature)
    && var g := p.executionGrant.value;
    && IsSignatureOf(g, p.grantSignature.value, keys)
    && (g.expiresAt.Some? ==> now < g.expiresAt.value)
    && p.approvalId == Some(g.approvalId) && p.workflowId == g.workflowId
    && p.toolName == g.toolName && AgreeOn(p, g, keys.value) && p.targetMcp == g.targetMcp
    && p.verb == g.verb && p.primitive == g.primitive
    && c.userId == g.userId && c.sessionId == g.sessionId && c.tenantId == g.tenantId
    && (forall scope <- g.requiredScopes :: scope in p.tokenScopes)
    && Truthy(g.audience) && p.tokenAudience == g.audience
  }

  lemma DifferingNothing(p: EgressRequest, g: ExecutionGrant, c: TrustedSessionContext, value: Valuation)
    ensures RequestDifferences(p, g, value) == [] <==>
      p.approvalId == Some(g.approvalId) && p.workflowId == g.workflowId && p.toolName == g.toolName &&
      AgreeOn(p, g, value) && p.targetMcp == g.targetMcp && p.verb == g.verb && p.primitive == g.primitive
    ensures ContextDifferences(g, c) == [] <==>
      c.userId == g.userId && c.sessionId == g.sessionId && c.tenantId == g.tenantId
  {
    var r := [
      ("approval_id", p.approvalId == Some(g.approvalId)), ("arguments", AgreeOn(p, g, value)),
      ("method", p.verb == g.verb), ("primitive", p.primitive == g.primitive),
      ("target_mcp", p.targetMcp == g.targetMcp), ("tool_name", p.toolName == g.toolName),
      ("workflow_id", p.workflowId == g.workflowId)];
    hide Differing, AgreeOn;
    assert (forall i :: 0 <= i < |r| ==> r[i].1) <==>
      r[0].1 && r[1].1 && r[2].1 && r[3].1 && r[4].1 && r[5].1 && r[6].1;
    var d := [("session_id", g.sessionId == c.sessionId), ("tenant_id", g.tenantId == c.tenantId),
              ("user_id", g.userId == c.userId)];
    assert (forall i :: 0 <= i < |d| ==> d[i].1) <==> d[0].1 && d[1].1 && d[2].1;
  }

  // The headers that go out: one, and a second for a read on behalf of a user, both redacted.
  ghost predicate AreOutboundHeaders(headers: map<string, string>, p: EgressRequest) {
    && (forall name <- headers :: headers[name] == "[REDACTED]")
    && (forall name :: name in headers <==>
          name == "Authorization" ||
          (name == "X-AuthN-Context" && (p.primitive == "DISCOVERY" || p.primitive == "READ" || p.verb == "GET") &&
           p.oboTokenRef.Some? && p.oboTokenRef.value != ""))
  }

  lemma HeadersAreExact(p: EgressRequest)
    ensures AreOutboundHeaders(Headers(p), p)
  {
    assert "Authorization"[0] == 'A' && "X-AuthN-Context"[0] == 'X';
  }

  // The checks, in whatever order they are made, let exactly the covered calls out, unchanged.
  lemma OnlyCoveredCallsGetOut(p: EgressRequest, c: TrustedSessionContext, now: Time, keys: Keys)
    ensures Derive(p, c, now, keys).Ok? <==> IsCovered(p, c, now, keys)
    ensures Derive(p, c, now, keys).Ok? ==>
      var out := Derive(p, c, now, keys).value;
      out.verb == p.verb && out.targetMcp == p.targetMcp && out.toolName == p.toolName &&
        out.arguments == p.arguments && AreOutboundHeaders(out.headers, p)
  {
    HeadersAreExact(p);
    hide Catalog, RequestDifferences, ContextDifferences, AgreeOn, Hashing.CanonicalGrant, AreOutboundHeaders, Headers;
    if p.executionGrant.Some? {
      var needed, granted := p.executionGrant.value.requiredScopes, p.tokenScopes;
      DifferingNothing(p, p.executionGrant.value, c, keys.value);
      assert forall scope :: scope in needed <==> scope in Elements(needed);
      assert forall scope :: scope in granted <==> scope in Elements(granted);
    }
  }

  // The first of the checks that a call does not pass, by the reason that is given.
  ghost predicate IsRefusedFor(p: EgressRequest, c: TrustedSessionContext, now: Time, keys: Keys, e: EgressError) {
    var spec := Catalog(p.toolName);
    var atTarget := spec.Some? && (Truthy(spec.value.downstreamAudience) ==>
      spec.value.downstreamAudience == Some(p.targetMcp));
    var presented := atTarget && Truthy(p.accessToken) && p.executionGrant.Some? && Truthy(p.grantSignature);
    match e
    case UnknownTool => spec == None
    case WrongTarget => spec.Some? && !atTarget
    case AccessTokenRequired => atTarget && !Truthy(p.accessToken)
    case GrantRequired => atTarget && Truthy(p.accessToken) && p.executionGrant == None
    case SignatureRequired => atTarget && Truthy(p.accessToken) && p.executionGrant.Some? && !Truthy(p.grantSignature)
    case GrantSecretRequired => presented && keys.secret == ""
    case InvalidGrantSignature =>
      presented && keys.secret != "" && !IsSignatureOf(p.executionGrant.value, p.grantSignature.value, keys)
    case _ =>
      presented && IsSignatureOf(p.executionGrant.value, p.grantSignature.value, keys) &&
      IsMismatch(p, p.executionGrant.value, c, now, keys.value, e)
  }

  // Names the fields of the request that differ from the grant, in alphabetical order.
  ghost predicate NamesDifferences(p: EgressRequest, g: ExecutionGrant, value: Valuation, names: seq<string>) {
    Increasing(names) &&
    forall name :: name in names <==>
      (name == "approval_id" && p.approvalId != Some(g.approvalId)) || (name == "arguments" && !AgreeOn(p, g, value)) ||
      (name == "method" && p.verb != g.verb) || (name == "primitive" && p.primitive != g.primitive) ||
      (name == "target_mcp" && p.targetMcp != g.targetMcp) || (name == "tool_name" && p.toolName != g.toolName) ||
      (name == "workflow_id" && p.workflowId != g.workflowId)
  }

  ghost predicate NamesContextDifferences(g: ExecutionGrant, c: TrustedSessionContext, names: seq<string>) {
    Increasing(names) &&
    forall name :: name in names <==>
      (name == "session_id" && g.sessionId != c.sessionId) || (name == "tenant_id" && g.tenantId != c.tenantId) ||
      (name == "user_id" && g.userId != c.userId)
  }

  ghost predicate IsMismatch(p: EgressRequest, g: ExecutionGrant, c: TrustedSessionContext, now: Time, value: Valuation,
                             e: EgressError) {
    var live := g.expiresAt.Some? ==> now < g.expiresAt.value;
    var same := live && NamesDifferences(p, g, value, []);
    var own := same && NamesContextDifferences(g, c, []);
    var scoped := own && forall scope <- g.requiredScopes :: scope in p.tokenScopes;
    match e
    case GrantExpired => !live
    case RequestMismatch(names) => live && names != [] && NamesDifferences(p, g, value, names)
    case ContextMismatch(names) => same && names != [] && NamesContextDifferences(g, c, names)
    case MissingScopes => own && !scoped
    case AudienceRequired => scoped && !Truthy(g.audience)
    case AudienceMismatch => scoped && Truthy(g.audience) && p.tokenAudience != g.audience
    case _ => false
  }

  lemma {:induction false} DifferingNames(fields: seq<(string, bool)>, name: string)
    requires forall i, j :: 0 <= i < j < |fields| ==> Less(fields[i].0, fields[j].0)
    ensures name in Differing(fields) <==> exists i :: 0 <= i < |fields| && fields[i] == (name, false)
    ensures Increasing(Differing(fields))
  {
    if fields != [] {
      var rest := fields[1..];
      DifferingNames(rest, name);
      forall k | k in Differing(rest) ensures Less(fields[0].0, k) {
        DifferingNames(rest, k);
        var i :| 0 <= i < |rest| && rest[i] == (k, false);
        assert fields[i + 1] == rest[i];
      }
      if i :| 0 <= i < |rest| && rest[i] == (name, false) {
        assert fields[i + 1] == (name, false);
      }
      if i :| 0 <= i < |fields| && fields[i] == (name, false) {
        assert i > 0 ==> rest[i - 1] == (name, false);
      }
    }
  }

  lemma SameNames(a: seq<string>, b: seq<string>)
    requires Increasing(a) && Increasing(b) && forall name :: name in a <==> name in b
    ensures a == b
  {
    SortedElements(a);
    SortedElements(b);
    assert Elements(a) == Elements(b);
  }

  // Three fields by name.
  lemma ThreeDiffer(a: string, x: bool, b: string, y: bool, c: string, z: bool, name: string)
    requires Less(a, b) && Less(b, c) && Less(a, c)
    ensures name in Differing([(a, x), (b, y), (c, z)]) <==>
      (name == a && !x) || (name == b && !y) || (name == c && !z)
    ensures Increasing(Differing([(a, x), (b, y), (c, z)]))
  {
    var fields := [(a, x), (b, y), (c, z)];
    forall i, j | 0 <= i < j < |fields| ensures Less(fields[i].0, fields[j].0) {
    }
    DifferingNames(fields, name);
    hide Differing, Less;
    if i :| 0 <= i < |fields| && fields[i] == (name, false) {
      assert i == 0 || i == 1 || i == 2;
    }
    assert fields[0] == (a, x) && fields[1] == (b, y) && fields[2] == (c, z);
  }

  // Seven fields by name.
  lemma SevenDiffer(n: seq<string>, same: seq<bool>, name: string)
    requires |n| == |same| == 7 && Increasing(n)
    ensures var names := Differing([(n[0], same[0]), (n[1], same[1]), (n[2], same[2]), (n[3], same[3]),
        (n[4], same[4]), (n[5], same[5]), (n[6], same[6])]);
      && Increasing(names)
      && (name in names <==>
           (name == n[0] && !same[0]) || (name == n[1] && !same[1]) || (name == n[2] && !same[2]) ||
           (name == n[3] && !same[3]) || (name == n[4] && !same[4]) || (name == n[5] && !same[5]) ||
           (name == n[6] && !same[6]))
  {
    hide Less, Differing;
    var fields := [(n[0], same[0]), (n[1], same[1]), (n[2], same[2]), (n[3], same[3]), (n[4], same[4]),
      (n[5], same[5]), (n[6], same[6])];
    forall i | 0 <= i < 7 ensures fields[i] == (n[i], same[i]) {
    }
    DifferingNames(fields, name);
    if i :| 0 <= i < 7 && fields[i] == (name, false) {
      assert i == 0 || i == 1 || i == 2 || i == 3 || i == 4 || i == 5 || i == 6;
    }
  }

  lemma RequestDifferencesAreNamed(p: EgressRequest, g: ExecutionGrant, value: Valuation)
    ensures NamesDifferences(p, g, value, RequestDifferences(p, g, value))
  {
    FieldNamesAscend();
    var n := ["approval_id", "arguments", "method", "primitive", "target_mcp", "tool_name", "workflow_id"];
    var same := [p.approvalId == Some(g.approvalId), AgreeOn(p, g, value), p.verb == g.verb,
      p.primitive == g.primitive, p.targetMcp == g.targetMcp, p.toolName == g.toolName, p.workflowId == g.workflowId];
    hide Differing, Less, AgreeOn;
    assert Increasing(n);
    forall name
      ensures name in RequestDifferences(p, g, value) <==>
        (name == n[0] && !same[0]) || (name == n[1] && !same[1]) || (name == n[2] && !same[2]) ||
        (name == n[3] && !same[3]) || (name == n[4] && !same[4]) || (name == n[5] && !same[5]) ||
        (name == n[6] && !same[6])
    {
      SevenDiffer(n, same, name);
    }
    SevenDiffer(n, same, "");
    hide RequestDifferences;
  }

  lemma ContextDifferencesAreNamed(g: ExecutionGrant, c: TrustedSessionContext)
    ensures NamesContextDifferences(g, c, ContextDifferences(g, c))
  {
    FieldNamesAscend();
    hide Differing, Less;
    forall name
      ensures name in ContextDifferences(g, c) <==>
        (name == "session_id" && g.sessionId != c.sessionId) || (name == "tenant_id" && g.tenantId != c.tenantId) ||
        (name == "user_id" && g.userId != c.userId)
    {
      ThreeDiffer("session_id", g.sessionId == c.sessionId, "tenant_id", g.tenantId == c.tenantId, "user_id",
                  g.userId == c.userId, name);
    }
    ThreeDiffer("session_id", g.sessionId == c.sessionId, "tenant_id", g.tenantId == c.tenantId, "user_id",
                g.userId == c.userId, "");
  }

  lemma FirstLetterDecides(a: string, b: string)
    requires a != "" && b != "" && a[0] < b[0]
    ensures Less(a, b)
  {
  }

  lemma FieldNamesAscend()
    ensures Less("approval_id", "arguments") && Less("arguments", "method") && Less("method", "primitive")
    ensures Less("primitive", "target_mcp") && Less("target_mcp", "tool_name") && Less("tool_name", "workflow_id")
    ensures Less("session_id", "tenant_id") && Less("tenant_id", "user_id") && Less("session_id", "user_id")
    ensures Less("approval_id", "method") && Less("approval_id", "primitive") && Less("approval_id", "target_mcp")
    ensures Less("approval_id", "tool_name") && Less("approval_id", "workflow_id")
    ensures Less("arguments", "primitive") && Less("arguments", "target_mcp") && Less("arguments", "tool_name")
    ensures Less("arguments", "workflow_id") && Less("method", "target_mcp") && Less("method", "tool_name")
    ensures Less("method", "workflow_id") && Less("primitive", "tool_name") && Less("primitive", "workflow_id")
    ensures Less("target_mcp", "workflow_id")
  {
    assert "approval_id"[1..] == "pproval_id" && "arguments"[1..] == "rguments";
    FirstLetterDecides("pproval_id", "rguments");
    assert "target_mcp"[1..] == "arget_mcp" && "tool_name"[1..] == "ool_name";
    FirstLetterDecides("arget_mcp", "ool_name");
  }

  lemma MismatchIsExact(p: EgressRequest, g: ExecutionGrant, c: TrustedSessionContext, now: Time, value: Valuation,
                        e: EgressError)
    ensures CheckGrant(p, g, c, now, value) == Some(e) <==> IsMismatch(p, g, c, now, value, e)
  {
    RequestDifferencesAreNamed(p, g, value);
    ContextDifferencesAreNamed(g, c);
    hide RequestDifferences, ContextDifferences, NamesDifferences, NamesContextDifferences;
    forall names | NamesDifferences(p, g, value, names) ensures names == RequestDifferences(p, g, value) {
      DifferencesAreUnique(p, g, value, names, RequestDifferences(p, g, value));
    }
    forall names | NamesContextDifferences(g, c, names) ensures names == ContextDifferences(g, c) {
      ContextDifferencesAreUnique(g, c, names, ContextDifferences(g, c));
    }
    assert (forall scope <- g.requiredScopes :: scope in p.tokenScopes) <==>
      Elements(g.requiredScopes) <= Elements(p.tokenScopes) by {
      forall scope ensures scope in g.requiredScopes <==> scope in Elements(g.requiredScopes) {
      }
      forall scope ensures scope in p.tokenScopes <==> scope in Elements(p.tokenScopes) {
      }
    }
  }

  lemma DifferencesAreUnique(p: EgressRequest, g: ExecutionGrant, value: Valuation, a: seq<string>, b: seq<string>)
    requires NamesDifferences(p, g, value, a) && NamesDifferences(p, g, value, b)
    ensures a == b
  {
    hide AgreeOn;
    SameNames(a, b);
  }

  lemma ContextDifferencesAreUnique(g: ExecutionGrant, c: TrustedSessionContext, a: seq<string>, b: seq<string>)
    requires NamesContextDifferences(g, c, a) && NamesContextDifferences(g, c, b)
    ensures a == b
  {
    SameNames(a, b);
  }

  // Each refusal is given exactly for the first check that is not passed.
  lemma RefusalIsExact(p: EgressRequest, c: TrustedSessionContext, now: Time, keys: Keys, e: EgressError)
    ensures Derive(p, c, now, keys) == Err(e) <==> IsRefusedFor(p, c, now, keys, e)
  {
    if p.executionGrant.Some? {
      MismatchIsExact(p, p.executionGrant.value, c, now, keys.value, e);
    }
    hide Catalog, CheckGrant, IsMismatch, Hashing.CanonicalGrant;
  }

  // A grant pins the arguments of the calls it covers exactly when it holds, at any depth, neither
  // a boolean nor a number with a second equal form; else it also covers other arguments.
  lemma ArgumentsArePinnedExactly(p: EgressRequest, c: TrustedSessionContext, now: Time, keys: Keys)
    requires IsCovered(p, c, now, keys)
    ensures IsRigid(Obj(p.executionGrant.value.arguments), keys.value) <==>
      forall other: map<string, Json> :: IsCovered(p.(arguments := other), c, now, keys) ==>
        other == p.executionGrant.value.arguments
  {
    hide Catalog, IsSignatureOf, IsRigid, AreEqual;
    var g := Obj(p.executionGrant.value.arguments);
    if IsRigid(g, keys.value) {
      forall other: map<string, Json> | IsCovered(p.(arguments := other), c, now, keys)
        ensures other == p.executionGrant.value.arguments
      {
        RigidEqualsItselfOnly(g, Obj(other), keys.value);
      }
    } else {
      var twin := Twin(g, keys.value);
      assert IsCovered(p.(arguments := twin.members), c, now, keys);
    }
  }

  // An approved argument n = 1 covers a call with n = true.
  lemma TrueCountsAsOne(p: EgressRequest, c: TrustedSessionContext, now: Time, keys: Keys)
    requires IsCovered(p, c, now, keys) && p.executionGrant.value.arguments == map["n" := Num(Numeral(true))]
    ensures var other := p.(arguments := map["n" := Bool(true)]);
      other.arguments != p.executionGrant.value.arguments &&
      Derive(other, c, now, keys).Ok? && Derive(other, c, now, keys).value.arguments == other.arguments
  {
    hide Catalog, IsSignatureOf;
    var other := p.(arguments := map["n" := Bool(true)]);
    assert other.arguments["n"] != p.executionGrant.value.arguments["n"];
    TrueEqualsOne(keys.value);
    OnlyCoveredCallsGetOut(other, c, now, keys);
    hide Derive;
  }

  lemma RefusedFor(p: EgressRequest, c: TrustedSessionContext, now: Time, keys: Keys)
    ensures Derive(p, c, now, keys).Err? ==> IsRefusedFor(p, c, now, keys, Derive(p, c, now, keys).error)
  {
    hide Derive, IsRefusedFor;
    if Derive(p, c, now, keys).Err? {
      RefusalIsExact(p, c, now, keys, Derive(p, c, now, keys).error);
    }
  }

  // The checks as they are made, one after the other: what is covered gets out as it is.
  method DeriveOutboundRequest(p: EgressRequest, c: TrustedSessionContext, now: Time, keys: Keys)
    returns (r: Result<Outbound, EgressError>)
    ensures r.Ok? <==> IsCovered(p, c, now, keys)
    ensures r.Ok? ==>
      r.value == Outbound(p.verb, p.targetMcp, p.toolName, r.value.headers, p.arguments) &&
      AreOutboundHeaders(r.value.headers, p)
    ensures r == Derive(p, c, now, keys)
    ensures r.Err? ==> IsRefusedFor(p, c, now, keys, r.error)
  {
    RefusedFor(p, c, now, keys);
    hide IsCovered, Catalog, Authorize, AreOutboundHeaders, IsRefusedFor;
    OnlyCoveredCallsGetOut(p, c, now, keys);
    var headers: map<string, string> := map[];
    var known := Catalog(p.toolName);
    if known.None? {
      return Err(UnknownTool);
    }
    var spec := known.value;
    if Truthy(spec.downstreamAudience) && p.targetMcp != spec.downstreamAudience.value {
      return Err(WrongTarget);
    }
    var denied := Authorize(p, c, now, keys);
    if denied.Some? {
      return Err(denied.value);
    }
    if IsReadBoundary(p.primitive, p.verb) && Truthy(p.oboTokenRef) {
      headers := headers["X-AuthN-Context" := "[REDACTED]"];
    }
    headers := headers["Authorization" := "[REDACTED]"];
    r := Ok(Outbound(p.verb, p.targetMcp, p.toolName, headers, p.arguments));
  }
}
