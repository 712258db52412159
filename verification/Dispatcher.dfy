// Turning advisory tool intents into the steps of a plan.
module Dispatcher {
  import opened Wrappers
  import opened Text
  import opened Json
  import opened Models
  import opened ToolCatalog
  import opened ScopeTemplates
  import Policy

  datatype Request = Request(tokenScopes: seq<string>, allowedTools: Option<set<string>>)

  // ValidationError: a scope came out empty.  It is not caught.
  datatype StepError = NotMaterializable | EmptyScope

  datatype Dispatched = Dispatched(toolIntents: seq<ToolIntent>, steps: seq<WorkflowStep>)

  function ServerOf(spec: ToolSpec): string {
    if Truthy(spec.downstreamAudience) then spec.downstreamAudience.value else "workflow-runtime"
  }

  // `normalize_tool_intent`.
  function Normalize(intent: ToolIntent): (normalized: Option<ToolIntent>)
    ensures normalized.Some? <==> Catalog(intent.toolName).Some?
  {
    match Catalog(intent.toolName)
    case None => None
    case Some(spec) =>
      Some(intent.(
        mcpServer := ServerOf(spec),
        metadataRef := if StartsWith(intent.metadataRef, "tool_catalog:") then intent.metadataRef
                       else intent.metadataRef + "|validated:" + intent.toolName))
  }

  // `_intent_material`.
  function Material(intent: ToolIntent): string {
    Dumps(
      Obj(map["arguments" := Obj(intent.arguments), "mcp_server" := Str(intent.mcpServer),
        "tool_name" := Str(intent.toolName)]),
      true)
  }

  function RequiredScopes(intent: ToolIntent, tokenScopes: seq<string>): Result<seq<string>, StepError>
    requires Catalog(intent.toolName).Some?
  {
    match MaterializeScopes(RequirementsFor(Catalog(intent.toolName).value, tokenScopes), intent.arguments)
    case Err(_) => Err(NotMaterializable)
    case Ok(scopes) => if "" in scopes then Err(EmptyScope) else Ok(scopes)
  }

  function StepId(index: nat): string {
    "step-" + Decimal(index)
  }

  // `step_from_intent`.
  function StepFrom(index: nat, intent: ToolIntent, tokenScopes: seq<string>): Result<WorkflowStep, StepError>
    requires Catalog(intent.toolName).Some?
  {
    var spec := Catalog(intent.toolName).value;
    match RequiredScopes(intent, tokenScopes)
    case Err(e) => Err(e)
    case Ok(scopes) =>
      Ok(WorkflowStep(
        StepId(index), intent.agentName, intent.toolName, intent.toolName + ".arguments",
        Dumps(Obj(intent.arguments), true), scopes, spec.downstreamAudience, spec.op, spec.blastRadius,
        spec.hitlDescription, spec.op == WRITE || spec.op == ADMIN))
  }

  predicate IsAllowed(request: Request, tool: string) {
    Catalog(tool).Some? && (request.allowedTools.Some? ==> tool in request.allowedTools.value)
  }

  predicate SameCall(a: ToolIntent, b: ToolIntent) {
    a.toolName == b.toolName && a.arguments == b.arguments
  }

  // ---- What dispatching means ----

  function Scopes(request: Request, intent: ToolIntent): Result<seq<string>, StepError>
    requires IsAllowed(request, intent.toolName)
  {
    RequiredScopes(intent, request.tokenScopes)
  }

  predicate IsEligible(request: Request, intent: ToolIntent) {
    IsAllowed(request, intent.toolName) && Scopes(request, intent).Ok?
  }

  predicate Raises(request: Request, intent: ToolIntent) {
    IsAllowed(request, intent.toolName) && Scopes(request, intent) == Err(EmptyScope)
  }

  // An intent counts when it may be called and no earlier one makes the same call.
  predicate IsFirst(request: Request, intents: seq<ToolIntent>, i: nat)
    requires i < |intents|
  {
    IsEligible(request, intents[i]) && forall j :: 0 <= j < i ==> !SameCall(intents[j], intents[i])
  }

  // The intents that count, in the order given.
  function Selected(request: Request, intents: seq<ToolIntent>): (selected: seq<ToolIntent>)
    ensures forall intent <- selected :: IsEligible(request, intent)
  {
    if intents == [] then []
    else
      var last := |intents| - 1;
      var before := Selected(request, intents[..last]);
      if IsFirst(request, intents, last) then before + [Normalize(intents[last]).value] else before
  }

  function StepAt(request: Request, intents: seq<ToolIntent>, i: nat): (step: WorkflowStep)
    requires i < |intents| && IsEligible(request, intents[i])
    ensures StepFrom(i + 1, intents[i], request.tokenScopes) == Ok(step)
  {
    StepFrom(i + 1, intents[i], request.tokenScopes).value
  }

  function Steps(request: Request, intents: seq<ToolIntent>): (steps: seq<WorkflowStep>)
    requires forall intent <- intents :: IsEligible(request, intent)
    ensures |steps| == |intents|
    ensures forall i :: 0 <= i < |intents| ==>
      IsEligible(request, intents[i]) && StepFrom(i + 1, intents[i], request.tokenScopes) == Ok(steps[i])
  {
    assert forall i :: 0 <= i < |intents| ==> intents[i] in intents;
    seq(|intents|, i requires 0 <= i < |intents| => StepAt(request, intents, i))
  }

  // A normalised intent goes to the catalog's server and has a reference of the catalog's or one
  // that is marked; all else is as the runtime said.
  lemma NormalizedIs(intent: ToolIntent)
    requires Catalog(intent.toolName).Some?
    ensures var (t, server) := (Normalize(intent).value, Catalog(intent.toolName).value.downstreamAudience);
      && t.agentName == intent.agentName && t.toolName == intent.toolName && t.arguments == intent.arguments
      && t.reason == intent.reason
      && (Truthy(server) ==> Some(t.mcpServer) == server) && (!Truthy(server) ==> t.mcpServer == "workflow-runtime")
      && t.metadataRef == intent.metadataRef +
           if "tool_catalog:" <= intent.metadataRef then "" else "|validated:" + intent.toolName
  {
    hide Catalog;
    assert intent.metadataRef + "" == intent.metadataRef;
    assert "tool_catalog:" <= intent.metadataRef <==> StartsWith(intent.metadataRef, "tool_catalog:");
    assert intent.metadataRef + ("|validated:" + intent.toolName)
      == intent.metadataRef + "|validated:" + intent.toolName;
  }

  lemma NormalizedIsSameCall(request: Request, a: ToolIntent)
    requires Catalog(a.toolName).Some?
    ensures SameCall(Normalize(a).value, a)
    ensures Normalize(a).value.mcpServer == ServerOf(Catalog(a.toolName).value)
    ensures Normalize(a).value.agentName == a.agentName
    ensures IsEligible(request, Normalize(a).value) == IsEligible(request, a)
    ensures Raises(request, Normalize(a).value) == Raises(request, a)
  {
  }

  lemma SameCallSameOutcome(request: Request, a: ToolIntent, b: ToolIntent)
    requires SameCall(a, b)
    ensures IsEligible(request, a) == IsEligible(request, b)
  {
    hide Catalog, MaterializeScopes, RequirementsFor;
  }

  lemma SameMaterialSameCall(a: ToolIntent, b: ToolIntent)
    requires Material(a) == Material(b)
    ensures SameCall(a, b)
  {
    hide Dumps;
    var x := map["arguments" := Obj(a.arguments), "mcp_server" := Str(a.mcpServer), "tool_name" := Str(a.toolName)];
    var y := map["arguments" := Obj(b.arguments), "mcp_server" := Str(b.mcpServer), "tool_name" := Str(b.toolName)];
    DumpsIsInjective(Obj(x), Obj(y), true);
    assert x["arguments"] == y["arguments"] && x["tool_name"] == y["tool_name"];
  }

  // The text by which the loop recognises a repetition is the call itself.
  lemma MaterialNamesTheCall(a: ToolIntent, b: ToolIntent)
    requires Catalog(a.toolName).Some? && a.mcpServer == ServerOf(Catalog(a.toolName).value)
    requires Catalog(b.toolName).Some? && b.mcpServer == ServerOf(Catalog(b.toolName).value)
    ensures Material(a) == Material(b) <==> SameCall(a, b)
  {
    hide Catalog, Dumps;
    if Material(a) == Material(b) {
      SameMaterialSameCall(a, b);
    }
  }

  // Of the calls in a prefix, the eligible ones are those selected from it.
  lemma {:induction false} SelectedCalls(request: Request, intents: seq<ToolIntent>, call: ToolIntent)
    requires IsEligible(request, call)
    ensures (exists s <- Selected(request, intents) :: SameCall(s, call)) <==>
      (exists intent <- intents :: SameCall(intent, call))
  {
    hide Catalog, Normalize, RequiredScopes;
    if intents != [] {
      var last := |intents| - 1;
      var before, selected := Selected(request, intents[..last]), Selected(request, intents);
      SelectedCalls(request, intents[..last], call);
      assert intents == intents[..last] + [intents[last]];
      if SameCall(intents[last], call) {
        SameCallSameOutcome(request, intents[last], call);
        NormalizedIsSameCall(request, intents[last]);
        if IsFirst(request, intents, last) {
          assert selected[|before|] in selected;
        } else {
          var j :| 0 <= j < last && SameCall(intents[j], intents[last]);
          assert intents[j] in intents[..last];
          var s :| s in before && SameCall(s, call);
          assert s in selected;
        }
      } else if IsFirst(request, intents, last) {
        NormalizedIsSameCall(request, intents[last]);
        assert selected == before + [Normalize(intents[last]).value];
      }
    }
  }

  // ---- The loop ----

  predicate IsNormalized(intent: ToolIntent) {
    Catalog(intent.toolName).Some? && intent.mcpServer == ServerOf(Catalog(intent.toolName).value)
  }

  function Materials(intents: seq<ToolIntent>): set<string> {
    set intent | intent in intents :: Material(intent)
  }

  lemma SelectedStep(request: Request, intents: seq<ToolIntent>, i: nat)
    requires i < |intents|
    ensures Selected(request, intents[..i + 1])
         == if IsFirst(request, intents, i) then Selected(request, intents[..i]) + [Normalize(intents[i]).value]
            else Selected(request, intents[..i])
  {
    hide IsEligible, Normalize;
    var prefix := intents[..i + 1];
    assert prefix[..i] == intents[..i] && prefix[i] == intents[i];
    assert IsFirst(request, prefix, i) == IsFirst(request, intents, i);
  }

  lemma SeenMeansSelected(selected: seq<ToolIntent>, call: ToolIntent)
    requires IsNormalized(call) && forall s <- selected :: IsNormalized(s)
    ensures Material(call) in Materials(selected) <==> exists s <- selected :: SameCall(s, call)
  {
    hide Material, Catalog;
    forall s | s in selected ensures Material(s) == Material(call) <==> SameCall(s, call) {
      MaterialNamesTheCall(s, call);
    }
  }

  // What the body of the loop tests, in terms of the intents so far.
  lemma LoopTests(request: Request, intents: seq<ToolIntent>, i: nat, selected: seq<ToolIntent>)
    requires i < |intents| && selected == Selected(request, intents[..i])
    requires forall s <- selected :: IsNormalized(s)
    requires IsAllowed(request, intents[i].toolName)
    ensures var call := Normalize(intents[i]).value;
      && IsNormalized(call)
      && (Material(call) in Materials(selected) ==> IsEligible(request, intents[i]) && !IsFirst(request, intents, i))
      && (Material(call) !in Materials(selected) ==>
           (IsEligible(request, intents[i]) <==> IsFirst(request, intents, i)))
  {
    hide Material, Selected, Materials, RequiredScopes, Catalog, IsEligible;
    var before, call := intents[..i], Normalize(intents[i]).value;
    NormalizedIsSameCall(request, intents[i]);
    SeenMeansSelected(selected, call);
    if s :| s in selected && SameCall(s, call) {
      SameCallSameOutcome(request, s, call);
    }
    if IsEligible(request, call) {
      SelectedCalls(request, before, call);
      if intent :| intent in before && SameCall(intent, call) {
        var j :| 0 <= j < i && before[j] == intent;
        assert SameCall(intents[j], intents[i]);
      }
      if j :| 0 <= j < i && SameCall(intents[j], intents[i]) {
        assert intents[j] in before;
      }
    }
  }

  // What holds before the i-th intent is looked at.
  ghost predicate LoopState(request: Request, intents: seq<ToolIntent>, i: nat,
                            validated: seq<ToolIntent>, steps: seq<WorkflowStep>, seen: set<string>)
    requires i <= |intents|
  {
    && validated == Selected(request, intents[..i])
    && steps == Steps(request, validated)
    && seen == Materials(validated)
    && (forall v <- validated :: IsNormalized(v))
    && (forall j :: 0 <= j < i ==> !Raises(request, intents[j]))
  }

  lemma SkipIntent(request: Request, intents: seq<ToolIntent>, i: nat,
                   validated: seq<ToolIntent>, steps: seq<WorkflowStep>, seen: set<string>)
    requires i < |intents| && LoopState(request, intents, i, validated, steps, seen)
    requires !Raises(request, intents[i]) && !IsFirst(request, intents, i)
    ensures LoopState(request, intents, i + 1, validated, steps, seen)
  {
    hide Raises, IsFirst, Steps, Materials, Selected, IsNormalized;
    SelectedStep(request, intents, i);
  }

  lemma TakeIntent(request: Request, intents: seq<ToolIntent>, i: nat,
                   validated: seq<ToolIntent>, steps: seq<WorkflowStep>, seen: set<string>, step: WorkflowStep)
    requires i < |intents| && LoopState(request, intents, i, validated, steps, seen)
    requires IsFirst(request, intents, i)
    requires StepFrom(|steps| + 1, Normalize(intents[i]).value, request.tokenScopes) == Ok(step)
    ensures var next := Normalize(intents[i]).value;
      LoopState(request, intents, i + 1, validated + [next], steps + [step], seen + {Material(next)})
  {
    hide Selected, StepFrom, Material, RequiredScopes, Catalog;
    var next := Normalize(intents[i]).value;
    SelectedStep(request, intents, i);
    NormalizedIsSameCall(request, intents[i]);
    assert forall intent :: intent in validated + [next] <==> intent in validated || intent == next;
    assert Steps(request, validated + [next]) == steps + [step];
    assert !Raises(request, intents[i]);
  }

  datatype Verdict = Skip | Raise | Take(step: WorkflowStep)

  function Judge(request: Request, normalized: Option<ToolIntent>, seen: set<string>, index: nat): Verdict
    requires normalized.Some? ==> Catalog(normalized.value.toolName).Some?
  {
    match normalized
    case None => Skip
    case Some(call) =>
      if request.allowedTools.Some? && call.toolName !in request.allowedTools.value then Skip
      else if Material(call) in seen then Skip
      else
        match StepFrom(index, call, request.tokenScopes)
        case Err(NotMaterializable) => Skip
        case Err(EmptyScope) => Raise
        case Ok(step) => Take(step)
  }

  // The tests of the loop body tell apart the three cases that matter.
  lemma JudgeIsExact(request: Request, intents: seq<ToolIntent>, i: nat,
                     validated: seq<ToolIntent>, steps: seq<WorkflowStep>, seen: set<string>)
    requires i < |intents| && LoopState(request, intents, i, validated, steps, seen)
    ensures var verdict := Judge(request, Normalize(intents[i]), seen, |steps| + 1);
      && (verdict.Skip? ==> !Raises(request, intents[i]) && !IsFirst(request, intents, i))
      && (verdict.Raise? ==> Raises(request, intents[i]))
      && (verdict.Take? ==> IsFirst(request, intents, i))
  {
    hide Selected, Material, Steps, Materials, Catalog, MaterializeScopes;
    if IsAllowed(request, intents[i].toolName) {
      NormalizedIsSameCall(request, intents[i]);
      LoopTests(request, intents, i, validated);
    }
  }

  method Dispatch(request: Request, toolIntents: seq<ToolIntent>) returns (r: Result<Dispatched, StepError>)
    ensures r.Err? <==> exists intent <- toolIntents :: HasEmptyScope(request, intent)
    ensures r.Ok? ==>
      r.value.toolIntents == Selected(request, toolIntents) &&
      r.value.steps == Steps(request, Selected(request, toolIntents))
  {
    RaisesAreEmptyScopes(request, toolIntents);
    var validated: seq<ToolIntent>, steps: seq<WorkflowStep>, seen: set<string> := [], [], {};
    for i := 0 to |toolIntents|
      invariant LoopState(request, toolIntents, i, validated, steps, seen)
    {
      hide Selected, Steps, Materials, Material, Raises, IsFirst, StepFrom, Normalize, LoopState;
      var intent := toolIntents[i];
      JudgeIsExact(request, toolIntents, i, validated, steps, seen);
      match Normalize(intent) {
        case None =>
          SkipIntent(request, toolIntents, i, validated, steps, seen);
        case Some(normalized) =>
          if (request.allowedTools.Some? && normalized.toolName !in request.allowedTools.value)
             || Material(normalized) in seen {
            SkipIntent(request, toolIntents, i, validated, steps, seen);
          } else {
            match StepFrom(|steps| + 1, normalized, request.tokenScopes) {
              case Err(NotMaterializable) =>
                SkipIntent(request, toolIntents, i, validated, steps, seen);
              case Err(EmptyScope) =>
                return Err(EmptyScope);
              case Ok(step) =>
                TakeIntent(request, toolIntents, i, validated, steps, seen, step);
                seen := seen + {Material(normalized)};
                validated := validated + [normalized];
                steps := steps + [step];
            }
          }
      }
    }
    assert toolIntents[..|toolIntents|] == toolIntents;
    r := Ok(Dispatched(validated, steps));
  }

  // ---- The scopes of a step ----

  // The scope is what the template says for these arguments.
  predicate IsFilled(template: string, arguments: map<string, Json>, scope: string) {
    CanFill(Pieces(template), arguments) && scope == FillAll(Pieces(template), arguments)
  }

  // The template gives a scope: every declared argument is there, every argument it names is a
  // scalar, and nothing in it or in a value is a brace; and the scope is not empty.
  predicate GivesScope(template: string, declared: seq<string>, arguments: map<string, Json>) {
    && (forall name <- declared :: name in arguments) && CanFill(Pieces(template), arguments)
    && (forall p <- Pieces(template) :: !HasBrace(Fill(p, arguments)))
    && FillAll(Pieces(template), arguments) != ""
  }

  function Declared(spec: ToolSpec, tokenScopes: seq<string>): seq<string> {
    if UsesTemplates(spec, tokenScopes) then spec.scopeArgs else []
  }

  ghost predicate AllGiveScopes(spec: ToolSpec, tokenScopes: seq<string>, arguments: map<string, Json>) {
    forall template | NeedsTemplate(spec, tokenScopes, template) ::
      GivesScope(template, Declared(spec, tokenScopes), arguments)
  }

  lemma OneScopeIsExact(template: string, declared: seq<string>, arguments: map<string, Json>, scope: string)
    ensures var r := MaterializeScope(ScopeRequirement(template, declared), arguments);
      && (r.Ok? && r != Ok("") <==> GivesScope(template, declared, arguments))
      && (r == Ok(scope) ==> IsFilled(template, arguments, scope))
      && (r.Ok? && IsFilled(template, arguments, scope) ==> r == Ok(scope))
  {
    MaterializeIsExact(ScopeRequirement(template, declared), arguments);
    hide MaterializeScope, Pieces, HasBrace;
    assert forall name :: name in declared <==> name in Elements(declared);
    assert (forall name <- declared :: name in arguments) <==> Elements(declared) <= arguments.Keys;
  }

  // The requirements are the templates that are needed, with what is declared.
  ghost predicate AreNeeded(requirements: seq<ScopeRequirement>, spec: ToolSpec, tokenScopes: seq<string>) {
    && (forall i :: 0 <= i < |requirements| ==>
          requirements[i].scopeArgs == Declared(spec, tokenScopes) &&
          NeedsTemplate(spec, tokenScopes, requirements[i].scopeTemplate))
    && (forall template | NeedsTemplate(spec, tokenScopes, template) ::
          exists i :: 0 <= i < |requirements| && requirements[i].scopeTemplate == template)
  }

  lemma RequirementsAreNeeded(spec: ToolSpec, tokenScopes: seq<string>)
    ensures AreNeeded(RequirementsFor(spec, tokenScopes), spec, tokenScopes)
  {
    hide RequirementsFor, UsesTemplates, NeedsTemplate;
    var (requirements, declared) := (RequirementsFor(spec, tokenScopes), Declared(spec, tokenScopes));
    forall i | 0 <= i < |requirements|
      ensures requirements[i].scopeArgs == declared && NeedsTemplate(spec, tokenScopes, requirements[i].scopeTemplate)
    {
      RequirementsAreExact(spec, tokenScopes, requirements[i].scopeTemplate, requirements[i].scopeArgs);
      assert ScopeRequirement(requirements[i].scopeTemplate, requirements[i].scopeArgs) == requirements[i];
      assert requirements[i] in requirements;
    }
    forall template | NeedsTemplate(spec, tokenScopes, template)
      ensures exists i :: 0 <= i < |requirements| && requirements[i].scopeTemplate == template
    {
      RequirementsAreExact(spec, tokenScopes, template, declared);
      var i :| 0 <= i < |requirements| && requirements[i] == ScopeRequirement(template, declared);
    }
  }

  ghost predicate IsFilledNeeded(spec: ToolSpec, tokenScopes: seq<string>, arguments: map<string, Json>,
                                 scope: string) {
    exists template :: NeedsTemplate(spec, tokenScopes, template) && IsFilled(template, arguments, scope)
  }

  lemma MaterializedAreFilled(requirements: seq<ScopeRequirement>, spec: ToolSpec, tokenScopes: seq<string>,
                              arguments: map<string, Json>, scope: string)
    requires AreNeeded(requirements, spec, tokenScopes)
    requires forall i :: 0 <= i < |requirements| ==> MaterializeScope(requirements[i], arguments).Ok?
    ensures (exists i :: 0 <= i < |requirements| && MaterializeScope(requirements[i], arguments) == Ok(scope)) <==>
      IsFilledNeeded(spec, tokenScopes, arguments, scope)
  {
    hide MaterializeScope, NeedsTemplate, UsesTemplates, IsFilled, GivesScope;
    var declared := Declared(spec, tokenScopes);
    forall i | 0 <= i < |requirements|
      ensures MaterializeScope(requirements[i], arguments) == Ok(scope) <==>
        IsFilled(requirements[i].scopeTemplate, arguments, scope)
    {
      OneScopeIsExact(requirements[i].scopeTemplate, declared, arguments, scope);
      assert ScopeRequirement(requirements[i].scopeTemplate, declared) == requirements[i];
    }
  }

  lemma AllMaterializeExactly(requirements: seq<ScopeRequirement>, spec: ToolSpec, tokenScopes: seq<string>,
                              arguments: map<string, Json>)
    requires AreNeeded(requirements, spec, tokenScopes)
    ensures AllGiveScopes(spec, tokenScopes, arguments) <==>
      forall i :: 0 <= i < |requirements| ==>
        MaterializeScope(requirements[i], arguments).Ok? && MaterializeScope(requirements[i], arguments) != Ok("")
  {
    hide MaterializeScope, NeedsTemplate, UsesTemplates, IsFilled, GivesScope;
    var declared := Declared(spec, tokenScopes);
    forall i | 0 <= i < |requirements|
      ensures MaterializeScope(requirements[i], arguments).Ok? && MaterializeScope(requirements[i], arguments) != Ok("")
        <==> GivesScope(requirements[i].scopeTemplate, declared, arguments)
    {
      OneScopeIsExact(requirements[i].scopeTemplate, declared, arguments, "");
      assert ScopeRequirement(requirements[i].scopeTemplate, declared) == requirements[i];
    }
  }

  // The scopes of a call: those that the templates it needs give, each of them.
  lemma ScopesAreExact(intent: ToolIntent, tokenScopes: seq<string>, scope: string)
    requires Catalog(intent.toolName).Some?
    ensures var (spec, r) := (Catalog(intent.toolName).value, RequiredScopes(intent, tokenScopes));
      && (r.Ok? <==> AllGiveScopes(spec, tokenScopes, intent.arguments))
      && (r.Ok? ==> Increasing(r.value) && (scope in r.value <==>
                                            IsFilledNeeded(spec, tokenScopes, intent.arguments, scope)))
  {
    var (spec, arguments) := (Catalog(intent.toolName).value, intent.arguments);
    hide Catalog, MaterializeScopes, MaterializeScope, RequirementsFor, AreNeeded, AllGiveScopes, IsFilledNeeded;
    var requirements := RequirementsFor(spec, tokenScopes);
    RequirementsAreNeeded(spec, tokenScopes);
    MaterializedScopesAreSorted(requirements, arguments);
    AllMaterializeExactly(requirements, spec, tokenScopes, arguments);
    if MaterializeScopes(requirements, arguments).Ok? {
      MaterializedAreFilled(requirements, spec, tokenScopes, arguments, scope);
    }
  }

  // When a call counts: its tool is in the catalog and allowed, and every template it needs gives
  // a scope.
  lemma EligibleIsExact(request: Request, intent: ToolIntent)
    ensures IsEligible(request, intent) <==>
      Catalog(intent.toolName).Some? &&
      (request.allowedTools.Some? ==> intent.toolName in request.allowedTools.value) &&
      AllGiveScopes(Catalog(intent.toolName).value, request.tokenScopes, intent.arguments)
  {
    hide Catalog, RequiredScopes, AllGiveScopes;
    if Catalog(intent.toolName).Some? {
      ScopesAreExact(intent, request.tokenScopes, "");
    }
  }

  // Step k of a dispatch requires exactly the scopes that the templates its tool needs give for
  // its arguments.
  lemma StepScopesAreExact(request: Request, intents: seq<ToolIntent>, k: nat, scope: string)
    requires k < |Selected(request, intents)|
    ensures var (intent, step) := (Selected(request, intents)[k], Steps(request, Selected(request, intents))[k]);
      && Catalog(intent.toolName).Some? && Increasing(step.requiredScopes)
      && (scope in step.requiredScopes <==>
            IsFilledNeeded(Catalog(intent.toolName).value, request.tokenScopes, intent.arguments, scope))
  {
    var selected := Selected(request, intents);
    assert IsEligible(request, selected[k]);
    StepsBelongToIntents(request, selected, k);
    hide Selected, RequiredScopes, IsFilledNeeded, AllGiveScopes, Catalog;
    ScopesAreExact(selected[k], request.tokenScopes, scope);
  }

  // ---- Deduplicating before the dispatch ----

  predicate IsRepeated(intents: seq<ToolIntent>, i: nat)
    requires i < |intents|
  {
    Material(intents[i]) in Materials(intents[..i])
  }

  // Of the intents with one material the first.
  function Deduped(intents: seq<ToolIntent>): seq<ToolIntent> {
    if intents == [] then []
    else
      var last := |intents| - 1;
      Deduped(intents[..last]) + if IsRepeated(intents, last) then [] else [intents[last]]
  }

  lemma MaterialsGrow(intents: seq<ToolIntent>, next: ToolIntent)
    ensures Materials(intents + [next]) == Materials(intents) + {Material(next)}
  {
    hide Material;
    assert forall intent :: intent in intents + [next] <==> intent in intents || intent == next;
  }

  lemma DedupedStep(intents: seq<ToolIntent>, i: nat)
    requires i < |intents|
    ensures Deduped(intents[..i + 1]) == Deduped(intents[..i]) + if IsRepeated(intents, i) then [] else [intents[i]]
  {
    hide Material;
    assert intents[..i + 1][..i] == intents[..i];
  }

  // `_dedupe_intents`.
  method DedupeIntents(toolIntents: seq<ToolIntent>) returns (deduped: seq<ToolIntent>)
    ensures deduped == Deduped(toolIntents)
  {
    hide Material;
    var seen: set<string>;
    deduped, seen := [], {};
    for i := 0 to |toolIntents|
      invariant deduped == Deduped(toolIntents[..i]) && seen == Materials(toolIntents[..i])
    {
      var material := Material(toolIntents[i]);
      DedupedStep(toolIntents, i);
      MaterialsGrow(toolIntents[..i], toolIntents[i]);
      assert toolIntents[..i + 1] == toolIntents[..i] + [toolIntents[i]];
      hide Materials, Deduped;
      assert material in seen ==> seen + {material} == seen;
      if material !in seen {
        seen := seen + {material};
        deduped := deduped + [toolIntents[i]];
      }
    }
    assert toolIntents[..|toolIntents|] == toolIntents;
  }

  lemma {:induction false} DedupedKeepsMaterials(intents: seq<ToolIntent>)
    ensures Materials(Deduped(intents)) == Materials(intents)
  {
    hide Material;
    if intents != [] {
      var last := |intents| - 1;
      DedupedKeepsMaterials(intents[..last]);
      assert intents == intents[..last] + [intents[last]];
      MaterialsGrow(intents[..last], intents[last]);
      MaterialsGrow(Deduped(intents[..last]), intents[last]);
      hide Materials;
    }
  }

  // The same calls are there.
  lemma DedupedKeepsCalls(intents: seq<ToolIntent>, call: ToolIntent)
    ensures (exists intent <- Deduped(intents) :: SameCall(intent, call)) <==>
      (exists intent <- intents :: SameCall(intent, call))
  {
    DedupedKeepsMaterials(intents);
    hide Material, Deduped;
    if intent :| intent in intents && SameCall(intent, call) {
      assert Material(intent) in Materials(Deduped(intents));
      var kept :| kept in Deduped(intents) && Material(kept) == Material(intent);
      SameMaterialSameCall(kept, intent);
      assert SameCall(kept, call);
    }
    if kept :| kept in Deduped(intents) && SameCall(kept, call) {
      assert Material(kept) in Materials(intents);
      var intent :| intent in intents && Material(intent) == Material(kept);
      SameMaterialSameCall(intent, kept);
      assert SameCall(intent, call);
    }
  }

  lemma FirstOfAppended(request: Request, before: seq<ToolIntent>, next: ToolIntent)
    ensures IsFirst(request, before + [next], |before|) <==>
      IsEligible(request, next) && !exists intent <- before :: SameCall(intent, next)
    ensures Selected(request, before + [next])
      == if IsFirst(request, before + [next], |before|) then Selected(request, before) + [Normalize(next).value]
        else Selected(request, before)
  {
    hide IsEligible, Normalize, SameCall;
    var all := before + [next];
    assert all[..|before|] == before;
    forall j | 0 <= j < |before| ensures all[j] == before[j] && before[j] in before {
    }
  }

  // What the coordinator's deduplication leaves is dispatched to the same calls, in the same order.
  lemma {:induction false} DedupingChangesNoSelection(request: Request, intents: seq<ToolIntent>)
    ensures Selected(request, Deduped(intents)) == Selected(request, intents)
  {
    hide IsEligible, Normalize, Material, Selected, SameCall;
    if intents == [] {
    } else {
      var (before, next) := (intents[..|intents| - 1], intents[|intents| - 1]);
      assert intents == before + [next];
      DedupingChangesNoSelection(request, before);
      FirstOfAppended(request, before, next);
      if Material(next) in Materials(before) {
        var intent :| intent in before && Material(intent) == Material(next);
        SameMaterialSameCall(intent, next);
        assert Deduped(intents) == Deduped(before);
      } else {
        DedupedKeepsCalls(before, next);
        FirstOfAppended(request, Deduped(before), next);
      }
    }
  }

  // Nor does it change whether the dispatch raises.
  lemma DedupingChangesNoError(request: Request, intents: seq<ToolIntent>)
    ensures (exists intent <- Deduped(intents) :: HasEmptyScope(request, intent)) <==>
      (exists intent <- intents :: HasEmptyScope(request, intent))
  {
    hide HasEmptyScope, Deduped, SameCall;
    if intent :| intent in intents && HasEmptyScope(request, intent) {
      DedupedKeepsCalls(intents, intent);
      SameCallIsReflexive(intent);
      var kept :| kept in Deduped(intents) && SameCall(kept, intent);
      SameCallSameEmptyScope(request, kept, intent);
    }
    if kept :| kept in Deduped(intents) && HasEmptyScope(request, kept) {
      DedupedKeepsCalls(intents, kept);
      SameCallIsReflexive(kept);
      var intent :| intent in intents && SameCall(intent, kept);
      SameCallSameEmptyScope(request, intent, kept);
    }
  }

  lemma SameCallIsReflexive(intent: ToolIntent)
    ensures SameCall(intent, intent)
  {
  }

  lemma SameCallSameEmptyScope(request: Request, a: ToolIntent, b: ToolIntent)
    requires SameCall(a, b)
    ensures HasEmptyScope(request, a) <==> HasEmptyScope(request, b)
  {
    hide Catalog, MaterializeScopes, RequirementsFor, SelectScopes, RendersEmpty;
  }

  // ---- Properties of a dispatch ----

  // Each first occurrence is selected, in its turn.
  lemma {:induction false} FirstIsSelected(request: Request, intents: seq<ToolIntent>, i: nat)
    requires i < |intents| && IsFirst(request, intents, i)
    ensures var place := |Selected(request, intents[..i])|;
      place < |Selected(request, intents)| && Selected(request, intents)[place] == Normalize(intents[i]).value
    decreases |intents|
  {
    hide Normalize, Catalog, RequiredScopes, SameCall;
    var last := |intents| - 1;
    if i < last {
      var front := intents[..last];
      assert front[..i] == intents[..i];
      assert IsFirst(request, front, i);
      FirstIsSelected(request, front, i);
    }
  }

  // Nothing else is selected.
  lemma {:induction false} SelectedIsFirst(request: Request, intents: seq<ToolIntent>, place: nat)
    requires place < |Selected(request, intents)|
    ensures exists i :: 0 <= i < |intents| && IsFirst(request, intents, i) && |Selected(request, intents[..i])| == place
    decreases |intents|
  {
    hide Normalize, Catalog, RequiredScopes, SameCall;
    var last := |intents| - 1;
    var front := intents[..last];
    if place < |Selected(request, front)| {
      SelectedIsFirst(request, front, place);
      var i :| 0 <= i < last && IsFirst(request, front, i) && |Selected(request, front[..i])| == place;
      assert front[..i] == intents[..i];
      assert IsFirst(request, intents, i);
    } else {
      assert IsFirst(request, intents, last) && intents[..last] == front;
    }
  }

  lemma FirstsDiffer(request: Request, intents: seq<ToolIntent>, i: nat, j: nat)
    requires i < |intents| && j < |intents| && i != j && IsFirst(request, intents, i) && IsFirst(request, intents, j)
    ensures !SameCall(intents[i], intents[j])
  {
    hide IsEligible;
  }

  // No call is selected twice.
  lemma SelectedCallsDiffer(request: Request, intents: seq<ToolIntent>, a: nat, b: nat)
    requires a < b < |Selected(request, intents)|
    ensures !SameCall(Selected(request, intents)[a], Selected(request, intents)[b])
  {
    hide Normalize, IsEligible, Selected, IsFirst, Catalog, Raises;
    SelectedIsFirst(request, intents, a);
    SelectedIsFirst(request, intents, b);
    var i :| 0 <= i < |intents| && IsFirst(request, intents, i) && |Selected(request, intents[..i])| == a;
    var j :| 0 <= j < |intents| && IsFirst(request, intents, j) && |Selected(request, intents[..j])| == b;
    FirstIsSelected(request, intents, i);
    FirstIsSelected(request, intents, j);
    FirstIsAllowed(request, intents, i);
    FirstIsAllowed(request, intents, j);
    NormalizedIsSameCall(request, intents[i]);
    NormalizedIsSameCall(request, intents[j]);
    FirstsDiffer(request, intents, i, j);
  }

  lemma FirstIsAllowed(request: Request, intents: seq<ToolIntent>, i: nat)
    requires i < |intents| && IsFirst(request, intents, i)
    ensures Catalog(intents[i].toolName).Some?
  {
  }

  function NormalizeAll(intents: seq<ToolIntent>): seq<ToolIntent>
    requires forall intent <- intents :: Catalog(intent.toolName).Some?
  {
    seq(|intents|, i requires 0 <= i < |intents| => assert intents[i] in intents; Normalize(intents[i]).value)
  }

  predicate AreDistinctCalls(intents: seq<ToolIntent>) {
    forall i, j :: 0 <= i < j < |intents| ==> !SameCall(intents[i], intents[j])
  }

  lemma DistinctCallIsFirst(request: Request, intents: seq<ToolIntent>, i: nat)
    requires i < |intents| && AreDistinctCalls(intents)
    requires forall intent <- intents :: IsEligible(request, intent)
    ensures IsFirst(request, intents, i)
  {
    hide SameCall, Catalog, Normalize, RequiredScopes;
    assert intents[i] in intents;
  }

  lemma NormalizeAllStep(intents: seq<ToolIntent>, i: nat)
    requires i < |intents| && forall intent <- intents :: Catalog(intent.toolName).Some?
    ensures Catalog(intents[i].toolName).Some?
    ensures NormalizeAll(intents)[..i + 1] == NormalizeAll(intents)[..i] + [Normalize(intents[i]).value]
  {
    hide Catalog, Normalize;
    assert intents[i] in intents;
  }

  lemma EligibleInCatalog(request: Request, intents: seq<ToolIntent>)
    requires forall intent <- intents :: IsEligible(request, intent)
    ensures forall intent <- intents :: Catalog(intent.toolName).Some?
  {
    hide Catalog, RequiredScopes;
  }

  lemma {:induction false} DistinctCallsAreAllSelected(request: Request, intents: seq<ToolIntent>, n: nat)
    requires n <= |intents| && AreDistinctCalls(intents)
    requires forall intent <- intents :: IsEligible(request, intent)
    ensures Selected(request, intents[..n]) == (EligibleInCatalog(request, intents); NormalizeAll(intents)[..n])
  {
    hide AreDistinctCalls, IsEligible, NormalizeAll, Normalize, Catalog, IsFirst;
    EligibleInCatalog(request, intents);
    if n > 0 {
      hide Selected;
      DistinctCallsAreAllSelected(request, intents, n - 1);
      DistinctCallIsFirst(request, intents, n - 1);
      SelectedStep(request, intents, n - 1);
      NormalizeAllStep(intents, n - 1);
    }
  }

  // Dispatching what was dispatched changes neither the steps nor the decision about them.
  lemma DispatchingAgainChangesNothing(request: Request, intents: seq<ToolIntent>)
    ensures var selected := Selected(request, intents);
      && (forall intent <- selected :: !Raises(request, intent))
      && Steps(request, Selected(request, selected)) == Steps(request, selected)
      && Policy.Evaluate(Steps(request, Selected(request, selected))) == Policy.Evaluate(Steps(request, selected))
  {
    hide Catalog, MaterializeScopes, RequirementsFor;
    var selected := Selected(request, intents);
    forall a, b | 0 <= a < b < |selected| ensures !SameCall(selected[a], selected[b]) {
      SelectedCallsDiffer(request, intents, a, b);
    }
    assert AreDistinctCalls(selected);
    DistinctCallsAreAllSelected(request, selected, |selected|);
    assert selected[..|selected|] == selected && NormalizeAll(selected)[..|selected|] == NormalizeAll(selected);
    var again := NormalizeAll(selected);
    forall k | 0 <= k < |selected|
      ensures StepFrom(k + 1, again[k], request.tokenScopes) == StepFrom(k + 1, selected[k], request.tokenScopes)
    {
      assert selected[k] in selected;
      NormalizedIsSameCall(request, selected[k]);
    }
    assert Steps(request, again) == Steps(request, selected);
  }

  // ---- When a dispatch raises ----

  // A template with an empty scope was one of the token's, and neither the catalog's templates
  // nor the tool's own candidates.
  lemma BlankScopeWasIssued(tool: string, tokenScopes: seq<string>, arguments: map<string, Json>, i: nat)
    requires Catalog(tool).Some?
    requires var requirements := RequirementsFor(Catalog(tool).value, tokenScopes);
      i < |requirements| && RendersEmpty(requirements[i].scopeTemplate, arguments)
    ensures RequirementsFor(Catalog(tool).value, tokenScopes)[i].scopeTemplate
      in SelectScopes(Catalog(tool).value, tokenScopes)
  {
    hide Catalog, SelectScopes, RendersEmpty;
    var (spec, template) := (Catalog(tool).value, RequirementsFor(Catalog(tool).value, tokenScopes)[i].scopeTemplate);
    CatalogScopesBeginWithText(tool);
    if template in spec.workflowScopes {
      TextRendersSomething(template, arguments);
    }
  }

  lemma BlankScopeIsRequired(tool: string, tokenScopes: seq<string>, arguments: map<string, Json>, scope: string)
    requires Catalog(tool).Some? && scope in SelectScopes(Catalog(tool).value, tokenScopes) &&
      RendersEmpty(scope, arguments)
    ensures exists i :: 0 <= i < |RequirementsFor(Catalog(tool).value, tokenScopes)| &&
              RequirementsFor(Catalog(tool).value, tokenScopes)[i].scopeTemplate == scope
  {
    hide Catalog, SelectScopes, RendersEmpty;
    var spec := Catalog(tool).value;
    var selected := SelectScopes(spec, tokenScopes);
    CatalogScopesBeginWithText(tool);
    assert scope !in spec.auth0Candidates by {
      if scope in spec.auth0Candidates {
        TextRendersSomething(scope, arguments);
      }
    }
    SelectedScopesWereIssued(spec, tokenScopes, scope);
    forall s | s in selected ensures s !in spec.auth0Candidates {
      SelectedScopesWereIssued(spec, tokenScopes, s);
    }
    var i :| 0 <= i < |selected| && selected[i] == scope;
    assert tokenScopes != [];
    assert RequirementsFor(spec, tokenScopes)[i] == ScopeRequirement(scope, []);
  }

  // The tool may be called, every scope materialises, and one scope selected from the token
  // consists of fields only, whose arguments are all the empty string.
  predicate HasEmptyScope(request: Request, intent: ToolIntent) {
    IsAllowed(request, intent.toolName) &&
    var spec := Catalog(intent.toolName).value;
    MaterializeScopes(RequirementsFor(spec, request.tokenScopes), intent.arguments).Ok? &&
    exists scope <- SelectScopes(spec, request.tokenScopes) :: RendersEmpty(scope, intent.arguments)
  }

  lemma RaisesAreEmptyScopes(request: Request, intents: seq<ToolIntent>)
    ensures (exists intent <- intents :: Raises(request, intent)) <==>
      (exists intent <- intents :: HasEmptyScope(request, intent))
  {
    hide Raises, HasEmptyScope;
    forall intent | intent in intents ensures Raises(request, intent) <==> HasEmptyScope(request, intent) {
      RaisesExactly(request, intent);
    }
  }

  lemma RaisesExactly(request: Request, intent: ToolIntent)
    ensures Raises(request, intent) <==> HasEmptyScope(request, intent)
  {
    hide Catalog, SelectScopes, RendersEmpty, MaterializeScope, MaterializeScopes, RequirementsFor;
    if IsAllowed(request, intent.toolName) {
      var spec := Catalog(intent.toolName).value;
      var requirements := RequirementsFor(spec, request.tokenScopes);
      MaterializedScopesAreSorted(requirements, intent.arguments);
      if MaterializeScopes(requirements, intent.arguments).Ok? {
        forall i | 0 <= i < |requirements|
          ensures MaterializeScope(requirements[i], intent.arguments) == Ok("") <==>
            RendersEmpty(requirements[i].scopeTemplate, intent.arguments)
          ensures RendersEmpty(requirements[i].scopeTemplate, intent.arguments) ==>
            requirements[i].scopeTemplate in SelectScopes(spec, request.tokenScopes)
        {
          MaterializesToNothing(requirements[i], intent.arguments);
          if RendersEmpty(requirements[i].scopeTemplate, intent.arguments) {
            BlankScopeWasIssued(intent.toolName, request.tokenScopes, intent.arguments, i);
          }
        }
        if scope :| scope in SelectScopes(spec, request.tokenScopes) && RendersEmpty(scope, intent.arguments) {
          BlankScopeIsRequired(intent.toolName, request.tokenScopes, intent.arguments, scope);
        }
      }
    }
  }

  // A token with one scope that is no candidate of the tool requires that scope.
  lemma OneIssuedScope(tool: string, scope: string)
    requires Catalog(tool).Some? && scope != "" && Strip(scope) == scope &&
      scope !in Catalog(tool).value.auth0Candidates
    ensures SelectScopes(Catalog(tool).value, [scope]) == [scope]
    ensures RequirementsFor(Catalog(tool).value, [scope]) == [ScopeRequirement(scope, [])]
  {
    hide Catalog, Strip;
    var spec := Catalog(tool).value;
    assert [scope][0] in [scope];
    assert StrippedScopes([scope]) == {scope};
    assert (set c | c in spec.auth0Candidates && c in StrippedScopes([scope])) == {};
    assert Increasing([scope]) && Elements([scope]) == {scope};
    SortedElements([scope]);
  }

  lemma InspectVmCandidates(scope: string)
    requires |scope| < 7
    ensures Catalog("inspect_vm") == Some(INSPECT_VM) && scope !in INSPECT_VM.auth0Candidates
  {
    assert "inspect_vm"[0] == 'i' && "restart_vm"[0] == 'r';
  }

  // The issued scope `{x}` and the argument x = "": a dispatch of such an intent raises, whatever
  // its agent, server, reference and reason are.
  lemma BlankFieldRaises(intent: ToolIntent)
    requires intent.toolName == "inspect_vm" && intent.arguments == map["x" := Str("")]
    ensures Raises(Request(["{x}"], None), intent)
  {
    var (scope, arguments) := ("{x}", intent.arguments);
    InspectVmCandidates(scope);
    hide Catalog, INSPECT_VM;
    assert Strip(scope) == scope;
    OneIssuedScope("inspect_vm", scope);
    hide RequirementsFor, SelectScopes;
    assert scope == "{" + "x" + "}";
    OneFieldRendersEmpty("x");
    hide RendersEmpty, MaterializeScope, Raises;
    var requirements := [ScopeRequirement(scope, [])];
    assert requirements[0] == ScopeRequirement(scope, []);
    MaterializedScopesAreSorted(requirements, arguments);
    hide MaterializeScopes;
    assert scope in [scope];
    RaisesExactly(Request([scope], None), intent);
  }

  // A token whose only scope is a letter allows every call of this tool.
  lemma OneLetterScopeIsEligible(intent: ToolIntent)
    requires intent.toolName == "inspect_vm"
    ensures IsEligible(Request(["x"], None), intent)
  {
    InspectVmCandidates("x");
    hide Catalog, INSPECT_VM;
    assert Strip("x") == "x";
    OneIssuedScope("inspect_vm", "x");
    OneLetterMaterializes('x', intent.arguments);
    hide RequirementsFor, SelectScopes, MaterializeScope;
    var requirements := [ScopeRequirement("x", [])];
    assert requirements[0] == ScopeRequirement("x", []);
    MaterializedScopesAreSorted(requirements, intent.arguments);
    hide MaterializeScopes;
    assert forall i :: 0 <= i < |requirements| ==> requirements[i] == ScopeRequirement("x", []);
  }

  lemma SelectedFromOne(request: Request, intents: seq<ToolIntent>)
    requires |intents| == 1 && IsEligible(request, intents[0])
    ensures Selected(request, intents) == [Normalize(intents[0]).value]
  {
    hide IsEligible, Normalize;
    assert intents[..0] == [];
    assert IsFirst(request, intents, 0);
    FirstIsAllowed(request, intents, 0);
  }

  // A step that came out of a dispatch: what execution and egress rely on.
  predicate IsDispatched(step: WorkflowStep) {
    Catalog(step.action).Some? &&
    var spec := Catalog(step.action).value;
    && step.downstreamAudience == spec.downstreamAudience
    && step.operationType == spec.op
    && step.blastRadius == spec.blastRadius
    && step.mutatesExternalState == (spec.op != READ)
    && "" !in step.requiredScopes
    && Loads(step.inputPayloadJson).Some? && Loads(step.inputPayloadJson).value.Obj?
  }

  // The k-th step carries the number k, the tool and the arguments of the k-th intent.
  lemma StepsBelongToIntents(request: Request, intents: seq<ToolIntent>, k: nat)
    requires k < |intents| && forall intent <- intents :: IsEligible(request, intent)
    ensures var step := Steps(request, intents)[k];
      && step.stepId == StepId(k + 1)
      && step.action == intents[k].toolName && step.targetAgent == intents[k].agentName
      && step.inputModelType == intents[k].toolName + ".arguments"
      && Catalog(intents[k].toolName).Some?
      && step.hitlDescription == Catalog(intents[k].toolName).value.hitlDescription
      && Loads(step.inputPayloadJson) == Some(Obj(intents[k].arguments))
      && Ok(step.requiredScopes) == RequiredScopes(intents[k], request.tokenScopes)
      && IsDispatched(step)
  {
    hide Catalog, MaterializeScopes, RequirementsFor;
    assert intents[k] in intents;
    DumpsReadsBack(Obj(intents[k].arguments), true);
    var spec := Catalog(intents[k].toolName).value;
    assert StepFrom(k + 1, intents[k], request.tokenScopes) == Ok(Steps(request, intents)[k]);
  }

  lemma StepIdsAreDistinct(i: nat, j: nat)
    ensures StepId(i) == StepId(j) <==> i == j
  {
    if StepId(i) == StepId(j) {
      assert StepId(i)[5..] == Decimal(i) && StepId(j)[5..] == Decimal(j);
      DecimalIsInjective(i, j);
    }
  }

  // A dispatched plan needs approval exactly when some step does more than read.
  lemma ApprovalIsForMoreThanReads(steps: seq<WorkflowStep>)
    requires forall step <- steps :: IsDispatched(step)
    ensures Policy.Evaluate(steps).requiresHitl <==> exists step <- steps :: step.operationType != READ
  {
    hide Catalog;
    Policy.PolicyIsExact(steps, "");
    forall step | step in steps ensures Policy.IsRisky(step) <==> step.operationType != READ {
      assert IsDispatched(step);
    }
  }
}
