// What redaction leaves in the stream of a run of what the runtime said.
module Secrets {
  import opened Wrappers
  import opened Text
  import opened Json
  import opened Models
  import opened Redaction
  import opened PublicRecord
  import opened Printing
  import opened RunStream
  import Policy
  import ToolCatalog
  import Dispatcher
  import Hashing

  // `_redact_tool_intent`: neither the agent nor the server nor the tool is redacted.
  function RedactIntent(intent: ToolIntent, values: seq<string>): ToolIntent
    requires "" !in values
  {
    intent.(
      arguments := RedactValue(Obj(intent.arguments), values).members,
      metadataRef := ReplaceAll(intent.metadataRef, values),
      reason := match intent.reason case None => None case Some(text) => Some(ReplaceAll(text, values)))
  }

  // `_redact_runtime_result`; without sensitive values everything stays as it is.
  function RedactIntents(intents: seq<ToolIntent>, values: seq<string>): (redacted: seq<ToolIntent>)
    requires "" !in values
    ensures |redacted| == |intents|
    ensures forall i :: 0 <= i < |intents| ==>
      redacted[i].agentName == intents[i].agentName && redacted[i].toolName == intents[i].toolName
  {
    if values == [] then intents
    else seq(|intents|, i requires 0 <= i < |intents| => RedactIntent(intents[i], values))
  }

  // A redacted intent: the arguments, the reason and the reference are redacted in their places, and
  // the agent, the server and the tool are as they were.
  ghost predicate IsRedactedIntent(out: ToolIntent, intent: ToolIntent, values: seq<string>)
    requires "" !in values
  {
    && out.agentName == intent.agentName && out.mcpServer == intent.mcpServer && out.toolName == intent.toolName
    && out.metadataRef == ReplaceAll(intent.metadataRef, values)
    && (out.reason.Some? <==> intent.reason.Some?)
    && (out.reason.Some? ==> out.reason.value == ReplaceAll(intent.reason.value, values))
    && IsRedacted(Obj(out.arguments), Obj(intent.arguments), values)
  }

  lemma IntentIsRedacted(intent: ToolIntent, values: seq<string>)
    requires "" !in values
    ensures IsRedactedIntent(RedactIntent(intent, values), intent, values)
  {
    RedactedIsRedacted(Obj(intent.arguments), values);
    hide IsRedacted, ReplaceAll;
  }

  // Redacting a result redacts each intent in its place, unless there is nothing to redact.
  lemma IntentsAreRedacted(intents: seq<ToolIntent>, values: seq<string>)
    requires "" !in values
    ensures values == [] ==> RedactIntents(intents, values) == intents
    ensures forall i :: 0 <= i < |intents| && values != [] ==>
      IsRedactedIntent(RedactIntents(intents, values)[i], intents[i], values)
  {
    hide IsRedactedIntent, RedactIntent;
    forall i | 0 <= i < |intents| && values != []
      ensures IsRedactedIntent(RedactIntents(intents, values)[i], intents[i], values)
    {
      IntentIsRedacted(intents[i], values);
    }
  }

  // What of an intent is not redacted, but for the agent and the names of the arguments.
  predicate RestOfIntentHoldsNo(t: ToolIntent, v: string) {
    ServerAndToolHoldNo(t, v) && !Contains(t.metadataRef, v)
  }

  predicate ServerAndToolHoldNo(t: ToolIntent, v: string) {
    AreFree(INTENT_FIELDS, v) && !Contains(t.mcpServer, v) && !Contains(t.toolName, v)
  }

  predicate AgentAndNamesHoldNo(t: ToolIntent, v: string) {
    !Contains(t.agentName, v) && NamesHoldNo(Obj(t.arguments), v)
  }

  lemma RedactedArguments(arguments: map<string, Json>, values: seq<string>, v: string)
    requires "" !in values && IsRemoved(v, values)
    ensures var redacted := RedactValue(Obj(arguments), values);
      && Public(redacted) == redacted
      && (HoldsNo(redacted, v) <==> NamesHoldNo(redacted, v)) &&
         (NamesHoldNo(redacted, v) <==> NamesHoldNo(Obj(arguments), v))
  {
    var redacted := RedactValue(Obj(arguments), values);
    RedactedHasNoPrivateKeys(Obj(arguments), values);
    StripKeysIsExact(redacted, IsBrowserPrivate);
    RedactedValueIsExact(Obj(arguments), values, v);
    RedactionKeepsNames(Obj(arguments), values, v);
  }

  lemma {:induction false} RedactionKeepsNames(j: Json, values: seq<string>, v: string)
    requires "" !in values
    ensures NamesHoldNo(RedactValue(j, values), v) <==> NamesHoldNo(j, v)
    decreases j
  {
    hide Contains, ReplaceAll, IsBrowserPrivate;
    match j
    case Arr(items) =>
      var out := RedactValue(j, values).items;
      forall i | 0 <= i < |items| ensures NamesHoldNo(out[i], v) <==> NamesHoldNo(items[i], v) {
        RedactionKeepsNames(items[i], values, v);
      }
    case Obj(members) =>
      var out := RedactValue(j, values).members;
      assert forall k :: k in out <==> k in members && !IsBrowserPrivate(k);
      forall k | k in out ensures NamesHoldNo(out[k], v) <==> NamesHoldNo(members[k], v) {
        RedactionKeepsNames(members[k], values, v);
      }
    case _ =>
  }

  // A redacted intent, as the dispatcher keeps it, holds v only outside its strings: in the agent,
  // in the name of an argument, or in what is not the runtime's text.
  lemma RedactedIntentHoldsNoExactly(raw: ToolIntent, values: seq<string>, v: string)
    requires "" !in values && IsRemoved(v, values) && ToolCatalog.Catalog(raw.toolName).Some?
    ensures var t := Dispatcher.Normalize(RedactIntent(raw, values)).value;
      IntentHoldsNo(t, v) <==> RestOfIntentHoldsNo(t, v) && AgentAndNamesHoldNo(t, v)
  {
    RedactedArguments(raw.arguments, values, v);
    if raw.reason.Some? {
      RemovedTextIsClean(raw.reason.value, values, v);
    }
    hide Contains, ReplaceAll, IsRemoved, HoldsNo, NamesHoldNo, AreFree, ToolCatalog.Catalog, RedactValue, Public;
  }

  // What planning saves for a runtime's intents.
  predicate IsPlannedFrom(w: WorkflowRecord, d: Dispatcher.Request, raw: seq<ToolIntent>, values: seq<string>)
    requires "" !in values
  {
    && w.toolIntents == Dispatcher.Selected(d, RedactIntents(raw, values))
    && w.proposal.steps == Dispatcher.Steps(d, w.toolIntents)
    && w.policy == Policy.Evaluate(w.proposal.steps) && w.approvedWorkflow == None && w.egressResults == []
  }

  // The texts of a step but for the agent it goes to.
  predicate RestOfStepHoldsNo(s: WorkflowStep, v: string) {
    StepTextsHoldNo(s, v) && !Contains(s.inputPayloadJson, v)
  }

  predicate StepTextsHoldNo(s: WorkflowStep, v: string) {
    && AreFree(Hashing.STEP_FIELDS, v)
    && !Contains(s.stepId, v) && !Contains(s.action, v) && !Contains(s.inputModelType, v)
    && AreFree(s.requiredScopes, v) && IsFree(s.downstreamAudience, v) &&
       !Contains(Hashing.OperationName(s.operationType), v)
    && !Contains(Hashing.BlastName(s.blastRadius), v) && !Contains(s.hitlDescription, v)
  }

  // The ids, hash, times and status of a record, its steps, its decision, and what its intents
  // hold besides agents and arguments.
  predicate RestOfRecordHoldsNo(w: WorkflowRecord, v: string, show: Hashing.TimeFormat) {
    && RecordTextsHoldNo(w, v, show)
    && (forall i :: 0 <= i < |w.proposal.steps| ==> RestOfStepHoldsNo(w.proposal.steps[i], v))
    && (forall i :: 0 <= i < |w.toolIntents| ==> RestOfIntentHoldsNo(w.toolIntents[i], v))
  }

  predicate RecordTextsHoldNo(w: WorkflowRecord, v: string, show: Hashing.TimeFormat) {
    && AreFree(PUBLIC_RECORD_FIELDS, v)
    && !Contains(w.workflowId, v) && IsFree(w.threadId, v) && !Contains(StatusName(w.status), v) &&
       !Contains(w.planHash, v)
    && !Contains(show(w.createdAt), v) && AreFree(["workflow_id", "created_at", "steps"], v)
    && !Contains(w.proposal.workflowId, v) && !Contains(show(w.proposal.createdAt), v) && PolicyHoldsNo(w.policy, v)
  }

  predicate AgentsAndNamesHoldNo(w: WorkflowRecord, v: string) {
    forall i :: 0 <= i < |w.toolIntents| ==> AgentAndNamesHoldNo(w.toolIntents[i], v)
  }

  lemma KeptIntentHoldsNoExactly(d: Dispatcher.Request, raw: seq<ToolIntent>, values: seq<string>, v: string, i: nat)
    requires "" !in values && IsRemoved(v, values)
    requires i < |Dispatcher.Selected(d, RedactIntents(raw, values))|
    ensures var t := Dispatcher.Selected(d, RedactIntents(raw, values))[i];
      IntentHoldsNo(t, v) <==> RestOfIntentHoldsNo(t, v) && AgentAndNamesHoldNo(t, v)
  {
    assert values != [];
    hide Dispatcher.Selected, Dispatcher.IsFirst, IntentHoldsNo, RestOfIntentHoldsNo, AgentAndNamesHoldNo, IsRemoved,
         RedactIntent, Dispatcher.Normalize, ToolCatalog.Catalog;
    var intents := RedactIntents(raw, values);
    Dispatcher.SelectedIsFirst(d, intents, i);
    var j :| 0 <= j < |intents| && Dispatcher.IsFirst(d, intents, j) && |Dispatcher.Selected(d, intents[..j])| == i;
    Dispatcher.FirstIsSelected(d, intents, j);
    Dispatcher.FirstIsAllowed(d, intents, j);
    RedactedIntentHoldsNoExactly(raw[j], values, v);
    assert intents[j] == RedactIntent(raw[j], values);
  }

  lemma StepGoesToItsAgent(d: Dispatcher.Request, intents: seq<ToolIntent>, i: nat)
    requires i < |intents| && forall intent <- intents :: Dispatcher.IsEligible(d, intent)
    ensures Dispatcher.Steps(d, intents)[i].targetAgent == intents[i].agentName
  {
    hide Dispatcher.Steps, Dispatcher.IsEligible, Dispatcher.IsDispatched, Dispatcher.RequiredScopes;
    Dispatcher.StepsBelongToIntents(d, intents, i);
  }

  // Step and intent i: what they hold beyond the agent and the names of the arguments.
  predicate IsSplit(w: WorkflowRecord, v: string, i: nat) {
    && i < |w.toolIntents| == |w.proposal.steps|
    && (IntentHoldsNo(w.toolIntents[i], v) <==>
        RestOfIntentHoldsNo(w.toolIntents[i], v) && AgentAndNamesHoldNo(w.toolIntents[i], v))
    && (AgentAndNamesHoldNo(w.toolIntents[i], v) ==>
        (StepHoldsNo(w.proposal.steps[i], v) <==> RestOfStepHoldsNo(w.proposal.steps[i], v)))
    && (StepHoldsNo(w.proposal.steps[i], v) ==> RestOfStepHoldsNo(w.proposal.steps[i], v))
  }

  lemma StepAndItsAgent(s: WorkflowStep, t: ToolIntent, v: string)
    requires s.targetAgent == t.agentName
    ensures StepHoldsNo(s, v) <==> RestOfStepHoldsNo(s, v) && !Contains(t.agentName, v)
    ensures AgentAndNamesHoldNo(t, v) ==> !Contains(t.agentName, v)
  {
    hide Contains, AreFree, IsFree, NamesHoldNo;
  }

  lemma PlannedIsSplit(w: WorkflowRecord, d: Dispatcher.Request, raw: seq<ToolIntent>, values: seq<string>, v: string,
                       i: nat)
    requires "" !in values && IsRemoved(v, values) && IsPlannedFrom(w, d, raw, values) && i < |w.toolIntents|
    ensures IsSplit(w, v, i)
  {
    hide Contains, StepHoldsNo, RestOfStepHoldsNo, Dispatcher.Steps, Dispatcher.Selected, IsRemoved, IntentHoldsNo,
         RestOfIntentHoldsNo, AgentAndNamesHoldNo, RedactIntents, Dispatcher.IsEligible, Policy.Evaluate,
         Dispatcher.StepFrom;
    KeptIntentHoldsNoExactly(d, raw, values, v, i);
    StepGoesToItsAgent(d, w.toolIntents, i);
    StepAndItsAgent(w.proposal.steps[i], w.toolIntents[i], v);
  }

  lemma SplitRecord(w: WorkflowRecord, v: string, show: Hashing.TimeFormat)
    requires forall i :: 0 <= i < |w.toolIntents| ==> IsSplit(w, v, i)
    requires |w.toolIntents| == |w.proposal.steps| && w.approvedWorkflow == None && w.egressResults == []
    ensures RecordHoldsNo(w, v, show) <==> RestOfRecordHoldsNo(w, v, show) && AgentsAndNamesHoldNo(w, v)
  {
    hide Contains, AreFree, IsFree, StepHoldsNo, RestOfStepHoldsNo, IntentHoldsNo, RestOfIntentHoldsNo,
         AgentAndNamesHoldNo, PolicyHoldsNo, StatusName;
    var (n, intents, steps) := (|w.toolIntents|, w.toolIntents, w.proposal.steps);
    if IntentsHoldNo(intents, v) && StepsHoldNo(steps, v) {
      forall i | 0 <= i < n
        ensures RestOfIntentHoldsNo(intents[i], v) && AgentAndNamesHoldNo(intents[i], v) &&
          RestOfStepHoldsNo(steps[i], v)
      {
        assert IsSplit(w, v, i) && IntentHoldsNo(intents[i], v) && StepHoldsNo(steps[i], v);
      }
    }
    if AgentsAndNamesHoldNo(w, v) && RestOfRecordHoldsNo(w, v, show) {
      forall i | 0 <= i < n ensures IntentHoldsNo(intents[i], v) && StepHoldsNo(steps[i], v) {
        assert IsSplit(w, v, i) && AgentAndNamesHoldNo(intents[i], v);
        assert RestOfIntentHoldsNo(intents[i], v) && RestOfStepHoldsNo(steps[i], v);
      }
    }
  }

  // A record planned from redacted intents holds v exactly in its agents, the names of its
  // arguments, and the rest that is not the runtime's text.
  lemma PlannedRecordHoldsNoExactly(w: WorkflowRecord, d: Dispatcher.Request, raw: seq<ToolIntent>, values: seq<string>,
                                    v: string, show: Hashing.TimeFormat)
    requires "" !in values && IsRemoved(v, values) && IsPlannedFrom(w, d, raw, values)
    ensures RecordHoldsNo(w, v, show) <==> RestOfRecordHoldsNo(w, v, show) && AgentsAndNamesHoldNo(w, v)
  {
    hide IsSplit, RecordHoldsNo, RestOfRecordHoldsNo, AgentsAndNamesHoldNo, IsRemoved, Dispatcher.Selected;
    forall i | 0 <= i < |w.toolIntents| ensures IsSplit(w, v, i) {
      PlannedIsSplit(w, d, raw, values, v, i);
    }
    SplitRecord(w, v, show);
  }

  // ---- The stream ----

  // The words of the events, the ids of run, thread, message and calls, and the text of each
  // planned result.
  predicate WordsAndIdsAreFree(r: RunRequest, p: Planned, values: seq<string>, v: string)
    requires "" !in values
  {
    EventTextsAreFree(r, p, values, v) && CallsAreFree(r, p.workflow.proposal.steps, |p.workflow.proposal.steps|, v)
  }

  predicate EventTextsAreFree(r: RunRequest, p: Planned, values: seq<string>, v: string)
    requires "" !in values
  {
    && FreeOf({"type", "threadId", "runId", "RUN_STARTED", r.runId}, v) && IsFree(r.threadId, v)
    && FreeOf({"type", "threadId", "runId", "RUN_FINISHED", r.runId}, v)
    && FreeOf(MessageTexts(MessageId(r), ReplaceAll(p.assistantMessage, values)), v)
    && FreeOf(DELTA_WORDS, v) && (p.workflow.status == AwaitingApproval ==> FreeOf(APPROVAL_WORDS, v))
  }

  // The stream of a planned run holds a value that redaction removes in some string or member name exactly
  // when an agent's name, the name of an argument, an id or another text that is not the
  // runtime's message, argument or reason does.
  lemma PlannedStreamIsCleanExactly(r: RunRequest, p: Planned, d: Dispatcher.Request, raw: seq<ToolIntent>,
                                    values: seq<string>, show: Hashing.TimeFormat, v: string)
    requires "" !in values && IsRemoved(v, values) && IsPlannedFrom(p.workflow, d, raw, values)
    ensures AllHoldNo(AgentEvents(r, Ok(p), values, show), v) <==>
      WordsAndIdsAreFree(r, p, values, v) && RestOfRecordHoldsNo(p.workflow, v, show) &&
        AgentsAndNamesHoldNo(p.workflow, v)
  {
    hide AllHoldNo, AgentEvents, RecordHoldsNo, RestOfRecordHoldsNo, AgentsAndNamesHoldNo, IsRemoved, FreeOf, IsFree,
         MessageTexts, DELTA_WORDS, APPROVAL_WORDS, CallsAreFree, ReplaceAll, MessageId, IsPlannedFrom;
    StreamIsCleanExactly(r, Ok(p), values, show, v);
    PlannedRecordHoldsNoExactly(p.workflow, d, raw, values, v, show);
  }

  // ---- Values that no punctuation of the output touches ----

  // No character that JSON puts around texts, nor the bar that planning puts into references.
  predicate HasNoPunctuation(v: string) {
    HasNoStructure(v) && '|' !in v
  }

  // Numbers, true, false and null, but for those that redaction drops with their name.
  predicate ScalarsHoldNo(j: Json, v: string) {
    match j
    case Null => !Contains("null", v)
    case Bool(b) => !Contains(if b then "true" else "false", v)
    case Num(n) => !Contains(n, v)
    case Str(_) => true
    case Arr(items) => forall i :: 0 <= i < |items| ==> ScalarsHoldNo(items[i], v)
    case Obj(members) => forall k <- members :: IsBrowserPrivate(k) || ScalarsHoldNo(members[k], v)
  }

  // Every string and every name is printed as it is.
  predicate AreUnescaped(j: Json) {
    match j
    case Str(s) => IsUnescaped(s)
    case Arr(items) => forall i :: 0 <= i < |items| ==> AreUnescaped(items[i])
    case Obj(members) => forall k <- members :: IsUnescaped(k) && AreUnescaped(members[k])
    case _ => true
  }

  lemma {:induction false} ReplaceStaysUnescaped(text: string, value: string)
    requires IsUnescaped(text) && value != ""
    ensures IsUnescaped(Replace(text, value))
    decreases |text|
  {
    assert IsUnescaped(MARKER);
    hide MARKER;
    if text != "" {
      if StartsWith(text, value) {
        assert forall c :: c in text[|value|..] ==> c in text;
        ReplaceStaysUnescaped(text[|value|..], value);
      } else {
        assert text[0] in text && forall c :: c in text[1..] ==> c in text;
        ReplaceStaysUnescaped(text[1..], value);
      }
    }
  }

  lemma {:induction false} RedactedStaysUnescaped(text: string, values: seq<string>)
    requires IsUnescaped(text) && "" !in values
    ensures IsUnescaped(ReplaceAll(text, values))
  {
    hide IsUnescaped;
    if values != [] {
      var last := |values| - 1;
      assert values[last] in values;
      RedactedStaysUnescaped(text, values[..last]);
      ReplaceStaysUnescaped(ReplaceAll(text, values[..last]), values[last]);
    }
  }

  lemma RedactedStringPrintsNo(s: string, values: seq<string>, v: string)
    requires "" !in values && IsRemoved(v, values) && IsUnescaped(s)
    ensures PrintsNo(RedactValue(Str(s), values), v, true)
  {
    hide Contains, IsRemoved, IsUnescaped, ReplaceAll, StringBody;
    RemovedTextIsClean(s, values, v);
    RedactedStaysUnescaped(s, values);
    UnescapedIsItself(ReplaceAll(s, values));
  }

  // Where nothing is escaped, the printed form of a redacted value holds v exactly when a name
  // that stays or a number or word does.
  lemma {:induction false} RedactedPrintsExactly(j: Json, values: seq<string>, v: string)
    requires "" !in values && IsRemoved(v, values) && AreUnescaped(j)
    ensures PrintsNo(RedactValue(j, values), v, true) <==> NamesHoldNo(j, v) && ScalarsHoldNo(j, v)
    decreases j
  {
    hide Contains, IsRemoved, IsUnescaped, ReplaceAll, StringBody, IsBrowserPrivate;
    match j
    case Str(s) => RedactedStringPrintsNo(s, values, v);
    case Arr(items) =>
      var out := RedactValue(j, values).items;
      forall i | 0 <= i < |items|
        ensures PrintsNo(out[i], v, true) <==> NamesHoldNo(items[i], v) && ScalarsHoldNo(items[i], v)
      {
        RedactedPrintsExactly(items[i], values, v);
      }
    case Obj(members) =>
      var out := RedactValue(j, values).members;
      assert forall k :: k in out <==> k in members && !IsBrowserPrivate(k);
      forall k | k in out
        ensures StringBody(k, true) == k
        ensures PrintsNo(out[k], v, true) <==> NamesHoldNo(members[k], v) && ScalarsHoldNo(members[k], v)
      {
        UnescapedIsItself(k);
        RedactedPrintsExactly(members[k], values, v);
      }
    case _ =>
  }

  // The printed arguments of a redacted intent: for such a value, exactly the names that stay,
  // the numbers and the words.
  lemma RedactedArgumentsPrintExactly(arguments: map<string, Json>, values: seq<string>, v: string)
    requires "" !in values && IsRemoved(v, values) && HasNoStructure(v) && AreUnescaped(Obj(arguments))
    ensures !Contains(Dumps(RedactValue(Obj(arguments), values), true), v) <==>
      NamesHoldNo(Obj(arguments), v) && ScalarsHoldNo(Obj(arguments), v)
  {
    hide Contains, IsRemoved, HasNoStructure, NamesHoldNo, ScalarsHoldNo, PrintsNo, RedactValue, AreUnescaped, Print;
    RedactedPrintsExactly(Obj(arguments), values, v);
    PrintsExactly(RedactValue(Obj(arguments), values), v, true);
  }

  const VALIDATED: string := "validated"

  // A reference that planning marked as validated.
  predicate IsMarked(t: ToolIntent) {
    !StartsWith(t.metadataRef, "tool_catalog:")
  }

  lemma MarkedStaysMarked(reference: string, rest: string)
    requires !StartsWith(reference, "tool_catalog:")
    ensures !StartsWith(reference + "|" + rest, "tool_catalog:")
  {
    var (text, prefix) := (reference + "|" + rest, "tool_catalog:");
    assert '|' !in prefix && text[|reference|] == '|' && text[..|reference|] == reference;
    assert |prefix| <= |reference| ==> text[..|prefix|] == text[..|reference|][..|prefix|];
  }

  lemma MarkHoldsNoExactly(reference: string, tool: string, v: string)
    requires HasNoPunctuation(v) && !Contains(reference, v)
    ensures !Contains(reference + "|validated:" + tool, v) <==> !Contains(VALIDATED, v) && !Contains(tool, v)
  {
    hide Contains, HasNoStructure;
    assert v != "" && ':' !in v by {
      assert HasNoStructure(v);
      NoColon(v);
    }
    assert "|validated:" == "|" + VALIDATED + ":";
    hide VALIDATED;
    var marked := reference + "|" + (VALIDATED + ":" + tool);
    assert reference + "|validated:" + tool == marked;
    AcrossNothing(reference, '|', VALIDATED + ":" + tool, v);
    AcrossNothing(VALIDATED, ':', tool, v);
  }

  lemma NoColon(v: string)
    requires HasNoStructure(v)
    ensures v != "" && ':' !in v
  {
  }

  predicate ReferenceHoldsNo(t: ToolIntent, v: string) {
    IsMarked(t) ==> !Contains(VALIDATED, v) && !Contains(t.toolName, v)
  }

  lemma ReferenceHoldsNoExactly(raw: ToolIntent, values: seq<string>, v: string)
    requires "" !in values && IsRemoved(v, values) && HasNoPunctuation(v)
    requires ToolCatalog.Catalog(raw.toolName).Some?
    ensures var t := Dispatcher.Normalize(RedactIntent(raw, values)).value;
      !Contains(t.metadataRef, v) <==> ReferenceHoldsNo(t, v)
  {
    hide Contains, IsRemoved, HasNoPunctuation, ReplaceAll, ToolCatalog.Catalog, RedactValue, VALIDATED, StartsWith;
    var reference := ReplaceAll(raw.metadataRef, values);
    RemovedTextIsClean(raw.metadataRef, values, v);
    if !StartsWith(reference, "tool_catalog:") {
      MarkHoldsNoExactly(reference, raw.toolName, v);
      MarkedStaysMarked(reference, "validated:" + raw.toolName);
      assert reference + "|" + ("validated:" + raw.toolName) == reference + "|validated:" + raw.toolName;
    }
  }

  // The texts in the planned result of a step.
  function ResultTexts(step: WorkflowStep): set<string> {
    {"status", "planned", "step", "step_id", "target_agent", "action", StringBody(step.stepId, true),
      StringBody(step.targetAgent, true), StringBody(step.action, true)}
  }

  // One member, as it is printed.
  predicate MemberPrintsNo(k: string, value: Json, v: string) {
    !Contains(StringBody(k, true), v) && PrintsNo(value, v, true)
  }

  lemma MembersOneByOne(m: map<string, Json>, v: string)
    ensures PrintsNo(Obj(m), v, true) <==> forall k <- m.Keys :: MemberPrintsNo(k, m[k], v)
  {
    hide Contains, StringBody;
  }

  lemma TwoPrintNo(a: string, x: Json, b: string, y: Json, v: string)
    requires a != b
    ensures PrintsNo(Obj(map[a := x, b := y]), v, true) <==> MemberPrintsNo(a, x, v) && MemberPrintsNo(b, y, v)
  {
    hide PrintsNo, MemberPrintsNo;
    var m := map[a := x, b := y];
    MembersOneByOne(m, v);
    assert m.Keys == {a, b} && m[a] == x && m[b] == y;
  }

  lemma ThreePrintNo(a: string, x: Json, b: string, y: Json, c: string, z: Json, v: string)
    requires a != b && b != c && a != c
    ensures PrintsNo(Obj(map[a := x, b := y, c := z]), v, true) <==>
      MemberPrintsNo(a, x, v) && MemberPrintsNo(b, y, v) && MemberPrintsNo(c, z, v)
  {
    hide PrintsNo, MemberPrintsNo;
    var m := map[a := x, b := y, c := z];
    MembersOneByOne(m, v);
    assert m.Keys == {a, b, c} && m[a] == x && m[b] == y && m[c] == z;
  }

  lemma WordPrintsNo(word: string, value: Json, v: string)
    requires IsUnescaped(word)
    ensures MemberPrintsNo(word, value, v) <==> !Contains(word, v) && PrintsNo(value, v, true)
  {
    hide Contains;
    UnescapedIsItself(word);
  }

  lemma TextPrintsNo(text: string, v: string)
    ensures PrintsNo(Str(text), v, true) <==> !Contains(StringBody(text, true), v)
  {
  }

  lemma ThreeTextsPrintNo(a: string, x: string, b: string, y: string, c: string, z: string, v: string)
    requires a != b && b != c && a != c && IsUnescaped(a) && IsUnescaped(b) && IsUnescaped(c)
    ensures PrintsNo(Obj(map[a := Str(x), b := Str(y), c := Str(z)]), v, true) <==>
      FreeOf({a, b, c, StringBody(x, true), StringBody(y, true), StringBody(z, true)}, v)
  {
    hide Contains, StringBody, PrintsNo, MemberPrintsNo, IsUnescaped;
    ThreePrintNo(a, Str(x), b, Str(y), c, Str(z), v);
    WordPrintsNo(a, Str(x), v);
    WordPrintsNo(b, Str(y), v);
    WordPrintsNo(c, Str(z), v);
    TextPrintsNo(x, v);
    TextPrintsNo(y, v);
    TextPrintsNo(z, v);
  }

  lemma WordAndValuePrintNo(a: string, x: string, b: string, y: Json, v: string)
    requires a != b && IsUnescaped(a) && IsUnescaped(b) && IsUnescaped(x)
    ensures PrintsNo(Obj(map[a := Str(x), b := y]), v, true) <==> FreeOf({a, x, b}, v) && PrintsNo(y, v, true)
  {
    hide Contains, StringBody, PrintsNo, MemberPrintsNo, IsUnescaped;
    TwoPrintNo(a, Str(x), b, y, v);
    WordPrintsNo(a, Str(x), v);
    WordPrintsNo(b, y, v);
    TextPrintsNo(x, v);
    UnescapedIsItself(x);
  }

  lemma ResultWordsAreUnescaped()
    ensures IsUnescaped("status") && IsUnescaped("planned") && IsUnescaped("step")
    ensures IsUnescaped("step_id") && IsUnescaped("target_agent") && IsUnescaped("action")
    ensures "status" != "step" && "step_id" != "target_agent" && "target_agent" != "action" && "step_id" != "action"
  {
    assert "status"[2] == 'a' && "step"[2] == 'e';
    assert "step_id"[0] == 's' && "target_agent"[0] == 't' && "action"[0] == 'a';
  }

  lemma ResultHoldsNoExactly(step: WorkflowStep, v: string)
    requires HasNoStructure(v)
    ensures !Contains(ResultText(step), v) <==> FreeOf(ResultTexts(step), v)
  {
    hide Contains, HasNoStructure, StringBody, PrintsNo, IsUnescaped, Print;
    ResultWordsAreUnescaped();
    var inner := PlannedStep(step);
    ThreeTextsPrintNo("step_id", step.stepId, "target_agent", step.targetAgent, "action", step.action, v);
    WordAndValuePrintNo("status", "planned", "step", inner, v);
    PrintsExactly(Obj(map["status" := Str("planned"), "step" := inner]), v, true);
  }

  lemma KeptReferenceHoldsNoExactly(d: Dispatcher.Request, raw: seq<ToolIntent>, values: seq<string>, v: string, i: nat)
    requires "" !in values && IsRemoved(v, values) && HasNoPunctuation(v)
    requires i < |Dispatcher.Selected(d, RedactIntents(raw, values))|
    ensures var t := Dispatcher.Selected(d, RedactIntents(raw, values))[i];
      !Contains(t.metadataRef, v) <==> ReferenceHoldsNo(t, v)
  {
    assert values != [];
    hide Dispatcher.Selected, Dispatcher.IsFirst, Dispatcher.Normalize, ToolCatalog.Catalog, IsRemoved, RedactIntent,
         Contains, ReferenceHoldsNo, HasNoPunctuation;
    var intents := RedactIntents(raw, values);
    Dispatcher.SelectedIsFirst(d, intents, i);
    var j :| 0 <= j < |intents| && Dispatcher.IsFirst(d, intents, j) && |Dispatcher.Selected(d, intents[..j])| == i;
    Dispatcher.FirstIsSelected(d, intents, j);
    Dispatcher.FirstIsAllowed(d, intents, j);
    ReferenceHoldsNoExactly(raw[j], values, v);
    assert intents[j] == RedactIntent(raw[j], values);
  }

  lemma StepPrintsItsArguments(d: Dispatcher.Request, intents: seq<ToolIntent>, i: nat)
    requires i < |intents| && forall intent <- intents :: Dispatcher.IsEligible(d, intent)
    ensures Dispatcher.Steps(d, intents)[i].inputPayloadJson == Dumps(Obj(intents[i].arguments), true)
  {
    hide Dispatcher.RequiredScopes, Dumps, ToolCatalog.Catalog;
    assert Dispatcher.IsEligible(d, intents[i]);
    assert Dispatcher.StepFrom(i + 1, intents[i], d.tokenScopes) == Ok(Dispatcher.Steps(d, intents)[i]);
  }

  // Step and intent i, but for the agent and the names of the arguments.
  predicate PlainTextsHoldNo(w: WorkflowRecord, v: string, i: nat)
    requires i < |w.toolIntents| == |w.proposal.steps|
  {
    && StepTextsHoldNo(w.proposal.steps[i], v) && ServerAndToolHoldNo(w.toolIntents[i], v)
    && ReferenceHoldsNo(w.toolIntents[i], v) && PrintsNo(Obj(w.toolIntents[i].arguments), v, true)
  }

  lemma PlainTextsAreTheRest(w: WorkflowRecord, d: Dispatcher.Request, raw: seq<ToolIntent>, values: seq<string>,
                             v: string, i: nat)
    requires "" !in values && IsRemoved(v, values) && HasNoPunctuation(v) && IsPlannedFrom(w, d, raw, values)
    requires i < |w.toolIntents| == |w.proposal.steps|
    ensures PlainTextsHoldNo(w, v, i) <==>
      RestOfStepHoldsNo(w.proposal.steps[i], v) && RestOfIntentHoldsNo(w.toolIntents[i], v)
  {
    hide Contains, IsRemoved, HasNoStructure, StepTextsHoldNo, ServerAndToolHoldNo, ReferenceHoldsNo, PrintsNo, Print,
         Dispatcher.Selected, Dispatcher.Steps, Dispatcher.IsEligible, RedactIntents, Policy.Evaluate,
         Dispatcher.StepFrom;
    KeptReferenceHoldsNoExactly(d, raw, values, v, i);
    StepPrintsItsArguments(d, w.toolIntents, i);
    PrintsExactly(Obj(w.toolIntents[i].arguments), v, true);
  }

  predicate PlainCallsAreFree(r: RunRequest, steps: seq<WorkflowStep>, v: string) {
    forall i :: 0 <= i < |steps| ==> FreeOf(CallWords(r, steps, i), v) && FreeOf(ResultTexts(steps[i]), v)
  }

  lemma PlainCallsAreTheCalls(r: RunRequest, steps: seq<WorkflowStep>, v: string)
    requires HasNoStructure(v)
    ensures PlainCallsAreFree(r, steps, v) <==> CallsAreFree(r, steps, |steps|, v)
  {
    hide Contains, HasNoStructure, CallWords, ResultTexts, ResultText;
    forall i | 0 <= i < |steps|
      ensures FreeOf(CallTexts(r, steps, i), v) <==>
        FreeOf(CallWords(r, steps, i), v) && FreeOf(ResultTexts(steps[i]), v)
    {
      ResultHoldsNoExactly(steps[i], v);
    }
  }

  lemma OneStepPerIntent(w: WorkflowRecord, d: Dispatcher.Request, raw: seq<ToolIntent>, values: seq<string>)
    requires "" !in values && IsPlannedFrom(w, d, raw, values)
    ensures |w.toolIntents| == |w.proposal.steps|
  {
    hide Dispatcher.Selected, Dispatcher.IsEligible, Dispatcher.StepFrom, Policy.Evaluate, RedactIntents;
  }

  lemma AllPlainTextsAreTheRest(w: WorkflowRecord, d: Dispatcher.Request, raw: seq<ToolIntent>, values: seq<string>,
                                v: string, show: Hashing.TimeFormat)
    requires "" !in values && IsRemoved(v, values) && HasNoPunctuation(v) && IsPlannedFrom(w, d, raw, values)
    requires |w.toolIntents| == |w.proposal.steps|
    ensures RestOfRecordHoldsNo(w, v, show) <==>
      RecordTextsHoldNo(w, v, show) && forall i :: 0 <= i < |w.toolIntents| ==> PlainTextsHoldNo(w, v, i)
  {
    hide RecordTextsHoldNo, PlainTextsHoldNo, RestOfStepHoldsNo, RestOfIntentHoldsNo, IsRemoved, HasNoPunctuation,
         IsPlannedFrom;
    forall i | 0 <= i < |w.toolIntents|
      ensures PlainTextsHoldNo(w, v, i) <==>
        RestOfStepHoldsNo(w.proposal.steps[i], v) && RestOfIntentHoldsNo(w.toolIntents[i], v)
    {
      PlainTextsAreTheRest(w, d, raw, values, v, i);
    }
  }

  // The same for a value that no punctuation of the output touches, with nothing printed left in
  // the condition: the stream holds it exactly when a word, id, hash, time, scope or catalog text
  // does, or an agent, or a name, number, word or escaped string of the kept arguments.
  lemma PlainValueIsStreamedExactly(r: RunRequest, p: Planned, d: Dispatcher.Request, raw: seq<ToolIntent>,
                                    values: seq<string>, show: Hashing.TimeFormat, v: string)
    requires "" !in values && IsRemoved(v, values) && HasNoPunctuation(v)
    requires IsPlannedFrom(p.workflow, d, raw, values)
    ensures |p.workflow.toolIntents| == |p.workflow.proposal.steps|
    ensures var w := p.workflow;
      AllHoldNo(AgentEvents(r, Ok(p), values, show), v) <==>
      EventTextsAreFree(r, p, values, v) && PlainCallsAreFree(r, w.proposal.steps, v) &&
      RecordTextsHoldNo(w, v, show) && (forall i :: 0 <= i < |w.toolIntents| ==> PlainTextsHoldNo(w, v, i)) &&
      AgentsAndNamesHoldNo(w, v)
  {
    assert HasNoStructure(v);
    hide AllHoldNo, AgentEvents, EventTextsAreFree, PlainCallsAreFree, CallsAreFree, RecordTextsHoldNo,
         PlainTextsHoldNo, AgentsAndNamesHoldNo, RestOfRecordHoldsNo, IsRemoved, HasNoPunctuation, HasNoStructure,
         IsPlannedFrom;
    OneStepPerIntent(p.workflow, d, raw, values);
    PlannedStreamIsCleanExactly(r, p, d, raw, values, show, v);
    PlainCallsAreTheCalls(r, p.workflow.proposal.steps, v);
    AllPlainTextsAreTheRest(p.workflow, d, raw, values, v, show);
  }

  // An intent of the runtime that names v as the agent, whatever else it says.
  predicate NamesAgent(raw: ToolIntent, v: string) {
    raw.agentName == v && raw.toolName == "inspect_vm"
  }

  lemma NamedAgentIsKept(raw: ToolIntent, v: string)
    requires v != "" && NamesAgent(raw, v)
    ensures var kept := Dispatcher.Selected(Dispatcher.Request(["x"], None), RedactIntents([raw], [v]));
      |kept| == 1 && kept[0].agentName == v
  {
    var redacted := RedactIntents([raw], [v]);
    hide RedactIntents, Dispatcher.IsEligible, Dispatcher.Selected;
    Dispatcher.OneLetterScopeIsEligible(redacted[0]);
    Dispatcher.SelectedFromOne(Dispatcher.Request(["x"], None), redacted);
  }

  // With a token that has some other scope the value is the target of the planned step, and the
  // stream holds it.
  lemma AgentNameIsStreamed(r: RunRequest, p: Planned, show: Hashing.TimeFormat, raw: ToolIntent, v: string)
    requires v != "" && !SurvivesAlone(v) && NamesAgent(raw, v)
    requires IsPlannedFrom(p.workflow, Dispatcher.Request(["x"], None), [raw], [v])
    ensures |p.workflow.proposal.steps| == 1 && p.workflow.proposal.steps[0].targetAgent == v
    ensures !AllHoldNo(AgentEvents(r, Ok(p), [v], show), v)
  {
    hide AllHoldNo, AgentEvents, RestOfRecordHoldsNo, WordsAndIdsAreFree, SurvivesAlone, IsRedactable, Dispatcher.Steps,
         Dispatcher.Selected, Dispatcher.IsEligible, Dispatcher.StepFrom, RedactIntents, NamesHoldNo, Policy.Evaluate,
         Contains;
    var d := Dispatcher.Request(["x"], None);
    assert v in [v];
    NamedAgentIsKept(raw, v);
    StepGoesToItsAgent(d, p.workflow.toolIntents, 0);
    PlannedStreamIsCleanExactly(r, p, d, [raw], [v], show, v);
    ContainsItself(v);
    assert !AgentAndNamesHoldNo(p.workflow.toolIntents[0], v);
  }

  lemma ContainsItself(v: string)
    ensures Contains(v, v)
  {
    assert v[0..][..|v|] == v;
  }
}
