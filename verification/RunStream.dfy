// The event stream of a run: written by the agent service, passed on by the gateway.
module RunStream {
  import opened Wrappers
  import opened Text
  import opened Json
  import opened Models
  import opened Redaction
  import opened Sse
  import opened PublicRecord
  import BrowserView
  import Dispatcher
  import Hashing

  datatype RunRequest = RunRequest(threadId: Option<string>, runId: string)

  // What the runtime said and what planning saved.
  datatype Planned = Planned(assistantMessage: string, workflow: WorkflowRecord)

  // ---- The grammar of a run ----

  datatype Token =
    | Started | Finished | Errored
    | TextStart(id: string) | TextContent(id: string) | TextEnd(id: string)
    | CallStart(id: string) | CallArgs(id: string) | CallEnd(id: string) | CallResult(id: string)
    | Notice | Unknown

  function Field(e: Event, name: string): Option<string> {
    match Get(e, name)
    case Some(Str(text)) => Some(text)
    case _ => None
  }

  function TextToken(kind: string, id: string, delta: Option<string>): Token {
    if kind == "TEXT_MESSAGE_START" then TextStart(id)
    else if kind == "TEXT_MESSAGE_END" then TextEnd(id)
    else if kind == "TEXT_MESSAGE_CONTENT" && Truthy(delta) then TextContent(id)
    else Unknown
  }

  function CallToken(kind: string, id: string): Token {
    if kind == "TOOL_CALL_START" then CallStart(id)
    else if kind == "TOOL_CALL_ARGS" then CallArgs(id)
    else if kind == "TOOL_CALL_END" then CallEnd(id)
    else if kind == "TOOL_CALL_RESULT" then CallResult(id)
    else Unknown
  }

  function Classify(kind: string, call: Option<string>, message: Option<string>, delta: Option<string>): Token {
    if kind == "RUN_STARTED" then Started
    else if kind == "RUN_FINISHED" then Finished
    else if kind == "RUN_ERROR" then Errored
    else if kind == "STATE_DELTA" || kind == "CUSTOM" then Notice
    else if call.Some? then CallToken(kind, call.value)
    else if message.Some? then TextToken(kind, message.value, delta)
    else Unknown
  }

  function TokenOf(e: Event): Token {
    match Field(e, "type")
    case None => Unknown
    case Some(kind) => Classify(kind, Field(e, "toolCallId"), Field(e, "messageId"), Field(e, "delta"))
  }

  // Inside a run: the text or call that is open, the ids used so far, and the calls that wait
  // for their result.
  datatype Phase =
    | Before
    | Running(text: Option<string>, call: Option<string>, used: set<string>, waiting: set<string>)
    | Ended
    | Broken

  const FRESH := Running(None, None, {}, {})

  // Between texts and calls.
  function AdvanceIdle(used: set<string>, waiting: set<string>, t: Token): Phase {
    match t
    case TextStart(id) => if id in used then Broken else Running(Some(id), None, used + {id}, waiting)
    case CallStart(id) => if id in used then Broken else Running(None, Some(id), used + {id}, waiting)
    case CallResult(id) => if id in waiting then Running(None, None, used, waiting - {id}) else Broken
    case Notice => Running(None, None, used, waiting)
    case Finished => if waiting == {} then Ended else Broken
    case Errored => Ended
    case _ => Broken
  }

  function Advance(p: Phase, t: Token): Phase {
    match p
    case Before => if t == Started then FRESH else Broken
    case Running(None, None, used, waiting) => AdvanceIdle(used, waiting, t)
    case Running(Some(id), _, used, waiting) =>
      if t == Errored then Ended
      else if t == TextContent(id) then p
      else if t == TextEnd(id) then Running(None, None, used, waiting)
      else Broken
    case Running(None, Some(id), used, waiting) =>
      if t == Errored then Ended
      else if t == CallArgs(id) then p
      else if t == CallEnd(id) then Running(None, None, used, waiting + {id})
      else Broken
    case _ => Broken
  }

  function Accept(p: Phase, events: seq<Event>): Phase
    decreases events
  {
    if events == [] then p else Accept(Advance(p, TokenOf(events[0])), events[1..])
  }

  // One RUN_STARTED first, texts and calls bracketed with ids of their own, every call answered
  // before a RUN_FINISHED, one terminal event, last.
  predicate IsRun(events: seq<Event>) {
    Accept(Before, events) == Ended
  }

  lemma {:induction false} AcceptSplits(p: Phase, a: seq<Event>, b: seq<Event>)
    ensures Accept(p, a + b) == Accept(Accept(p, a), b)
    decreases a
  {
    hide Advance, TokenOf;
    if a == [] {
      assert a + b == b;
    } else {
      assert (a + b)[1..] == a[1..] + b;
      AcceptSplits(Advance(p, TokenOf(a[0])), a[1..], b);
    }
  }

  lemma AcceptOne(p: Phase, e: Event)
    ensures Accept(p, [e]) == Advance(p, TokenOf(e))
  {
    hide Advance, TokenOf;
    assert [e][1..] == [];
  }

  lemma {:induction false} NothingComesAfter(p: Phase, events: seq<Event>)
    requires p == Ended || p == Broken
    ensures Accept(p, events) == if events == [] then p else Broken
    decreases events
  {
    hide TokenOf;
    if events != [] {
      NothingComesAfter(Broken, events[1..]);
    }
  }

  lemma {:induction false} NothingComesBefore(p: Phase, events: seq<Event>)
    requires p != Before
    ensures Accept(p, events) != Before
    decreases events
  {
    hide TokenOf;
    if events != [] {
      NothingComesBefore(Advance(p, TokenOf(events[0])), events[1..]);
    }
  }

  // A run that is cut short is still running.
  lemma ProperPrefixIsRunning(events: seq<Event>, k: nat)
    requires IsRun(events) && k < |events|
    ensures k == 0 ==> Accept(Before, events[..k]) == Before
    ensures k > 0 ==> Accept(Before, events[..k]).Running? && TokenOf(events[0]) == Started
  {
    hide TokenOf;
    AcceptSplits(Before, events[..k], events[k..]);
    assert events[..k] + events[k..] == events;
    var p := Accept(Before, events[..k]);
    if p == Ended || p == Broken {
      NothingComesAfter(p, events[k..]);
    }
    if k > 0 {
      NothingComesAfter(Broken, events[1..]);
      assert events[..k][0] == events[0];
      NothingComesBefore(Advance(Before, TokenOf(events[0])), events[..k][1..]);
    }
  }

  lemma {:induction false} StartedOnlyOnce(p: Phase, events: seq<Event>, i: nat)
    requires p.Running? && i < |events| && TokenOf(events[i]) == Started
    ensures Accept(p, events) == Broken
    decreases events
  {
    hide TokenOf;
    if i == 0 {
      NothingComesAfter(Broken, events[1..]);
    } else {
      var next := Advance(p, TokenOf(events[0]));
      if next.Running? {
        StartedOnlyOnce(next, events[1..], i - 1);
      } else {
        NothingComesAfter(next, events[1..]);
      }
    }
  }

  predicate IsTerminal(t: Token) {
    t == Finished || t == Errored
  }

  lemma {:induction false} TerminalOnlyLast(p: Phase, events: seq<Event>, i: nat)
    requires p.Running? && i + 1 < |events| && IsTerminal(TokenOf(events[i]))
    ensures Accept(p, events) == Broken
    decreases events
  {
    hide TokenOf;
    var next := Advance(p, TokenOf(events[0]));
    if i > 0 && next.Running? {
      TerminalOnlyLast(next, events[1..], i - 1);
    } else {
      NothingComesAfter(next, events[1..]);
    }
  }

  lemma {:induction false} EndsWithTerminal(p: Phase, events: seq<Event>)
    requires p.Running? && Accept(p, events) == Ended
    ensures events != [] && IsTerminal(TokenOf(events[|events| - 1]))
    decreases events
  {
    hide TokenOf;
    var next := Advance(p, TokenOf(events[0]));
    if next.Running? {
      EndsWithTerminal(next, events[1..]);
    } else {
      NothingComesAfter(next, events[1..]);
    }
  }

  // One RUN_STARTED, first, and one terminal event, last.
  predicate IsBegunAndEndedOnce(events: seq<Event>) {
    && events != []
    && (forall i :: 0 <= i < |events| ==> (TokenOf(events[i]) == Started <==> i == 0))
    && (forall i :: 0 <= i < |events| ==> (IsTerminal(TokenOf(events[i])) <==> i == |events| - 1))
  }

  lemma RunIsBegunAndEndedOnce(events: seq<Event>)
    requires IsRun(events)
    ensures IsBegunAndEndedOnce(events)
  {
    hide TokenOf;
    var tail := events[1..];
    NothingComesAfter(Broken, tail);
    assert Accept(FRESH, tail) == Ended;
    EndsWithTerminal(FRESH, tail);
    forall i | 0 < i < |events|
      ensures TokenOf(events[i]) != Started && (IsTerminal(TokenOf(events[i])) <==> i == |events| - 1)
    {
      assert events[i] == tail[i - 1];
      if TokenOf(tail[i - 1]) == Started {
        StartedOnlyOnce(FRESH, tail, i - 1);
      }
      if IsTerminal(TokenOf(tail[i - 1])) && i < |events| - 1 {
        TerminalOnlyLast(FRESH, tail, i - 1);
      }
    }
  }

  // ---- What the agent service writes ----

  function OptionalText(text: Option<string>): Json {
    match text
    case None => Null
    case Some(s) => Str(s)
  }

  function RunStarted(r: RunRequest): Event {
    map["type" := Str("RUN_STARTED"), "threadId" := OptionalText(r.threadId), "runId" := Str(r.runId)]
  }

  function RunFinished(r: RunRequest): Event {
    map["type" := Str("RUN_FINISHED"), "threadId" := OptionalText(r.threadId), "runId" := Str(r.runId)]
  }

  function RunError(message: string, code: string): Event {
    map["type" := Str("RUN_ERROR"), "message" := Str(message), "code" := Str(code)]
  }

  function MessageId(r: RunRequest): string {
    r.runId + ":assistant"
  }

  function TextStartEvent(id: string): Event {
    map["type" := Str("TEXT_MESSAGE_START"), "messageId" := Str(id), "role" := Str("assistant")]
  }

  function TextContentEvent(id: string, delta: string): Event {
    map["type" := Str("TEXT_MESSAGE_CONTENT"), "messageId" := Str(id), "delta" := Str(delta)]
  }

  function TextEndEvent(id: string): Event {
    map["type" := Str("TEXT_MESSAGE_END"), "messageId" := Str(id)]
  }

  function StateDelta(payload: Json): Event {
    map["type" := Str("STATE_DELTA"),
        "delta" := Arr([Obj(map["op" := Str("add"), "path" := Str("/workflow"), "value" := payload])])]
  }

  function CallStartEvent(id: string, tool: string, message: string): Event {
    map["type" := Str("TOOL_CALL_START"), "toolCallId" := Str(id), "toolCallName" := Str(tool),
      "parentMessageId" := Str(message)]
  }

  function CallArgsEvent(id: string, delta: string): Event {
    map["type" := Str("TOOL_CALL_ARGS"), "toolCallId" := Str(id), "delta" := Str(delta)]
  }

  function CallEndEvent(id: string): Event {
    map["type" := Str("TOOL_CALL_END"), "toolCallId" := Str(id)]
  }

  function PlannedStep(step: WorkflowStep): Json {
    Obj(map["step_id" := Str(step.stepId), "target_agent" := Str(step.targetAgent), "action" := Str(step.action)])
  }

  function ResultText(step: WorkflowStep): string {
    Dumps(Obj(map["status" := Str("planned"), "step" := PlannedStep(step)]), true)
  }

  function CallResultEvent(id: string, step: WorkflowStep, message: string): Event {
    map["type" := Str("TOOL_CALL_RESULT"), "messageId" := Str(message), "toolCallId" := Str(id),
        "content" := Str(ResultText(step)), "role" := Str("tool")]
  }

  function StringList(xs: seq<string>): Json {
    Arr(seq(|xs|, i requires 0 <= i < |xs| => Str(xs[i])))
  }

  function ApprovalRequested(w: WorkflowRecord): Event {
    map["type" := Str("CUSTOM"), "name" := Str("hitl.approval.requested"),
        "value" := Obj(map["kind" := Str("HITL_APPROVAL"), "workflow_id" := Str(w.workflowId),
          "plan_hash" := Str(w.planHash),
                           "required_scopes" := StringList(w.policy.requiredScopes),
                           "message" := Str(w.policy.humanDescription)])]
  }

  // A step without an id goes by its place, counted from one.
  function CallId(r: RunRequest, steps: seq<WorkflowStep>, i: nat): string
    requires i < |steps|
  {
    r.runId + ":" + if steps[i].stepId != "" then steps[i].stepId else Dispatcher.StepId(i + 1)
  }

  function CallEvents(r: RunRequest, steps: seq<WorkflowStep>, i: nat, values: seq<string>): seq<Event>
    requires i < |steps| && "" !in values
  {
    var id := CallId(r, steps, i);
    [CallStartEvent(id, steps[i].action, MessageId(r)),
     CallArgsEvent(id, ReplaceAll(steps[i].inputPayloadJson, values)),
     CallEndEvent(id), CallResultEvent(id, steps[i], MessageId(r))]
  }

  function AllCallEvents(r: RunRequest, steps: seq<WorkflowStep>, n: nat, values: seq<string>): seq<Event>
    requires n <= |steps| && "" !in values
  {
    if n == 0 then [] else AllCallEvents(r, steps, n - 1, values) + CallEvents(r, steps, n - 1, values)
  }

  function TextEvents(id: string, text: string): seq<Event> {
    [TextStartEvent(id)] + (if text != "" then [TextContentEvent(id, text)] else []) + [TextEndEvent(id)]
  }

  function ApprovalEvents(w: WorkflowRecord): seq<Event> {
    if w.status == AwaitingApproval then [ApprovalRequested(w)] else []
  }

  function PlanEvents(r: RunRequest, p: Planned, values: seq<string>, show: Hashing.TimeFormat): seq<Event>
    requires "" !in values
  {
    TextEvents(MessageId(r), ReplaceAll(p.assistantMessage, values))
    + [StateDelta(PublicWorkflow(p.workflow, show))]
    + AllCallEvents(r, p.workflow.proposal.steps, |p.workflow.proposal.steps|, values)
    + ApprovalEvents(p.workflow)
    + [RunFinished(r)]
  }

  // `values` are the sensitive ones, in the order in which the set is visited; an error is the
  // text of what the runtime or planning raised.
  function AgentEvents(r: RunRequest, outcome: Result<Planned, string>, values: seq<string>,
                       show: Hashing.TimeFormat): seq<Event>
    requires "" !in values
  {
    [RunStarted(r)] + match outcome
      case Err(text) => [RunError(ReplaceAll(text, values), "AGENT_RUNTIME_ERROR")]
      case Ok(p) => PlanEvents(r, p, values, show)
  }

  // ---- What a browser makes of it ----

  // The kinds of event are different words.
  lemma KindsDiffer()
    ensures "RUN_STARTED"[4] == 'S' && "RUN_FINISHED"[4] == 'F' && "RUN_ERROR"[4] == 'E'
    ensures "STATE_DELTA"[0] == 'S' && "CUSTOM"[0] == 'C'
    ensures "TEXT_MESSAGE_START"[1] == 'E' && "TEXT_MESSAGE_CONTENT"[1] == 'E' && "TEXT_MESSAGE_END"[1] == 'E'
    ensures "TOOL_CALL_START"[1] == 'O' && "TOOL_CALL_ARGS"[1] == 'O' && "TOOL_CALL_END"[1] == 'O' &&
      "TOOL_CALL_RESULT"[1] == 'O'
    ensures "TOOL_CALL_START"[0] == 'T' && "TOOL_CALL_ARGS"[0] == 'T' && "TOOL_CALL_END"[0] == 'T' &&
      "TOOL_CALL_RESULT"[0] == 'T'
    ensures "TEXT_MESSAGE_START"[0] == 'T' && "TEXT_MESSAGE_CONTENT"[0] == 'T' && "TEXT_MESSAGE_END"[0] == 'T'
    ensures "RUN_STARTED"[0] == 'R' && "RUN_FINISHED"[0] == 'R' && "RUN_ERROR"[0] == 'R'
    ensures "TOOL_CALL_START"[10] == 'S' && "TOOL_CALL_ARGS"[10] == 'A' && "TOOL_CALL_END"[10] == 'E' &&
      "TOOL_CALL_RESULT"[10] == 'R'
    ensures "TEXT_MESSAGE_START"[13] == 'S' && "TEXT_MESSAGE_CONTENT"[13] == 'C' && "TEXT_MESSAGE_END"[13] == 'E'
  {
  }

  // The calls of the plan have ids of their own, none of them that of the message.
  predicate IdsAreDistinct(r: RunRequest, steps: seq<WorkflowStep>) {
    && (forall i, j :: 0 <= i < |steps| && 0 <= j < |steps| && CallId(r, steps, i) == CallId(r, steps, j) ==> i == j)
    && (forall i :: 0 <= i < |steps| ==> CallId(r, steps, i) != MessageId(r))
  }

  // The text of a planned result: it parses to the step's own id, agent and tool.
  predicate IsPlannedResult(content: string, step: WorkflowStep) {
    Loads(content).Some? && Loads(content).value.Obj? &&
    var result := Loads(content).value.members;
    && result.Keys == {"status", "step"} && result["status"] == Str("planned") && result["step"].Obj?
    && var planned := result["step"].members;
    && planned.Keys == {"step_id", "target_agent", "action"} && planned["step_id"] == Str(step.stepId)
    && planned["target_agent"] == Str(step.targetAgent) && planned["action"] == Str(step.action)
  }

  // A step as it is shown: its tool, under the assistant's message, with its payload as far as it
  // is not sensitive, and its planned result.
  predicate IsShown(c: BrowserView.CallView, runId: string, step: WorkflowStep, values: seq<string>)
    requires "" !in values
  {
    && c.tool == step.action && c.message == runId + ":assistant" && c.done
    && c.args == ReplaceAll(step.inputPayloadJson, values)
    && c.result.Some? && c.result.value.message == runId + ":assistant" && c.result.value.role == "tool"
    && IsPlannedResult(c.result.value.content, step)
  }

  // What the browser is asked to approve: the record's own id, hash, scopes and description.
  predicate IsApprovalRequest(notice: (string, Option<Json>), w: WorkflowRecord) {
    notice.0 == "hitl.approval.requested" && notice.1.Some? && notice.1.value.Obj? &&
    var value := notice.1.value.members;
    && value.Keys == {"kind", "workflow_id", "plan_hash", "required_scopes", "message"}
    && value["kind"] == Str("HITL_APPROVAL") && value["workflow_id"] == Str(w.workflowId)
    && value["plan_hash"] == Str(w.planHash) && value["message"] == Str(w.policy.humanDescription)
    && value["required_scopes"].Arr? && |value["required_scopes"].items| == |w.policy.requiredScopes|
    && forall i :: 0 <= i < |w.policy.requiredScopes| ==>
      value["required_scopes"].items[i] == Str(w.policy.requiredScopes[i])
  }

  predicate AreShown(calls: map<string, BrowserView.CallView>, r: RunRequest, steps: seq<WorkflowStep>, n: nat,
                     values: seq<string>)
    requires n <= |steps| && "" !in values
  {
    && (forall id <- calls :: exists i :: 0 <= i < n && id == CallId(r, steps, i))
    && (forall i :: 0 <= i < n ==>
          CallId(r, steps, i) in calls && IsShown(calls[CallId(r, steps, i)], r.runId, steps[i], values) &&
          IsStepOf(CallId(r, steps, i), r.runId, steps[i].stepId, i + 1))
  }

  // The id of a call: that of the run, and that of the step or else its number.
  predicate IsStepOf(id: string, runId: string, stepId: string, number: nat) {
    id == runId + ":" + if stepId == "" then "step-" + Decimal(number) else stepId
  }

  function RunOf(r: RunRequest): BrowserView.RunView {
    BrowserView.RunView(Some(match r.threadId case None => Null case Some(id) => Str(id)), r.runId)
  }

  // What is shown at the end: the run begun and ended once, the message, the calls, the record and
  // the request for approval, if the plan waits for one; or the failure.
  predicate ShowsRun(v: BrowserView.View, r: RunRequest, outcome: Result<Planned, string>, values: seq<string>,
                     show: Hashing.TimeFormat)
    requires "" !in values
  {
    v.began == [RunOf(r)] &&
    match outcome
    case Err(text) =>
      v == BrowserView.BLANK.(began := [RunOf(r)],
        ended := [BrowserView.Failed(ReplaceAll(text, values), "AGENT_RUNTIME_ERROR")])
    case Ok(p) =>
      && v.texts
         == map[r.runId + ":assistant" :=
                  BrowserView.TextView("assistant", ReplaceAll(p.assistantMessage, values), true)]
      && AreShown(v.calls, r, p.workflow.proposal.steps, |p.workflow.proposal.steps|, values)
      && v.state == map["workflow" := PublicWorkflow(p.workflow, show)]
      && (if p.workflow.status == AwaitingApproval
            then |v.notices| == 1 && IsApprovalRequest(v.notices[0], p.workflow)
          else v.notices == [])
      && v.ended == [BrowserView.Finished(RunOf(r))]
  }

  lemma SeeRunEvents(v: BrowserView.View, r: RunRequest, message: string, code: string)
    ensures BrowserView.See(v, RunStarted(r)) == v.(began := v.began + [RunOf(r)])
    ensures BrowserView.See(v, RunFinished(r)) == v.(ended := v.ended + [BrowserView.Finished(RunOf(r))])
    ensures BrowserView.See(v, RunError(message, code)) == v.(ended := v.ended + [BrowserView.Failed(message, code)])
  {
    KindsDiffer();
  }

  lemma SeeTextEvents(v: BrowserView.View, id: string, text: string)
    ensures BrowserView.SeeAll(v, TextEvents(id, text))
      == v.(texts := v.texts[id := BrowserView.TextView("assistant", text, true)])
  {
    var begun := v.(texts := v.texts[id := BrowserView.TextView("assistant", "", false)]);
    var filled := v.(texts := v.texts[id := BrowserView.TextView("assistant", text, false)]);
    SeeTextStart(v, id);
    SeeTextContent(begun, id, text);
    SeeTextEnd(filled, id);
    hide BrowserView.See, TextStartEvent, TextContentEvent, TextEndEvent;
    assert "" + text == text;
    assert begun.texts[id := BrowserView.TextView("assistant", text, false)] == filled.texts;
    BrowserView.SeeOne(v, TextStartEvent(id));
    if text != "" {
      BrowserView.SeeAllSplits(v, [TextStartEvent(id)], [TextContentEvent(id, text)]);
      BrowserView.SeeOne(begun, TextContentEvent(id, text));
      BrowserView.SeeAllSplits(v, [TextStartEvent(id)] + [TextContentEvent(id, text)], [TextEndEvent(id)]);
    } else {
      assert [TextStartEvent(id)] + [] == [TextStartEvent(id)];
      BrowserView.SeeAllSplits(v, [TextStartEvent(id)], [TextEndEvent(id)]);
    }
    BrowserView.SeeOne(filled, TextEndEvent(id));
    assert filled.texts[id := BrowserView.TextView("assistant", text, true)]
      == v.texts[id := BrowserView.TextView("assistant", text, true)];
  }

  lemma SeeTextStart(v: BrowserView.View, id: string)
    ensures BrowserView.See(v, TextStartEvent(id))
      == v.(texts := v.texts[id := BrowserView.TextView("assistant", "", false)])
  {
    KindsDiffer();
    assert "toolCallId"[0] == 't' && "messageId"[0] == 'm' && "role"[0] == 'r' && "toolCallId"[1] == 'o';
  }

  lemma SeeTextContent(v: BrowserView.View, id: string, delta: string)
    requires id in v.texts
    ensures BrowserView.See(v, TextContentEvent(id, delta))
      == v.(texts := v.texts[id := v.texts[id].(text := v.texts[id].text + delta)])
  {
    KindsDiffer();
    assert "toolCallId"[0] == 't' && "messageId"[0] == 'm' && "delta"[0] == 'd' && "toolCallId"[1] == 'o';
  }

  lemma SeeTextEnd(v: BrowserView.View, id: string)
    requires id in v.texts
    ensures BrowserView.See(v, TextEndEvent(id)) == v.(texts := v.texts[id := v.texts[id].(done := true)])
  {
    KindsDiffer();
    assert "toolCallId"[0] == 't' && "messageId"[0] == 'm' && "toolCallId"[1] == 'o';
  }

  lemma SeeCallStart(v: BrowserView.View, id: string, tool: string, message: string)
    ensures BrowserView.See(v, CallStartEvent(id, tool, message))
      == v.(calls := v.calls[id := BrowserView.CallView(tool, message, "", false, None)])
  {
    KindsDiffer();
    assert "toolCallId"[8] == 'I' && "toolCallName"[8] == 'N' && "parentMessageId"[0] == 'p';
  }

  lemma SeeCallArgs(v: BrowserView.View, id: string, delta: string)
    requires id in v.calls
    ensures BrowserView.See(v, CallArgsEvent(id, delta))
      == v.(calls := v.calls[id := v.calls[id].(args := v.calls[id].args + delta)])
  {
    KindsDiffer();
    assert "toolCallId"[0] == 't' && "delta"[0] == 'd';
  }

  lemma SeeCallEnd(v: BrowserView.View, id: string)
    requires id in v.calls
    ensures BrowserView.See(v, CallEndEvent(id)) == v.(calls := v.calls[id := v.calls[id].(done := true)])
  {
    KindsDiffer();
  }

  lemma SeeCallResult(v: BrowserView.View, id: string, step: WorkflowStep, message: string)
    requires id in v.calls
    ensures BrowserView.See(v, CallResultEvent(id, step, message))
      == v.(calls :=
        v.calls[id := v.calls[id].(result := Some(BrowserView.ResultView(message, "tool", ResultText(step))))])
  {
    KindsDiffer();
    assert "toolCallId"[0] == 't' && "messageId"[0] == 'm' && "content"[0] == 'c' && "role"[0] == 'r';
    hide ResultText;
  }

  lemma SeeDeltaEvent(v: BrowserView.View, payload: Json)
    ensures BrowserView.See(v, StateDelta(payload)) == v.(state := v.state["workflow" := payload])
  {
    KindsDiffer();
    assert "op"[0] == 'o' && "path"[0] == 'p' && "value"[0] == 'v' && "/workflow"[1..] == "workflow";
    assert "type"[0] == 't' && "delta"[0] == 'd';
  }

  lemma SeeApproval(v: BrowserView.View, w: WorkflowRecord) returns (notice: (string, Option<Json>))
    ensures BrowserView.See(v, ApprovalRequested(w)) == v.(notices := v.notices + [notice])
    ensures IsApprovalRequest(notice, w)
  {
    var e := ApprovalRequested(w);
    notice := (BrowserView.TextOf(e, "name"), Get(e, "value"));
    KindsDiffer();
    assert "type"[0] == 't' && "name"[0] == 'n' && "value"[0] == 'v';
    ApprovalMembers(w);
  }

  lemma ApprovalMembers(w: WorkflowRecord)
    ensures IsApprovalRequest((BrowserView.TextOf(ApprovalRequested(w), "name"), Get(ApprovalRequested(w), "value")), w)
  {
    assert "type"[0] == 't' && "name"[0] == 'n' && "value"[0] == 'v';
    assert "kind"[0] == 'k' && "workflow_id"[0] == 'w' && "plan_hash"[0] == 'p' && "required_scopes"[0] == 'r' &&
      "message"[0] == 'm';
    var value := ApprovalRequested(w)["value"].members;
    assert value.Keys == {"kind", "workflow_id", "plan_hash", "required_scopes", "message"};
  }

  lemma ResultIsPlanned(step: WorkflowStep)
    ensures IsPlannedResult(ResultText(step), step)
  {
    var result := map["status" := Str("planned"), "step" := PlannedStep(step)];
    DumpsReadsBack(Obj(result), true);
    hide Loads, Dumps;
    assert "status"[2] == 'a' && "step"[2] == 'e';
    assert "step_id"[0] == 's' && "target_agent"[0] == 't' && "action"[0] == 'a';
    var planned := PlannedStep(step).members;
    assert planned.Keys == {"step_id", "target_agent", "action"};
    assert result.Keys == {"status", "step"};
  }

  lemma SeeFour(v: BrowserView.View, a: Event, b: Event, c: Event, d: Event)
    ensures BrowserView.SeeAll(v, [a, b, c, d])
      == BrowserView.See(BrowserView.See(BrowserView.See(BrowserView.See(v, a), b), c), d)
  {
    hide BrowserView.See;
    assert [a, b, c, d] == [a] + [b] + [c] + [d];
    BrowserView.SeeAllSplits(v, [a] + [b] + [c], [d]);
    BrowserView.SeeAllSplits(v, [a] + [b], [c]);
    BrowserView.SeeAllSplits(v, [a], [b]);
    BrowserView.SeeOne(v, a);
    BrowserView.SeeOne(BrowserView.SeeAll(v, [a]), b);
    BrowserView.SeeOne(BrowserView.SeeAll(v, [a] + [b]), c);
    BrowserView.SeeOne(BrowserView.SeeAll(v, [a] + [b] + [c]), d);
  }

  lemma SeeCallEvents(v: BrowserView.View, r: RunRequest, steps: seq<WorkflowStep>, i: nat, values: seq<string>)
    returns (c: BrowserView.CallView)
    requires i < |steps| && "" !in values
    ensures BrowserView.SeeAll(v, CallEvents(r, steps, i, values)) == v.(calls := v.calls[CallId(r, steps, i) := c])
    ensures IsShown(c, r.runId, steps[i], values)
  {
    hide BrowserView.See, CallStartEvent, CallArgsEvent, CallEndEvent, CallResultEvent, ReplaceAll, CallId,
         ResultText, IsPlannedResult;
    var (id, step, m) := (CallId(r, steps, i), steps[i], MessageId(r));
    var args := ReplaceAll(step.inputPayloadJson, values);
    var c1 := BrowserView.CallView(step.action, m, "", false, None);
    var c2 := BrowserView.CallView(step.action, m, args, false, None);
    var c3 := c2.(done := true);
    c := c3.(result := Some(BrowserView.ResultView(m, "tool", ResultText(step))));
    var (v1, v2) := (v.(calls := v.calls[id := c1]), v.(calls := v.calls[id := c2]));
    var v3 := v.(calls := v.calls[id := c3]);
    SeeFour(v, CallStartEvent(id, step.action, m), CallArgsEvent(id, args), CallEndEvent(id),
      CallResultEvent(id, step, m));
    SeeCallStart(v, id, step.action, m);
    SeeCallArgs(v1, id, args);
    assert "" + args == args && v1.calls[id := c2] == v2.calls;
    SeeCallEnd(v2, id);
    assert v2.calls[id := c3] == v3.calls;
    SeeCallResult(v3, id, step, m);
    assert v3.calls[id := c] == v.calls[id := c];
    ResultIsPlanned(step);
  }

  lemma CallIdIs(r: RunRequest, steps: seq<WorkflowStep>, i: nat)
    requires i < |steps|
    ensures IsStepOf(CallId(r, steps, i), r.runId, steps[i].stepId, i + 1)
  {
  }

  lemma {:induction false} SeeAllCalls(v: BrowserView.View, r: RunRequest, steps: seq<WorkflowStep>, n: nat,
                                       values: seq<string>)
    requires n <= |steps| && "" !in values && IdsAreDistinct(r, steps) && v.calls == map[]
    ensures var after := BrowserView.SeeAll(v, AllCallEvents(r, steps, n, values));
      after == v.(calls := after.calls) && AreShown(after.calls, r, steps, n, values)
  {
    hide CallEvents, CallId, IsShown, IsStepOf, MessageId, BrowserView.See;
    if n > 0 {
      CallIdIs(r, steps, n - 1);
      SeeAllCalls(v, r, steps, n - 1, values);
      var before := BrowserView.SeeAll(v, AllCallEvents(r, steps, n - 1, values));
      BrowserView.SeeAllSplits(v, AllCallEvents(r, steps, n - 1, values), CallEvents(r, steps, n - 1, values));
      var c := SeeCallEvents(before, r, steps, n - 1, values);
    }
  }

  lemma SeePlanEvents(v: BrowserView.View, r: RunRequest, p: Planned, values: seq<string>, show: Hashing.TimeFormat)
    requires "" !in values && IdsAreDistinct(r, p.workflow.proposal.steps)
    requires v == BrowserView.BLANK.(began := [RunOf(r)])
    ensures ShowsRun(BrowserView.SeeAll(v, PlanEvents(r, p, values, show)), r, Ok(p), values, show)
  {
    hide BrowserView.See, TextEvents, StateDelta, AllCallEvents, RunFinished, ReplaceAll, IdsAreDistinct, AreShown,
         PublicWorkflow, IsApprovalRequest, ApprovalRequested;
    var (w, steps) := (p.workflow, p.workflow.proposal.steps);
    var text := ReplaceAll(p.assistantMessage, values);
    var (a, b, c, d, e) := (TextEvents(MessageId(r), text), [StateDelta(PublicWorkflow(w, show))],
      AllCallEvents(r, steps, |steps|, values), ApprovalEvents(w), [RunFinished(r)]);
    SeeTextEvents(v, MessageId(r), text);
    var v1 := BrowserView.SeeAll(v, a);
    BrowserView.SeeAllSplits(v, a, b);
    SeeDeltaEvent(v1, PublicWorkflow(w, show));
    BrowserView.SeeOne(v1, StateDelta(PublicWorkflow(w, show)));
    var v2 := BrowserView.SeeAll(v, a + b);
    BrowserView.SeeAllSplits(v, a + b, c);
    SeeAllCalls(v2, r, steps, |steps|, values);
    var v3 := BrowserView.SeeAll(v, a + b + c);
    BrowserView.SeeAllSplits(v, a + b + c, d);
    if w.status == AwaitingApproval {
      BrowserView.SeeOne(v3, ApprovalRequested(w));
      var notice := SeeApproval(v3, w);
    }
    var v4 := BrowserView.SeeAll(v, a + b + c + d);
    BrowserView.SeeAllSplits(v, a + b + c + d, e);
    SeeRunEvents(v4, r, "", "");
    BrowserView.SeeOne(v4, RunFinished(r));
  }

  // The browser ends up with what was planned, or with why it failed.
  lemma BrowserShowsTheRun(r: RunRequest, outcome: Result<Planned, string>, values: seq<string>,
                           show: Hashing.TimeFormat)
    requires "" !in values && (outcome.Ok? ==> IdsAreDistinct(r, outcome.value.workflow.proposal.steps))
    ensures ShowsRun(BrowserView.SeeAll(BrowserView.BLANK, AgentEvents(r, outcome, values, show)), r, outcome, values,
                     show)
  {
    hide BrowserView.See, RunStarted, RunError, PlanEvents, IdsAreDistinct, ReplaceAll, AreShown, PublicWorkflow;
    var v := BrowserView.BLANK.(began := [RunOf(r)]);
    SeeRunEvents(BrowserView.BLANK, r, "", "");
    BrowserView.SeeOne(BrowserView.BLANK, RunStarted(r));
    assert BrowserView.SeeAll(BrowserView.BLANK, [RunStarted(r)]) == v by {
      assert [] + [RunOf(r)] == [RunOf(r)];
    }
    match outcome
    case Ok(p) =>
      SeePlanEvents(v, r, p, values, show);
      BrowserView.SeeAllSplits(BrowserView.BLANK, [RunStarted(r)], PlanEvents(r, p, values, show));
    case Err(text) =>
      var failed := RunError(ReplaceAll(text, values), "AGENT_RUNTIME_ERROR");
      SeeRunEvents(v, r, ReplaceAll(text, values), "AGENT_RUNTIME_ERROR");
      BrowserView.SeeAllSplits(BrowserView.BLANK, [RunStarted(r)], [failed]);
      BrowserView.SeeOne(v, failed);
      assert v.ended + [BrowserView.Failed(ReplaceAll(text, values), "AGENT_RUNTIME_ERROR")]
        == [BrowserView.Failed(ReplaceAll(text, values), "AGENT_RUNTIME_ERROR")];
  }

  // Where the steps have distinct ids, as those of a dispatch do, these events show the run.
  predicate AreShownAsRun(events: seq<Event>, r: RunRequest, outcome: Result<Planned, string>, values: seq<string>,
                          show: Hashing.TimeFormat)
    requires "" !in values
  {
    (outcome.Err? || IdsAreDistinct(r, outcome.value.workflow.proposal.steps)) ==>
      ShowsRun(BrowserView.SeeAll(BrowserView.BLANK, events), r, outcome, values, show)
  }

  lemma AgentEventsAreShown(r: RunRequest, outcome: Result<Planned, string>, values: seq<string>,
                            show: Hashing.TimeFormat)
    requires "" !in values
    ensures AreShownAsRun(AgentEvents(r, outcome, values, show), r, outcome, values, show)
  {
    hide ShowsRun, AgentEvents, BrowserView.SeeAll, IdsAreDistinct;
    if outcome.Err? || IdsAreDistinct(r, outcome.value.workflow.proposal.steps) {
      BrowserShowsTheRun(r, outcome, values, show);
    }
  }

  // `_stream_agent_run`; each event is written as its frame.
  method StreamAgentRun(r: RunRequest, outcome: Result<Planned, string>, values: seq<string>, show: Hashing.TimeFormat)
    returns (events: seq<Event>)
    requires "" !in values
    ensures events == AgentEvents(r, outcome, values, show)
    ensures AreShownAsRun(events, r, outcome, values, show)
  {
    hide AreShownAsRun, ReplaceAll, StripKeys, CallEvents, RunStarted, RunFinished, RunError, TextStartEvent,
         TextContentEvent, TextEndEvent, StateDelta, ApprovalRequested, MessageId, BROWSER_PRIVATE_KEYS;
    AgentEventsAreShown(r, outcome, values, show);
    events := [RunStarted(r)];
    match outcome {
      case Err(text) =>
        events := events + [RunError(ReplaceAll(text, values), "AGENT_RUNTIME_ERROR")];
      case Ok(p) =>
        var text := ReplaceAll(p.assistantMessage, values);
        var steps := p.workflow.proposal.steps;
        events := events + [TextStartEvent(MessageId(r))];
        if text != "" {
          events := events + [TextContentEvent(MessageId(r), text)];
        }
        events := events + [TextEndEvent(MessageId(r))];
        assert events == [RunStarted(r)] + TextEvents(MessageId(r), text);
        events := events + [StateDelta(PublicWorkflow(p.workflow, show))];
        ghost var before := events;
        for i := 0 to |steps|
          invariant events == before + AllCallEvents(r, steps, i, values)
        {
          events := events + CallEvents(r, steps, i, values);
        }
        ghost var called := events;
        if p.workflow.status == AwaitingApproval {
          events := events + [ApprovalRequested(p.workflow)];
        }
        assert events == called + ApprovalEvents(p.workflow);
        events := events + [RunFinished(r)];
        Reassociate([RunStarted(r)], TextEvents(MessageId(r), text), [StateDelta(PublicWorkflow(p.workflow, show))],
                    AllCallEvents(r, steps, |steps|, values), ApprovalEvents(p.workflow), [RunFinished(r)]);
    }
  }

  lemma Reassociate(a: seq<Event>, b: seq<Event>, c: seq<Event>, d: seq<Event>, e: seq<Event>, f: seq<Event>)
    ensures a + b + c + d + e + f == a + (b + c + d + e + f)
  {
  }

  // ---- The agent's stream is a run ----

  lemma RunTokens(r: RunRequest, message: string, code: string)
    ensures TokenOf(RunStarted(r)) == Started && TokenOf(RunFinished(r)) == Finished &&
      TokenOf(RunError(message, code)) == Errored
  {
    KindsDiffer();
  }

  lemma NoticeTokens(payload: Json, w: WorkflowRecord)
    ensures TokenOf(StateDelta(payload)) == Notice && TokenOf(ApprovalRequested(w)) == Notice
  {
    KindsDiffer();
  }

  lemma TextTokens(id: string, delta: string)
    ensures TokenOf(TextStartEvent(id)) == TextStart(id) && TokenOf(TextEndEvent(id)) == TextEnd(id)
    ensures delta != "" ==> TokenOf(TextContentEvent(id, delta)) == TextContent(id)
  {
    KindsDiffer();
  }

  lemma CallKinds(id: string, message: Option<string>, delta: Option<string>)
    ensures Classify("TOOL_CALL_START", Some(id), message, delta) == CallStart(id)
    ensures Classify("TOOL_CALL_ARGS", Some(id), message, delta) == CallArgs(id)
    ensures Classify("TOOL_CALL_END", Some(id), message, delta) == CallEnd(id)
    ensures Classify("TOOL_CALL_RESULT", Some(id), message, delta) == CallResult(id)
  {
    KindsDiffer();
  }

  lemma CallTokens(id: string, tool: string, message: string, delta: string, step: WorkflowStep)
    ensures TokenOf(CallStartEvent(id, tool, message)) == CallStart(id) &&
      TokenOf(CallArgsEvent(id, delta)) == CallArgs(id)
    ensures TokenOf(CallEndEvent(id)) == CallEnd(id) && TokenOf(CallResultEvent(id, step, message)) == CallResult(id)
  {
    CallKinds(id, None, Some(delta));
    CallKinds(id, None, None);
    ResultToken(id, step, message);
    hide CallResultEvent, Classify;
  }

  lemma ResultToken(id: string, step: WorkflowStep, message: string)
    ensures TokenOf(CallResultEvent(id, step, message)) == CallResult(id)
  {
    CallKinds(id, Some(message), None);
    hide ResultText, Classify;
  }

  lemma TextIsBracketed(id: string, text: string, used: set<string>)
    requires id !in used
    ensures Accept(Running(None, None, used, {}), TextEvents(id, text)) == Running(None, None, used + {id}, {})
  {
    hide TextStartEvent, TextContentEvent, TextEndEvent, TokenOf;
    var p := Running(None, None, used, {});
    TextTokens(id, text);
    AcceptOne(p, TextStartEvent(id));
    if text != "" {
      AcceptSplits(p, [TextStartEvent(id)], [TextContentEvent(id, text)]);
      AcceptOne(Running(Some(id), None, used + {id}, {}), TextContentEvent(id, text));
      AcceptSplits(p, [TextStartEvent(id)] + [TextContentEvent(id, text)], [TextEndEvent(id)]);
    } else {
      assert [TextStartEvent(id)] + [] == [TextStartEvent(id)];
      AcceptSplits(p, [TextStartEvent(id)], [TextEndEvent(id)]);
    }
    AcceptOne(Running(Some(id), None, used + {id}, {}), TextEndEvent(id));
  }

  lemma AcceptFour(p: Phase, a: Event, b: Event, c: Event, d: Event)
    ensures Accept(p, [a, b, c, d])
      == Advance(Advance(Advance(Advance(p, TokenOf(a)), TokenOf(b)), TokenOf(c)), TokenOf(d))
  {
    hide Advance, TokenOf;
    assert [a, b, c, d] == [a] + [b] + [c] + [d];
    AcceptSplits(p, [a] + [b] + [c], [d]);
    AcceptSplits(p, [a] + [b], [c]);
    AcceptSplits(p, [a], [b]);
    AcceptOne(p, a);
    AcceptOne(Accept(p, [a]), b);
    AcceptOne(Accept(p, [a] + [b]), c);
    AcceptOne(Accept(p, [a] + [b] + [c]), d);
  }

  lemma CallIsBracketed(r: RunRequest, steps: seq<WorkflowStep>, i: nat, values: seq<string>, used: set<string>)
    requires i < |steps| && "" !in values && CallId(r, steps, i) !in used
    ensures Accept(Running(None, None, used, {}), CallEvents(r, steps, i, values))
      == Running(None, None, used + {CallId(r, steps, i)}, {})
  {
    hide CallStartEvent, CallArgsEvent, CallEndEvent, CallResultEvent, TokenOf, ReplaceAll, CallId;
    var (id, args, m) := (CallId(r, steps, i), ReplaceAll(steps[i].inputPayloadJson, values), MessageId(r));
    CallTokens(id, steps[i].action, m, args, steps[i]);
    AcceptFour(Running(None, None, used, {}), CallStartEvent(id, steps[i].action, m), CallArgsEvent(id, args),
               CallEndEvent(id), CallResultEvent(id, steps[i], m));
    assert {id} - {id} == {};
  }

  function UsedIds(r: RunRequest, steps: seq<WorkflowStep>, n: nat): set<string>
    requires n <= |steps|
  {
    {MessageId(r)} + set i | 0 <= i < n :: CallId(r, steps, i)
  }

  lemma {:induction false} CallsAreBracketed(r: RunRequest, steps: seq<WorkflowStep>, n: nat, values: seq<string>)
    requires n <= |steps| && "" !in values && IdsAreDistinct(r, steps)
    ensures Accept(Running(None, None, {MessageId(r)}, {}), AllCallEvents(r, steps, n, values))
      == Running(None, None, UsedIds(r, steps, n), {})
  {
    hide CallEvents, CallId, MessageId, Advance, TokenOf;
    if n == 0 {
      assert UsedIds(r, steps, 0) == {MessageId(r)};
    } else {
      CallsAreBracketed(r, steps, n - 1, values);
      var (before, more) := (AllCallEvents(r, steps, n - 1, values), CallEvents(r, steps, n - 1, values));
      AcceptSplits(Running(None, None, {MessageId(r)}, {}), before, more);
      CallIsBracketed(r, steps, n - 1, values, UsedIds(r, steps, n - 1));
      assert UsedIds(r, steps, n) == UsedIds(r, steps, n - 1) + {CallId(r, steps, n - 1)};
    }
  }

  lemma NoticesAreAccepted(used: set<string>, w: WorkflowRecord, payload: Json)
    ensures Accept(Running(None, None, used, {}), [StateDelta(payload)]) == Running(None, None, used, {})
    ensures Accept(Running(None, None, used, {}), ApprovalEvents(w)) == Running(None, None, used, {})
  {
    hide StateDelta, ApprovalRequested, TokenOf;
    NoticeTokens(payload, w);
    AcceptOne(Running(None, None, used, {}), StateDelta(payload));
    AcceptOne(Running(None, None, used, {}), ApprovalRequested(w));
  }

  lemma PlanIsStreamed(r: RunRequest, p: Planned, values: seq<string>, show: Hashing.TimeFormat)
    requires "" !in values && IdsAreDistinct(r, p.workflow.proposal.steps)
    ensures Accept(FRESH, PlanEvents(r, p, values, show)) == Ended
  {
    hide TextEvents, StateDelta, AllCallEvents, ApprovalEvents, RunFinished, TokenOf, Advance, MessageId, CallId,
         ReplaceAll, StripKeys, IdsAreDistinct, UsedIds;
    var steps := p.workflow.proposal.steps;
    var (a, b, c, d, e) := (TextEvents(MessageId(r), ReplaceAll(p.assistantMessage, values)),
      [StateDelta(PublicWorkflow(p.workflow, show))], AllCallEvents(r, steps, |steps|, values),
      ApprovalEvents(p.workflow), [RunFinished(r)]);
    TextIsBracketed(MessageId(r), ReplaceAll(p.assistantMessage, values), {});
    assert {} + {MessageId(r)} == {MessageId(r)};
    AcceptSplits(FRESH, a, b);
    NoticesAreAccepted({MessageId(r)}, p.workflow, PublicWorkflow(p.workflow, show));
    AcceptSplits(FRESH, a + b, c);
    CallsAreBracketed(r, steps, |steps|, values);
    AcceptSplits(FRESH, a + b + c, d);
    NoticesAreAccepted(UsedIds(r, steps, |steps|), p.workflow, Null);
    AcceptSplits(FRESH, a + b + c + d, e);
    FinishEnds(r, UsedIds(r, steps, |steps|));
  }

  lemma FinishEnds(r: RunRequest, used: set<string>)
    ensures Accept(Running(None, None, used, {}), [RunFinished(r)]) == Ended
  {
    RunTokens(r, "", "");
    AcceptOne(Running(None, None, used, {}), RunFinished(r));
  }

  // For every plan whose steps have distinct ids, and for every failure, the stream is a run.
  lemma AgentStreamIsRun(r: RunRequest, outcome: Result<Planned, string>, values: seq<string>, show: Hashing.TimeFormat)
    requires "" !in values && (outcome.Ok? ==> IdsAreDistinct(r, outcome.value.workflow.proposal.steps))
    ensures IsRun(AgentEvents(r, outcome, values, show))
  {
    hide RunStarted, RunError, TokenOf, PlanEvents, IdsAreDistinct, ReplaceAll;
    match outcome
    case Ok(p) =>
      RunTokens(r, "", "");
      PlanIsStreamed(r, p, values, show);
      AcceptSplits(Before, [RunStarted(r)], PlanEvents(r, p, values, show));
      AcceptOne(Before, RunStarted(r));
    case Err(text) =>
      var failed := RunError(ReplaceAll(text, values), "AGENT_RUNTIME_ERROR");
      RunTokens(r, ReplaceAll(text, values), "AGENT_RUNTIME_ERROR");
      AcceptSplits(Before, [RunStarted(r)], [failed]);
      AcceptOne(Before, RunStarted(r));
      AcceptOne(FRESH, failed);
  }

  // Dispatched steps are numbered, so their ids are distinct.
  lemma DispatchedIdsAreDistinct(r: RunRequest, d: Dispatcher.Request, intents: seq<ToolIntent>)
    ensures IdsAreDistinct(r, Dispatcher.Steps(d, Dispatcher.Selected(d, intents)))
  {
    hide Dispatcher.Steps, Dispatcher.Selected, Dispatcher.IsEligible, Dispatcher.IsDispatched,
         Dispatcher.RequiredScopes, Dispatcher.StepFrom, IdsAreDistinct;
    var selected := Dispatcher.Selected(d, intents);
    var steps := Dispatcher.Steps(d, selected);
    forall i | 0 <= i < |steps| ensures steps[i].stepId == Dispatcher.StepId(i + 1) {
      Dispatcher.StepsBelongToIntents(d, selected, i);
    }
    NumberedIdsAreDistinct(r, steps);
  }

  lemma NumberedIdsAreDistinct(r: RunRequest, steps: seq<WorkflowStep>)
    requires forall i :: 0 <= i < |steps| ==> steps[i].stepId == Dispatcher.StepId(i + 1)
    ensures IdsAreDistinct(r, steps)
  {
    hide CallId, MessageId, Dispatcher.StepId;
    forall i, j | 0 <= i < |steps| && 0 <= j < |steps|
      ensures CallId(r, steps, i) == CallId(r, steps, j) ==> i == j
      ensures CallId(r, steps, i) != MessageId(r)
    {
      Dispatcher.StepIdsAreDistinct(i + 1, j + 1);
      CallIdsOfNumberedSteps(r, steps, i, j);
    }
  }

  lemma CallIdsOfNumberedSteps(r: RunRequest, steps: seq<WorkflowStep>, i: nat, j: nat)
    requires i < |steps| && j < |steps|
    requires steps[i].stepId == Dispatcher.StepId(i + 1) && steps[j].stepId == Dispatcher.StepId(j + 1)
    ensures CallId(r, steps, i) == CallId(r, steps, j) ==> Dispatcher.StepId(i + 1) == Dispatcher.StepId(j + 1)
    ensures CallId(r, steps, i) != MessageId(r)
  {
    var (a, b) := (CallId(r, steps, i), CallId(r, steps, j));
    var n := |r.runId| + 1;
    assert a[n..] == Dispatcher.StepId(i + 1) && b[n..] == Dispatcher.StepId(j + 1);
    assert MessageId(r)[n..] == "assistant" && a[n..][0] == 's';
  }

  // ---- What it writes, and what a sensitive value is left in ----

  predicate FreeOf(texts: set<string>, v: string) {
    forall t <- texts :: !Contains(t, v)
  }

  // No event holds v in any string or member name, at any depth.
  predicate AllHoldNo(events: seq<Event>, v: string) {
    forall i :: 0 <= i < |events| ==> HoldsNo(Obj(events[i]), v)
  }

  lemma AllHoldNoSplits(a: seq<Event>, b: seq<Event>, v: string)
    ensures AllHoldNo(a + b, v) <==> AllHoldNo(a, v) && AllHoldNo(b, v)
  {
    hide HoldsNo;
    if AllHoldNo(a + b, v) {
      assert forall i :: 0 <= i < |a| ==> (a + b)[i] == a[i];
      assert forall i :: 0 <= i < |b| ==> (a + b)[|a| + i] == b[i];
    }
  }

  lemma TwoMembers(k: string, a: Json, l: string, b: Json, v: string)
    requires k != l
    ensures HoldsNo(Obj(map[k := a, l := b]), v) <==> FreeOf({k, l}, v) && HoldsNo(a, v) && HoldsNo(b, v)
  {
    hide Contains;
    var m := map[k := a, l := b];
    assert k in m && l in m && m[k] == a && m[l] == b;
    assert forall x <- m :: x == k || x == l;
  }

  lemma ThreeMembers(k: string, a: Json, l: string, b: Json, n: string, c: Json, v: string)
    requires k != l && k != n && l != n
    ensures HoldsNo(Obj(map[k := a, l := b, n := c]), v) <==>
      FreeOf({k, l, n}, v) && HoldsNo(a, v) && HoldsNo(b, v) && HoldsNo(c, v)
  {
    hide Contains;
    var m := map[k := a, l := b, n := c];
    assert k in m && l in m && n in m && m[k] == a && m[l] == b && m[n] == c;
    assert forall x <- m :: x == k || x == l || x == n;
  }

  // One more member.
  lemma OneMoreMember(m: map<string, Json>, k: string, a: Json, v: string)
    requires k !in m
    ensures HoldsNo(Obj(m[k := a]), v) <==> HoldsNo(Obj(m), v) && !Contains(k, v) && HoldsNo(a, v)
  {
    hide Contains;
    var more := m[k := a];
    assert k in more && more[k] == a;
    assert forall x <- m :: x in more && more[x] == m[x];
  }

  lemma StartHoldsNo(r: RunRequest, v: string)
    ensures HoldsNo(Obj(RunStarted(r)), v) <==>
      FreeOf({"type", "threadId", "runId", "RUN_STARTED", r.runId}, v) && IsFree(r.threadId, v)
    ensures HoldsNo(Obj(RunFinished(r)), v) <==>
      FreeOf({"type", "threadId", "runId", "RUN_FINISHED", r.runId}, v) && IsFree(r.threadId, v)
  {
    hide Contains;
    ThreeMembers("type", Str("RUN_STARTED"), "threadId", OptionalText(r.threadId), "runId", Str(r.runId), v);
    ThreeMembers("type", Str("RUN_FINISHED"), "threadId", OptionalText(r.threadId), "runId", Str(r.runId), v);
  }

  lemma ErrorHoldsNo(message: string, code: string, v: string)
    ensures HoldsNo(Obj(RunError(message, code)), v) <==>
      FreeOf({"type", "message", "code", "RUN_ERROR", code}, v) && !Contains(message, v)
  {
    hide Contains;
    assert "type"[0] == 't' && "code"[0] == 'c';
    ThreeMembers("type", Str("RUN_ERROR"), "message", Str(message), "code", Str(code), v);
  }

  lemma TextStartHoldsNo(id: string, v: string)
    ensures HoldsNo(Obj(TextStartEvent(id)), v) <==>
      FreeOf({"type", "messageId", "role", "TEXT_MESSAGE_START", "assistant", id}, v)
  {
    hide Contains;
    assert "type"[0] == 't' && "role"[0] == 'r';
    ThreeMembers("type", Str("TEXT_MESSAGE_START"), "messageId", Str(id), "role", Str("assistant"), v);
  }

  lemma TextContentHoldsNo(id: string, delta: string, v: string)
    ensures HoldsNo(Obj(TextContentEvent(id, delta)), v) <==>
      FreeOf({"type", "messageId", "delta", "TEXT_MESSAGE_CONTENT", id}, v) && !Contains(delta, v)
  {
    hide Contains;
    ThreeMembers("type", Str("TEXT_MESSAGE_CONTENT"), "messageId", Str(id), "delta", Str(delta), v);
  }

  lemma TextEndHoldsNo(id: string, v: string)
    ensures HoldsNo(Obj(TextEndEvent(id)), v) <==> FreeOf({"type", "messageId", "TEXT_MESSAGE_END", id}, v)
  {
    hide Contains;
    TwoMembers("type", Str("TEXT_MESSAGE_END"), "messageId", Str(id), v);
  }

  lemma DeltaHoldsNo(payload: Json, v: string)
    ensures HoldsNo(Obj(StateDelta(payload)), v) <==>
      FreeOf({"type", "delta", "STATE_DELTA", "op", "path", "value", "add", "/workflow"}, v) && HoldsNo(payload, v)
  {
    hide Contains;
    var change := Obj(map["op" := Str("add"), "path" := Str("/workflow"), "value" := payload]);
    ThreeMembers("op", Str("add"), "path", Str("/workflow"), "value", payload, v);
    assert HoldsNo(Arr([change]), v) <==> HoldsNo(change, v) by {
      assert [change][0] == change;
    }
    TwoMembers("type", Str("STATE_DELTA"), "delta", Arr([change]), v);
  }

  lemma CallStartHoldsNo(id: string, tool: string, message: string, v: string)
    ensures HoldsNo(Obj(CallStartEvent(id, tool, message)), v) <==>
      FreeOf({"type", "toolCallId", "toolCallName", "parentMessageId", "TOOL_CALL_START", id, tool, message}, v)
  {
    hide Contains;
    var named := map["type" := Str("TOOL_CALL_START"), "toolCallId" := Str(id), "toolCallName" := Str(tool)];
    ThreeMembers("type", Str("TOOL_CALL_START"), "toolCallId", Str(id), "toolCallName", Str(tool), v);
    OneMoreMember(named, "parentMessageId", Str(message), v);
  }

  lemma CallArgsHoldsNo(id: string, delta: string, v: string)
    ensures HoldsNo(Obj(CallArgsEvent(id, delta)), v) <==>
      FreeOf({"type", "toolCallId", "delta", "TOOL_CALL_ARGS", id}, v) && !Contains(delta, v)
    ensures HoldsNo(Obj(CallEndEvent(id)), v) <==> FreeOf({"type", "toolCallId", "TOOL_CALL_END", id}, v)
  {
    hide Contains;
    ThreeMembers("type", Str("TOOL_CALL_ARGS"), "toolCallId", Str(id), "delta", Str(delta), v);
    TwoMembers("type", Str("TOOL_CALL_END"), "toolCallId", Str(id), v);
  }

  lemma StrHoldsNo(text: string, v: string)
    ensures HoldsNo(Str(text), v) <==> !Contains(text, v)
  {
  }

  lemma CallResultHoldsNo(id: string, step: WorkflowStep, message: string, v: string)
    ensures HoldsNo(Obj(CallResultEvent(id, step, message)), v) <==>
      FreeOf({"type", "messageId", "toolCallId", "content", "role", "TOOL_CALL_RESULT", "tool", message, id,
              ResultText(step)}, v)
  {
    hide Contains, ResultText, HoldsNo;
    assert "type"[0] == 't' && "role"[0] == 'r';
    var text := ResultText(step);
    var result := map["type" := Str("TOOL_CALL_RESULT"), "messageId" := Str(message), "toolCallId" := Str(id)];
    ThreeMembers("type", Str("TOOL_CALL_RESULT"), "messageId", Str(message), "toolCallId", Str(id), v);
    OneMoreMember(result, "content", Str(text), v);
    OneMoreMember(result["content" := Str(text)], "role", Str("tool"), v);
    StrHoldsNo("TOOL_CALL_RESULT", v);
    StrHoldsNo(message, v);
    StrHoldsNo(id, v);
    StrHoldsNo(text, v);
    StrHoldsNo("tool", v);
  }

  const APPROVAL_WORDS: set<string> :=
    {"type", "name", "value", "CUSTOM", "hitl.approval.requested", "kind", "workflow_id", "plan_hash",
      "required_scopes",
     "message", "HITL_APPROVAL"}

  lemma ApprovalHoldsNo(w: WorkflowRecord, v: string)
    ensures HoldsNo(Obj(ApprovalRequested(w)), v) <==>
      FreeOf(APPROVAL_WORDS + {w.workflowId, w.planHash, w.policy.humanDescription}, v) &&
        AreFree(w.policy.requiredScopes, v)
  {
    hide Contains;
    var scopes := StringList(w.policy.requiredScopes);
    assert HoldsNo(scopes, v) <==> AreFree(w.policy.requiredScopes, v) by {
      assert forall i :: 0 <= i < |scopes.items| ==> scopes.items[i] == Str(w.policy.requiredScopes[i]);
    }
    var value := map["kind" := Str("HITL_APPROVAL"), "workflow_id" := Str(w.workflowId),
      "plan_hash" := Str(w.planHash)];
    ThreeMembers("kind", Str("HITL_APPROVAL"), "workflow_id", Str(w.workflowId), "plan_hash", Str(w.planHash), v);
    OneMoreMember(value, "required_scopes", scopes, v);
    OneMoreMember(value["required_scopes" := scopes], "message", Str(w.policy.humanDescription), v);
    assert "type"[0] == 't' && "name"[0] == 'n';
    ThreeMembers("type", Str("CUSTOM"), "name", Str("hitl.approval.requested"), "value",
                 Obj(value["required_scopes" := scopes]["message" := Str(w.policy.humanDescription)]), v);
  }

  // The texts of the events of a message, but for what is said in it.
  function MessageTexts(id: string, text: string): set<string> {
    {"type", "messageId", "role", "TEXT_MESSAGE_START", "assistant", id, "TEXT_MESSAGE_END"}
    + if text != "" then {"delta", "TEXT_MESSAGE_CONTENT"} else {}
  }

  lemma OneHoldsNo(e: Event, v: string)
    ensures AllHoldNo([e], v) <==> HoldsNo(Obj(e), v)
  {
    hide HoldsNo;
    assert [e][0] == e;
  }

  lemma MessageHoldsNo(id: string, text: string, v: string)
    requires !Contains(text, v)
    ensures AllHoldNo(TextEvents(id, text), v) <==> FreeOf(MessageTexts(id, text), v)
  {
    hide Contains, HoldsNo, TextStartEvent, TextContentEvent, TextEndEvent, AllHoldNo;
    TextStartHoldsNo(id, v);
    TextContentHoldsNo(id, text, v);
    TextEndHoldsNo(id, v);
    var content := if text != "" then [TextContentEvent(id, text)] else [];
    OneHoldsNo(TextStartEvent(id), v);
    OneHoldsNo(TextContentEvent(id, text), v);
    OneHoldsNo(TextEndEvent(id), v);
    NoneHoldsNo(v);
    AllHoldNoSplits([TextStartEvent(id)], content, v);
    AllHoldNoSplits([TextStartEvent(id)] + content, [TextEndEvent(id)], v);
  }

  lemma NoneHoldsNo(v: string)
    ensures AllHoldNo([], v)
  {
  }

  // The texts of the events of one call, but for its arguments and its planned result.
  function CallWords(r: RunRequest, steps: seq<WorkflowStep>, i: nat): set<string>
    requires i < |steps|
  {
    {"type", "toolCallId", "toolCallName", "parentMessageId", "TOOL_CALL_START", "delta", "TOOL_CALL_ARGS",
      "TOOL_CALL_END",
     "messageId", "content", "role", "TOOL_CALL_RESULT", "tool",
     CallId(r, steps, i), steps[i].action, MessageId(r)}
  }

  function CallTexts(r: RunRequest, steps: seq<WorkflowStep>, i: nat): set<string>
    requires i < |steps|
  {
    CallWords(r, steps, i) + {ResultText(steps[i])}
  }

  lemma OneCallHoldsNo(r: RunRequest, steps: seq<WorkflowStep>, i: nat, values: seq<string>, v: string)
    requires i < |steps| && "" !in values && !Contains(ReplaceAll(steps[i].inputPayloadJson, values), v)
    ensures AllHoldNo(CallEvents(r, steps, i, values), v) <==> FreeOf(CallTexts(r, steps, i), v)
  {
    var (id, args, m, tool) :=
      (CallId(r, steps, i), ReplaceAll(steps[i].inputPayloadJson, values), MessageId(r), steps[i].action);
    CallStartHoldsNo(id, tool, m, v);
    CallArgsHoldsNo(id, args, v);
    CallResultHoldsNo(id, steps[i], m, v);
    hide Contains, HoldsNo, CallStartEvent, CallArgsEvent, CallEndEvent, CallResultEvent, CallId, MessageId,
         ReplaceAll, ResultText;
    FourHoldNo(CallStartEvent(id, tool, m), CallArgsEvent(id, args), CallEndEvent(id),
      CallResultEvent(id, steps[i], m), v);
    hide AllHoldNo;
  }

  lemma FourHoldNo(a: Event, b: Event, c: Event, d: Event, v: string)
    ensures AllHoldNo([a, b, c, d], v) <==>
      HoldsNo(Obj(a), v) && HoldsNo(Obj(b), v) && HoldsNo(Obj(c), v) && HoldsNo(Obj(d), v)
  {
    hide HoldsNo;
    var s := [a, b, c, d];
    assert s[0] == a && s[1] == b && s[2] == c && s[3] == d;
  }

  predicate CallsAreFree(r: RunRequest, steps: seq<WorkflowStep>, n: nat, v: string)
    requires n <= |steps|
  {
    forall i :: 0 <= i < n ==> FreeOf(CallTexts(r, steps, i), v)
  }

  lemma {:induction false} CallsHoldNo(r: RunRequest, steps: seq<WorkflowStep>, n: nat, values: seq<string>, v: string)
    requires n <= |steps| && "" !in values && IsRemoved(v, values)
    ensures AllHoldNo(AllCallEvents(r, steps, n, values), v) <==> CallsAreFree(r, steps, n, v)
  {
    hide CallEvents, CallTexts, FreeOf, AllHoldNo, IsRemoved;
    if n == 0 {
      NoneHoldsNo(v);
    } else {
      CallsHoldNo(r, steps, n - 1, values, v);
      RemovedTextIsClean(steps[n - 1].inputPayloadJson, values, v);
      OneCallHoldsNo(r, steps, n - 1, values, v);
      AllHoldNoSplits(AllCallEvents(r, steps, n - 1, values), CallEvents(r, steps, n - 1, values), v);
    }
  }

  const DELTA_WORDS: set<string> := {"type", "delta", "STATE_DELTA", "op", "path", "value", "add", "/workflow"}

  predicate PlanIsFree(r: RunRequest, p: Planned, values: seq<string>, show: Hashing.TimeFormat, v: string)
    requires "" !in values
  {
    && FreeOf(MessageTexts(MessageId(r), ReplaceAll(p.assistantMessage, values)), v)
    && FreeOf(DELTA_WORDS, v) && RecordHoldsNo(p.workflow, v, show)
    && CallsAreFree(r, p.workflow.proposal.steps, |p.workflow.proposal.steps|, v)
    && (p.workflow.status == AwaitingApproval ==> FreeOf(APPROVAL_WORDS, v))
    && FreeOf({"type", "threadId", "runId", "RUN_FINISHED", r.runId}, v) && IsFree(r.threadId, v)
  }

  // What is not redacted: the words and ids of the events, and the public texts of the record.
  predicate StreamIsFree(r: RunRequest, outcome: Result<Planned, string>, values: seq<string>, show: Hashing.TimeFormat,
                         v: string)
    requires "" !in values
  {
    && FreeOf({"type", "threadId", "runId", "RUN_STARTED", r.runId}, v) && IsFree(r.threadId, v)
    && match outcome
       case Err(_) => FreeOf({"type", "message", "code", "RUN_ERROR", "AGENT_RUNTIME_ERROR"}, v)
       case Ok(p) => PlanIsFree(r, p, values, show, v)
  }

  lemma ApprovalEventsHoldNo(w: WorkflowRecord, v: string, show: Hashing.TimeFormat)
    requires RecordHoldsNo(w, v, show)
    ensures AllHoldNo(ApprovalEvents(w), v) <==> (w.status == AwaitingApproval ==> FreeOf(APPROVAL_WORDS, v))
  {
    ApprovalHoldsNo(w, v);
    hide Contains, HoldsNo, ApprovalRequested, AllHoldNo, APPROVAL_WORDS;
    NoneHoldsNo(v);
    OneHoldsNo(ApprovalRequested(w), v);
  }

  lemma PlanEventsHoldNo(r: RunRequest, p: Planned, values: seq<string>, show: Hashing.TimeFormat, v: string)
    requires "" !in values && IsRemoved(v, values)
    ensures AllHoldNo(PlanEvents(r, p, values, show), v) <==> PlanIsFree(r, p, values, show, v)
  {
    var (w, steps, payload) := (p.workflow, p.workflow.proposal.steps, PublicWorkflow(p.workflow, show));
    var text := ReplaceAll(p.assistantMessage, values);
    RemovedTextIsClean(p.assistantMessage, values, v);
    hide Contains, HoldsNo, RecordHoldsNo, TextEvents, StateDelta, AllCallEvents, ApprovalEvents, RunFinished,
         AllHoldNo, FreeOf, MessageTexts, CallsAreFree, PublicWorkflow, MessageId, ReplaceAll, IsRemoved, DELTA_WORDS,
         APPROVAL_WORDS, IsFree;
    MessageHoldsNo(MessageId(r), text, v);
    assert HoldsNo(Obj(StateDelta(payload)), v) <==> FreeOf(DELTA_WORDS, v) && RecordHoldsNo(w, v, show) by {
      DeltaIsFree(w, show, v);
    }
    OneHoldsNo(StateDelta(payload), v);
    CallsHoldNo(r, steps, |steps|, values, v);
    StartHoldsNo(r, v);
    OneHoldsNo(RunFinished(r), v);
    var (a, b, c, d, e) := (TextEvents(MessageId(r), text), [StateDelta(payload)],
      AllCallEvents(r, steps, |steps|, values), ApprovalEvents(w), [RunFinished(r)]);
    AllHoldNoSplits(a, b, v);
    AllHoldNoSplits(a + b, c, v);
    AllHoldNoSplits(a + b + c, d, v);
    AllHoldNoSplits(a + b + c + d, e, v);
    if RecordHoldsNo(w, v, show) {
      ApprovalEventsHoldNo(w, v, show);
    }
  }

  lemma DeltaIsFree(w: WorkflowRecord, show: Hashing.TimeFormat, v: string)
    ensures HoldsNo(Obj(StateDelta(PublicWorkflow(w, show))), v) <==>
      FreeOf(DELTA_WORDS, v) && RecordHoldsNo(w, v, show)
  {
    hide RecordHoldsNo, PublicWorkflow, HoldsNo, FreeOf, StateDelta;
    DeltaHoldsNo(PublicWorkflow(w, show), v);
    RecordHoldsNoExactly(w, v, show);
  }

  // A value that redaction removes is in no string and no member name of any event, at any depth,
  // exactly when it is in none of the texts that redaction does not reach.
  lemma StreamIsCleanExactly(r: RunRequest, outcome: Result<Planned, string>, values: seq<string>,
                             show: Hashing.TimeFormat, v: string)
    requires "" !in values && IsRemoved(v, values)
    ensures AllHoldNo(AgentEvents(r, outcome, values, show), v) <==> StreamIsFree(r, outcome, values, show, v)
  {
    hide Contains, HoldsNo, PlanEvents, PlanIsFree, RunStarted, RunError, AllHoldNo, FreeOf, ReplaceAll, IsRemoved,
         IsFree;
    StartHoldsNo(r, v);
    OneHoldsNo(RunStarted(r), v);
    match outcome
    case Ok(p) =>
      PlanEventsHoldNo(r, p, values, show, v);
      AllHoldNoSplits([RunStarted(r)], PlanEvents(r, p, values, show), v);
    case Err(text) =>
      var failed := RunError(ReplaceAll(text, values), "AGENT_RUNTIME_ERROR");
      RemovedTextIsClean(text, values, v);
      ErrorHoldsNo(ReplaceAll(text, values), "AGENT_RUNTIME_ERROR", v);
      OneHoldsNo(failed, v);
      AllHoldNoSplits([RunStarted(r)], [failed], v);
  }

  // ---- What the gateway passes on ----

  const GATEWAY_PRIVATE_KEYS: set<string> :=
    {"accesstoken", "allowedtools", "authcontextref", "authorization", "bearertoken", "clientsecret", "credential",
      "idtoken",
     "password", "privatekey", "rawtoken", "refreshtoken", "secret", "sessionid", "tenantid", "token", "tokenref",
     "tokenscopes", "userid"}

  // What a character contributes to a normalised key: its lower case, without what is neither a
  // letter nor a digit.  Only its effect on ASCII characters is fixed here.
  type Folding = char -> string

  function FoldAscii(c: char): string {
    if 'a' <= c <= 'z' || '0' <= c <= '9' then [c]
    else if 'A' <= c <= 'Z' then [(c as int + 32) as char]
    else ""
  }

  predicate FoldsAscii(fold: Folding) {
    forall c: char :: c as int < 128 ==> fold(c) == FoldAscii(c)
  }

  function Normalized(key: string, fold: Folding): string {
    if key == "" then "" else fold(key[0]) + Normalized(key[1..], fold)
  }

  function IsGatewayPrivate(fold: Folding): string -> bool {
    (key: string) => Normalized(key, fold) in GATEWAY_PRIVATE_KEYS
  }

  // `_browser_event`.
  function BrowserEvent(e: Event, fold: Folding): Event {
    StripKeys(Obj(e), IsGatewayPrivate(fold)).members
  }

  function BrowserEvents(events: seq<Event>, fold: Folding): seq<Event> {
    seq(|events|, i requires 0 <= i < |events| => BrowserEvent(events[i], fold))
  }

  predicate IsStart(e: Event) {
    Get(e, "type") == Some(Str("RUN_STARTED"))
  }

  function EndingEvents(r: RunRequest, started: bool, broke: Option<string>): seq<Event> {
    match broke
    case None => []
    case Some(text) => (if started then [] else [RunStarted(r)]) + [RunError(text, "AGENT_SERVICE_ERROR")]
  }

  // `broke` is the text of what was raised, if the upstream broke.
  function GatewayEvents(r: RunRequest, upstream: seq<Event>, broke: Option<string>, fold: Folding): seq<Event> {
    BrowserEvents(upstream, fold) + EndingEvents(r, exists e <- upstream :: IsStart(e), broke)
  }

  predicate HasStart(upstream: seq<Event>) {
    exists k :: 0 <= k < |upstream| && "type" in upstream[k] && upstream[k]["type"] == Str("RUN_STARTED")
  }

  // What the browser gets: each event where it was, without its private members; and if the
  // upstream broke, why it did, for a run that is begun first if it was not yet.
  ghost predicate IsPassedOn(out: seq<Event>, r: RunRequest, upstream: seq<Event>, broke: Option<string>,
                             fold: Folding)
  {
    && |out| >= |upstream|
    && (forall k :: 0 <= k < |upstream| ==> IsStripped(Obj(out[k]), Obj(upstream[k]), IsGatewayPrivate(fold)))
    && match broke
       case None => |out| == |upstream|
       case Some(text) =>
         BrowserView.SeeAll(BrowserView.BLANK, out[|upstream|..])
         == BrowserView.BLANK.(began := if HasStart(upstream) then [] else [RunOf(r)],
                               ended := [BrowserView.Failed(text, "AGENT_SERVICE_ERROR")])
  }

  lemma EndingIsSeen(r: RunRequest, started: bool, text: string)
    ensures BrowserView.SeeAll(BrowserView.BLANK, EndingEvents(r, started, Some(text)))
      == BrowserView.BLANK.(began := if started then [] else [RunOf(r)],
                            ended := [BrowserView.Failed(text, "AGENT_SERVICE_ERROR")])
  {
    hide BrowserView.See, RunStarted, RunError;
    var (v, failed) := (BrowserView.BLANK, RunError(text, "AGENT_SERVICE_ERROR"));
    var begun := v.(began := [RunOf(r)]);
    SeeRunEvents(v, r, text, "AGENT_SERVICE_ERROR");
    SeeRunEvents(begun, r, text, "AGENT_SERVICE_ERROR");
    BrowserView.SeeOne(v, RunStarted(r));
    BrowserView.SeeOne(v, failed);
    BrowserView.SeeOne(begun, failed);
    BrowserView.SeeAllSplits(v, [RunStarted(r)], [failed]);
    assert [] + [RunOf(r)] == [RunOf(r)] && [] + [failed] == [failed];
    var ending := BrowserView.Failed(text, "AGENT_SERVICE_ERROR");
    assert [] + [ending] == [ending];
  }

  lemma EventsArePassedOn(r: RunRequest, upstream: seq<Event>, broke: Option<string>, fold: Folding)
    ensures IsPassedOn(GatewayEvents(r, upstream, broke, fold), r, upstream, broke, fold)
  {
    hide IsStripped, IsGatewayPrivate, BrowserView.SeeAll, RunStarted, RunError, StripKeys;
    var out := GatewayEvents(r, upstream, broke, fold);
    forall k | 0 <= k < |upstream| ensures IsStripped(Obj(out[k]), Obj(upstream[k]), IsGatewayPrivate(fold)) {
      assert out[k] == BrowserEvent(upstream[k], fold);
      StrippedObject(upstream[k], IsGatewayPrivate(fold));
    }
    var started := exists e <- upstream :: IsStart(e);
    assert forall e: Event :: IsStart(e) <==> "type" in e && e["type"] == Str("RUN_STARTED");
    if started {
      var e :| e in upstream && IsStart(e);
      var k :| 0 <= k < |upstream| && upstream[k] == e;
    }
    assert started <==> HasStart(upstream);
    if broke.Some? {
      EndingIsSeen(r, started, broke.value);
      assert out[|upstream|..] == EndingEvents(r, started, broke);
    }
  }

  lemma StrippedObject(e: Event, hidden: string -> bool)
    ensures IsStripped(Obj(StripKeys(Obj(e), hidden).members), Obj(e), hidden)
  {
    StrippedIsStripped(Obj(e), hidden);
    hide IsStripped;
  }

  method StreamAgentEvents(r: RunRequest, upstream: seq<Event>, broke: Option<string>,
                           fold: Folding) returns (out: seq<Event>)
    ensures out == GatewayEvents(r, upstream, broke, fold)
    ensures IsPassedOn(out, r, upstream, broke, fold)
  {
    hide BrowserEvent, IsPassedOn;
    out := [];
    var emittedStarted := false;
    for i := 0 to |upstream|
      invariant out == BrowserEvents(upstream[..i], fold)
      invariant emittedStarted <==> exists k :: 0 <= k < i && IsStart(upstream[k])
    {
      emittedStarted := emittedStarted || IsStart(upstream[i]);
      out := out + [BrowserEvent(upstream[i], fold)];
    }
    assert upstream[..|upstream|] == upstream;
    if broke.Some? {
      if !emittedStarted {
        out := out + [RunStarted(r)];
      }
      out := out + [RunError(broke.value, "AGENT_SERVICE_ERROR")];
    }
    EventsArePassedOn(r, upstream, broke, fold);
  }

  lemma {:induction false} NormalizedJoins(a: string, b: string, fold: Folding)
    ensures Normalized(a + b, fold) == Normalized(a, fold) + Normalized(b, fold)
  {
    if a == "" {
      assert a + b == b;
    } else {
      assert (a + b)[1..] == a[1..] + b;
      NormalizedJoins(a[1..], b, fold);
    }
  }

  lemma {:induction false} PlainKeyIsAsItIs(key: string, fold: Folding)
    requires FoldsAscii(fold) && forall c <- key :: 'a' <= c <= 'z' || '0' <= c <= '9'
    ensures Normalized(key, fold) == key
  {
    if key != "" {
      assert key[0] in key;
      AsciiIsFolded(key[0], fold);
      assert FoldAscii(key[0]) == [key[0]];
      assert forall c <- key[1..] :: c in key;
      PlainKeyIsAsItIs(key[1..], fold);
    }
  }

  // A key is private whatever its case and its separators are: a capital counts as its small
  // letter, a separator does not count, and what has neither is looked up as it is.
  lemma KeysAreReadLoosely(a: string, c: char, b: string, fold: Folding)
    requires FoldsAscii(fold) && c as int < 128
    ensures var hidden := IsGatewayPrivate(fold);
      && ('A' <= c <= 'Z' ==> hidden(a + [c] + b) == hidden(a + [(c as int + 32) as char] + b))
      && (!('a' <= c <= 'z' || 'A' <= c <= 'Z' || '0' <= c <= '9') ==> hidden(a + [c] + b) == hidden(a + b))
      && ((forall d <- a :: 'a' <= d <= 'z' || '0' <= d <= '9') ==> (hidden(a) <==> a in GATEWAY_PRIVATE_KEYS))
  {
    NormalizedJoins(a + [c], b, fold);
    NormalizedJoins(a, [c], fold);
    NormalizedJoins(a, b, fold);
    OneCharacter(c, fold);
    assert Normalized(a, fold) + "" == Normalized(a, fold);
    if 'A' <= c <= 'Z' {
      var small := (c as int + 32) as char;
      NormalizedJoins(a + [small], b, fold);
      NormalizedJoins(a, [small], fold);
      OneCharacter(small, fold);
    }
    if forall d <- a :: 'a' <= d <= 'z' || '0' <= d <= '9' {
      PlainKeyIsAsItIs(a, fold);
    }
    hide Normalized, FoldsAscii, GATEWAY_PRIVATE_KEYS;
  }

  lemma OneCharacter(c: char, fold: Folding)
    requires FoldsAscii(fold) && c as int < 128
    ensures Normalized([c], fold) == FoldAscii(c)
  {
    AsciiIsFolded(c, fold);
    assert [c][1..] == "" && Normalized("", fold) == "";
  }

  lemma PrivateKeysBeginOtherwise(key: string)
    requires key in GATEWAY_PRIVATE_KEYS
    ensures |key| > 2 && key[0] != 'm' && key[0] != 'd' && (key[0] == 't' && key[1] == 'o' ==> key[2] == 'k')
    ensures key[0] == 't' ==> key[1] != 'y'
  {
  }

  lemma NormalizedBegins(key: string, n: nat, fold: Folding)
    requires FoldsAscii(fold) && n <= |key| && forall i :: 0 <= i < n ==> 'a' <= key[i] <= 'z'
    ensures n <= |Normalized(key, fold)| && Normalized(key, fold)[..n] == key[..n]
  {
    hide FoldsAscii;
    if n > 0 {
      assert fold(key[0]) == [key[0]] by {
        assert FoldAscii(key[0]) == [key[0]];
        AsciiIsFolded(key[0], fold);
      }
      NormalizedBegins(key[1..], n - 1, fold);
      assert key[..n] == [key[0]] + key[1..][..n - 1];
    }
  }

  lemma AsciiIsFolded(c: char, fold: Folding)
    requires FoldsAscii(fold) && c as int < 128
    ensures fold(c) == FoldAscii(c)
  {
  }

  // A key that begins like no private key is not private.
  lemma KeyIsKept(key: string, n: nat, fold: Folding)
    requires FoldsAscii(fold) && 0 < n <= |key| && forall i :: 0 <= i < n ==> 'a' <= key[i] <= 'z'
    requires key[0] == 'm' || key[0] == 'd' || (n > 1 && key[0] == 't' && key[1] == 'y')
      || (n > 2 && key[0] == 't' && key[1] == 'o' && key[2] == 'o')
    ensures !IsGatewayPrivate(fold)(key)
  {
    NormalizedBegins(key, n, fold);
    hide Normalized, FoldsAscii, GATEWAY_PRIVATE_KEYS;
    var word := Normalized(key, fold);
    assert forall i :: 0 <= i < n ==> word[i] == word[..n][i] && key[i] == key[..n][i];
    if word in GATEWAY_PRIVATE_KEYS {
      PrivateKeysBeginOtherwise(word);
    }
  }

  // The members that carry the grammar are not private.
  lemma GrammarKeysAreKept(fold: Folding)
    requires FoldsAscii(fold)
    ensures var hidden := IsGatewayPrivate(fold);
      !hidden("type") && !hidden("toolCallId") && !hidden("messageId") && !hidden("delta")
  {
    hide IsGatewayPrivate, FoldsAscii;
    KeyIsKept("type", 2, fold);
    KeyIsKept("toolCallId", 3, fold);
    KeyIsKept("messageId", 1, fold);
    KeyIsKept("delta", 1, fold);
  }

  lemma FieldIsKept(e: Event, name: string, hidden: string -> bool)
    requires !hidden(name)
    ensures Field(StripKeys(Obj(e), hidden).members, name) == Field(e, name)
  {
  }

  lemma StrippingKeepsTheToken(e: Event, fold: Folding)
    requires FoldsAscii(fold)
    ensures TokenOf(BrowserEvent(e, fold)) == TokenOf(e)
  {
    GrammarKeysAreKept(fold);
    hide IsGatewayPrivate, FoldsAscii, Classify, StripKeys, Field;
    FieldIsKept(e, "type", IsGatewayPrivate(fold));
    FieldIsKept(e, "toolCallId", IsGatewayPrivate(fold));
    FieldIsKept(e, "messageId", IsGatewayPrivate(fold));
    FieldIsKept(e, "delta", IsGatewayPrivate(fold));
  }

  lemma {:induction false} StrippingKeepsTheRun(p: Phase, events: seq<Event>, fold: Folding)
    requires FoldsAscii(fold)
    ensures Accept(p, BrowserEvents(events, fold)) == Accept(p, events)
    decreases events
  {
    hide TokenOf, BrowserEvent, FoldsAscii, Advance;
    if events != [] {
      StrippingKeepsTheToken(events[0], fold);
      StrippingKeepsTheRun(Advance(p, TokenOf(events[0])), events[1..], fold);
      assert BrowserEvents(events, fold)[1..] == BrowserEvents(events[1..], fold);
    }
  }

  lemma StartedIsStart(e: Event)
    ensures TokenOf(e) == Started <==> IsStart(e)
  {
    KindsDiffer();
  }

  // If the upstream breaks, the browser still gets a run, exactly when it broke before its
  // terminal event; if it does not break, exactly when it came to its end.
  lemma GatewayEndsTheRun(r: RunRequest, run: seq<Event>, k: nat, broke: Option<string>, fold: Folding)
    requires IsRun(run) && k <= |run| && FoldsAscii(fold)
    ensures IsRun(GatewayEvents(r, run[..k], broke, fold)) <==> (k < |run| <==> broke.Some?)
  {
    hide TokenOf, BrowserEvents, EndingEvents, Advance, FoldsAscii, RunStarted, RunError, IsStart;
    var sent := run[..k];
    var started := exists e <- sent :: IsStart(e);
    AcceptSplits(Before, BrowserEvents(sent, fold), EndingEvents(r, started, broke));
    StrippingKeepsTheRun(Before, sent, fold);
    if k == |run| {
      assert sent == run;
      EndingAfterTheEnd(r, started, broke);
    } else {
      ProperPrefixIsRunning(run, k);
      if k == 0 {
        EndingFromNothing(r, broke);
      } else {
        StartedIsStart(run[0]);
        assert run[0] == sent[0] && IsStart(run[0]);
        EndingWhileRunning(r, Accept(Before, sent), broke);
      }
    }
  }

  // In which case what it sends holds one RUN_STARTED, first, and one terminal event, last.
  lemma GatewayBeginsAndEndsOnce(r: RunRequest, run: seq<Event>, k: nat, broke: Option<string>, fold: Folding)
    requires IsRun(run) && k <= |run| && FoldsAscii(fold) && (k < |run| <==> broke.Some?)
    ensures IsBegunAndEndedOnce(GatewayEvents(r, run[..k], broke, fold))
  {
    hide IsBegunAndEndedOnce, GatewayEvents, IsRun;
    GatewayEndsTheRun(r, run, k, broke, fold);
    RunIsBegunAndEndedOnce(GatewayEvents(r, run[..k], broke, fold));
  }

  lemma EndingAfterTheEnd(r: RunRequest, started: bool, broke: Option<string>)
    ensures Accept(Ended, EndingEvents(r, started, broke)) == if broke.Some? then Broken else Ended
  {
    NothingComesAfter(Ended, EndingEvents(r, started, broke));
  }

  lemma EndingFromNothing(r: RunRequest, broke: Option<string>)
    ensures Accept(Before, EndingEvents(r, false, broke)) == if broke.Some? then Ended else Before
  {
    hide RunStarted, RunError, TokenOf;
    if broke.Some? {
      var failed := RunError(broke.value, "AGENT_SERVICE_ERROR");
      RunTokens(r, broke.value, "AGENT_SERVICE_ERROR");
      AcceptSplits(Before, [RunStarted(r)], [failed]);
      AcceptOne(Before, RunStarted(r));
      AcceptOne(FRESH, failed);
    }
  }

  lemma EndingWhileRunning(r: RunRequest, p: Phase, broke: Option<string>)
    requires p.Running?
    ensures Accept(p, EndingEvents(r, true, broke)) == if broke.Some? then Ended else p
  {
    hide RunStarted, RunError, TokenOf;
    if broke.Some? {
      var failed := RunError(broke.value, "AGENT_SERVICE_ERROR");
      RunTokens(r, broke.value, "AGENT_SERVICE_ERROR");
      assert [] + [failed] == [failed];
      AcceptOne(p, failed);
    }
  }

  // From the agent service to the browser, wherever in the bytes of its stream the connection
  // breaks: the gateway has read exactly the events whose data lines had arrived, and the browser
  // gets one run, begun once and ended once, exactly when more than the last line break was missing.
  lemma BrokenStreamStillEnds(r: RunRequest, outcome: Result<Planned, string>, values: seq<string>,
                              show: Hashing.TimeFormat, browser: RunRequest, n: nat, text: string,
                              fold: Folding) returns (k: nat)
    requires "" !in values && (outcome.Ok? ==> IdsAreDistinct(r, outcome.value.workflow.proposal.steps)) &&
      FoldsAscii(fold)
    requires n <= |Frames(AgentEvents(r, outcome, values, show))|
    ensures var written := AgentEvents(r, outcome, values, show);
      var (read, failed) := ReadLines(CompleteLines(Frames(written)[..n]));
      && AreRead(written, k, n) && read == written[..k] && !failed
      && (IsRun(GatewayEvents(browser, read, Some(text), fold)) <==> n + 1 < |Frames(written)|)
      && (IsRun(GatewayEvents(browser, read, None, fold)) <==> n + 1 >= |Frames(written)|)
  {
    hide AgentEvents, IdsAreDistinct, Frames, CompleteLines, ReadLines, GatewayEvents, IsRun, FoldsAscii, AreRead;
    var written := AgentEvents(r, outcome, values, show);
    k := BrokenFramesReadBack(written, n);
    AgentStreamIsRun(r, outcome, values, show);
    assert written != [] by {
      RunIsBegunAndEndedOnce(written);
    }
    assert k <= |written|;
    EverythingIsRead(written, k, n);
    GatewayEndsTheRun(browser, written, k, Some(text), fold);
    GatewayEndsTheRun(browser, written, k, None, fold);
  }
}
