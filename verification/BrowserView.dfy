// What a client of the event stream shows: the AG-UI events, applied one after the other.
module BrowserView {
  import opened Wrappers
  import opened Json
  import opened Sse

  datatype TextView = TextView(role: string, text: string, done: bool)

  datatype ResultView = ResultView(message: string, role: string, content: string)

  datatype CallView = CallView(tool: string, message: string, args: string, done: bool, result: Option<ResultView>)

  datatype RunView = RunView(threadId: Option<Json>, runId: string)

  datatype Ending = Finished(run: RunView) | Failed(message: string, code: string)

  datatype View = View(
    began: seq<RunView>,
    texts: map<string, TextView>,
    calls: map<string, CallView>,
    state: map<string, Json>,
    notices: seq<(string, Option<Json>)>,
    ended: seq<Ending>)

  const BLANK := View([], map[], map[], map[], [], [])

  function TextOf(e: Event, name: string): string {
    match Get(e, name) case Some(Str(text)) => text case _ => ""
  }

  function SeeText(v: View, kind: string, e: Event): View {
    var id := TextOf(e, "messageId");
    if kind == "TEXT_MESSAGE_START" then v.(texts := v.texts[id := TextView(TextOf(e, "role"), "", false)])
    else if id !in v.texts then v
    else if kind == "TEXT_MESSAGE_CONTENT" then
      v.(texts := v.texts[id := v.texts[id].(text := v.texts[id].text + TextOf(e, "delta"))])
    else if kind == "TEXT_MESSAGE_END" then v.(texts := v.texts[id := v.texts[id].(done := true)])
    else v
  }

  function SeeCall(v: View, kind: string, e: Event): View {
    var id := TextOf(e, "toolCallId");
    if kind == "TOOL_CALL_START" then
      v.(calls := v.calls[id := CallView(TextOf(e, "toolCallName"), TextOf(e, "parentMessageId"), "", false, None)])
    else if id !in v.calls then v
    else if kind == "TOOL_CALL_ARGS" then
      v.(calls := v.calls[id := v.calls[id].(args := v.calls[id].args + TextOf(e, "delta"))])
    else if kind == "TOOL_CALL_END" then v.(calls := v.calls[id := v.calls[id].(done := true)])
    else if kind == "TOOL_CALL_RESULT" then
      var result := ResultView(TextOf(e, "messageId"), TextOf(e, "role"), TextOf(e, "content"));
      v.(calls := v.calls[id := v.calls[id].(result := Some(result))])
    else v
  }

  // A JSON patch that adds a member to the state (section 4.1 of RFC 6902).
  function SeeDelta(v: View, delta: Option<Json>): View {
    match delta
    case Some(Arr(patches)) =>
      if |patches| == 1 && patches[0].Obj? && TextOf(patches[0].members, "op") == "add" &&
         "value" in patches[0].members && TextOf(patches[0].members, "path") != ""
      then
        v.(state := v.state[TextOf(patches[0].members, "path")[1..] := patches[0].members["value"]])
      else v
    case _ => v
  }

  function See(v: View, e: Event): View {
    var kind := TextOf(e, "type");
    if kind == "RUN_STARTED" then v.(began := v.began + [RunView(Get(e, "threadId"), TextOf(e, "runId"))])
    else if kind == "RUN_FINISHED" then
      v.(ended := v.ended + [Finished(RunView(Get(e, "threadId"), TextOf(e, "runId")))])
    else if kind == "RUN_ERROR" then v.(ended := v.ended + [Failed(TextOf(e, "message"), TextOf(e, "code"))])
    else if kind == "STATE_DELTA" then SeeDelta(v, Get(e, "delta"))
    else if kind == "CUSTOM" then v.(notices := v.notices + [(TextOf(e, "name"), Get(e, "value"))])
    else if "toolCallId" in e then SeeCall(v, kind, e)
    else SeeText(v, kind, e)
  }

  function SeeAll(v: View, events: seq<Event>): View
    decreases events
  {
    if events == [] then v else SeeAll(See(v, events[0]), events[1..])
  }

  lemma {:induction false} SeeAllSplits(v: View, a: seq<Event>, b: seq<Event>)
    ensures SeeAll(v, a + b) == SeeAll(SeeAll(v, a), b)
    decreases a
  {
    hide See;
    if a == [] {
      assert a + b == b;
    } else {
      assert (a + b)[1..] == a[1..] + b;
      SeeAllSplits(See(v, a[0]), a[1..], b);
    }
  }

  lemma SeeOne(v: View, e: Event)
    ensures SeeAll(v, [e]) == See(v, e)
  {
    hide See;
    assert [e][1..] == [];
  }
}
