// The messages of a thread as they are kept: normalised, with each tool result on its call.
module ThreadMessages {
  import opened Wrappers
  import opened Json
  import opened Models
  import opened Redaction
  import opened Hashing
  import Dispatcher
  import RunStream
  import Text

  // A message or part as it comes in.
  type Payload = map<string, Json>

  datatype ToolCall = ToolCall(
    id: string, name: string, args: Payload, argsText: string, result: Option<Json>, isError: Option<bool>)

  // A part that is not a call keeps its own form.
  datatype Part = Call(call: ToolCall) | Other(payload: Payload)

  datatype Role = System | User

  datatype ThreadMessage =
    | Basic(id: string, name: Option<string>, role: Role, content: Json)
    | Assistant(id: string, name: Option<string>, parts: seq<Part>)

  // The random ids: one for each message, content part and listed tool call that needs one, and
  // for the answer of the run and its calls.
  datatype Slot =
    | MessageSlot(i: nat) | PartSlot(i: nat, k: nat) | CallSlot(i: nat, k: nat)
    | AnswerSlot | AnswerCallSlot(k: nat)

  type Supply = Slot -> string

  // ---- Reading payloads ----

  // `_string_message_value`: the first of these keys with a non-empty string.
  function StringValue(payload: Payload, keys: seq<string>): (value: Option<string>)
    ensures value.Some? ==> value.value != ""
  {
    if keys == [] then None
    else
      match Get(payload, keys[0])
      case Some(Str(text)) => if text != "" then Some(text) else StringValue(payload, keys[1..])
      case _ => StringValue(payload, keys[1..])
  }

  function Or(value: Option<string>, fallback: string): string {
    match value case None => fallback case Some(text) => text
  }

  // The texts on which `json.loads` raises what `_parse_json_value` does not catch: those with an
  // integer beyond the digit limit, or nested too deeply.
  type Raises = string -> bool

  // A role that is an array or an object cannot be looked up in a set of role names.
  datatype MessageError = UnhashableRole | UnreadableText

  // `_parse_json_value`, unless it raises
  function ParseValue(text: string): Json {
    if text == "" then Str(text)
    else match Loads(text) case Some(value) => value case None => Str(text)
  }

  // `_parse_json_object`
  function ParseObject(text: Option<string>): Payload {
    match text
    case None => map[]
    case Some(s) => match ParseValue(s) case Obj(members) => members case _ => map[]
  }

  predicate ParsingRaises(text: string, raises: Raises) {
    text != "" && raises(text)
  }

  function Sanitized(j: Json): Json {
    StripKeys(j, IsServerOnly)
  }

  function Name(payload: Payload): Option<string> {
    StringValue(payload, ["name"])
  }

  // ---- Normalising ----

  // `_normalize_tool_call_part`
  function NormalizeCall(part: Payload, freshId: string): ToolCall {
    var argsText := StringValue(part, ["argsText", "args_text"]);
    var args := match Get(part, "args") case Some(Obj(members)) => members case _ => ParseObject(argsText);
    ToolCall(
      Or(StringValue(part, ["toolCallId", "tool_call_id"]), "tool-" + freshId),
      Or(StringValue(part, ["toolName", "tool_name", "name"]), "tool"),
      Sanitized(Obj(args)).members,
      Or(argsText, Dumps(Obj(args), true)),
      match Get(part, "result") case None => None case Some(result) => Some(Sanitized(result)),
      match Get(part, "isError") case Some(Bool(b)) => Some(b) case _ => None)
  }

  const KEPT_KINDS: seq<string> := ["data", "file", "image", "reasoning", "source"]

  function NormalizePart(part: Json, freshId: string): Option<Part> {
    match part
    case Obj(_) => FromSafePart(Sanitized(part).members, freshId)
    case _ => None
  }

  function FromSafePart(safe: Payload, freshId: string): Option<Part> {
    match Get(safe, "type")
    case Some(Str(kind)) =>
      if kind == "text" then
        (match Get(safe, "text") case Some(Str(_)) => Some(Other(safe)) case _ => None)
      else if kind == "tool-call" then Some(Call(NormalizeCall(safe, freshId)))
      else if kind in KEPT_KINDS then Some(Other(safe))
      else None
    case _ => None
  }

  function TextPart(text: string): Part {
    Other(map["type" := Str("text"), "text" := Str(text)])
  }

  function NormalizeItems(items: seq<Json>, i: nat, supply: Supply): seq<Part> {
    if items == [] then []
    else
      var last := |items| - 1;
      NormalizeItems(items[..last], i, supply)
      + match NormalizePart(items[last], supply(PartSlot(i, last))) case None => [] case Some(part) => [part]
  }

  // `_assistant_content_parts`
  function ContentParts(content: Option<Json>, i: nat, supply: Supply): seq<Part> {
    match content
    case Some(Str(text)) => if text != "" then [TextPart(text)] else []
    case Some(Arr(items)) => NormalizeItems(items, i, supply)
    case _ => []
  }

  function ListedFunction(entry: Payload): Payload {
    match Get(entry, "function") case Some(Obj(members)) => members case _ => map[]
  }

  function ListedArgsText(entry: Payload): string {
    Or(StringValue(ListedFunction(entry), ["arguments"]),
       Or(StringValue(entry, ["argsText", "args_text", "arguments"]), "{}"))
  }

  // One entry of an OpenAI-style list of tool calls, as a part.
  function ListedCallPart(entry: Payload, freshId: string): Payload {
    var name := Or(StringValue(ListedFunction(entry), ["name"]),
      Or(StringValue(entry, ["toolName", "tool_name", "name"]), "tool"));
    var argsText := ListedArgsText(entry);
    var id := Or(StringValue(entry, ["id", "toolCallId"]), "tool-" + freshId);
    map["type" := Str("tool-call"), "toolCallId" := Str(id), "toolName" := Str(name), "argsText" := Str(argsText)]
  }

  function ListedCalls(entries: seq<Json>, i: nat, supply: Supply): seq<ToolCall> {
    if entries == [] then []
    else
      var last := |entries| - 1;
      var freshId := supply(CallSlot(i, last));
      ListedCalls(entries[..last], i, supply)
      + match entries[last] case Obj(entry) => [NormalizeCall(ListedCallPart(entry, freshId), freshId)] case _ => []
  }

  function ListedEntries(message: Payload): seq<Json> {
    match Get(message, "toolCalls")
    case Some(Arr(entries)) => entries
    case _ =>
      match Get(message, "tool_calls")
      case Some(Arr(entries)) => entries
      case _ => []
  }

  // `_tool_calls_from_message`
  function MessageCalls(message: Payload, i: nat, supply: Supply): seq<ToolCall> {
    ListedCalls(ListedEntries(message), i, supply)
  }

  function CallIds(parts: seq<Part>): set<string> {
    set part <- parts | part.Call? :: part.call.id
  }

  // The calls that no part has yet, each id once.
  function AddCalls(parts: seq<Part>, calls: seq<ToolCall>): seq<Part> {
    if calls == [] then parts
    else
      var last := |calls| - 1;
      var before := AddCalls(parts, calls[..last]);
      if calls[last].id in CallIds(before) then before else before + [Call(calls[last])]
  }

  function AssistantFrom(message: Payload, i: nat, supply: Supply): ThreadMessage {
    Assistant(
      Or(StringValue(message, ["id"]), "assistant-" + supply(MessageSlot(i))), Name(message),
      AddCalls(ContentParts(Get(message, "content"), i, supply), MessageCalls(message, i, supply)))
  }

  // ---- What a message is normalised to, part by part ----

  predicate HasText(payload: Payload, key: string, text: string) {
    Get(payload, key) == Some(Str(text)) && text != ""
  }

  // The text under the first of these keys that has one.
  ghost predicate IsFirstText(payload: Payload, keys: seq<string>, value: Option<string>) {
    match value
    case None => forall key, text | key in keys :: !HasText(payload, key, text)
    case Some(text) =>
      exists i :: 0 <= i < |keys| && HasText(payload, keys[i], text) &&
        forall j, other | 0 <= j < i :: !HasText(payload, keys[j], other)
  }

  lemma {:induction false} StringValueIsFirst(payload: Payload, keys: seq<string>)
    ensures IsFirstText(payload, keys, StringValue(payload, keys))
  {
    if keys != [] {
      var (value, rest) := (StringValue(payload, keys), StringValue(payload, keys[1..]));
      StringValueIsFirst(payload, keys[1..]);
      if value.Some? && HasText(payload, keys[0], value.value) {
        assert keys[0] == keys[0];
      } else {
        assert value == rest && forall text :: !HasText(payload, keys[0], text);
        if rest.Some? {
          LaterIsFirst(payload, keys, rest.value);
        }
      }
    }
  }

  lemma LaterIsFirst(payload: Payload, keys: seq<string>, text: string)
    requires keys != [] && IsFirstText(payload, keys[1..], Some(text))
    requires forall other :: !HasText(payload, keys[0], other)
    ensures IsFirstText(payload, keys, Some(text))
  {
    var rest := keys[1..];
    var i :| 0 <= i < |rest| && HasText(payload, rest[i], text) &&
      forall j, other | 0 <= j < i :: !HasText(payload, rest[j], other);
    hide HasText;
    assert keys[i + 1] == rest[i];
    forall j, other | 0 <= j < i + 1 ensures !HasText(payload, keys[j], other) {
      if j > 0 {
        assert keys[j] == rest[j - 1];
      }
    }
  }

  // The object that a text is the JSON of, and else none.
  function ObjectIn(text: string): Payload {
    if Loads(text).Some? && Loads(text).value.Obj? then Loads(text).value.members else map[]
  }

  predicate HasObject(payload: Payload, key: string) {
    key in payload && payload[key].Obj?
  }

  // A call as its part says, in either spelling: an object of arguments is taken as it is, and
  // else the one that the text of the arguments is the JSON of.
  ghost predicate IsCallFrom(call: ToolCall, part: Payload, freshId: string) {
    && (exists v :: IsFirstText(part, ["toolCallId", "tool_call_id"], v) && call.id == Or(v, "tool-" + freshId))
    && (exists v :: IsFirstText(part, ["toolName", "tool_name", "name"], v) && call.name == Or(v, "tool"))
    && (exists v, args :: IsFirstText(part, ["argsText", "args_text"], v) &&
          args == (if HasObject(part, "args") then part["args"].members else ObjectIn(Or(v, ""))) &&
          Obj(call.args) == StripKeys(Obj(args), IsServerOnly) && call.argsText == Or(v, Dumps(Obj(args), true)))
    && call.result == (if "result" in part then Some(StripKeys(part["result"], IsServerOnly)) else None)
    && call.isError == (if Get(part, "isError") == Some(Bool(true)) then Some(true)
                        else if Get(part, "isError") == Some(Bool(false)) then Some(false) else None)
  }

  function ArgsOf(part: Payload): Payload {
    if HasObject(part, "args") then part["args"].members
    else ObjectIn(Or(StringValue(part, ["argsText", "args_text"]), ""))
  }

  lemma NormalizedCallFields(part: Payload, freshId: string)
    ensures var (call, v) := (NormalizeCall(part, freshId), StringValue(part, ["argsText", "args_text"]));
      && call.id == Or(StringValue(part, ["toolCallId", "tool_call_id"]), "tool-" + freshId)
      && call.name == Or(StringValue(part, ["toolName", "tool_name", "name"]), "tool")
      && Obj(call.args) == StripKeys(Obj(ArgsOf(part)), IsServerOnly)
      && call.argsText == Or(v, Dumps(Obj(ArgsOf(part)), true))
      && call.result == (if "result" in part then Some(StripKeys(part["result"], IsServerOnly)) else None)
      && call.isError == (if Get(part, "isError") == Some(Bool(true)) then Some(true)
                          else if Get(part, "isError") == Some(Bool(false)) then Some(false) else None)
  {
    ObjectInText(StringValue(part, ["argsText", "args_text"]));
    SanitizedIsObject(ArgsOf(part));
    hide StringValue, StripKeys, Dumps, ParseObject, ObjectIn, Loads;
  }

  lemma CallIsFromPart(part: Payload, freshId: string)
    ensures IsCallFrom(NormalizeCall(part, freshId), part, freshId)
  {
    NormalizedCallFields(part, freshId);
    StringValueIsFirst(part, ["toolCallId", "tool_call_id"]);
    StringValueIsFirst(part, ["toolName", "tool_name", "name"]);
    StringValueIsFirst(part, ["argsText", "args_text"]);
    hide IsFirstText, StringValue, StripKeys, Dumps, NormalizeCall, ObjectIn, Get;
  }

  lemma ObjectInText(text: Option<string>)
    ensures ParseObject(text) == ObjectIn(Or(text, ""))
  {
    assert Loads("") == None;
  }

  // An item that stays: an object which, without what is for the server only, is a text, a tool
  // call or one of the kinds that are kept.
  predicate StaysAsPart(item: Json) {
    item.Obj? && StripKeys(item, IsServerOnly).Obj? &&
    var safe := StripKeys(item, IsServerOnly).members;
    || Get(safe, "type") == Some(Str("tool-call"))
    || (Get(safe, "type") == Some(Str("text")) && "text" in safe && safe["text"].Str?)
    || Get(safe, "type") == Some(Str("data")) || Get(safe, "type") == Some(Str("file"))
    || Get(safe, "type") == Some(Str("image")) || Get(safe, "type") == Some(Str("reasoning"))
    || Get(safe, "type") == Some(Str("source"))
  }

  ghost predicate IsPartFrom(part: Part, item: Json, freshId: string) {
    StripKeys(item, IsServerOnly).Obj? &&
    var safe := StripKeys(item, IsServerOnly).members;
    if Get(safe, "type") == Some(Str("tool-call")) then part.Call? && IsCallFrom(part.call, safe, freshId)
    else part == Other(safe)
  }

  lemma SafePartIsExact(safe: Payload, freshId: string)
    ensures var part := FromSafePart(safe, freshId);
      && (part.Some? <==>
           Get(safe, "type") == Some(Str("tool-call")) ||
           (Get(safe, "type") == Some(Str("text")) && "text" in safe && safe["text"].Str?) ||
           Get(safe, "type") == Some(Str("data")) || Get(safe, "type") == Some(Str("file")) ||
           Get(safe, "type") == Some(Str("image")) || Get(safe, "type") == Some(Str("reasoning")) ||
           Get(safe, "type") == Some(Str("source")))
      && (part.Some? ==>
           part.value
           == if Get(safe, "type") == Some(Str("tool-call")) then Call(NormalizeCall(safe, freshId)) else Other(safe))
  {
    KindsOfParts();
    hide NormalizeCall, KEPT_KINDS;
  }

  lemma PartIsFromItem(item: Json, freshId: string)
    ensures var part := NormalizePart(item, freshId);
      (part.Some? <==> StaysAsPart(item)) && (part.Some? ==> IsPartFrom(part.value, item, freshId))
  {
    if item.Obj? {
      SanitizedIsObject(item.members);
      var safe := Sanitized(item).members;
      CallIsFromPart(safe, freshId);
      SafePartIsExact(safe, freshId);
      hide NormalizeCall, IsCallFrom, StripKeys, FromSafePart;
    }
  }

  lemma KindsOfParts()
    ensures forall kind :: kind in KEPT_KINDS <==>
      kind == "data" || kind == "file" || kind == "image" || kind == "reasoning" || kind == "source"
    ensures "text" != "tool-call" && "tool-call" !in KEPT_KINDS && "text" !in KEPT_KINDS
  {
    assert "text"[1] == 'e' && "tool-call"[1] == 'o' && "text"[0] == 't' && "tool-call"[0] == 't';
    assert forall kind <- KEPT_KINDS :: kind[0] != 't';
    forall kind ensures kind in KEPT_KINDS <==>
      kind == KEPT_KINDS[0] || kind == KEPT_KINDS[1] || kind == KEPT_KINDS[2] || kind == KEPT_KINDS[3] ||
      kind == KEPT_KINDS[4] {
    }
  }

  predicate IsAmong(at: seq<nat>, i: nat) {
    exists k :: 0 <= k < |at| && at[k] == i
  }

  lemma OneMoreIndex(before: seq<nat>, at: seq<nat>, last: nat, more: bool)
    requires Text.Rising(before) && forall j :: 0 <= j < |before| ==> before[j] < last
    requires at == before + if more then [last] else []
    ensures Text.Rising(at) && forall k: nat :: IsAmong(at, k) <==> IsAmong(before, k) || (more && k == last)
  {
    forall k: nat ensures IsAmong(at, k) <==> IsAmong(before, k) || (more && k == last) {
      if IsAmong(before, k) {
        var j :| 0 <= j < |before| && before[j] == k;
        assert at[j] == k;
      }
      if more && k == last {
        assert at[|before|] == k;
      }
      if IsAmong(at, k) && (k != last || !more) {
        var j :| 0 <= j < |at| && at[j] == k;
        assert before[j] == k;
      }
    }
  }

  // The parts of a list: one for each item that stays, in order.
  ghost predicate ArePartsFrom(parts: seq<Part>, items: seq<Json>, i: nat, supply: Supply, at: seq<nat>) {
    && Text.Rising(at) && |at| == |parts|
    && (forall k: nat :: IsAmong(at, k) <==> k < |items| && StaysAsPart(items[k]))
    && (forall j :: 0 <= j < |at| ==> at[j] < |items| && IsPartFrom(parts[j], items[at[j]], supply(PartSlot(i, at[j]))))
  }

  lemma {:induction false} PartsAreFromItems(items: seq<Json>, i: nat, supply: Supply) returns (at: seq<nat>)
    ensures ArePartsFrom(NormalizeItems(items, i, supply), items, i, supply, at)
  {
    if items == [] {
      at := [];
    } else {
      var last := |items| - 1;
      var before := PartsAreFromItems(items[..last], i, supply);
      PartIsFromItem(items[last], supply(PartSlot(i, last)));
      hide NormalizePart, StaysAsPart, IsPartFrom;
      at := before + if StaysAsPart(items[last]) then [last] else [];
      OneMoreItem(items, i, supply, before, at);
    }
  }

  lemma OneMoreItem(items: seq<Json>, i: nat, supply: Supply, before: seq<nat>, at: seq<nat>)
    requires items != []
    requires var last := |items| - 1;
      var part := NormalizePart(items[last], supply(PartSlot(i, last)));
      && ArePartsFrom(NormalizeItems(items[..last], i, supply), items[..last], i, supply, before)
      && (part.Some? <==> StaysAsPart(items[last]))
      && (part.Some? ==> IsPartFrom(part.value, items[last], supply(PartSlot(i, last))))
      && at == before + if StaysAsPart(items[last]) then [last] else []
    ensures ArePartsFrom(NormalizeItems(items, i, supply), items, i, supply, at)
  {
    hide NormalizePart, StaysAsPart, IsPartFrom;
    var last := |items| - 1;
    var parts := NormalizeItems(items, i, supply);
    OneMoreIndex(before, at, last, StaysAsPart(items[last]));
    forall k: nat ensures IsAmong(before, k) <==> k < last && StaysAsPart(items[k]) {
      assert k < last ==> items[..last][k] == items[k];
    }
    hide IsAmong;
    forall j | 0 <= j < |at|
      ensures at[j] < |items| && IsPartFrom(parts[j], items[at[j]], supply(PartSlot(i, at[j])))
    {
      if j < |before| {
        assert at[j] == before[j] && items[..last][at[j]] == items[at[j]];
      }
    }
  }

  // The parts that a content gives: a text one part, a list those of its items, anything else none.
  ghost predicate IsContent(parts: seq<Part>, content: Option<Json>, i: nat, supply: Supply) {
    match content
    case Some(Str(text)) =>
      parts == if text == "" then [] else [Other(map["type" := Str("text"), "text" := Str(text)])]
    case Some(Arr(items)) => exists at :: ArePartsFrom(parts, items, i, supply, at)
    case _ => parts == []
  }

  lemma ContentIsExact(content: Option<Json>, i: nat, supply: Supply)
    ensures IsContent(ContentParts(content, i, supply), content, i, supply)
  {
    hide ArePartsFrom, NormalizeItems;
    match content
    case Some(Arr(items)) =>
      var at := PartsAreFromItems(items, i, supply);
    case _ =>
  }

  // A listed call, as an entry in either of its forms says.
  ghost predicate IsListedCall(call: ToolCall, entry: Payload, freshId: string) {
    var described := if HasObject(entry, "function") then entry["function"].members else map[];
    && (exists v :: IsFirstText(entry, ["id", "toolCallId"], v) && call.id == Or(v, "tool-" + freshId))
    && (exists v, w :: IsFirstText(described, ["name"], v) &&
          IsFirstText(entry, ["toolName", "tool_name", "name"], w) && call.name == Or(v, Or(w, "tool")))
    && (exists v, w :: IsFirstText(described, ["arguments"], v) &&
          IsFirstText(entry, ["argsText", "args_text", "arguments"], w) && call.argsText == Or(v, Or(w, "{}")))
    && Obj(call.args) == StripKeys(Obj(ObjectIn(call.argsText)), IsServerOnly)
    && call.result == None && call.isError == None
  }

  lemma ListedCallIsExact(entry: Payload, freshId: string)
    ensures IsListedCall(NormalizeCall(ListedCallPart(entry, freshId), freshId), entry, freshId)
  {
    hide IsFirstText, StringValue, StripKeys, ParseObject, ObjectIn, Loads;
    var described := ListedFunction(entry);
    StringValueIsFirst(entry, ["id", "toolCallId"]);
    StringValueIsFirst(described, ["name"]);
    StringValueIsFirst(entry, ["toolName", "tool_name", "name"]);
    StringValueIsFirst(described, ["arguments"]);
    StringValueIsFirst(entry, ["argsText", "args_text", "arguments"]);
    var id := Or(StringValue(entry, ["id", "toolCallId"]), "tool-" + freshId);
    var name := Or(StringValue(described, ["name"]), Or(StringValue(entry, ["toolName", "tool_name", "name"]), "tool"));
    var text := ListedArgsText(entry);
    ListedPartIs(entry, id, name, text, freshId);
    ObjectInText(Some(text));
    SanitizedIsObject(ObjectIn(text));
    hide NormalizeCall, ListedCallPart;
  }

  // The calls of a list: one for each entry that is an object, in order.
  ghost predicate AreListedCalls(calls: seq<ToolCall>, entries: seq<Json>, i: nat, supply: Supply, at: seq<nat>) {
    && Text.Rising(at) && |at| == |calls|
    && (forall k: nat :: IsAmong(at, k) <==> k < |entries| && entries[k].Obj?)
    && (forall j :: 0 <= j < |at| ==>
          at[j] < |entries| && entries[at[j]].Obj? &&
          IsListedCall(calls[j], entries[at[j]].members, supply(CallSlot(i, at[j]))))
  }

  lemma {:induction false} ListedCallsAreExact(entries: seq<Json>, i: nat, supply: Supply) returns (at: seq<nat>)
    ensures AreListedCalls(ListedCalls(entries, i, supply), entries, i, supply, at)
  {
    if entries == [] {
      at := [];
    } else {
      var last := |entries| - 1;
      var before := ListedCallsAreExact(entries[..last], i, supply);
      if entries[last].Obj? {
        ListedCallIsExact(entries[last].members, supply(CallSlot(i, last)));
      }
      hide NormalizeCall, ListedCallPart, IsListedCall;
      at := before + if entries[last].Obj? then [last] else [];
      OneMoreEntry(entries, i, supply, before, at);
    }
  }

  lemma OneMoreEntry(entries: seq<Json>, i: nat, supply: Supply, before: seq<nat>, at: seq<nat>)
    requires entries != []
    requires var last := |entries| - 1;
      && AreListedCalls(ListedCalls(entries[..last], i, supply), entries[..last], i, supply, before)
      && (entries[last].Obj? ==>
           var freshId := supply(CallSlot(i, last));
           IsListedCall(NormalizeCall(ListedCallPart(entries[last].members, freshId), freshId), entries[last].members,
             freshId))
      && at == before + if entries[last].Obj? then [last] else []
    ensures AreListedCalls(ListedCalls(entries, i, supply), entries, i, supply, at)
  {
    hide NormalizeCall, ListedCallPart, IsListedCall;
    var last := |entries| - 1;
    var calls := ListedCalls(entries, i, supply);
    OneMoreIndex(before, at, last, entries[last].Obj?);
    forall k: nat ensures IsAmong(before, k) <==> k < last && entries[k].Obj? {
      assert k < last ==> entries[..last][k] == entries[k];
    }
    hide IsAmong;
    forall j | 0 <= j < |at|
      ensures at[j] < |entries| && entries[at[j]].Obj? &&
        IsListedCall(calls[j], entries[at[j]].members, supply(CallSlot(i, at[j])))
    {
      if j < |before| {
        assert at[j] == before[j] && entries[..last][at[j]] == entries[at[j]];
      }
    }
  }

  // The entries of a message's list of calls, under either name.
  predicate IsEntries(message: Payload, entries: seq<Json>) {
    if "toolCalls" in message && message["toolCalls"].Arr? then message["toolCalls"] == Arr(entries)
    else if "tool_calls" in message && message["tool_calls"].Arr? then message["tool_calls"] == Arr(entries)
    else entries == []
  }

  // The calls that are added to the parts: in order, each that is the first listed one with its id
  // and has an id that no part has.
  predicate IsNewCall(parts: seq<Part>, calls: seq<ToolCall>, k: nat) {
    k < |calls| && (forall j :: 0 <= j < k ==> calls[j].id != calls[k].id) &&
    forall part <- parts :: part.Call? ==> part.call.id != calls[k].id
  }

  ghost predicate AreWithNewCalls(out: seq<Part>, parts: seq<Part>, calls: seq<ToolCall>, at: seq<nat>) {
    && Text.Rising(at) && |out| == |parts| + |at| && out[..|parts|] == parts
    && (forall k: nat :: IsAmong(at, k) <==> IsNewCall(parts, calls, k))
    && (forall j :: 0 <= j < |at| ==> at[j] < |calls| && out[|parts| + j] == Call(calls[at[j]]))
  }

  lemma {:induction false} NewCallsAreAdded(parts: seq<Part>, calls: seq<ToolCall>) returns (at: seq<nat>)
    ensures AreWithNewCalls(AddCalls(parts, calls), parts, calls, at)
  {
    if calls == [] {
      at := [];
      assert AddCalls(parts, calls)[..|parts|] == parts;
    } else {
      var last := |calls| - 1;
      var before := NewCallsAreAdded(parts, calls[..last]);
      var out := AddCalls(parts, calls[..last]);
      LastCallIsNewExactly(out, parts, calls, before);
      at := before + if calls[last].id in CallIds(out) then [] else [last];
      OneMoreNewCall(parts, calls, before, at);
    }
  }

  lemma LastCallIsNewExactly(out: seq<Part>, parts: seq<Part>, calls: seq<ToolCall>, before: seq<nat>)
    requires calls != [] && AreWithNewCalls(out, parts, calls[..|calls| - 1], before)
    ensures calls[|calls| - 1].id !in CallIds(out) <==> IsNewCall(parts, calls, |calls| - 1)
  {
    var (last, front) := (|calls| - 1, calls[..|calls| - 1]);
    if part :| part in out && part.Call? && part.call.id == calls[last].id {
      var k :| 0 <= k < |out| && out[k] == part;
      if k < |parts| {
        assert parts[k] == out[..|parts|][k] && parts[k] in parts;
      } else {
        assert out[|parts| + (k - |parts|)] == Call(front[before[k - |parts|]]);
        assert calls[before[k - |parts|]].id == calls[last].id;
      }
    }
    if part :| part in parts && part.Call? && part.call.id == calls[last].id {
      var k :| 0 <= k < |parts| && parts[k] == part;
      assert out[..|parts|][k] == out[k] && out[k] in out;
    }
    if j :| 0 <= j < last && calls[j].id == calls[last].id {
      FirstWithId(parts, front, calls[last].id, j, out, before);
    }
  }

  // Some call with the id of a listed one is there.
  lemma {:induction false} FirstWithId(parts: seq<Part>, calls: seq<ToolCall>, id: string, j: nat, out: seq<Part>,
                                       at: seq<nat>)
    requires j < |calls| && calls[j].id == id && AreWithNewCalls(out, parts, calls, at)
    ensures id in CallIds(out)
    decreases j
  {
    if IsNewCall(parts, calls, j) {
      assert IsAmong(at, j);
      var k :| 0 <= k < |at| && at[k] == j;
      assert out[|parts| + k] == Call(calls[j]) && out[|parts| + k] in out;
    } else if part :| part in parts && part.Call? && part.call.id == id {
      var k :| 0 <= k < |parts| && parts[k] == part;
      assert out[..|parts|][k] == out[k] && out[k] in out;
    } else {
      var i :| 0 <= i < j && calls[i].id == calls[j].id;
      FirstWithId(parts, calls, id, i, out, at);
    }
  }

  lemma OneMoreNewCall(parts: seq<Part>, calls: seq<ToolCall>, before: seq<nat>, at: seq<nat>)
    requires calls != []
    requires var (last, out) := (|calls| - 1, AddCalls(parts, calls[..|calls| - 1]));
      && AreWithNewCalls(out, parts, calls[..last], before)
      && (calls[last].id !in CallIds(out) <==> IsNewCall(parts, calls, last))
      && at == before + if calls[last].id in CallIds(out) then [] else [last]
    ensures AreWithNewCalls(AddCalls(parts, calls), parts, calls, at)
  {
    hide CallIds;
    var (last, front) := (|calls| - 1, calls[..|calls| - 1]);
    var out := AddCalls(parts, calls);
    OneMoreIndex(before, at, last, IsNewCall(parts, calls, last));
    forall k: nat ensures IsAmong(before, k) <==> k < last && IsNewCall(parts, calls, k) {
      assert k < last ==> (IsNewCall(parts, front, k) <==> IsNewCall(parts, calls, k));
    }
    hide IsAmong;
    assert out[..|parts|] == AddCalls(parts, front)[..|parts|];
    forall j | 0 <= j < |at| ensures at[j] < |calls| && out[|parts| + j] == Call(calls[at[j]]) {
      if j < |before| {
        assert at[j] == before[j] && front[at[j]] == calls[at[j]];
      }
    }
  }

  // An assistant message as it is kept: its own id and name, the parts of its content, and after
  // them the listed calls that no part has yet.
  ghost predicate IsAssistantFrom(kept: ThreadMessage, message: Payload, i: nat, supply: Supply) {
    kept.Assistant?
    && (exists v :: IsFirstText(message, ["id"], v) && kept.id == Or(v, "assistant-" + supply(MessageSlot(i))))
    && IsFirstText(message, ["name"], kept.name)
    && exists parts, entries, calls, listed, added ::
      IsContent(parts, Get(message, "content"), i, supply) && IsEntries(message, entries) &&
      AreListedCalls(calls, entries, i, supply, listed) && AreWithNewCalls(kept.parts, parts, calls, added)
  }

  lemma AssistantIsExact(message: Payload, i: nat, supply: Supply)
    ensures IsAssistantFrom(AssistantFrom(message, i, supply), message, i, supply)
  {
    StringValueIsFirst(message, ["id"]);
    StringValueIsFirst(message, ["name"]);
    ContentIsExact(Get(message, "content"), i, supply);
    var parts := ContentParts(Get(message, "content"), i, supply);
    var entries := ListedEntries(message);
    var calls := ListedCalls(entries, i, supply);
    assert IsEntries(message, entries);
    hide IsFirstText, StringValue, ContentParts, IsContent, ListedEntries, IsEntries, ListedCalls, AreListedCalls,
         AddCalls, AreWithNewCalls;
    var listed := ListedCallsAreExact(entries, i, supply);
    var added := NewCallsAreAdded(parts, calls);
  }

  // ---- What is parsed while normalising ----

  // The arguments of a call are parsed when they are no object but there is a text of them.
  predicate CallRaises(part: Payload, raises: Raises) {
    var argsText := StringValue(part, ["argsText", "args_text"]);
    && !(match Get(part, "args") case Some(Obj(_)) => true case _ => false)
    && argsText.Some? && raises(argsText.value)
  }

  predicate ItemRaises(item: Json, raises: Raises) {
    item.Obj? &&
    var safe := Sanitized(item).members;
    Get(safe, "type") == Some(Str("tool-call")) && CallRaises(safe, raises)
  }

  predicate EntryRaises(entry: Json, raises: Raises) {
    entry.Obj? && ParsingRaises(ListedArgsText(entry.members), raises)
  }

  function ContentItems(message: Payload): seq<Json> {
    match Get(message, "content") case Some(Arr(items)) => items case _ => []
  }

  // A call among the parts or in the list of calls has a text of arguments that raises.
  predicate AssistantRaises(message: Payload, raises: Raises) {
    || (exists item <- ContentItems(message) :: ItemRaises(item, raises))
    || (exists entry <- ListedEntries(message) :: EntryRaises(entry, raises))
  }

  // `_assistant_content_parts`, on a list
  method AssistantContentParts(items: seq<Json>, i: nat, supply: Supply, raises: Raises)
    returns (r: Result<seq<Part>, MessageError>)
    ensures r.Ok? <==> forall item <- items :: !ItemRaises(item, raises)
    ensures r.Ok? ==> r.value == NormalizeItems(items, i, supply)
    ensures r.Err? ==> r.error == UnreadableText
  {
    hide ItemRaises, NormalizePart;
    var parts: seq<Part> := [];
    for k := 0 to |items|
      invariant parts == NormalizeItems(items[..k], i, supply)
      invariant forall j :: 0 <= j < k ==> !ItemRaises(items[j], raises)
    {
      assert items[..k + 1][..k] == items[..k] && items[..k + 1][k] == items[k];
      if ItemRaises(items[k], raises) {
        assert items[k] in items;
        return Err(UnreadableText);
      }
      match NormalizePart(items[k], supply(PartSlot(i, k))) {
        case None =>
        case Some(part) =>
          parts := parts + [part];
      }
    }
    assert items[..|items|] == items;
    r := Ok(parts);
  }

  // `_tool_calls_from_message`
  method ToolCallsFromMessage(entries: seq<Json>, i: nat, supply: Supply, raises: Raises)
    returns (r: Result<seq<ToolCall>, MessageError>)
    ensures r.Ok? <==> forall entry <- entries :: !EntryRaises(entry, raises)
    ensures r.Ok? ==> r.value == ListedCalls(entries, i, supply)
    ensures r.Err? ==> r.error == UnreadableText
  {
    hide EntryRaises, ListedCallPart, NormalizeCall;
    var calls: seq<ToolCall> := [];
    for k := 0 to |entries|
      invariant calls == ListedCalls(entries[..k], i, supply)
      invariant forall j :: 0 <= j < k ==> !EntryRaises(entries[j], raises)
    {
      assert entries[..k + 1][..k] == entries[..k] && entries[..k + 1][k] == entries[k];
      if EntryRaises(entries[k], raises) {
        assert entries[k] in entries;
        return Err(UnreadableText);
      }
      if entries[k].Obj? {
        var freshId := supply(CallSlot(i, k));
        calls := calls + [NormalizeCall(ListedCallPart(entries[k].members, freshId), freshId)];
      }
    }
    assert entries[..|entries|] == entries;
    r := Ok(calls);
  }

  lemma PartsAreOfItems(message: Payload, i: nat, supply: Supply)
    ensures Get(message, "content").Some? && Get(message, "content").value.Arr? ==>
      ContentParts(Get(message, "content"), i, supply) == NormalizeItems(ContentItems(message), i, supply)
    ensures !(Get(message, "content").Some? && Get(message, "content").value.Arr?) ==> ContentItems(message) == []
  {
  }

  // `_normalize_assistant_message`
  method NormalizeAssistantMessage(message: Payload, i: nat, supply: Supply, raises: Raises)
    returns (r: Result<ThreadMessage, MessageError>)
    ensures r.Ok? <==> !AssistantRaises(message, raises)
    ensures r.Ok? ==> r.value == AssistantFrom(message, i, supply)
    ensures r.Ok? ==> IsAssistantFrom(r.value, message, i, supply)
    ensures r.Err? ==> r.error == UnreadableText
  {
    AssistantIsExact(message, i, supply);
    hide ContentParts, ContentItems, ListedEntries, ListedCalls, NormalizeItems, ItemRaises, EntryRaises,
         IsAssistantFrom;
    PartsAreOfItems(message, i, supply);
    var given: seq<Part>;
    if Get(message, "content").Some? && Get(message, "content").value.Arr? {
      var read := AssistantContentParts(ContentItems(message), i, supply, raises);
      if read.Err? {
        return Err(read.error);
      }
      given := read.value;
    } else {
      given := ContentParts(Get(message, "content"), i, supply);
    }
    var parts, seen := given, CallIds(given);
    var listed := ToolCallsFromMessage(ListedEntries(message), i, supply, raises);
    if listed.Err? {
      return Err(listed.error);
    }
    var calls := listed.value;
    for k := 0 to |calls|
      invariant parts == AddCalls(given, calls[..k]) && seen == CallIds(parts)
    {
      assert calls[..k + 1][..k] == calls[..k];
      if calls[k].id !in seen {
        CallIdsOfOneMore(parts, calls[k]);
        parts := parts + [Call(calls[k])];
        seen := seen + {calls[k].id};
      }
    }
    assert calls[..|calls|] == calls;
    r := Ok(Assistant(Or(StringValue(message, ["id"]), "assistant-" + supply(MessageSlot(i))), Name(message), parts));
  }

  lemma CallIdsOfOneMore(parts: seq<Part>, call: ToolCall)
    ensures CallIds(parts + [Call(call)]) == CallIds(parts) + {call.id}
  {
    assert Call(call) in parts + [Call(call)];
    assert forall part :: part in parts + [Call(call)] <==> part in parts || part == Call(call);
  }

  function RoleName(role: Role): string {
    match role case System => "system" case User => "user"
  }

  // `_restorable_message_content`
  function BasicContent(content: Option<Json>): Json {
    match content
    case Some(Str(text)) => Str(text)
    case Some(Arr(items)) => Sanitized(Arr(items))
    case _ => Str("")
  }

  // `_normalize_basic_message`
  function BasicFrom(message: Payload, role: Role, i: nat, supply: Supply): ThreadMessage {
    Basic(Or(StringValue(message, ["id"]), RoleName(role) + "-" + supply(MessageSlot(i))), Name(message), role,
          BasicContent(Get(message, "content")))
  }

  // A user or system message as it is kept: a text as it is, a list without what is for the
  // server only, and anything else as no text.
  ghost predicate IsBasicFrom(kept: ThreadMessage, message: Payload, role: Role, i: nat, supply: Supply) {
    && kept.Basic? && kept.role == role
    && (exists v :: IsFirstText(message, ["id"], v) &&
          kept.id == Or(v, (if role == System then "system-" else "user-") + supply(MessageSlot(i))))
    && IsFirstText(message, ["name"], kept.name)
    && match Get(message, "content")
       case Some(Str(text)) => kept.content == Str(text)
       case Some(Arr(items)) => kept.content == StripKeys(Arr(items), IsServerOnly)
       case _ => kept.content == Str("")
  }

  lemma BasicIsExact(message: Payload, role: Role, i: nat, supply: Supply)
    ensures IsBasicFrom(BasicFrom(message, role, i, supply), message, role, i, supply)
  {
    StringValueIsFirst(message, ["id"]);
    StringValueIsFirst(message, ["name"]);
    hide IsFirstText, StringValue, StripKeys;
    assert "system" + "-" == "system-" && "user" + "-" == "user-";
  }

  // ---- Tool results ----

  predicate IsCall(part: Part, id: string) {
    part.Call? && part.call.id == id
  }

  function LastPart(parts: seq<Part>, id: string): (k: Option<nat>)
    ensures k.Some? ==> k.value < |parts|
  {
    if parts == [] then None
    else if IsCall(parts[|parts| - 1], id) then Some(|parts| - 1)
    else LastPart(parts[..|parts| - 1], id)
  }

  // Where a call is: the message and the part.
  type Place = (nat, nat)

  predicate IsCallAt(messages: seq<ThreadMessage>, place: Place, id: string) {
    place.0 < |messages| && messages[place.0].Assistant? &&
    place.1 < |messages[place.0].parts| && IsCall(messages[place.0].parts[place.1], id)
  }

  function LatestCall(messages: seq<ThreadMessage>, id: string): (place: Option<Place>)
    ensures place.Some? ==> IsCallAt(messages, place.value, id)
    decreases |messages|
  {
    if messages == [] then None
    else
      var last := |messages| - 1;
      var k := if messages[last].Assistant? then LastPart(messages[last].parts, id) else None;
      if k.Some? then
        assert IsCall(messages[last].parts[k.value], id) by { LastPartIsLast(messages[last].parts, id); }
        Some((last, k.value))
      else LatestCall(messages[..last], id)
  }

  lemma {:induction false} LastPartIsLast(parts: seq<Part>, id: string)
    ensures match LastPart(parts, id)
      case None => forall j :: 0 <= j < |parts| ==> !IsCall(parts[j], id)
      case Some(k) => IsCall(parts[k], id) && forall j :: k < j < |parts| ==> !IsCall(parts[j], id)
  {
    if parts != [] {
      var n := |parts| - 1;
      LastPartIsLast(parts[..n], id);
      assert forall j :: 0 <= j < n ==> parts[..n][j] == parts[j];
    }
  }

  function ContentOf(tool: Payload): Json {
    match Get(tool, "content")
    case None => Null
    case Some(Str(text)) => ParseValue(text)
    case Some(value) => value
  }

  function ResultOf(tool: Payload): Json {
    Sanitized(ContentOf(tool))
  }

  predicate ReportsError(tool: Payload) {
    "error" in tool || Get(tool, "status") == Some(Str("error"))
  }

  function Answered(call: ToolCall, tool: Payload): (answered: ToolCall)
    ensures answered.id == call.id
  {
    call.(result := Some(ResultOf(tool)), isError := if ReportsError(tool) then Some(true) else call.isError)
  }

  // The result that a tool message carries: the value its text is the JSON of, or the text, or the
  // value as it is; without what is for the server only.
  predicate IsResultOf(result: Json, tool: Payload) {
    match Get(tool, "content")
    case None => result == Null
    case Some(Str(text)) =>
      if text != "" && Loads(text).Some? then result == StripKeys(Loads(text).value, IsServerOnly)
      else result == Str(text)
    case Some(value) => result == StripKeys(value, IsServerOnly)
  }

  // An answered call has the result, is marked when an error is reported, and is else as it was.
  lemma AnsweredIsExact(call: ToolCall, tool: Payload)
    ensures var answered := Answered(call, tool);
      && answered.result.Some? && IsResultOf(answered.result.value, tool)
      && answered.isError == (if "error" in tool || Get(tool, "status") == Some(Str("error")) then Some(true)
                              else call.isError)
      && answered == call.(result := answered.result, isError := answered.isError)
  {
    hide Loads;
  }

  function WithAnswer(messages: seq<ThreadMessage>, place: Place, tool: Payload): seq<ThreadMessage>
    requires place.0 < |messages| && messages[place.0].Assistant?
    requires place.1 < |messages[place.0].parts| && messages[place.0].parts[place.1].Call?
  {
    var parts := messages[place.0].parts;
    messages[place.0 := messages[place.0].(parts := parts[place.1 := Call(Answered(parts[place.1].call, tool))])]
  }

  function ToolCallId(tool: Payload): Option<string> {
    StringValue(tool, ["toolCallId", "tool_call_id"])
  }

  function Merge(messages: seq<ThreadMessage>, tool: Payload): seq<ThreadMessage> {
    match ToolCallId(tool)
    case None => messages
    case Some(id) =>
      match LatestCall(messages, id)
      case None => messages
      case Some(place) => WithAnswer(messages, place, tool)
  }

  // The result is parsed once its call is found.
  predicate ToolRaises(messages: seq<ThreadMessage>, tool: Payload, raises: Raises) {
    && ToolCallId(tool).Some? && LatestCall(messages, ToolCallId(tool).value).Some?
    && match Get(tool, "content") case Some(Str(text)) => ParsingRaises(text, raises) case _ => false
  }

  // `_merge_tool_result`, on the messages so far.
  method MergeToolResult(tool: Payload, messages: seq<ThreadMessage>, raises: Raises)
    returns (r: Result<seq<ThreadMessage>, MessageError>)
    ensures r.Ok? <==> !ToolRaises(messages, tool, raises)
    ensures r.Ok? ==> r.value == Merge(messages, tool)
    ensures r.Err? ==> r.error == UnreadableText
  {
    hide WithAnswer, ToolCallId, ParsingRaises, Get;
    var id := ToolCallId(tool);
    if id.None? {
      return Ok(messages);
    }
    assert messages[..|messages|] == messages;
    for i := |messages| downto 0
      invariant LatestCall(messages, id.value) == LatestCall(messages[..i], id.value)
    {
      assert messages[..i + 1][..i] == messages[..i] && messages[..i + 1][i] == messages[i];
      if messages[i].Assistant? {
        var parts := messages[i].parts;
        assert parts[..|parts|] == parts;
        for k := |parts| downto 0
          invariant LastPart(parts, id.value) == LastPart(parts[..k], id.value)
        {
          assert parts[..k + 1][..k] == parts[..k] && parts[..k + 1][k] == parts[k];
          if IsCall(parts[k], id.value) {
            match Get(tool, "content") {
              case Some(Str(text)) =>
                if ParsingRaises(text, raises) {
                  return Err(UnreadableText);
                }
              case _ =>
            }
            return Ok(WithAnswer(messages, (i, k), tool));
          }
        }
      }
    }
    r := Ok(messages);
  }

  // ---- The whole list ----

  predicate HasRole(message: Payload, role: string) {
    Get(message, "role") == Some(Str(role))
  }

  // The message kept for this one, if one is.
  function Kept(message: Payload, i: nat, supply: Supply): Option<ThreadMessage> {
    if HasRole(message, "assistant") then Some(AssistantFrom(message, i, supply))
    else if HasRole(message, "system") then Some(BasicFrom(message, System, i, supply))
    else if HasRole(message, "user") then Some(BasicFrom(message, User, i, supply))
    else None
  }

  function Absorb(before: seq<ThreadMessage>, message: Payload, i: nat, supply: Supply): seq<ThreadMessage> {
    if HasRole(message, "tool") then Merge(before, message)
    else match Kept(message, i, supply) case None => before case Some(kept) => before + [kept]
  }

  function Restored(messages: seq<Payload>, supply: Supply): seq<ThreadMessage> {
    if messages == [] then []
    else
      var last := |messages| - 1;
      Absorb(Restored(messages[..last], supply), messages[last], last, supply)
  }

  function Without(messages: seq<ThreadMessage>, id: string): seq<ThreadMessage> {
    if messages == [] then []
    else (if messages[0].id == id then [] else [messages[0]]) + Without(messages[1..], id)
  }

  function Thread(messages: seq<Payload>, assistant: Option<ThreadMessage>, supply: Supply): seq<ThreadMessage> {
    match assistant
    case None => Restored(messages, supply)
    case Some(answer) => Without(Restored(messages, supply), answer.id) + [answer]
  }

  predicate IsHashable(message: Payload) {
    match Get(message, "role")
    case Some(Arr(_)) => false
    case Some(Obj(_)) => false
    case _ => true
  }

  // What normalising a message raises, given the messages kept so far.
  function Failure(before: seq<ThreadMessage>, message: Payload, raises: Raises): Option<MessageError> {
    if HasRole(message, "tool") then if ToolRaises(before, message, raises) then Some(UnreadableText) else None
    else if HasRole(message, "assistant") then
      if AssistantRaises(message, raises) then Some(UnreadableText) else None
    else if IsHashable(message) then None
    else Some(UnhashableRole)
  }

  function FailureAt(messages: seq<Payload>, supply: Supply, raises: Raises, i: nat): Option<MessageError>
    requires i < |messages|
  {
    Failure(Restored(messages[..i], supply), messages[i], raises)
  }

  lemma FirstTextIsOne(payload: Payload, keys: seq<string>, a: Option<string>)
    requires IsFirstText(payload, keys, a)
    ensures a == StringValue(payload, keys)
  {
    StringValueIsFirst(payload, keys);
    SomeTextIsThere(payload, keys, a);
    SomeTextIsThere(payload, keys, StringValue(payload, keys));
    hide HasText;
    var b := StringValue(payload, keys);
    if a.Some? && b.Some? {
      var m :| 0 <= m < |keys| && HasText(payload, keys[m], a.value) &&
        forall k, other | 0 <= k < m :: !HasText(payload, keys[k], other);
      var n :| 0 <= n < |keys| && HasText(payload, keys[n], b.value) &&
        forall k, other | 0 <= k < n :: !HasText(payload, keys[k], other);
      assert m == n;
      TextIsOne(payload, keys[m], a.value, b.value);
    }
  }

  lemma SomeTextIsThere(payload: Payload, keys: seq<string>, value: Option<string>)
    requires IsFirstText(payload, keys, value)
    ensures value.Some? <==> exists key, text :: key in keys && HasText(payload, key, text)
  {
    hide HasText;
  }

  lemma TextIsOne(payload: Payload, key: string, a: string, b: string)
    requires HasText(payload, key, a) && HasText(payload, key, b)
    ensures a == b
  {
  }

  // A call among the parts whose arguments are no object, but a text that raises.
  ghost predicate IsUnreadablePart(item: Json, raises: Raises) {
    item.Obj? && StripKeys(item, IsServerOnly).Obj? &&
    var safe := StripKeys(item, IsServerOnly).members;
    && Get(safe, "type") == Some(Str("tool-call")) && !HasObject(safe, "args")
    && exists text :: IsFirstText(safe, ["argsText", "args_text"], Some(text)) && raises(text)
  }

  // A listed call whose arguments raise.
  ghost predicate IsUnreadableEntry(entry: Json, raises: Raises) {
    entry.Obj? &&
    var described := if HasObject(entry.members, "function") then entry.members["function"].members else map[];
    exists v, w ::
      IsFirstText(described, ["arguments"], v) &&
      IsFirstText(entry.members, ["argsText", "args_text", "arguments"], w) &&
      Or(v, Or(w, "{}")) != "" && raises(Or(v, Or(w, "{}")))
  }

  // The result of a call that is there, as a text that raises.
  ghost predicate IsUnreadableResult(before: seq<ThreadMessage>, tool: Payload, raises: Raises) {
    && (exists id, place :: IsFirstText(tool, ["toolCallId", "tool_call_id"], Some(id)) && IsCallAt(before, place, id))
    && Get(tool, "content").Some? && Get(tool, "content").value.Str?
    && Get(tool, "content").value.text != "" && raises(Get(tool, "content").value.text)
  }

  // When a message is refused, after these.
  ghost predicate IsRefused(before: seq<ThreadMessage>, message: Payload, raises: Raises, e: MessageError) {
    match e
    case UnhashableRole => "role" in message && (message["role"].Arr? || message["role"].Obj?)
    case UnreadableText =>
      || (Get(message, "role") == Some(Str("tool")) && IsUnreadableResult(before, message, raises))
      || (Get(message, "role") == Some(Str("assistant")) &&
          ((exists items, item :: Get(message, "content") == Some(Arr(items)) && item in items &&
              IsUnreadablePart(item, raises)) ||
           (exists entries, entry :: IsEntries(message, entries) && entry in entries &&
              IsUnreadableEntry(entry, raises))))
  }

  lemma UnreadablePartIs(item: Json, raises: Raises)
    ensures ItemRaises(item, raises) <==> IsUnreadablePart(item, raises)
  {
    if item.Obj? {
      var safe := StripKeys(item, IsServerOnly).members;
      var keys := ["argsText", "args_text"];
      StringValueIsFirst(safe, keys);
      forall text | IsFirstText(safe, keys, Some(text)) ensures StringValue(safe, keys) == Some(text) {
        FirstTextIsOne(safe, keys, Some(text));
      }
      hide IsFirstText, StringValue, StripKeys;
    }
  }

  lemma UnreadableEntryIs(entry: Json, raises: Raises)
    ensures EntryRaises(entry, raises) <==> IsUnreadableEntry(entry, raises)
  {
    if entry.Obj? {
      var described := if HasObject(entry.members, "function") then entry.members["function"].members else map[];
      var keys := ["argsText", "args_text", "arguments"];
      assert described == ListedFunction(entry.members);
      var (v, w) := (StringValue(described, ["arguments"]), StringValue(entry.members, keys));
      StringValueIsFirst(described, ["arguments"]);
      StringValueIsFirst(entry.members, keys);
      assert ListedArgsText(entry.members) == Or(v, Or(w, "{}"));
      hide StringValue, ListedArgsText, ListedFunction, HasText, HasObject;
      forall a | IsFirstText(described, ["arguments"], a) ensures a == v {
        FirstTextIsOne(described, ["arguments"], a);
      }
      forall a | IsFirstText(entry.members, keys, a) ensures a == w {
        FirstTextIsOne(entry.members, keys, a);
      }
      hide IsFirstText, Or;
    }
  }

  lemma UnreadableResultIs(before: seq<ThreadMessage>, tool: Payload, raises: Raises)
    ensures ToolRaises(before, tool, raises) <==> IsUnreadableResult(before, tool, raises)
  {
    var keys := ["toolCallId", "tool_call_id"];
    StringValueIsFirst(tool, keys);
    forall id | IsFirstText(tool, keys, Some(id)) ensures ToolCallId(tool) == Some(id) {
      FirstTextIsOne(tool, keys, Some(id));
    }
    hide IsFirstText, StringValue;
    if ToolCallId(tool).Some? {
      var id := ToolCallId(tool).value;
      forall place | IsCallAt(before, place, id) ensures LatestCall(before, id).Some? {
        LatestCallIsLatest(before, id, place);
      }
      assert LatestCall(before, id).Some? <==> exists place :: IsCallAt(before, place, id);
      hide LatestCall, IsCallAt;
    }
  }

  lemma AssistantRaisesExactly(message: Payload, raises: Raises)
    ensures AssistantRaises(message, raises) <==>
      (exists items, item :: Get(message, "content") == Some(Arr(items)) && item in items &&
         IsUnreadablePart(item, raises)) ||
      (exists entries, entry :: IsEntries(message, entries) && entry in entries && IsUnreadableEntry(entry, raises))
  {
    hide ItemRaises, EntryRaises, IsUnreadablePart, IsUnreadableEntry, Get;
    forall item ensures ItemRaises(item, raises) <==> IsUnreadablePart(item, raises) {
      UnreadablePartIs(item, raises);
    }
    forall entry ensures EntryRaises(entry, raises) <==> IsUnreadableEntry(entry, raises) {
      UnreadableEntryIs(entry, raises);
    }
    EntriesAreListed(message);
    hide IsEntries, ListedEntries;
    assert forall items :: Get(message, "content") == Some(Arr(items)) ==> ContentItems(message) == items;
    assert forall item <- ContentItems(message) :: Get(message, "content") == Some(Arr(ContentItems(message)));
  }

  lemma EntriesAreListed(message: Payload)
    ensures forall entries :: IsEntries(message, entries) <==> entries == ListedEntries(message)
  {
  }

  // A message is refused exactly when it is one of these.
  lemma RefusalIsExact(before: seq<ThreadMessage>, message: Payload, raises: Raises, e: MessageError)
    ensures Failure(before, message, raises) == Some(e) <==> IsRefused(before, message, raises, e)
  {
    UnreadableResultIs(before, message, raises);
    AssistantRaisesExactly(message, raises);
    hide ToolRaises, AssistantRaises, IsUnreadableResult, IsUnreadablePart, IsUnreadableEntry, IsEntries;
  }

  // `_restorable_thread_messages`
  method RestorableThreadMessages(messages: seq<Payload>, assistant: Option<ThreadMessage>, supply: Supply,
                                  raises: Raises)
    returns (r: Result<seq<ThreadMessage>, MessageError>)
    ensures r.Ok? <==> forall i :: 0 <= i < |messages| ==> FailureAt(messages, supply, raises, i).None?
    ensures r.Ok? ==> r.value == Thread(messages, assistant, supply)
    ensures r.Err? ==>
      exists i :: 0 <= i < |messages| && FailureAt(messages, supply, raises, i) == Some(r.error) &&
        IsRefused(Restored(messages[..i], supply), messages[i], raises, r.error) &&
        forall j :: 0 <= j < i ==> FailureAt(messages, supply, raises, j).None?
  {
    hide Merge, AssistantFrom, BasicFrom, ToolRaises, AssistantRaises, IsHashable, Get, IsRefused;
    var restorable: seq<ThreadMessage> := [];
    for i := 0 to |messages|
      invariant restorable == Restored(messages[..i], supply)
      invariant forall k :: 0 <= k < i ==> FailureAt(messages, supply, raises, k).None?
    {
      var message := messages[i];
      assert messages[..i + 1][..i] == messages[..i];
      ghost var failure := FailureAt(messages, supply, raises, i);
      if HasRole(message, "tool") {
        var merged := MergeToolResult(message, restorable, raises);
        if merged.Err? {
          assert failure == Some(merged.error);
          RefusalIsExact(Restored(messages[..i], supply), message, raises, merged.error);
          return Err(merged.error);
        }
        restorable := merged.value;
      } else if HasRole(message, "assistant") {
        var normalized := NormalizeAssistantMessage(message, i, supply, raises);
        if normalized.Err? {
          assert failure == Some(normalized.error);
          RefusalIsExact(Restored(messages[..i], supply), message, raises, normalized.error);
          return Err(normalized.error);
        }
        restorable := restorable + [normalized.value];
      } else if !IsHashable(message) {
        assert failure == Some(UnhashableRole);
        RefusalIsExact(Restored(messages[..i], supply), message, raises, UnhashableRole);
        return Err(UnhashableRole);
      } else if HasRole(message, "system") {
        restorable := restorable + [BasicFrom(message, System, i, supply)];
      } else if HasRole(message, "user") {
        restorable := restorable + [BasicFrom(message, User, i, supply)];
      }
    }
    assert messages[..|messages|] == messages;
    if assistant.Some? {
      restorable := Without(restorable, assistant.value.id) + [assistant.value];
    }
    r := Ok(restorable);
  }

  // An assistant message with one listed call, and a result for it.
  function CallAndResult(id: string, text: string): seq<Payload> {
    [map["role" := Str("assistant"), "toolCalls" := Arr([Obj(map["id" := Str(id)])])],
     map["role" := Str("tool"), "toolCallId" := Str(id), "content" := Str(text)]]
  }

  lemma CallAndResultAre(id: string, text: string)
    ensures var (message, tool) := (CallAndResult(id, text)[0], CallAndResult(id, text)[1]);
      && Get(message, "role") == Some(Str("assistant")) && Get(message, "content") == None
      && Get(message, "toolCalls") == Some(Arr([Obj(map["id" := Str(id)])]))
      && Get(tool, "role") == Some(Str("tool")) && Get(tool, "toolCallId") == Some(Str(id))
      && Get(tool, "content") == Some(Str(text))
    ensures "assistant" != "tool"
  {
    assert "role"[0] == 'r' && "toolCalls"[0] == 't' && "content"[0] == 'c' && "toolCallId"[0] == 't';
    assert "assistant"[0] == 'a' && "tool"[0] == 't';
  }

  lemma OneListedCall(entry: Payload, id: string, i: nat, supply: Supply)
    requires id != "" && Get(entry, "id") == Some(Str(id))
    ensures |ListedCalls([Obj(entry)], i, supply)| == 1 && ListedCalls([Obj(entry)], i, supply)[0].id == id
  {
    ListedIdIsKept(entry, id, supply(CallSlot(i, 0)));
    hide NormalizeCall, ListedCallPart, Get;
    assert [Obj(entry)][..0] == [];
  }

  lemma ListedIdIsKept(entry: Payload, id: string, freshId: string)
    requires id != "" && Get(entry, "id") == Some(Str(id))
    ensures NormalizeCall(ListedCallPart(entry, freshId), freshId).id == id
  {
    FirstString(entry, ["id", "toolCallId"], id);
    var part := ListedCallPart(entry, freshId);
    assert "type"[0] == 't' && "toolName"[4] == 'N' && "argsText"[0] == 'a' && "toolCallId"[4] == 'C';
    hide StringValue, ListedArgsText;
    assert Get(part, "toolCallId") == Some(Str(id));
    FirstString(part, ["toolCallId", "tool_call_id"], id);
    hide ListedCallPart, Dumps, Sanitized, ParseObject;
  }

  lemma OneCallAdded(call: ToolCall)
    ensures AddCalls([], [call]) == [Call(call)]
  {
    assert [call][..0] == [];
  }

  lemma AssistantWithOneCall(message: Payload, entry: Payload, id: string, i: nat, supply: Supply)
    requires id != "" && Get(entry, "id") == Some(Str(id))
    requires Get(message, "content") == None && Get(message, "toolCalls") == Some(Arr([Obj(entry)]))
    ensures var parts := AssistantFrom(message, i, supply).parts; |parts| == 1 && IsCall(parts[0], id)
  {
    hide Get, ListedCalls, AddCalls, StringValue;
    OneListedCall(entry, id, i, supply);
    var calls := ListedCalls([Obj(entry)], i, supply);
    assert calls == [calls[0]];
    OneCallAdded(calls[0]);
  }

  lemma OneCallIsLatest(kept: ThreadMessage, id: string)
    requires kept.Assistant? && |kept.parts| == 1 && IsCall(kept.parts[0], id)
    ensures LatestCall([kept], id).Some?
  {
    LastPartIsLast(kept.parts, id);
  }

  // Such messages: a result whose text raises, for a call that is there.
  lemma UnreadableResultRaises(id: string, text: string, supply: Supply, raises: Raises)
    requires id != "" && text != "" && raises(text)
    ensures FailureAt(CallAndResult(id, text), supply, raises, 1) == Some(UnreadableText)
  {
    var messages := CallAndResult(id, text);
    assert |messages| == 2;
    CallAndResultAre(id, text);
    hide CallAndResult, AssistantFrom, StringValue, Get, LatestCall;
    AssistantWithOneCall(messages[0], map["id" := Str(id)], id, 0, supply) by {
      EntryHasId(id);
    }
    FirstString(messages[1], ["toolCallId", "tool_call_id"], id);
    OneCallIsLatest(AssistantFrom(messages[0], 0, supply), id) by {
      FromIsAssistant(messages[0], 0, supply);
    }
    FirstIsKept(messages, supply);
  }

  lemma EntryHasId(id: string)
    ensures Get(map["id" := Str(id)], "id") == Some(Str(id))
  {
  }

  lemma FromIsAssistant(message: Payload, i: nat, supply: Supply)
    ensures AssistantFrom(message, i, supply).Assistant?
  {
    hide StringValue, AddCalls, MessageCalls, ContentParts;
  }

  lemma FirstIsKept(messages: seq<Payload>, supply: Supply)
    requires messages != [] && HasRole(messages[0], "assistant") && !HasRole(messages[0], "tool")
    ensures Restored(messages[..1], supply) == [AssistantFrom(messages[0], 0, supply)]
  {
    hide HasRole, AssistantFrom, BasicFrom, Merge;
    assert messages[..1][..0] == [];
  }

  // The calls added are listed ones, and no part before has their id.
  predicate AreAdded(parts: seq<Part>, calls: seq<ToolCall>, out: seq<Part>) {
    && |parts| <= |out| && out[..|parts|] == parts
    && (forall j :: |parts| <= j < |out| ==> out[j].Call? && out[j].call in calls)
    && (forall j, k :: |parts| <= j < |out| && 0 <= k < j && out[k].Call? ==> out[k].call.id != out[j].call.id)
  }

  lemma OneMoreAdded(parts: seq<Part>, calls: seq<ToolCall>, out: seq<Part>, call: ToolCall)
    requires AreAdded(parts, calls, out)
    ensures AreAdded(parts, calls + [call], out)
    ensures call.id !in CallIds(out) ==> AreAdded(parts, calls + [call], out + [Call(call)])
  {
    assert forall k :: 0 <= k < |out| && out[k].Call? ==> out[k] in out && out[k].call.id in CallIds(out);
  }

  // The listed calls are added once each, after the parts, unless a part has their id.
  lemma {:induction false} AddCallsIsExact(parts: seq<Part>, calls: seq<ToolCall>)
    ensures AreAdded(parts, calls, AddCalls(parts, calls))
    ensures CallIds(AddCalls(parts, calls)) == CallIds(parts) + set call <- calls :: call.id
  {
    hide AreAdded, CallIds;
    if calls == [] {
      NothingAdded(parts);
    } else {
      var front, last := calls[..|calls| - 1], calls[|calls| - 1];
      var before := AddCalls(parts, front);
      AddCallsIsExact(parts, front);
      CallIdsOfOneMore(before, last);
      OneMoreAdded(parts, front, before, last);
      assert front + [last] == calls;
      assert forall call :: call in calls <==> call in front || call == last;
    }
  }

  lemma NothingAdded(parts: seq<Part>)
    ensures AreAdded(parts, [], parts)
  {
  }

  // An OpenAI-style entry gives the call it describes, its arguments read from their text.
  lemma ListedCallReadsBack(entry: Payload, id: string, name: string, args: Payload, freshId: string)
    requires id != "" && name != "" && Get(entry, "id") == Some(Str(id))
    requires Get(entry, "function") == Some(Obj(map["name" := Str(name), "arguments" := Str(Dumps(Obj(args), true))]))
    ensures NormalizeCall(ListedCallPart(entry, freshId), freshId)
      == ToolCall(id, name, Sanitized(Obj(args)).members, Dumps(Obj(args), true), None, None)
  {
    var text := Dumps(Obj(args), true);
    DumpsReadsBack(Obj(args), true);
    DumpsIsNotEmpty(Obj(args));
    hide Dumps, Loads, Sanitized, StringValue;
    var members := map["name" := Str(name), "arguments" := Str(text)];
    assert "name"[0] == 'n' && "arguments"[0] == 'a';
    FirstString(members, ["name"], name);
    FirstString(members, ["arguments"], text);
    FirstString(entry, ["id", "toolCallId"], id);
    ListedPartIs(entry, id, name, text, freshId);
  }

  // The arguments lose their server-only members, the text keeps them: it still says what the
  // arguments are exactly when there were none.
  lemma ArgsTextKeepsEverything(entry: Payload, id: string, name: string, args: Payload, freshId: string)
    requires id != "" && name != "" && Get(entry, "id") == Some(Str(id))
    requires Get(entry, "function") == Some(Obj(map["name" := Str(name), "arguments" := Str(Dumps(Obj(args), true))]))
    ensures var call := NormalizeCall(ListedCallPart(entry, freshId), freshId);
      Loads(call.argsText) == Some(Obj(args)) && (Loads(call.argsText) == Some(Obj(call.args)) <==> IsClean(Obj(args)))
  {
    ListedCallReadsBack(entry, id, name, args, freshId);
    DumpsReadsBack(Obj(args), true);
    StripKeysIsExact(Obj(args), IsServerOnly);
    hide Dumps, Loads, NormalizeCall, ListedCallPart, StripKeys;
    assert Obj(Sanitized(Obj(args)).members) == Sanitized(Obj(args)) by {
      SanitizedIsObject(args);
    }
  }

  lemma SanitizedIsObject(args: Payload)
    ensures Sanitized(Obj(args)).Obj?
  {
  }

  lemma ListedPartIs(entry: Payload, id: string, name: string, text: string, freshId: string)
    requires id != "" && name != "" && text != "" && ListedCallPart(entry, freshId)
      == map["type" := Str("tool-call"), "toolCallId" := Str(id), "toolName" := Str(name), "argsText" := Str(text)]
    ensures NormalizeCall(ListedCallPart(entry, freshId), freshId)
      == ToolCall(id, name, Sanitized(Obj(ParseObject(Some(text)))).members, text, None, None)
  {
    var part := map["type" := Str("tool-call"), "toolCallId" := Str(id), "toolName" := Str(name),
      "argsText" := Str(text)];
    hide ListedCallPart, StringValue, Sanitized, ParseObject;
    assert "toolName"[0] == 't' && "argsText"[0] == 'a';
    FirstString(part, ["argsText", "args_text"], text);
    FirstString(part, ["toolCallId", "tool_call_id"], id);
    FirstString(part, ["toolName", "tool_name", "name"], name);
    assert "type"[0] == 't';
    assert Get(part, "args") == None && Get(part, "result") == None && Get(part, "isError") == None;
  }

  // A JSON result comes to the call as the value it is the text of, and any other as it is.  The
  // call is otherwise as it was, but for the mark of an error.
  lemma AnsweredHoldsTheResult(call: ToolCall, tool: Payload, j: Json, ascii: bool)
    requires Get(tool, "content") == Some(Str(Dumps(j, ascii))) || (Get(tool, "content") == Some(j) && !j.Str?)
    requires IsClean(j)
    ensures var answered := Answered(call, tool);
      && answered.result == Some(j)
      && answered.isError == (if "error" in tool || Get(tool, "status") == Some(Str("error")) then Some(true)
           else call.isError)
      && answered.(result := call.result, isError := call.isError) == call
  {
    DumpsReadsBack(j, ascii);
    assert Dumps(j, ascii) != "";
    SanitizedIsClean(j);
    hide Dumps, Loads, Sanitized, IsClean;
  }

  // ---- Where a result lands ----

  // Later in the list, or later in the same message.
  predicate IsLater(a: Place, b: Place) {
    a.0 > b.0 || (a.0 == b.0 && a.1 > b.1)
  }

  lemma {:induction false} LatestCallIsLatest(messages: seq<ThreadMessage>, id: string, other: Place)
    requires IsCallAt(messages, other, id)
    ensures LatestCall(messages, id).Some? && !IsLater(other, LatestCall(messages, id).value)
  {
    var last := |messages| - 1;
    if messages[last].Assistant? {
      LastPartIsLast(messages[last].parts, id);
    }
    if other.0 < last {
      LatestCallIsLatest(messages[..last], id, other);
    }
  }

  // The message at this place holds the call answered by the tool message, and nothing else changes.
  predicate IsAnsweredAt(out: seq<ThreadMessage>, messages: seq<ThreadMessage>, place: Place, tool: Payload)
    requires place.0 < |messages| && messages[place.0].Assistant? && place.1 < |messages[place.0].parts|
    requires messages[place.0].parts[place.1].Call?
  {
    && |out| == |messages| && (forall i :: 0 <= i < |out| && i != place.0 ==> out[i] == messages[i])
    && var (after, before) := (out[place.0], messages[place.0]);
    && after.Assistant? && after.id == before.id && after.name == before.name && |after.parts| == |before.parts|
    && (forall k :: 0 <= k < |after.parts| && k != place.1 ==> after.parts[k] == before.parts[k])
    && after.parts[place.1].Call?
    && var (answered, call) := (after.parts[place.1].call, before.parts[place.1].call);
    && answered.(result := call.result, isError := call.isError) == call
    && answered.result.Some? && IsResultOf(answered.result.value, tool)
    && answered.isError == (if "error" in tool || Get(tool, "status") == Some(Str("error")) then Some(true)
                            else call.isError)
  }

  lemma AnswerIsPut(messages: seq<ThreadMessage>, place: Place, tool: Payload)
    requires place.0 < |messages| && messages[place.0].Assistant? && place.1 < |messages[place.0].parts|
    requires messages[place.0].parts[place.1].Call?
    ensures IsAnsweredAt(WithAnswer(messages, place, tool), messages, place, tool)
  {
    AnsweredIsExact(messages[place.0].parts[place.1].call, tool);
    hide IsResultOf, ResultOf;
  }

  // A result goes to the latest call with its id; without one it is dropped.
  lemma MergeIsExact(messages: seq<ThreadMessage>, tool: Payload, id: Option<string>)
    requires IsFirstText(tool, ["toolCallId", "tool_call_id"], id)
    ensures var merged := Merge(messages, tool);
      if id.None? || (forall place :: !IsCallAt(messages, place, id.value)) then merged == messages
      else exists place ::
        IsCallAt(messages, place, id.value) && IsAnsweredAt(merged, messages, place, tool) &&
        forall other :: IsCallAt(messages, other, id.value) ==> !IsLater(other, place)
  {
    FirstTextIsOne(tool, ["toolCallId", "tool_call_id"], id);
    assert ToolCallId(tool) == id;
    hide WithAnswer, ToolCallId, IsFirstText, IsAnsweredAt, StringValue;
    if id.Some? && exists place :: IsCallAt(messages, place, id.value) {
      forall other | IsCallAt(messages, other, id.value)
        ensures LatestCall(messages, id.value).Some? && !IsLater(other, LatestCall(messages, id.value).value)
      {
        LatestCallIsLatest(messages, id.value, other);
      }
      AnswerIsPut(messages, LatestCall(messages, id.value).value, tool);
    }
  }

  // Nothing about a message but the results of its calls.
  function ErasedPart(part: Part): Part {
    match part case Call(call) => Call(call.(result := None, isError := None)) case Other(_) => part
  }

  function Erased(message: ThreadMessage): ThreadMessage {
    match message
    case Basic(_, _, _, _) => message
    case Assistant(id, name, parts) =>
      Assistant(id, name, seq(|parts|, k requires 0 <= k < |parts| => ErasedPart(parts[k])))
  }

  function AllErased(messages: seq<ThreadMessage>): seq<ThreadMessage> {
    seq(|messages|, i requires 0 <= i < |messages| => Erased(messages[i]))
  }

  lemma MergeErases(messages: seq<ThreadMessage>, tool: Payload)
    ensures AllErased(Merge(messages, tool)) == AllErased(messages)
  {
    hide ToolCallId, LatestCall, ResultOf, ReportsError;
    var id := ToolCallId(tool);
    if id.Some? && LatestCall(messages, id.value).Some? {
      var place := LatestCall(messages, id.value).value;
      var (before, after) := (messages[place.0], Merge(messages, tool)[place.0]);
      assert Erased(after).parts == Erased(before).parts;
    }
  }

  // The messages kept, each by itself.
  function AllKept(messages: seq<Payload>, supply: Supply): seq<ThreadMessage> {
    if messages == [] then []
    else
      var last := |messages| - 1;
      AllKept(messages[..last], supply)
      + match Kept(messages[last], last, supply) case None => [] case Some(kept) => [kept]
  }

  lemma ToolIsNotKept(message: Payload, i: nat, supply: Supply)
    requires HasRole(message, "tool")
    ensures Kept(message, i, supply).None?
  {
    assert "tool"[0] == 't' && "assistant"[0] == 'a' && "system"[0] == 's' && "user"[0] == 'u';
  }

  // The output is the user, system and assistant messages in their order, and differs from them
  // only in the results of the calls.
  lemma {:induction false} RestoredAreTheKept(messages: seq<Payload>, supply: Supply)
    ensures AllErased(Restored(messages, supply)) == AllErased(AllKept(messages, supply))
  {
    hide Kept, Merge, Erased, HasRole;
    if messages != [] {
      var last := |messages| - 1;
      var before := Restored(messages[..last], supply);
      RestoredAreTheKept(messages[..last], supply);
      MergeErases(before, messages[last]);
      if HasRole(messages[last], "tool") {
        ToolIsNotKept(messages[last], last, supply);
      }
      var more := match Kept(messages[last], last, supply) case None => [] case Some(kept) => [kept];
      assert AllErased(before + more) == AllErased(before) + AllErased(more);
      assert AllErased(AllKept(messages[..last], supply) + more)
        == AllErased(AllKept(messages[..last], supply)) + AllErased(more);
    }
  }

  predicate IsKeptRole(message: Payload) {
    HasRole(message, "assistant") || HasRole(message, "system") || HasRole(message, "user")
  }

  // The message kept for this one, by its role.
  ghost predicate IsKeptFrom(kept: ThreadMessage, message: Payload, i: nat, supply: Supply) {
    && (HasRole(message, "assistant") ==> IsAssistantFrom(kept, message, i, supply))
    && (HasRole(message, "system") ==> IsBasicFrom(kept, message, System, i, supply))
    && (HasRole(message, "user") ==> IsBasicFrom(kept, message, User, i, supply))
  }

  lemma RolesDiffer(message: Payload)
    ensures !(HasRole(message, "assistant") && HasRole(message, "system"))
    ensures !(HasRole(message, "assistant") && HasRole(message, "user"))
    ensures !(HasRole(message, "system") && HasRole(message, "user"))
  {
    assert "assistant"[0] == 'a' && "system"[0] == 's' && "user"[0] == 'u';
  }

  lemma KeptIsExact(message: Payload, i: nat, supply: Supply)
    ensures var kept := Kept(message, i, supply);
      (kept.Some? <==> IsKeptRole(message)) && (kept.Some? ==> IsKeptFrom(kept.value, message, i, supply))
  {
    RolesDiffer(message);
    AssistantIsExact(message, i, supply);
    BasicIsExact(message, System, i, supply);
    BasicIsExact(message, User, i, supply);
    hide HasRole, IsAssistantFrom, IsBasicFrom, AssistantFrom, BasicFrom;
  }

  ghost predicate AreKeptFrom(kept: seq<ThreadMessage>, messages: seq<Payload>, supply: Supply, at: seq<nat>) {
    && Text.Rising(at) && |at| == |kept|
    && (forall k: nat :: IsAmong(at, k) <==> k < |messages| && IsKeptRole(messages[k]))
    && (forall j :: 0 <= j < |at| ==> at[j] < |messages| && IsKeptFrom(kept[j], messages[at[j]], at[j], supply))
  }

  lemma {:induction false} AllKeptIsExact(messages: seq<Payload>, supply: Supply) returns (at: seq<nat>)
    ensures AreKeptFrom(AllKept(messages, supply), messages, supply, at)
  {
    if messages == [] {
      at := [];
    } else {
      var last := |messages| - 1;
      var before := AllKeptIsExact(messages[..last], supply);
      KeptIsExact(messages[last], last, supply);
      hide Kept, IsKeptRole, IsKeptFrom, AreKeptFrom;
      if IsKeptRole(messages[last]) {
        at := before + [last];
        var kept := Kept(messages[last], last, supply).value;
        KeptGrows(AllKept(messages[..last], supply), kept, messages, supply, before);
      } else {
        at := before;
        KeptStays(AllKept(messages[..last], supply), messages, supply, before);
        assert AllKept(messages[..last], supply) + [] == AllKept(messages[..last], supply);
      }
    }
  }

  lemma FrontIsKept(kept: seq<ThreadMessage>, messages: seq<Payload>, supply: Supply, at: seq<nat>)
    requires messages != [] && AreKeptFrom(kept, messages[..|messages| - 1], supply, at)
    ensures Text.Rising(at) && |at| == |kept|
    ensures forall k: nat :: IsAmong(at, k) <==> k < |messages| - 1 && IsKeptRole(messages[k])
    ensures forall j :: 0 <= j < |at| ==>
      at[j] < |messages| - 1 && IsKeptFrom(kept[j], messages[at[j]], at[j], supply)
  {
    hide IsKeptRole, IsKeptFrom, IsAmong;
    var front := messages[..|messages| - 1];
    assert forall k :: 0 <= k < |front| ==> front[k] == messages[k];
  }

  lemma KeptStays(front: seq<ThreadMessage>, messages: seq<Payload>, supply: Supply, at: seq<nat>)
    requires messages != [] && AreKeptFrom(front, messages[..|messages| - 1], supply, at)
    requires !IsKeptRole(messages[|messages| - 1])
    ensures AreKeptFrom(front, messages, supply, at)
  {
    FrontIsKept(front, messages, supply, at);
    hide IsKeptRole, IsKeptFrom, IsAmong;
  }

  lemma KeptGrows(front: seq<ThreadMessage>, more: ThreadMessage, messages: seq<Payload>, supply: Supply, at: seq<nat>)
    requires messages != [] && AreKeptFrom(front, messages[..|messages| - 1], supply, at)
    requires var last := |messages| - 1; IsKeptRole(messages[last]) && IsKeptFrom(more, messages[last], last, supply)
    ensures AreKeptFrom(front + [more], messages, supply, at + [|messages| - 1])
  {
    FrontIsKept(front, messages, supply, at);
    hide IsKeptRole, IsKeptFrom, IsAmong;
    OneMoreIndex(at, at + [|messages| - 1], |messages| - 1, true);
    var (kept, all) := (front + [more], at + [|messages| - 1]);
    forall j | 0 <= j < |all| ensures all[j] < |messages| && IsKeptFrom(kept[j], messages[all[j]], all[j], supply) {
      if j < |at| {
        assert all[j] == at[j] && kept[j] == front[j];
      }
    }
  }

  // The output, message by message: one for each user, system and assistant message, in order,
  // with the content it came with, and for the results of the calls.
  lemma RestoredAreWhatCame(messages: seq<Payload>, supply: Supply) returns (kept: seq<ThreadMessage>, at: seq<nat>)
    ensures AreKeptFrom(kept, messages, supply, at)
    ensures AllErased(Restored(messages, supply)) == AllErased(kept)
  {
    hide Restored, AreKeptFrom, Erased;
    kept := AllKept(messages, supply);
    at := AllKeptIsExact(messages, supply);
    RestoredAreTheKept(messages, supply);
  }

  // A part that is no call with the id of a result is left as it is.
  lemma MergeLeavesOthers(messages: seq<ThreadMessage>, tool: Payload, place: Place)
    requires place.0 < |messages| && messages[place.0].Assistant? && place.1 < |messages[place.0].parts|
    requires ToolCallId(tool).None? || !IsCall(messages[place.0].parts[place.1], ToolCallId(tool).value)
    ensures var merged := Merge(messages, tool);
      |merged| == |messages| && merged[place.0].Assistant? && |merged[place.0].parts| == |messages[place.0].parts| &&
      merged[place.0].parts[place.1] == messages[place.0].parts[place.1]
  {
    hide ToolCallId, Answered;
  }

  // The result of a call stays until another result for its id comes.
  lemma {:induction false} AnsweredCallKeepsItsResult(messages: seq<Payload>, n: nat, supply: Supply, place: Place,
                                                      id: string)
    requires n < |messages| && HasRole(messages[n], "tool") && ToolCallId(messages[n]) == Some(id)
    requires LatestCall(Restored(messages[..n], supply), id) == Some(place)
    requires forall i :: n < i < |messages| && HasRole(messages[i], "tool") ==> ToolCallId(messages[i]) != Some(id)
    ensures var (before, after) := (Restored(messages[..n], supply), Restored(messages, supply));
      place.0 < |after| && after[place.0].Assistant? && place.1 < |after[place.0].parts| &&
      after[place.0].parts[place.1] == Call(Answered(before[place.0].parts[place.1].call, messages[n]))
    decreases |messages|
  {
    hide ToolCallId, Answered, HasRole, Kept, LatestCall, Merge;
    var last := |messages| - 1;
    assert messages[..last][..if n < last then n else last] == messages[..n];
    if n == last {
      AnswerIsPlaced(Restored(messages[..n], supply), messages[n], place, id);
    } else {
      AnsweredCallKeepsItsResult(messages[..last], n, supply, place, id);
      if HasRole(messages[last], "tool") {
        MergeLeavesOthers(Restored(messages[..last], supply), messages[last], place);
      }
    }
  }

  lemma AnswerIsPlaced(messages: seq<ThreadMessage>, tool: Payload, place: Place, id: string)
    requires ToolCallId(tool) == Some(id) && LatestCall(messages, id) == Some(place)
    ensures var merged := Merge(messages, tool);
      place.0 < |merged| && merged[place.0].Assistant? && place.1 < |merged[place.0].parts| &&
      merged[place.0].parts[place.1] == Call(Answered(messages[place.0].parts[place.1].call, tool))
  {
    hide ToolCallId, Answered;
  }

  // ---- The answer of the run ----

  // What the answer is made from; the ids of its calls are those of the run's stream.
  datatype Answer = Answer(steps: seq<WorkflowStep>, messageId: Option<string>, text: Option<string>,
    runId: Option<string>)

  function PlannedStep(step: WorkflowStep): Json {
    Obj(map["step_id" := Str(step.stepId), "target_agent" := Str(step.targetAgent), "action" := Str(step.action)])
  }

  function PlannedResult(step: WorkflowStep): Json {
    Obj(map["status" := Str("planned"), "step" := PlannedStep(step)])
  }

  function AnswerCall(a: Answer, k: nat, supply: Supply): ToolCall
    requires k < |a.steps|
  {
    var step := a.steps[k];
    ToolCall(
      if Truthy(a.runId) then RunStream.CallId(RunStream.RunRequest(None, a.runId.value), a.steps, k)
      else "tool-" + supply(AnswerCallSlot(k)),
      step.action, Sanitized(Obj(ParseObject(Some(step.inputPayloadJson)))).members, step.inputPayloadJson,
      Some(PlannedResult(step)), None)
  }

  function AnswerParts(a: Answer, supply: Supply): seq<Part> {
    (if Truthy(a.text) then [TextPart(a.text.value)] else [])
    + seq(|a.steps|, k requires 0 <= k < |a.steps| => Call(AnswerCall(a, k, supply)))
  }

  function AnswerId(a: Answer, supply: Supply): string {
    if Truthy(a.messageId) then a.messageId.value else "assistant-" + supply(AnswerSlot)
  }

  function AnswerMessage(a: Answer, supply: Supply): Option<ThreadMessage> {
    if AnswerParts(a, supply) == [] then None else Some(Assistant(AnswerId(a, supply), None, AnswerParts(a, supply)))
  }

  // The call of step k in the answer: the id that the stream gave it, or a fresh one, its tool and
  // payload as planned, and the planned result.
  ghost predicate IsStepCall(part: Part, a: Answer, k: nat, supply: Supply) {
    k < |a.steps| && part.Call? &&
    var (call, step) := (part.call, a.steps[k]);
    && call.id == (if Truthy(a.runId)
         then a.runId.value + ":" + (if step.stepId != "" then step.stepId else Dispatcher.StepId(k + 1))
         else "tool-" + supply(AnswerCallSlot(k)))
    && call.name == step.action && call.argsText == step.inputPayloadJson && call.isError == None
    && Obj(call.args) == StripKeys(Obj(ObjectIn(step.inputPayloadJson)), IsServerOnly)
    && call.result.Some? && call.result.value.Obj?
    && var result := call.result.value.members;
    && result.Keys == {"status", "step"} && result["status"] == Str("planned") && result["step"].Obj?
    && var planned := result["step"].members;
    && planned.Keys == {"step_id", "target_agent", "action"} && planned["step_id"] == Str(step.stepId)
    && planned["target_agent"] == Str(step.targetAgent) && planned["action"] == Str(step.action)
  }

  lemma StepCallIsExact(a: Answer, k: nat, supply: Supply)
    requires k < |a.steps|
    ensures IsStepCall(Call(AnswerCall(a, k, supply)), a, k, supply)
  {
    var step := a.steps[k];
    ObjectInText(Some(step.inputPayloadJson));
    SanitizedIsObject(ObjectIn(step.inputPayloadJson));
    assert "status"[2] == 'a' && "step"[2] == 'e';
    assert "step_id"[0] == 's' && "target_agent"[0] == 't' && "action"[0] == 'a';
    hide ParseObject, ObjectIn, StripKeys, Dispatcher.StepId;
    var planned := PlannedStep(step).members;
    assert planned.Keys == {"step_id", "target_agent", "action"};
    assert PlannedResult(step).members.Keys == {"status", "step"};
  }

  // The answer as it joins the thread: none if there is neither text nor step; else its text, if
  // there is one, and a call for each step.
  ghost predicate IsAnswer(message: Option<ThreadMessage>, a: Answer, supply: Supply) {
    var texts := if Truthy(a.text) then [Other(map["type" := Str("text"), "text" := Str(a.text.value)])] else [];
    if texts == [] && a.steps == [] then message == None
    else
      message.Some? && message.value.Assistant? && message.value.name == None &&
      message.value.id == (if Truthy(a.messageId) then a.messageId.value else "assistant-" + supply(AnswerSlot)) &&
      |message.value.parts| == |texts| + |a.steps| && message.value.parts[..|texts|] == texts &&
      var calls := message.value.parts[|texts|..];
      forall k :: 0 <= k < |a.steps| ==> IsStepCall(calls[k], a, k, supply)
  }

  lemma AnswerIsExact(a: Answer, supply: Supply)
    ensures IsAnswer(AnswerMessage(a, supply), a, supply)
  {
    hide AnswerCall, IsStepCall;
    forall k | 0 <= k < |a.steps| ensures IsStepCall(Call(AnswerCall(a, k, supply)), a, k, supply) {
      StepCallIsExact(a, k, supply);
    }
  }

  // `_assistant_thread_message`
  method AssistantThreadMessage(a: Answer, supply: Supply, raises: Raises)
    returns (r: Result<Option<ThreadMessage>, MessageError>)
    ensures r.Ok? <==> forall step <- a.steps :: !ParsingRaises(step.inputPayloadJson, raises)
    ensures r.Ok? ==> r.value == AnswerMessage(a, supply)
    ensures r.Ok? ==> IsAnswer(r.value, a, supply)
    ensures r.Err? ==> r.error == UnreadableText
  {
    AnswerIsExact(a, supply);
    hide AnswerCall, IsAnswer;
    var parts := [];
    if Truthy(a.text) {
      parts := parts + [TextPart(a.text.value)];
    }
    ghost var before := parts;
    for k := 0 to |a.steps|
      invariant parts == before + seq(k, j requires 0 <= j < k => Call(AnswerCall(a, j, supply)))
      invariant forall j :: 0 <= j < k ==> !ParsingRaises(a.steps[j].inputPayloadJson, raises)
    {
      if ParsingRaises(a.steps[k].inputPayloadJson, raises) {
        assert a.steps[k] in a.steps;
        return Err(UnreadableText);
      }
      parts := parts + [Call(AnswerCall(a, k, supply))];
    }
    assert parts == AnswerParts(a, supply);
    if parts == [] {
      return Ok(None);
    }
    r := Ok(Some(Assistant(AnswerId(a, supply), None, parts)));
  }

  lemma {:induction false} WithoutIsExact(messages: seq<ThreadMessage>, id: string)
    ensures forall m :: m in Without(messages, id) <==> m in messages && m.id != id
    ensures (forall m <- messages :: m.id != id) ==> Without(messages, id) == messages
  {
    if messages != [] {
      WithoutIsExact(messages[1..], id);
      assert messages == [messages[0]] + messages[1..];
    }
  }

  predicate HaveNot(at: seq<nat>, messages: seq<ThreadMessage>, id: string) {
    forall k :: 0 <= k < |at| ==> at[k] < |messages| && messages[at[k]].id != id
  }

  predicate HaveAll(at: seq<nat>, messages: seq<ThreadMessage>, id: string) {
    forall i: nat :: i < |messages| && messages[i].id != id ==> IsAmong(at, i)
  }

  // Places in increasing order, of exactly the messages without this id.
  predicate ArePlacesWithout(at: seq<nat>, messages: seq<ThreadMessage>, id: string) {
    HaveNot(at, messages, id) && Text.Rising(at) && HaveAll(at, messages, id)
  }

  // The places in the rest of the list one further on, with that of the first message if it counts.
  function Onward(first: bool, tail: seq<nat>): seq<nat> {
    (if first then [0] else []) + seq(|tail|, k requires 0 <= k < |tail| => tail[k] + 1)
  }

  function Shift(first: bool): nat {
    if first then 1 else 0
  }

  lemma OnwardPlaces(first: bool, tail: seq<nat>)
    ensures var at := Onward(first, tail);
      |at| == |tail| + Shift(first) && (first ==> at[0] == 0) &&
      forall k :: 0 <= k < |at| && k >= Shift(first) ==> at[k] == tail[k - Shift(first)] + 1
  {
  }

  lemma OnwardIncreases(first: bool, tail: seq<nat>)
    requires Text.Rising(tail)
    ensures Text.Rising(Onward(first, tail))
  {
    OnwardPlaces(first, tail);
    hide Onward;
    var at := Onward(first, tail);
    forall j, k | 0 <= j < k < |at| ensures at[j] < at[k] {
      assert j >= Shift(first) ==> tail[j - Shift(first)] < tail[k - Shift(first)];
    }
  }

  lemma OnwardPlace(first: bool, tail: seq<nat>, i: nat)
    requires if i == 0 then first else IsAmong(tail, i - 1)
    ensures IsAmong(Onward(first, tail), i)
  {
    OnwardPlaces(first, tail);
    hide Onward;
    var at := Onward(first, tail);
    if i == 0 {
      assert at[0] == i;
    } else {
      var k :| 0 <= k < |tail| && tail[k] == i - 1;
      assert at[k + Shift(first)] == i;
    }
  }

  lemma OnwardIsPlaces(messages: seq<ThreadMessage>, id: string, tail: seq<nat>)
    requires messages != [] && ArePlacesWithout(tail, messages[1..], id)
    ensures ArePlacesWithout(Onward(messages[0].id != id, tail), messages, id)
  {
    var first := messages[0].id != id;
    var at := Onward(first, tail);
    OnwardPlaces(first, tail);
    OnwardIncreases(first, tail);
    hide Onward, IsAmong, Text.Rising;
    forall k | 0 <= k < |at| ensures at[k] < |messages| && messages[at[k]].id != id {
      if k >= Shift(first) {
        var before := tail[k - Shift(first)];
        assert at[k] == before + 1 && messages[1..][before] == messages[before + 1];
      }
    }
    forall i: nat | i < |messages| && messages[i].id != id ensures IsAmong(at, i) {
      if i > 0 {
        assert messages[1..][i - 1] == messages[i];
      }
      OnwardPlace(first, tail, i);
    }
  }

  lemma OnwardFinds(messages: seq<ThreadMessage>, id: string, tail: seq<nat>, rest: seq<ThreadMessage>, k: nat)
    requires messages != [] && |rest| == |tail| && HaveNot(tail, messages[1..], id)
    requires forall i :: 0 <= i < |tail| ==> rest[i] == messages[1..][tail[i]]
    requires var first := messages[0].id != id;
      k < |Onward(first, tail)| && Onward(first, tail)[k] < |messages|
    ensures var first := messages[0].id != id;
      var out := (if first then [messages[0]] else []) + rest;
      |out| == |Onward(first, tail)| && out[k] == messages[Onward(first, tail)[k]]
  {
    var first := messages[0].id != id;
    OnwardPlaces(first, tail);
    hide Onward;
    if k >= Shift(first) {
      var before := tail[k - Shift(first)];
      assert rest[k - Shift(first)] == messages[1..][before] == messages[before + 1];
    }
  }

  lemma {:induction false} WithoutKeepsOrder(messages: seq<ThreadMessage>, id: string) returns (at: seq<nat>)
    ensures ArePlacesWithout(at, messages, id) && |Without(messages, id)| == |at|
    ensures forall k :: 0 <= k < |at| ==> Without(messages, id)[k] == messages[at[k]]
  {
    at := [];
    if messages != [] {
      var tail := WithoutKeepsOrder(messages[1..], id);
      var (first, rest, out) := (messages[0].id != id, Without(messages[1..], id), Without(messages, id));
      at := Onward(first, tail);
      OnwardIsPlaces(messages, id, tail);
      OnwardPlaces(first, tail);
      assert out == (if first then [messages[0]] else []) + rest;
      hide Onward, Text.Rising, HaveAll, Without;
      forall k | 0 <= k < |at| ensures out[k] == messages[at[k]] {
        OnwardFinds(messages, id, tail, rest, k);
      }
    }
  }

  // The answer is there once, at the end; before it are the messages restored that do not have
  // its id, each as often as it was there, in their order.
  lemma AnswerIsOnceAndLast(messages: seq<Payload>, answer: ThreadMessage, supply: Supply) returns (at: seq<nat>)
    ensures var (thread, restored) := (Thread(messages, Some(answer), supply), Restored(messages, supply));
      && |thread| == |at| + 1 && thread[|at|] == answer && ArePlacesWithout(at, restored, answer.id)
      && (forall k :: 0 <= k < |at| ==> thread[k] == restored[at[k]] && thread[k].id != answer.id)
  {
    at := WithoutKeepsOrder(Restored(messages, supply), answer.id);
  }

  // ---- Normalising again ----

  predicate IsNamed(name: Option<string>) {
    name.Some? ==> name.value != ""
  }

  predicate IsClean(j: Json) {
    HasNoKeys(j, IsServerOnly)
  }

  predicate IsNormalCall(call: ToolCall) {
    && call.id != "" && call.name != "" && call.argsText != "" && IsClean(Obj(call.args))
    && (call.result.Some? ==> IsClean(call.result.value))
  }

  predicate IsNormalOther(payload: Payload) {
    IsClean(Obj(payload)) &&
    match Get(payload, "type")
    case Some(Str(kind)) => (kind == "text" && Get(payload, "text").Some? && Get(payload, "text").value.Str?) ||
      kind in KEPT_KINDS
    case _ => false
  }

  predicate IsNormalPart(part: Part) {
    match part case Call(call) => IsNormalCall(call) case Other(payload) => IsNormalOther(payload)
  }

  predicate AreNormalParts(parts: seq<Part>) {
    forall k :: 0 <= k < |parts| ==> IsNormalPart(parts[k])
  }

  predicate IsNormal(message: ThreadMessage) {
    && message.id != "" && IsNamed(message.name)
    && match message
       case Basic(_, _, _, content) => content.Str? || (content.Arr? && IsClean(content))
       case Assistant(_, _, parts) => AreNormalParts(parts)
  }

  predicate AreNormal(messages: seq<ThreadMessage>) {
    forall i :: 0 <= i < |messages| ==> IsNormal(messages[i])
  }

  lemma SanitizedIsClean(j: Json)
    ensures IsClean(Sanitized(j)) && (IsClean(j) ==> Sanitized(j) == j)
  {
    StripKeysIsExact(j, IsServerOnly);
  }

  lemma DumpsIsNotEmpty(j: Json)
    ensures Dumps(j, true) != ""
  {
  }

  lemma CallIsNormal(part: Payload, freshId: string)
    ensures IsNormalCall(NormalizeCall(part, freshId))
  {
    var argsText := StringValue(part, ["argsText", "args_text"]);
    var args := match Get(part, "args") case Some(Obj(members)) => members case _ => ParseObject(argsText);
    SanitizedIsClean(Obj(args));
    DumpsIsNotEmpty(Obj(args));
    assert Obj(Sanitized(Obj(args)).members) == Sanitized(Obj(args));
    hide StringValue, Sanitized, IsClean, Dumps, ParseObject;
    if "result" in part {
      SanitizedIsClean(part["result"]);
    }
  }

  lemma PartIsNormal(part: Json, freshId: string)
    ensures var normalized := NormalizePart(part, freshId); normalized.Some? ==> IsNormalPart(normalized.value)
  {
    if part.Obj? {
      SanitizedIsClean(part);
      assert Obj(Sanitized(part).members) == Sanitized(part);
      CallIsNormal(Sanitized(part).members, freshId);
      hide NormalizeCall, IsNormalCall, IsClean, Sanitized;
    }
  }

  lemma {:induction false} ItemsAreNormal(items: seq<Json>, i: nat, supply: Supply)
    ensures AreNormalParts(NormalizeItems(items, i, supply))
  {
    hide NormalizePart, IsNormalPart;
    if items != [] {
      var last := |items| - 1;
      ItemsAreNormal(items[..last], i, supply);
      PartIsNormal(items[last], supply(PartSlot(i, last)));
    }
  }

  lemma {:induction false} ListedCallsAreNormal(entries: seq<Json>, i: nat, supply: Supply)
    ensures forall call <- ListedCalls(entries, i, supply) :: IsNormalCall(call)
  {
    hide NormalizeCall, IsNormalCall, ListedCallPart;
    if entries != [] {
      var last := |entries| - 1;
      ListedCallsAreNormal(entries[..last], i, supply);
      if entries[last].Obj? {
        var entry, freshId := entries[last].members, supply(CallSlot(i, last));
        var part := ListedCallPart(entry, freshId);
        CallIsNormal(part, freshId);
      }
    }
  }

  lemma {:induction false} AddedCallsAreNormal(parts: seq<Part>, calls: seq<ToolCall>)
    requires AreNormalParts(parts) && forall call <- calls :: IsNormalCall(call)
    ensures AreNormalParts(AddCalls(parts, calls))
  {
    hide IsNormalCall, IsNormalOther;
    if calls != [] {
      AddedCallsAreNormal(parts, calls[..|calls| - 1]);
      assert IsNormalPart(Call(calls[|calls| - 1]));
    }
  }

  lemma TextPartIsNormal(text: string)
    ensures IsNormalPart(TextPart(text))
  {
    NotServerOnly("type");
    NotServerOnly("text");
    assert "type"[1] == 'y' && "text"[1] == 'e';
  }

  // The names that the normaliser itself writes.
  lemma NotServerOnly(name: string)
    requires |name| < 8 || |name| == 10 || (|name| == 8 && name[2] != 'k')
    ensures !IsServerOnly(name)
  {
    assert "tokenRef"[2] == 'k';
  }

  lemma AssistantIsNormal(message: Payload, i: nat, supply: Supply)
    ensures IsNormal(AssistantFrom(message, i, supply))
  {
    var (content, calls) := (Get(message, "content"), MessageCalls(message, i, supply));
    hide StringValue, AddCalls, MessageCalls, IsNormalCall, AreNormalParts;
    assert AreNormalParts(ContentParts(content, i, supply)) by {
      ContentIsNormal(content, i, supply);
    }
    CallsAreNormal(message, i, supply);
    hide ContentParts;
    AddedCallsAreNormal(ContentParts(content, i, supply), calls);
  }

  lemma ContentIsNormal(content: Option<Json>, i: nat, supply: Supply)
    ensures AreNormalParts(ContentParts(content, i, supply))
  {
    hide IsNormalPart, NormalizeItems;
    match content
    case Some(Arr(items)) => ItemsAreNormal(items, i, supply);
    case Some(Str(text)) => TextPartIsNormal(text);
    case _ =>
  }

  lemma BasicIsNormal(message: Payload, role: Role, i: nat, supply: Supply)
    ensures IsNormal(BasicFrom(message, role, i, supply))
  {
    var content := Get(message, "content");
    if content.Some? {
      SanitizedIsClean(content.value);
    }
    hide StringValue, IsClean;
  }

  lemma KeptIsNormal(message: Payload, i: nat, supply: Supply)
    ensures Kept(message, i, supply).Some? ==> IsNormal(Kept(message, i, supply).value)
  {
    AssistantIsNormal(message, i, supply);
    BasicIsNormal(message, System, i, supply);
    BasicIsNormal(message, User, i, supply);
    hide HasRole, AssistantFrom, BasicFrom, IsNormal;
  }

  lemma CallsAreNormal(message: Payload, i: nat, supply: Supply)
    ensures forall call <- MessageCalls(message, i, supply) :: IsNormalCall(call)
  {
    hide IsNormalCall, ListedCalls, ListedEntries;
    ListedCallsAreNormal(ListedEntries(message), i, supply);
  }

  lemma MergeKeepsNormal(messages: seq<ThreadMessage>, tool: Payload)
    requires AreNormal(messages)
    ensures AreNormal(Merge(messages, tool))
  {
    hide ToolCallId, LatestCall, ReportsError, IsClean, IsNormalOther;
    assert IsClean(ResultOf(tool)) by {
      hide ParseValue;
      SanitizedIsClean(ContentOf(tool));
    }
    hide ResultOf;
    var id := ToolCallId(tool);
    if id.Some? && LatestCall(messages, id.value).Some? {
      var place := LatestCall(messages, id.value).value;
      assert IsNormal(messages[place.0]) && IsNormalPart(messages[place.0].parts[place.1]);
      var after := Merge(messages, tool)[place.0];
      assert forall k :: 0 <= k < |after.parts| && k != place.1 ==> after.parts[k] == messages[place.0].parts[k];
      assert AreNormalParts(after.parts);
    }
  }

  lemma {:induction false} RestoredIsNormal(messages: seq<Payload>, supply: Supply)
    ensures AreNormal(Restored(messages, supply))
  {
    hide Kept, Merge, IsNormal, HasRole;
    if messages != [] {
      var last := |messages| - 1;
      RestoredIsNormal(messages[..last], supply);
      MergeKeepsNormal(Restored(messages[..last], supply), messages[last]);
      KeptIsNormal(messages[last], last, supply);
    }
  }

  // ---- As JSON ----

  const CALL_FIELDS: seq<string> := ["type", "toolCallId", "toolName", "args", "argsText", "result", "isError"]

  function CallValues(call: ToolCall): seq<Option<Json>> {
    [Some(Str("tool-call")), Some(Str(call.id)), Some(Str(call.name)), Some(Obj(call.args)), Some(Str(call.argsText)),
     call.result,
     if call.isError.Some? then Some(Bool(call.isError.value)) else None]
  }

  function PartJson(part: Part): Json {
    match part case Call(call) => Obj(Members(CALL_FIELDS, CallValues(call))) case Other(payload) => Obj(payload)
  }

  const MESSAGE_FIELDS: seq<string> := ["id", "role", "content", "name"]

  function PartsJson(parts: seq<Part>): Json {
    Arr(seq(|parts|, k requires 0 <= k < |parts| => PartJson(parts[k])))
  }

  function MessageValues(message: ThreadMessage): seq<Option<Json>> {
    match message
    case Basic(id, name, role, content) =>
      [Some(Str(id)), Some(Str(RoleName(role))), Some(content), OptionalField(name)]
    case Assistant(id, name, parts) =>
      [Some(Str(id)), Some(Str("assistant")), Some(PartsJson(parts)), OptionalField(name)]
  }

  // A kept message as it is stored, and given back in the next run.
  function AsPayload(message: ThreadMessage): Payload {
    Members(MESSAGE_FIELDS, MessageValues(message))
  }

  function AsPayloads(messages: seq<ThreadMessage>): seq<Payload> {
    seq(|messages|, i requires 0 <= i < |messages| => AsPayload(messages[i]))
  }

  lemma FieldsDiffer()
    ensures Distinct(CALL_FIELDS) && Distinct(MESSAGE_FIELDS)
  {
    assert "type"[0] == 't' && "args"[0] == 'a' && "toolName"[0] == 't' && "argsText"[0] == 'a';
    assert "role"[0] == 'r' && "name"[0] == 'n';
  }

  lemma CallMembers(call: ToolCall)
    ensures var m := Members(CALL_FIELDS, CallValues(call));
      && Get(m, "type") == Some(Str("tool-call")) && Get(m, "toolCallId") == Some(Str(call.id))
      && Get(m, "toolName") == Some(Str(call.name)) && Get(m, "args") == Some(Obj(call.args))
      && Get(m, "argsText") == Some(Str(call.argsText)) && Get(m, "result") == call.result
      && Get(m, "isError") == (if call.isError.Some? then Some(Bool(call.isError.value)) else None)
      && forall key <- m :: key in CALL_FIELDS
  {
    FieldsDiffer();
    var v := CallValues(call);
    hide Members;
    forall i | 0 <= i < |CALL_FIELDS| ensures v[i] == Get(Members(CALL_FIELDS, v), CALL_FIELDS[i]) {
      MemberAt(CALL_FIELDS, v, CALL_FIELDS[i]);
    }
    forall key | key in Members(CALL_FIELDS, v) ensures key in CALL_FIELDS {
      MemberAt(CALL_FIELDS, v, key);
    }
    hide Distinct, Get;
    assert CALL_FIELDS[0] == "type" && CALL_FIELDS[1] == "toolCallId" && CALL_FIELDS[2] == "toolName" &&
      CALL_FIELDS[3] == "args";
    assert CALL_FIELDS[4] == "argsText" && CALL_FIELDS[5] == "result" && CALL_FIELDS[6] == "isError";
  }

  lemma MessageMembers(message: ThreadMessage)
    ensures var (m, v) := (AsPayload(message), MessageValues(message));
      && Get(m, "id") == v[0] && Get(m, "role") == v[1] && Get(m, "content") == v[2] && Get(m, "name") == v[3]
      && forall key <- m :: key in MESSAGE_FIELDS
  {
    FieldsDiffer();
    var v := MessageValues(message);
    hide Members;
    forall i | 0 <= i < |MESSAGE_FIELDS| ensures v[i] == Get(Members(MESSAGE_FIELDS, v), MESSAGE_FIELDS[i]) {
      MemberAt(MESSAGE_FIELDS, v, MESSAGE_FIELDS[i]);
    }
    forall key | key in Members(MESSAGE_FIELDS, v) ensures key in MESSAGE_FIELDS {
      MemberAt(MESSAGE_FIELDS, v, key);
    }
    hide Distinct, Get;
    assert MESSAGE_FIELDS[0] == "id" && MESSAGE_FIELDS[1] == "role" && MESSAGE_FIELDS[2] == "content" &&
      MESSAGE_FIELDS[3] == "name";
  }

  lemma FieldIsNotServerOnly(key: string)
    requires key in CALL_FIELDS || key in MESSAGE_FIELDS
    ensures !IsServerOnly(key)
  {
    NotServerOnly(key);
  }

  // Nothing that the server must keep to itself is left, at any depth.
  lemma PartIsClean(part: Part)
    requires IsNormalPart(part)
    ensures IsClean(PartJson(part))
  {
    if part.Call? {
      var m := Members(CALL_FIELDS, CallValues(part.call));
      CallMembers(part.call);
      hide Members, CallValues;
      forall key | key in m ensures !IsServerOnly(key) && HasNoKeys(m[key], IsServerOnly) {
        FieldIsNotServerOnly(key);
        assert Get(m, key) == Some(m[key]);
      }
    }
  }

  lemma {:induction false} FirstString(payload: Payload, keys: seq<string>, text: string)
    requires keys != [] && text != "" && Get(payload, keys[0]) == Some(Str(text))
    ensures StringValue(payload, keys) == Some(text)
  {
  }

  lemma CallReadsBack(call: ToolCall, freshId: string)
    requires IsNormalCall(call)
    ensures NormalizeCall(Members(CALL_FIELDS, CallValues(call)), freshId) == call
  {
    var m := Members(CALL_FIELDS, CallValues(call));
    CallMembers(call);
    SanitizedIsClean(Obj(call.args));
    if call.result.Some? {
      SanitizedIsClean(call.result.value);
    }
    FirstString(m, ["argsText", "args_text"], call.argsText);
    FirstString(m, ["toolCallId", "tool_call_id"], call.id);
    FirstString(m, ["toolName", "tool_name", "name"], call.name);
    hide Members, CallValues, StringValue, Sanitized, IsClean, Dumps, ParseObject;
  }

  lemma OtherKindIsNoCall(payload: Payload)
    requires IsNormalOther(payload)
    ensures Get(payload, "type") != Some(Str("tool-call"))
    ensures Get(payload, "type") != Some(Str("text")) || (Get(payload, "text").Some? && Get(payload, "text").value.Str?)
  {
    hide IsClean;
    assert "text"[0] == 't' && "tool-call"[1] == 'o' && "text"[1] == 'e' && "tool-call"[0] == 't';
    assert forall kind <- KEPT_KINDS :: kind[0] != 't';
  }

  lemma CallPartReadsBack(call: ToolCall, freshId: string)
    requires IsNormalCall(call)
    ensures FromSafePart(Members(CALL_FIELDS, CallValues(call)), freshId) == Some(Call(call))
  {
    CallReadsBack(call, freshId);
    CallMembers(call);
    hide Members, CallValues, NormalizeCall, IsClean, Get;
    assert "tool-call"[1] == 'o' && "text"[1] == 'e';
  }

  lemma OtherPartReadsBack(payload: Payload, freshId: string)
    requires IsNormalOther(payload)
    ensures FromSafePart(payload, freshId) == Some(Other(payload))
  {
    OtherKindIsNoCall(payload);
    hide NormalizeCall, IsClean, Get;
  }

  lemma PartReadsBack(part: Part, freshId: string)
    requires IsNormalPart(part)
    ensures NormalizePart(PartJson(part), freshId) == Some(part)
  {
    PartIsClean(part);
    SanitizedIsClean(PartJson(part));
    hide FromSafePart, IsNormalCall, IsNormalOther, Sanitized, IsClean, Members, CallValues;
    match part
    case Call(call) => CallPartReadsBack(call, freshId);
    case Other(payload) => OtherPartReadsBack(payload, freshId);
  }

  lemma {:induction false} PartsReadBack(parts: seq<Part>, i: nat, supply: Supply)
    requires AreNormalParts(parts)
    ensures NormalizeItems(PartsJson(parts).items, i, supply) == parts
  {
    hide NormalizePart, PartJson, IsNormalPart;
    if parts != [] {
      var last := |parts| - 1;
      PartsReadBack(parts[..last], i, supply);
      PartReadsBack(parts[last], supply(PartSlot(i, last)));
      assert PartsJson(parts).items[..last] == PartsJson(parts[..last]).items;
    }
  }

  lemma NoString(payload: Payload, key: string)
    requires Get(payload, key) == None
    ensures StringValue(payload, [key]) == None
  {
    assert [key][1..] == [];
  }

  lemma NameReadsBack(message: ThreadMessage)
    requires IsNormal(message)
    ensures StringValue(AsPayload(message), ["id"]) == Some(message.id) && Name(AsPayload(message)) == message.name
  {
    hide AreNormalParts, IsClean;
    MessageMembers(message);
    var m := AsPayload(message);
    FirstString(m, ["id"], message.id);
    hide AsPayload;
    assert Get(m, "name") == OptionalField(message.name);
    if message.name.Some? {
      FirstString(m, ["name"], message.name.value);
    } else {
      NoString(m, "name");
    }
  }

  lemma NoListedEntries(message: ThreadMessage)
    ensures ListedEntries(AsPayload(message)) == []
  {
    hide AsPayload, MessageValues;
    MessageMembers(message);
    assert forall key <- MESSAGE_FIELDS :: |key| < 9;
    hide MESSAGE_FIELDS;
    assert "toolCalls" !in AsPayload(message) && "tool_calls" !in AsPayload(message);
  }

  lemma NoListedCalls(message: ThreadMessage, i: nat, supply: Supply)
    ensures MessageCalls(AsPayload(message), i, supply) == []
  {
    hide AsPayload, ListedEntries, ListedCallPart, NormalizeCall;
    NoListedEntries(message);
  }

  lemma AssistantReadsBack(message: ThreadMessage, i: nat, supply: Supply)
    requires IsNormal(message) && message.Assistant?
    ensures AssistantFrom(AsPayload(message), i, supply) == message
  {
    NameReadsBack(message);
    NoListedCalls(message, i, supply);
    PartsReadBack(message.parts, i, supply);
    MessageMembers(message);
    hide AsPayload, AreNormalParts, StringValue, MessageCalls, NormalizeItems;
  }

  lemma BasicReadsBack(message: ThreadMessage, i: nat, supply: Supply)
    requires IsNormal(message) && message.Basic?
    ensures BasicFrom(AsPayload(message), message.role, i, supply) == message
  {
    NameReadsBack(message);
    SanitizedIsClean(message.content);
    MessageMembers(message);
    hide AsPayload, StringValue, IsClean, Sanitized;
  }

  lemma RolesReadBack(message: ThreadMessage)
    ensures var m := AsPayload(message);
      && !HasRole(m, "tool") && IsHashable(m) && (HasRole(m, "assistant") <==> message.Assistant?)
      && (HasRole(m, "system") <==> message.Basic? && message.role == System)
      && (HasRole(m, "user") <==> message.Basic? && message.role == User)
  {
    MessageMembers(message);
    hide AsPayload, PartsJson;
    assert "tool"[0] == 't' && "assistant"[0] == 'a' && "system"[0] == 's' && "user"[0] == 'u';
  }

  // A normalised message is normalised to itself.
  lemma MessageReadsBack(message: ThreadMessage, i: nat, supply: Supply)
    requires IsNormal(message)
    ensures Kept(AsPayload(message), i, supply) == Some(message) && !HasRole(AsPayload(message), "tool")
  {
    RolesReadBack(message);
    if message.Assistant? {
      AssistantReadsBack(message, i, supply);
    } else {
      BasicReadsBack(message, i, supply);
    }
    hide AsPayload, AssistantFrom, BasicFrom, IsNormal, HasRole;
  }

  lemma {:induction false} NormalListReadsBack(messages: seq<ThreadMessage>, supply: Supply)
    requires AreNormal(messages)
    ensures Restored(AsPayloads(messages), supply) == messages
  {
    hide AsPayload, IsNormal, Kept, HasRole, Merge;
    if messages != [] {
      var last := |messages| - 1;
      NormalListReadsBack(messages[..last], supply);
      MessageReadsBack(messages[last], last, supply);
      assert AsPayloads(messages)[..last] == AsPayloads(messages[..last]);
    }
  }

  // Nothing of a normalised part is parsed: its arguments are an object.
  lemma PartNeverRaises(part: Part, raises: Raises)
    requires IsNormalPart(part)
    ensures !ItemRaises(PartJson(part), raises)
  {
    PartIsClean(part);
    SanitizedIsClean(PartJson(part));
    match part
    case Call(call) =>
      CallMembers(call);
      hide Members, CallValues, Sanitized, IsClean;
    case Other(payload) =>
      OtherKindIsNoCall(payload);
      hide Sanitized, IsClean;
  }

  lemma AssistantNeverRaises(message: ThreadMessage, raises: Raises)
    requires IsNormal(message) && message.Assistant?
    ensures !AssistantRaises(AsPayload(message), raises)
  {
    hide AsPayload, ItemRaises, EntryRaises, PartJson, ListedEntries, IsNormalPart;
    NoListedEntries(message);
    MessageMembers(message);
    forall k | 0 <= k < |message.parts| ensures !ItemRaises(PartJson(message.parts[k]), raises) {
      PartNeverRaises(message.parts[k], raises);
    }
  }

  // ---- Threads ----

  predicate AreComplete(steps: seq<WorkflowStep>) {
    forall k :: 0 <= k < |steps| ==> steps[k].action != "" && steps[k].inputPayloadJson != ""
  }

  lemma PlannedStepIsClean(step: WorkflowStep)
    ensures IsClean(PlannedStep(step))
  {
    NotServerOnly("step_id");
    NotServerOnly("action");
    assert !IsServerOnly("target_agent") by {
      assert "target_agent"[0] == 't' && "target_agent"[1] == 'a' && "access_token"[0] == 'a' &&
        "token_scopes"[1] == 'o';
    }
    hide IsServerOnly;
    var members := PlannedStep(step).members;
    assert forall key <- members :: !IsServerOnly(key) && HasNoKeys(members[key], IsServerOnly);
  }

  lemma PlannedResultIsClean(step: WorkflowStep)
    ensures IsClean(PlannedResult(step))
  {
    NotServerOnly("status");
    NotServerOnly("step");
    PlannedStepIsClean(step);
    hide IsServerOnly, PlannedStep;
    var members := PlannedResult(step).members;
    assert forall key <- members :: !IsServerOnly(key) && HasNoKeys(members[key], IsServerOnly);
  }

  lemma AnswerCallIsNormal(a: Answer, k: nat, supply: Supply)
    requires k < |a.steps| && AreComplete(a.steps)
    ensures IsNormalCall(AnswerCall(a, k, supply))
  {
    var args := Obj(ParseObject(Some(a.steps[k].inputPayloadJson)));
    SanitizedIsClean(args);
    assert Obj(Sanitized(args).members) == Sanitized(args);
    PlannedResultIsClean(a.steps[k]);
    hide Sanitized, IsClean, ParseObject, PlannedResult;
  }

  lemma AnswerIsNormal(a: Answer, supply: Supply)
    requires AreComplete(a.steps)
    ensures AnswerMessage(a, supply).Some? ==> IsNormal(AnswerMessage(a, supply).value)
  {
    var parts := AnswerParts(a, supply);
    var calls := |parts| - |a.steps|;
    hide AnswerCall, IsNormalCall, IsNormalOther;
    forall k | 0 <= k < |parts| ensures IsNormalPart(parts[k]) {
      if k < calls {
        TextPartIsNormal(a.text.value);
      } else {
        AnswerCallIsNormal(a, k - calls, supply);
      }
    }
  }

  lemma {:induction false} WithoutKeepsNormal(messages: seq<ThreadMessage>, id: string)
    requires AreNormal(messages)
    ensures AreNormal(Without(messages, id))
  {
    hide IsNormal;
    if messages != [] {
      WithoutKeepsNormal(messages[1..], id);
    }
  }

  lemma ThreadIsNormal(messages: seq<Payload>, answer: Option<ThreadMessage>, supply: Supply)
    requires answer.Some? ==> IsNormal(answer.value)
    ensures AreNormal(Thread(messages, answer, supply))
  {
    RestoredIsNormal(messages, supply);
    hide Restored, IsNormal;
    if answer.Some? {
      WithoutKeepsNormal(Restored(messages, supply), answer.value.id);
    }
  }

  lemma {:induction false} WithoutSplits(a: seq<ThreadMessage>, b: seq<ThreadMessage>, id: string)
    ensures Without(a + b, id) == Without(a, id) + Without(b, id)
  {
    if a == [] {
      assert a + b == b;
    } else {
      assert (a + b)[1..] == a[1..] + b;
      WithoutSplits(a[1..], b, id);
    }
  }

  // Restoring a restored thread, whatever the ids drawn, gives it back; also with the answer that
  // it already ends with.
  lemma RestoringAgainChangesNothing(messages: seq<Payload>, answer: Option<ThreadMessage>, supply: Supply,
                                     again: Supply)
    requires answer.Some? ==> IsNormal(answer.value)
    ensures var thread := Thread(messages, answer, supply);
      Thread(AsPayloads(thread), None, again) == thread && Thread(AsPayloads(thread), answer, again) == thread
  {
    var thread := Thread(messages, answer, supply);
    ThreadIsNormal(messages, answer, supply);
    NormalListReadsBack(thread, again);
    hide Restored, IsNormal, AsPayloads;
    if answer.Some? {
      var before := Without(Restored(messages, supply), answer.value.id);
      WithoutIsExact(Restored(messages, supply), answer.value.id);
      WithoutIsExact(before, answer.value.id);
      WithoutSplits(before, [answer.value], answer.value.id);
      assert Without([answer.value], answer.value.id) == [] by {
        assert [answer.value][1..] == [];
      }
      assert before + [] == before;
    }
  }

  // A restored thread can be restored again without an error, whatever texts raise.
  lemma RestoringAgainNeverRaises(messages: seq<Payload>, answer: Option<ThreadMessage>, supply: Supply,
                                  again: Supply, raises: Raises, i: nat)
    requires (answer.Some? ==> IsNormal(answer.value)) && i < |Thread(messages, answer, supply)|
    ensures FailureAt(AsPayloads(Thread(messages, answer, supply)), again, raises, i).None?
  {
    ThreadIsNormal(messages, answer, supply);
    hide Thread, AsPayload, IsNormal, AssistantRaises, ToolRaises, Restored, HasRole, IsHashable;
    var message := Thread(messages, answer, supply)[i];
    RolesReadBack(message);
    if message.Assistant? {
      AssistantNeverRaises(message, raises);
    }
  }

  // No message of a thread holds, at any depth, a member that is for the server only.
  lemma ThreadHoldsNoServerState(messages: seq<Payload>, answer: Option<ThreadMessage>, supply: Supply, i: nat)
    requires (answer.Some? ==> IsNormal(answer.value)) && i < |Thread(messages, answer, supply)|
    ensures HasNoKeys(Obj(AsPayload(Thread(messages, answer, supply)[i])), IsServerOnly)
  {
    ThreadIsNormal(messages, answer, supply);
    NormalIsClean(Thread(messages, answer, supply)[i]);
  }

  lemma NormalIsClean(message: ThreadMessage)
    requires IsNormal(message)
    ensures HasNoKeys(Obj(AsPayload(message)), IsServerOnly)
  {
    var (m, v) := (AsPayload(message), MessageValues(message));
    MessageMembers(message);
    assert IsClean(v[2].value) by {
      if message.Assistant? {
        forall k | 0 <= k < |message.parts| ensures IsClean(PartJson(message.parts[k])) {
          PartIsClean(message.parts[k]);
        }
      }
    }
    hide AsPayload, PartsJson, IsNormal;
    forall key | key in m ensures !IsServerOnly(key) && HasNoKeys(m[key], IsServerOnly) {
      FieldIsNotServerOnly(key);
      assert Get(m, key) == Some(m[key]);
      assert key == "id" || key == "role" || key == "content" || key == "name";
    }
  }

  lemma LatestInLastMessage(messages: seq<ThreadMessage>, id: string, k: nat)
    requires messages != [] && messages[|messages| - 1].Assistant?
    requires var parts := messages[|messages| - 1].parts;
      k < |parts| && IsCall(parts[k], id) && forall j :: k < j < |parts| ==> !IsCall(parts[j], id)
    ensures LatestCall(messages, id) == Some((|messages| - 1, k))
  {
    LatestCallIsLatest(messages, id, (|messages| - 1, k));
  }

  lemma AnswerCallIs(a: Answer, supply: Supply, j: nat)
    requires |AnswerParts(a, supply)| - |a.steps| <= j < |AnswerParts(a, supply)|
    ensures AnswerParts(a, supply)[j] == Call(AnswerCall(a, j - (|AnswerParts(a, supply)| - |a.steps|), supply))
  {
    hide AnswerCall, TextPart;
  }

  lemma OnlyThatCall(a: Answer, supply: Supply, k: nat)
    requires Truthy(a.runId) && k < |a.steps|
    requires RunStream.IdsAreDistinct(RunStream.RunRequest(None, a.runId.value), a.steps)
    ensures var (parts, calls) := (AnswerParts(a, supply), |AnswerParts(a, supply)| - |a.steps|);
      && calls >= 0
      && forall j :: calls <= j < |parts| ==>
        (IsCall(parts[j], RunStream.CallId(RunStream.RunRequest(None, a.runId.value), a.steps, k)) <==> j == calls + k)
  {
    var (parts, calls) := (AnswerParts(a, supply), |AnswerParts(a, supply)| - |a.steps|);
    assert calls >= 0;
    hide AnswerParts, RunStream.CallId, Sanitized, ParseObject, PlannedResult;
    forall j | calls <= j < |parts|
      ensures IsCall(parts[j], RunStream.CallId(RunStream.RunRequest(None, a.runId.value), a.steps, k)) <==>
        j == calls + k
    {
      AnswerCallIs(a, supply, j);
    }
  }

  lemma MergeIntoTheLastMessage(messages: seq<ThreadMessage>, tool: Payload, k: nat)
    requires messages != [] && messages[|messages| - 1].Assistant? && ToolCallId(tool).Some?
    requires var (parts, id) := (messages[|messages| - 1].parts, ToolCallId(tool).value);
      k < |parts| && IsCall(parts[k], id) && forall j :: k < j < |parts| ==> !IsCall(parts[j], id)
    ensures IsCallAt(messages, (|messages| - 1, k), ToolCallId(tool).value)
    ensures Merge(messages, tool) == WithAnswer(messages, (|messages| - 1, k), tool)
  {
    hide ToolCallId, LatestCall, WithAnswer;
    LatestInLastMessage(messages, ToolCallId(tool).value, k);
  }

  lemma AnswerIsTheLastMessage(messages: seq<Payload>, a: Answer, supply: Supply)
    requires a.steps != []
    ensures AnswerMessage(a, supply).Some? && |AnswerParts(a, supply)| >= |a.steps|
    ensures var thread := Thread(messages, AnswerMessage(a, supply), supply);
      thread != [] && thread[|thread| - 1].Assistant? && thread[|thread| - 1].parts == AnswerParts(a, supply)
  {
    hide AnswerCall, Restored, Without, TextPart;
  }

  // A result for a call of the stream lands on the step of that call in the answer, whatever the
  // thread held before.
  lemma StreamedCallIsAnswered(messages: seq<Payload>, a: Answer, supply: Supply, k: nat, tool: Payload)
    requires Truthy(a.runId) && k < |a.steps|
    requires RunStream.IdsAreDistinct(RunStream.RunRequest(None, a.runId.value), a.steps)
    requires ToolCallId(tool) == Some(RunStream.CallId(RunStream.RunRequest(None, a.runId.value), a.steps, k))
    ensures var (answer, calls) := (AnswerMessage(a, supply), |AnswerParts(a, supply)| - |a.steps|);
      answer.Some? && calls >= 0 &&
      var thread := Thread(messages, answer, supply);
      IsCallAt(thread, (|thread| - 1, calls + k), ToolCallId(tool).value) &&
      Merge(thread, tool) == WithAnswer(thread, (|thread| - 1, calls + k), tool)
  {
    hide AnswerParts, Thread, AnswerMessage, ToolCallId, WithAnswer, RunStream.CallId, RunStream.IdsAreDistinct, Merge,
         LatestCall;
    AnswerIsTheLastMessage(messages, a, supply);
    OnlyThatCall(a, supply, k);
    MergeIntoTheLastMessage(Thread(messages, AnswerMessage(a, supply), supply), tool,
      |AnswerParts(a, supply)| - |a.steps| + k);
  }
}
