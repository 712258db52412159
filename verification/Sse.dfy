// Server-sent event frames: the agent service writes them, the gateway's client reads the lines
// (section 9.2 of the WHATWG HTML standard).
module Sse {
  import opened Wrappers
  import opened Text
  import opened Json

  type Event = map<string, Json>

  function DataLine(event: Event): string {
    "data: " + Dumps(Obj(event), true)
  }

  // `_encode_sse` and `encode_sse`.
  function Frame(event: Event): string {
    DataLine(event) + "\n\n"
  }

  function Frames(events: seq<Event>): string {
    if events == [] then "" else Frame(events[0]) + Frames(events[1..])
  }

  // The line boundaries of `str.splitlines`, by which the HTTP client cuts lines.
  predicate IsLineBreak(c: char) {
    var n := c as int;
    10 <= n <= 13 || 28 <= n <= 30 || n == 0x85 || n == 0x2028 || n == 0x2029
  }

  function LineLength(text: string): (n: nat)
    ensures n <= |text|
  {
    if text == "" || IsLineBreak(text[0]) then 0 else 1 + LineLength(text[1..])
  }

  // A carriage return and a line feed are one boundary.
  function BreakLength(text: string): (n: nat)
    ensures n <= |text| && (text != "" ==> n > 0)
  {
    if text == "" then 0 else if StartsWith(text, "\r\n") then 2 else 1
  }

  function SplitLines(text: string): seq<string>
    decreases |text|
  {
    if text == "" then []
    else
      var n := LineLength(text);
      [text[..n]] + SplitLines(text[n + BreakLength(text[n..])..])
  }

  datatype LineKind = Ignored | Carries(event: Event) | Undecodable

  function ReadLine(line: string): LineKind {
    if !StartsWith(line, "data:") then Ignored
    else
      var payload := Strip(line[|"data:"|..]);
      if payload == "" then Ignored
      else
        match Loads(payload)
        case None => Undecodable
        case Some(Obj(event)) => Carries(event)
        case Some(_) => Ignored
  }

  // The events of a list of lines, up to the first that does not decode.
  function ReadLines(lines: seq<string>): (seq<Event>, bool) {
    if lines == [] then ([], false)
    else
      match ReadLine(lines[0])
      case Undecodable => ([], true)
      case Ignored => ReadLines(lines[1..])
      case Carries(event) => var (events, failed) := ReadLines(lines[1..]); ([event] + events, failed)
  }

  lemma {:induction false} ReadLinesSplits(a: seq<string>, b: seq<string>)
    requires !ReadLines(a).1
    ensures ReadLines(a + b) == (ReadLines(a).0 + ReadLines(b).0, ReadLines(b).1)
  {
    if a == [] {
      assert a + b == b;
      assert [] + ReadLines(b).0 == ReadLines(b).0;
    } else {
      assert (a + b)[1..] == a[1..] + b;
      ReadLinesSplits(a[1..], b);
      var head := match ReadLine(a[0]) case Carries(event) => [event] case _ => [];
      assert head + (ReadLines(a[1..]).0 + ReadLines(b).0) == (head + ReadLines(a[1..]).0) + ReadLines(b).0;
    }
  }

  lemma ReadOneLine(line: string)
    ensures ReadLines([line]) == match ReadLine(line)
      case Undecodable => ([], true)
      case Ignored => ([], false)
      case Carries(event) => ([event], false)
  {
    assert [line][1..] == [];
    match ReadLine(line)
    case Carries(event) => assert [event] + [] == [event];
    case _ =>
  }

  // ---- What is read, said of the text ----

  // What follows "data:" on a line, without the space around it.
  ghost predicate HasPayload(line: string, payload: string) {
    |line| >= 5 && line[..5] == "data:" && IsStripOf(payload, line[5..])
  }

  ghost predicate LineCarries(line: string, event: Event) {
    exists payload :: HasPayload(line, payload) && Loads(payload) == Some(Obj(event))
  }

  ghost predicate LineFails(line: string) {
    exists payload :: HasPayload(line, payload) && payload != "" && Loads(payload) == None
  }

  // A line is read for its payload: it fails when that is no JSON, and carries an event when it is
  // an object.
  lemma LineIsReadExactly(line: string)
    ensures ReadLine(line) == Undecodable <==> LineFails(line)
    ensures forall event :: ReadLine(line) == Carries(event) <==> LineCarries(line, event)
  {
    hide Strip, IsStripOf;
    if StartsWith(line, "data:") {
      forall payload ensures Strip(line[5..]) == payload <==> IsStripOf(payload, line[5..]) {
        StripIsExact(line[5..], payload);
      }
      assert Loads("") == None;
    }
  }

  // The events are those of the lines at these places, which are all that carry one before the first
  // line that fails.
  ghost predicate AreEventsOf(events: seq<Event>, failed: bool, lines: seq<string>, at: seq<nat>, end: nat) {
    && end <= |lines| && (failed <==> end < |lines|) && (failed ==> LineFails(lines[end]))
    && (forall k :: 0 <= k < end ==> !LineFails(lines[k]))
    && Rising(at) && |at| == |events|
    && (forall j :: 0 <= j < |at| ==> at[j] < end && LineCarries(lines[at[j]], events[j]))
    && (forall k, event :: 0 <= k < end && LineCarries(lines[k], event) ==> k in at)
  }

  function Onward(at: seq<nat>): seq<nat> {
    seq(|at|, j requires 0 <= j < |at| => at[j] + 1)
  }

  lemma OnwardHas(at: seq<nat>, k: nat)
    ensures k in Onward(at) <==> k > 0 && k - 1 in at
  {
    if k > 0 && k - 1 in at {
      var j :| 0 <= j < |at| && at[j] == k - 1;
      assert Onward(at)[j] == k;
    }
  }

  lemma OneLineOn(events: seq<Event>, failed: bool, lines: seq<string>, at: seq<nat>, end: nat)
    requires lines != [] && AreEventsOf(events, failed, lines[1..], at, end) && !LineFails(lines[0])
    requires forall event :: !LineCarries(lines[0], event)
    ensures AreEventsOf(events, failed, lines, Onward(at), end + 1)
  {
    hide LineCarries, LineFails;
    var (rest, on) := (lines[1..], Onward(at));
    assert forall k :: 0 < k < |lines| ==> lines[k] == rest[k - 1];
    forall k, event | 0 <= k < end + 1 && LineCarries(lines[k], event) ensures k in on {
      assert LineCarries(rest[k - 1], event);
      OnwardHas(at, k);
    }
  }

  lemma OneEventOn(event: Event, events: seq<Event>, failed: bool, lines: seq<string>, at: seq<nat>, end: nat)
    requires lines != [] && AreEventsOf(events, failed, lines[1..], at, end) && !LineFails(lines[0])
    requires LineCarries(lines[0], event)
    ensures AreEventsOf([event] + events, failed, lines, [0] + Onward(at), end + 1)
  {
    hide LineCarries, LineFails;
    var (rest, on, all) := (lines[1..], [0] + Onward(at), [event] + events);
    assert forall k :: 0 < k < |lines| ==> lines[k] == rest[k - 1];
    forall k, other | 0 <= k < end + 1 && LineCarries(lines[k], other) ensures k in on {
      assert on[0] == 0;
      if k > 0 {
        assert LineCarries(rest[k - 1], other);
        OnwardHas(at, k);
      }
    }
    EventsMoveOn(event, events, lines, at, end);
  }

  lemma EventsMoveOn(event: Event, events: seq<Event>, lines: seq<string>, at: seq<nat>, end: nat)
    requires end < |lines| && |at| == |events| && LineCarries(lines[0], event) && Rising(at)
    requires forall j :: 0 <= j < |at| ==> at[j] < end && LineCarries(lines[1..][at[j]], events[j])
    ensures var (on, all) := ([0] + Onward(at), [event] + events);
      && Rising(on) && |on| == |all|
      && forall j :: 0 <= j < |on| ==> on[j] < end + 1 && LineCarries(lines[on[j]], all[j])
  {
    hide LineCarries;
    var (rest, on, all) := (lines[1..], [0] + Onward(at), [event] + events);
    forall j | 0 <= j < |on| ensures on[j] < end + 1 && LineCarries(lines[on[j]], all[j]) {
      if j > 0 {
        assert on[j] == at[j - 1] + 1 && all[j] == events[j - 1] && lines[on[j]] == rest[at[j - 1]];
      }
    }
  }

  lemma {:induction false} LinesAreReadExactly(lines: seq<string>) returns (at: seq<nat>, end: nat)
    ensures AreEventsOf(ReadLines(lines).0, ReadLines(lines).1, lines, at, end)
  {
    hide LineCarries, LineFails, ReadLine;
    if lines == [] {
      at, end := [], 0;
    } else {
      LineIsReadExactly(lines[0]);
      if ReadLine(lines[0]) == Undecodable {
        at, end := [], 0;
      } else {
        at, end := LinesAreReadExactly(lines[1..]);
        var (events, failed) := ReadLines(lines[1..]);
        match ReadLine(lines[0])
        case Carries(event) =>
          OneEventOn(event, events, failed, lines, at, end);
          at, end := [0] + Onward(at), end + 1;
        case Ignored =>
          OneLineOn(events, failed, lines, at, end);
          at, end := Onward(at), end + 1;
      }
    }
  }

  // Where a text is cut: at these, the longest first.
  const LINE_BREAKS: seq<string> :=
    ["\r\n", "\n", "\r", [11 as char], [12 as char], [28 as char], [29 as char], [30 as char], [0x85 as char],
     [0x2028 as char], [0x2029 as char]]

  predicate HasNoBreak(line: string) {
    forall i :: 0 <= i < |line| ==> [line[i]] !in LINE_BREAKS
  }

  function Glued(lines: seq<string>, breaks: seq<string>): string
    requires |lines| == |breaks|
  {
    if lines == [] then "" else lines[0] + breaks[0] + Glued(lines[1..], breaks[1..])
  }

  // Each line ends with a break, but the last may end with the text; no line is cut after the
  // carriage return of a pair.
  predicate IsCut(lines: seq<string>, breaks: seq<string>, i: nat)
    requires i < |lines| == |breaks|
  {
    && HasNoBreak(lines[i])
    && (breaks[i] in LINE_BREAKS || (breaks[i] == "" && lines[i] != "" && i == |lines| - 1))
    && (breaks[i] == "\r" && i + 1 < |lines| ==> lines[i + 1] != "" || breaks[i + 1] != "\n")
  }

  predicate AreLinesOf(text: string, lines: seq<string>, breaks: seq<string>) {
    && |lines| == |breaks| && text == Glued(lines, breaks)
    && forall i :: 0 <= i < |lines| ==> IsCut(lines, breaks, i)
  }

  lemma BreaksAre(c: char)
    ensures IsLineBreak(c) <==> [c] in LINE_BREAKS
  {
    var n := c as int;
    if IsLineBreak(c) {
      assert [c] == LINE_BREAKS[if n == 10 then 1 else if n == 13 then 2 else if n < 13 then n - 8
                                else if n < 31 then n - 23 else if n == 0x85 then 8 else n - 0x2028 + 9];
    }
  }

  lemma {:induction false} LineIsCut(text: string)
    ensures var n := LineLength(text);
      HasNoBreak(text[..n]) && (n < |text| ==> [text[n]] in LINE_BREAKS && IsLineBreak(text[n]))
  {
    if text != "" {
      BreaksAre(text[0]);
      if !IsLineBreak(text[0]) {
        hide IsLineBreak, LINE_BREAKS;
        LineIsCut(text[1..]);
        var n := LineLength(text[1..]);
        var (line, later) := (text[..n + 1], text[1..][..n]);
        assert line[0] == text[0];
        assert forall i :: 0 < i < |line| ==> line[i] == later[i - 1];
      }
    }
  }

  lemma BreakIsCut(rest: string)
    requires rest != "" && [rest[0]] in LINE_BREAKS
    ensures var b := rest[..BreakLength(rest)];
      b in LINE_BREAKS && (b == "\r" ==> |rest| == 1 || rest[1] != '\n')
  {
    var b := rest[..BreakLength(rest)];
    if |rest| > 1 {
      assert rest[..2] == [rest[0], rest[1]];
    }
    if StartsWith(rest, "\r\n") {
      assert b == LINE_BREAKS[0];
    } else {
      assert b == [rest[0]];
    }
  }

  // `str.splitlines`
  lemma {:induction false} LinesAreExact(text: string) returns (breaks: seq<string>)
    ensures AreLinesOf(text, SplitLines(text), breaks)
    decreases |text|
  {
    breaks := [];
    if text != "" {
      LineIsCut(text);
      var n := LineLength(text);
      var (line, rest) := (text[..n], text[n..]);
      var b := rest[..BreakLength(rest)];
      if rest != "" {
        BreakIsCut(rest);
      } else {
        assert b == "" && line == text;
      }
      var after := text[n + BreakLength(rest)..];
      assert text == line + b + after;
      var others := LinesAreExact(after);
      breaks := [b] + others;
      hide LINE_BREAKS, LineLength, BreakLength, HasNoBreak;
      FirstLineIsCut(line, b, rest, SplitLines(after), others);
    }
  }

  lemma FirstLineIsCut(line: string, b: string, rest: string, lines: seq<string>, breaks: seq<string>)
    requires |b| <= |rest| && b == rest[..|b|] && AreLinesOf(rest[|b|..], lines, breaks) && HasNoBreak(line)
    requires b in LINE_BREAKS || (b == "" && rest == "" && line != "" && lines == [])
    requires b == "\r" ==> |rest| == 1 || rest[1] != '\n'
    ensures AreLinesOf(line + rest, [line] + lines, [b] + breaks)
  {
    hide LINE_BREAKS, HasNoBreak;
    var (all, cuts) := ([line] + lines, [b] + breaks);
    assert all[1..] == lines && cuts[1..] == breaks;
    assert rest == b + rest[|b|..];
    assert line + b + rest[|b|..] == line + rest;
    forall i | 0 <= i < |all| ensures IsCut(all, cuts, i) {
      if i > 0 {
        assert IsCut(lines, breaks, i - 1);
      } else if lines != [] {
        assert rest[|b|..] == lines[0] + breaks[0] + Glued(lines[1..], breaks[1..]);
        assert |b| == 1 && |rest| > 1 ==> rest[|b|..][0] == rest[1];
      }
    }
  }

  // `_iter_sse_events`; `failed` when a payload raised JSONDecodeError.
  method IterSseEvents(text: string) returns (events: seq<Event>, failed: bool)
    ensures (events, failed) == ReadLines(SplitLines(text))
    ensures exists breaks, at, end ::
      AreLinesOf(text, SplitLines(text), breaks) && AreEventsOf(events, failed, SplitLines(text), at, end)
  {
    hide AreLinesOf, AreEventsOf;
    ghost var breaks := LinesAreExact(text);
    ghost var at, end := LinesAreReadExactly(SplitLines(text));
    var lines := SplitLines(text);
    events, failed := [], false;
    for i := 0 to |lines|
      invariant ReadLines(lines[..i]) == (events, false) && !failed
    {
      var line := lines[i];
      ReadOneLine(line);
      ReadLinesSplits(lines[..i], [line]);
      assert lines[..i + 1] == lines[..i] + [line] && events + [] == events;
      if !StartsWith(line, "data:") {
        continue;
      }
      var payload := Strip(line[|"data:"|..]);
      if payload == "" {
        continue;
      }
      match Loads(payload)
      case None =>
        ReadLinesSplits(lines[..i], lines[i..]);
        assert lines == lines[..i] + lines[i..];
        assert ReadLines(lines[i..]) == ([], true);
        return events, true;
      case Some(Obj(event)) => events := events + [event];
      case Some(_) =>
    }
    assert lines[..|lines|] == lines;
  }

  // ---- Frames are read back ----

  predicate IsPrintable(c: char) {
    ' ' <= c <= '~'
  }

  predicate AllPrintable(s: string) {
    forall i :: 0 <= i < |s| ==> IsPrintable(s[i])
  }

  lemma Hex4IsPrintable(n: Unit)
    ensures AllPrintable(Hex4(n))
  {
  }

  lemma EscapeIsPrintable(c: char)
    ensures AllPrintable(Escape(c, true))
  {
    DigitsArePrintable(c);
    hide UnicodeDigits;
  }

  lemma DigitsArePrintable(c: char)
    ensures AllPrintable(UnicodeDigits(c))
  {
    var n := c as int;
    if n < 0x10000 {
      Hex4IsPrintable(n);
    } else {
      Hex4IsPrintable(0xD800 + (n - 0x10000) / 0x400);
      Hex4IsPrintable(0xDC00 + (n - 0x10000) % 0x400);
    }
    hide Hex4;
  }

  lemma {:induction false} StringBodyIsPrintable(s: string)
    ensures AllPrintable(StringBody(s, true))
  {
    hide Escape, IsPrintable;
    if s != "" {
      StringBodyIsPrintable(s[1..]);
      EscapeIsPrintable(s[0]);
    }
  }

  lemma QuoteIsPrintable(s: string)
    ensures AllPrintable(Quote(s, true))
  {
    hide StringBody;
    StringBodyIsPrintable(s);
  }

  lemma PrintableJoins(a: string, b: string)
    requires AllPrintable(a) && AllPrintable(b)
    ensures AllPrintable(a + b)
  {
    hide IsPrintable;
  }

  lemma NumberIsPrintable(n: Number)
    ensures AllPrintable(n)
  {
    NumberChars(n);
    hide IsNumber;
    assert forall i :: 0 <= i < |n| ==> n[i] in n;
  }

  lemma WordsArePrintable()
    ensures AllPrintable("null") && AllPrintable("true") && AllPrintable("false")
  {
  }

  lemma BracketedIsPrintable(body: string)
    requires AllPrintable(body)
    ensures AllPrintable("[" + body + "]") && AllPrintable("{" + body + "}")
  {
  }

  lemma {:induction false} PrintIsPrintable(j: Json)
    ensures AllPrintable(Print(j, true))
    decreases j, 1
  {
    WordsArePrintable();
    hide AllPrintable, PrintItems, PrintMembers, StringBody, IsNumber;
    match j
    case Num(n) => NumberIsPrintable(n);
    case Str(s) => QuoteIsPrintable(s);
    case Arr(items) =>
      ItemsArePrintable(items);
      BracketedIsPrintable(PrintItems(items, true));
    case Obj(members) =>
      MembersArePrintable(j, Sorted(members.Keys));
      BracketedIsPrintable(PrintMembers(j, Sorted(members.Keys), true));
    case _ =>
  }

  lemma {:induction false} ItemsArePrintable(items: seq<Json>)
    ensures AllPrintable(PrintItems(items, true))
    decreases items, 0
  {
    if items != [] {
      PrintIsPrintable(items[0]);
      ItemsArePrintable(items[1..]);
    }
  }

  lemma {:induction false} MembersArePrintable(j: Json, keys: seq<string>)
    requires j.Obj? && forall k <- keys :: k in j.members
    ensures AllPrintable(PrintMembers(j, keys, true))
    decreases j, 0, |keys|
  {
    if keys != [] {
      QuoteIsPrintable(keys[0]);
      PrintIsPrintable(j.members[keys[0]]);
      hide Print, Quote;
      assert AllPrintable(":") && AllPrintable(",");
      if |keys| > 1 {
        MembersArePrintable(j, keys[1..]);
      }
      hide AllPrintable;
      var (name, value) := (Quote(keys[0], true), Print(j.members[keys[0]], true));
      PrintableJoins(name, ":");
      PrintableJoins(name + ":", value);
      if |keys| > 1 {
        PrintableJoins(",", PrintMembers(j, keys[1..], true));
        PrintableJoins(name + ":" + value, "," + PrintMembers(j, keys[1..], true));
      } else {
        assert name + ":" + value + "" == name + ":" + value;
      }
    } else {
      assert AllPrintable("");
    }
  }

  lemma {:induction false} PrintableIsOneLine(line: string, rest: string)
    requires AllPrintable(line) && (rest == "" || IsLineBreak(rest[0]))
    ensures LineLength(line + rest) == |line|
  {
    if line == "" {
      assert line + rest == rest;
    } else {
      assert (line + rest)[1..] == line[1..] + rest;
      PrintableIsOneLine(line[1..], rest);
    }
  }

  lemma NewlineIsOneBreak(rest: string)
    ensures BreakLength("\n" + rest) == 1 && ("\n" + rest)[1..] == rest
  {
    assert ("\n" + rest)[0] == '\n' && "\r\n"[0] == '\r';
  }

  lemma SplitTerminatedLine(line: string, rest: string)
    requires AllPrintable(line)
    ensures SplitLines(line + "\n" + rest) == [line] + SplitLines(rest)
  {
    hide LineLength, BreakLength, AllPrintable;
    var end := "\n" + rest;
    var text := line + end;
    PrintableIsOneLine(line, end);
    NewlineIsOneBreak(rest);
    assert text == line + "\n" + rest;
    assert text[..|line|] == line && text[|line|..] == end;
    assert text[|line| + 1..] == rest;
  }

  lemma DataLineIsPrintable(event: Event)
    ensures AllPrintable(DataLine(event))
  {
    hide Print;
    PrintIsPrintable(Obj(event));
  }

  lemma FrameIsOneDataLine(event: Event, rest: string)
    ensures SplitLines(Frame(event) + rest) == [DataLine(event), ""] + SplitLines(rest)
  {
    hide SplitLines, Print;
    var line := DataLine(event);
    DataLineIsPrintable(event);
    SplitTerminatedLine(line, "\n" + rest);
    SplitTerminatedLine("", rest);
    assert Frame(event) + rest == line + "\n" + ("\n" + rest);
    assert "" + "\n" + rest == "\n" + rest;
    assert [line, ""] + SplitLines(rest) == [line] + ([""] + SplitLines(rest));
  }

  lemma StripsOneSpace(text: string)
    requires text != "" && !IsSpace(text[0]) && !IsSpace(text[|text| - 1])
    ensures Strip(" " + text) == text
  {
    assert (" " + text)[1..] == text;
    assert TrimLeft(text) == text && TrimRight(text) == text;
  }

  lemma ObjectIsBraced(event: Event)
    ensures var text := Dumps(Obj(event), true); text != "" && text[0] == '{' && text[|text| - 1] == '}'
  {
  }

  lemma DataLineCarriesEvent(event: Event)
    ensures ReadLine(DataLine(event)) == Carries(event)
  {
    var text := Dumps(Obj(event), true);
    ObjectIsBraced(event);
    StripsOneSpace(text);
    DumpsReadsBack(Obj(event), true);
    hide Dumps, Loads, Strip;
    var line := "data: " + text;
    assert line[..5] == "data:" && line[5..] == " " + text;
  }

  // A frame is one data line of printable characters, with the event as its payload, and an empty one.
  lemma FrameIsOneLine(event: Event) returns (text: string)
    ensures Frame(event) == "data: " + text + "\n\n"
    ensures Loads(text) == Some(Obj(event)) && forall c <- text :: ' ' <= c <= '~'
  {
    text := Dumps(Obj(event), true);
    DumpsReadsBack(Obj(event), true);
    PrintIsPrintable(Obj(event));
    hide Print, Loads;
  }

  lemma FrameReadsBack(event: Event, lines: seq<string>)
    requires !ReadLines(lines).1
    ensures ReadLines([DataLine(event), ""] + lines) == ([event] + ReadLines(lines).0, false)
  {
    hide ReadLine, Print;
    var line := DataLine(event);
    DataLineCarriesEvent(event);
    EmptyLineIsIgnored();
    assert ([line, ""] + lines)[1..] == [""] + lines && ([""] + lines)[1..] == lines;
    assert ReadLines([""] + lines) == ReadLines(lines);
  }

  lemma NoFramesReadBack()
    ensures ReadLines(SplitLines("")) == ([], false)
  {
  }

  // However many events, and whatever text they carry, the client reads exactly those written.
  lemma {:induction false} FramesReadBack(events: seq<Event>)
    ensures ReadLines(SplitLines(Frames(events))) == (events, false)
  {
    hide SplitLines, Frame, ReadLine, ReadLines, DataLine;
    if events == [] {
      NoFramesReadBack();
    } else {
      FramesReadBack(events[1..]);
      FrameIsOneDataLine(events[0], Frames(events[1..]));
      FrameReadsBack(events[0], SplitLines(Frames(events[1..])));
      assert events == [events[0]] + events[1..];
    }
  }

  lemma EmptyLineIsIgnored()
    ensures ReadLine("") == Ignored
  {
  }

  // ---- Connections that break ----

  // The lines that the HTTP client has delivered when the connection breaks after `text`: a line
  // without its end is still held back.
  function CompleteLines(text: string): seq<string> {
    var lines := SplitLines(text);
    if text == "" || IsLineBreak(text[|text| - 1]) then lines else lines[..|lines| - 1]
  }

  lemma OnlyOneLine(text: string)
    requires AllPrintable(text)
    ensures CompleteLines(text) == [] && CompleteLines(text + "\n") == [text]
  {
    SplitTerminatedLine(text, "");
    assert text + "\n" + "" == text + "\n";
    if text != "" {
      PrintableIsOneLine(text, "");
      assert text + "" == text;
      assert SplitLines(text) == [text];
    }
  }

  lemma FrameThenCompleteLines(event: Event, rest: string)
    ensures CompleteLines(Frame(event) + rest) == [DataLine(event), ""] + CompleteLines(rest)
  {
    FrameIsOneDataLine(event, rest);
    var frame, lines := Frame(event), SplitLines(rest);
    var text := frame + rest;
    assert frame[|frame| - 1] == '\n' && IsLineBreak('\n') && (rest != "" ==> lines != []);
    hide DataLine, Frame, SplitLines, IsLineBreak;
    if rest == "" {
      assert text == frame;
    } else {
      assert text[|text| - 1] == rest[|rest| - 1];
      assert ([DataLine(event), ""] + lines)[..2 + |lines| - 1] == [DataLine(event), ""] + lines[..|lines| - 1];
    }
  }

  lemma PartOfAFrame(event: Event, n: nat)
    requires n < |Frame(event)|
    ensures ReadLines(CompleteLines(Frame(event)[..n])) == (if n <= |DataLine(event)| then [] else [event], false)
  {
    hide ReadLine, DataLine, SplitLines, CompleteLines;
    var line := DataLine(event);
    DataLineIsPrintable(event);
    if n <= |line| {
      OnlyOneLine(line[..n]);
      assert Frame(event)[..n] == line[..n];
    } else {
      OnlyOneLine(line);
      DataLineCarriesEvent(event);
      ReadOneLine(line);
      assert Frame(event)[..n] == line + "\n";
    }
  }

  lemma FramesBegin(events: seq<Event>, k: nat)
    requires k < |events|
    ensures Frames(events[..k + 1]) == Frame(events[0]) + Frames(events[1..][..k])
  {
    hide Frame;
    assert events[..k + 1][1..] == events[1..][..k];
  }

  // The event k is read as soon as its data line and the end of that line have arrived: all but
  // the last character of its frame.
  predicate AreRead(events: seq<Event>, k: nat, n: nat) {
    && k <= |events|
    && (k > 0 ==> |Frames(events[..k])| <= n + 1)
    && (k < |events| ==> n + 1 < |Frames(events[..k + 1])|)
  }

  // Wherever the connection breaks, the client has read exactly the events whose data lines are
  // complete: none is lost, cut short, or made up.
  lemma {:induction false} BrokenFramesReadBack(events: seq<Event>, n: nat) returns (k: nat)
    requires n <= |Frames(events)|
    ensures k <= |events| && ReadLines(CompleteLines(Frames(events)[..n])) == (events[..k], false)
    ensures AreRead(events, k, n)
  {
    hide ReadLine, Frame, CompleteLines;
    if events == [] {
      assert CompleteLines("") == [] by {
        OnlyOneLine("");
      }
      k := 0;
    } else {
      var (event, all) := (events[0], Frames(events));
      FramesBegin(events, 0);
      assert |Frame(event)| == |DataLine(event)| + 2 by {
        FrameLength(event);
      }
      assert events[..1] == [event] && Frames(events[1..][..0]) == "";
      if n < |Frame(event)| {
        assert all[..n] == Frame(event)[..n];
        PartOfAFrame(event, n);
        k := if n <= |DataLine(event)| then 0 else 1;
        if |events| > 1 {
          FramesBegin(events, 1);
          assert |Frames(events[1..][..1])| > 0 by {
            FramesBegin(events[1..], 0);
            FrameLength(events[1]);
          }
        }
      } else {
        var rest := Frames(events[1..])[..n - |Frame(event)|];
        k := BrokenFramesReadBack(events[1..], |rest|);
        assert all[..n] == Frame(event) + rest;
        FrameThenCompleteLines(event, rest);
        FrameReadsBack(event, CompleteLines(rest));
        assert [event] + events[1..][..k] == events[..k + 1];
        FramesBegin(events, k);
        if k + 1 < |events| {
          FramesBegin(events, k + 1);
        }
        k := k + 1;
      }
    }
  }

  lemma FrameLength(event: Event)
    ensures |Frame(event)| == |DataLine(event)| + 2
  {
    hide DataLine;
  }

  lemma EverythingIsRead(events: seq<Event>, k: nat, n: nat)
    requires AreRead(events, k, n) && n <= |Frames(events)|
    ensures k == |events| <==> events == [] || n + 1 >= |Frames(events)|
  {
    hide Frame;
    if k < |events| {
      FramesGrow(events, k + 1);
    } else {
      assert events[..k] == events;
    }
  }

  lemma {:induction false} FramesGrow(events: seq<Event>, k: nat)
    requires k <= |events|
    ensures |Frames(events[..k])| <= |Frames(events)|
  {
    hide Frame;
    if k > 0 {
      FramesBegin(events, k - 1);
      FramesGrow(events[1..], k - 1);
    }
  }
}
