// `json.dumps(value, sort_keys=True, separators=(",", ":"))` and `json.loads` on Python
// values.  A number is carried as its printed text.
module Json {
  import opened Wrappers
  import opened Text

  type Number = s: string | IsNumber(s) witness "0"

  datatype Json =
    | Null
    | Bool(value: bool)
    | Num(number: Number)
    | Str(text: string)
    | Arr(items: seq<Json>)
    | Obj(members: map<string, Json>)

  // `value.get(key)` on a dict.
  function Get(members: map<string, Json>, key: string): Option<Json> {
    if key in members then Some(members[key]) else None
  }

  // ---- Numbers (section 6 of RFC 8259) ----

  predicate IsDigit(c: char) {
    '0' <= c <= '9'
  }

  predicate IsNumberChar(c: char) {
    IsDigit(c) || c == '-' || c == '+' || c == '.' || c == 'e' || c == 'E'
  }

  function DropDigits(s: string): string {
    if s != [] && IsDigit(s[0]) then DropDigits(s[1..]) else s
  }

  predicate IsExponent(s: string) {
    s == [] ||
    ((s[0] == 'e' || s[0] == 'E') &&
     var unsigned := if |s| > 1 && (s[1] == '+' || s[1] == '-') then s[2..] else s[1..];
     unsigned != [] && DropDigits(unsigned) == [])
  }

  predicate IsFraction(s: string) {
    if s != [] && s[0] == '.' then |s| > 1 && IsDigit(s[1]) && IsExponent(DropDigits(s[1..])) else IsExponent(s)
  }

  predicate IsNumber(s: string) {
    var unsigned := if s != [] && s[0] == '-' then s[1..] else s;
    unsigned != [] && IsDigit(unsigned[0]) &&
    IsFraction(if unsigned[0] == '0' then unsigned[1..] else DropDigits(unsigned))
  }

  lemma {:induction false} DropDigitsKeepsNumberChars(s: string)
    requires forall c <- DropDigits(s) :: IsNumberChar(c)
    ensures forall c <- s :: IsNumberChar(c)
  {
    if s != [] && IsDigit(s[0]) {
      DropDigitsKeepsNumberChars(s[1..]);
      assert s == [s[0]] + s[1..];
    }
  }

  lemma NumberChars(s: string)
    requires IsNumber(s)
    ensures forall c <- s :: IsNumberChar(c)
    ensures s != [] && (s[0] == '-' || IsDigit(s[0]))
  {
    var unsigned := if s[0] == '-' then s[1..] else s;
    var fraction := if unsigned[0] == '0' then unsigned[1..] else DropDigits(unsigned);
    var exponent := if fraction != [] && fraction[0] == '.' then DropDigits(fraction[1..]) else fraction;
    if exponent != [] {
      var digits := if |exponent| > 1 && (exponent[1] == '+' || exponent[1] == '-') then exponent[2..]
        else exponent[1..];
      DropDigitsKeepsNumberChars(digits);
      assert exponent == exponent[..|exponent| - |digits|] + digits;
    }
    if fraction != [] && fraction[0] == '.' {
      DropDigitsKeepsNumberChars(fraction[1..]);
      assert fraction == [fraction[0]] + fraction[1..];
    }
    if unsigned[0] == '0' {
      assert unsigned == [unsigned[0]] + unsigned[1..];
    } else {
      DropDigitsKeepsNumberChars(unsigned);
    }
    if s[0] == '-' {
      assert s == [s[0]] + s[1..];
    }
  }

  // ---- Strings (section 7 of RFC 8259) ----

  type Hex = n: int | 0 <= n < 16
  type Unit = n: int | 0 <= n < 0x10000

  function HexDigit(n: Hex): char {
    if n < 10 then (n + '0' as int) as char else (n - 10 + 'a' as int) as char
  }

  function HexValue(c: char): Option<Hex> {
    if '0' <= c <= '9' then Some(c as int - '0' as int)
    else if 'a' <= c <= 'f' then Some(c as int - 'a' as int + 10)
    else if 'A' <= c <= 'F' then Some(c as int - 'A' as int + 10)
    else None
  }

  function Hex4(n: Unit): string {
    [HexDigit(n / 16 / 16 / 16), HexDigit(n / 16 / 16 % 16), HexDigit(n / 16 % 16), HexDigit(n % 16)]
  }

  function ReadHex4(s: string): Option<Unit> {
    if |s| < 4 then None
    else
      match (HexValue(s[0]), HexValue(s[1]), HexValue(s[2]), HexValue(s[3]))
      case (Some(a), Some(b), Some(c), Some(d)) => Some(Combine(a, b, c, d))
      case _ => None
  }

  function Combine(a: int, b: int, c: int, d: int): int {
    ((a * 16 + b) * 16 + c) * 16 + d
  }

  lemma HexReadsBack(h: Hex)
    ensures HexValue(HexDigit(h)) == Some(h)
  {
  }

  lemma CombineDigits(n: Unit)
    ensures Combine(n / 16 / 16 / 16, n / 16 / 16 % 16, n / 16 % 16, n % 16) == n
  {
  }

  lemma Hex4ReadsBack(n: Unit, rest: string)
    ensures ReadHex4(Hex4(n) + rest) == Some(n)
  {
    HexReadsBack(n / 16 / 16 / 16);
    HexReadsBack(n / 16 / 16 % 16);
    HexReadsBack(n / 16 % 16);
    HexReadsBack(n % 16);
    CombineDigits(n);
    var s := Hex4(n) + rest;
    assert s[0] == HexDigit(n / 16 / 16 / 16) && s[1] == HexDigit(n / 16 / 16 % 16);
    assert s[2] == HexDigit(n / 16 % 16) && s[3] == HexDigit(n % 16);
  }

  function Escape(c: char, ascii: bool): (text: string)
    ensures text != [] && text[0] != '"'
  {
    if c == '"' then "\\\""
    else if c == '\\' then "\\\\"
    else if c == '\n' then "\\n"
    else if c == '\r' then "\\r"
    else if c == '\t' then "\\t"
    else if c == 12 as char then "\\f"
    else if c == 8 as char then "\\b"
    else if c < ' ' || (ascii && c > '~') then "\\u" + UnicodeDigits(c)
    else [c]
  }

  // One UTF-16 unit, or the surrogate pair of a character beyond the basic plane.
  function UnicodeDigits(c: char): string {
    var n := c as int;
    if n < 0x10000 then Hex4(n)
    else Hex4(0xD800 + (n - 0x10000) / 0x400) + "\\u" + Hex4(0xDC00 + (n - 0x10000) % 0x400)
  }

  // One character of a string body: itself, or the escape that stands for it.  An unpaired
  // surrogate is no character here.
  function ReadChar(s: string): (r: Option<(char, string)>)
    requires s != []
    ensures r.Some? ==> |r.value.1| < |s|
  {
    if s[0] < ' ' then None
    else if s[0] != '\\' then Some((s[0], s[1..]))
    else if |s| < 2 then None
    else
      var c, rest := s[1], s[2..];
      if c == '"' || c == '\\' || c == '/' then Some((c, rest))
      else if c == 'n' then Some(('\n', rest))
      else if c == 'r' then Some(('\r', rest))
      else if c == 't' then Some(('\t', rest))
      else if c == 'f' then Some((12 as char, rest))
      else if c == 'b' then Some((8 as char, rest))
      else if c == 'u' then ReadUnicode(rest)
      else None
  }

  function ReadUnicode(s: string): (r: Option<(char, string)>)
    ensures r.Some? ==> |r.value.1| < |s|
  {
    match ReadHex4(s)
    case None => None
    case Some(n) =>
      if n < 0xD800 || 0xE000 <= n then Some((n as char, s[4..]))
      else if n < 0xDC00 && StartsWith(s[4..], "\\u") then
        match ReadHex4(s[6..])
        case None => None
        case Some(m) =>
          if 0xDC00 <= m < 0xE000
          then Some(((0x10000 + (n - 0xD800) * 0x400 + (m - 0xDC00)) as char, s[10..]))
          else None
      else None
  }

  lemma PairReadsBack(high: Unit, low: Unit, rest: string)
    requires 0xD800 <= high < 0xDC00 && 0xDC00 <= low < 0xE000
    ensures ReadUnicode(Hex4(high) + "\\u" + Hex4(low) + rest)
         == Some(((0x10000 + (high - 0xD800) * 0x400 + (low - 0xDC00)) as char, rest))
  {
    var s := Hex4(high) + "\\u" + Hex4(low) + rest;
    assert s == Hex4(high) + ("\\u" + Hex4(low) + rest);
    Hex4ReadsBack(high, "\\u" + Hex4(low) + rest);
    Hex4ReadsBack(low, rest);
    assert s[4..][..2] == "\\u" && s[6..] == Hex4(low) + rest && s[10..] == rest;
  }

  lemma UnicodeReadsBack(c: char, rest: string)
    ensures ReadUnicode(UnicodeDigits(c) + rest) == Some((c, rest))
  {
    var n := c as int;
    if n < 0x10000 {
      Hex4ReadsBack(n, rest);
      assert (Hex4(n) + rest)[4..] == rest;
    } else {
      var high, low := 0xD800 + (n - 0x10000) / 0x400, 0xDC00 + (n - 0x10000) % 0x400;
      PairReadsBack(high, low, rest);
      assert 0x10000 + (high - 0xD800) * 0x400 + (low - 0xDC00) == n;
    }
  }

  lemma EscapeReadsBack(c: char, ascii: bool, rest: string)
    ensures ReadChar(Escape(c, ascii) + rest) == Some((c, rest))
  {
    var text := Escape(c, ascii);
    if text == "\\u" + UnicodeDigits(c) {
      UnicodeReadsBack(c, rest);
      assert (text + rest)[2..] == UnicodeDigits(c) + rest;
    } else if |text| == 2 {
      assert (text + rest)[2..] == rest;
    } else {
      assert (text + rest)[1..] == rest;
    }
  }

  function StringBody(s: string, ascii: bool): string {
    if s == [] then [] else Escape(s[0], ascii) + StringBody(s[1..], ascii)
  }

  // The characters up to the closing quote, and what follows it.
  function ReadString(s: string): (r: Option<(string, string)>)
    ensures r.Some? ==> |r.value.1| < |s|
    decreases |s|
  {
    if s == [] then None
    else if s[0] == '"' then Some(("", s[1..]))
    else
      match ReadChar(s)
      case None => None
      case Some((c, afterChar)) =>
        match ReadString(afterChar)
        case None => None
        case Some((text, rest)) => Some(([c] + text, rest))
  }

  lemma {:induction false} StringReadsBack(s: string, ascii: bool, rest: string)
    ensures ReadString(StringBody(s, ascii) + "\"" + rest) == Some((s, rest))
  {
    if s == [] {
      assert StringBody(s, ascii) + "\"" + rest == "\"" + rest;
    } else {
      var tail := StringBody(s[1..], ascii) + "\"" + rest;
      assert StringBody(s, ascii) + "\"" + rest == Escape(s[0], ascii) + tail;
      EscapeReadsBack(s[0], ascii, tail);
      StringReadsBack(s[1..], ascii, rest);
      assert s == [s[0]] + s[1..];
    }
  }

  // ---- Printing ----

  function Quote(s: string, ascii: bool): string {
    "\"" + StringBody(s, ascii) + "\""
  }

  predicate IsClosing(c: char) {
    c == ']' || c == '}'
  }

  // `ascii` is `ensure_ascii`.
  function Print(j: Json, ascii: bool): (text: string)
    ensures text != [] && !IsBlank(text[0]) &&  !IsClosing(text[0])
    decreases j, 1
  {
    match j
    case Null => "null"
    case Bool(b) => if b then "true" else "false"
    case Num(n) => NumberChars(n); n
    case Str(s) => Quote(s, ascii)
    case Arr(items) => "[" + PrintItems(items, ascii) + "]"
    case Obj(members) => "{" + PrintMembers(j, Sorted(members.Keys), ascii) + "}"
  }

  function PrintItems(items: seq<Json>, ascii: bool): (text: string)
    ensures items != [] ==> text != [] && !IsBlank(text[0]) && !IsClosing(text[0])
    decreases items, 0
  {
    if items == [] then ""
    else if |items| == 1 then Print(items[0], ascii)
    else Print(items[0], ascii) + "," + PrintItems(items[1..], ascii)
  }

  function PrintMembers(j: Json, keys: seq<string>, ascii: bool): (text: string)
    requires j.Obj? && forall k <- keys :: k in j.members
    ensures keys != [] ==> text != [] && text[0] == '"'
    decreases j, 0, |keys|
  {
    if keys == [] then ""
    else
      Quote(keys[0], ascii) + ":" + Print(j.members[keys[0]], ascii) +
      (if |keys| == 1 then "" else "," + PrintMembers(j, keys[1..], ascii))
  }

  // ---- Parsing ----

  predicate IsBlank(c: char) {
    c == ' ' || c == '\t' || c == '\n' || c == '\r'
  }

  function Skip(s: string): (rest: string)
    ensures |rest| <= |s|
  {
    if s != [] && IsBlank(s[0]) then Skip(s[1..]) else s
  }

  function NumberSpan(s: string): (span: string)
    ensures |span| <= |s| && s[..|span|] == span
  {
    if s != [] && IsNumberChar(s[0]) then [s[0]] + NumberSpan(s[1..]) else ""
  }

  function ReadNumber(s: string): (r: Option<(Json, string)>)
    ensures r.Some? ==> |r.value.1| < |s|
  {
    var span := NumberSpan(s);
    if IsNumber(span) then Some((Num(span), s[|span|..])) else None
  }

  // A value at the head of `s`, and what follows it.
  function Read(s: string): (r: Option<(Json, string)>)
    ensures r.Some? ==> |r.value.1| < |s|
    decreases |s|, 1
  {
    if s == [] then None
    else if s[0] == '"' then
      match ReadString(s[1..])
      case None => None
      case Some((text, rest)) => Some((Str(text), rest))
    else if s[0] == '[' then
      var body := Skip(s[1..]);
      if body != [] && body[0] == ']' then Some((Arr([]), body[1..])) else ReadItems(body, [])
    else if s[0] == '{' then
      var body := Skip(s[1..]);
      if body != [] && body[0] == '}' then Some((Obj(map[]), body[1..])) else ReadMembers(body, map[])
    else if StartsWith(s, "null") then Some((Null, s[4..]))
    else if StartsWith(s, "true") then Some((Bool(true), s[4..]))
    else if StartsWith(s, "false") then Some((Bool(false), s[5..]))
    else ReadNumber(s)
  }

  function ReadItems(s: string, before: seq<Json>): (r: Option<(Json, string)>)
    ensures r.Some? ==> |r.value.1| < |s|
    decreases |s|, 2
  {
    match Read(s)
    case None => None
    case Some((item, afterItem)) =>
      var next := Skip(afterItem);
      if next == [] then None
      else if next[0] == ']' then Some((Arr(before + [item]), next[1..]))
      else if next[0] == ',' then ReadItems(Skip(next[1..]), before + [item])
      else None
  }

  // A repeated key keeps its last value.
  function ReadMembers(s: string, before: map<string, Json>): (r: Option<(Json, string)>)
    ensures r.Some? ==> |r.value.1| < |s|
    decreases |s|, 2
  {
    if s == [] || s[0] != '"' then None
    else
      match ReadString(s[1..])
      case None => None
      case Some((key, afterKey)) =>
        var colon := Skip(afterKey);
        if colon == [] || colon[0] != ':' then None
        else
          match Read(Skip(colon[1..]))
          case None => None
          case Some((item, afterItem)) =>
            var next := Skip(afterItem);
            if next == [] then None
            else if next[0] == '}' then Some((Obj(before[key := item]), next[1..]))
            else if next[0] == ',' then ReadMembers(Skip(next[1..]), before[key := item])
            else None
  }

  // `json.dumps` and `json.loads`; None stands for JSONDecodeError.
  function Dumps(j: Json, ascii: bool): string {
    Print(j, ascii)
  }

  function Loads(text: string): Option<Json> {
    match Read(Skip(text))
    case None => None
    case Some((j, rest)) => if Skip(rest) == [] then Some(j) else None
  }

  // ---- Round trip ----

  predicate Stops(rest: string) {
    rest == [] || !IsNumberChar(rest[0])
  }

  lemma {:induction false} NumberSpanReadsBack(s: string, rest: string)
    requires forall c <- s :: IsNumberChar(c)
    requires Stops(rest)
    ensures NumberSpan(s + rest) == s
  {
    if s == [] {
      assert s + rest == rest;
    } else {
      assert (s + rest)[1..] == s[1..] + rest;
      NumberSpanReadsBack(s[1..], rest);
    }
  }

  lemma WordsReadBack(rest: string)
    ensures Read("null" + rest) == Some((Null, rest))
    ensures Read("true" + rest) == Some((Bool(true), rest))
    ensures Read("false" + rest) == Some((Bool(false), rest))
  {
    hide ReadItems, ReadMembers, ReadNumber, ReadString;
    assert ("null" + rest)[..4] == "null" && ("null" + rest)[4..] == rest;
    assert ("true" + rest)[..4] == "true" && ("true" + rest)[4..] == rest;
    assert ("false" + rest)[..5] == "false" && ("false" + rest)[5..] == rest;
  }

  lemma NumberReadsBack(n: Number, rest: string)
    requires Stops(rest)
    ensures Read(n + rest) == Some((Num(n), rest))
  {
    hide ReadItems, ReadMembers, ReadString, IsNumber;
    NumberChars(n);
    NumberSpanReadsBack(n, rest);
    assert (n + rest)[|n|..] == rest;
  }

  lemma {:induction false} PrintReadsBack(j: Json, ascii: bool, rest: string)
    requires Stops(rest)
    ensures Read(Print(j, ascii) + rest) == Some((j, rest))
    decreases j, 1
  {
    hide Read, ReadItems, ReadMembers, PrintItems, PrintMembers;
    match j
    case Null =>
      WordsReadBack(rest);
    case Bool(_) =>
      WordsReadBack(rest);
    case Num(n) =>
      NumberReadsBack(n, rest);
    case Str(s) =>
      QuotedReadsBack(s, ascii, rest);
    case Arr(items) =>
      ArrayReadsBack(items, ascii, rest);
    case Obj(_) =>
      ObjectReadsBack(j, ascii, rest);
  }

  lemma QuotedReadsBack(s: string, ascii: bool, rest: string)
    ensures Read(Quote(s, ascii) + rest) == Some((Str(s), rest))
  {
    hide ReadItems, ReadMembers, ReadNumber, StringBody, ReadString;
    StringReadsBack(s, ascii, rest);
    assert (Quote(s, ascii) + rest)[1..] == StringBody(s, ascii) + "\"" + rest;
  }

  lemma {:induction false} ArrayReadsBack(items: seq<Json>, ascii: bool, rest: string)
    ensures Read(Print(Arr(items), ascii) + rest) == Some((Arr(items), rest))
    decreases items, 1
  {
    var text := Print(Arr(items), ascii) + rest;
    var body := PrintItems(items, ascii) + "]" + rest;
    assert text[1..] == body;
    if items == [] {
      assert body == "]" + rest;
    } else {
      ItemsReadBack(items, [], ascii, rest);
      assert [] + items == items;
    }
  }

  lemma ReadLastItem(text: string, before: seq<Json>, item: Json, rest: string)
    requires Read(text) == Some((item, "]" + rest))
    ensures ReadItems(text, before) == Some((Arr(before + [item]), rest))
  {
    assert ("]" + rest)[1..] == rest;
  }

  lemma ReadNextItem(text: string, before: seq<Json>, item: Json, tail: string)
    requires Read(text) == Some((item, "," + tail))
    requires tail != [] && !IsBlank(tail[0])
    ensures ReadItems(text, before) == ReadItems(tail, before + [item])
  {
    assert ("," + tail)[1..] == tail;
  }

  lemma {:induction false} ItemsReadBack(items: seq<Json>, before: seq<Json>, ascii: bool, rest: string)
    requires items != []
    ensures ReadItems(PrintItems(items, ascii) + "]" + rest, before) == Some((Arr(before + items), rest))
    decreases items, 0
  {
    hide Read, ReadItems, ReadMembers, Print;
    var first, body := items[0], PrintItems(items, ascii) + "]" + rest;
    if |items| == 1 {
      PrintReadsBack(first, ascii, "]" + rest);
      assert body == Print(first, ascii) + ("]" + rest);
      ReadLastItem(body, before, first, rest);
      assert before + items == before + [first];
    } else {
      var tail := PrintItems(items[1..], ascii) + "]" + rest;
      assert ReadItems(body, before) == ReadItems(tail, before + [first]) by {
        PrintReadsBack(first, ascii, "," + tail);
        assert body == Print(first, ascii) + ("," + tail);
        ReadNextItem(body, before, first, tail);
      }
      ItemsReadBack(items[1..], before + [first], ascii, rest);
      assert before + items == before + [first] + items[1..];
    }
  }

  function Restrict(m: map<string, Json>, keys: seq<string>): map<string, Json>
    requires forall k <- keys :: k in m
  {
    map k | k in keys :: m[k]
  }

  lemma {:induction false} ObjectReadsBack(j: Json, ascii: bool, rest: string)
    requires j.Obj?
    ensures Read(Print(j, ascii) + rest) == Some((j, rest))
    decreases j, 0
  {
    hide Read, ReadMembers, PrintMembers, Sorted;
    var keys := Sorted(j.members.Keys);
    var body := PrintMembers(j, keys, ascii) + "}" + rest;
    assert Print(j, ascii) + rest == "{" + body;
    if keys == [] {
      assert j.members.Keys == {} && j == Obj(map[]);
      NoMembers(j, ascii);
      ReadOpenBrace("}" + rest);
      assert ("}" + rest)[1..] == rest;
      assert body == "}" + rest;
    } else {
      ReadOpenBrace(body);
      MembersReadBack(j, keys, map[], ascii, rest);
      assert map[] + Restrict(j.members, keys) == j.members;
    }
  }

  lemma NoMembers(j: Json, ascii: bool)
    requires j.Obj?
    ensures PrintMembers(j, [], ascii) == ""
  {
  }

  lemma ReadOpenBrace(body: string)
    requires body != [] && !IsBlank(body[0])
    ensures Read("{" + body)
         == if body[0] == '}' then Some((Obj(map[]), body[1..])) else ReadMembers(body, map[])
  {
    hide ReadMembers;
    assert ("{" + body)[1..] == body;
  }

  lemma ReadOneMember(key: string, item: Json, before: map<string, Json>, ascii: bool, after: string)
    requires after != [] && !IsBlank(after[0])
    requires Read(Print(item, ascii) + after) == Some((item, after))
    ensures ReadMembers(Quote(key, ascii) + ":" + Print(item, ascii) + after, before)
         == if after[0] == '}' then Some((Obj(before[key := item]), after[1..]))
            else if after[0] == ',' then ReadMembers(Skip(after[1..]), before[key := item])
            else None
  {
    hide Read, Print, StringBody, ReadString;
    var afterColon := Print(item, ascii) + after;
    var text := Quote(key, ascii) + ":" + Print(item, ascii) + after;
    assert text[1..] == StringBody(key, ascii) + "\"" + (":" + afterColon);
    StringReadsBack(key, ascii, ":" + afterColon);
    assert (":" + afterColon)[1..] == afterColon;
  }

  lemma ReadLastMember(j: Json, key: string, before: map<string, Json>, ascii: bool, rest: string)
    requires j.Obj? && key in j.members
    requires Read(Print(j.members[key], ascii) + ("}" + rest)) == Some((j.members[key], "}" + rest))
    ensures ReadMembers(PrintMembers(j, [key], ascii) + "}" + rest, before)
         == Some((Obj(before[key := j.members[key]]), rest))
  {
    hide Read, ReadMembers, Print, Quote;
    var item := j.members[key];
    ReadOneMember(key, item, before, ascii, "}" + rest);
    assert PrintMembers(j, [key], ascii) + "}" + rest == Quote(key, ascii) + ":" + Print(item, ascii) + ("}" + rest);
    assert ("}" + rest)[1..] == rest;
  }

  lemma ReadNextMember(j: Json, keys: seq<string>, before: map<string, Json>, ascii: bool, rest: string, tail: string)
    requires j.Obj? && |keys| > 1 && forall k <- keys :: k in j.members
    requires tail == PrintMembers(j, keys[1..], ascii) + rest && tail != [] && !IsBlank(tail[0])
    requires Read(Print(j.members[keys[0]], ascii) + ("," + tail)) == Some((j.members[keys[0]], "," + tail))
    ensures ReadMembers(PrintMembers(j, keys, ascii) + rest, before)
         == ReadMembers(tail, before[keys[0] := j.members[keys[0]]])
  {
    hide Read, ReadMembers, Print, Quote;
    var item := j.members[keys[0]];
    ReadOneMember(keys[0], item, before, ascii, "," + tail);
    assert PrintMembers(j, keys, ascii) + rest == Quote(keys[0], ascii) + ":" + Print(item, ascii) + ("," + tail);
    assert ("," + tail)[1..] == tail;
  }

  lemma {:induction false} MembersReadBack(j: Json, keys: seq<string>, before: map<string, Json>, ascii: bool,
                                           rest: string)
    requires j.Obj? && keys != [] && forall k <- keys :: k in j.members
    ensures ReadMembers(PrintMembers(j, keys, ascii) + "}" + rest, before)
         == Some((Obj(before + Restrict(j.members, keys)), rest))
    decreases j, 0, |keys|
  {
    hide Read, ReadMembers, Print, PrintMembers, Quote;
    var key, item := keys[0], j.members[keys[0]];
    if |keys| == 1 {
      PrintReadsBack(item, ascii, "}" + rest);
      ReadLastMember(j, key, before, ascii, rest);
      assert keys == [key];
      assert before[key := item] == before + Restrict(j.members, keys);
    } else {
      var tail := PrintMembers(j, keys[1..], ascii) + "}" + rest;
      PrintReadsBack(item, ascii, "," + tail);
      assert tail == PrintMembers(j, keys[1..], ascii) + ("}" + rest);
      ReadNextMember(j, keys, before, ascii, "}" + rest, tail);
      assert PrintMembers(j, keys, ascii) + ("}" + rest) == PrintMembers(j, keys, ascii) + "}" + rest;
      MembersReadBack(j, keys[1..], before[key := item], ascii, rest);
      assert before[key := item] + Restrict(j.members, keys[1..]) == before + Restrict(j.members, keys);
    }
  }

  // What is written is read back, whatever the nesting and whichever escapes are used.
  lemma DumpsReadsBack(j: Json, ascii: bool)
    ensures Loads(Dumps(j, ascii)) == Some(j)
  {
    PrintReadsBack(j, ascii, "");
    assert Print(j, ascii) + "" == Print(j, ascii);
  }

  // Two values print alike exactly when they are equal.
  lemma DumpsIsInjective(a: Json, b: Json, ascii: bool)
    ensures Dumps(a, ascii) == Dumps(b, ascii) <==> a == b
  {
    DumpsReadsBack(a, ascii);
    DumpsReadsBack(b, ascii);
  }
}
