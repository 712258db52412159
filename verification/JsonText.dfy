// Which texts `json.loads` takes, and what for: the grammar of RFC 8259, by its ways of writing a value.
module JsonText {
  import opened Wrappers
  import opened Text
  import opened Json

  // ---- Strings (section 7 of RFC 8259) ----

  predicate IsHexDigit(c: char, n: nat) {
    n < 16 && ("0123456789abcdef"[n] == c || "0123456789ABCDEF"[n] == c)
  }

  predicate IsHex4(digits: string, n: nat) {
    && |digits| == 4 && n < 0x10000
    && IsHexDigit(digits[0], n / 4096) && IsHexDigit(digits[1], n / 256 % 16)
    && IsHexDigit(digits[2], n / 16 % 16) && IsHexDigit(digits[3], n % 16)
  }

  // The two characters that stand for c.
  predicate IsEscape(piece: string, c: char) {
    |piece| == 2 && piece[0] == '\\' &&
    (|| (piece[1] == c && (c == '"' || c == '\\' || c == '/'))
     || (piece[1] == 'n' && c == '\n') || (piece[1] == 'r' && c == '\r') || (piece[1] == 't' && c == '\t')
     || (piece[1] == 'f' && c == 12 as char) || (piece[1] == 'b' && c == 8 as char))
  }

  predicate IsCodePoint(piece: string, c: char) {
    |piece| == 6 && piece[..2] == "\\u" && IsHex4(piece[2..], c as int)
  }

  ghost predicate IsPair(piece: string, c: char) {
    |piece| == 12 && piece[..2] == "\\u" && piece[6..8] == "\\u" &&
    exists high: nat, low: nat ::
      IsHex4(piece[2..6], high) && IsHex4(piece[8..], low) && 0xD800 <= high < 0xDC00 && 0xDC00 <= low < 0xE000 &&
      c as int == 0x10000 + (high - 0xD800) * 0x400 + (low - 0xDC00)
  }

  // A way of writing the character c within quotes.
  ghost predicate Spells(piece: string, c: char) {
    || (piece == [c] && c >= ' ' && c != '"' && c != '\\')
    || IsEscape(piece, c) || IsCodePoint(piece, c) || IsPair(piece, c)
  }

  function Concat(pieces: seq<string>): string {
    if pieces == [] then "" else pieces[0] + Concat(pieces[1..])
  }

  ghost predicate AllSpell(pieces: seq<string>, text: string) {
    |pieces| == |text| && forall i :: 0 <= i < |text| ==> Spells(pieces[i], text[i])
  }

  lemma HexIsExact(c: char, n: nat)
    ensures HexValue(c) == Some(n) <==> IsHexDigit(c, n)
  {
    if n < 10 {
      assert "0123456789abcdef"[n] == (n + '0' as int) as char && "0123456789ABCDEF"[n] == (n + '0' as int) as char;
    } else if n < 16 {
      assert "0123456789abcdef"[n] == (n - 10 + 'a' as int) as char;
      assert "0123456789ABCDEF"[n] == (n - 10 + 'A' as int) as char;
    }
  }

  lemma CombinedSplits(a: nat, b: nat, c: nat, d: nat)
    requires a < 16 && b < 16 && c < 16 && d < 16
    ensures var n := Combine(a, b, c, d); n / 4096 == a && n / 256 % 16 == b && n / 16 % 16 == c && n % 16 == d
  {
    var n := Combine(a, b, c, d);
    assert n / 16 == (a * 16 + b) * 16 + c;
    assert n / 256 == a * 16 + b;
  }

  lemma SplitCombines(n: nat)
    requires n < 0x10000
    ensures Combine(n / 4096, n / 256 % 16, n / 16 % 16, n % 16) == n && n / 4096 < 16
  {
    assert n / 256 == n / 16 / 16 && n / 4096 == n / 256 / 16;
  }

  lemma FourDigits(a: char, b: char, c: char, d: char, n: nat)
    ensures n < 0x10000 && IsHexDigit(a, n / 4096) && IsHexDigit(b, n / 256 % 16) && IsHexDigit(c, n / 16 % 16) &&
            IsHexDigit(d, n % 16)
       <==> HexValue(a).Some? && HexValue(b).Some? && HexValue(c).Some? && HexValue(d).Some? &&
            n == Combine(HexValue(a).value, HexValue(b).value, HexValue(c).value, HexValue(d).value)
  {
    HexIsExact(a, n / 4096);
    HexIsExact(b, n / 256 % 16);
    HexIsExact(c, n / 16 % 16);
    HexIsExact(d, n % 16);
    if HexValue(a).Some? && HexValue(b).Some? && HexValue(c).Some? && HexValue(d).Some? {
      var (u, v, w, x) := (HexValue(a).value, HexValue(b).value, HexValue(c).value, HexValue(d).value);
      CombinedSplits(u, v, w, x);
      hide HexValue, IsHexDigit;
      if n == Combine(u, v, w, x) {
        CombinedIsSmall(u, v, w, x);
      }
    }
    hide HexValue, IsHexDigit;
    if n < 0x10000 {
      SplitCombines(n);
    }
    hide Combine;
  }

  lemma CombinedIsSmall(a: nat, b: nat, c: nat, d: nat)
    requires a < 16 && b < 16 && c < 16 && d < 16
    ensures Combine(a, b, c, d) < 0x10000
  {
  }

  lemma Hex4IsExact(s: string, n: nat)
    ensures ReadHex4(s) == Some(n) <==> |s| >= 4 && IsHex4(s[..4], n)
  {
    if |s| >= 4 {
      FourDigits(s[0], s[1], s[2], s[3], n);
      var digits := s[..4];
      assert digits[0] == s[0] && digits[1] == s[1] && digits[2] == s[2] && digits[3] == s[3];
      hide HexValue, IsHexDigit, Combine;
    }
  }

  // What is read for one character is a way of writing it.
  lemma ReadCharSpells(s: string)
    requires s != [] && s[0] != '"' && ReadChar(s).Some?
    ensures var (c, rest) := ReadChar(s).value;
      |rest| <= |s| && s[|s| - |rest|..] == rest && Spells(s[..|s| - |rest|], c)
  {
    hide IsEscape, IsCodePoint, IsPair, ReadUnicode;
    var (c, rest) := ReadChar(s).value;
    if s[0] != '\\' {
      assert s[..1] == [c];
    } else {
      assert s[..2] == [s[0], s[1]];
      if s[1] == 'u' {
        ReadUnicodeSpells(s);
      } else {
        EscapeSpells(s);
      }
    }
  }

  lemma EscapeSpells(s: string)
    requires |s| >= 2 && s[0] == '\\' && s[1] != 'u' && ReadChar(s).Some?
    ensures ReadChar(s).value.1 == s[2..] && IsEscape(s[..2], ReadChar(s).value.0)
  {
  }

  lemma ReadUnicodeSpells(s: string)
    requires |s| >= 2 && s[..2] == "\\u" && ReadUnicode(s[2..]).Some?
    ensures var (c, rest) := ReadUnicode(s[2..]).value;
      |rest| <= |s| && s[|s| - |rest|..] == rest && Spells(s[..|s| - |rest|], c)
  {
    var (c, rest) := ReadUnicode(s[2..]).value;
    var n := ReadHex4(s[2..]).value;
    Hex4IsExact(s[2..], n);
    hide ReadHex4, IsHex4, IsEscape;
    assert s[2..][4..] == s[6..];
    if n < 0xD800 || 0xE000 <= n {
      assert rest == s[6..] && s[..6][2..] == s[2..][..4] && s[..6][..2] == "\\u";
      assert IsCodePoint(s[..6], c);
    } else {
      var m := ReadHex4(s[2..][6..]).value;
      Hex4IsExact(s[2..][6..], m);
      assert s[2..][6..] == s[8..] && s[2..][10..] == s[12..] == rest;
      assert StartsWith(s[6..], "\\u") && s[6..][..2] == s[6..8];
      var piece := s[..12];
      assert piece[2..6] == s[2..][..4] && piece[8..] == s[8..][..4] && piece[6..8] == s[6..8] && piece[..2] == s[..2];
      assert IsPair(piece, c);
    }
  }

  // And every way of writing a character is read.
  lemma SpelledIsRead(piece: string, c: char, rest: string)
    requires Spells(piece, c)
    ensures piece != [] && piece[0] != '"' && ReadChar(piece + rest) == Some((c, rest))
  {
    var s := piece + rest;
    assert s[|piece|..] == rest;
    if piece == [c] && c >= ' ' && c != '"' && c != '\\' {
      assert s[0] == c;
    } else if IsEscape(piece, c) {
      assert s[0] == '\\' && s[1] == piece[1] && s[2..] == rest;
    } else if IsCodePoint(piece, c) {
      CodePointIsRead(piece, c, rest);
    } else {
      PairIsRead(piece, c, rest);
    }
  }

  lemma CodePointIsRead(piece: string, c: char, rest: string)
    requires IsCodePoint(piece, c)
    ensures piece[0] != '"' && ReadChar(piece + rest) == Some((c, rest))
  {
    var s := piece + rest;
    assert s[..2] == piece[..2] && s[0] == '\\' && s[1] == 'u';
    assert s[2..][..4] == piece[2..] && s[2..][4..] == rest;
    Hex4IsExact(s[2..], c as int);
    hide ReadHex4, IsHex4;
  }

  lemma UnicodeIsRead(s: string)
    requires |s| >= 2 && s[0] == '\\' && s[1] == 'u'
    ensures ReadChar(s) == ReadUnicode(s[2..])
  {
  }

  lemma TwoUnitsAreRead(digits: string, high: nat, low: nat, c: char)
    requires |digits| >= 10 && IsHex4(digits[..4], high) && IsHex4(digits[6..][..4], low)
    requires StartsWith(digits[4..], "\\u") && 0xD800 <= high < 0xDC00 && 0xDC00 <= low < 0xE000
    requires c as int == 0x10000 + (high - 0xD800) * 0x400 + (low - 0xDC00)
    ensures ReadUnicode(digits) == Some((c, digits[10..]))
  {
    Hex4IsExact(digits, high);
    Hex4IsExact(digits[6..], low);
    hide ReadHex4, IsHex4;
  }

  lemma PairParts(piece: string, rest: string)
    requires |piece| == 12 && piece[..2] == "\\u" && piece[6..8] == "\\u"
    ensures var (s, digits) := (piece + rest, piece[2..] + rest);
      && s[0] == '\\' && s[1] == 'u' && s[2..] == digits && StartsWith(digits[4..], "\\u")
      && digits[..4] == piece[2..6] && digits[6..][..4] == piece[8..] && digits[10..] == rest
  {
    var (s, digits) := (piece + rest, piece[2..] + rest);
    assert piece == "\\u" + piece[2..];
    assert digits[4..][..2] == piece[6..8];
  }

  lemma PairIsRead(piece: string, c: char, rest: string)
    requires IsPair(piece, c)
    ensures piece[0] != '"' && ReadChar(piece + rest) == Some((c, rest))
  {
    var high: nat, low: nat :| IsHex4(piece[2..6], high) && IsHex4(piece[8..], low) && 0xD800 <= high < 0xDC00 &&
      0xDC00 <= low < 0xE000 && c as int == 0x10000 + (high - 0xD800) * 0x400 + (low - 0xDC00);
    PairParts(piece, rest);
    hide IsHex4, IsPair, ReadChar, ReadUnicode, StartsWith;
    var (s, digits) := (piece + rest, piece[2..] + rest);
    UnicodeIsRead(s);
    TwoUnitsAreRead(digits, high, low, c);
    assert s[0] == piece[0];
  }

  lemma {:induction false} ReadStringSpells(s: string) returns (pieces: seq<string>)
    requires ReadString(s).Some?
    ensures var (text, rest) := ReadString(s).value;
      AllSpell(pieces, text) && s == Concat(pieces) + "\"" + rest
    decreases |s|
  {
    hide Spells, ReadChar;
    if s[0] == '"' {
      pieces := [];
      assert s == "" + "\"" + s[1..];
    } else {
      ReadCharSpells(s);
      var (c, afterChar) := ReadChar(s).value;
      var later := ReadStringSpells(afterChar);
      var piece := s[..|s| - |afterChar|];
      pieces := [piece] + later;
      var (text, rest) := ReadString(afterChar).value;
      assert pieces[1..] == later && s == piece + afterChar;
      assert piece + (Concat(later) + "\"" + rest) == Concat(pieces) + "\"" + rest;
    }
  }

  lemma {:induction false} SpelledStringIsRead(pieces: seq<string>, text: string, rest: string)
    requires AllSpell(pieces, text)
    ensures ReadString(Concat(pieces) + "\"" + rest) == Some((text, rest))
  {
    hide Spells, ReadChar;
    var s := Concat(pieces) + "\"" + rest;
    if pieces == [] {
      assert s == "\"" + rest && s[1..] == rest;
    } else {
      var later := Concat(pieces[1..]) + "\"" + rest;
      assert s == pieces[0] + later;
      SpelledIsRead(pieces[0], text[0], later);
      SpelledStringIsRead(pieces[1..], text[1..], rest);
      assert text == [text[0]] + text[1..];
    }
  }

  // ---- Values ----

  // A way of writing a value, with the blanks in it.
  datatype Form =
    | Plain(text: string, value: Json)
    | Quoted(pieces: seq<string>, text: string)
    | Listed(gap: string, items: seq<Item>)
    | Braced(gap: string, members: seq<Member>)

  datatype Item = Item(before: string, form: Form, after: string)

  datatype Member = Member(before: string, pieces: seq<string>, key: string, afterKey: string, item: Item)

  predicate AllBlank(s: string) {
    forall i :: 0 <= i < |s| ==> IsBlank(s[i])
  }

  predicate IsPlain(text: string, value: Json) {
    || (text == "null" && value == Null) || (text == "true" && value == Bool(true))
    || (text == "false" && value == Bool(false)) || (IsNumber(text) && value == Num(text))
  }

  ghost predicate IsItem(i: Item)
    decreases i
  {
    AllBlank(i.before) && IsForm(i.form) && AllBlank(i.after)
  }

  ghost predicate IsMember(m: Member)
    decreases m
  {
    AllBlank(m.before) && AllSpell(m.pieces, m.key) && AllBlank(m.afterKey) && IsItem(m.item)
  }

  ghost predicate IsForm(f: Form)
    decreases f
  {
    match f
    case Plain(text, value) => IsPlain(text, value)
    case Quoted(pieces, text) => AllSpell(pieces, text)
    case Listed(gap, items) => AllBlank(gap) && forall i :: 0 <= i < |items| ==> IsItem(items[i])
    case Braced(gap, members) => AllBlank(gap) && forall i :: 0 <= i < |members| ==> IsMember(members[i])
  }

  function ItemText(i: Item): string
    decreases i
  {
    i.before + FormText(i.form) + i.after
  }

  function MemberText(m: Member): string
    decreases m
  {
    m.before + "\"" + Concat(m.pieces) + "\"" + m.afterKey + ":" + ItemText(m.item)
  }

  function ItemsText(items: seq<Item>): string
    decreases items
  {
    if items == [] then "" else if |items| == 1 then ItemText(items[0])
    else ItemText(items[0]) + "," + ItemsText(items[1..])
  }

  function MembersText(members: seq<Member>): string
    decreases members
  {
    if members == [] then "" else if |members| == 1 then MemberText(members[0])
    else MemberText(members[0]) + "," + MembersText(members[1..])
  }

  function FormText(f: Form): string
    decreases f
  {
    match f
    case Plain(text, _) => text
    case Quoted(pieces, _) => "\"" + Concat(pieces) + "\""
    case Listed(gap, items) => "[" + (if items == [] then gap else ItemsText(items)) + "]"
    case Braced(gap, members) => "{" + (if members == [] then gap else MembersText(members)) + "}"
  }

  function FormValue(f: Form): Json
    decreases f
  {
    match f
    case Plain(_, value) => value
    case Quoted(_, text) => Str(text)
    case Listed(_, items) => Arr(seq(|items|, i requires 0 <= i < |items| => FormValue(items[i].form)))
    case Braced(_, members) => Obj(MembersValue(members))
  }

  // A repeated key keeps its last value.
  function MembersValue(members: seq<Member>): map<string, Json>
    decreases members
  {
    if members == [] then map[]
    else
      var last := members[|members| - 1];
      MembersValue(members[..|members| - 1])[last.key := FormValue(last.item.form)]
  }

  // ---- What is read is written in some way ----

  lemma {:induction false} SkipIs(blank: string, rest: string)
    requires AllBlank(blank) && (rest == "" || !IsBlank(rest[0]))
    ensures Skip(blank + rest) == rest
  {
    if blank == "" {
      assert blank + rest == rest;
    } else {
      assert (blank + rest)[1..] == blank[1..] + rest;
      SkipIs(blank[1..], rest);
    }
  }

  lemma {:induction false} SkipsBlanks(s: string) returns (blank: string)
    ensures AllBlank(blank) && s == blank + Skip(s) && (Skip(s) == "" || !IsBlank(Skip(s)[0]))
  {
    blank := "";
    if s != [] && IsBlank(s[0]) {
      var rest := SkipsBlanks(s[1..]);
      blank := [s[0]] + rest;
    }
  }

  lemma {:induction false} SpanStops(s: string)
    ensures Stops(s[|NumberSpan(s)|..])
  {
    if s != [] && IsNumberChar(s[0]) {
      SpanStops(s[1..]);
    }
  }

  function Values(items: seq<Item>): seq<Json> {
    seq(|items|, i requires 0 <= i < |items| => FormValue(items[i].form))
  }

  lemma ListedValue(gap: string, items: seq<Item>)
    ensures FormValue(Listed(gap, items)) == Arr(Values(items))
  {
  }

  ghost predicate AreItems(items: seq<Item>) {
    items != [] && forall i :: 0 <= i < |items| ==> IsItem(items[i])
  }

  ghost predicate AreMembers(members: seq<Member>) {
    members != [] && forall i :: 0 <= i < |members| ==> IsMember(members[i])
  }

  // The way f of writing j is at the head of s, before the rest.
  ghost predicate IsWrittenBy(f: Form, s: string, j: Json, rest: string) {
    IsForm(f) && s == FormText(f) + rest && FormValue(f) == j
  }

  lemma QuotedIsWritten(s: string) returns (f: Form)
    requires Read(s).Some? && s[0] == '"'
    ensures IsWrittenBy(f, s, Read(s).value.0, Read(s).value.1)
  {
    hide ReadString, AllSpell, Concat;
    var (j, rest) := Read(s).value;
    var pieces := ReadStringSpells(s[1..]);
    f := Quoted(pieces, j.text);
    assert s == "\"" + s[1..];
    assert s == "\"" + Concat(pieces) + "\"" + rest;
  }

  lemma EmptyIsWritten(s: string, gap: string) returns (f: Form)
    requires s != "" && AllBlank(gap) && s[1..] == gap + Skip(s[1..]) && Skip(s[1..]) != ""
    requires (s[0] == '[' && Skip(s[1..])[0] == ']') || (s[0] == '{' && Skip(s[1..])[0] == '}')
    ensures Read(s).Some? && IsWrittenBy(f, s, Read(s).value.0, Read(s).value.1)
  {
    hide ReadItems, ReadMembers, Skip, AllBlank;
    var rest := Skip(s[1..])[1..];
    assert s == [s[0]] + gap + [Skip(s[1..])[0]] + rest;
    if s[0] == '[' {
      f := Listed(gap, []);
      ListedValue(gap, []);
      assert Values([]) == [] && s == "[" + gap + "]" + rest;
    } else {
      f := Braced(gap, []);
      NoMembersValue();
      assert s == "{" + gap + "}" + rest;
    }
  }

  lemma ListIsWritten(s: string, gap: string, items: seq<Item>)
    requires s != "" && s[0] == '[' && s[1..] == gap + Skip(s[1..]) && Skip(s[1..]) != "" && Skip(s[1..])[0] != ']'
    requires ReadItems(Skip(s[1..]), []).Some? && AreItems(items)
    requires var (j, rest) := ReadItems(Skip(s[1..]), []).value;
      gap + Skip(s[1..]) == ItemsText(items) + "]" + rest && j == Arr([] + Values(items))
    ensures Read(s).Some? && IsWrittenBy(Listed("", items), s, Read(s).value.0, Read(s).value.1)
  {
    hide ReadItems, Skip, ItemsText, IsItem;
    var rest := ReadItems(Skip(s[1..]), []).value.1;
    ListedValue("", items);
    assert [] + Values(items) == Values(items);
    assert s == "[" + s[1..];
    assert s == "[" + ItemsText(items) + "]" + rest;
  }

  lemma ObjectIsWritten(s: string, gap: string, members: seq<Member>)
    requires s != "" && s[0] == '{' && s[1..] == gap + Skip(s[1..]) && Skip(s[1..]) != "" && Skip(s[1..])[0] != '}'
    requires ReadMembers(Skip(s[1..]), map[]).Some? && AreMembers(members)
    requires var (j, rest) := ReadMembers(Skip(s[1..]), map[]).value;
      gap + Skip(s[1..]) == MembersText(members) + "}" + rest && j == Obj(map[] + MembersValue(members))
    ensures Read(s).Some? && IsWrittenBy(Braced("", members), s, Read(s).value.0, Read(s).value.1)
  {
    hide ReadMembers, Skip, MembersText, MembersValue, IsMember;
    var rest := ReadMembers(Skip(s[1..]), map[]).value.1;
    assert map[] + MembersValue(members) == MembersValue(members);
    assert s == "{" + s[1..];
    assert s == "{" + MembersText(members) + "}" + rest;
  }

  lemma BodyIsThere(s: string)
    requires Read(s).Some? && (s[0] == '[' || s[0] == '{')
    ensures var body := Skip(s[1..]);
      body != "" && (s[0] == '[' && body[0] != ']' ==> ReadItems(body, []).Some?)
      && (s[0] == '{' && body[0] != '}' ==> ReadMembers(body, map[]).Some?)
  {
    var body := Skip(s[1..]);
    if body == "" {
      NothingIsRead();
    }
    hide ReadItems, ReadMembers, Skip;
  }

  lemma NothingIsRead()
    ensures ReadItems("", []) == None && ReadMembers("", map[]) == None
  {
  }

  lemma {:induction false} ReadIsWritten(s: string) returns (f: Form)
    requires Read(s).Some?
    ensures IsWrittenBy(f, s, Read(s).value.0, Read(s).value.1)
    decreases |s|, 1
  {
    assert s != "";
    hide Read, ReadItems, ReadMembers, Skip, AreItems, AreMembers, IsWrittenBy, AllBlank, FormText, FormValue, IsForm,
         ItemsText, MembersText, Values, MembersValue;
    if s[0] == '[' || s[0] == '{' {
      BodyIsThere(s);
      var gap := SkipsBlanks(s[1..]);
      var body := Skip(s[1..]);
      if (s[0] == '[' && body[0] == ']') || (s[0] == '{' && body[0] == '}') {
        f := EmptyIsWritten(s, gap);
      } else if s[0] == '[' {
        var items := ItemsAreWritten(gap, body, []);
        f := Listed("", items);
        ListIsWritten(s, gap, items);
      } else {
        var members := MembersAreWritten(gap, body, map[]);
        f := Braced("", members);
        ObjectIsWritten(s, gap, members);
      }
    } else if s[0] == '"' {
      f := QuotedIsWritten(s);
    } else {
      f := PlainIsWritten(s);
    }
  }

  lemma PlainIsWritten(s: string) returns (f: Form)
    requires Read(s).Some? && s[0] != '"' && s[0] != '[' && s[0] != '{'
    ensures IsWrittenBy(f, s, Read(s).value.0, Read(s).value.1)
  {
    hide IsNumber;
    var (j, rest) := Read(s).value;
    f := Plain(s[..|s| - |rest|], j);
    assert s == f.text + rest;
    if j.Num? {
      assert f.text == NumberSpan(s) && ReadNumber(s) == Some((j, rest));
      assert IsNumber(f.text) && j == Num(f.text);
    } else {
      assert f.text == if j.Null? then "null" else if j.value then "true" else "false";
    }
  }

  lemma {:induction false} ItemsAreWritten(gap: string, s: string, before: seq<Json>) returns (items: seq<Item>)
    requires AllBlank(gap) && ReadItems(s, before).Some?
    ensures var (j, rest) := ReadItems(s, before).value;
      AreItems(items) && gap + s == ItemsText(items) + "]" + rest && j == Arr(before + Values(items))
    decreases |s|, 2
  {
    hide Read, FormText, IsForm, FormValue, AllBlank, Skip, ItemsText, ItemText, AreItems, Values, IsItem;
    var f := ReadIsWritten(s);
    var (value, afterItem) := Read(s).value;
    var after := SkipsBlanks(afterItem);
    var next := Skip(afterItem);
    var item := Item(gap, f, after);
    var (j, rest) := ReadItems(s, before).value;
    ItemIsWritten(gap, s, item, next);
    if next[0] == ']' {
      items := [item];
      assert next == "]" + rest && j == Arr(before + [value]);
      LastItem(gap + s, item, value, before, next, rest);
    } else {
      var gap' := SkipsBlanks(next[1..]);
      var body := Skip(next[1..]);
      hide ReadItems;
      var later := ItemsAreWritten(gap', body, before + [value]);
      items := [item] + later;
      assert next == "," + (gap' + body);
      OneMoreItem(gap + s, item, value, before, next, later, rest);
    }
  }

  lemma ItemIsWritten(gap: string, s: string, item: Item, next: string)
    requires item.before == gap && AllBlank(gap) && IsForm(item.form) && AllBlank(item.after)
    requires s == FormText(item.form) + (item.after + next)
    ensures IsItem(item) && gap + s == ItemText(item) + next
  {
    hide IsForm, FormText, AllBlank;
    var text := FormText(item.form);
    assert gap + (text + (item.after + next)) == gap + text + item.after + next;
  }

  lemma LastItem(s: string, item: Item, value: Json, before: seq<Json>, next: string, rest: string)
    requires s == ItemText(item) + next && next == "]" + rest && IsItem(item) && FormValue(item.form) == value
    ensures AreItems([item]) && s == ItemsText([item]) + "]" + rest && before + [value] == before + Values([item])
  {
    hide ItemText, FormValue, IsItem;
    assert Values([item]) == [value];
    assert ItemText(item) + ("]" + rest) == ItemText(item) + "]" + rest;
  }

  lemma OneMoreItem(s: string, item: Item, value: Json, before: seq<Json>, next: string, later: seq<Item>, rest: string)
    requires s == ItemText(item) + next && IsItem(item) && FormValue(item.form) == value && AreItems(later)
    requires next == "," + (ItemsText(later) + "]" + rest)
    ensures AreItems([item] + later) && s == ItemsText([item] + later) + "]" + rest
    ensures before + [value] + Values(later) == before + Values([item] + later)
  {
    hide ItemText, FormValue, IsItem;
    var items := [item] + later;
    assert items[1..] == later && Values(items) == [value] + Values(later);
    assert s == ItemText(item) + "," + ItemsText(later) + "]" + rest;
  }

  lemma {:induction false} FirstMemberFirst(m: Member, later: seq<Member>)
    ensures MembersValue([m] + later) == map[m.key := FormValue(m.item.form)] + MembersValue(later)
  {
    hide FormValue;
    var all := [m] + later;
    if later == [] {
      assert all[..0] == [];
    } else {
      var last := |later| - 1;
      assert all[..|all| - 1] == [m] + later[..last];
      FirstMemberFirst(m, later[..last]);
    }
  }

  lemma {:induction false} MembersAreWritten(gap: string, s: string, before: map<string, Json>)
    returns (members: seq<Member>)
    requires AllBlank(gap) && ReadMembers(s, before).Some?
    ensures var (j, rest) := ReadMembers(s, before).value;
      AreMembers(members) && gap + s == MembersText(members) + "}" + rest && j == Obj(before + MembersValue(members))
    decreases |s|, 2
  {
    hide Read, ReadString, FormText, IsForm, FormValue, AllBlank, AllSpell, Concat, Skip, MemberText, MembersText,
         MembersValue, IsMember;
    var pieces := ReadStringSpells(s[1..]);
    var (key, afterKey) := ReadString(s[1..]).value;
    var blank := SkipsBlanks(afterKey);
    var colon := Skip(afterKey);
    var beforeValue := SkipsBlanks(colon[1..]);
    var text := Skip(colon[1..]);
    var f := ReadIsWritten(text);
    var (value, afterItem) := Read(text).value;
    var after := SkipsBlanks(afterItem);
    var next := Skip(afterItem);
    var m := Member(gap, pieces, key, blank, Item(beforeValue, f, after));
    var (j, rest) := ReadMembers(s, before).value;
    ItemIsMember(m);
    MemberIsWritten(gap, s, m, colon, text, next);
    if next[0] == '}' {
      members := [m];
      assert next == "}" + rest && j == Obj(before[key := value]);
      LastMember(gap + s, m, value, before, next, rest);
    } else {
      var gap' := SkipsBlanks(next[1..]);
      var body := Skip(next[1..]);
      hide ReadMembers;
      var later := MembersAreWritten(gap', body, before[key := value]);
      members := [m] + later;
      assert next == "," + (gap' + body);
      OneMoreMember(gap + s, m, value, before, next, later, rest);
    }
  }

  lemma LastMember(s: string, m: Member, value: Json, before: map<string, Json>, next: string, rest: string)
    requires s == MemberText(m) + next && next == "}" + rest && IsMember(m) && FormValue(m.item.form) == value
    ensures AreMembers([m]) && s == MembersText([m]) + "}" + rest
    ensures before[m.key := value] == before + MembersValue([m])
  {
    hide MemberText, FormValue, IsMember;
    FirstMemberFirst(m, []);
    NoMembersValue();
    assert [m] + [] == [m];
  }

  lemma OneMoreMember(s: string, m: Member, value: Json, before: map<string, Json>, next: string, later: seq<Member>,
                      rest: string)
    requires s == MemberText(m) + next && IsMember(m) && FormValue(m.item.form) == value && AreMembers(later)
    requires next == "," + (MembersText(later) + "}" + rest)
    ensures AreMembers([m] + later) && s == MembersText([m] + later) + "}" + rest
    ensures before[m.key := value] + MembersValue(later) == before + MembersValue([m] + later)
  {
    hide MemberText, FormValue, IsMember, MembersValue;
    FirstMemberFirst(m, later);
    assert ([m] + later)[1..] == later;
    assert s == MemberText(m) + "," + MembersText(later) + "}" + rest;
  }

  lemma ItemIsMember(m: Member)
    requires AllBlank(m.before) && AllSpell(m.pieces, m.key) && AllBlank(m.afterKey)
    requires AllBlank(m.item.before) && IsForm(m.item.form) && AllBlank(m.item.after)
    ensures IsMember(m)
  {
    hide IsForm, AllBlank, AllSpell;
  }

  lemma MemberIsWritten(gap: string, s: string, m: Member, colon: string, text: string, next: string)
    requires s != "" && s[0] == '"' && m.before == gap && colon != "" && colon[0] == ':'
    requires s[1..] == Concat(m.pieces) + "\"" + (m.afterKey + colon)
    requires colon[1..] == m.item.before + text && text == FormText(m.item.form) + (m.item.after + next)
    ensures gap + s == MemberText(m) + next
  {
    var (a, item) := (Concat(m.pieces), ItemText(m.item));
    assert colon[1..] == item + next by {
      hide FormText;
      var b := FormText(m.item.form);
      assert m.item.before + (b + (m.item.after + next)) == m.item.before + b + m.item.after + next;
    }
    hide ItemText, Concat;
    assert s == "\"" + s[1..] && colon == ":" + colon[1..];
    assert gap + ("\"" + (a + "\"" + (m.afterKey + (":" + (item + next)))))
      == gap + "\"" + a + "\"" + m.afterKey + ":" + item + next;
  }

  // ---- What is written is read ----

  lemma {:induction false} FormStarts(f: Form)
    requires IsForm(f)
    ensures FormText(f) != "" && !IsBlank(FormText(f)[0]) && !IsClosing(FormText(f)[0])
  {
    hide IsItem, IsMember, ItemsText, MembersText, Concat, AllSpell;
    if f.Plain? {
      if f.value.Num? {
        NumberChars(f.value.number);
      }
      hide IsNumber;
    }
  }

  // After blanks and before a delimiter a number stops.
  lemma BlankStops(blank: string, rest: string)
    requires AllBlank(blank) && Stops(rest)
    ensures Stops(blank + rest)
  {
  }

  lemma QuotedIsRead(tail: string, text: string, rest: string)
    requires ReadString(tail) == Some((text, rest))
    ensures Read("\"" + tail) == Some((Str(text), rest))
  {
    hide ReadString;
    assert ("\"" + tail)[1..] == tail;
  }

  lemma EmptyIsRead(gap: string, rest: string)
    requires AllBlank(gap)
    ensures Read("[" + gap + "]" + rest) == Some((Arr([]), rest))
    ensures Read("{" + gap + "}" + rest) == Some((Obj(map[]), rest))
  {
    hide ReadItems, ReadMembers, ReadString, ReadNumber, Skip, AllBlank;
    var (list, braces) := ("]" + rest, "}" + rest);
    SkipIs(gap, list);
    SkipIs(gap, braces);
    assert list[1..] == rest && braces[1..] == rest;
    assert ("[" + gap + "]" + rest)[1..] == gap + list && ("{" + gap + "}" + rest)[1..] == gap + braces;
  }

  lemma BodyIsRead(body: string)
    requires Skip(body) != ""
    ensures Skip(body)[0] != ']' ==> Read("[" + body) == ReadItems(Skip(body), [])
    ensures Skip(body)[0] != '}' ==> Read("{" + body) == ReadMembers(Skip(body), map[])
  {
    hide ReadItems, ReadMembers, ReadString, ReadNumber, Skip;
    assert ("[" + body)[1..] == body && ("{" + body)[1..] == body;
  }

  lemma ItemStarts(item: Item, next: string)
    requires IsItem(item)
    ensures Skip(ItemText(item) + next) == FormText(item.form) + (item.after + next)
    ensures var s := Skip(ItemText(item) + next); s != "" && !IsClosing(s[0])
  {
    hide Skip, IsForm, FormText, AllBlank;
    FormStarts(item.form);
    var s := FormText(item.form) + (item.after + next);
    assert ItemText(item) + next == item.before + s && s[0] == FormText(item.form)[0];
    SkipIs(item.before, s);
  }

  // The text of items, ended.
  function Ended(items: seq<Item>, rest: string): string
    requires items != []
  {
    if |items| == 1 then "]" + rest else "," + ItemsText(items[1..]) + "]" + rest
  }

  lemma Rejoined(a: string, b: string, close: string, rest: string)
    ensures a + "," + b + close + rest == a + ("," + b + close + rest)
    ensures a + close + rest == a + (close + rest)
  {
  }

  lemma ItemsStart(items: seq<Item>, rest: string)
    requires items != []
    ensures ItemsText(items) + "]" + rest == ItemText(items[0]) + Ended(items, rest)
  {
    Rejoined(ItemText(items[0]), ItemsText(items[1..]), "]", rest);
    hide ItemText;
  }

  lemma EndedStops(items: seq<Item>, rest: string)
    requires items != []
    ensures Ended(items, rest) != "" && !IsBlank(Ended(items, rest)[0]) && Stops(Ended(items, rest))
  {
    hide ItemsText;
  }

  lemma ListStarts(items: seq<Item>, rest: string)
    requires AreItems(items)
    ensures var s := Skip(ItemsText(items) + "]" + rest); s != "" && s[0] != ']'
  {
    assert IsItem(items[0]);
    hide IsItem, ItemsText, ItemText, Ended, Skip, FormText;
    ItemsStart(items, rest);
    ItemStarts(items[0], Ended(items, rest));
  }

  lemma BracketsAreRead(text: string, rest: string, items: seq<Json>)
    requires var s := Skip(text + "]" + rest);
      s != "" && s[0] != ']' && ReadItems(s, []) == Some((Arr([] + items), rest))
    ensures Read("[" + text + "]" + rest) == Some((Arr(items), rest))
  {
    hide Read, ReadItems, Skip;
    BodyIsRead(text + "]" + rest);
    assert [] + items == items && "[" + text + "]" + rest == "[" + (text + "]" + rest);
  }

  lemma BracesAreRead(text: string, rest: string, members: map<string, Json>)
    requires var s := Skip(text + "}" + rest);
      s != "" && s[0] != '}' && ReadMembers(s, map[]) == Some((Obj(map[] + members), rest))
    ensures Read("{" + text + "}" + rest) == Some((Obj(members), rest))
  {
    hide Read, ReadMembers, Skip;
    BodyIsRead(text + "}" + rest);
    assert map[] + members == members && "{" + text + "}" + rest == "{" + (text + "}" + rest);
  }

  lemma ListIsRead(gap: string, items: seq<Item>, rest: string)
    requires AreItems(items)
    requires ReadItems(Skip(ItemsText(items) + "]" + rest), []) == Some((Arr([] + Values(items)), rest))
    ensures var f := Listed(gap, items); Read(FormText(f) + rest) == Some((FormValue(f), rest))
  {
    ListedValue(gap, items);
    ListStarts(items, rest);
    var (f, text) := (Listed(gap, items), ItemsText(items));
    assert FormText(f) == "[" + text + "]";
    hide Read, ReadItems, Skip, IsItem, ItemsText, FormText, FormValue, Values, AreItems;
    BracketsAreRead(text, rest, Values(items));
  }

  lemma ObjectStarts(members: seq<Member>, rest: string)
    requires AreMembers(members)
    ensures var s := Skip(MembersText(members) + "}" + rest); s != "" && s[0] != '}'
  {
    assert IsMember(members[0]);
    hide IsMember, MembersText, MemberText, Closed, Skip, Concat, AfterName;
    MembersStart(members, rest);
    MemberStarts(members[0], Closed(members, rest));
  }

  lemma ObjectIsRead(gap: string, members: seq<Member>, rest: string)
    requires AreMembers(members)
    requires ReadMembers(Skip(MembersText(members) + "}" + rest), map[])
      == Some((Obj(map[] + MembersValue(members)), rest))
    ensures var f := Braced(gap, members); Read(FormText(f) + rest) == Some((FormValue(f), rest))
  {
    ObjectStarts(members, rest);
    var (f, text, value) := (Braced(gap, members), MembersText(members), MembersValue(members));
    assert FormText(f) == "{" + text + "}" && FormValue(f) == Obj(value);
    hide Read, ReadMembers, Skip, IsMember, MembersText, MembersValue, FormText, FormValue, AreMembers;
    BracesAreRead(text, rest, value);
  }

  lemma EmptyFormIsRead(f: Form, rest: string)
    requires IsForm(f) && ((f.Listed? && f.items == []) || (f.Braced? && f.members == []))
    ensures Read(FormText(f) + rest) == Some((FormValue(f), rest))
  {
    NoMembersValue();
    hide Read, AllBlank;
    EmptyIsRead(f.gap, rest);
    assert Values([]) == [];
    ListedValue(f.gap, []);
  }

  lemma {:induction false} FormIsRead(f: Form, rest: string)
    requires IsForm(f) && Stops(rest)
    ensures Read(FormText(f) + rest) == Some((FormValue(f), rest))
    decreases f, 1
  {
    hide Read, ReadItems, ReadMembers, ReadString, IsItem, IsMember, AllSpell, Skip, ItemsText, MembersText, IsNumber,
         MembersValue, Concat, Stops, Values, AllBlank;
    match f
    case Plain(text, value) =>
      WordsReadBack(rest);
      if value.Num? {
        NumberReadsBack(value.number, rest);
      }
    case Quoted(pieces, text) =>
      SpelledStringIsRead(pieces, text, rest);
      QuotedIsRead(Concat(pieces) + "\"" + rest, text, rest);
      assert FormText(f) + rest == "\"" + (Concat(pieces) + "\"" + rest);
    case Listed(gap, items) =>
      if items == [] {
        EmptyFormIsRead(f, rest);
      } else {
        ItemsAreRead(items, [], rest);
        ListIsRead(gap, items, rest);
      }
    case Braced(gap, members) =>
      if members == [] {
        EmptyFormIsRead(f, rest);
      } else {
        MembersAreRead(members, map[], rest);
        ObjectIsRead(gap, members, rest);
      }
  }

  lemma NoMembersValue()
    ensures MembersValue([]) == map[]
  {
  }

  lemma OneItemIsRead(item: Item, next: string, before: seq<Json>)
    requires IsItem(item) && next != "" && !IsBlank(next[0])
    requires Read(FormText(item.form) + (item.after + next)) == Some((FormValue(item.form), item.after + next))
    ensures ReadItems(Skip(ItemText(item) + next), before) ==
      if next[0] == ']' then Some((Arr(before + [FormValue(item.form)]), next[1..]))
      else if next[0] == ',' then ReadItems(Skip(next[1..]), before + [FormValue(item.form)])
      else None
  {
    ItemStarts(item, next);
    SkipIs(item.after, next);
    hide Read, Skip, FormText, FormValue, IsForm, AllBlank;
  }

  lemma {:induction false} ItemsAreRead(items: seq<Item>, before: seq<Json>, rest: string)
    requires AreItems(items)
    ensures ReadItems(Skip(ItemsText(items) + "]" + rest), before) == Some((Arr(before + Values(items)), rest))
    decreases items, 0
  {
    hide Read, ReadItems, Skip, FormText, FormValue, IsForm, AllBlank, ItemText, Stops;
    var (item, next) := (items[0], Ended(items, rest));
    var value := FormValue(item.form);
    assert IsItem(item);
    ItemsStart(items, rest);
    EndedStops(items, rest);
    BlankStops(item.after, next);
    FormIsRead(item.form, item.after + next);
    OneItemIsRead(item, next, before);
    if |items| == 1 {
      assert next[1..] == rest && Values(items) == [value];
    } else {
      ItemsAreRead(items[1..], before + [value], rest);
      assert next[1..] == ItemsText(items[1..]) + "]" + rest;
      assert Values(items) == [value] + Values(items[1..]);
      assert before + [value] + Values(items[1..]) == before + ([value] + Values(items[1..]));
    }
  }

  // The text of members, ended.
  function Closed(members: seq<Member>, rest: string): string
    requires members != []
  {
    if |members| == 1 then "}" + rest else "," + MembersText(members[1..]) + "}" + rest
  }

  lemma MembersStart(members: seq<Member>, rest: string)
    requires members != []
    ensures MembersText(members) + "}" + rest == MemberText(members[0]) + Closed(members, rest)
  {
    Rejoined(MemberText(members[0]), MembersText(members[1..]), "}", rest);
    hide MemberText;
  }

  lemma ClosedStops(members: seq<Member>, rest: string)
    requires members != []
    ensures Closed(members, rest) != "" && !IsBlank(Closed(members, rest)[0]) && Stops(Closed(members, rest))
  {
    hide MembersText;
  }

  // What follows the name of a member.
  function AfterName(m: Member, next: string): string {
    m.afterKey + (":" + (ItemText(m.item) + next))
  }

  lemma MemberStarts(m: Member, next: string)
    requires IsMember(m)
    ensures Skip(MemberText(m) + next) == "\"" + (Concat(m.pieces) + "\"" + AfterName(m, next))
    ensures Skip(MemberText(m) + next)[0] == '"'
  {
    hide Skip, AllBlank, Concat, ItemText, IsItem, AllSpell;
    var s := "\"" + (Concat(m.pieces) + "\"" + AfterName(m, next));
    assert MemberText(m) + next == m.before + s;
    SkipIs(m.before, s);
  }

  lemma OneMemberIsRead(m: Member, next: string, before: map<string, Json>)
    requires IsMember(m) && next != "" && !IsBlank(next[0])
    requires var i := m.item; Read(FormText(i.form) + (i.after + next)) == Some((FormValue(i.form), i.after + next))
    ensures ReadMembers(Skip(MemberText(m) + next), before) ==
      if next[0] == '}' then Some((Obj(before[m.key := FormValue(m.item.form)]), next[1..]))
      else if next[0] == ',' then ReadMembers(Skip(next[1..]), before[m.key := FormValue(m.item.form)])
      else None
  {
    MemberStarts(m, next);
    SpelledStringIsRead(m.pieces, m.key, AfterName(m, next));
    var colon := ":" + (ItemText(m.item) + next);
    SkipIs(m.afterKey, colon);
    ItemStarts(m.item, next);
    SkipIs(m.item.after, next);
    hide Read, Skip, FormText, FormValue, IsForm, AllBlank, ReadString, Concat, ItemText, MemberText, AllSpell;
    var s := "\"" + (Concat(m.pieces) + "\"" + AfterName(m, next));
    assert s[1..] == Concat(m.pieces) + "\"" + AfterName(m, next);
    assert colon[1..] == ItemText(m.item) + next;
  }

  lemma {:induction false} MembersAreRead(members: seq<Member>, before: map<string, Json>, rest: string)
    requires AreMembers(members)
    ensures ReadMembers(Skip(MembersText(members) + "}" + rest), before)
      == Some((Obj(before + MembersValue(members)), rest))
    decreases members, 0
  {
    hide Read, ReadMembers, Skip, FormText, FormValue, IsForm, AllBlank, MemberText, ItemText, Stops, AllSpell,
         MembersText, MembersValue;
    var (m, next) := (members[0], Closed(members, rest));
    var value := FormValue(m.item.form);
    assert IsMember(m) && IsItem(m.item);
    MembersStart(members, rest);
    ClosedStops(members, rest);
    BlankStops(m.item.after, next);
    FormIsRead(m.item.form, m.item.after + next);
    OneMemberIsRead(m, next, before);
    AddedMembers(members, before);
    if |members| == 1 {
      assert next[1..] == rest;
    } else {
      MembersAreRead(members[1..], before[m.key := value], rest);
      assert next[1..] == MembersText(members[1..]) + "}" + rest;
    }
  }

  lemma MapsAdd(before: map<string, Json>, key: string, value: Json, later: map<string, Json>)
    ensures before[key := value] + later == before + (map[key := value] + later)
    ensures before[key := value] == before + (map[key := value] + map[])
  {
  }

  lemma AddedMembers(members: seq<Member>, before: map<string, Json>)
    requires members != []
    ensures before[members[0].key := FormValue(members[0].item.form)] + MembersValue(members[1..])
      == before + MembersValue(members)
    ensures |members| == 1 ==>
      before[members[0].key := FormValue(members[0].item.form)] == before + MembersValue(members)
  {
    NoMembersValue();
    hide FormValue, MembersValue;
    var (m, later) := (members[0], members[1..]);
    assert members == [m] + later && (|members| == 1 ==> later == []);
    FirstMemberFirst(m, later);
    MapsAdd(before, m.key, FormValue(m.item.form), MembersValue(later));
  }

  // The text is a way of writing the value, with blanks around it.
  ghost predicate IsTextOf(text: string, j: Json) {
    exists f, before, after ::
      IsForm(f) && AllBlank(before) && AllBlank(after) && text == before + FormText(f) + after && FormValue(f) == j
  }

  // `json.loads` takes exactly the texts of the grammar, each for the value that it is a way of
  // writing.
  lemma LoadsIsExact(text: string, j: Json)
    ensures Loads(text) == Some(j) <==> IsTextOf(text, j)
  {
    hide Read, IsForm, FormText, FormValue, Skip, AllBlank;
    if Loads(text) == Some(j) {
      var before := SkipsBlanks(text);
      var f := ReadIsWritten(Skip(text));
      var rest := Read(Skip(text)).value.1;
      var after := SkipsBlanks(rest);
      assert text == before + FormText(f) + after && IsForm(f);
    }
    if IsTextOf(text, j) {
      var f, before, after :| IsForm(f) && AllBlank(before) && AllBlank(after) &&
        text == before + FormText(f) + after && FormValue(f) == j;
      FormStarts(f);
      assert text == before + (FormText(f) + after);
      SkipIs(before, FormText(f) + after);
      BlankStops(after, "");
      assert after + "" == after;
      FormIsRead(f, after);
      SkipIs(after, "");
    }
  }

  // ---- The one way in which `json.dumps` writes a value ----

  predicate IsSmallHex(digits: string) {
    forall i :: 0 <= i < |digits| ==> '0' <= digits[i] <= '9' || 'a' <= digits[i] <= 'f'
  }

  // Two characters where there is such a way but for `/`, else the code in small hexadecimal digits for
  // what is no printable ASCII character, or only for control characters, else the character itself.
  ghost predicate IsSpelling(piece: string, c: char, ascii: bool) {
    if HasEscape(c) then IsEscape(piece, c)
    else if c < ' ' || (ascii && c > '~') then
      if c as int < 0x10000 then IsCodePoint(piece, c) && IsSmallHex(piece[2..])
      else IsPair(piece, c) && IsSmallHex(piece[2..6]) && IsSmallHex(piece[8..])
    else piece == [c]
  }

  predicate HasEscape(c: char) {
    c == '"' || c == '\\' || c == '\n' || c == '\r' || c == '\t' || c == 12 as char || c == 8 as char
  }

  ghost predicate AreSpellings(pieces: seq<string>, text: string, ascii: bool) {
    |pieces| == |text| && forall i :: 0 <= i < |text| ==> IsSpelling(pieces[i], text[i], ascii)
  }

  // Without blanks, and with the members by increasing keys.
  ghost predicate IsCompact(f: Form, ascii: bool)
    decreases f
  {
    match f
    case Plain(_, _) => true
    case Quoted(pieces, text) => AreSpellings(pieces, text, ascii)
    case Listed(gap, items) => gap == "" && forall i :: 0 <= i < |items| ==> IsCompactItem(items[i], ascii)
    case Braced(gap, members) =>
      && gap == "" && (forall i :: 0 <= i < |members| ==> IsCompactMember(members[i], ascii))
      && forall i, j :: 0 <= i < j < |members| ==> Less(members[i].key, members[j].key)
  }

  ghost predicate IsCompactItem(i: Item, ascii: bool)
    decreases i
  {
    i.before == "" && i.after == "" && IsCompact(i.form, ascii)
  }

  ghost predicate IsCompactMember(m: Member, ascii: bool)
    decreases m
  {
    m.before == "" && m.afterKey == "" && AreSpellings(m.pieces, m.key, ascii) && IsCompactItem(m.item, ascii)
  }

  lemma HexDigitIsSmall(n: nat)
    requires n < 16
    ensures IsHexDigit(HexDigit(n), n) && ('0' <= HexDigit(n) <= '9' || 'a' <= HexDigit(n) <= 'f')
  {
    HexReadsBack(n);
    HexIsExact(HexDigit(n), n);
  }

  lemma Hex4IsSmall(n: nat)
    requires n < 0x10000
    ensures |Hex4(n)| == 4 && IsHex4(Hex4(n), n) && IsSmallHex(Hex4(n))
  {
    SplitCombines(n);
    HexDigitIsSmall(n / 16 / 16 / 16);
    HexDigitIsSmall(n / 16 / 16 % 16);
    HexDigitIsSmall(n / 16 % 16);
    HexDigitIsSmall(n % 16);
    hide IsHexDigit, HexDigit;
    assert n / 16 / 16 == n / 256 && n / 16 / 16 / 16 == n / 4096;
  }

  lemma EscapeIsShort(c: char, ascii: bool)
    ensures if HasEscape(c) then IsEscape(Escape(c, ascii), c)
      else Escape(c, ascii) == if c < ' ' || (ascii && c > '~') then "\\u" + UnicodeDigits(c) else [c]
  {
  }

  lemma CodeIsSpelled(c: char)
    ensures var piece := "\\u" + UnicodeDigits(c);
      if c as int < 0x10000 then IsCodePoint(piece, c) && IsSmallHex(piece[2..])
      else IsPair(piece, c) && IsSmallHex(piece[2..6]) && IsSmallHex(piece[8..])
  {
    hide IsPair, Hex4, IsHex4, IsSmallHex;
    var n := c as int;
    if n < 0x10000 {
      Hex4IsSmall(n);
      assert ("\\u" + Hex4(n))[2..] == Hex4(n);
    } else {
      var (high, low) := (0xD800 + (n - 0x10000) / 0x400, 0xDC00 + (n - 0x10000) % 0x400);
      Hex4IsSmall(high);
      Hex4IsSmall(low);
      PairIsSpelled(c, high, low);
    }
  }

  lemma EscapeIsExact(c: char, ascii: bool)
    ensures IsSpelling(Escape(c, ascii), c, ascii)
  {
    EscapeIsShort(c, ascii);
    CodeIsSpelled(c);
    hide HasEscape, IsEscape, IsPair, IsCodePoint, IsSmallHex, UnicodeDigits, Escape;
  }

  lemma PairIsSpelled(c: char, high: nat, low: nat)
    requires 0xD800 <= high < 0xDC00 && 0xDC00 <= low < 0xE000
    requires c as int == 0x10000 + (high - 0xD800) * 0x400 + (low - 0xDC00)
    requires |Hex4(high)| == 4 && |Hex4(low)| == 4 && IsHex4(Hex4(high), high) && IsHex4(Hex4(low), low)
    ensures var piece := "\\u" + (Hex4(high) + "\\u" + Hex4(low));
      IsPair(piece, c) && piece[2..6] == Hex4(high) && piece[8..] == Hex4(low)
  {
    hide Hex4, IsHex4;
    var piece := "\\u" + (Hex4(high) + "\\u" + Hex4(low));
    assert piece[2..6] == Hex4(high) && piece[6..8] == "\\u" && piece[8..] == Hex4(low);
  }

  lemma {:induction false} SpellingsOf(text: string, ascii: bool) returns (pieces: seq<string>)
    ensures AreSpellings(pieces, text, ascii) && Concat(pieces) == StringBody(text, ascii)
  {
    hide IsSpelling, Escape;
    pieces := [];
    if text != "" {
      EscapeIsExact(text[0], ascii);
      var later := SpellingsOf(text[1..], ascii);
      pieces := [Escape(text[0], ascii)] + later;
      assert pieces[1..] == later;
    }
  }

  lemma {:induction false} SpellingsSpell(pieces: seq<string>, text: string, ascii: bool)
    requires AreSpellings(pieces, text, ascii)
    ensures AllSpell(pieces, text)
  {
    hide IsEscape, IsCodePoint, IsPair, IsSmallHex;
  }

  ghost predicate AreCompactItems(written: seq<Item>, ascii: bool) {
    forall i :: 0 <= i < |written| ==> IsItem(written[i]) && IsCompactItem(written[i], ascii)
  }

  ghost predicate AreCompactMembers(written: seq<Member>, keys: seq<string>, ascii: bool) {
    |written| == |keys| &&
    forall i :: 0 <= i < |written| ==>
      IsMember(written[i]) && IsCompactMember(written[i], ascii) && written[i].key == keys[i]
  }

  // A value is written in exactly one way: without blanks, members by increasing keys, characters as
  // above.
  lemma {:induction false} PrintIsCompact(j: Json, ascii: bool) returns (f: Form)
    ensures IsForm(f) && IsCompact(f, ascii) && FormText(f) == Print(j, ascii) && FormValue(f) == j
    decreases j, 1
  {
    hide AreSpellings, AllSpell, PrintItems, PrintMembers, IsItem, IsMember, IsCompactItem, IsCompactMember,
         ItemsText, MembersText, MembersValue, StringBody, Concat, Less;
    match j
    case Str(text) =>
      var pieces := SpellingsOf(text, ascii);
      SpellingsSpell(pieces, text, ascii);
      f := Quoted(pieces, text);
    case Arr(items) =>
      var written := ItemsAreCompact(items, ascii);
      f := Listed("", written);
      ListedValue("", written);
      ListIsCompact(written, items, ascii);
    case Obj(members) =>
      var keys := Sorted(members.Keys);
      var written := MembersAreCompact(j, keys, ascii);
      f := Braced("", written);
      ObjectIsCompact(written, j, keys, ascii);
    case _ => f := Plain(Print(j, ascii), j);
  }

  lemma ListIsCompact(written: seq<Item>, items: seq<Json>, ascii: bool)
    requires AreCompactItems(written, ascii) && ItemsText(written) == PrintItems(items, ascii)
    requires |written| == |items|
    ensures var f := Listed("", written);
      IsForm(f) && IsCompact(f, ascii) && FormText(f) == Print(Arr(items), ascii)
  {
    hide IsItem, IsCompactItem, ItemsText, PrintItems;
    if items == [] {
      NothingIsPrinted();
    }
  }

  lemma NothingIsPrinted()
    ensures forall ascii :: PrintItems([], ascii) == ""
    ensures forall j: Json, ascii :: j.Obj? ==> PrintMembers(j, [], ascii) == ""
    ensures ItemsText([]) == "" && MembersText([]) == ""
  {
  }

  lemma ObjectIsCompact(written: seq<Member>, j: Json, keys: seq<string>, ascii: bool)
    requires j.Obj? && keys == Sorted(j.members.Keys) && AreCompactMembers(written, keys, ascii)
    requires MembersText(written) == PrintMembers(j, keys, ascii)
    requires MembersValue(written) == Restrict(j.members, keys)
    ensures var f := Braced("", written);
      IsForm(f) && IsCompact(f, ascii) && FormText(f) == Print(j, ascii) && FormValue(f) == j
  {
    hide IsMember, IsCompactMember, MembersText, PrintMembers, MembersValue, Less, Sorted;
    assert Restrict(j.members, keys) == j.members;
    if written == [] {
      NothingIsPrinted();
    }
  }

  lemma {:induction false} ItemsAreCompact(items: seq<Json>, ascii: bool) returns (written: seq<Item>)
    ensures |written| == |items| && AreCompactItems(written, ascii) && Values(written) == items
    ensures ItemsText(written) == PrintItems(items, ascii)
    decreases items, 0
  {
    hide IsForm, IsCompact, FormText, FormValue, Print;
    written := [];
    if items == [] {
      NothingIsPrinted();
    } else {
      var f := PrintIsCompact(items[0], ascii);
      var item := Item("", f, "");
      assert ItemText(item) == FormText(f) by {
        assert "" + FormText(f) + "" == FormText(f);
      }
      var later := ItemsAreCompact(items[1..], ascii);
      written := [item] + later;
      assert written[1..] == later && Values(written) == [items[0]] + Values(later);
      assert items == [items[0]] + items[1..];
      hide ItemText, Values, IsItem, IsCompactItem;
    }
  }

  lemma {:induction false} MembersAreCompact(j: Json, keys: seq<string>, ascii: bool) returns (written: seq<Member>)
    requires j.Obj? && forall k <- keys :: k in j.members
    ensures AreCompactMembers(written, keys, ascii) && MembersValue(written) == Restrict(j.members, keys)
    ensures MembersText(written) == PrintMembers(j, keys, ascii)
    decreases j, 0, |keys|
  {
    hide IsForm, IsCompact, FormText, FormValue, Print, MembersValue, StringBody, AreSpellings, AllSpell, Concat,
         MemberText, PrintMembers, MembersText, ItemText, IsMember, IsCompactMember;
    written := [];
    if keys == [] {
      NothingIsPrinted();
      NoMembersValue();
      assert Restrict(j.members, keys) == map[];
    } else {
      var key, value := keys[0], j.members[keys[0]];
      var pieces := SpellingsOf(key, ascii);
      SpellingsSpell(pieces, key, ascii);
      var f := PrintIsCompact(value, ascii);
      var m := Member("", pieces, key, "", Item("", f, ""));
      var later := MembersAreCompact(j, keys[1..], ascii);
      written := [m] + later;
      CompactIsMember(m, ascii);
      FirstMemberFirst(m, later);
      assert map[key := value] + Restrict(j.members, keys[1..]) == Restrict(j.members, keys);
      MemberIsPrinted(m, later, j, keys, ascii);
    }
  }

  lemma CompactIsMember(m: Member, ascii: bool)
    requires m.before == "" && m.afterKey == "" && m.item.before == "" && m.item.after == ""
    requires AllSpell(m.pieces, m.key) && AreSpellings(m.pieces, m.key, ascii)
    requires IsForm(m.item.form) && IsCompact(m.item.form, ascii)
    ensures IsMember(m) && IsCompactMember(m, ascii)
  {
    hide IsForm, IsCompact, AllSpell, AreSpellings;
  }

  lemma MemberIsPrinted(m: Member, later: seq<Member>, j: Json, keys: seq<string>, ascii: bool)
    requires keys != [] && j.Obj? && (forall k <- keys :: k in j.members) && |later| == |keys| - 1
    requires m.before == "" && m.afterKey == "" && m.item.before == "" && m.item.after == ""
    requires Concat(m.pieces) == StringBody(keys[0], ascii)
    requires FormText(m.item.form) == Print(j.members[keys[0]], ascii)
    requires MembersText(later) == PrintMembers(j, keys[1..], ascii)
    ensures MembersText([m] + later) == PrintMembers(j, keys, ascii)
  {
    var first := Quote(keys[0], ascii) + ":" + Print(j.members[keys[0]], ascii);
    CompactMember(m);
    assert MemberText(m) == first;
    hide FormText, Print, Concat, StringBody, MemberText, Quote;
    var members := [m] + later;
    assert members[0] == m && members[1..] == later;
    if |keys| == 1 {
      assert first + "" == first;
    } else {
      hide MembersText, PrintMembers;
      MoreMembers(members, j, keys, ascii, first);
    }
  }

  lemma MoreMembers(members: seq<Member>, j: Json, keys: seq<string>, ascii: bool, first: string)
    requires |members| == |keys| > 1 && j.Obj? && (forall k <- keys :: k in j.members)
    requires MemberText(members[0]) == first == Quote(keys[0], ascii) + ":" + Print(j.members[keys[0]], ascii)
    requires MembersText(members[1..]) == PrintMembers(j, keys[1..], ascii)
    ensures MembersText(members) == PrintMembers(j, keys, ascii)
  {
    hide Print, MemberText, Quote;
    var rest := MembersText(members[1..]);
    assert first + ("," + rest) == first + "," + rest;
  }

  lemma CompactMember(m: Member)
    requires m.before == "" && m.afterKey == "" && m.item.before == "" && m.item.after == ""
    ensures MemberText(m) == "\"" + Concat(m.pieces) + "\"" + ":" + FormText(m.item.form)
  {
    var (a, b) := (Concat(m.pieces), FormText(m.item.form));
    assert ItemText(m.item) == b by {
      hide FormText;
      assert "" + b + "" == b;
    }
    hide FormText, Concat, ItemText;
    assert "" + "\"" + a + "\"" + "" + ":" + b == "\"" + a + "\"" + ":" + b;
  }
}
