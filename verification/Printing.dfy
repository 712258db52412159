// Where a value occurs in printed JSON.
module Printing {
  import opened Text
  import opened Json

  // The characters that JSON puts around names and values.
  const STRUCTURE: set<char> := {'"', '{', '}', '[', ']', ',', ':'}

  predicate HasNoStructure(v: string) {
    v != "" && forall c <- v :: c !in STRUCTURE
  }

  // No name, string, number or word, as it is printed, holds v.
  predicate PrintsNo(j: Json, v: string, ascii: bool) {
    match j
    case Null => !Contains("null", v)
    case Bool(b) => !Contains(if b then "true" else "false", v)
    case Num(n) => !Contains(n, v)
    case Str(s) => !Contains(StringBody(s, ascii), v)
    case Arr(items) => forall i :: 0 <= i < |items| ==> PrintsNo(items[i], v, ascii)
    case Obj(members) =>
      forall k <- members :: !Contains(StringBody(k, ascii), v) && PrintsNo(members[k], v, ascii)
  }

  lemma ContainsAt(text: string, i: nat, v: string)
    requires i + |v| <= |text| && text[i..i + |v|] == v
    ensures Contains(text, v)
  {
    assert text[i..][..|v|] == v;
  }

  lemma WhereContained(text: string, v: string) returns (i: nat)
    requires Contains(text, v)
    ensures i + |v| <= |text| && text[i..i + |v|] == v
  {
    i :| 0 <= i <= |text| && StartsWith(text[i..], v);
    assert text[i..][..|v|] == text[i..i + |v|];
  }

  // Nothing reaches across a character that it does not hold.
  lemma AcrossNothing(a: string, d: char, b: string, v: string)
    requires v != "" && d !in v
    ensures Contains(a + [d] + b, v) <==> Contains(a, v) || Contains(b, v)
  {
    hide Contains;
    var text := a + [d] + b;
    assert text[|a|] == d && text[..|a|] == a && text[|a| + 1..] == b;
    if Contains(text, v) {
      var i := WhereContained(text, v);
      if i + |v| <= |a| {
        assert text[i..i + |v|] == a[i..i + |v|];
        ContainsAt(a, i, v);
      } else {
        var j := i - |a| - 1;
        assert text[i..i + |v|] == b[j..j + |v|];
        ContainsAt(b, j, v);
      }
    }
    if Contains(a, v) {
      var i := WhereContained(a, v);
      assert text[i..i + |v|] == text[..|a|][i..i + |v|];
      ContainsAt(text, i, v);
    }
    if Contains(b, v) {
      var i := WhereContained(b, v);
      var j := |a| + 1 + i;
      assert text[j..j + |v|] == text[|a| + 1..][i..i + |v|];
      ContainsAt(text, j, v);
    }
  }

  lemma NothingInNothing(v: string)
    requires v != ""
    ensures !Contains("", v)
  {
  }

  lemma Enclosed(a: char, text: string, b: char, v: string)
    requires v != "" && a !in v && b !in v
    ensures Contains([a] + text + [b], v) <==> Contains(text, v)
  {
    hide Contains;
    assert [a] + text + [b] == "" + [a] + (text + [b]);
    AcrossNothing("", a, text + [b], v);
    assert text + [b] == text + [b] + "";
    AcrossNothing(text, b, "", v);
    NothingInNothing(v);
  }

  lemma Quoted(s: string, ascii: bool, v: string)
    requires HasNoStructure(v)
    ensures Contains(Quote(s, ascii), v) <==> Contains(StringBody(s, ascii), v)
  {
    hide Contains, StringBody;
    Enclosed('"', StringBody(s, ascii), '"', v);
  }

  lemma AcrossComma(a: string, b: string, v: string)
    requires HasNoStructure(v)
    ensures Contains(a + "," + b, v) <==> Contains(a, v) || Contains(b, v)
  {
    AcrossNothing(a, ',', b, v);
  }

  lemma {:induction false} ItemsPrintExactly(items: seq<Json>, v: string, ascii: bool)
    requires HasNoStructure(v)
    ensures Contains(PrintItems(items, ascii), v) <==> !PrintsNo(Arr(items), v, ascii)
    decreases items, 0
  {
    assert v != "";
    hide Contains, HasNoStructure, Print;
    if items == [] {
      NothingInNothing(v);
    } else {
      PrintsExactly(items[0], v, ascii);
      if |items| > 1 {
        ItemsPrintExactly(items[1..], v, ascii);
        AcrossComma(Print(items[0], ascii), PrintItems(items[1..], ascii), v);
      }
    }
  }

  lemma AcrossColon(a: string, b: string, v: string)
    requires HasNoStructure(v)
    ensures Contains(a + ":" + b, v) <==> Contains(a, v) || Contains(b, v)
  {
    AcrossNothing(a, ':', b, v);
  }

  predicate MembersPrintNo(j: Json, keys: seq<string>, v: string, ascii: bool)
    requires j.Obj? && forall k <- keys :: k in j.members
  {
    forall k <- keys :: !Contains(StringBody(k, ascii), v) && PrintsNo(j.members[k], v, ascii)
  }

  lemma FirstMemberPrintsNo(j: Json, keys: seq<string>, v: string, ascii: bool)
    requires keys != [] && j.Obj? && forall k <- keys :: k in j.members
    ensures MembersPrintNo(j, keys, v, ascii) <==>
      !Contains(StringBody(keys[0], ascii), v) && PrintsNo(j.members[keys[0]], v, ascii) &&
      MembersPrintNo(j, keys[1..], v, ascii)
  {
    hide Contains, StringBody, PrintsNo;
    assert keys == [keys[0]] + keys[1..];
  }

  function FirstMember(j: Json, k: string, ascii: bool): string
    requires j.Obj? && k in j.members
  {
    Quote(k, ascii) + ":" + Print(j.members[k], ascii)
  }

  lemma PrintMembersStep(j: Json, keys: seq<string>, ascii: bool)
    requires keys != [] && j.Obj? && forall k <- keys :: k in j.members
    ensures PrintMembers(j, keys, ascii)
      == if |keys| == 1 then FirstMember(j, keys[0], ascii)
        else FirstMember(j, keys[0], ascii) + "," + PrintMembers(j, keys[1..], ascii)
  {
    hide Print, Quote;
    var first := FirstMember(j, keys[0], ascii);
    assert first + "" == first;
    assert first + ("," + PrintMembers(j, keys[1..], ascii)) == first + "," + PrintMembers(j, keys[1..], ascii);
  }

  lemma FirstMemberPrints(j: Json, k: string, v: string, ascii: bool)
    requires HasNoStructure(v) && j.Obj? && k in j.members
    ensures Contains(FirstMember(j, k, ascii), v) <==>
      Contains(StringBody(k, ascii), v) || Contains(Print(j.members[k], ascii), v)
  {
    hide Contains, HasNoStructure, Print, Quote, StringBody;
    Quoted(k, ascii, v);
    AcrossColon(Quote(k, ascii), Print(j.members[k], ascii), v);
  }

  lemma {:induction false} MembersPrintExactly(j: Json, keys: seq<string>, v: string, ascii: bool)
    requires HasNoStructure(v) && j.Obj? && forall k <- keys :: k in j.members
    ensures Contains(PrintMembers(j, keys, ascii), v) <==> !MembersPrintNo(j, keys, v, ascii)
    decreases j, 0, |keys|
  {
    assert v != "";
    hide Contains, HasNoStructure, Print, FirstMember, StringBody, PrintsNo;
    if keys == [] {
      NothingInNothing(v);
    } else {
      PrintsExactly(j.members[keys[0]], v, ascii);
      FirstMemberPrints(j, keys[0], v, ascii);
      PrintMembersStep(j, keys, ascii);
      hide PrintMembers;
      if |keys| == 1 {
        assert keys == [keys[0]];
      } else {
        MembersPrintExactly(j, keys[1..], v, ascii);
        AcrossComma(FirstMember(j, keys[0], ascii), PrintMembers(j, keys[1..], ascii), v);
        FirstMemberPrintsNo(j, keys, v, ascii);
        hide MembersPrintNo;
      }
    }
  }

  // A value without structural characters is in printed JSON exactly when a name, string, number
  // or word in it, as it is printed, holds it.
  lemma {:induction false} PrintsExactly(j: Json, v: string, ascii: bool)
    requires HasNoStructure(v)
    ensures Contains(Print(j, ascii), v) <==> !PrintsNo(j, v, ascii)
    decreases j, 1
  {
    hide Contains, StringBody;
    match j
    case Str(s) => Quoted(s, ascii, v);
    case Arr(items) =>
      ItemsPrintExactly(items, v, ascii);
      Enclosed('[', PrintItems(items, ascii), ']', v);
    case Obj(members) =>
      var keys := Sorted(members.Keys);
      MembersPrintExactly(j, keys, v, ascii);
      Enclosed('{', PrintMembers(j, keys, ascii), '}', v);
      assert forall k :: k in keys <==> k in members;
    case _ =>
  }

  // ---- Strings that are printed as they are ----

  predicate IsUnescaped(s: string) {
    forall c <- s :: ' ' <= c <= '~' && c != '"' && c != '\\'
  }

  lemma NotEscaped(c: char)
    requires ' ' <= c <= '~' && c != '"' && c != '\\'
    ensures Escape(c, true) == [c]
  {
  }

  lemma {:induction false} UnescapedIsItself(s: string)
    requires IsUnescaped(s)
    ensures StringBody(s, true) == s
  {
    hide Escape;
    if s != "" {
      assert s == [s[0]] + s[1..] && s[0] in s;
      assert forall c :: c in s[1..] ==> c in s;
      NotEscaped(s[0]);
      UnescapedIsItself(s[1..]);
    }
  }
}
