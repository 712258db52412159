// Removing sensitive values and private keys from what leaves the agent service.
module Redaction {
  import opened Wrappers
  import opened Text
  import opened Json

  const MARKER: string := "[REDACTED]"

  // `text.replace(value, MARKER)`: the occurrences found from left to right.
  function Replace(text: string, value: string): string
    requires value != ""
    decreases |text|
  {
    if text == "" then ""
    else if StartsWith(text, value) then MARKER + Replace(text[|value|..], value)
    else [text[0]] + Replace(text[1..], value)
  }

  // The values in the order in which the set happens to be visited.
  function ReplaceAll(text: string, values: seq<string>): string
    requires "" !in values
  {
    if values == [] then text
    else
      assert values[|values| - 1] in values;
      Replace(ReplaceAll(text, values[..|values| - 1]), values[|values| - 1])
  }

  method RedactSensitiveText(text: string, sensitive: set<string>) returns (redacted: string, ghost order: seq<string>)
    requires "" !in sensitive
    ensures "" !in order && (forall v :: v in order <==> v in sensitive)
    ensures redacted == ReplaceAll(text, order)
    ensures forall v :: v in sensitive && (IsRedactable(v) || (sensitive == {v} && !SurvivesAlone(v))) ==>
      !Contains(redacted, v)
  {
    redacted, order := text, [];
    var rest := sensitive;
    while rest != {}
      invariant rest <= sensitive && "" !in order
      invariant forall v :: v in order <==> v in sensitive - rest
      invariant redacted == ReplaceAll(text, order)
      decreases rest
    {
      var v :| v in rest;
      assert (order + [v])[..|order|] == order;
      redacted, order, rest := Replace(redacted, v), order + [v], rest - {v};
    }
    hide IsRedactable, SurvivesAlone, Contains, ReplaceAll;
    forall v | v in sensitive && (IsRedactable(v) || (sensitive == {v} && !SurvivesAlone(v)))
      ensures !Contains(redacted, v)
    {
      RemovedTextIsClean(text, order, v);
    }
  }

  // The last k characters of the value are the first of the marker.
  predicate RunsInto(v: string, k: nat) {
    0 < k < |v| && k < |MARKER| && v[|v| - k..] == MARKER[..k]
  }

  // The first k characters of the value are the last of the marker.
  predicate RunsOutOf(v: string, k: nat) {
    0 < k < |v| && k < |MARKER| && v[..k] == MARKER[|MARKER| - k..]
  }

  // The value and the marker can share characters: one is inside the other, or they overlap.
  predicate MeetsMarker(v: string) {
    Contains(MARKER, v) || Contains(v, MARKER) || exists k: nat | k < |v| :: RunsInto(v, k) || RunsOutOf(v, k)
  }

  predicate IsRedactable(v: string) {
    v != "" && !MeetsMarker(v)
  }

  lemma MarkerAtTheEnd(p: string, u: string, rest: string)
    requires u != "" && StartsWith(MARKER + rest, u)
    ensures MeetsMarker(p + u)
  {
    var v, n := p + u, |MARKER|;
    assert (MARKER + rest)[..|u|] == u;
    if |u| >= n {
      assert v[|p|..][..n] == MARKER;
    } else if p == "" {
      assert v == u && MARKER[0..][..|u|] == u;
    } else {
      assert v[|v| - |u|..] == u && MARKER[..|u|] == u;
      assert RunsInto(v, |u|);
    }
  }

  lemma {:induction false} PrefixSurvives(text: string, value: string, p: string, u: string)
    requires value != "" && !MeetsMarker(p + u) && StartsWith(Replace(text, value), u)
    ensures StartsWith(text, u)
    decreases |text|
  {
    hide MeetsMarker, MARKER;
    if u != "" {
      var out := Replace(text, value);
      assert out[0] == u[0];
      if StartsWith(text, value) {
        MarkerAtTheEnd(p, u, Replace(text[|value|..], value));
      } else {
        assert out[1..] == Replace(text[1..], value);
        assert out[1..][..|u| - 1] == u[1..];
        assert p + u == (p + [u[0]]) + u[1..];
        PrefixSurvives(text[1..], value, p + [u[0]], u[1..]);
        assert text == [text[0]] + text[1..] && u == [u[0]] + u[1..];
      }
    }
  }

  lemma StartsWithAt(text: string, j: nat, v: string)
    requires j <= |text| && StartsWith(text[j..], v)
    ensures j + |v| <= |text| && forall k :: 0 <= k < |v| ==> text[j + k] == v[k]
    ensures v != "" ==> text[j + |v| - 1] == v[|v| - 1]
  {
    assert text[j..][..|v|] == v;
    assert forall k :: 0 <= k < |v| ==> text[j + k] == text[j..][..|v|][k];
  }

  lemma StartingInTheMarkerMeetsIt(rest: string, v: string, i: nat)
    requires v != "" && i < |MARKER| && StartsWith((MARKER + rest)[i..], v)
    ensures MeetsMarker(v)
  {
    hide MARKER, StartsWith;
    var n := |MARKER|;
    StartsWithAt(MARKER + rest, i, v);
    assert forall k :: 0 <= k < |v| && i + k < n ==> v[k] == MARKER[i + k];
    if i + |v| <= n {
      PartStartsThere(MARKER, v, i);
    } else if i == 0 {
      PartStartsThere(v, MARKER, 0);
    } else {
      assert v[..n - i] == MARKER[i..];
      assert RunsOutOf(v, n - i);
    }
  }

  lemma PartStartsThere(text: string, part: string, i: nat)
    requires i + |part| <= |text| && forall k :: 0 <= k < |part| ==> part[k] == text[i + k]
    ensures Contains(text, part)
  {
    assert text[i..][..|part|] == part;
  }

  lemma ContainsTail(text: string, i: nat, v: string)
    requires i <= |text| && Contains(text[i..], v)
    ensures Contains(text, v)
  {
    var k :| 0 <= k <= |text[i..]| && StartsWith(text[i..][k..], v);
    assert text[i..][k..] == text[i + k..];
  }

  // Replacing any value brings back no redactable one, and removes its own.
  lemma {:induction false} ReplaceKeepsClean(text: string, value: string, v: string)
    requires value != "" && IsRedactable(v)
    requires v == value || !Contains(text, v)
    ensures !Contains(Replace(text, value), v)
    decreases |text|
  {
    hide MeetsMarker, MARKER;
    var out := Replace(text, value);
    forall i | 0 <= i <= |out| ensures !StartsWith(out[i..], v) {
      if text != "" && StartsWith(text, value) {
        var rest := text[|value|..];
        if StartsWith(out[i..], v) {
          if i < |MARKER| {
            StartingInTheMarkerMeetsIt(Replace(rest, value), v, i);
          }
          assert out[i..] == Replace(rest, value)[i - |MARKER|..];
          if Contains(rest, v) {
            ContainsTail(text, |value|, v);
          }
          ReplaceKeepsClean(rest, value, v);
        }
      } else if text != "" && StartsWith(out[i..], v) {
        if i == 0 {
          assert out[0..] == out && text[0..] == text && "" + v == v;
          PrefixSurvives(text, value, "", v);
        } else {
          assert out[i..] == Replace(text[1..], value)[i - 1..];
          if Contains(text[1..], v) {
            ContainsTail(text, 1, v);
          }
          ReplaceKeepsClean(text[1..], value, v);
        }
      }
    }
  }

  // In whatever order the values are replaced, and whatever the others are, a redactable one is
  // not left.
  lemma {:induction false} RedactedTextIsClean(text: string, values: seq<string>, v: string)
    requires "" !in values && v in values && IsRedactable(v)
    ensures !Contains(ReplaceAll(text, values), v)
  {
    hide IsRedactable, Contains;
    var last := |values| - 1;
    assert values[last] in values;
    if v in values[..last] {
      RedactedTextIsClean(text, values[..last], v);
    } else {
      assert v == values[last];
    }
    ReplaceKeepsClean(ReplaceAll(text, values[..last]), values[last], v);
  }

  // ---- The other values can come back ----

  lemma {:induction false} NothingToReplace(text: string, value: string)
    requires value != "" && !Contains(text, value)
    ensures Replace(text, value) == text
    decreases |text|
  {
    if text != "" {
      assert text[0..] == text;
      if Contains(text[1..], value) {
        ContainsTail(text, 1, value);
      }
      NothingToReplace(text[1..], value);
    }
  }

  lemma ReplaceSkips(c: char, rest: string, value: string)
    requires value != "" && !StartsWith([c] + rest, value)
    ensures Replace([c] + rest, value) == [c] + Replace(rest, value)
  {
    assert ([c] + rest)[1..] == rest;
  }

  lemma ReplaceAtTheStart(value: string, q: string)
    requires value != "" && !Contains(q, value)
    ensures Replace(value + q, value) == MARKER + q
  {
    NothingToReplace(q, value);
    hide MARKER, Contains;
    assert (value + q)[|value|..] == q && StartsWith(value + q, value);
  }

  lemma {:induction false} ReplaceTheOnlyOne(p: string, value: string, q: string)
    requires value != "" && !Contains(q, value)
    requires forall i :: 0 <= i < |p| ==> !StartsWith((p + value + q)[i..], value)
    ensures Replace(p + value + q, value) == p + MARKER + q
  {
    hide MARKER, Contains, StartsWith, Replace;
    if p == "" {
      ReplaceAtTheStart(value, q);
      assert p + value + q == value + q && p + MARKER + q == MARKER + q;
    } else {
      var text, rest := p + value + q, p[1..] + value + q;
      assert text == [p[0]] + rest;
      assert forall i :: 0 <= i < |p[1..]| ==> rest[i..] == text[i + 1..];
      ReplaceTheOnlyOne(p[1..], value, q);
      assert text[0..] == text;
      ReplaceSkips(p[0], rest, value);
      assert [p[0]] + (p[1..] + MARKER + q) == p + MARKER + q;
    }
  }

  function Repeated(c: char, n: nat): string {
    seq(n, _ => c)
  }

  // Between p and q, a long run of another letter hides no value.
  lemma NotInTheText(p: string, q: string, v: string, c: char)
    requires |p| < |v| && |q| < |v| && c != v[0] && c != v[|v| - 1]
    ensures !Contains(p + Repeated(c, 2 * |v|) + q, v)
  {
    var text := p + Repeated(c, 2 * |v|) + q;
    assert forall i :: |p| <= i < |p| + 2 * |v| ==> text[i] == c;
    hide Repeated;
    forall j | 0 <= j <= |text| ensures !StartsWith(text[j..], v) {
      if StartsWith(text[j..], v) {
        StartsWithAt(text, j, v);
      }
    }
  }

  lemma NoEarlierRun(p: string, q: string, c: char, n: nat, i: nat)
    requires |p| < n && i < |p| && c != p[|p| - 1]
    ensures !StartsWith((p + Repeated(c, n) + q)[i..], Repeated(c, n))
  {
    var text := p + Repeated(c, n) + q;
    assert text[i + (|p| - 1 - i)] == p[|p| - 1];
    if StartsWith(text[i..], Repeated(c, n)) {
      StartsWithAt(text, i, Repeated(c, n));
    }
  }

  lemma NoRunInside(q: string, c: char, n: nat)
    requires |q| < n
    ensures !Contains(q, Repeated(c, n))
  {
  }

  lemma TwoReplacements(text: string, v: string, w: string)
    requires v != "" && w != ""
    ensures ReplaceAll(text, [v, w]) == Replace(Replace(text, v), w)
  {
    assert [v, w][..1] == [v] && [v][..0] == [];
    assert ReplaceAll(text, [v]) == Replace(text, v);
  }

  // A value that is not in the text comes back when another one between its ends is replaced.
  lemma ComesBack(v: string, p: string, q: string, c: char) returns (text: string, w: string)
    requires |p| < |v| && |q| < |v| && Contains(p + MARKER + q, v)
    requires c != v[0] && c != v[|v| - 1] && (p != "" ==> c != p[|p| - 1])
    ensures w != "" && Contains(ReplaceAll(text, [v, w]), v)
  {
    hide MARKER, Contains, StartsWith, Replace, ReplaceAll;
    w := Repeated(c, 2 * |v|);
    text := p + w + q;
    NotInTheText(p, q, v, c);
    NothingToReplace(text, v);
    forall i | 0 <= i < |p| ensures !StartsWith(text[i..], w) {
      NoEarlierRun(p, q, c, 2 * |v|, i);
    }
    NoRunInside(q, c, 2 * |v|);
    ReplaceTheOnlyOne(p, w, q);
    TwoReplacements(text, v, w);
  }

  lemma SpareLetter(a: char, b: char, d: char) returns (c: char)
    ensures c != a && c != b && c != d
  {
    c := 'w';
    if c == a || c == b || c == d {
      c := 'x';
    }
    if c == a || c == b || c == d {
      c := 'y';
    }
    if c == a || c == b || c == d {
      c := 'z';
    }
  }

  lemma AroundTheMarker(v: string) returns (p: string, q: string)
    requires Contains(v, MARKER)
    ensures v == p + MARKER + q
  {
    hide MARKER;
    var i :| 0 <= i <= |v| && StartsWith(v[i..], MARKER);
    assert v[i..][..|MARKER|] == MARKER;
    p, q := v[..i], v[i + |MARKER|..];
  }

  lemma OverlapIsAround(v: string, k: nat) returns (p: string, q: string)
    requires RunsInto(v, k) || RunsOutOf(v, k)
    ensures |p| < |v| && |q| < |v| && Contains(p + MARKER + q, v)
  {
    hide MARKER;
    var n := |MARKER|;
    if RunsInto(v, k) {
      p, q := v[..|v| - k], "";
      assert (p + MARKER + q)[0..][..|v|] == v;
    } else {
      p, q := "", v[k..];
      assert (p + MARKER + q)[n - k..][..|v|] == v;
    }
  }

  // A value that meets the marker is part of a text around it that is shorter than itself.
  lemma MeetingIsAround(v: string) returns (p: string, q: string)
    requires v != "" && MeetsMarker(v)
    ensures |p| < |v| && |q| < |v| && Contains(p + MARKER + q, v)
  {
    assert |MARKER| > 0;
    hide MARKER, RunsInto, RunsOutOf;
    p, q := "", "";
    if Contains(MARKER, v) {
      assert "" + MARKER + "" == MARKER;
    } else if Contains(v, MARKER) {
      p, q := AroundTheMarker(v);
      assert v[0..][..|v|] == v;
    } else {
      var k: nat :| k < |v| && (RunsInto(v, k) || RunsOutOf(v, k));
      p, q := OverlapIsAround(v, k);
    }
  }

  lemma MeetingMarkerComesBack(v: string) returns (text: string, w: string)
    requires v != "" && MeetsMarker(v)
    ensures w != "" && Contains(ReplaceAll(text, [v, w]), v)
  {
    hide MARKER, MeetsMarker, Contains, ReplaceAll;
    var p, q := MeetingIsAround(v);
    var c := SpareLetter(v[0], v[|v| - 1], if p != "" then p[|p| - 1] else v[0]);
    text, w := ComesBack(v, p, q, c);
  }

  // A value is never left, whatever the text, the other values and their order, exactly when it
  // cannot share characters with the marker.
  lemma RedactionIsExact(v: string)
    requires v != ""
    ensures IsRedactable(v) <==>
      forall text: string, values: seq<string> :: "" !in values && v in values ==>
        !Contains(ReplaceAll(text, values), v)
  {
    hide MeetsMarker, Contains, MARKER;
    if IsRedactable(v) {
      forall text: string, values: seq<string> | "" !in values && v in values
        ensures !Contains(ReplaceAll(text, values), v) {
        RedactedTextIsClean(text, values, v);
      }
    } else {
      var text, w := MeetingMarkerComesBack(v);
      assert v in [v, w] && "" !in [v, w];
    }
  }

  // ---- One value by itself ----

  // One is the beginning of the other.
  predicate Agrees(u: string, w: string) {
    StartsWith(u, w) || StartsWith(w, u)
  }

  // From i on the value runs into the marker, and no occurrence of it is found before i when it
  // follows its own beginning.
  predicate RunsIn(v: string, i: nat) {
    i < |v| && Agrees(v[i..], MARKER) && forall j :: 0 <= j < i ==> !StartsWith((v[..i] + v)[j..], v)
  }

  // What replacing the value itself can leave.
  predicate SurvivesAlone(v: string) {
    Contains(MARKER, v) || (exists k: nat | k < |v| :: RunsOutOf(v, k)) || exists i: nat | i < |v| :: RunsIn(v, i)
  }

  lemma RunsInLater(v: string, i: nat, q: string, j: nat)
    requires j < i <= |v| && StartsWith((v[..i] + v + q)[j..], v)
    ensures StartsWith((v[..i] + v)[j..], v)
  {
    assert (v[..i] + v)[j..][..|v|] == (v[..i] + v + q)[j..][..|v|];
  }

  lemma WithinTheFirst(p: string, q: string, r: string, v: string)
    ensures |v| <= |p| && StartsWith(p + q, v) ==> StartsWith((p + r)[0..], v)
  {
    if |v| <= |p| && StartsWith(p + q, v) {
      assert (p + r)[0..][..|v|] == (p + q)[..|v|];
    }
  }

  // A value that begins with text that was passed over, and goes on in what comes out after it.
  lemma {:induction false} PassedOverRunsIn(v: string, p: string, text: string)
    requires v != "" && StartsWith(p + Replace(text, v), v)
    requires forall j :: 0 <= j < |p| ==> !StartsWith((p + text)[j..], v)
    ensures SurvivesAlone(v)
    decreases |text|
  {
    hide MARKER, Contains, RunsOutOf;
    var out := p + Replace(text, v);
    assert out[..|v|] == v;
    WithinTheFirst(p, Replace(text, v), text, v);
    if |p| >= |v| {
    } else if StartsWith(text, v) {
      var (i, rest) := (|p|, text[|v|..]);
      assert v[..i] == p && text == v + rest;
      assert v[i..] == (MARKER + Replace(rest, v))[..|v| - i];
      PrefixesAgree(MARKER, Replace(rest, v), |v| - i);
      forall j | 0 <= j < i ensures !StartsWith((v[..i] + v)[j..], v) {
        LaterStillStarts(v[..i] + v, rest, j, v);
        assert p + text == v[..i] + v + rest;
      }
      assert RunsIn(v, i);
    } else {
      assert p + Replace(text, v) == (p + [text[0]]) + Replace(text[1..], v);
      assert p + text == (p + [text[0]]) + text[1..];
      assert (p + text)[|p|..] == text;
      PassedOverRunsIn(v, p + [text[0]], text[1..]);
    }
  }

  lemma LaterStillStarts(text: string, rest: string, j: nat, v: string)
    requires j <= |text|
    ensures StartsWith(text[j..], v) ==> StartsWith((text + rest)[j..], v)
  {
    if StartsWith(text[j..], v) {
      assert (text + rest)[j..][..|v|] == text[j..][..|v|];
    }
  }

  lemma PrefixesAgree(w: string, rest: string, n: nat)
    requires n <= |w + rest|
    ensures Agrees((w + rest)[..n], w)
  {
    if n <= |w| {
      assert (w + rest)[..n] == w[..n];
    } else {
      assert (w + rest)[..n][..|w|] == w;
    }
  }

  // What starts in the marker by itself.
  lemma StartingInTheMarkerSurvives(rest: string, v: string, i: nat)
    requires v != "" && i < |MARKER| && StartsWith((MARKER + rest)[i..], v)
    ensures SurvivesAlone(v)
  {
    hide MARKER, StartsWith;
    var n := |MARKER|;
    StartsWithAt(MARKER + rest, i, v);
    assert forall k :: 0 <= k < |v| && i + k < n ==> v[k] == MARKER[i + k];
    if i + |v| <= n {
      PartStartsThere(MARKER, v, i);
    } else if i == 0 {
      assert v == (MARKER + rest)[..|v|];
      PrefixesAgree(MARKER, rest, |v|);
      assert v[0..] == v;
      assert RunsIn(v, 0);
    } else {
      assert v[..n - i] == MARKER[i..];
      assert RunsOutOf(v, n - i);
    }
  }

  lemma {:induction false} ReplaceRemovesAlone(text: string, v: string)
    requires v != "" && !SurvivesAlone(v)
    ensures !Contains(Replace(text, v), v)
    decreases |text|
  {
    hide MARKER, SurvivesAlone;
    var out := Replace(text, v);
    forall i | 0 <= i <= |out| ensures !StartsWith(out[i..], v) {
      if text != "" && StartsWith(text, v) {
        var rest := text[|v|..];
        if StartsWith(out[i..], v) {
          if i < |MARKER| {
            StartingInTheMarkerSurvives(Replace(rest, v), v, i);
          }
          assert out[i..] == Replace(rest, v)[i - |MARKER|..];
          ReplaceRemovesAlone(rest, v);
        }
      } else if text != "" && StartsWith(out[i..], v) {
        if i == 0 {
          assert out[0..] == out && "" + out == out;
          PassedOverRunsIn(v, "", text);
        } else {
          assert out[i..] == Replace(text[1..], v)[i - 1..];
          ReplaceRemovesAlone(text[1..], v);
        }
      }
    }
  }

  lemma NotFoundBefore(v: string, i: nat, q: string)
    requires RunsIn(v, i)
    ensures forall j :: 0 <= j < i ==> !StartsWith((v[..i] + v + q)[j..], v)
  {
    hide Agrees, MARKER, StartsWith;
    forall j | 0 <= j < i ensures !StartsWith((v[..i] + v + q)[j..], v) {
      if StartsWith((v[..i] + v + q)[j..], v) {
        RunsInLater(v, i, q, j);
      }
    }
  }

  lemma RunningInSurvives(v: string, i: nat) returns (text: string)
    requires RunsIn(v, i)
    ensures Contains(Replace(text, v), v)
  {
    assert |MARKER| > 0;
    var (s, u) := (v[..i], v[i..]);
    assert Agrees(u, MARKER) && v == s + u;
    hide MARKER, StartsWith, Replace, RunsIn, Agrees, Contains;
    var q := if |u| <= |MARKER| then "" else u[|MARKER|..];
    text := s + v + q;
    ShorterHoldsNo(q, v);
    NotFoundBefore(v, i, q);
    ReplaceTheOnlyOne(s, v, q);
    AgreeingIsPrefix(u, q);
    StartsBehind(s, u, MARKER + q);
    assert s + MARKER + q == s + (MARKER + q);
    ContainsPrefix(s + MARKER + q, v);
  }

  lemma ShorterHoldsNo(q: string, v: string)
    requires |q| < |v|
    ensures !Contains(q, v)
  {
  }

  lemma AgreeingIsPrefix(u: string, q: string)
    requires Agrees(u, MARKER) && q == if |u| <= |MARKER| then "" else u[|MARKER|..]
    ensures StartsWith(MARKER + q, u)
  {
    if |u| <= |MARKER| {
      assert (MARKER + q)[..|u|] == MARKER[..|u|];
    } else {
      assert MARKER + q == u && u[..|u|] == u;
    }
  }

  lemma StartsBehind(s: string, u: string, w: string)
    requires StartsWith(w, u)
    ensures StartsWith(s + w, s + u)
  {
    assert (s + w)[..|s + u|] == s + w[..|u|];
  }

  lemma ContainsPrefix(text: string, v: string)
    requires StartsWith(text, v)
    ensures Contains(text, v)
  {
    assert text[0..] == text;
  }

  lemma SurvivorSurvives(v: string) returns (text: string)
    requires v != "" && SurvivesAlone(v)
    ensures Contains(Replace(text, v), v)
  {
    if Contains(MARKER, v) {
      text := v + "";
      ReplaceAtTheStart(v, "");
      assert MARKER + "" == MARKER;
    } else if k: nat :| k < |v| && RunsOutOf(v, k) {
      hide MARKER, Contains, SurvivesAlone;
      text := v + v[k..];
      ShorterHoldsNo(v[k..], v);
      ReplaceAtTheStart(v, v[k..]);
      var n := |MARKER|;
      assert (MARKER + v[k..])[n - k..] == v;
      ContainsTail(MARKER + v[k..], n - k, v) by {
        assert v[0..] == v && StartsWith(v, v);
        ContainsPrefix(v, v);
      }
    } else {
      var i: nat :| i < |v| && RunsIn(v, i);
      text := RunningInSurvives(v, i);
    }
  }

  // A value that is the only one to be replaced is never left exactly when it is no part of the
  // marker, does not begin with an end of it, and does not run into it from a beginning of its own
  // in which replacing does not find it first.
  lemma OneValueIsExact(v: string)
    requires v != ""
    ensures !SurvivesAlone(v) <==> forall text: string :: !Contains(Replace(text, v), v)
  {
    hide SurvivesAlone, Contains;
    if SurvivesAlone(v) {
      var text := SurvivorSurvives(v);
    } else {
      forall text: string ensures !Contains(Replace(text, v), v) {
        ReplaceRemovesAlone(text, v);
      }
    }
  }

  // What meets either condition is removed with these values.
  predicate IsRemoved(v: string, values: seq<string>) {
    v in values && (IsRedactable(v) || (!SurvivesAlone(v) && forall w <- values :: w == v))
  }

  lemma RemovedTextIsClean(text: string, values: seq<string>, v: string)
    requires "" !in values && IsRemoved(v, values)
    ensures !Contains(ReplaceAll(text, values), v)
  {
    hide IsRedactable, SurvivesAlone, Contains;
    if IsRedactable(v) {
      RedactedTextIsClean(text, values, v);
    } else {
      assert values[|values| - 1] in values;
      ReplaceRemovesAlone(ReplaceAll(text, values[..|values| - 1]), v);
    }
  }

  lemma AllRemovedAreGone(text: string, values: seq<string>)
    requires "" !in values && forall v <- values :: IsRemoved(v, values)
    ensures forall v <- values :: !Contains(ReplaceAll(text, values), v)
  {
    hide ReplaceAll, IsRemoved, Contains;
    forall v | v in values ensures !Contains(ReplaceAll(text, values), v) {
      RemovedTextIsClean(text, values, v);
    }
  }

  // A value by itself can be removed although it meets the marker: so are two opening brackets.
  lemma TwoBracketsGo()
    ensures !IsRedactable("[[") && !SurvivesAlone("[[")
  {
    var v := "[[";
    assert v[|v| - 1..] == MARKER[..1];
    assert RunsInto(v, 1);
    assert v[0..] == v && v[1..] == "[" && (v[..1] + v)[0..][..|v|] == v;
    assert MARKER[0] == '[' && forall i :: 0 < i < |MARKER| ==> MARKER[i] != '[';
    assert !RunsIn(v, 1);
    assert !RunsIn(v, 0);
    assert v[..1][0] == '[' && MARKER[|MARKER| - 1..][0] == ']';
    assert !RunsOutOf(v, 1);
    forall j | 0 <= j < |MARKER| - 1 ensures MARKER[j..][..2][1] != '[' {
    }
  }

  lemma OverlapBringsABracket(v: string, k: nat)
    requires RunsInto(v, k) || RunsOutOf(v, k)
    ensures '[' in v || ']' in v
  {
    if RunsInto(v, k) {
      assert v[|v| - k..][0] == MARKER[..k][0] == '[';
    } else {
      assert v[..k][k - 1] == MARKER[|MARKER| - k..][k - 1] == ']';
    }
  }

  lemma MarkerBringsABracket(v: string)
    requires Contains(v, MARKER)
    ensures '[' in v
  {
    var i :| 0 <= i <= |v| && StartsWith(v[i..], MARKER);
    assert v[i..][..|MARKER|][0] == v[i];
  }

  lemma PartOfTheMarker(v: string)
    requires v != "" && Contains(MARKER, v)
    ensures '[' in v || ']' in v || Contains("REDACTED", v)
  {
    var i :| 0 <= i <= |MARKER| && StartsWith(MARKER[i..], v);
    assert MARKER[i..][..|v|] == v;
    if i == 0 {
      assert v[0] == '[';
    } else if i + |v| == |MARKER| {
      assert v[|v| - 1] == MARKER[|MARKER| - 1];
    } else {
      assert MARKER[1..|MARKER| - 1] == "REDACTED";
      assert MARKER[1..|MARKER| - 1][i - 1..][..|v|] == v;
    }
  }

  // Without brackets, and not a part of the marker's word: what a token looks like.
  lemma PlainValueIsRedactable(v: string)
    requires v != "" && '[' !in v && ']' !in v && !Contains("REDACTED", v)
    ensures IsRedactable(v)
  {
    hide MARKER, Contains, RunsInto, RunsOutOf;
    if Contains(MARKER, v) {
      PartOfTheMarker(v);
    } else if Contains(v, MARKER) {
      MarkerBringsABracket(v);
    } else if k: nat :| k < |v| && (RunsInto(v, k) || RunsOutOf(v, k)) {
      OverlapBringsABracket(v, k);
    }
  }

  // ---- JSON values ----

  const BROWSER_PRIVATE_KEYS: set<string> :=
    {"access_token", "authContextRef", "auth_context_ref", "authorization", "id_token", "oboTokenRef", "obo_token_ref",
     "refresh_token", "session_id", "tenant_id", "tokenRef", "token_ref", "user_id"}

  const SERVER_ONLY_STATE_KEYS: set<string> :=
    {"Authorization", "accessToken", "access_token", "allowed_tools", "authContextRef", "auth_context_ref",
     "authorization", "tokenRef", "token_ref", "token_scopes"}

  predicate IsBrowserPrivate(key: string) {
    key in BROWSER_PRIVATE_KEYS
  }

  predicate IsServerOnly(key: string) {
    key in SERVER_ONLY_STATE_KEYS
  }

  // `_strip_browser_private_keys` and `_strip_server_only_state`: no member under such a key,
  // at any depth.
  function StripKeys(j: Json, hidden: string -> bool): Json {
    match j
    case Arr(items) => Arr(seq(|items|, i requires 0 <= i < |items| => StripKeys(items[i], hidden)))
    case Obj(members) => Obj(map k | k in members && !hidden(k) :: StripKeys(members[k], hidden))
    case _ => j
  }

  predicate HasNoKeys(j: Json, hidden: string -> bool) {
    match j
    case Arr(items) => forall i :: 0 <= i < |items| ==> HasNoKeys(items[i], hidden)
    case Obj(members) => forall k <- members :: !hidden(k) && HasNoKeys(members[k], hidden)
    case _ => true
  }

  // A stripped value has no hidden key, and a value without hidden keys is left alone.
  lemma {:induction false} StripKeysIsExact(j: Json, hidden: string -> bool)
    ensures HasNoKeys(StripKeys(j, hidden), hidden)
    ensures HasNoKeys(j, hidden) <==> StripKeys(j, hidden) == j
    decreases j
  {
    match j
    case Arr(items) =>
      forall i | 0 <= i < |items|
        ensures HasNoKeys(StripKeys(items[i], hidden), hidden)
        ensures HasNoKeys(items[i], hidden) <==> StripKeys(items[i], hidden) == items[i]
      {
        StripKeysIsExact(items[i], hidden);
      }
      var out := StripKeys(j, hidden).items;
      assert out == items <==> forall i :: 0 <= i < |items| ==> out[i] == items[i];
    case Obj(members) =>
      forall k | k in members
        ensures HasNoKeys(StripKeys(members[k], hidden), hidden)
        ensures HasNoKeys(members[k], hidden) <==> StripKeys(members[k], hidden) == members[k]
      {
        StripKeysIsExact(members[k], hidden);
      }
      var out := StripKeys(j, hidden).members;
      assert out == members ==> forall k <- members :: k in out && out[k] == members[k];
      if HasNoKeys(j, hidden) {
        assert out == members;
      }
    case _ =>
  }

  // `_redact_sensitive_value`, for one order of the sensitive values.
  function RedactValue(j: Json, values: seq<string>): Json
    requires "" !in values
  {
    match j
    case Str(s) => Str(ReplaceAll(s, values))
    case Arr(items) => Arr(seq(|items|, i requires 0 <= i < |items| => RedactValue(items[i], values)))
    case Obj(members) => Obj(map k | k in members && !IsBrowserPrivate(k) :: RedactValue(members[k], values))
    case _ => j
  }

  // No string value contains any of the sensitive ones; member names are not looked at.
  predicate StringsAreClean(j: Json, values: seq<string>) {
    match j
    case Str(s) => forall v <- values :: !Contains(s, v)
    case Arr(items) => forall i :: 0 <= i < |items| ==> StringsAreClean(items[i], values)
    case Obj(members) => forall k <- members :: StringsAreClean(members[k], values)
    case _ => true
  }

  lemma {:induction false} RedactedValueIsClean(j: Json, values: seq<string>)
    requires "" !in values && forall v <- values :: IsRemoved(v, values)
    ensures StringsAreClean(RedactValue(j, values), values)
    ensures HasNoKeys(RedactValue(j, values), IsBrowserPrivate)
    decreases j
  {
    match j
    case Str(s) => AllRemovedAreGone(s, values);
    case Arr(items) =>
      forall i | 0 <= i < |items|
        ensures StringsAreClean(RedactValue(items[i], values), values)
        ensures HasNoKeys(RedactValue(items[i], values), IsBrowserPrivate)
      {
        RedactedValueIsClean(items[i], values);
      }
    case Obj(members) =>
      forall k | k in members
        ensures StringsAreClean(RedactValue(members[k], values), values)
        ensures HasNoKeys(RedactValue(members[k], values), IsBrowserPrivate)
      {
        RedactedValueIsClean(members[k], values);
      }
    case _ =>
  }

  // Neither a string nor a member name holds v, at any depth.
  predicate HoldsNo(j: Json, v: string) {
    match j
    case Str(s) => !Contains(s, v)
    case Arr(items) => forall i :: 0 <= i < |items| ==> HoldsNo(items[i], v)
    case Obj(members) => forall k <- members :: !Contains(k, v) && HoldsNo(members[k], v)
    case _ => true
  }

  // The member names alone, but for those that redaction drops with what is under them.
  predicate NamesHoldNo(j: Json, v: string) {
    match j
    case Arr(items) => forall i :: 0 <= i < |items| ==> NamesHoldNo(items[i], v)
    case Obj(members) => forall k <- members :: IsBrowserPrivate(k) || (!Contains(k, v) && NamesHoldNo(members[k], v))
    case _ => true
  }

  // Redaction reaches every string and no member name: a value that is removed is gone from a JSON
  // value exactly when no member name that stays holds it.
  lemma {:induction false} RedactedValueIsExact(j: Json, values: seq<string>, v: string)
    requires "" !in values && IsRemoved(v, values)
    ensures HoldsNo(RedactValue(j, values), v) <==> NamesHoldNo(j, v)
    decreases j
  {
    hide Contains, IsRemoved, ReplaceAll, IsBrowserPrivate;
    match j
    case Str(s) => RemovedTextIsClean(s, values, v);
    case Arr(items) =>
      forall i | 0 <= i < |items| ensures HoldsNo(RedactValue(items[i], values), v) <==> NamesHoldNo(items[i], v) {
        RedactedValueIsExact(items[i], values, v);
      }
      var out := RedactValue(j, values).items;
      assert forall i :: 0 <= i < |items| ==> out[i] == RedactValue(items[i], values);
    case Obj(members) =>
      forall k | k in members ensures HoldsNo(RedactValue(members[k], values), v) <==> NamesHoldNo(members[k], v) {
        RedactedValueIsExact(members[k], values, v);
      }
      var out := RedactValue(j, values).members;
      assert forall k :: k in out <==> k in members && !IsBrowserPrivate(k);
      assert forall k <- out :: out[k] == RedactValue(members[k], values);
    case _ =>
  }

  // So a value that comes as a member name is left where it was.
  lemma MemberNamesAreKept(v: string)
    requires v != "" && !IsBrowserPrivate(v)
    ensures var j := Obj(map[v := Null]); RedactValue(j, [v]) == j && !HoldsNo(j, v)
  {
    var members := map[v := Null];
    assert v in members && v[0..][..|v|] == v;
    assert (map k | k in members && !IsBrowserPrivate(k) :: RedactValue(members[k], [v])) == members;
  }

  lemma {:induction false} RedactedHasNoPrivateKeys(j: Json, values: seq<string>)
    requires "" !in values
    ensures HasNoKeys(RedactValue(j, values), IsBrowserPrivate)
    decreases j
  {
    match j
    case Arr(items) =>
      forall i | 0 <= i < |items| ensures HasNoKeys(RedactValue(items[i], values), IsBrowserPrivate) {
        RedactedHasNoPrivateKeys(items[i], values);
      }
    case Obj(members) =>
      forall k | k in members ensures HasNoKeys(RedactValue(members[k], values), IsBrowserPrivate) {
        RedactedHasNoPrivateKeys(members[k], values);
      }
    case _ =>
  }

  // ---- What stays where it was ----

  datatype Selector = Name(key: string) | Place(i: nat)

  // The value that a path leads to.
  function Find(j: Json, path: seq<Selector>): Option<Json>
    decreases path
  {
    if path == [] then Some(j)
    else
      match (j, path[0])
      case (Arr(items), Place(i)) => if i < |items| then Find(items[i], path[1..]) else None
      case (Obj(members), Name(key)) => if key in members then Find(members[key], path[1..]) else None
      case _ => None
  }

  predicate GoesThrough(path: seq<Selector>, hidden: string -> bool) {
    exists i :: 0 <= i < |path| && path[i].Name? && hidden(path[i].key)
  }

  lemma GoesThroughLater(path: seq<Selector>, hidden: string -> bool)
    requires path != []
    ensures GoesThrough(path, hidden) <==>
      (path[0].Name? && hidden(path[0].key)) || GoesThrough(path[1..], hidden)
  {
    if i :| 0 <= i < |path| && path[i].Name? && hidden(path[i].key) {
      assert i > 0 ==> path[1..][i - 1] == path[i];
    }
    if i :| 0 <= i < |path[1..]| && path[1..][i].Name? && hidden(path[1..][i].key) {
      assert path[i + 1] == path[1..][i];
    }
  }

  // What is found where something was: the same list, the same object without the hidden names,
  // and any other value as it was.
  predicate IsStrippedFrom(found: Option<Json>, was: Json, hidden: string -> bool) {
    match was
    case Arr(items) => found.Some? && found.value.Arr? && |found.value.items| == |items|
    case Obj(members) =>
      found.Some? && found.value.Obj? && found.value.members.Keys == set key | key in members && !hidden(key)
    case _ => found == Some(was)
  }

  // Stripping takes away what a path leads to exactly when the path goes through a hidden name, and
  // leaves everything else in its place.
  lemma {:induction false} StrippedIsWhere(j: Json, hidden: string -> bool, path: seq<Selector>)
    ensures GoesThrough(path, hidden) || Find(j, path) == None ==> Find(StripKeys(j, hidden), path) == None
    ensures !GoesThrough(path, hidden) && Find(j, path).Some? ==>
      IsStrippedFrom(Find(StripKeys(j, hidden), path), Find(j, path).value, hidden)
    decreases path
  {
    if path != [] {
      GoesThroughLater(path, hidden);
      hide GoesThrough;
      match (j, path[0])
      case (Arr(items), Place(i)) =>
        if i < |items| {
          StrippedIsWhere(items[i], hidden, path[1..]);
        }
      case (Obj(members), Name(key)) =>
        if key in members {
          StrippedIsWhere(members[key], hidden, path[1..]);
        }
      case _ =>
    }
  }

  // What stripping leaves of j, wherever one looks.
  ghost predicate IsStripped(out: Json, j: Json, hidden: string -> bool) {
    forall path: seq<Selector> ::
      if GoesThrough(path, hidden) || Find(j, path) == None then Find(out, path) == None
      else IsStrippedFrom(Find(out, path), Find(j, path).value, hidden)
  }

  lemma StrippedIsStripped(j: Json, hidden: string -> bool)
    ensures IsStripped(StripKeys(j, hidden), j, hidden)
  {
    hide GoesThrough, Find, IsStrippedFrom, StripKeys;
    forall path: seq<Selector>
      ensures if GoesThrough(path, hidden) || Find(j, path) == None then Find(StripKeys(j, hidden), path) == None
        else IsStrippedFrom(Find(StripKeys(j, hidden), path), Find(j, path).value, hidden)
    {
      StrippedIsWhere(j, hidden, path);
    }
  }

  predicate IsRedactedFrom(found: Option<Json>, was: Json, values: seq<string>)
    requires "" !in values
  {
    match was
    case Str(s) => found == Some(Str(ReplaceAll(s, values)))
    case _ => IsStrippedFrom(found, was, IsBrowserPrivate)
  }

  // So does redaction, but for the texts, in which the values are replaced.
  lemma {:induction false} RedactedIsWhere(j: Json, values: seq<string>, path: seq<Selector>)
    requires "" !in values
    ensures GoesThrough(path, IsBrowserPrivate) || Find(j, path) == None ==> Find(RedactValue(j, values), path) == None
    ensures !GoesThrough(path, IsBrowserPrivate) && Find(j, path).Some? ==>
      IsRedactedFrom(Find(RedactValue(j, values), path), Find(j, path).value, values)
    decreases path
  {
    hide IsBrowserPrivate, ReplaceAll;
    if path != [] {
      GoesThroughLater(path, IsBrowserPrivate);
      hide GoesThrough;
      match (j, path[0])
      case (Arr(items), Place(i)) =>
        if i < |items| {
          RedactedIsWhere(items[i], values, path[1..]);
        }
      case (Obj(members), Name(key)) =>
        if key in members {
          RedactedIsWhere(members[key], values, path[1..]);
        }
      case _ =>
    }
  }

  ghost predicate IsRedacted(out: Json, j: Json, values: seq<string>)
    requires "" !in values
  {
    forall path: seq<Selector> ::
      if GoesThrough(path, IsBrowserPrivate) || Find(j, path) == None then Find(out, path) == None
      else IsRedactedFrom(Find(out, path), Find(j, path).value, values)
  }

  lemma RedactedIsRedacted(j: Json, values: seq<string>)
    requires "" !in values
    ensures IsRedacted(RedactValue(j, values), j, values)
  {
    hide GoesThrough, Find, IsRedactedFrom, RedactValue;
    forall path: seq<Selector>
      ensures if GoesThrough(path, IsBrowserPrivate) || Find(j, path) == None
        then Find(RedactValue(j, values), path) == None
        else IsRedactedFrom(Find(RedactValue(j, values), path), Find(j, path).value, values)
    {
      RedactedIsWhere(j, values, path);
    }
  }

  // ---- What redaction leaves alone ----

  // Replacing makes a text longer, or shorter, exactly when the value is in it and is not as long
  // as the marker.
  lemma {:induction false} ReplacedLength(text: string, v: string)
    requires v != ""
    ensures |v| < |MARKER| ==> |Replace(text, v)| >= |text| && (|Replace(text, v)| == |text| ==> !Contains(text, v))
    ensures |v| > |MARKER| ==> |Replace(text, v)| <= |text| && (|Replace(text, v)| == |text| ==> !Contains(text, v))
    decreases |text|
  {
    hide MARKER;
    if text == "" {
      ShorterHoldsNo("", v);
    } else if StartsWith(text, v) {
      ReplacedLength(text[|v|..], v);
    } else {
      ReplacedLength(text[1..], v);
      ContainedLater(text, v);
    }
  }

  lemma ContainedLater(text: string, v: string)
    requires text != "" && !StartsWith(text, v)
    ensures Contains(text, v) <==> Contains(text[1..], v)
  {
    assert text[0..] == text;
    if Contains(text, v) {
      var i :| 0 <= i <= |text| && StartsWith(text[i..], v);
      assert text[1..][i - 1..] == text[i..];
    }
    if Contains(text[1..], v) {
      ContainsTail(text, 1, v);
    }
  }

  lemma {:induction false} SameLengthReplaced(text: string, v: string)
    requires |v| == |MARKER| && v != MARKER && Replace(text, v) == text
    ensures !Contains(text, v)
    decreases |text|
  {
    if text == "" {
      ShorterHoldsNo("", v);
    } else if !StartsWith(text, v) {
      assert Replace(text, v)[1..] == Replace(text[1..], v);
      SameLengthReplaced(text[1..], v);
      ContainedLater(text, v);
    }
  }

  // A text is left alone exactly when the value is not in it, or is the marker itself.
  lemma ReplaceLeavesAloneExactly(text: string, v: string)
    requires v != ""
    ensures Replace(text, v) == text <==> !Contains(text, v) || v == MARKER
  {
    if !Contains(text, v) {
      NothingToReplace(text, v);
    } else if v == MARKER {
      MarkerForMarker(text);
    } else if Replace(text, v) == text {
      ReplacedLength(text, v);
      assert |v| == |MARKER|;
      SameLengthReplaced(text, v);
    }
  }

  lemma {:induction false} MarkerForMarker(text: string)
    ensures Replace(text, MARKER) == text
    decreases |text|
  {
    assert |MARKER| > 0;
    if text != "" {
      if StartsWith(text, MARKER) {
        MarkerForMarker(text[|MARKER|..]);
        assert text == MARKER + text[|MARKER|..];
      } else {
        MarkerForMarker(text[1..]);
        assert text == [text[0]] + text[1..];
      }
    }
  }

  // No string at any depth holds v.
  predicate StringsHoldNo(j: Json, v: string) {
    match j
    case Str(s) => !Contains(s, v)
    case Arr(items) => forall i :: 0 <= i < |items| ==> StringsHoldNo(items[i], v)
    case Obj(members) => forall k <- members :: StringsHoldNo(members[k], v)
    case _ => true
  }

  // Redaction of one value leaves a JSON value alone exactly when it has no private name and no
  // string that holds the value.
  lemma {:induction false} RedactionLeavesAloneExactly(j: Json, v: string)
    requires v != "" && v != MARKER
    ensures RedactValue(j, [v]) == j <==> HasNoKeys(j, IsBrowserPrivate) && StringsHoldNo(j, v)
    decreases j
  {
    hide IsBrowserPrivate, Contains, MARKER;
    match j
    case Str(s) =>
      ReplaceLeavesAloneExactly(s, v);
      OneReplaced(s, v);
      hide ReplaceAll;
    case Arr(items) =>
      hide ReplaceAll;
      var out := RedactValue(j, [v]).items;
      forall i | 0 <= i < |items|
        ensures out[i] == items[i] <==> HasNoKeys(items[i], IsBrowserPrivate) && StringsHoldNo(items[i], v)
      {
        RedactionLeavesAloneExactly(items[i], v);
      }
      assert out == items <==> forall i :: 0 <= i < |items| ==> out[i] == items[i];
    case Obj(members) =>
      hide ReplaceAll;
      var out := RedactValue(j, [v]).members;
      assert forall k :: k in out <==> k in members && !IsBrowserPrivate(k);
      forall k | k in out
        ensures out[k] == members[k] <==> HasNoKeys(members[k], IsBrowserPrivate) && StringsHoldNo(members[k], v)
      {
        RedactionLeavesAloneExactly(members[k], v);
      }
      if HasNoKeys(j, IsBrowserPrivate) && StringsHoldNo(j, v) {
        assert out == members;
      }
      if out == members {
        assert forall k <- members :: k in out && out[k] == members[k];
      }
    case _ =>
  }

  lemma OneReplaced(text: string, v: string)
    requires v != ""
    ensures ReplaceAll(text, [v]) == Replace(text, v)
  {
    assert [v][..0] == [];
  }
}
