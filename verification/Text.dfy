// Python text as sequences of Unicode scalar values: code point order, sorted sets,
// splitting, and trimming of whitespace.
module Text {

  // Python's `<` on str: code point by code point, a proper prefix first.
  predicate Less(a: string, b: string) {
    b != [] && (a == [] || a[0] < b[0] || (a[0] == b[0] && Less(a[1..], b[1..])))
  }

  // The first place where the two differ decides; a proper prefix comes first.
  lemma {:induction false} LessIsLexicographic(a: string, b: string)
    ensures Less(a, b) <==>
      exists k :: 0 <= k <= |a| && k < |b| && a[..k] == b[..k] && (k == |a| || a[k] < b[k])
  {
    if b != [] {
      if a == [] {
        assert a[..0] == b[..0];
      } else {
        assert a[..0] == b[..0];
        if a[0] == b[0] {
          var (x, y) := (a[1..], b[1..]);
          LessIsLexicographic(x, y);
          if k :| 0 <= k <= |x| && k < |y| && x[..k] == y[..k] && (k == |x| || x[k] < y[k]) {
            assert a[..k + 1] == [a[0]] + x[..k] && b[..k + 1] == [b[0]] + y[..k];
          }
          if k :| 0 < k <= |a| && k < |b| && a[..k] == b[..k] && (k == |a| || a[k] < b[k]) {
            assert x[..k - 1] == a[..k][1..] && y[..k - 1] == b[..k][1..];
          }
        } else if k :| 0 < k <= |a| && k < |b| && a[..k] == b[..k] {
          assert a[0] == a[..k][0] == b[0];
        }
      }
    }
  }

  lemma {:induction false} LessIsTotal(a: string, b: string)
    ensures Less(a, b) || a == b || Less(b, a)
    ensures !(Less(a, b) && Less(b, a))
    ensures !Less(a, a)
    decreases |a|
  {
    if a != [] {
      LessIsTotal(a[1..], a[1..]);
      if b != [] {
        LessIsTotal(a[1..], b[1..]);
        assert a == [a[0]] + a[1..] && b == [b[0]] + b[1..];
      }
    }
  }

  lemma {:induction false} LessIsTransitive(a: string, b: string, c: string)
    requires Less(a, b) && Less(b, c)
    ensures Less(a, c)
    decreases |a|
  {
    if a != [] && a[0] == b[0] == c[0] {
      LessIsTransitive(a[1..], b[1..], c[1..]);
    }
  }

  predicate IsLeast(k: string, keys: set<string>) {
    k in keys && forall other <- keys :: k == other || Less(k, other)
  }

  lemma {:induction false} LeastExists(keys: set<string>)
    requires keys != {}
    ensures exists k :: IsLeast(k, keys)
    decreases |keys|
  {
    var k :| k in keys;
    if keys == {k} {
      assert IsLeast(k, keys);
    } else {
      LeastExists(keys - {k});
      var least :| IsLeast(least, keys - {k});
      LessIsTotal(k, least);
      if Less(k, least) {
        forall other | other in keys && other != k ensures Less(k, other) {
          if other != least {
            LessIsTransitive(k, least, other);
          }
        }
        assert IsLeast(k, keys);
      } else {
        assert IsLeast(least, keys);
      }
    }
  }

  lemma LeastIsUnique(keys: set<string>)
    ensures forall a, b :: IsLeast(a, keys) && IsLeast(b, keys) ==> a == b
  {
    forall a, b | IsLeast(a, keys) && IsLeast(b, keys) ensures a == b {
      LessIsTotal(a, b);
    }
  }

  predicate Increasing(keys: seq<string>) {
    forall i, j :: 0 <= i < j < |keys| ==> Less(keys[i], keys[j])
  }

  // `sorted(set(...))`.
  function Sorted(keys: set<string>): (sorted: seq<string>)
    ensures Increasing(sorted)
    ensures forall k :: k in sorted <==> k in keys
    decreases |keys|
  {
    if keys == {} then []
    else
      LeastExists(keys);
      LeastIsUnique(keys);
      var least :| IsLeast(least, keys);
      var rest := Sorted(keys - {least});
      assert forall j :: 0 <= j < |rest| ==> rest[j] in rest;
      [least] + rest
  }

  predicate Rising(at: seq<nat>) {
    forall j, k :: 0 <= j < k < |at| ==> at[j] < at[k]
  }

  function Elements(xs: seq<string>): set<string> {
    set x | x in xs
  }

  // An increasing list is the only increasing list of its elements.
  lemma {:induction false} SortedElements(xs: seq<string>)
    requires Increasing(xs)
    ensures Sorted(Elements(xs)) == xs
  {
    if xs == [] {
      assert Elements(xs) == {};
    } else {
      var keys := Elements(xs);
      assert IsLeast(xs[0], keys) by {
        forall other | other in keys ensures xs[0] == other || Less(xs[0], other) {
          var i :| 0 <= i < |xs| && xs[i] == other;
        }
      }
      LeastIsUnique(keys);
      assert keys - {xs[0]} == Elements(xs[1..]) by {
        forall k ensures k in keys - {xs[0]} <==> k in Elements(xs[1..]) {
          if k in xs[1..] {
            var i :| 0 <= i < |xs[1..]| && xs[1..][i] == k;
            assert xs[i + 1] == k;
            LessIsTotal(xs[0], k);
          }
        }
      }
      SortedElements(xs[1..]);
    }
  }

  predicate Contains(text: string, part: string) {
    exists i :: 0 <= i <= |text| && StartsWith(text[i..], part)
  }

  predicate StartsWith(text: string, prefix: string) {
    |prefix| <= |text| && text[..|prefix|] == prefix
  }

  // `text.split(separator)` for a one-character separator.
  function Split(text: string, separator: char): (fields: seq<string>)
    ensures |fields| > 0
  {
    if text == [] then [""]
    else if text[0] == separator then [""] + Split(text[1..], separator)
    else
      var rest := Split(text[1..], separator);
      [[text[0]] + rest[0]] + rest[1..]
  }

  lemma {:induction false} SplitAtSeparator(field: string, separator: char, rest: string)
    requires separator !in field
    ensures Split(field + [separator] + rest, separator) == [field] + Split(rest, separator)
    ensures Split(field, separator) == [field]
  {
    if field == [] {
      assert field + [separator] + rest == [separator] + rest;
    } else {
      var text := field + [separator] + rest;
      assert text[1..] == field[1..] + [separator] + rest;
      SplitAtSeparator(field[1..], separator, rest);
      assert field == [field[0]] + field[1..];
      assert ([field[1..]] + Split(rest, separator))[1..] == Split(rest, separator);
    }
  }

  // The characters `str.strip()` and `str.isspace()` treat as whitespace.
  predicate IsSpace(c: char) {
    var n := c as int;
    9 <= n <= 13 || 28 <= n <= 32 || n == 0x85 || n == 0xA0 || n == 0x1680
    || 0x2000 <= n <= 0x200A || n == 0x2028 || n == 0x2029 || n == 0x202F || n == 0x205F || n == 0x3000
  }

  function TrimLeft(s: string): string {
    if s != [] && IsSpace(s[0]) then TrimLeft(s[1..]) else s
  }

  function TrimRight(s: string): string {
    if s != [] && IsSpace(s[|s| - 1]) then TrimRight(s[..|s| - 1]) else s
  }

  function Strip(s: string): string {
    TrimRight(TrimLeft(s))
  }

  predicate AllSpace(s: string) {
    forall i :: 0 <= i < |s| ==> IsSpace(s[i])
  }

  predicate IsTrimmed(s: string) {
    s == "" || (!IsSpace(s[0]) && !IsSpace(s[|s| - 1]))
  }

  // The text without the space around it.
  ghost predicate IsStripOf(trimmed: string, s: string) {
    IsTrimmed(trimmed) &&
    exists before, after :: s == before + trimmed + after && AllSpace(before) && AllSpace(after)
  }

  lemma {:induction false} TrimsLeft(before: string, text: string)
    requires AllSpace(before) && (text == "" || !IsSpace(text[0]))
    ensures TrimLeft(before + text) == text
  {
    if before == "" {
      assert before + text == text;
    } else {
      assert (before + text)[1..] == before[1..] + text;
      TrimsLeft(before[1..], text);
    }
  }

  lemma {:induction false} TrimsRight(text: string, after: string)
    requires AllSpace(after) && (text == "" || !IsSpace(text[|text| - 1]))
    ensures TrimRight(text + after) == text
  {
    if after == "" {
      assert text + after == text;
    } else {
      var last := |after| - 1;
      assert (text + after)[..|text + after| - 1] == text + after[..last];
      TrimsRight(text, after[..last]);
    }
  }

  lemma {:induction false} TrimmedLeft(s: string) returns (before: string)
    ensures AllSpace(before) && s == before + TrimLeft(s) && (TrimLeft(s) == "" || !IsSpace(TrimLeft(s)[0]))
  {
    before := "";
    if s != "" && IsSpace(s[0]) {
      var rest := TrimmedLeft(s[1..]);
      before := [s[0]] + rest;
    }
  }

  lemma {:induction false} TrimmedRight(s: string) returns (after: string)
    ensures AllSpace(after) && s == TrimRight(s) + after
    ensures TrimRight(s) == "" || !IsSpace(TrimRight(s)[|TrimRight(s)| - 1])
  {
    after := "";
    if s != "" && IsSpace(s[|s| - 1]) {
      var rest := TrimmedRight(s[..|s| - 1]);
      after := rest + [s[|s| - 1]];
    }
  }

  lemma SpaceIsStripped(before: string, trimmed: string, after: string)
    requires AllSpace(before) && AllSpace(after) && IsTrimmed(trimmed)
    ensures Strip(before + trimmed + after) == trimmed
  {
    if trimmed == "" {
      assert AllSpace(before + after) && before + trimmed + after == before + after + "";
      TrimsLeft(before + after, "");
    } else {
      assert before + trimmed + after == before + (trimmed + after);
      TrimsLeft(before, trimmed + after);
      TrimsRight(trimmed, after);
    }
  }

  // `str.strip`
  lemma StripIsExact(s: string, trimmed: string)
    ensures Strip(s) == trimmed <==> IsStripOf(trimmed, s)
  {
    if IsStripOf(trimmed, s) {
      var before, after :| s == before + trimmed + after && AllSpace(before) && AllSpace(after);
      SpaceIsStripped(before, trimmed, after);
    }
    var before := TrimmedLeft(s);
    var body := TrimLeft(s);
    var after := TrimmedRight(body);
    var rest := TrimRight(body);
    assert rest != "" ==> rest[0] == body[0];
    assert s == before + rest + after;
  }

  // `separator.join(parts)`.
  function Join(parts: seq<string>, separator: string): string {
    if parts == [] then ""
    else if |parts| == 1 then parts[0]
    else parts[0] + separator + Join(parts[1..], separator)
  }

  lemma {:induction false} JoinAppend(a: seq<string>, b: seq<string>, separator: string)
    requires a != [] && b != []
    ensures Join(a + b, separator) == Join(a, separator) + separator + Join(b, separator)
  {
    if |a| > 1 {
      assert (a + b)[1..] == a[1..] + b;
      JoinAppend(a[1..], b, separator);
    } else {
      assert (a + b)[1..] == b;
    }
  }

  // `str(n)` for a natural number.
  function Decimal(n: nat): (digits: string)
    ensures digits != []
  {
    if n < 10 then [Digit(n)] else Decimal(n / 10) + [Digit(n % 10)]
  }

  function Digit(n: nat): char
    requires n < 10
  {
    (n + '0' as int) as char
  }

  lemma {:induction false} DecimalIsInjective(m: nat, n: nat)
    requires Decimal(m) == Decimal(n)
    ensures m == n
  {
    var a, b := Decimal(m), Decimal(n);
    assert a[|a| - 1] == Digit(m % 10) && b[|b| - 1] == Digit(n % 10);
    if m >= 10 && n >= 10 {
      assert a[..|a| - 1] == Decimal(m / 10) && b[..|b| - 1] == Decimal(n / 10);
      DecimalIsInjective(m / 10, n / 10);
    }
  }
}
