// `str.encode("utf-8")` and its inverse (RFC 3629, section 3).
module Utf8 {
  import opened Wrappers

  type Byte = n: int | 0 <= n < 256

  function EncodeChar(c: char): (bytes: seq<Byte>)
    ensures bytes != []
  {
    var n := c as int;
    if n < 0x80 then [n]
    else if n < 0x800 then [0xC0 + n / 64, Continuation(n)]
    else if n < 0x10000 then [0xE0 + n / 64 / 64, Continuation(n / 64), Continuation(n)]
    else [0xF0 + n / 64 / 64 / 64, Continuation(n / 64 / 64), Continuation(n / 64), Continuation(n)]
  }

  function Continuation(n: nat): Byte {
    0x80 + n % 64
  }

  function Encode(s: string): seq<Byte> {
    if s == [] then [] else EncodeChar(s[0]) + Encode(s[1..])
  }

  predicate IsContinuation(b: Byte) {
    0x80 <= b < 0xC0
  }

  predicate AllContinue(tail: seq<Byte>) {
    forall i :: 0 <= i < |tail| ==> IsContinuation(tail[i])
  }

  predicate IsScalar(n: int) {
    0 <= n < 0xD800 || 0xE000 <= n < 0x11_0000
  }

  // The number of bytes the first byte announces, and the bits it carries.
  function Lead(b: Byte): Option<(nat, nat)> {
    if b < 0x80 then Some((1, b))
    else if 0xC0 <= b < 0xE0 then Some((2, b - 0xC0))
    else if 0xE0 <= b < 0xF0 then Some((3, b - 0xE0))
    else if 0xF0 <= b < 0xF8 then Some((4, b - 0xF0))
    else None
  }

  function Gather(bits: nat, tail: seq<Byte>): nat
    requires AllContinue(tail)
    decreases |tail|
  {
    if tail == [] then bits else Gather(bits * 64 + (tail[0] as int - 0x80), tail[1..])
  }

  // None stands for UnicodeDecodeError; an over-long form is one.
  function Decode(bytes: seq<Byte>): Option<string> {
    if bytes == [] then Some("")
    else
      match Lead(bytes[0])
      case None => None
      case Some((length, bits)) =>
        if length > |bytes| || !AllContinue(bytes[1..length]) then None
        else
          var n := Gather(bits, bytes[1..length]);
          if !IsScalar(n) || |EncodeChar(n as char)| != length then None
          else
            match Decode(bytes[length..])
            case None => None
            case Some(rest) => Some([n as char] + rest)
  }

  lemma CharReadsBack(c: char)
    ensures var bytes := EncodeChar(c);
      exists bits :: Lead(bytes[0]) == Some((|bytes|, bits))
        && AllContinue(bytes[1..]) && Gather(bits, bytes[1..]) == c as int
  {
    var bytes, n := EncodeChar(c), c as int;
    assert AllContinue(bytes[1..]);
    var bits := Lead(bytes[0]).value.1;
    if |bytes| == 2 {
      assert bytes[1..] == [Continuation(n)];
      assert Gather(bits, bytes[1..]) == Gather(n, []);
    } else if |bytes| == 3 {
      assert bytes[1..] == [Continuation(n / 64), Continuation(n)];
      assert Gather(bits, bytes[1..]) == Gather(n / 64, [Continuation(n)]) == Gather(n, []);
    } else if |bytes| == 4 {
      assert bytes[1..] == [Continuation(n / 64 / 64), Continuation(n / 64), Continuation(n)];
      assert Gather(bits, bytes[1..]) == Gather(n / 64 / 64, [Continuation(n / 64), Continuation(n)])
          == Gather(n / 64, [Continuation(n)]) == Gather(n, []);
    }
    assert Gather(bits, bytes[1..]) == n;
  }

  lemma {:induction false} EncodeReadsBack(s: string)
    ensures Decode(Encode(s)) == Some(s)
  {
    if s != [] {
      var head, tail := EncodeChar(s[0]), Encode(s[1..]);
      var bytes := head + tail;
      CharReadsBack(s[0]);
      assert bytes[1..|head|] == head[1..] && bytes[|head|..] == tail;
      EncodeReadsBack(s[1..]);
      assert s == [s[0]] + s[1..];
    }
  }

  lemma ContinuationIs(high: nat, b: Byte)
    requires IsContinuation(b)
    ensures var n := high * 64 + (b - 0x80); n / 64 == high && Continuation(n) == b
  {
  }

  lemma GatheredChar(head: seq<Byte>, bits: nat)
    requires head != [] && Lead(head[0]) == Some((|head|, bits)) && AllContinue(head[1..])
    requires IsScalar(Gather(bits, head[1..])) && |EncodeChar(Gather(bits, head[1..]) as char)| == |head|
    ensures EncodeChar(Gather(bits, head[1..]) as char) == head
  {
    var n := Gather(bits, head[1..]);
    if |head| == 1 {
      assert head[1..] == [];
    } else {
      ContinuationIs(bits, head[1]);
      var two := bits * 64 + (head[1] - 0x80);
      assert head[1..][1..] == head[2..];
      if |head| == 2 {
        assert head[2..] == [] && n == Gather(two, []);
      } else {
        ContinuationIs(two, head[2]);
        var three := two * 64 + (head[2] - 0x80);
        assert head[2..][1..] == head[3..];
        if |head| == 3 {
          assert head[3..] == [] && n == Gather(two, head[2..]) == Gather(three, []);
        } else {
          ContinuationIs(three, head[3]);
          var four := three * 64 + (head[3] - 0x80);
          assert head[3..][1..] == [] && n == Gather(two, head[2..]) == Gather(three, head[3..]) == Gather(four, []);
        }
      }
    }
  }

  // Nothing else decodes to a text than its encoding.
  lemma {:induction false} DecodesExactly(bytes: seq<Byte>, s: string)
    ensures Decode(bytes) == Some(s) <==> bytes == Encode(s)
    decreases |bytes|
  {
    EncodeReadsBack(s);
    if Decode(bytes) == Some(s) && bytes != [] {
      var (length, bits) := Lead(bytes[0]).value;
      var head := bytes[..length];
      assert head[1..] == bytes[1..length];
      GatheredChar(head, bits);
      DecodesExactly(bytes[length..], s[1..]);
      assert bytes == head + bytes[length..];
    }
  }
}
