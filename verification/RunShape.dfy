// What it means for a stream to be a run, said of the places of its events.
module RunShape {
  import opened Wrappers
  import opened Sse
  import opened RunStream

  predicate At(events: seq<Event>, k: nat, t: Token) {
    k < |events| && TokenOf(events[k]) == t
  }

  // Since this start there has been nothing but this content.
  predicate IsOpenedAt(events: seq<Event>, j: nat, k: nat, start: Token, content: Token) {
    j < k && At(events, j, start) && forall m :: j < m < k ==> At(events, m, content)
  }

  predicate IsOpened(events: seq<Event>, k: nat, start: Token, content: Token) {
    exists j :: 0 <= j < k && IsOpenedAt(events, j, k, start, content)
  }

  ghost predicate NothingIsOpen(events: seq<Event>, k: nat) {
    forall id :: !IsOpened(events, k, TextStart(id), TextContent(id)) &&
      !IsOpened(events, k, CallStart(id), CallArgs(id))
  }

  predicate IsStarted(events: seq<Event>, k: nat, id: string) {
    exists j :: 0 <= j < k && (At(events, j, TextStart(id)) || At(events, j, CallStart(id)))
  }

  // The call has ended and has not been answered since.
  predicate IsWaiting(events: seq<Event>, k: nat, id: string) {
    exists j :: 0 <= j < k && At(events, j, CallEnd(id)) && forall m :: j < m < k ==> !At(events, m, CallResult(id))
  }

  // What the event at k needs before it: a text or a call starts while nothing is open, under an id of
  // its own; content and ends follow their start; a result follows the end of its call, once; a run
  // finishes while nothing is open and no call waits.
  ghost predicate IsInPlace(events: seq<Event>, k: nat)
    requires k < |events|
  {
    if k == 0 then TokenOf(events[0]) == Started
    else
      match TokenOf(events[k])
      case TextStart(id) => NothingIsOpen(events, k) && !IsStarted(events, k, id)
      case CallStart(id) => NothingIsOpen(events, k) && !IsStarted(events, k, id)
      case TextContent(id) => IsOpened(events, k, TextStart(id), TextContent(id))
      case TextEnd(id) => IsOpened(events, k, TextStart(id), TextContent(id))
      case CallArgs(id) => IsOpened(events, k, CallStart(id), CallArgs(id))
      case CallEnd(id) => IsOpened(events, k, CallStart(id), CallArgs(id))
      case CallResult(id) => NothingIsOpen(events, k) && IsWaiting(events, k, id)
      case Notice => NothingIsOpen(events, k)
      case Finished => NothingIsOpen(events, k) && forall id :: !IsWaiting(events, k, id)
      case Errored => true
      case Started => false
      case Unknown => false
  }

  // What a phase knows of the first k events.
  ghost predicate Knows(p: Phase, events: seq<Event>, k: nat) {
    && k > 0 && p.Running? && (p.text.None? || p.call.None?)
    && (forall id :: p.text == Some(id) <==> IsOpened(events, k, TextStart(id), TextContent(id)))
    && (forall id :: p.call == Some(id) <==> IsOpened(events, k, CallStart(id), CallArgs(id)))
    && (forall id :: id in p.used <==> IsStarted(events, k, id))
    && (forall id :: id in p.waiting <==> IsWaiting(events, k, id))
  }

  lemma AtIsOne(events: seq<Event>, k: nat, a: Token, b: Token)
    requires a != b
    ensures !(At(events, k, a) && At(events, k, b))
  {
    hide TokenOf;
  }

  lemma OpenedAtLater(events: seq<Event>, j: nat, k: nat, start: Token, content: Token)
    requires k < |events| && j <= k
    ensures IsOpenedAt(events, j, k + 1, start, content) <==>
      if j == k then At(events, k, start)
      else At(events, k, content) && IsOpenedAt(events, j, k, start, content)
  {
    hide At;
  }

  lemma OpenedLater(events: seq<Event>, k: nat, start: Token, content: Token)
    requires k < |events|
    ensures IsOpened(events, k + 1, start, content) <==>
      At(events, k, start) || (At(events, k, content) && IsOpened(events, k, start, content))
  {
    hide At, IsOpenedAt;
    var next := k + 1;
    if IsOpened(events, next, start, content) {
      var j :| 0 <= j < next && IsOpenedAt(events, j, next, start, content);
      OpenedAtLater(events, j, k, start, content);
    }
    if IsOpened(events, k, start, content) {
      var j :| 0 <= j < k && IsOpenedAt(events, j, k, start, content);
      OpenedAtLater(events, j, k, start, content);
      assert At(events, k, content) ==> IsOpenedAt(events, j, next, start, content);
    }
    OpenedAtLater(events, k, k, start, content);
    assert At(events, k, start) ==> IsOpenedAt(events, k, next, start, content);
  }

  lemma StartedLater(events: seq<Event>, k: nat, id: string)
    requires k < |events|
    ensures IsStarted(events, k + 1, id) <==>
      IsStarted(events, k, id) || At(events, k, TextStart(id)) || At(events, k, CallStart(id))
  {
    hide At;
  }

  lemma WaitingLater(events: seq<Event>, k: nat, id: string)
    requires k < |events|
    ensures IsWaiting(events, k + 1, id) <==>
      At(events, k, CallEnd(id)) || (IsWaiting(events, k, id) && !At(events, k, CallResult(id)))
  {
    AtIsOne(events, k, CallEnd(id), CallResult(id));
    hide At;
    if At(events, k, CallEnd(id)) {
      assert 0 <= k < k + 1 && At(events, k, CallEnd(id));
    }
  }

  // One more event: the phase stays known, and it is broken exactly by an event out of place.
  lemma NextIsKnown(p: Phase, events: seq<Event>, k: nat)
    requires k < |events| && Knows(p, events, k)
    ensures var next := Advance(p, TokenOf(events[k]));
      && (next != Broken <==> IsInPlace(events, k))
      && (next != Broken && !IsTerminal(TokenOf(events[k])) ==> Knows(next, events, k + 1))
      && (next != Broken && IsTerminal(TokenOf(events[k])) ==> next == Ended)
  {
    var t := TokenOf(events[k]);
    assert forall u: Token :: At(events, k, u) <==> t == u;
    forall id
      ensures IsOpened(events, k + 1, TextStart(id), TextContent(id)) <==>
        t == TextStart(id) || (t == TextContent(id) && IsOpened(events, k, TextStart(id), TextContent(id)))
      ensures IsOpened(events, k + 1, CallStart(id), CallArgs(id)) <==>
        t == CallStart(id) || (t == CallArgs(id) && IsOpened(events, k, CallStart(id), CallArgs(id)))
      ensures IsStarted(events, k + 1, id) <==> IsStarted(events, k, id) || t == TextStart(id) || t == CallStart(id)
      ensures IsWaiting(events, k + 1, id) <==>
        t == CallEnd(id) || (IsWaiting(events, k, id) && t != CallResult(id))
    {
      OpenedLater(events, k, TextStart(id), TextContent(id));
      OpenedLater(events, k, CallStart(id), CallArgs(id));
      StartedLater(events, k, id);
      WaitingLater(events, k, id);
    }
    hide IsOpened, IsStarted, IsWaiting, TokenOf, At;
    PlaceIs(p, events, k);
    KnownLater(p, events, k);
  }

  lemma PlaceIs(p: Phase, events: seq<Event>, k: nat)
    requires k < |events| && Knows(p, events, k)
    ensures var next := Advance(p, TokenOf(events[k]));
      && (next != Broken <==> IsInPlace(events, k))
      && (next != Broken && IsTerminal(TokenOf(events[k])) ==> next == Ended)
  {
    hide IsOpened, IsStarted, IsWaiting, TokenOf, At;
    assert NothingIsOpen(events, k) <==> p.text == None && p.call == None;
    assert (forall id :: !IsWaiting(events, k, id)) <==> p.waiting == {};
    hide NothingIsOpen;
  }

  lemma KnownLater(p: Phase, events: seq<Event>, k: nat)
    requires k < |events| && Knows(p, events, k)
    requires var t := TokenOf(events[k]); forall id ::
      && (IsOpened(events, k + 1, TextStart(id), TextContent(id)) <==>
           t == TextStart(id) || (t == TextContent(id) && IsOpened(events, k, TextStart(id), TextContent(id))))
      && (IsOpened(events, k + 1, CallStart(id), CallArgs(id)) <==>
           t == CallStart(id) || (t == CallArgs(id) && IsOpened(events, k, CallStart(id), CallArgs(id))))
      && (IsStarted(events, k + 1, id) <==> IsStarted(events, k, id) || t == TextStart(id) || t == CallStart(id))
      && (IsWaiting(events, k + 1, id) <==> t == CallEnd(id) || (IsWaiting(events, k, id) && t != CallResult(id)))
    ensures var next := Advance(p, TokenOf(events[k]));
      next != Broken && !IsTerminal(TokenOf(events[k])) ==> Knows(next, events, k + 1)
  {
    hide IsOpened, IsStarted, IsWaiting, TokenOf, At;
  }

  lemma FirstIsKnown(events: seq<Event>)
    requires events != [] && TokenOf(events[0]) == Started
    ensures Knows(FRESH, events, 1)
  {
    hide TokenOf;
  }

  // The first k events lead to a phase that knows them exactly when they are in place and no end is
  // among them.
  lemma {:induction false} PrefixIsKnown(events: seq<Event>, k: nat)
    requires 0 < k <= |events|
    ensures var p := Accept(Before, events[..k]);
      if forall i :: 0 <= i < k ==> IsInPlace(events, i) && !IsTerminal(TokenOf(events[i])) then Knows(p, events, k)
      else !p.Running?
  {
    hide TokenOf, IsInPlace, Advance, Knows;
    var n := k - 1;
    var p := Accept(Before, events[..n]);
    assert events[..k] == events[..n] + [events[n]];
    AcceptSplits(Before, events[..n], [events[n]]);
    AcceptOne(p, events[n]);
    if n == 0 {
      FirstStep(events);
    } else {
      PrefixIsKnown(events, n);
      if forall i :: 0 <= i < n ==> IsInPlace(events, i) && !IsTerminal(TokenOf(events[i])) {
        NextIsKnown(p, events, n);
        LaterStep(p, events, n);
      } else {
        StaysOut(p, TokenOf(events[n]), n, events);
      }
    }
  }

  lemma FirstStep(events: seq<Event>)
    requires events != []
    ensures var next := Advance(Before, TokenOf(events[0]));
      if IsInPlace(events, 0) && !IsTerminal(TokenOf(events[0])) then Knows(next, events, 1) else !next.Running?
  {
    if TokenOf(events[0]) == Started {
      FirstIsKnown(events);
    }
    hide TokenOf, Knows;
  }

  lemma LaterStep(p: Phase, events: seq<Event>, n: nat)
    requires n < |events| && Knows(p, events, n)
    requires var next := Advance(p, TokenOf(events[n]));
      && (next != Broken <==> IsInPlace(events, n))
      && (next != Broken && !IsTerminal(TokenOf(events[n])) ==> Knows(next, events, n + 1))
      && (next != Broken && IsTerminal(TokenOf(events[n])) ==> next == Ended)
    ensures var next := Advance(p, TokenOf(events[n]));
      if IsInPlace(events, n) && !IsTerminal(TokenOf(events[n])) then Knows(next, events, n + 1) else !next.Running?
  {
    hide TokenOf, IsInPlace;
  }

  lemma StaysOut(p: Phase, t: Token, n: nat, events: seq<Event>)
    requires !p.Running? && 0 < n <= |events| && p == Accept(Before, events[..n])
    ensures !Advance(p, t).Running?
  {
    hide TokenOf;
    if p == Before {
      NothingComesBefore(Advance(Before, TokenOf(events[0])), events[..n][1..]);
    }
  }

  // A stream is a run exactly when every event is in its place and its last event, and no other, is
  // an end.
  lemma RunsAreInPlace(events: seq<Event>)
    ensures IsRun(events) <==>
      events != [] && IsTerminal(TokenOf(events[|events| - 1])) &&
      (forall i :: 0 <= i < |events| ==> IsInPlace(events, i)) &&
      forall i :: 0 <= i < |events| - 1 ==> !IsTerminal(TokenOf(events[i]))
  {
    hide TokenOf, Advance, IsInPlace, Knows;
    if |events| > 1 {
      var n := |events| - 1;
      var p := Accept(Before, events[..n]);
      assert events == events[..n] + [events[n]];
      AcceptSplits(Before, events[..n], [events[n]]);
      AcceptOne(p, events[n]);
      PrefixIsKnown(events, n);
      if IsRun(events) {
        ProperPrefixIsRunning(events, n);
        NextIsKnown(p, events, n);
        EndIsTerminal(p, TokenOf(events[n]));
      } else if forall i :: 0 <= i < n ==> IsInPlace(events, i) && !IsTerminal(TokenOf(events[i])) {
        NextIsKnown(p, events, n);
      }
    } else if |events| == 1 {
      AcceptOne(Before, events[0]);
      assert events == [events[0]];
      OnlyOne(events);
    } else {
      assert Accept(Before, events) == Before;
    }
  }

  lemma OnlyOne(events: seq<Event>)
    requires |events| == 1
    ensures Advance(Before, TokenOf(events[0])) != Ended
    ensures !(IsInPlace(events, 0) && IsTerminal(TokenOf(events[0])))
  {
    hide TokenOf;
  }

  lemma EndIsTerminal(p: Phase, t: Token)
    requires p.Running? && Advance(p, t) == Ended
    ensures IsTerminal(t)
  {
  }
}
