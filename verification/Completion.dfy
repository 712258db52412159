// What it takes for a workflow to be completed, in every run.
module Completion {
  import opened Wrappers
  import opened Json
  import opened Models
  import opened Redaction
  import opened Egress
  import opened Execution
  import opened WorkflowProtocol
  import Hashing
  import Dispatcher
  import Policy

  // A call of the k-th step got out, and this is what it was answered, with success.
  ghost predicate IsDone(keys: Keys, accepted: seq<Accepted>, b: Begun, token: TokenResponse, k: nat, result: Json) {
    k < |b.record.proposal.steps| &&
    (exists i :: 0 <= i < |accepted| &&
      IsCallOf(accepted[i].request, b.record, b.approval, token, b.record.proposal.steps[k], keys)) &&
    exists reply :: ReportsSuccess(Answer(reply)) && result == StripKeys(Obj(reply), IsBrowserPrivate)
  }

  // So were the first steps, with a token for an audience.
  ghost predicate AreDone(keys: Keys, accepted: seq<Accepted>, b: Begun, token: TokenResponse, results: seq<Json>) {
    && token.audience.Some? && token.audience.value != "" && |results| <= |b.record.proposal.steps|
    && forall k :: 0 <= k < |results| ==> IsDone(keys, accepted, b, token, k, results[k])
  }

  ghost predicate CallIsDone(keys: Keys, s: State, c: Call) {
    c.entry < |s.begun| &&
    match c.token
    case None => c.results == []
    case Some(token) => AreDone(keys, s.accepted, s.begun[c.entry], token, c.results)
  }

  // The record is completed from this approval: all of its steps are done.
  ghost predicate IsCompletedFrom(keys: Keys, s: State, r: WorkflowRecord, e: nat, token: TokenResponse) {
    && e < |s.begun| && r == s.begun[e].record.(status := Completed, egressResults := r.egressResults)
    && |r.egressResults| == |r.proposal.steps| && AreDone(keys, s.accepted, s.begun[e], token, r.egressResults)
  }

  ghost predicate IsCompletedRightly(keys: Keys, s: State, r: WorkflowRecord) {
    r.status == Completed ==> exists e: nat, token :: IsCompletedFrom(keys, s, r, e, token)
  }

  ghost predicate CallsAreDone(keys: Keys, s: State) {
    forall c <- s.calls :: CallIsDone(keys, s, s.calls[c])
  }

  ghost predicate CompletedAreDone(keys: Keys, s: State) {
    forall id <- s.store :: IsCompletedRightly(keys, s, s.store[id])
  }

  // What is done stays done: approvals and accepted calls are only added.
  ghost predicate Grows(s: State, s': State) {
    s.begun <= s'.begun && s.accepted <= s'.accepted
  }

  lemma DoneStaysDone(keys: Keys, s: State, s': State, b: Begun, token: TokenResponse, results: seq<Json>)
    requires Grows(s, s') && AreDone(keys, s.accepted, b, token, results)
    ensures AreDone(keys, s'.accepted, b, token, results)
  {
    hide IsCallOf, StripKeys, ReportsSuccess;
    forall k | 0 <= k < |results| ensures IsDone(keys, s'.accepted, b, token, k, results[k]) {
      assert IsDone(keys, s.accepted, b, token, k, results[k]);
      var i :| 0 <= i < |s.accepted| &&
        IsCallOf(s.accepted[i].request, b.record, b.approval, token, b.record.proposal.steps[k], keys);
      assert s'.accepted[i] == s.accepted[i];
    }
  }

  lemma CallStaysDone(keys: Keys, s: State, s': State, c: Call)
    requires Grows(s, s') && CallIsDone(keys, s, c)
    ensures CallIsDone(keys, s', c)
  {
    hide AreDone;
    if c.token.Some? {
      DoneStaysDone(keys, s, s', s.begun[c.entry], c.token.value, c.results);
    }
  }

  lemma CompletedStaysRight(keys: Keys, s: State, s': State, r: WorkflowRecord)
    requires Grows(s, s') && IsCompletedRightly(keys, s, r)
    ensures IsCompletedRightly(keys, s', r)
  {
    hide AreDone;
    if r.status == Completed {
      var e: nat, token :| IsCompletedFrom(keys, s, r, e, token);
      DoneStaysDone(keys, s, s', s.begun[e], token, r.egressResults);
      assert IsCompletedFrom(keys, s', r, e, token);
    }
  }

  // Only these records and calls are new.
  lemma RestStaysDone(keys: Keys, s: State, s': State, ids: set<Id>, calls: set<nat>)
    requires Grows(s, s') && CallsAreDone(keys, s) && CompletedAreDone(keys, s)
    requires forall id <- s'.store :: (id in s.store && s'.store[id] == s.store[id]) || id in ids
    requires forall c <- s'.calls :: (c in s.calls && s'.calls[c] == s.calls[c]) || c in calls
    requires forall id <- ids :: id in s'.store ==> IsCompletedRightly(keys, s', s'.store[id])
    requires forall c <- calls :: c in s'.calls ==> CallIsDone(keys, s', s'.calls[c])
    ensures CallsAreDone(keys, s') && CompletedAreDone(keys, s')
  {
    hide CallIsDone, IsCompletedRightly;
    forall id | id in s'.store ensures IsCompletedRightly(keys, s', s'.store[id]) {
      if id !in ids {
        CompletedStaysRight(keys, s, s', s.store[id]);
      }
    }
    forall c | c in s'.calls ensures CallIsDone(keys, s', s'.calls[c]) {
      if c !in calls {
        CallStaysDone(keys, s, s', s.calls[c]);
      }
    }
  }

  lemma FailingIsRight(keys: Keys, s: State, call: nat, failure: Json)
    requires CallsAreDone(keys, s) && CompletedAreDone(keys, s) && call in s.calls && s.calls[call].entry < |s.begun|
    ensures CallsAreDone(keys, Fail(s, call, failure)) && CompletedAreDone(keys, Fail(s, call, failure))
  {
    RestStaysDone(keys, s, Fail(s, call, failure), {IdOf(s.begun[s.calls[call].entry].record)}, {}) by {
      hide CallIsDone;
    }
  }

  lemma ApprovingIsRight(env: Env, s: State, e: Event)
    requires CallsAreDone(env.keys, s) && CompletedAreDone(env.keys, s) && e.Approve?
    ensures CallsAreDone(env.keys, Next(env, s, e)) && CompletedAreDone(env.keys, Next(env, s, e))
  {
    hide CallsAreDone, CompletedAreDone, AreDone, Receive, SendNext, IsForged, IsPlanned;
    var id := (e.context.tenantId, e.context.userId, e.context.sessionId, e.workflowId);
    var s' := Next(env, s, e);
    if s' != s {
      RestStaysDone(env.keys, s, s', {id}, {e.call});
    }
  }

  lemma ExchangeIsRight(env: Env, s: State, e: Event)
    requires CallsAreDone(env.keys, s) && CompletedAreDone(env.keys, s) && e.Exchange?
    ensures CallsAreDone(env.keys, Next(env, s, e)) && CompletedAreDone(env.keys, Next(env, s, e))
  {
    hide Fail, Receive, SendNext, IsForged, IsPlanned, CompletedAreDone, IsDone;
    var s' := Next(env, s, e);
    if e.call in s.calls && s.calls[e.call].entry < |s.begun| && s.calls[e.call].token.None? {
      assert CallIsDone(env.keys, s, s.calls[e.call]);
      if e.outcome.Some? && Truthy(e.outcome.value.audience) {
        RestStaysDone(env.keys, s, s', {}, {e.call});
      } else {
        FailingIsRight(env.keys, s, e.call, e.failure);
      }
    }
  }

  lemma FinishIsRight(env: Env, s: State, e: Event)
    requires CallsAreDone(env.keys, s) && CompletedAreDone(env.keys, s) && e.Finish?
    ensures CallsAreDone(env.keys, Next(env, s, e)) && CompletedAreDone(env.keys, Next(env, s, e))
  {
    hide Fail, Receive, SendNext, IsForged, IsPlanned, CompletedAreDone, AreDone;
    var s' := Next(env, s, e);
    if s' != s {
      var c := s.calls[e.call];
      var r := CompletedRecord(s.begun[c.entry].record, c.results);
      assert CallIsDone(env.keys, s, c);
      assert IsCompletedFrom(env.keys, s', r, c.entry, c.token.value);
      RestStaysDone(env.keys, s, s', {IdOf(s.begun[c.entry].record)}, {});
    }
  }

  // What a call that got out adds.
  lemma ReceivedIs(env: Env, s: State, encoded: Option<string>, signature: Option<string>, request: EgressRequest,
                   now: Time)
    ensures var s' := Receive(env, s, encoded, signature, request, now);
      && s.accepted <= s'.accepted
      && (EgressMcp(encoded, signature, request, now, env.keys, env.codec).Ok? ==>
            |s'.accepted| == |s.accepted| + 1 && s'.accepted[|s.accepted|].request == request)
  {
    hide EgressMcp, Verified;
  }

  lemma OneMoreDone(keys: Keys, s: State, s': State, c: Call, request: EgressRequest, reply: map<string, Json>)
    requires c.token.Some? && CallIsDone(keys, s, c) && Grows(s, s') && |s'.accepted| == |s.accepted| + 1
    requires |c.results| < |s.begun[c.entry].record.proposal.steps|
    requires var b := s.begun[c.entry];
      IsCallOf(request, b.record, b.approval, c.token.value, b.record.proposal.steps[|c.results|], keys)
    requires s'.accepted[|s.accepted|].request == request && ReportsSuccess(Answer(reply))
    ensures CallIsDone(keys, s', c.(results := c.results + [StripKeys(Obj(reply), IsBrowserPrivate)]))
  {
    hide IsCallOf, StripKeys, ReportsSuccess, IsDone;
    var (b, token, result) := (s.begun[c.entry], c.token.value, StripKeys(Obj(reply), IsBrowserPrivate));
    DoneStaysDone(keys, s, s', b, token, c.results);
    assert IsDone(keys, s'.accepted, b, token, |c.results|, result) by {
      LastIsDone(keys, s'.accepted, b, token, |c.results|, reply);
    }
    var results := c.results + [result];
    assert forall k :: 0 <= k < |c.results| ==> results[k] == c.results[k];
  }

  lemma LastIsDone(keys: Keys, accepted: seq<Accepted>, b: Begun, token: TokenResponse, k: nat,
                   reply: map<string, Json>)
    requires k < |b.record.proposal.steps| && accepted != [] && ReportsSuccess(Answer(reply))
    requires IsCallOf(accepted[|accepted| - 1].request, b.record, b.approval, token, b.record.proposal.steps[k], keys)
    ensures IsDone(keys, accepted, b, token, k, StripKeys(Obj(reply), IsBrowserPrivate))
  {
    hide IsCallOf, StripKeys, ReportsSuccess;
  }

  lemma FailingIs(s: State, t: State, call: nat, failure: Json)
    requires call in s.calls && s.calls[call].entry < |s.begun|
    requires t.store == s.store && t.calls == s.calls && t.begun == s.begun
    ensures var f := Fail(t, call, failure);
      && f.store == Fail(s, call, failure).store && f.calls == s.calls - {call} && f.begun == s.begun
      && f.accepted == t.accepted
  {
  }

  ghost predicate IsGivenUp(s: State, s': State, e: Event)
    requires e.Send? && e.call in s.calls && s.calls[e.call].entry < |s.begun|
  {
    s'.store == Fail(s, e.call, e.failure).store && s'.calls == s.calls - {e.call}
  }

  // The next step got out and was answered with success.
  ghost predicate GotThrough(keys: Keys, s: State, s': State, e: Event)
    requires e.Send? && e.call in s.calls && s.calls[e.call].entry < |s.begun| && s.calls[e.call].token.Some?
    requires |s.calls[e.call].results| < |s.begun[s.calls[e.call].entry].record.proposal.steps|
  {
    var c := s.calls[e.call];
    var (b, i) := (s.begun[c.entry], |c.results|);
    && |s'.accepted| == |s.accepted| + 1 && s'.store == s.store && e.reply.Answer? && ReportsSuccess(e.reply)
    && IsCallOf(s'.accepted[|s.accepted|].request, b.record, b.approval, c.token.value, b.record.proposal.steps[i],
         keys)
    && s'.calls == s.calls[e.call := c.(results := c.results + [StripKeys(Obj(e.reply.result), IsBrowserPrivate)])]
  }

  // The next step of a call is tried: it fails, or it got out and was answered with success.
  lemma SentIs(env: Env, s: State, e: Event)
    requires e.Send? && e.call in s.calls && s.calls[e.call].entry < |s.begun| && s.calls[e.call].token.Some?
    requires |s.calls[e.call].results| < |s.begun[s.calls[e.call].entry].record.proposal.steps|
    ensures var s' := Next(env, s, e);
      Grows(s, s') && s'.begun == s.begun && (IsGivenUp(s, s', e) || GotThrough(env.keys, s, s', e))
  {
    var c := s.calls[e.call];
    var (b, token, i) := (s.begun[c.entry], c.token.value, |c.results|);
    var step := b.record.proposal.steps[i];
    StepOutcomeIsExact(b.record, b.approval, token, step, e.now, e.reply, env.keys);
    var headers := SentHeaders(b.record, b.approval, e.now, env.keys, env.codec);
    FailingIs(s, s, e.call, e.failure);
    hide StepOutcome, BuildRequest, SentHeaders, EgressMcp, Receive, IsCallOf, CanBeSent, ReportsSuccess, IsStepError,
         StripKeys, IsForged, IsPlanned, Fail;
    var built := BuildRequest(b.record, b.approval, token, step, e.now, env.keys);
    if built.Ok? {
      BuiltRequestIsGranted(b, token, step, e.now, env.keys);
      var sent := s.(signed := s.signed + [Signed(c.entry, i, token, built.value.executionGrant.value)]);
      ReceivedIs(env, sent, headers.0, headers.1, built.value, e.checkedAt);
      FailingIs(s, sent, e.call, e.failure);
      FailingIs(s, Receive(env, sent, headers.0, headers.1, built.value, e.checkedAt), e.call, e.failure);
    }
  }

  lemma SendIsRight(env: Env, s: State, e: Event)
    requires CallsAreDone(env.keys, s) && CompletedAreDone(env.keys, s) && e.Send?
    ensures CallsAreDone(env.keys, Next(env, s, e)) && CompletedAreDone(env.keys, Next(env, s, e))
  {
    hide SendNext, Receive, IsForged, IsPlanned, CompletedAreDone, IsCallOf, ReportsSuccess, StripKeys, Fail;
    var s' := Next(env, s, e);
    if s' != s {
      SentIs(env, s, e);
      hide Next;
      var c := s.calls[e.call];
      assert CallIsDone(env.keys, s, c);
      if s'.store == s.store && e.call in s'.calls {
        OneMoreDone(env.keys, s, s', c, s'.accepted[|s.accepted|].request, e.reply.result);
        hide CallIsDone, CallsAreDone;
        RestStaysDone(env.keys, s, s', {}, {e.call});
      } else {
        hide CallIsDone, CallsAreDone;
        FailedRecordIsNotCompleted(env.keys, s, s', e.call, e.failure);
        RestStaysDone(env.keys, s, s', {IdOf(s.begun[c.entry].record)}, {});
      }
    }
  }

  lemma FailedRecordIsNotCompleted(keys: Keys, s: State, s': State, call: nat, failure: Json)
    requires call in s.calls && s.calls[call].entry < |s.begun| && s'.store == Fail(s, call, failure).store
    ensures var id := IdOf(s.begun[s.calls[call].entry].record);
      && id in s'.store && IsCompletedRightly(keys, s', s'.store[id])
      && forall other <- s'.store :: (other in s.store && s'.store[other] == s.store[other]) || other == id
  {
    hide AreDone;
  }

  lemma PlanIsRight(env: Env, s: State, e: Event)
    requires CallsAreDone(env.keys, s) && CompletedAreDone(env.keys, s) && e.Plan?
    ensures CallsAreDone(env.keys, Next(env, s, e)) && CompletedAreDone(env.keys, Next(env, s, e))
  {
    hide AreDone, Hashing.PlanHash, Policy.Evaluate, Dispatcher.IsDispatched, CallsAreDone, CompletedAreDone;
    var s' := Next(env, s, e);
    if s' != s {
      RestStaysDone(env.keys, s, s', {IdOf(e.record)}, {});
    }
  }

  lemma ForeignIsRight(env: Env, s: State, e: Event)
    requires CallsAreDone(env.keys, s) && CompletedAreDone(env.keys, s) && e.Foreign?
    ensures CallsAreDone(env.keys, Next(env, s, e)) && CompletedAreDone(env.keys, Next(env, s, e))
  {
    hide AreDone, IsForged, Receive, CallsAreDone, CompletedAreDone;
    ReceivedIs(env, s, e.encoded, e.signature, e.egress, e.now);
    RestStaysDone(env.keys, s, Next(env, s, e), {}, {});
  }

  lemma NextIsRight(env: Env, s: State, e: Event)
    requires CallsAreDone(env.keys, s) && CompletedAreDone(env.keys, s)
    ensures CallsAreDone(env.keys, Next(env, s, e)) && CompletedAreDone(env.keys, Next(env, s, e))
  {
    hide Next, CallsAreDone, CompletedAreDone;
    match e
    case Plan(_) => PlanIsRight(env, s, e);
    case Approve(_, _, _, _, _, _, _) => ApprovingIsRight(env, s, e);
    case Exchange(_, _, _) => ExchangeIsRight(env, s, e);
    case Send(_, _, _, _, _) => SendIsRight(env, s, e);
    case Finish(_) => FinishIsRight(env, s, e);
    case Foreign(_, _, _, _) => ForeignIsRight(env, s, e);
  }

  lemma {:induction false} RunIsRight(env: Env, events: seq<Event>)
    ensures CallsAreDone(env.keys, Run(env, START, events)) && CompletedAreDone(env.keys, Run(env, START, events))
  {
    hide Next;
    if events != [] {
      hide CallsAreDone, CompletedAreDone;
      RunIsRight(env, events[..|events| - 1]);
      NextIsRight(env, Run(env, START, events[..|events| - 1]), events[|events| - 1]);
    }
  }

  // In every run, a stored record is completed only if it was approved, a call of each of its steps
  // got out of the gateway under that approval, and each was answered with success; the record holds
  // these answers in the order of the steps.
  lemma CompletedMeansDone(env: Env, events: seq<Event>, id: Id) returns (e: nat, token: TokenResponse)
    requires var s := Run(env, START, events); id in s.store && s.store[id].status == Completed
    ensures var s := Run(env, START, events); IsCompletedFrom(env.keys, s, s.store[id], e, token)
  {
    hide Run, IsCompletedFrom;
    RunIsRight(env, events);
    var s := Run(env, START, events);
    assert IsCompletedRightly(env.keys, s, s.store[id]);
    e, token :| IsCompletedFrom(env.keys, s, s.store[id], e, token);
  }
}
