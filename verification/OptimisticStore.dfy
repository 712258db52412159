// The optimistic update loop over one Redis key: WATCH, GET, compute, MULTI / SET / EXEC, again
// from WATCH when the transaction was dropped.  Any number of clients run it at once, each
// command one step, with blind writes in between.
module OptimisticStore {
  import opened Wrappers
  import opened Models
  import opened Json

  datatype Field = Int(n: int) | Stamp(at: Time) | Data(json: Json)

  type Payload = map<string, Field>

  // A state model: which payloads validate, and which fields a dump leaves out.
  datatype Schema = Schema(valid: Payload -> bool, hidden: set<string>)

  datatype Update = Update(mutation: Payload, expectedVersion: Option<int>)

  datatype Outcome =
    | Write(payload: Payload)
    | NotFound
    | Malformed
    | InvalidVersion
    | VersionConflict(found: int)

  // `model_dump_json`: what a validated payload leaves in the key.
  function Dump(schema: Schema, p: Payload): Payload {
    p - schema.hidden
  }

  predicate HasVersion(p: Payload) {
    "version" in p && p["version"].Int?
  }

  function Version(p: Payload): int
    requires HasVersion(p)
  {
    p["version"].n
  }

  function Mutated(p: Payload, mutation: Payload, now: Time): Payload
    requires HasVersion(p)
  {
    (p + mutation)["version" := Int(Version(p) + 1)]["updated_at" := Stamp(now)]
  }

  // What one round computes from the blob it read.
  function Attempt(schema: Schema, raw: Option<Payload>, u: Update, now: Time): Outcome {
    match raw
    case None => NotFound
    case Some(p) =>
      if !schema.valid(p) then Malformed
      else if !HasVersion(p) then InvalidVersion
      else if u.expectedVersion.Some? && u.expectedVersion.value != Version(p) then VersionConflict(Version(p))
      else if !schema.valid(Mutated(p, u.mutation, now)) then Malformed
      else Write(Mutated(p, u.mutation, now))
  }

  // ---- What an update leaves in each field ----

  function At(p: Payload, key: string): Option<Field> {
    if key in p then Some(p[key]) else None
  }

  predicate HasNumber(p: Payload, version: int) {
    At(p, "version") == Some(Int(version))
  }

  function VersionOf(p: Payload): int {
    match At(p, "version") case Some(Int(n)) => n case _ => 0
  }

  // The record that is written, field by field: the next version, the time of the update, what
  // the mutation says, and everything else as it was read.
  ghost predicate IsUpdateOf(written: Payload, read: Payload, u: Update, now: Time) {
    forall key ::
      At(written, key)
      == if key == "updated_at" then Some(Stamp(now))
         else if key == "version" then Some(Int(VersionOf(read) + 1))
         else if key in u.mutation then Some(u.mutation[key])
         else At(read, key)
  }

  // What is stored of it.
  ghost predicate IsStored(schema: Schema, stored: Payload, written: Payload) {
    forall key :: At(stored, key) == if key in schema.hidden then None else At(written, key)
  }

  // The record has a version, and it is the one that the update expects.
  predicate IsExpected(p: Payload, u: Update) {
    HasNumber(p, VersionOf(p)) && (u.expectedVersion.Some? ==> u.expectedVersion.value == VersionOf(p))
  }

  // When each outcome of a round occurs, on the record that it read.
  ghost predicate IsOutcome(schema: Schema, raw: Option<Payload>, u: Update, now: Time, outcome: Outcome) {
    match outcome
    case NotFound => raw == None
    case Malformed =>
      raw.Some? &&
      (!schema.valid(raw.value) ||
       (IsExpected(raw.value, u) && exists written :: IsUpdateOf(written, raw.value, u, now) && !schema.valid(written)))
    case InvalidVersion => raw.Some? && schema.valid(raw.value) && !HasNumber(raw.value, VersionOf(raw.value))
    case VersionConflict(found) =>
      raw.Some? && schema.valid(raw.value) && HasNumber(raw.value, found) &&
      u.expectedVersion.Some? && u.expectedVersion.value != found
    case Write(written) =>
      raw.Some? && schema.valid(raw.value) && IsExpected(raw.value, u) && IsUpdateOf(written, raw.value, u, now) &&
      schema.valid(written)
  }

  // At most one outcome occurs.
  lemma OutcomesExclude(schema: Schema, raw: Option<Payload>, u: Update, now: Time, a: Outcome, b: Outcome)
    requires IsOutcome(schema, raw, u, now, a) && IsOutcome(schema, raw, u, now, b)
    ensures a == b
  {
    if raw.Some? {
      forall x: Payload, y: Payload | IsUpdateOf(x, raw.value, u, now) && IsUpdateOf(y, raw.value, u, now)
        ensures x == y
      {
        SameFields(x, y) by {
          assert forall key :: At(x, key) == At(y, key);
        }
      }
    }
  }

  lemma SameFields(x: Payload, y: Payload)
    requires forall key :: At(x, key) == At(y, key)
    ensures x == y
  {
    forall key ensures key in x <==> key in y {
      assert At(x, key) == At(y, key);
    }
    forall key | key in x ensures x[key] == y[key] {
      assert At(x, key) == At(y, key);
    }
  }

  lemma AttemptIsExact(schema: Schema, raw: Option<Payload>, u: Update, now: Time)
    ensures IsOutcome(schema, raw, u, now, Attempt(schema, raw, u, now))
  {
    if raw.Some? && HasVersion(raw.value) {
      var p := raw.value;
      assert HasNumber(p, Version(p));
      assert IsUpdateOf(Mutated(p, u.mutation, now), p, u, now);
    }
  }

  lemma DumpIsStored(schema: Schema, written: Payload)
    ensures IsStored(schema, Dump(schema, written), written)
  {
  }

  // ---- All interleavings ----

  datatype Phase =
    | Start
    | Watching
    | Computed(read: Payload, write: Payload, at: Time)
    | Committed(payload: Payload)
    | Raised(outcome: Outcome)

  // `touched` is the server's flag that a watched key was written; `rounds` counts the WATCHes
  // and `watchedAt` the writes that preceded the last of them.
  datatype Client = Client(update: Update, phase: Phase, touched: bool, rounds: nat, watchedAt: nat)

  datatype Entry =
    | Commit(client: nat, read: Payload, stored: Payload, at: Time)
    | Overwrite(value: Option<Payload>)

  datatype State = State(cell: Option<Payload>, clients: seq<Client>, log: seq<Entry>)

  datatype Event =
    | Watch(client: nat)
    | Get(client: nat, now: Time)
    | Exec(client: nat)
    | Set(value: Option<Payload>)

  predicate IsWatching(c: Client) {
    c.phase.Watching? || c.phase.Computed?
  }

  // Every client that watches the key is told of a write.
  function Touch(clients: seq<Client>): (told: seq<Client>)
    ensures |told| == |clients|
    ensures forall i :: 0 <= i < |clients| ==>
      told[i] == if IsWatching(clients[i]) then clients[i].(touched := true) else clients[i]
  {
    seq(|clients|, i requires 0 <= i < |clients| =>
      if IsWatching(clients[i]) then clients[i].(touched := true) else clients[i])
  }

  function AfterGet(schema: Schema, cell: Option<Payload>, c: Client, now: Time): Client {
    match Attempt(schema, cell, c.update, now)
    case Write(p) => c.(phase := Computed(cell.value, p, now))
    case outcome => c.(phase := Raised(outcome))
  }

  // One step; a command that is not the client's next one is no step.
  function Next(schema: Schema, s: State, e: Event): State {
    match e
    case Watch(c) =>
      if c < |s.clients| && s.clients[c].phase == Start then
        var client := s.clients[c];
        s.(clients := s.clients[c :=
          client.(phase := Watching, touched := false, rounds := client.rounds + 1, watchedAt := |s.log|)])
      else s
    case Get(c, now) =>
      if c < |s.clients| && s.clients[c].phase == Watching then
        s.(clients := s.clients[c := AfterGet(schema, s.cell, s.clients[c], now)])
      else s
    case Exec(c) =>
      if c < |s.clients| && s.clients[c].phase.Computed? then
        var client := s.clients[c];
        if client.touched then s.(clients := s.clients[c := client.(phase := Start)])
        else
          var stored := Dump(schema, client.phase.write);
          State(Some(stored), Touch(s.clients[c := client.(phase := Committed(client.phase.write))]),
                s.log + [Commit(c, client.phase.read, stored, client.phase.at)])
      else s
    case Set(value) => State(value, Touch(s.clients), s.log + [Overwrite(value)])
  }

  function Run(schema: Schema, s: State, events: seq<Event>): State {
    if events == [] then s else Next(schema, Run(schema, s, events[..|events| - 1]), events[|events| - 1])
  }

  predicate IsInitial(s: State) {
    s.log == [] &&
    forall i :: 0 <= i < |s.clients| ==> s.clients[i] == Client(s.clients[i].update, Start, false, 0, 0)
  }

  function Value(e: Entry): Option<Payload> {
    match e case Commit(_, _, stored, _) => Some(stored) case Overwrite(value) => value
  }

  // What the key holds before the i-th write.
  function Before(initial: Option<Payload>, log: seq<Entry>, i: nat): Option<Payload>
    requires i <= |log|
  {
    if i == 0 then initial else Value(log[i - 1])
  }

  predicate IsCommitOf(e: Entry, c: nat) {
    e.Commit? && e.client == c
  }

  // The writes of the others.
  function OtherWrites(log: seq<Entry>, c: nat): nat {
    if log == [] then 0
    else OtherWrites(log[..|log| - 1], c) + (if IsCommitOf(log[|log| - 1], c) then 0 else 1)
  }

  // A commit stores the update of exactly the record it replaces.
  predicate ReplacesWhatItRead(schema: Schema, initial: Option<Payload>, s: State, i: nat)
    requires i < |s.log|
  {
    var e := s.log[i];
    e.Commit? ==>
      e.client < |s.clients| && Before(initial, s.log, i) == Some(e.read) &&
      var outcome := Attempt(schema, Some(e.read), s.clients[e.client].update, e.at);
      outcome.Write? && e.stored == Dump(schema, outcome.payload)
  }

  predicate LogIsSound(schema: Schema, initial: Option<Payload>, s: State) {
    && s.cell == Before(initial, s.log, |s.log|)
    && forall i :: 0 <= i < |s.log| ==> ReplacesWhatItRead(schema, initial, s, i)
  }

  // A client that computed holds the write that is right for what it read, and what it read is
  // still there unless it was told of a write.
  predicate HoldsItsWrite(schema: Schema, s: State, c: nat)
    requires c < |s.clients|
  {
    var client := s.clients[c];
    client.phase.Computed? ==>
      Attempt(schema, Some(client.phase.read), client.update, client.phase.at) == Write(client.phase.write) &&
      (!client.touched ==> s.cell == Some(client.phase.read))
  }

  // A watching client was told exactly when the key was written since its WATCH.
  predicate IsToldOfWrites(s: State, c: nat)
    requires c < |s.clients|
  {
    IsWatching(s.clients[c]) ==> (s.clients[c].touched <==> s.clients[c].watchedAt < |s.log|)
  }

  // A client commits at most once, and then is done.
  predicate CommitsOnce(s: State, c: nat)
    requires c < |s.clients|
  {
    && (!s.clients[c].phase.Committed? ==> forall i :: 0 <= i < |s.log| ==> !IsCommitOf(s.log[i], c))
    && (forall i, j :: 0 <= i < j < |s.log| && IsCommitOf(s.log[i], c) ==> !IsCommitOf(s.log[j], c))
  }

  predicate ClientIsSound(schema: Schema, s: State, c: nat)
    requires c < |s.clients|
  {
    HoldsItsWrite(schema, s, c) && IsToldOfWrites(s, c) && CommitsOnce(s, c) && s.clients[c].watchedAt <= |s.log|
  }

  predicate RoundsAreBounded(s: State, c: nat)
    requires c < |s.clients|
  {
    var client, others := s.clients[c], OtherWrites(s.log, c);
    client.rounds <= others + (if client.phase == Start || (IsWatching(client) && client.touched) then 0 else 1)
  }

  predicate Sound(schema: Schema, initial: Option<Payload>, s: State) {
    && LogIsSound(schema, initial, s)
    && (forall c :: 0 <= c < |s.clients| ==> ClientIsSound(schema, s, c))
    && (forall c :: 0 <= c < |s.clients| ==> RoundsAreBounded(s, c))
  }

  lemma LogStaysSound(schema: Schema, initial: Option<Payload>, s: State, e: Event)
    requires Sound(schema, initial, s)
    ensures LogIsSound(schema, initial, Next(schema, s, e))
  {
    hide Attempt, RoundsAreBounded;
    var s' := Next(schema, s, e);
    if e.Exec? && e.client < |s.clients| {
      assert ClientIsSound(schema, s, e.client);
    }
    assert forall c :: 0 <= c < |s.clients| ==> s'.clients[c].update == s.clients[c].update by {
      hide LogIsSound;
    }
    forall i | 0 <= i < |s'.log| ensures ReplacesWhatItRead(schema, initial, s', i) {
      if i < |s.log| {
        assert s'.log[i] == s.log[i] && ReplacesWhatItRead(schema, initial, s, i);
        assert Before(initial, s'.log, i) == Before(initial, s.log, i);
      }
    }
  }

  lemma ClientStaysSound(schema: Schema, initial: Option<Payload>, s: State, e: Event, c: nat)
    requires Sound(schema, initial, s) && c < |s.clients|
    ensures ClientIsSound(schema, Next(schema, s, e), c)
  {
    hide LogIsSound, RoundsAreBounded;
    assert ClientIsSound(schema, s, c);
    var s' := Next(schema, s, e);
    assert HoldsItsWrite(schema, s', c);
    assert IsToldOfWrites(s', c);
    assert CommitsOnce(s', c);
  }

  lemma RoundsStayBounded(schema: Schema, initial: Option<Payload>, s: State, e: Event, c: nat)
    requires Sound(schema, initial, s) && c < |s.clients|
    ensures RoundsAreBounded(Next(schema, s, e), c)
  {
    hide LogIsSound, Attempt;
    var s' := Next(schema, s, e);
    assert ClientIsSound(schema, s, c) && RoundsAreBounded(s, c);
    if |s'.log| > |s.log| {
      assert s'.log[..|s'.log| - 1] == s.log;
    }
  }

  lemma {:induction false} RunIsSound(schema: Schema, s: State, events: seq<Event>)
    requires IsInitial(s)
    ensures Sound(schema, s.cell, Run(schema, s, events))
    ensures |Run(schema, s, events).clients| == |s.clients|
    ensures forall c :: 0 <= c < |s.clients| ==> Run(schema, s, events).clients[c].update == s.clients[c].update
  {
    if events != [] {
      var before := Run(schema, s, events[..|events| - 1]);
      var e := events[|events| - 1];
      RunIsSound(schema, s, events[..|events| - 1]);
      LogStaysSound(schema, s.cell, before, e);
      forall c | 0 <= c < |s.clients|
        ensures ClientIsSound(schema, Next(schema, before, e), c) && RoundsAreBounded(Next(schema, before, e), c)
      {
        ClientStaysSound(schema, s.cell, before, e, c);
        RoundsStayBounded(schema, s.cell, before, e, c);
      }
      hide Sound, AfterGet;
    }
  }

  // ---- What every interleaving keeps ----

  // Blind writes included: every commit is the update of exactly the record it replaces, and no
  // client commits twice.
  lemma CommitsReplaceWhatTheyRead(schema: Schema, s: State, events: seq<Event>, i: nat)
    requires IsInitial(s) && i < |Run(schema, s, events).log|
    requires Run(schema, s, events).log[i].Commit?
    ensures var t := Run(schema, s, events);
      var e := t.log[i];
      && e.client < |s.clients|
      && Before(s.cell, t.log, i) == Some(e.read)
      && Attempt(schema, Some(e.read), s.clients[e.client].update, e.at).Write?
      && e.stored == Dump(schema, Attempt(schema, Some(e.read), s.clients[e.client].update, e.at).payload)
      && (forall j :: 0 <= j < |t.log| && IsCommitOf(t.log[j], e.client) ==> j == i)
      && t.cell == Before(s.cell, t.log, |t.log|)
  {
    RunIsSound(schema, s, events);
    var t := Run(schema, s, events);
    assert ReplacesWhatItRead(schema, s.cell, t, i);
    assert ClientIsSound(schema, t, t.log[i].client);
  }

  // Field by field: a commit leaves the next version, its time, what its mutation says, and all
  // else as it was in the record it replaces, without the fields that a dump leaves out.
  lemma CommitWritesEachField(schema: Schema, s: State, events: seq<Event>, i: nat)
    returns (written: Payload)
    requires IsInitial(s) && i < |Run(schema, s, events).log| && Run(schema, s, events).log[i].Commit?
    ensures var t := Run(schema, s, events);
      var e := t.log[i];
      && e.client < |s.clients| && Before(s.cell, t.log, i) == Some(e.read)
      && schema.valid(e.read) && IsExpected(e.read, s.clients[e.client].update)
      && IsUpdateOf(written, e.read, s.clients[e.client].update, e.at) && schema.valid(written)
      && IsStored(schema, e.stored, written)
  {
    hide Run, Attempt;
    CommitsReplaceWhatTheyRead(schema, s, events, i);
    var e := Run(schema, s, events).log[i];
    AttemptIsExact(schema, Some(e.read), s.clients[e.client].update, e.at);
    written := Attempt(schema, Some(e.read), s.clients[e.client].update, e.at).payload;
    DumpIsStored(schema, written);
  }

  // With k writes by the others, a client needs at most k + 1 rounds; and EXEC drops its
  // transaction exactly when the key was written since its WATCH.
  lemma RetriesAreCausedByOthers(schema: Schema, s: State, events: seq<Event>, c: nat)
    requires IsInitial(s) && c < |s.clients|
    ensures var t := Run(schema, s, events);
      && |t.clients| == |s.clients|
      && t.clients[c].rounds <= OtherWrites(t.log, c) + 1
      && (t.clients[c].phase.Computed? ==>
            (Next(schema, t, Exec(c)).clients[c].phase == Start <==> t.clients[c].watchedAt < |t.log|) &&
            (Next(schema, t, Exec(c)).clients[c].phase.Committed? <==> t.clients[c].watchedAt == |t.log|))
  {
    RunIsSound(schema, s, events);
    var t := Run(schema, s, events);
    assert ClientIsSound(schema, t, c) && RoundsAreBounded(t, c);
  }

  predicate OnlyUpdates(events: seq<Event>) {
    forall i :: 0 <= i < |events| ==> !events[i].Set?
  }

  lemma {:induction false} UpdatesOnlyCommit(schema: Schema, s: State, events: seq<Event>)
    requires IsInitial(s) && OnlyUpdates(events)
    ensures forall i :: 0 <= i < |Run(schema, s, events).log| ==> Run(schema, s, events).log[i].Commit?
  {
    if events != [] {
      UpdatesOnlyCommit(schema, s, events[..|events| - 1]);
      hide AfterGet;
    }
  }

  // The record after the first n commits, as sequential code would have computed it.
  function Replay(schema: Schema, p: Payload, t: State, n: nat): Payload
    requires n <= |t.log| && forall i :: 0 <= i < n ==> t.log[i].Commit? && t.log[i].client < |t.clients|
  {
    if n == 0 then p
    else
      var last, e := Replay(schema, p, t, n - 1), t.log[n - 1];
      if HasVersion(last) then Dump(schema, Mutated(last, t.clients[e.client].update.mutation, e.at)) else last
  }

  lemma {:induction false} CommitsReplay(schema: Schema, p: Payload, t: State, n: nat)
    requires HasVersion(p) && "version" !in schema.hidden
    requires LogIsSound(schema, Some(p), t) && n <= |t.log|
    requires forall i :: 0 <= i < |t.log| ==> t.log[i].Commit? && t.log[i].client < |t.clients|
    ensures Before(Some(p), t.log, n) == Some(Replay(schema, p, t, n))
    ensures HasVersion(Replay(schema, p, t, n)) && Version(Replay(schema, p, t, n)) == Version(p) + n
  {
    if n > 0 {
      CommitsReplay(schema, p, t, n - 1);
      assert ReplacesWhatItRead(schema, Some(p), t, n - 1);
    }
  }

  predicate IsSerial(schema: Schema, p: Payload, t: State)
    requires HasVersion(p)
  {
    && (forall i :: 0 <= i < |t.log| ==> t.log[i].Commit? && t.log[i].client < |t.clients|)
    && t.cell == Some(Replay(schema, p, t, |t.log|))
    && HasVersion(t.cell.value) && Version(t.cell.value) == Version(p) + |t.log|
  }

  function ExpectedVersion(t: State, i: nat): Option<int>
    requires i < |t.log| && t.log[i].Commit? && t.log[i].client < |t.clients|
  {
    t.clients[t.log[i].client].update.expectedVersion
  }

  // Without blind writes every interleaving ends as its commits one by one in EXEC order, and
  // the version counts them.
  lemma InterleavingsAreSerial(schema: Schema, s: State, p: Payload, events: seq<Event>)
    requires IsInitial(s) && s.cell == Some(p) && HasVersion(p) && "version" !in schema.hidden
    requires OnlyUpdates(events)
    ensures IsSerial(schema, p, Run(schema, s, events))
    ensures LogIsSound(schema, Some(p), Run(schema, s, events))
  {
    RunIsSound(schema, s, events);
    UpdatesOnlyCommit(schema, s, events);
    var t := Run(schema, s, events);
    forall i | 0 <= i < |t.log| ensures t.log[i].client < |t.clients| {
      assert ReplacesWhatItRead(schema, Some(p), t, i);
    }
    CommitsReplay(schema, p, t, |t.log|);
  }

  // The mutation of the i-th commit.
  function MutationAt(t: State, i: nat): Payload
    requires i < |t.log| && t.log[i].Commit? && t.log[i].client < |t.clients|
  {
    t.clients[t.log[i].client].update.mutation
  }

  predicate IsOrdinaryField(schema: Schema, key: string) {
    key != "version" && key != "updated_at" && key !in schema.hidden
  }

  // The field comes from the last of the first n commits that set it, or was there before.
  ghost predicate ComesFromLast(initial: Payload, t: State, n: nat, key: string, value: Option<Field>)
    requires n <= |t.log| && forall i :: 0 <= i < n ==> t.log[i].Commit? && t.log[i].client < |t.clients|
  {
    || (value == At(initial, key) && forall i :: 0 <= i < n ==> key !in MutationAt(t, i))
    || (exists i :: 0 <= i < n && key in MutationAt(t, i) && value == Some(MutationAt(t, i)[key]) &&
                    forall j :: i < j < n ==> key !in MutationAt(t, j))
  }

  lemma OneCommitMore(schema: Schema, p: Payload, t: State, n: nat, key: string, value: Option<Field>)
    requires n < |t.log| && IsOrdinaryField(schema, key)
    requires forall i :: 0 <= i < |t.log| ==> t.log[i].Commit? && t.log[i].client < |t.clients|
    requires ComesFromLast(p, t, n, key, value)
    ensures ComesFromLast(p, t, n + 1, key, if key in MutationAt(t, n) then Some(MutationAt(t, n)[key]) else value)
  {
  }

  lemma {:induction false} FieldComesFromLast(schema: Schema, p: Payload, t: State, n: nat, key: string)
    requires LogIsSound(schema, Some(p), t) && n <= |t.log| && IsOrdinaryField(schema, key)
    requires forall i :: 0 <= i < |t.log| ==> t.log[i].Commit? && t.log[i].client < |t.clients|
    ensures Before(Some(p), t.log, n).Some?
    ensures ComesFromLast(p, t, n, key, At(Before(Some(p), t.log, n).value, key))
  {
    hide Attempt, IsOutcome;
    if n > 0 {
      FieldComesFromLast(schema, p, t, n - 1, key);
      hide ComesFromLast;
      var e := t.log[n - 1];
      assert ReplacesWhatItRead(schema, Some(p), t, n - 1);
      OneCommitMore(schema, p, t, n - 1, key, At(e.read, key));
      CommittedField(schema, e.read, t.clients[e.client].update, e.at, key);
    }
  }

  lemma CommittedField(schema: Schema, read: Payload, u: Update, now: Time, key: string)
    requires Attempt(schema, Some(read), u, now).Write? && IsOrdinaryField(schema, key)
    ensures At(Dump(schema, Attempt(schema, Some(read), u, now).payload), key)
      == if key in u.mutation then Some(u.mutation[key]) else At(read, key)
  {
    AttemptIsExact(schema, Some(read), u, now);
    var written := Attempt(schema, Some(read), u, now).payload;
    hide Attempt;
    DumpIsStored(schema, written);
    hide Dump;
    assert IsUpdateOf(written, read, u, now);
  }

  // Without blind writes each field of the final record is that of the last commit whose mutation
  // has it, and is as it was at the start if none has; the time is that of the last commit.
  lemma LastMutationWins(schema: Schema, s: State, p: Payload, events: seq<Event>, key: string)
    requires IsInitial(s) && s.cell == Some(p) && HasVersion(p) && "version" !in schema.hidden
    requires OnlyUpdates(events)
    ensures var t := Run(schema, s, events);
      && t.cell.Some? && (forall i :: 0 <= i < |t.log| ==> t.log[i].Commit? && t.log[i].client < |t.clients|)
      && (IsOrdinaryField(schema, key) ==> ComesFromLast(p, t, |t.log|, key, At(t.cell.value, key)))
      && At(t.cell.value, "version") == Some(Int(VersionOf(p) + |t.log|))
      && (|t.log| > 0 && "updated_at" !in schema.hidden ==>
           At(t.cell.value, "updated_at") == Some(Stamp(t.log[|t.log| - 1].at)))
      && (|t.log| > 0 && key in schema.hidden ==> At(t.cell.value, key) == None)
  {
    hide Run, Attempt, IsOutcome, ComesFromLast, Replay;
    InterleavingsAreSerial(schema, s, p, events);
    var t := Run(schema, s, events);
    if IsOrdinaryField(schema, key) {
      FieldComesFromLast(schema, p, t, |t.log|, key);
    }
    if |t.log| > 0 {
      var written := CommitWritesEachField(schema, s, events, |t.log| - 1);
      assert t.cell == Before(Some(p), t.log, |t.log|);
    }
  }

  // A commit that expected a version is the one that replaced it: the i-th commit expected the
  // initial version plus i, or nothing.
  lemma CommitExpectsItsPlace(schema: Schema, s: State, p: Payload, events: seq<Event>, i: nat)
    requires IsInitial(s) && s.cell == Some(p) && HasVersion(p) && "version" !in schema.hidden
    requires OnlyUpdates(events) && i < |Run(schema, s, events).log|
    ensures var t := Run(schema, s, events);
      && t.log[i].Commit? && t.log[i].client < |t.clients|
      && (ExpectedVersion(t, i).Some? ==> ExpectedVersion(t, i).value == Version(p) + i)
  {
    hide Run;
    var t := Run(schema, s, events);
    InterleavingsAreSerial(schema, s, p, events);
    CommitsReplay(schema, p, t, i);
    assert ReplacesWhatItRead(schema, Some(p), t, i);
  }

  // Of the clients that expect the same version at most one commits.
  lemma ExpectedVersionCommitsOnce(schema: Schema, s: State, p: Payload, events: seq<Event>, c: nat, d: nat)
    requires IsInitial(s) && s.cell == Some(p) && HasVersion(p) && "version" !in schema.hidden
    requires OnlyUpdates(events) && c < |s.clients| && d < |s.clients|
    requires s.clients[c].update.expectedVersion.Some?
    requires s.clients[c].update.expectedVersion == s.clients[d].update.expectedVersion
    ensures var log := Run(schema, s, events).log;
      forall i, j :: 0 <= i < |log| && 0 <= j < |log| && IsCommitOf(log[i], c) && IsCommitOf(log[j], d) ==>
        c == d && i == j
  {
    hide Run;
    var t := Run(schema, s, events);
    RunIsSound(schema, s, events);
    forall i, j | 0 <= i < |t.log| && 0 <= j < |t.log| && IsCommitOf(t.log[i], c) && IsCommitOf(t.log[j], d)
      ensures c == d && i == j
    {
      CommitExpectsItsPlace(schema, s, p, events, i);
      CommitExpectsItsPlace(schema, s, p, events, j);
    }
  }

  // ---- The loop as written ----

  // The key as one pipeline sees it, while other clients make a schedule of writes.
  class WatchedKey {
    const schedule: seq<Option<Payload>>
    var made: nat
    var cell: Option<Payload>
    var touched: bool
    ghost var replaced: Option<Payload>

    ghost predicate Valid()
      reads this
    {
      made <= |schedule|
    }

    // The others make any number of their writes.
    method Interfere()
      requires Valid()
      modifies this`made, this`cell, this`touched
      ensures Valid() && old(made) <= made
      ensures if made == old(made) then cell == old(cell) && touched == old(touched)
              else touched && cell == schedule[made - 1]
    {
      var next :| made <= next <= |schedule|;
      if made < next {
        cell, touched := schedule[next - 1], true;
      }
      made := next;
    }

    method Watch()
      modifies this`touched
      ensures !touched
    {
      touched := false;
    }

    // MULTI, SET and EXEC; false stands for WatchError.
    method Execute(value: Payload) returns (done: bool)
      modifies this`cell, this`replaced
      ensures done == !touched
      ensures cell == if done then Some(value) else old(cell)
      ensures done ==> replaced == old(cell)
    {
      done := !touched;
      if done {
        replaced, cell := cell, Some(value);
      }
    }
  }

  method UpdateJsonModel(schema: Schema, key: WatchedKey, u: Update, clock: nat -> Time)
    returns (outcome: Outcome, rounds: nat)
    requires key.Valid()
    modifies key
    ensures key.Valid() && key.made >= old(key.made)
    // Each further round is paid for by a write of the others.
    ensures 1 <= rounds <= 1 + key.made - old(key.made)
    // The record written is the update of the very record it replaced.
    ensures outcome.Write? ==>
      Attempt(schema, key.replaced, u, clock(rounds)) == outcome && key.cell == Some(Dump(schema, outcome.payload))
    ensures outcome.Write? ==> key.cell.Some? && IsStored(schema, key.cell.value, outcome.payload)
    // An error is called for by what the key holds, which is what the others left there.
    ensures !outcome.Write? ==> Attempt(schema, key.cell, u, clock(rounds)) == outcome
    // Which outcome it is, and what is written, on the record alone.
    ensures IsOutcome(schema, if outcome.Write? then key.replaced else key.cell, u, clock(rounds), outcome)
    ensures !outcome.Write? ==>
      key.cell == if key.made == old(key.made) then old(key.cell) else key.schedule[key.made - 1]
  {
    rounds := 0;
    while true
      invariant key.Valid() && rounds <= key.made - old(key.made)
      invariant key.cell == if key.made == old(key.made) then old(key.cell) else key.schedule[key.made - 1]
      decreases |key.schedule| - key.made
    {
      rounds := rounds + 1;
      key.Interfere();
      key.Watch();
      key.Interfere();
      outcome := Attempt(schema, key.cell, u, clock(rounds));
      AttemptIsExact(schema, key.cell, u, clock(rounds));
      hide Attempt, IsOutcome;
      if !outcome.Write? {
        return;
      }
      key.Interfere();
      var done := key.Execute(Dump(schema, outcome.payload));
      DumpIsStored(schema, outcome.payload);
      if done {
        return;
      }
    }
  }
}
