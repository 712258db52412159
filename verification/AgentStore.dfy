// The agent service's two stores.  The in-memory store keeps one dict per kind of record, keyed
// by tuples; the Redis store keeps every kind in one key space of strings.
module AgentStore {
  import opened Wrappers
  import opened Models
  import opened KeyBuilder

  datatype Operation =
    | UpsertSession(session: SessionRecord)
    | SaveWorkflow(workflow: WorkflowRecord)
    | GetWorkflow(id: Identity, workflowId: string)
    | RegisterAuthContext(token: TokenRegistryRecord)
    | GetAuthContext(id: Identity, tokenRef: string)
    | SaveThread(thread: ThreadRecord)
    | GetThread(id: Identity, threadId: string)

  datatype Reply =
    | Saved
    | FoundWorkflow(workflow: Option<WorkflowRecord>)
    | FoundAuthContext(authContextRef: Option<string>)
    | FoundThread(thread: Option<ThreadRecord>)
    | Refused(error: KeyError)
    | Malformed

  function SessionIdentity(r: SessionRecord): Identity {
    Identity(r.tenantId, r.userId, r.sessionId)
  }

  function WorkflowIdentity(r: WorkflowRecord): Identity {
    Identity(r.tenantId, r.userId, r.sessionId)
  }

  function TokenIdentity(r: TokenRegistryRecord): Identity {
    Identity(r.tenantId, r.userId, r.sessionId)
  }

  function ThreadIdentity(r: ThreadRecord): Identity {
    Identity(r.tenantId, r.userId, r.sessionId)
  }

  // The token registration that saving a session entails, if any.
  function Registration(r: SessionRecord): Option<TokenRegistryRecord> {
    if Truthy(r.authContextRef) && Truthy(r.tokenRef)
    then Some(TokenRegistryRecord(r.userId, r.sessionId, r.tenantId, r.tokenRef.value, r.authContextRef.value,
      r.updatedAt))
    else None
  }

  // ---- InMemoryAgentServiceStore ----

  datatype Memory = Memory(
    sessions: map<Identity, SessionRecord>,
    workflows: map<(Identity, string), WorkflowRecord>,
    tokens: map<(Identity, string), TokenRegistryRecord>,
    threads: map<(Identity, string), ThreadRecord>)

  const EMPTY_MEMORY := Memory(map[], map[], map[], map[])

  function MemoryRegister(m: Memory, key: Identity -> Identity, r: TokenRegistryRecord): Memory {
    m.(tokens := m.tokens[(key(TokenIdentity(r)), r.tokenRef) := r])
  }

  // One operation; `key` is the form in which identities are compared, the identity function
  // for the store as it is.
  function MemoryStep(m: Memory, key: Identity -> Identity, op: Operation): (Memory, Reply) {
    match op
    case UpsertSession(r) =>
      var saved := m.(sessions := m.sessions[key(SessionIdentity(r)) := r]);
      (match Registration(r)
       case None => (saved, Saved)
       case Some(token) => (MemoryRegister(saved, key, token), Saved))
    case SaveWorkflow(r) =>
      (m.(workflows := m.workflows[(key(WorkflowIdentity(r)), r.workflowId) := r]), Saved)
    case GetWorkflow(id, workflowId) =>
      (m, FoundWorkflow(if (key(id), workflowId) in m.workflows then Some(m.workflows[(key(id), workflowId)])
        else None))
    case RegisterAuthContext(r) => (MemoryRegister(m, key, r), Saved)
    case GetAuthContext(id, tokenRef) =>
      (m, FoundAuthContext(if (key(id), tokenRef) in m.tokens then Some(m.tokens[(key(id), tokenRef)].authContextRef)
        else None))
    case SaveThread(r) =>
      (m.(threads := m.threads[(key(ThreadIdentity(r)), r.threadId) := r]), Saved)
    case GetThread(id, threadId) =>
      (m, FoundThread(if (key(id), threadId) in m.threads then Some(m.threads[(key(id), threadId)]) else None))
  }

  function AsIs(id: Identity): Identity {
    id
  }

  class InMemoryAgentServiceStore {
    var sessions: map<Identity, SessionRecord>
    var workflows: map<(Identity, string), WorkflowRecord>
    var tokens: map<(Identity, string), TokenRegistryRecord>
    var threads: map<(Identity, string), ThreadRecord>

    ghost function State(): Memory
      reads this
    {
      Memory(sessions, workflows, tokens, threads)
    }

    constructor ()
      ensures State() == EMPTY_MEMORY
    {
      sessions, workflows, tokens, threads := map[], map[], map[], map[];
    }

    method Upsert(record: SessionRecord)
      modifies this
      ensures State() == MemoryStep(old(State()), AsIs, UpsertSession(record)).0
    {
      sessions := sessions[SessionIdentity(record) := record];
      match Registration(record)
      case None =>
      case Some(token) => Register(token);
    }

    method Workflow(record: WorkflowRecord)
      modifies this
      ensures State() == MemoryStep(old(State()), AsIs, SaveWorkflow(record)).0
    {
      workflows := workflows[(WorkflowIdentity(record), record.workflowId) := record];
    }

    method FindWorkflow(id: Identity, workflowId: string) returns (record: Option<WorkflowRecord>)
      ensures FoundWorkflow(record) == MemoryStep(State(), AsIs, GetWorkflow(id, workflowId)).1
    {
      record := if (id, workflowId) in workflows then Some(workflows[(id, workflowId)]) else None;
    }

    method Register(record: TokenRegistryRecord)
      modifies this
      ensures State() == MemoryStep(old(State()), AsIs, RegisterAuthContext(record)).0
    {
      tokens := tokens[(TokenIdentity(record), record.tokenRef) := record];
    }

    method FindAuthContext(id: Identity, tokenRef: string) returns (found: Option<string>)
      ensures FoundAuthContext(found) == MemoryStep(State(), AsIs, GetAuthContext(id, tokenRef)).1
    {
      found := if (id, tokenRef) in tokens then Some(tokens[(id, tokenRef)].authContextRef) else None;
    }

    method Thread(record: ThreadRecord)
      modifies this
      ensures State() == MemoryStep(old(State()), AsIs, SaveThread(record)).0
    {
      threads := threads[(ThreadIdentity(record), record.threadId) := record];
    }

    method FindThread(id: Identity, threadId: string) returns (record: Option<ThreadRecord>)
      ensures FoundThread(record) == MemoryStep(State(), AsIs, GetThread(id, threadId)).1
    {
      record := if (id, threadId) in threads then Some(threads[(id, threadId)]) else None;
    }
  }

  // ---- RedisAgentServiceStore ----

  // A stored JSON blob, as the record it was dumped from.
  datatype Blob =
    | SessionBlob(session: SessionRecord)
    | WorkflowBlob(workflow: WorkflowRecord)
    | TokenBlob(token: TokenRegistryRecord)
    | ThreadBlob(thread: ThreadRecord)

  type Redis = map<string, Blob>

  function RedisSet(redis: Redis, key: Result<string, KeyError>, blob: Blob): (Redis, Reply) {
    match key
    case Err(e) => (redis, Refused(e))
    case Ok(k) => (redis[k := blob], Saved)
  }

  function RedisGet(redis: Redis, key: Result<string, KeyError>): Result<Option<Blob>, KeyError> {
    match key
    case Err(e) => Err(e)
    case Ok(k) => Ok(if k in redis then Some(redis[k]) else None)
  }

  function AsWorkflow(found: Result<Option<Blob>, KeyError>): Reply {
    match found
    case Err(e) => Refused(e)
    case Ok(None) => FoundWorkflow(None)
    case Ok(Some(WorkflowBlob(r))) => FoundWorkflow(Some(r))
    case Ok(Some(_)) => Malformed
  }

  function AsAuthContext(found: Result<Option<Blob>, KeyError>): Reply {
    match found
    case Err(e) => Refused(e)
    case Ok(None) => FoundAuthContext(None)
    case Ok(Some(TokenBlob(r))) => FoundAuthContext(Some(r.authContextRef))
    case Ok(Some(_)) => Malformed
  }

  function AsThread(found: Result<Option<Blob>, KeyError>): Reply {
    match found
    case Err(e) => Refused(e)
    case Ok(None) => FoundThread(None)
    case Ok(Some(ThreadBlob(r))) => FoundThread(Some(r))
    case Ok(Some(_)) => Malformed
  }

  function RedisRegister(redis: Redis, prefix: string, r: TokenRegistryRecord): (Redis, Reply) {
    RedisSet(redis, BuildKey(prefix, TokenIdentity(r), TokenKey(r.tokenRef)), TokenBlob(r))
  }

  function RedisStep(redis: Redis, prefix: string, op: Operation): (Redis, Reply) {
    match op
    case UpsertSession(r) =>
      var saved := RedisSet(redis, BuildKey(prefix, SessionIdentity(r), SessionKey), SessionBlob(r));
      (match (saved.1, Registration(r))
       case (Saved, Some(token)) => RedisRegister(saved.0, prefix, token)
       case _ => saved)
    case SaveWorkflow(r) => RedisSet(redis, BuildKey(prefix, WorkflowIdentity(r), WorkflowKey(r.workflowId)),
      WorkflowBlob(r))
    case GetWorkflow(id, workflowId) =>
      (redis, AsWorkflow(RedisGet(redis, BuildKey(prefix, id, WorkflowKey(workflowId)))))
    case RegisterAuthContext(r) => RedisRegister(redis, prefix, r)
    case GetAuthContext(id, tokenRef) =>
      (redis, AsAuthContext(RedisGet(redis, BuildKey(prefix, id, TokenKey(tokenRef)))))
    case SaveThread(r) => RedisSet(redis, BuildKey(prefix, ThreadIdentity(r), ThreadKey(r.threadId)), ThreadBlob(r))
    case GetThread(id, threadId) =>
      (redis, AsThread(RedisGet(redis, BuildKey(prefix, id, ThreadKey(threadId)))))
  }

  // ---- The Redis store refines the in-memory store ----

  function Lookup(m: Memory, id: Identity, name: KeyName): Option<Blob> {
    match name
    case SessionKey => if id in m.sessions then Some(SessionBlob(m.sessions[id])) else None
    case WorkflowKey(w) => if (id, w) in m.workflows then Some(WorkflowBlob(m.workflows[(id, w)])) else None
    case TokenKey(t) => if (id, t) in m.tokens then Some(TokenBlob(m.tokens[(id, t)])) else None
    case ThreadKey(t) => if (id, t) in m.threads then Some(ThreadBlob(m.threads[(id, t)])) else None
    case _ => None
  }

  // The string key of a part holds what the tuple key of its canonical identity holds.
  ghost predicate Agrees(prefix: string, m: Memory, redis: Redis) {
    forall id, name | BuildKey(prefix, id, name).Ok? ::
      Lookup(m, Canonical(id), name) == RedisGet(redis, BuildKey(prefix, id, name)).value
  }

  function Target(op: Operation): (Identity, KeyName) {
    match op
    case UpsertSession(r) => (SessionIdentity(r), SessionKey)
    case SaveWorkflow(r) => (WorkflowIdentity(r), WorkflowKey(r.workflowId))
    case GetWorkflow(id, workflowId) => (id, WorkflowKey(workflowId))
    case RegisterAuthContext(r) => (TokenIdentity(r), TokenKey(r.tokenRef))
    case GetAuthContext(id, tokenRef) => (id, TokenKey(tokenRef))
    case SaveThread(r) => (ThreadIdentity(r), ThreadKey(r.threadId))
    case GetThread(id, threadId) => (id, ThreadKey(threadId))
  }

  // Writing one string key writes the one tuple key it stands for.
  lemma SetAgrees(prefix: string, m: Memory, redis: Redis, id: Identity, name: KeyName, blob: Blob, m': Memory)
    requires Agrees(prefix, m, redis) && BuildKey(prefix, id, name).Ok?
    requires forall id', name' :: Lookup(m', id', name')
                               == if id' == Canonical(id) && name' == name then Some(blob) else Lookup(m, id', name')
    ensures Agrees(prefix, m', RedisSet(redis, BuildKey(prefix, id, name), blob).0)
  {
    hide BuildKey, Lookup, Canonical;
    forall id', name' | BuildKey(prefix, id', name').Ok?
      ensures Lookup(m', Canonical(id'), name')
           == RedisGet(RedisSet(redis, BuildKey(prefix, id, name), blob).0, BuildKey(prefix, id', name')).value
    {
      KeysCollideIffSameParts(prefix, id, name, id', name');
    }
  }

  lemma UpsertAgrees(prefix: string, m: Memory, redis: Redis, r: SessionRecord)
    requires Agrees(prefix, m, redis) && BuildKey(prefix, SessionIdentity(r), SessionKey).Ok?
    ensures RedisStep(redis, prefix, UpsertSession(r)).1 == Saved
    ensures Agrees(prefix, MemoryStep(m, Canonical, UpsertSession(r)).0, RedisStep(redis, prefix, UpsertSession(r)).0)
  {
    hide BuildKey, Canonical, Agrees;
    var id := SessionIdentity(r);
    var saved := m.(sessions := m.sessions[Canonical(id) := r]);
    SetAgrees(prefix, m, redis, id, SessionKey, SessionBlob(r), saved);
    if Registration(r).Some? {
      var token := Registration(r).value;
      KeyIsRefusedIffPartEmpty(prefix, id, SessionKey);
      KeyIsRefusedIffPartEmpty(prefix, id, TokenKey(token.tokenRef));
      var redis' := RedisSet(redis, BuildKey(prefix, id, SessionKey), SessionBlob(r)).0;
      RegisterAgrees(prefix, saved, redis', token);
    }
  }

  lemma RegisterAgrees(prefix: string, m: Memory, redis: Redis, r: TokenRegistryRecord)
    requires Agrees(prefix, m, redis) && BuildKey(prefix, TokenIdentity(r), TokenKey(r.tokenRef)).Ok?
    ensures RedisRegister(redis, prefix, r).1 == Saved
    ensures Agrees(prefix, MemoryRegister(m, Canonical, r), RedisRegister(redis, prefix, r).0)
  {
    hide BuildKey, Canonical, Agrees;
    SetAgrees(prefix, m, redis, TokenIdentity(r), TokenKey(r.tokenRef), TokenBlob(r), MemoryRegister(m, Canonical, r));
  }

  lemma SaveAgrees(prefix: string, m: Memory, redis: Redis, op: Operation)
    requires op.SaveWorkflow? || op.SaveThread?
    requires Agrees(prefix, m, redis) && BuildKey(prefix, Target(op).0, Target(op).1).Ok?
    ensures RedisStep(redis, prefix, op).1 == Saved
    ensures Agrees(prefix, MemoryStep(m, Canonical, op).0, RedisStep(redis, prefix, op).0)
  {
    hide BuildKey, Canonical, Agrees;
    var blob := if op.SaveWorkflow? then WorkflowBlob(op.workflow) else ThreadBlob(op.thread);
    SetAgrees(prefix, m, redis, Target(op).0, Target(op).1, blob, MemoryStep(m, Canonical, op).0);
  }

  lemma ReadAgrees(prefix: string, m: Memory, redis: Redis, op: Operation)
    requires op.GetWorkflow? || op.GetAuthContext? || op.GetThread?
    requires Agrees(prefix, m, redis) && BuildKey(prefix, Target(op).0, Target(op).1).Ok?
    ensures RedisStep(redis, prefix, op).1 == MemoryStep(m, Canonical, op).1
  {
    hide BuildKey, Canonical;
    var (id, name) := Target(op);
    assert Lookup(m, Canonical(id), name) == RedisGet(redis, BuildKey(prefix, id, name)).value;
  }

  // An operation whose key parts are not empty answers the same in both stores.
  lemma StepAgrees(prefix: string, m: Memory, redis: Redis, op: Operation)
    requires Agrees(prefix, m, redis) && BuildKey(prefix, Target(op).0, Target(op).1).Ok?
    ensures RedisStep(redis, prefix, op).1 == MemoryStep(m, Canonical, op).1
    ensures Agrees(prefix, MemoryStep(m, Canonical, op).0, RedisStep(redis, prefix, op).0)
  {
    hide BuildKey, Canonical, Agrees;
    match op
    case UpsertSession(r) => UpsertAgrees(prefix, m, redis, r);
    case RegisterAuthContext(r) => RegisterAgrees(prefix, m, redis, r);
    case SaveWorkflow(_) => SaveAgrees(prefix, m, redis, op);
    case SaveThread(_) => SaveAgrees(prefix, m, redis, op);
    case _ => ReadAgrees(prefix, m, redis, op);
  }

  // An operation with an empty key part is refused, and changes nothing.
  lemma StepRefuses(prefix: string, redis: Redis, op: Operation)
    requires BuildKey(prefix, Target(op).0, Target(op).1).Err?
    ensures RedisStep(redis, prefix, op)
         == (redis, Refused(BuildKey(prefix, Target(op).0, Target(op).1).error))
  {
    hide BuildKey;
  }

  class RedisAgentServiceStore {
    const prefix: string
    var redis: Redis
    // The in-memory store, keyed by canonical identities, that this one stands for.
    ghost var model: Memory

    ghost predicate Valid()
      reads this
    {
      Agrees(prefix, model, redis)
    }

    constructor (prefix: string)
      ensures Valid() && this.prefix == prefix && redis == map[] && model == EMPTY_MEMORY
    {
      this.prefix := prefix;
      redis := map[];
      model := EMPTY_MEMORY;
    }

    method Set(key: Result<string, KeyError>, blob: Blob) returns (reply: Reply)
      modifies `redis
      ensures (redis, reply) == RedisSet(old(redis), key, blob)
    {
      match key {
        case Err(e) =>
          reply := Refused(e);
        case Ok(k) =>
          redis := redis[k := blob];
          reply := Saved;
      }
    }

    // Each operation answers as the in-memory store would, and is one on it; with an empty key
    // part it is refused.
    method Perform(op: Operation) returns (reply: Reply)
      requires Valid()
      modifies this
      ensures Valid() && (redis, reply) == RedisStep(old(redis), prefix, op)
      ensures match BuildKey(prefix, Target(op).0, Target(op).1)
              case Ok(_) => (model, reply) == MemoryStep(old(model), Canonical, op)
              case Err(e) => model == old(model) && redis == old(redis) && reply == Refused(e)
    {
      hide BuildKey, Canonical, Agrees, Registration;
      if BuildKey(prefix, Target(op).0, Target(op).1).Ok? {
        StepAgrees(prefix, model, redis, op);
        model := MemoryStep(model, Canonical, op).0;
      } else {
        StepRefuses(prefix, redis, op);
      }
      match op {
        case UpsertSession(r) =>
          reply := Set(BuildKey(prefix, SessionIdentity(r), SessionKey), SessionBlob(r));
          if reply == Saved && Registration(r).Some? {
            var token := Registration(r).value;
            reply := Set(BuildKey(prefix, TokenIdentity(token), TokenKey(token.tokenRef)), TokenBlob(token));
          }
        case SaveWorkflow(r) =>
          reply := Set(BuildKey(prefix, WorkflowIdentity(r), WorkflowKey(r.workflowId)), WorkflowBlob(r));
        case GetWorkflow(id, workflowId) =>
          reply := AsWorkflow(RedisGet(redis, BuildKey(prefix, id, WorkflowKey(workflowId))));
        case RegisterAuthContext(r) =>
          reply := Set(BuildKey(prefix, TokenIdentity(r), TokenKey(r.tokenRef)), TokenBlob(r));
        case GetAuthContext(id, tokenRef) =>
          reply := AsAuthContext(RedisGet(redis, BuildKey(prefix, id, TokenKey(tokenRef))));
        case SaveThread(r) =>
          reply := Set(BuildKey(prefix, ThreadIdentity(r), ThreadKey(r.threadId)), ThreadBlob(r));
        case GetThread(id, threadId) =>
          reply := AsThread(RedisGet(redis, BuildKey(prefix, id, ThreadKey(threadId))));
      }
    }
  }

  function MemoryReplies(m: Memory, key: Identity -> Identity, ops: seq<Operation>): seq<Reply>
    decreases |ops|
  {
    if ops == [] then []
    else [MemoryStep(m, key, ops[0]).1] + MemoryReplies(MemoryStep(m, key, ops[0]).0, key, ops[1..])
  }

  function RedisReplies(redis: Redis, prefix: string, ops: seq<Operation>): seq<Reply>
    decreases |ops|
  {
    if ops == [] then []
    else [RedisStep(redis, prefix, ops[0]).1] + RedisReplies(RedisStep(redis, prefix, ops[0]).0, prefix, ops[1..])
  }

  predicate HasEmptyKeyPart(op: Operation) {
    HasEmptyPart(":", Target(op).0, Target(op).1)
  }

  // The replies of the in-memory store to the operations without empty key parts, with a
  // refusal in the place of each of the others.
  function ReferenceReplies(m: Memory, prefix: string, ops: seq<Operation>): seq<Reply>
    requires prefix != ""
    decreases |ops|
  {
    if ops == [] then []
    else
      var (id, name) := Target(ops[0]);
      KeyIsRefusedIffPartEmpty(prefix, id, name);
      if HasEmptyKeyPart(ops[0])
      then [Refused(BuildKey(prefix, id, name).error)] + ReferenceReplies(m, prefix, ops[1..])
      else
        var (m', reply) := MemoryStep(m, Canonical, ops[0]);
        [reply] + ReferenceReplies(m', prefix, ops[1..])
  }

  lemma {:induction false} RepliesAgree(prefix: string, m: Memory, redis: Redis, ops: seq<Operation>)
    requires prefix != "" && Agrees(prefix, m, redis)
    ensures RedisReplies(redis, prefix, ops) == ReferenceReplies(m, prefix, ops)
    decreases |ops|
  {
    hide BuildKey, Canonical, Agrees, MemoryStep, RedisStep;
    if ops != [] {
      var (id, name) := Target(ops[0]);
      KeyIsRefusedIffPartEmpty(prefix, id, name);
      if HasEmptyKeyPart(ops[0]) {
        StepRefuses(prefix, redis, ops[0]);
        RepliesAgree(prefix, m, redis, ops[1..]);
      } else {
        StepAgrees(prefix, m, redis, ops[0]);
        RepliesAgree(prefix, MemoryStep(m, Canonical, ops[0]).0, RedisStep(redis, prefix, ops[0]).0, ops[1..]);
      }
    }
  }

  // Any sequence of operations: the one key space of strings answers as the four dicts of
  // tuples would, were they keyed by canonical identities, and refuses empty key parts.
  lemma RedisAnswersAsMemory(prefix: string, ops: seq<Operation>)
    requires prefix != ""
    ensures RedisReplies(map[], prefix, ops) == ReferenceReplies(EMPTY_MEMORY, prefix, ops)
  {
    RepliesAgree(prefix, EMPTY_MEMORY, map[], ops);
  }

  // ---- Exactly when the two stores can be told apart ----

  // No two of these identities share their keys.
  predicate KeepsApart(ids: set<Identity>) {
    forall a, b | a in ids && b in ids :: Canonical(a) == Canonical(b) ==> a == b
  }

  predicate IsOver(ids: set<Identity>, op: Operation) {
    Target(op).0 in ids && !HasEmptyKeyPart(op)
  }

  predicate AreOver(ids: set<Identity>, ops: seq<Operation>) {
    forall i :: 0 <= i < |ops| ==> IsOver(ids, ops[i])
  }

  // What these identities find in the maps keyed by identities and by canonical ones.
  ghost predicate Mirrors(ids: set<Identity>, plain: Memory, folded: Memory) {
    forall id, name | id in ids :: Lookup(plain, id, name) == Lookup(folded, Canonical(id), name)
  }

  // Writing the entry of one identity in both.
  lemma WriteMirrors(ids: set<Identity>, plain: Memory, folded: Memory, id: Identity, name: KeyName, blob: Blob,
                     plain': Memory, folded': Memory)
    requires Mirrors(ids, plain, folded) && KeepsApart(ids) && id in ids
    requires forall id', name' :: Lookup(plain', id', name')
                               == if id' == id && name' == name then Some(blob) else Lookup(plain, id', name')
    requires forall id', name' :: Lookup(folded', id', name')
                               == if id' == Canonical(id) && name' == name then Some(blob)
                                 else Lookup(folded, id', name')
    ensures Mirrors(ids, plain', folded')
  {
    hide Lookup, Canonical;
  }

  lemma RegisterMirrors(ids: set<Identity>, plain: Memory, folded: Memory, r: TokenRegistryRecord)
    requires Mirrors(ids, plain, folded) && KeepsApart(ids) && TokenIdentity(r) in ids
    ensures Mirrors(ids, MemoryRegister(plain, AsIs, r), MemoryRegister(folded, Canonical, r))
  {
    hide Canonical, Mirrors, KeepsApart;
    WriteMirrors(ids, plain, folded, TokenIdentity(r), TokenKey(r.tokenRef), TokenBlob(r),
                 MemoryRegister(plain, AsIs, r), MemoryRegister(folded, Canonical, r));
  }

  lemma UpsertMirrors(ids: set<Identity>, plain: Memory, folded: Memory, r: SessionRecord)
    requires Mirrors(ids, plain, folded) && KeepsApart(ids) && SessionIdentity(r) in ids
    ensures Mirrors(ids, MemoryStep(plain, AsIs, UpsertSession(r)).0, MemoryStep(folded, Canonical, UpsertSession(r)).0)
  {
    hide Canonical, Mirrors, KeepsApart;
    var id := SessionIdentity(r);
    var (saved, saved') := (plain.(sessions := plain.sessions[id := r]),
      folded.(sessions := folded.sessions[Canonical(id) := r]));
    WriteMirrors(ids, plain, folded, id, SessionKey, SessionBlob(r), saved, saved');
    if Registration(r).Some? {
      RegisterMirrors(ids, saved, saved', Registration(r).value);
    }
  }

  lemma StepMirrors(ids: set<Identity>, plain: Memory, folded: Memory, op: Operation)
    requires Mirrors(ids, plain, folded) && KeepsApart(ids) && Target(op).0 in ids
    ensures MemoryStep(plain, AsIs, op).1 == MemoryStep(folded, Canonical, op).1
    ensures Mirrors(ids, MemoryStep(plain, AsIs, op).0, MemoryStep(folded, Canonical, op).0)
  {
    var (id, name) := Target(op);
    hide Canonical, Mirrors, KeepsApart;
    match op
    case UpsertSession(r) => UpsertMirrors(ids, plain, folded, r);
    case RegisterAuthContext(r) => RegisterMirrors(ids, plain, folded, r);
    case SaveWorkflow(r) =>
      WriteMirrors(ids, plain, folded, id, name, WorkflowBlob(r), MemoryStep(plain, AsIs, op).0,
        MemoryStep(folded, Canonical, op).0);
    case SaveThread(r) =>
      WriteMirrors(ids, plain, folded, id, name, ThreadBlob(r), MemoryStep(plain, AsIs, op).0,
        MemoryStep(folded, Canonical, op).0);
    case _ => ReadMirrors(ids, plain, folded, op);
  }

  lemma ReadMirrors(ids: set<Identity>, plain: Memory, folded: Memory, op: Operation)
    requires Mirrors(ids, plain, folded) && Target(op).0 in ids
    requires op.GetWorkflow? || op.GetAuthContext? || op.GetThread?
    ensures MemoryStep(plain, AsIs, op).1 == MemoryStep(folded, Canonical, op).1
  {
    var (id, name) := Target(op);
    hide Canonical;
    assert Lookup(plain, id, name) == Lookup(folded, Canonical(id), name);
  }

  lemma {:induction false} MirrorsReply(ids: set<Identity>, prefix: string, plain: Memory, folded: Memory,
                                        ops: seq<Operation>)
    requires prefix != "" && Mirrors(ids, plain, folded) && KeepsApart(ids) && AreOver(ids, ops)
    ensures ReferenceReplies(folded, prefix, ops) == MemoryReplies(plain, AsIs, ops)
    decreases |ops|
  {
    hide Mirrors, KeepsApart, MemoryStep, Canonical;
    if ops != [] {
      assert IsOver(ids, ops[0]);
      StepMirrors(ids, plain, folded, ops[0]);
      MirrorsReply(ids, prefix, MemoryStep(plain, AsIs, ops[0]).0, MemoryStep(folded, Canonical, ops[0]).0, ops[1..]);
    }
  }

  // A record saved for one identity and asked for under another that shares its keys.
  lemma SharedKeysAreVisible(prefix: string, r: WorkflowRecord, other: Identity)
    requires prefix != "" && r.workflowId != "" && Canonical(WorkflowIdentity(r)) == Canonical(other) &&
      WorkflowIdentity(r) != other
    requires !HasEmptyKeyPart(SaveWorkflow(r)) && !HasEmptyKeyPart(GetWorkflow(other, r.workflowId))
    ensures var ops := [SaveWorkflow(r), GetWorkflow(other, r.workflowId)];
      RedisReplies(map[], prefix, ops) == [Saved, FoundWorkflow(Some(r))] &&
      MemoryReplies(EMPTY_MEMORY, AsIs, ops) == [Saved, FoundWorkflow(None)]
  {
    hide BuildKey, RedisStep, HasEmptyKeyPart;
    var get := GetWorkflow(other, r.workflowId);
    var ops := [SaveWorkflow(r), get];
    RedisAnswersAsMemory(prefix, ops);
    assert ops[1..] == [get] && [get][1..] == [];
    var folded := MemoryStep(EMPTY_MEMORY, Canonical, SaveWorkflow(r)).0;
    assert ReferenceReplies(folded, prefix, [get]) == [FoundWorkflow(Some(r))] + ReferenceReplies(folded, prefix, []);
    var plain := MemoryStep(EMPTY_MEMORY, AsIs, SaveWorkflow(r)).0;
    assert MemoryReplies(plain, AsIs, [get]) == [FoundWorkflow(None)] + MemoryReplies(plain, AsIs, []);
  }

  // Some record of an identity.
  function SampleRecord(id: Identity): WorkflowRecord {
    WorkflowRecord(
      "w", None, id.session, id.user, id.tenant, Ready, WorkflowPlan("w", id.user, id.session, id.tenant, 0, []),
      "", [],
      WorkflowPolicyDecision(false, Nothing, "", []), None, None, [], 0)
  }

  predicate IsWhole(id: Identity) {
    id.tenant != Some("") && id.user != "" && id.session != ""
  }

  predicate AnswersAlike(prefix: string, ops: seq<Operation>) {
    RedisReplies(map[], prefix, ops) == MemoryReplies(EMPTY_MEMORY, AsIs, ops)
  }

  // The two stores answer every sequence of operations over these identities alike if and only if
  // no two of the identities share their keys.
  lemma StoresAreToldApartExactly(prefix: string, ids: set<Identity>)
    requires prefix != "" && forall id <- ids :: IsWhole(id)
    ensures KeepsApart(ids) <==> forall ops: seq<Operation> :: AreOver(ids, ops) ==> AnswersAlike(prefix, ops)
  {
    if KeepsApart(ids) {
      forall ops: seq<Operation> | AreOver(ids, ops) ensures AnswersAlike(prefix, ops) {
        RedisAnswersAsMemory(prefix, ops);
        MirrorsReply(ids, prefix, EMPTY_MEMORY, EMPTY_MEMORY, ops);
      }
    } else {
      var a, b :| a in ids && b in ids && Canonical(a) == Canonical(b) && a != b;
      var r := SampleRecord(a);
      var ops := [SaveWorkflow(r), GetWorkflow(b, r.workflowId)];
      assert IsOver(ids, ops[0]) && IsOver(ids, ops[1]);
      SharedKeysAreVisible(prefix, r, b);
      assert AreOver(ids, ops) && !AnswersAlike(prefix, ops);
    }
  }

  // Over the identities of one user and session that is so unless both the absent tenant and the
  // tenant "_" are among them.
  lemma TenantsAreKeptApart(ids: set<Identity>, user: string, session: string)
    requires forall id <- ids :: id.user == user && id.session == session
    ensures KeepsApart(ids) <==>
      !(Identity(None, user, session) in ids && Identity(Some(GLOBAL_TENANT_ID), user, session) in ids)
  {
    var (none, global) := (Identity(None, user, session), Identity(Some(GLOBAL_TENANT_ID), user, session));
    assert Canonical(none) == Canonical(global) == none;
  }

  // With both they are told apart: a workflow saved for the tenant "_" is found without a tenant
  // in Redis only.
  lemma UnderscoreTenantIsVisible(prefix: string, r: WorkflowRecord)
    requires prefix != "" && r.tenantId == Some(GLOBAL_TENANT_ID)
    requires r.userId != "" && r.sessionId != "" && r.workflowId != ""
    ensures var ops := [SaveWorkflow(r), GetWorkflow(Identity(None, r.userId, r.sessionId), r.workflowId)];
      RedisReplies(map[], prefix, ops) == [Saved, FoundWorkflow(Some(r))] &&
      MemoryReplies(EMPTY_MEMORY, AsIs, ops) == [Saved, FoundWorkflow(None)]
  {
    SharedKeysAreVisible(prefix, r, Identity(None, r.userId, r.sessionId));
  }

  // ---- Whose workflows are found ----

  // Each workflow is kept under its own name and the canonical form of its owner.
  ghost predicate KeepsOwners(ids: set<Identity>, m: Memory) {
    forall k <- m.workflows :: WorkflowIdentity(m.workflows[k]) in ids &&
      k == (Canonical(WorkflowIdentity(m.workflows[k])), m.workflows[k].workflowId)
  }

  lemma StepKeepsOwners(ids: set<Identity>, m: Memory, op: Operation)
    requires KeepsOwners(ids, m) && Target(op).0 in ids
    ensures KeepsOwners(ids, MemoryStep(m, Canonical, op).0)
  {
    hide Canonical;
  }

  predicate IsFound(op: Operation, reply: Reply, r: WorkflowRecord) {
    op.GetWorkflow? && reply == FoundWorkflow(Some(r))
  }

  lemma {:induction false} FoundInReference(ids: set<Identity>, m: Memory, prefix: string, ops: seq<Operation>,
                                            i: nat, r: WorkflowRecord)
    requires prefix != "" && KeepsOwners(ids, m) && AreOver(ids, ops) && i < |ops|
    requires |ReferenceReplies(m, prefix, ops)| == |ops| && IsFound(ops[i], ReferenceReplies(m, prefix, ops)[i], r)
    ensures WorkflowIdentity(r) in ids && Canonical(WorkflowIdentity(r)) == Canonical(ops[i].id)
    ensures r.workflowId == ops[i].workflowId
    decreases |ops|
  {
    hide Canonical, HasEmptyKeyPart, BuildKey;
    assert IsOver(ids, ops[0]);
    if i > 0 {
      assert AreOver(ids, ops[1..]) by {
        assert forall k :: 0 <= k < |ops[1..]| ==> ops[1..][k] == ops[k + 1];
      }
      StepKeepsOwners(ids, m, ops[0]);
      FoundInReference(ids, MemoryStep(m, Canonical, ops[0]).0, prefix, ops[1..], i - 1, r);
    }
  }

  lemma {:induction false} AllAreAnswered(m: Memory, prefix: string, ops: seq<Operation>)
    requires prefix != ""
    ensures |ReferenceReplies(m, prefix, ops)| == |ops|
    decreases |ops|
  {
    hide Canonical, HasEmptyKeyPart, BuildKey, MemoryStep;
    if ops != [] {
      AllAreAnswered(m, prefix, ops[1..]);
      AllAreAnswered(MemoryStep(m, Canonical, ops[0]).0, prefix, ops[1..]);
    }
  }

  // What the Redis store finds is the workflow asked for, of an owner with the same keys.
  lemma FoundWorkflowsShareKeys(prefix: string, ids: set<Identity>, ops: seq<Operation>, i: nat, r: WorkflowRecord)
    requires prefix != "" && AreOver(ids, ops) && i < |ops|
    requires |RedisReplies(map[], prefix, ops)| == |ops| && IsFound(ops[i], RedisReplies(map[], prefix, ops)[i], r)
    ensures ops[i].GetWorkflow? && WorkflowIdentity(r) in ids && r.workflowId == ops[i].workflowId
    ensures Canonical(WorkflowIdentity(r)) == Canonical(ops[i].id)
  {
    hide Canonical;
    RedisAnswersAsMemory(prefix, ops);
    AllAreAnswered(EMPTY_MEMORY, prefix, ops);
    FoundInReference(ids, EMPTY_MEMORY, prefix, ops, i, r);
  }

  // No caller is given a workflow of someone else.
  ghost predicate FindsOwnOnly(prefix: string, ops: seq<Operation>) {
    var replies := RedisReplies(map[], prefix, ops);
    |replies| == |ops| &&
    forall i, r | 0 <= i < |ops| :: IsFound(ops[i], replies[i], r) ==> WorkflowIdentity(r) == ops[i].id
  }

  // On the Redis store every caller among these identities is given workflows of its own only, in
  // every sequence of operations, if and only if no two of the identities share their keys.
  lemma OwnersAreKeptApartExactly(prefix: string, ids: set<Identity>)
    requires prefix != "" && forall id <- ids :: IsWhole(id)
    ensures KeepsApart(ids) <==> forall ops: seq<Operation> :: AreOver(ids, ops) ==> FindsOwnOnly(prefix, ops)
  {
    hide Canonical;
    if KeepsApart(ids) {
      forall ops: seq<Operation> | AreOver(ids, ops) ensures FindsOwnOnly(prefix, ops) {
        RedisAnswersAsMemory(prefix, ops);
        AllAreAnswered(EMPTY_MEMORY, prefix, ops);
        forall i, r | 0 <= i < |ops| && IsFound(ops[i], RedisReplies(map[], prefix, ops)[i], r)
          ensures WorkflowIdentity(r) == ops[i].id
        {
          FoundWorkflowsShareKeys(prefix, ids, ops, i, r);
          assert IsOver(ids, ops[i]);
        }
      }
    } else {
      var a, b :| a in ids && b in ids && Canonical(a) == Canonical(b) && a != b;
      var r := SampleRecord(a);
      var ops := [SaveWorkflow(r), GetWorkflow(b, r.workflowId)];
      assert IsOver(ids, ops[0]) && IsOver(ids, ops[1]);
      SharedKeysAreVisible(prefix, r, b);
      assert IsFound(ops[1], RedisReplies(map[], prefix, ops)[1], r);
      assert AreOver(ids, ops) && !FindsOwnOnly(prefix, ops);
    }
  }

  // ---- The last write is what is found ----

  // What an operation leaves under a name of an identity, if anything: a session also registers
  // its token, if it has one and a context for it.
  function Written(op: Operation, key: Identity -> Identity, id: Identity, name: KeyName): Option<Blob> {
    match (op, name)
    case (UpsertSession(r), SessionKey) =>
      if key(Identity(r.tenantId, r.userId, r.sessionId)) == key(id) then Some(SessionBlob(r)) else None
    case (UpsertSession(r), TokenKey(tokenRef)) =>
      if key(Identity(r.tenantId, r.userId, r.sessionId)) == key(id) && tokenRef != "" &&
         r.tokenRef == Some(tokenRef) && r.authContextRef.Some? && r.authContextRef.value != ""
      then
        Some(TokenBlob(TokenRegistryRecord(r.userId, r.sessionId, r.tenantId, tokenRef, r.authContextRef.value,
          r.updatedAt)))
      else None
    case (RegisterAuthContext(r), TokenKey(tokenRef)) =>
      if key(Identity(r.tenantId, r.userId, r.sessionId)) == key(id) && r.tokenRef == tokenRef then Some(TokenBlob(r))
      else None
    case (SaveWorkflow(r), WorkflowKey(workflowId)) =>
      if key(Identity(r.tenantId, r.userId, r.sessionId)) == key(id) && r.workflowId == workflowId
      then Some(WorkflowBlob(r)) else None
    case (SaveThread(r), ThreadKey(threadId)) =>
      if key(Identity(r.tenantId, r.userId, r.sessionId)) == key(id) && r.threadId == threadId
      then Some(ThreadBlob(r)) else None
    case _ => None
  }

  lemma StepWrites(m: Memory, key: Identity -> Identity, op: Operation, id: Identity, name: KeyName)
    ensures Lookup(MemoryStep(m, key, op).0, key(id), name)
      == if Written(op, key, id, name).Some? then Written(op, key, id, name) else Lookup(m, key(id), name)
  {
  }

  // What the last of the first n operations that wrote there left.
  ghost predicate IsLastWritten(ops: seq<Operation>, n: nat, key: Identity -> Identity, id: Identity, name: KeyName,
                                blob: Option<Blob>)
    requires n <= |ops|
  {
    || (blob == None && forall j :: 0 <= j < n ==> Written(ops[j], key, id, name) == None)
    || (blob.Some? && exists j :: 0 <= j < n && Written(ops[j], key, id, name) == blob &&
                                  forall k :: j < k < n ==> Written(ops[k], key, id, name) == None)
  }

  function After(m: Memory, key: Identity -> Identity, ops: seq<Operation>): Memory {
    if ops == [] then m else MemoryStep(After(m, key, ops[..|ops| - 1]), key, ops[|ops| - 1]).0
  }

  lemma {:induction false} LookupIsLastWritten(key: Identity -> Identity, ops: seq<Operation>, n: nat, id: Identity,
                                               name: KeyName)
    requires n <= |ops|
    ensures IsLastWritten(ops, n, key, id, name, Lookup(After(EMPTY_MEMORY, key, ops[..n]), key(id), name))
  {
    hide MemoryStep, Written;
    if n == 0 {
      assert ops[..0] == [];
    } else {
      LookupIsLastWritten(key, ops, n - 1, id, name);
      assert ops[..n][..n - 1] == ops[..n - 1];
      StepWrites(After(EMPTY_MEMORY, key, ops[..n - 1]), key, ops[n - 1], id, name);
    }
  }

  lemma {:induction false} AfterFirst(m: Memory, key: Identity -> Identity, ops: seq<Operation>)
    requires ops != []
    ensures After(m, key, ops) == After(MemoryStep(m, key, ops[0]).0, key, ops[1..])
  {
    hide MemoryStep;
    var n := |ops| - 1;
    if n == 0 {
      assert ops[..0] == [] && ops[1..] == [];
    } else {
      AfterFirst(m, key, ops[..n]);
      assert ops[..n][1..] == ops[1..][..n - 1];
    }
  }

  lemma {:induction false} ReplyIs(m: Memory, key: Identity -> Identity, ops: seq<Operation>, i: nat)
    requires i < |ops|
    ensures |MemoryReplies(m, key, ops)| == |ops|
    ensures MemoryReplies(m, key, ops)[i] == MemoryStep(After(m, key, ops[..i]), key, ops[i]).1
    decreases |ops|
  {
    hide MemoryStep;
    var next := MemoryStep(m, key, ops[0]).0;
    if |ops| > 1 {
      ReplyIs(next, key, ops[1..], if i > 0 then i - 1 else 0);
    }
    if i > 0 {
      AfterFirst(m, key, ops[..i]);
      assert ops[..i][1..] == ops[1..][..i - 1];
    } else {
      assert ops[..0] == [];
    }
  }

  // The reply to the i-th operation: a read finds what was last written there.
  ghost predicate IsReplyTo(ops: seq<Operation>, i: nat, key: Identity -> Identity, reply: Reply)
    requires i < |ops|
  {
    match ops[i]
    case GetWorkflow(id, workflowId) =>
      reply.FoundWorkflow? &&
      IsLastWritten(ops, i, key, id, WorkflowKey(workflowId),
        if reply.workflow.Some? then Some(WorkflowBlob(reply.workflow.value)) else None)
    case GetAuthContext(id, tokenRef) =>
      reply.FoundAuthContext? &&
      exists token :: IsLastWritten(ops, i, key, id, TokenKey(tokenRef), token) &&
        reply.authContextRef == if token.Some? && token.value.TokenBlob? then Some(token.value.token.authContextRef)
                                else None
    case GetThread(id, threadId) =>
      reply.FoundThread? &&
      IsLastWritten(ops, i, key, id, ThreadKey(threadId),
        if reply.thread.Some? then Some(ThreadBlob(reply.thread.value)) else None)
    case _ => reply == Saved
  }

  // The in-memory store, with identities compared in any form.
  lemma LastWriteIsFound(key: Identity -> Identity, ops: seq<Operation>, i: nat)
    requires i < |ops|
    ensures |MemoryReplies(EMPTY_MEMORY, key, ops)| == |ops|
    ensures IsReplyTo(ops, i, key, MemoryReplies(EMPTY_MEMORY, key, ops)[i])
  {
    ReplyIs(EMPTY_MEMORY, key, ops, i);
    hide IsLastWritten, MemoryReplies;
    var m := After(EMPTY_MEMORY, key, ops[..i]);
    hide After;
    match ops[i]
    case GetWorkflow(id, workflowId) => LookupIsLastWritten(key, ops, i, id, WorkflowKey(workflowId));
    case GetAuthContext(id, tokenRef) =>
      LookupIsLastWritten(key, ops, i, id, TokenKey(tokenRef));
      var token := Lookup(m, key(id), TokenKey(tokenRef));
      assert IsLastWritten(ops, i, key, id, TokenKey(tokenRef), token);
    case GetThread(id, threadId) => LookupIsLastWritten(key, ops, i, id, ThreadKey(threadId));
    case _ =>
  }

  lemma {:induction false} NothingIsRefused(m: Memory, prefix: string, ops: seq<Operation>)
    requires prefix != "" && forall i :: 0 <= i < |ops| ==> !HasEmptyKeyPart(ops[i])
    ensures ReferenceReplies(m, prefix, ops) == MemoryReplies(m, Canonical, ops)
    decreases |ops|
  {
    hide MemoryStep, Canonical, HasEmptyKeyPart, BuildKey;
    if ops != [] {
      NothingIsRefused(MemoryStep(m, Canonical, ops[0]).0, prefix, ops[1..]);
    }
  }

  // The Redis store, where identities are compared by their keys.
  lemma RedisFindsTheLastWrite(prefix: string, ops: seq<Operation>, i: nat)
    requires prefix != "" && i < |ops| && forall k :: 0 <= k < |ops| ==> !HasEmptyKeyPart(ops[k])
    ensures |RedisReplies(map[], prefix, ops)| == |ops|
    ensures IsReplyTo(ops, i, Canonical, RedisReplies(map[], prefix, ops)[i])
  {
    hide Canonical, HasEmptyKeyPart, IsReplyTo;
    RedisAnswersAsMemory(prefix, ops);
    NothingIsRefused(EMPTY_MEMORY, prefix, ops);
    LastWriteIsFound(Canonical, ops, i);
  }
}
