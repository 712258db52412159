// Redis keys of session and agent state: percent-encoded parts between colons.
module KeyBuilder {
  import opened Wrappers
  import opened Text
  import opened Utf8

  const GLOBAL_TENANT_ID := "_"

  // ---- urllib.parse.quote(value, safe="") (sections 2.1 and 2.3 of RFC 3986) ----

  predicate IsUnreserved(b: Byte) {
    'a' as int <= b <= 'z' as int || 'A' as int <= b <= 'Z' as int || '0' as int <= b <= '9' as int
    || b == '-' as int || b == '.' as int || b == '_' as int || b == '~' as int
  }

  type Nibble = n: int | 0 <= n < 16

  function UpperHex(n: Nibble): char {
    if n < 10 then (n + '0' as int) as char else (n - 10 + 'A' as int) as char
  }

  function NibbleOf(c: char): Option<Nibble> {
    if '0' <= c <= '9' then Some(c as int - '0' as int)
    else if 'A' <= c <= 'F' then Some(c as int - 'A' as int + 10)
    else None
  }

  function QuoteByte(b: Byte): string {
    if IsUnreserved(b) then [b as char] else ['%', UpperHex(b / 16), UpperHex(b % 16)]
  }

  function QuoteBytes(bytes: seq<Byte>): string {
    if bytes == [] then "" else QuoteByte(bytes[0]) + QuoteBytes(bytes[1..])
  }

  function Quote(value: string): string {
    QuoteBytes(Utf8.Encode(value))
  }

  function UnquoteBytes(text: string): Option<seq<Byte>> {
    if text == "" then Some([])
    else if text[0] == '%' then
      if |text| < 3 then None
      else
        match (NibbleOf(text[1]), NibbleOf(text[2]), UnquoteBytes(text[3..]))
        case (Some(high), Some(low), Some(rest)) => Some([high * 16 + low] + rest)
        case _ => None
    else if text[0] as int >= 128 || !IsUnreserved(text[0] as int) then None
    else
      match UnquoteBytes(text[1..])
      case None => None
      case Some(rest) => Some([text[0] as int] + rest)
  }

  function Unquote(text: string): Option<string> {
    match UnquoteBytes(text)
    case None => None
    case Some(bytes) => Utf8.Decode(bytes)
  }

  lemma {:induction false} QuotedBytes(bytes: seq<Byte>)
    ensures UnquoteBytes(QuoteBytes(bytes)) == Some(bytes)
    ensures ':' !in QuoteBytes(bytes)
  {
    hide QuoteByte;
    if bytes != [] {
      var b, tail := bytes[0], QuoteBytes(bytes[1..]);
      QuotedBytes(bytes[1..]);
      assert bytes == [b] + bytes[1..];
      QuotedByte(b, tail);
    }
  }

  lemma QuotedByte(b: Byte, tail: string)
    ensures UnquoteBytes(QuoteByte(b) + tail)
      == match UnquoteBytes(tail) case None => None case Some(rest) => Some([b] + rest)
    ensures ':' !in QuoteByte(b)
  {
    var text := QuoteByte(b) + tail;
    if IsUnreserved(b) {
      assert text[1..] == tail;
    } else {
      assert text[3..] == tail && text[1] == UpperHex(b / 16) && text[2] == UpperHex(b % 16);
    }
  }

  lemma QuoteReadsBack(value: string)
    ensures Unquote(Quote(value)) == Some(value)
    ensures ':' !in Quote(value)
  {
    Utf8.EncodeReadsBack(value);
    QuotedBytes(Utf8.Encode(value));
  }

  // ---- Keys ----

  datatype Identity = Identity(tenant: Option<string>, user: string, session: string)

  datatype KeyName =
    | SessionKey
    | WorkflowKey(workflow: string)
    | ThreadKey(thread: string)
    | SessionEventsKey
    | WorkflowEventsKey(workflow: string)
    | TokenKey(tokenRef: string)

  // ValueError, with the field that must not be empty.
  datatype KeyError = EmptyField(field: string)

  function EncodePart(value: string, field: string): Result<string, KeyError> {
    if value == "" then Err(EmptyField(field)) else Ok(Quote(value))
  }

  function EncodeTenant(tenant: Option<string>): Result<string, KeyError> {
    match tenant
    case None => Ok(GLOBAL_TENANT_ID)
    case Some(id) => EncodePart(id, "tenant_id")
  }

  function BuildSessionKey(prefix: string, id: Identity): Result<string, KeyError> {
    if prefix == "" then Err(EmptyField("prefix"))
    else
      match EncodeTenant(id.tenant)
      case Err(e) => Err(e)
      case Ok(tenant) =>
        match EncodePart(id.user, "user_id")
        case Err(e) => Err(e)
        case Ok(user) =>
          match EncodePart(id.session, "session_id")
          case Err(e) => Err(e)
          case Ok(session) => Ok(prefix + ":tenant:" + tenant + ":user:" + user + ":session:" + session)
  }

  function Extend(key: Result<string, KeyError>, family: string,
                  part: Result<string, KeyError>): Result<string, KeyError> {
    match (key, part)
    case (Err(e), _) => Err(e)
    case (_, Err(e)) => Err(e)
    case (Ok(k), Ok(p)) => Ok(k + ":" + family + ":" + p)
  }

  function BuildWorkflowKey(prefix: string, id: Identity, workflow: string): Result<string, KeyError> {
    Extend(BuildSessionKey(prefix, id), "workflow", EncodePart(workflow, "workflow_id"))
  }

  function BuildKey(prefix: string, id: Identity, name: KeyName): Result<string, KeyError> {
    match name
    case SessionKey => BuildSessionKey(prefix, id)
    case WorkflowKey(workflow) => BuildWorkflowKey(prefix, id, workflow)
    case ThreadKey(thread) => Extend(BuildSessionKey(prefix, id), "thread", EncodePart(thread, "thread_id"))
    case SessionEventsKey => WithEvents(BuildSessionKey(prefix, id))
    case WorkflowEventsKey(workflow) => WithEvents(BuildWorkflowKey(prefix, id, workflow))
    case TokenKey(tokenRef) => Extend(BuildSessionKey(prefix, id), "token", Ok(Quote(tokenRef)))
  }

  function WithEvents(key: Result<string, KeyError>): Result<string, KeyError> {
    match key
    case Err(e) => Err(e)
    case Ok(k) => Ok(k + ":events")
  }

  // ---- Reading a key back ----

  function ParseTenant(field: string): Option<Option<string>> {
    if field == GLOBAL_TENANT_ID then Some(None)
    else
      match Unquote(field)
      case None => None
      case Some(id) => Some(Some(id))
  }

  function ParseName(fields: seq<string>): Option<KeyName> {
    if fields == [] then Some(SessionKey)
    else if fields == ["events"] then Some(SessionEventsKey)
    else if |fields| == 2 && fields[0] == "workflow" then
      (match Unquote(fields[1]) case None => None case Some(part) => Some(WorkflowKey(part)))
    else if |fields| == 2 && fields[0] == "thread" then
      (match Unquote(fields[1]) case None => None case Some(part) => Some(ThreadKey(part)))
    else if |fields| == 2 && fields[0] == "token" then
      (match Unquote(fields[1]) case None => None case Some(part) => Some(TokenKey(part)))
    else if |fields| == 3 && fields[0] == "workflow" && fields[2] == "events" then
      (match Unquote(fields[1]) case None => None case Some(part) => Some(WorkflowEventsKey(part)))
    else None
  }

  function ParseKey(prefix: string, key: string): Option<(Identity, KeyName)> {
    if !StartsWith(key, prefix + ":") then None
    else
      var fields := Split(key[|prefix| + 1..], ':');
      if |fields| < 6 || fields[0] != "tenant" || fields[2] != "user" || fields[4] != "session" then None
      else
        match (ParseTenant(fields[1]), Unquote(fields[3]), Unquote(fields[5]), ParseName(fields[6..]))
        case (Some(tenant), Some(user), Some(session), Some(name)) => Some((Identity(tenant, user, session), name))
        case _ => None
  }

  // The tenant "_" is written like the absent tenant.
  function Canonical(id: Identity): Identity {
    if id.tenant == Some(GLOBAL_TENANT_ID) then id.(tenant := None) else id
  }

  predicate HasEmptyPart(prefix: string, id: Identity, name: KeyName) {
    prefix == "" || id.tenant == Some("") || id.user == "" || id.session == ""
    || ((name.WorkflowKey? || name.WorkflowEventsKey?) && name.workflow == "")
    || (name.ThreadKey? && name.thread == "")
  }

  function NameFields(name: KeyName): seq<string> {
    match name
    case SessionKey => []
    case WorkflowKey(workflow) => ["workflow", Quote(workflow)]
    case ThreadKey(thread) => ["thread", Quote(thread)]
    case SessionEventsKey => ["events"]
    case WorkflowEventsKey(workflow) => ["workflow", Quote(workflow), "events"]
    case TokenKey(tokenRef) => ["token", Quote(tokenRef)]
  }

  function TenantField(tenant: Option<string>): string {
    match tenant case None => GLOBAL_TENANT_ID case Some(id) => Quote(id)
  }

  function KeyFields(id: Identity, name: KeyName): seq<string> {
    ["tenant", TenantField(id.tenant), "user", Quote(id.user), "session", Quote(id.session)] + NameFields(name)
  }

  lemma {:induction false} SplitJoin(fields: seq<string>)
    requires fields != [] && forall f <- fields :: ':' !in f
    ensures Split(Join(fields, ":"), ':') == fields
  {
    if |fields| == 1 {
      SplitAtSeparator(fields[0], ':', "");
    } else {
      SplitAtSeparator(fields[0], ':', Join(fields[1..], ":"));
      SplitJoin(fields[1..]);
    }
  }

  lemma JoinPair(a: string, b: string)
    ensures Join([a, b], ":") == a + ":" + b
  {
    assert [a, b][1..] == [b];
  }

  lemma JoinSix(a: string, b: string, c: string)
    ensures Join(["tenant", a, "user", b, "session", c], ":") == "tenant:" + a + ":user:" + b + ":session:" + c
  {
    JoinPair("tenant", a);
    JoinPair("user", b);
    JoinPair("session", c);
    JoinAppend(["user", b], ["session", c], ":");
    JoinAppend(["tenant", a], ["user", b] + ["session", c], ":");
    assert ["tenant", a, "user", b, "session", c] == ["tenant", a] + (["user", b] + ["session", c]);
    hide Join;
    calc {
      Join(["tenant", a, "user", b, "session", c], ":");
      ("tenant" + ":" + a) + ":" + (("user" + ":" + b) + ":" + ("session" + ":" + c));
      ("tenant:" + a) + ":" + (("user:" + b) + ":" + ("session:" + c));
      "tenant:" + a + ":user:" + b + ":session:" + c;
    }
  }

  lemma SessionKeyIsJoinedFields(prefix: string, id: Identity)
    requires BuildSessionKey(prefix, id).Ok?
    ensures BuildSessionKey(prefix, id).value == prefix + ":" + Join(KeyFields(id, SessionKey), ":")
  {
    hide Quote, Join;
    var tenant, user, session := TenantField(id.tenant), Quote(id.user), Quote(id.session);
    JoinSix(tenant, user, session);
    assert KeyFields(id, SessionKey) == ["tenant", tenant, "user", user, "session", session];
  }

  lemma NameIsJoinedFields(prefix: string, id: Identity, name: KeyName)
    requires BuildKey(prefix, id, name).Ok? && name != SessionKey
    ensures BuildKey(prefix, id, name).value
         == BuildSessionKey(prefix, id).value + ":" + Join(NameFields(name), ":")
  {
    hide Quote, Join, BuildSessionKey;
    var fields := NameFields(name);
    if |fields| == 1 {
      JoinSingle("events");
    } else if |fields| == 2 {
      JoinPair(fields[0], fields[1]);
    } else {
      JoinPair(fields[0], fields[1]);
      JoinSingle("events");
      JoinAppend(fields[..2], ["events"], ":");
      assert fields == fields[..2] + ["events"] && fields[..2] == [fields[0], fields[1]];
    }
  }

  lemma KeyIsJoinedFields(prefix: string, id: Identity, name: KeyName)
    requires BuildKey(prefix, id, name).Ok?
    ensures BuildKey(prefix, id, name).value == prefix + ":" + Join(KeyFields(id, name), ":")
  {
    hide Quote, Join;
    var head, fields := KeyFields(id, SessionKey), NameFields(name);
    SessionKeyIsJoinedFields(prefix, id);
    assert head + fields == KeyFields(id, name);
    if name != SessionKey {
      JoinAppend(head, fields, ":");
      NameIsJoinedFields(prefix, id, name);
    }
  }

  lemma JoinSingle(a: string)
    ensures Join([a], ":") == a
  {
  }

  lemma QuoteUnderscore()
    ensures Quote("_") == "_"
  {
    assert Utf8.EncodeChar('_') == ['_' as int];
    assert Utf8.Encode("_") == ['_' as int];
    assert QuoteByte('_' as int) == "_";
  }

  lemma TenantReadsBack(id: Identity)
    ensures ParseTenant(TenantField(id.tenant)) == Some(Canonical(id).tenant) && ':' !in TenantField(id.tenant)
  {
    hide Quote, Unquote;
    QuoteUnderscore();
    QuoteReadsBack("_");
    if id.tenant.Some? {
      QuoteReadsBack(id.tenant.value);
    }
  }

  lemma NameReadsBack(name: KeyName)
    ensures ParseName(NameFields(name)) == Some(name) && forall f <- NameFields(name) :: ':' !in f
  {
    hide Quote, Unquote;
    match name
    case SessionKey =>
    case WorkflowKey(part) => QuoteReadsBack(part);
    case ThreadKey(part) => QuoteReadsBack(part);
    case SessionEventsKey =>
    case WorkflowEventsKey(part) => QuoteReadsBack(part);
    case TokenKey(part) => QuoteReadsBack(part);
  }

  // Every part of a key can be read back from it, except that the tenant "_" reads back as no
  // tenant.
  lemma KeyReadsBack(prefix: string, id: Identity, name: KeyName)
    requires BuildKey(prefix, id, name).Ok?
    ensures ParseKey(prefix, BuildKey(prefix, id, name).value) == Some((Canonical(id), name))
  {
    hide Quote, Unquote, ParseTenant, TenantField, ParseName, NameFields;
    var key, fields := BuildKey(prefix, id, name).value, KeyFields(id, name);
    KeyIsJoinedFields(prefix, id, name);
    hide BuildKey;
    QuoteReadsBack(id.user);
    QuoteReadsBack(id.session);
    TenantReadsBack(id);
    NameReadsBack(name);
    SplitJoin(fields);
    assert key[..|prefix| + 1] == prefix + ":";
    assert key[|prefix| + 1..] == Join(fields, ":");
    assert fields[6..] == NameFields(name);
  }

  // A key is refused exactly when a part of it is empty.
  lemma KeyIsRefusedIffPartEmpty(prefix: string, id: Identity, name: KeyName)
    ensures BuildKey(prefix, id, name).Err? <==> HasEmptyPart(prefix, id, name)
    ensures forall field :: BuildKey(prefix, id, name) == Err(EmptyField(field)) <==>
      IsFirstEmpty(field, prefix, id, name)
  {
  }

  // The part that is complained of: the first that is empty.
  predicate IsFirstEmpty(field: string, prefix: string, id: Identity, name: KeyName) {
    if prefix == "" then field == "prefix"
    else if id.tenant == Some("") then field == "tenant_id"
    else if id.user == "" then field == "user_id"
    else if id.session == "" then field == "session_id"
    else if name.WorkflowKey? || name.WorkflowEventsKey? then name.workflow == "" && field == "workflow_id"
    else name.ThreadKey? && name.thread == "" && field == "thread_id"
  }

  // Two keys under one prefix are equal exactly when they name the same part of the same
  // canonical identity: across all six families nothing else collides.
  lemma KeysCollideIffSameParts(prefix: string, id: Identity, name: KeyName, id': Identity, name': KeyName)
    requires BuildKey(prefix, id, name).Ok? && BuildKey(prefix, id', name').Ok?
    ensures BuildKey(prefix, id, name) == BuildKey(prefix, id', name')
       <==> Canonical(id) == Canonical(id') && name == name'
  {
    KeyReadsBack(prefix, id, name);
    KeyReadsBack(prefix, id', name');
    hide ParseKey;
    if Canonical(id) == Canonical(id') && name == name' {
      CanonicalNamesTheKey(prefix, id, id', name);
    }
    hide BuildKey, Canonical;
  }

  lemma CanonicalNamesTheKey(prefix: string, id: Identity, id': Identity, name: KeyName)
    requires Canonical(id) == Canonical(id')
    ensures BuildKey(prefix, id, name) == BuildKey(prefix, id', name)
  {
    hide NameFields;
    QuoteUnderscore();
  }

  // The one collision: the tenant "_" shares every key with the absent tenant.
  lemma UnderscoreTenantCollides(prefix: string, user: string, session: string, name: KeyName)
    requires BuildKey(prefix, Identity(None, user, session), name).Ok?
    ensures BuildKey(prefix, Identity(Some("_"), user, session), name)
      == BuildKey(prefix, Identity(None, user, session), name)
  {
    QuoteUnderscore();
  }

  // ---- What quoting leaves alone ----

  predicate IsKept(c: char) {
    'a' <= c <= 'z' || 'A' <= c <= 'Z' || '0' <= c <= '9' || c == '-' || c == '.' || c == '_' || c == '~'
  }

  lemma {:induction false} QuotedGrows(bytes: seq<Utf8.Byte>)
    ensures |QuoteBytes(bytes)| >= |bytes|
  {
    if bytes != [] {
      QuotedGrows(bytes[1..]);
    }
  }

  lemma QuotedChar(c: char)
    ensures IsKept(c) ==> QuoteBytes(Utf8.EncodeChar(c)) == [c]
    ensures !IsKept(c) ==> |QuoteBytes(Utf8.EncodeChar(c))| > 1
  {
    var bytes := Utf8.EncodeChar(c);
    QuotedGrows(bytes[1..]);
    assert bytes == [bytes[0]] + bytes[1..];
    if |bytes| == 1 {
      assert bytes[1..] == [];
    }
  }

  lemma {:induction false} QuotedJoins(a: seq<Utf8.Byte>, b: seq<Utf8.Byte>)
    ensures QuoteBytes(a + b) == QuoteBytes(a) + QuoteBytes(b)
  {
    hide QuoteByte;
    if a == [] {
      assert a + b == b;
    } else {
      assert (a + b)[1..] == a[1..] + b;
      QuotedJoins(a[1..], b);
    }
  }

  lemma {:induction false} QuotedLength(text: string)
    ensures if forall c <- text :: IsKept(c) then Quote(text) == text else |Quote(text)| > |text|
  {
    hide IsKept, Utf8.EncodeChar;
    if text != "" {
      QuotedChar(text[0]);
      QuotedJoins(Utf8.EncodeChar(text[0]), Utf8.Encode(text[1..]));
      QuotedLength(text[1..]);
      assert Quote(text) == QuoteBytes(Utf8.EncodeChar(text[0])) + Quote(text[1..]);
      hide QuoteBytes, Quote;
      assert (forall c <- text :: IsKept(c)) <==> IsKept(text[0]) && forall c <- text[1..] :: IsKept(c);
    }
  }

  // Quoting leaves a text alone exactly when it has nothing but letters, digits and `-`, `.`, `_`, `~`
  // (section 2.3 of RFC 3986).
  lemma QuoteLeavesAloneExactly(text: string)
    ensures Quote(text) == text <==> forall c <- text :: IsKept(c)
  {
    QuotedLength(text);
    hide Quote, IsKept;
  }
}
