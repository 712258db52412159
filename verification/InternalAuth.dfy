// The signed session context that one internal service hands to another in two headers.
module InternalAuth {
  import opened Wrappers
  import opened Text
  import opened Utf8
  import opened Json
  import opened Models
  import Hashing

  // ---- base64url without padding (section 5 of RFC 4648) ----

  type Sextet = n: int | 0 <= n < 64

  function CharOf(n: Sextet): char {
    if n < 26 then ('A' as int + n) as char
    else if n < 52 then ('a' as int + n - 26) as char
    else if n < 62 then ('0' as int + n - 52) as char
    else if n == 62 then '-'
    else '_'
  }

  // The decoder also knows the two characters that the URL-safe alphabet replaces.
  function ValueOf(c: char): Option<Sextet> {
    if 'A' <= c <= 'Z' then Some(c as int - 'A' as int)
    else if 'a' <= c <= 'z' then Some(c as int - 'a' as int + 26)
    else if '0' <= c <= '9' then Some(c as int - '0' as int + 52)
    else if c == '-' || c == '+' then Some(62)
    else if c == '_' || c == '/' then Some(63)
    else None
  }

  function Digits(bytes: seq<Byte>): string {
    if bytes == [] then ""
    else if |bytes| == 1 then [CharOf(bytes[0] / 4), CharOf(bytes[0] % 4 * 16)]
    else if |bytes| == 2 then
      [CharOf(bytes[0] / 4), CharOf(bytes[0] % 4 * 16 + bytes[1] / 16), CharOf(bytes[1] % 16 * 4)]
    else
      [CharOf(bytes[0] / 4), CharOf(bytes[0] % 4 * 16 + bytes[1] / 16),
       CharOf(bytes[1] % 16 * 4 + bytes[2] / 64), CharOf(bytes[2] % 64)] + Digits(bytes[3..])
  }

  // `"=" * (-length % 4)`.
  function Padding(length: nat): string {
    seq((4 - length % 4) % 4, _ => '=')
  }

  function UrlsafeB64Encode(bytes: seq<Byte>): string {
    Digits(bytes) + Padding(|Digits(bytes)|)
  }

  function StripPadding(s: string): string {
    if s != "" && s[|s| - 1] == '=' then StripPadding(s[..|s| - 1]) else s
  }

  function First(a: Sextet, b: Sextet): Byte {
    a as int * 4 + b as int / 16
  }

  function Second(b: Sextet, c: Sextet): Byte {
    b as int % 16 * 16 + c as int / 4
  }

  function Third(c: Sextet, d: Sextet): Byte {
    c as int % 4 * 64 + d as int
  }

  function UrlsafeB64Decode(s: string): Option<seq<Byte>>
    decreases |s|
  {
    if s == "" then Some([])
    else if |s| < 4 then None
    else
      match (ValueOf(s[0]), ValueOf(s[1]), ValueOf(s[2]), ValueOf(s[3]), UrlsafeB64Decode(s[4..]))
      case (Some(a), Some(b), Some(c), Some(d), Some(rest)) =>
        Some([First(a, b), Second(b, c), Third(c, d)] + rest)
      case (Some(a), Some(b), Some(c), None, _) =>
        if s[3..] == "=" then Some([First(a, b), Second(b, c)]) else None
      case (Some(a), Some(b), None, _, _) =>
        if s[2..] == "==" then Some([First(a, b)]) else None
      case _ => None
  }

  // `_base64url_decode`.
  function Base64UrlDecode(value: string): Option<seq<Byte>> {
    UrlsafeB64Decode(value + Padding(|value|))
  }

  lemma CharReadsBack(n: Sextet)
    ensures ValueOf(CharOf(n)) == Some(n) && CharOf(n) != '='
  {
  }

  lemma {:induction false} DigitsHaveNoPadding(bytes: seq<Byte>)
    ensures '=' !in Digits(bytes)
    ensures |Digits(bytes)| == |bytes| / 3 * 4 + [0, 2, 3][|bytes| % 3]
  {
    forall n: Sextet ensures CharOf(n) != '=' {
      CharReadsBack(n);
    }
    if |bytes| >= 3 {
      DigitsHaveNoPadding(bytes[3..]);
    }
  }

  lemma StripPaddingStopsAtDigits(digits: string, padding: string)
    requires '=' !in digits && forall i :: 0 <= i < |padding| ==> padding[i] == '='
    ensures StripPadding(digits + padding) == digits
    decreases |padding|
  {
    if padding == "" {
      assert digits + padding == digits;
      assert digits != "" ==> digits[|digits| - 1] in digits;
    } else {
      var front := padding[..|padding| - 1];
      assert (digits + padding)[..|digits + padding| - 1] == digits + front;
      StripPaddingStopsAtDigits(digits, front);
    }
  }

  lemma ThreeBytesReadBack(a: Byte, b: Byte, c: Byte)
    ensures var (p, q, r, s) := (a / 4, a % 4 * 16 + b / 16, b % 16 * 4 + c / 64, c % 64);
      First(p, q) == a && Second(q, r) == b && Third(r, s) == c
  {
  }

  lemma GroupReadsBack(a: Byte, b: Byte, c: Byte, rest: string)
    ensures var group := [CharOf(a / 4), CharOf(a % 4 * 16 + b / 16), CharOf(b % 16 * 4 + c / 64), CharOf(c % 64)];
      UrlsafeB64Decode(group + rest)
      == match UrlsafeB64Decode(rest) case None => None case Some(tail) => Some([a, b, c] + tail)
  {
    hide CharOf, ValueOf, First, Second, Third;
    CharReadsBack(a / 4);
    CharReadsBack(a % 4 * 16 + b / 16);
    CharReadsBack(b % 16 * 4 + c / 64);
    CharReadsBack(c % 64);
    ThreeBytesReadBack(a, b, c);
    var group := [CharOf(a / 4), CharOf(a % 4 * 16 + b / 16), CharOf(b % 16 * 4 + c / 64), CharOf(c % 64)];
    assert (group + rest)[4..] == rest;
    assert (group + rest)[3..] != "=" || |group + rest| == 4;
    PaddingIsNoDigit();
  }

  lemma PaddingIsNoDigit()
    ensures ValueOf('=') == None
  {
  }

  lemma TwoBytesReadBack(a: Byte, b: Byte)
    ensures UrlsafeB64Decode([CharOf(a / 4), CharOf(a % 4 * 16 + b / 16), CharOf(b % 16 * 4), '=']) == Some([a, b])
  {
    hide CharOf, ValueOf, First, Second, Third;
    CharReadsBack(a / 4);
    CharReadsBack(a % 4 * 16 + b / 16);
    CharReadsBack(b % 16 * 4);
    ThreeBytesReadBack(a, b, 0);
    PaddingIsNoDigit();
    assert [CharOf(a / 4), CharOf(a % 4 * 16 + b / 16), CharOf(b % 16 * 4), '='][3..] == "=";
  }

  lemma OneByteReadsBack(a: Byte)
    ensures UrlsafeB64Decode([CharOf(a / 4), CharOf(a % 4 * 16), '=', '=']) == Some([a])
  {
    hide CharOf, ValueOf, First, Second, Third;
    CharReadsBack(a / 4);
    CharReadsBack(a % 4 * 16);
    ThreeBytesReadBack(a, 0, 0);
    PaddingIsNoDigit();
    assert [CharOf(a / 4), CharOf(a % 4 * 16), '=', '='][2..] == "==";
  }

  lemma DigitsOfAGroup(bytes: seq<Byte>)
    requires |bytes| > 2
    ensures var (a, b, c, tail) := (bytes[0], bytes[1], bytes[2], Digits(bytes[3..]));
      Digits(bytes) + Padding(|Digits(bytes)|)
      == [CharOf(a / 4), CharOf(a % 4 * 16 + b / 16), CharOf(b % 16 * 4 + c / 64),
          CharOf(c % 64)] + (tail + Padding(|tail|))
  {
    hide CharOf, Padding;
    var (a, b, c, tail) := (bytes[0], bytes[1], bytes[2], Digits(bytes[3..]));
    var group := [CharOf(a / 4), CharOf(a % 4 * 16 + b / 16), CharOf(b % 16 * 4 + c / 64), CharOf(c % 64)];
    assert Digits(bytes) == group + tail;
    hide Digits;
    PaddingAfterFour(|tail|);
    assert (group + tail) + Padding(|tail|) == group + (tail + Padding(|tail|));
  }

  lemma PaddingAfterFour(n: nat)
    ensures Padding(4 + n) == Padding(n)
  {
  }

  lemma {:induction false} PaddedDigitsReadBack(bytes: seq<Byte>)
    ensures UrlsafeB64Decode(Digits(bytes) + Padding(|Digits(bytes)|)) == Some(bytes)
  {
    hide UrlsafeB64Decode, CharOf, ValueOf, First, Second, Third;
    var digits := Digits(bytes);
    var s := digits + Padding(|digits|);
    if bytes == [] {
      assert s == "";
      NothingReadsBack();
    } else if |bytes| == 1 {
      OneByteReadsBack(bytes[0]);
      assert s == [CharOf(bytes[0] / 4), CharOf(bytes[0] % 4 * 16), '=', '='];
      assert bytes == [bytes[0]];
    } else if |bytes| == 2 {
      TwoBytesReadBack(bytes[0], bytes[1]);
      assert s == [CharOf(bytes[0] / 4), CharOf(bytes[0] % 4 * 16 + bytes[1] / 16), CharOf(bytes[1] % 16 * 4), '='];
      assert bytes == [bytes[0], bytes[1]];
    } else {
      var tail := Digits(bytes[3..]);
      PaddedDigitsReadBack(bytes[3..]);
      GroupReadsBack(bytes[0], bytes[1], bytes[2], tail + Padding(|tail|));
      DigitsOfAGroup(bytes);
      hide Digits, Padding;
      assert bytes == [bytes[0], bytes[1], bytes[2]] + bytes[3..];
    }
  }

  lemma NothingReadsBack()
    ensures UrlsafeB64Decode("") == Some([])
  {
  }

  // Taking the padding off loses nothing: any bytes are read back once it is restored.
  lemma UnpaddedReadsBack(bytes: seq<Byte>)
    ensures Base64UrlDecode(StripPadding(UrlsafeB64Encode(bytes))) == Some(bytes)
  {
    DigitsHaveNoPadding(bytes);
    StripPaddingStopsAtDigits(Digits(bytes), Padding(|Digits(bytes)|));
    PaddedDigitsReadBack(bytes);
  }

  // ---- The session context ----

  datatype TrustedSessionContext = TrustedSessionContext(
    userId: string,
    sessionId: string,
    tenantId: Option<string>,
    tokenRef: Option<string>,
    tokenScopes: seq<string>,
    allowedTools: Option<seq<string>>,
    correlationId: string,
    expiresAt: Time)

  datatype TimeCodec = TimeCodec(show: Time -> string, read: string -> Option<Time>)

  ghost predicate IsFaithful(codec: TimeCodec) {
    forall t :: codec.read(codec.show(t)) == Some(t)
  }

  predicate IsNormalList(xs: seq<string>) {
    Increasing(xs) && "" !in xs
  }

  // What the model's validators establish.
  predicate IsValid(c: TrustedSessionContext) {
    && c.userId != "" && c.sessionId != "" && c.correlationId != ""
    && c.tenantId != Some("") && c.tokenRef != Some("")
    && IsNormalList(c.tokenScopes)
    && (c.allowedTools.Some? ==> IsNormalList(c.allowedTools.value))
  }

  const CONTEXT_FIELDS: seq<string> :=
    ["user_id", "session_id", "tenant_id", "token_ref", "token_scopes", "allowed_tools", "correlation_id", "expires_at"]

  // None fields are kept, as null.
  function OrNull(value: Option<string>): Json {
    match value case None => Null case Some(text) => Str(text)
  }

  function ContextValues(c: TrustedSessionContext, show: Time -> string): seq<Option<Json>> {
    [Some(Str(c.userId)), Some(Str(c.sessionId)), Some(OrNull(c.tenantId)), Some(OrNull(c.tokenRef)),
     Some(Hashing.Strings(c.tokenScopes)),
     Some(match c.allowedTools case None => Null case Some(tools) => Hashing.Strings(tools)),
     Some(Str(c.correlationId)), Some(Str(show(c.expiresAt)))]
  }

  function ContextJson(c: TrustedSessionContext, show: Time -> string): Json {
    Obj(Hashing.Members(CONTEXT_FIELDS, ContextValues(c, show)))
  }

  function ReadRequired(value: Option<Json>): Option<string> {
    match value
    case Some(Str(text)) => if text == "" then None else Some(text)
    case _ => None
  }

  function ReadNullable(value: Option<Json>): Option<Option<string>> {
    match value
    case None => Some(None)
    case Some(Null) => Some(None)
    case Some(Str(text)) => if text == "" then None else Some(Some(text))
    case _ => None
  }

  function ReadStrings(items: seq<Json>): Option<seq<string>> {
    if items == [] then Some([])
    else
      match (items[0], ReadStrings(items[1..]))
      case (Str(text), Some(rest)) => if text == "" then None else Some([text] + rest)
      case _ => None
  }

  // A list of non-empty strings, normalised.
  function ReadList(value: Option<Json>): Option<seq<string>> {
    match value
    case Some(Arr(items)) =>
      (match ReadStrings(items) case None => None case Some(xs) => Some(DedupeSorted(xs)))
    case _ => None
  }

  // `TrustedSessionContext.model_validate`: strict, without extra fields.
  function ReadContext(j: Json, read: string -> Option<Time>): Option<TrustedSessionContext> {
    if !j.Obj? || !(j.members.Keys <= Elements(CONTEXT_FIELDS)) then None
    else
      var m := j.members;
      match (ReadRequired(Get(m, "user_id")), ReadRequired(Get(m, "session_id")), ReadNullable(Get(m, "tenant_id")),
             ReadNullable(Get(m, "token_ref")), ReadScopes(Get(m, "token_scopes")), ReadTools(Get(m, "allowed_tools")),
             ReadRequired(Get(m, "correlation_id")), ReadTime(Get(m, "expires_at"), read))
      case (Some(user), Some(session), Some(tenant), Some(token), Some(scopes), Some(tools), Some(correlation),
        Some(time)) =>
        Some(TrustedSessionContext(user, session, tenant, token, scopes, tools, correlation, time))
      case _ => None
  }

  function ReadScopes(value: Option<Json>): Option<seq<string>> {
    if value.None? then Some([]) else ReadList(value)
  }

  function ReadTools(value: Option<Json>): Option<Option<seq<string>>> {
    if value.None? || value.value == Null then Some(None)
    else match ReadList(value) case None => None case Some(xs) => Some(Some(xs))
  }

  function ReadTime(value: Option<Json>, read: string -> Option<Time>): Option<Time> {
    match ReadRequired(value) case None => None case Some(text) => read(text)
  }

  lemma {:induction false} StringsReadBack(xs: seq<string>)
    requires "" !in xs
    ensures ReadStrings(Hashing.Strings(xs).items) == Some(xs)
  {
    if xs != [] {
      StringsReadBack(xs[1..]);
      assert Hashing.Strings(xs).items[1..] == Hashing.Strings(xs[1..]).items;
      assert xs == [xs[0]] + xs[1..];
    }
  }

  lemma ListReadsBack(xs: seq<string>)
    requires IsNormalList(xs)
    ensures ReadList(Some(Hashing.Strings(xs))) == Some(xs)
  {
    StringsReadBack(xs);
    SortedElements(xs);
  }

  lemma ContextFields(c: TrustedSessionContext, show: Time -> string)
    ensures var m := Hashing.Members(CONTEXT_FIELDS, ContextValues(c, show));
      && m.Keys <= Elements(CONTEXT_FIELDS)
      && forall i :: 0 <= i < |CONTEXT_FIELDS| ==> Get(m, CONTEXT_FIELDS[i]) == ContextValues(c, show)[i]
  {
    var values := ContextValues(c, show);
    forall i, j | 0 <= i < j < |CONTEXT_FIELDS| ensures CONTEXT_FIELDS[i] != CONTEXT_FIELDS[j] {
    }
    forall key ensures key in Hashing.Members(CONTEXT_FIELDS, values) ==> key in CONTEXT_FIELDS {
      Hashing.MemberAt(CONTEXT_FIELDS, values, key);
    }
    forall i | 0 <= i < |CONTEXT_FIELDS|
      ensures Get(Hashing.Members(CONTEXT_FIELDS, values), CONTEXT_FIELDS[i]) == values[i]
    {
      Hashing.MemberAt(CONTEXT_FIELDS, values, CONTEXT_FIELDS[i]);
    }
  }

  lemma ContextGets(c: TrustedSessionContext, show: Time -> string)
    ensures var m := Hashing.Members(CONTEXT_FIELDS, ContextValues(c, show));
      && Get(m, "user_id") == Some(Str(c.userId)) && Get(m, "session_id") == Some(Str(c.sessionId))
      && Get(m, "tenant_id") == Some(OrNull(c.tenantId)) && Get(m, "token_ref") == Some(OrNull(c.tokenRef))
      && Get(m, "token_scopes") == ContextValues(c, show)[4] && Get(m, "allowed_tools") == ContextValues(c, show)[5]
      && Get(m, "correlation_id") == Some(Str(c.correlationId)) && Get(m, "expires_at") == Some(Str(show(c.expiresAt)))
  {
    hide Hashing.Members, Hashing.Strings, Get;
    ContextFields(c, show);
    var f := CONTEXT_FIELDS;
    assert f[0] == "user_id" && f[1] == "session_id" && f[2] == "tenant_id" && f[3] == "token_ref";
    assert f[4] == "token_scopes" && f[5] == "allowed_tools" && f[6] == "correlation_id" && f[7] == "expires_at";
  }

  lemma ContextReadsBack(c: TrustedSessionContext, codec: TimeCodec)
    requires IsValid(c) && IsFaithful(codec) && codec.show(c.expiresAt) != ""
    ensures ReadContext(ContextJson(c, codec.show), codec.read) == Some(c)
  {
    hide Hashing.Members, ReadList, Hashing.Strings, Get, CONTEXT_FIELDS;
    ContextFields(c, codec.show);
    ContextGets(c, codec.show);
    ListReadsBack(c.tokenScopes);
    if c.allowedTools.Some? {
      ListReadsBack(c.allowedTools.value);
    }
  }

  // ---- Signing and verifying ----

  // HMAC-SHA256 as a hexadecimal digest, of a secret and a text.
  type Hmac = (string, string) -> string

  datatype AuthError =
    | ContextRequired
    | SecretRequired
    | InvalidSignature
    | InvalidEncoding
    | InvalidContext
    | Expired

  function EncodeContext(c: TrustedSessionContext, show: Time -> string): string {
    StripPadding(UrlsafeB64Encode(Utf8.Encode(Dumps(ContextJson(c, show), true))))
  }

  function SignContext(encoded: string, secret: string, hmac: Hmac): Result<string, AuthError> {
    if secret == "" then Err(SecretRequired) else Ok(hmac(secret, encoded))
  }

  // The text of a verified header.
  function DecodeContext(encoded: string, read: string -> Option<Time>): Result<TrustedSessionContext, AuthError> {
    match Base64UrlDecode(encoded)
    case None => Err(InvalidEncoding)
    case Some(bytes) =>
      match Utf8.Decode(bytes)
      case None => Err(InvalidEncoding)
      case Some(text) =>
        match Loads(text)
        case None => Err(InvalidContext)
        case Some(j) =>
          match ReadContext(j, read)
          case None => Err(InvalidContext)
          case Some(c) => Ok(c)
  }

  function VerifyContext(encoded: Option<string>, signature: Option<string>, secret: string, hmac: Hmac,
                         read: string -> Option<Time>, now: Time): Result<TrustedSessionContext, AuthError> {
    if !Truthy(encoded) || !Truthy(signature) then Err(ContextRequired)
    else
      match SignContext(encoded.value, secret, hmac)
      case Err(e) => Err(e)
      case Ok(expected) =>
        if signature.value != expected then Err(InvalidSignature)
        else
          match DecodeContext(encoded.value, read)
          case Err(e) => Err(e)
          case Ok(c) => if c.expiresAt <= now then Err(Expired) else Ok(c)
  }

  lemma EncodedContextReadsBack(c: TrustedSessionContext, codec: TimeCodec)
    requires IsValid(c) && IsFaithful(codec) && codec.show(c.expiresAt) != ""
    ensures EncodeContext(c, codec.show) != ""
    ensures DecodeContext(EncodeContext(c, codec.show), codec.read) == Ok(c)
  {
    hide UrlsafeB64Encode, StripPadding, Base64UrlDecode, Utf8.Encode, Utf8.Decode, ReadContext, ContextJson, Print,
         Read;
    var j := ContextJson(c, codec.show);
    var bytes := Utf8.Encode(Dumps(j, true));
    UnpaddedReadsBack(bytes);
    Utf8.EncodeReadsBack(Dumps(j, true));
    DumpsReadsBack(j, true);
    ContextReadsBack(c, codec);
    EmptyTextIsNoContext();
  }

  lemma EmptyTextIsNoContext()
    ensures Base64UrlDecode("") == Some([]) && Utf8.Decode([]) == Some("") && Loads("") == None
  {
    assert "" + Padding(0) == "";
  }

  // Freshly signed headers verify to the same context until it expires, and not after.
  lemma SignedHeadersVerifyUntilExpiry(c: TrustedSessionContext, secret: string, hmac: Hmac, codec: TimeCodec,
                                       now: Time)
    requires IsValid(c) && IsFaithful(codec) && codec.show(c.expiresAt) != "" && secret != ""
    requires hmac(secret, EncodeContext(c, codec.show)) != ""
    ensures var encoded := EncodeContext(c, codec.show);
      VerifyContext(Some(encoded), Some(SignContext(encoded, secret, hmac).value), secret, hmac, codec.read, now)
      == if now < c.expiresAt then Ok(c) else Err(Expired)
  {
    hide EncodeContext, DecodeContext;
    EncodedContextReadsBack(c, codec);
  }

  // A header that verifies carries the right digest of its own text, so that where only issued
  // texts have a right digest, it carries an issued context and nothing else.
  lemma VerifiedContextWasIssued(encoded: string, signature: string, secret: string, hmac: Hmac, codec: TimeCodec,
                                 now: Time, issued: set<TrustedSessionContext>)
    requires IsFaithful(codec) && forall c <- issued :: IsValid(c) && codec.show(c.expiresAt) != ""
    requires signature == hmac(secret, encoded) ==> exists c <- issued :: encoded == EncodeContext(c, codec.show)
    ensures var r := VerifyContext(Some(encoded), Some(signature), secret, hmac, codec.read, now);
      r.Ok? ==> r.value in issued && now < r.value.expiresAt
  {
    hide EncodeContext, DecodeContext;
    if signature == hmac(secret, encoded) {
      var c :| c in issued && encoded == EncodeContext(c, codec.show);
      EncodedContextReadsBack(c, codec);
    }
  }

  // ---- When a context is read, and when it is refused ----

  predicate SaysText(value: Option<Json>, text: string) {
    value == Some(Str(text)) && text != ""
  }

  predicate MaySay(value: Option<Json>, text: Option<string>) {
    match text
    case None => value == None || value == Some(Null)
    case Some(s) => SaysText(value, s)
  }

  // A list of names comes in any order and with repetitions, and is read sorted and without them.
  predicate Lists(value: Option<Json>, names: seq<string>) {
    value.Some? && value.value.Arr? && Increasing(names) &&
    var items := value.value.items;
    && (forall i :: 0 <= i < |items| ==> items[i].Str? && items[i].text != "" && items[i].text in names)
    && (forall name <- names :: exists i :: 0 <= i < |items| && items[i] == Str(name))
  }

  // The JSON value says this context, field by field, and nothing else.
  predicate SaysContext(j: Json, c: TrustedSessionContext, read: string -> Option<Time>) {
    j.Obj? &&
    j.members.Keys <= {"user_id", "session_id", "tenant_id", "token_ref", "token_scopes", "allowed_tools",
                       "correlation_id", "expires_at"} &&
    var m := j.members;
    && SaysText(Get(m, "user_id"), c.userId) && SaysText(Get(m, "session_id"), c.sessionId)
    && MaySay(Get(m, "tenant_id"), c.tenantId) && MaySay(Get(m, "token_ref"), c.tokenRef)
    && (if "token_scopes" in m then Lists(Get(m, "token_scopes"), c.tokenScopes) else c.tokenScopes == [])
    && (if c.allowedTools.Some? then Lists(Get(m, "allowed_tools"), c.allowedTools.value)
        else Get(m, "allowed_tools") == None || Get(m, "allowed_tools") == Some(Null))
    && SaysText(Get(m, "correlation_id"), c.correlationId)
    && "expires_at" in m && m["expires_at"].Str? && m["expires_at"].text != "" &&
       read(m["expires_at"].text) == Some(c.expiresAt)
  }

  lemma TextIsReadExactly(value: Option<Json>, text: string)
    ensures ReadRequired(value) == Some(text) <==> SaysText(value, text)
  {
  }

  lemma NullableIsReadExactly(value: Option<Json>, text: Option<string>)
    ensures ReadNullable(value) == Some(text) <==> MaySay(value, text)
  {
  }

  lemma {:induction false} StringsAreReadExactly(items: seq<Json>)
    ensures ReadStrings(items).Some? <==> forall i :: 0 <= i < |items| ==> items[i].Str? && items[i].text != ""
    ensures ReadStrings(items).Some? ==> |ReadStrings(items).value| == |items|
    ensures forall i :: 0 <= i < |items| && ReadStrings(items).Some? ==> items[i] == Str(ReadStrings(items).value[i])
  {
    if items != [] {
      StringsAreReadExactly(items[1..]);
      assert forall i :: 0 < i < |items| ==> items[i] == items[1..][i - 1];
    }
  }

  lemma ListIsReadExactly(value: Option<Json>, names: seq<string>)
    ensures ReadList(value) == Some(names) <==> Lists(value, names)
  {
    if value.Some? && value.value.Arr? {
      var items := value.value.items;
      StringsAreReadExactly(items);
      if ReadStrings(items).Some? {
        SortedTexts(ReadStrings(items).value, names);
        hide ReadStrings, DedupeSorted, Increasing;
        TextsOfItems(items, ReadStrings(items).value, names);
      }
    }
  }

  lemma TextsOfItems(items: seq<Json>, texts: seq<string>, names: seq<string>)
    requires |texts| == |items| && forall i :: 0 <= i < |items| ==> items[i] == Str(texts[i]) && texts[i] != ""
    ensures (forall name <- names :: name in texts) <==>
      (forall name <- names :: exists i :: 0 <= i < |items| && items[i] == Str(name))
    ensures (forall text <- texts :: text in names) <==>
      (forall i :: 0 <= i < |items| ==> items[i].Str? && items[i].text != "" && items[i].text in names)
  {
    assert forall name :: name in texts <==> exists i :: 0 <= i < |items| && items[i] == Str(name);
  }

  lemma SortedTexts(texts: seq<string>, names: seq<string>)
    ensures DedupeSorted(texts) == names <==>
      Increasing(names) && (forall text <- texts :: text in names) && (forall name <- names :: name in texts)
  {
    if Increasing(names) && (forall text <- texts :: text in names) && (forall name <- names :: name in texts) {
      assert Elements(names) == Elements(texts);
      SortedElements(names);
    }
  }

  lemma ContextIsReadExactly(j: Json, c: TrustedSessionContext, read: string -> Option<Time>)
    ensures ReadContext(j, read) == Some(c) <==> SaysContext(j, c, read)
  {
    if j.Obj? {
      var m := j.members;
      KeysAreFields(m.Keys);
      TextIsReadExactly(Get(m, "user_id"), c.userId);
      TextIsReadExactly(Get(m, "session_id"), c.sessionId);
      NullableIsReadExactly(Get(m, "tenant_id"), c.tenantId);
      NullableIsReadExactly(Get(m, "token_ref"), c.tokenRef);
      ListIsReadExactly(Get(m, "token_scopes"), c.tokenScopes);
      if c.allowedTools.Some? {
        ListIsReadExactly(Get(m, "allowed_tools"), c.allowedTools.value);
      }
      TextIsReadExactly(Get(m, "correlation_id"), c.correlationId);
      hide ReadRequired, ReadNullable, ReadList, SaysText, MaySay, Lists, CONTEXT_FIELDS, Elements;
      TimeIsReadExactly(Get(m, "expires_at"), c.expiresAt, read);
    }
  }

  lemma KeysAreFields(keys: set<string>)
    ensures keys <= Elements(CONTEXT_FIELDS) <==>
      keys <= {"user_id", "session_id", "tenant_id", "token_ref", "token_scopes", "allowed_tools", "correlation_id",
               "expires_at"}
  {
    assert Elements(CONTEXT_FIELDS)
      == {"user_id", "session_id", "tenant_id", "token_ref", "token_scopes", "allowed_tools", "correlation_id",
          "expires_at"};
    hide CONTEXT_FIELDS;
  }

  lemma TimeIsReadExactly(value: Option<Json>, time: Time, read: string -> Option<Time>)
    ensures ReadTime(value, read) == Some(time) <==>
      value.Some? && value.value.Str? && value.value.text != "" && read(value.value.text) == Some(time)
  {
  }

  // The header decodes to this text.
  ghost predicate DecodesTo(encoded: string, text: string) {
    exists bytes :: Base64UrlDecode(encoded) == Some(bytes) && Utf8.Decode(bytes) == Some(text)
  }

  ghost predicate CarriesContext(encoded: string, c: TrustedSessionContext, read: string -> Option<Time>) {
    exists text :: DecodesTo(encoded, text) && Loads(text).Some? && SaysContext(Loads(text).value, c, read)
  }

  // What comes of two headers, and when.
  ghost predicate IsVerdict(r: Result<TrustedSessionContext, AuthError>, encoded: Option<string>,
                            signature: Option<string>, secret: string, hmac: Hmac, read: string -> Option<Time>,
                            now: Time)
  {
    var sent := encoded.Some? && encoded.value != "" && signature.Some? && signature.value != "";
    var signed := sent && secret != "" && signature.value == hmac(secret, encoded.value);
    match r
    case Err(ContextRequired) => !sent
    case Err(SecretRequired) => sent && secret == ""
    case Err(InvalidSignature) => sent && secret != "" && !signed
    case Err(InvalidEncoding) => signed && forall text :: !DecodesTo(encoded.value, text)
    case Err(InvalidContext) =>
      signed && (exists text :: DecodesTo(encoded.value, text)) && forall c :: !CarriesContext(encoded.value, c, read)
    case Err(Expired) => signed && exists c :: CarriesContext(encoded.value, c, read) && c.expiresAt <= now
    case Ok(c) => signed && CarriesContext(encoded.value, c, read) && now < c.expiresAt
  }

  lemma DecodingIsExact(encoded: string, read: string -> Option<Time>)
    ensures DecodeContext(encoded, read) == Err(InvalidEncoding) <==> forall text :: !DecodesTo(encoded, text)
    ensures forall c :: DecodeContext(encoded, read) == Ok(c) <==> CarriesContext(encoded, c, read)
    ensures DecodeContext(encoded, read).Err? ==>
      DecodeContext(encoded, read).error == InvalidEncoding || DecodeContext(encoded, read).error == InvalidContext
  {
    hide Base64UrlDecode, Utf8.Decode, Loads, SaysContext, ReadContext;
    if Base64UrlDecode(encoded).Some? && Utf8.Decode(Base64UrlDecode(encoded).value).Some? {
      var text := Utf8.Decode(Base64UrlDecode(encoded).value).value;
      assert DecodesTo(encoded, text);
      assert forall other :: DecodesTo(encoded, other) <==> other == text;
      if Loads(text).Some? {
        forall c ensures ReadContext(Loads(text).value, read) == Some(c) <==> SaysContext(Loads(text).value, c, read) {
          ContextIsReadExactly(Loads(text).value, c, read);
        }
      }
    }
  }

  lemma VerdictIsDue(encoded: string, signature: string, secret: string, hmac: Hmac, read: string -> Option<Time>,
                     now: Time, r: Result<TrustedSessionContext, AuthError>)
    requires encoded != "" && signature != ""
    requires r == VerifyContext(Some(encoded), Some(signature), secret, hmac, read, now)
    ensures IsVerdict(r, Some(encoded), Some(signature), secret, hmac, read, now)
  {
    DecodingIsExact(encoded, read);
    hide DecodeContext, DecodesTo, CarriesContext;
    var d := DecodeContext(encoded, read);
    if d.Ok? {
      assert CarriesContext(encoded, d.value, read);
    }
  }

  lemma VerdictIsOne(encoded: string, signature: string, secret: string, hmac: Hmac, read: string -> Option<Time>,
                     now: Time, r: Result<TrustedSessionContext, AuthError>)
    requires encoded != "" && signature != ""
    requires IsVerdict(r, Some(encoded), Some(signature), secret, hmac, read, now)
    ensures r == VerifyContext(Some(encoded), Some(signature), secret, hmac, read, now)
  {
    DecodingIsExact(encoded, read);
    hide DecodeContext, DecodesTo, CarriesContext;
    var d := DecodeContext(encoded, read);
    if d.Ok? {
      assert CarriesContext(encoded, d.value, read);
    }
  }

  // Each verdict is given exactly when it is due.
  lemma VerdictIsExact(encoded: Option<string>, signature: Option<string>, secret: string, hmac: Hmac,
                       read: string -> Option<Time>, now: Time, r: Result<TrustedSessionContext, AuthError>)
    ensures r == VerifyContext(encoded, signature, secret, hmac, read, now) <==>
      IsVerdict(r, encoded, signature, secret, hmac, read, now)
  {
    hide DecodeContext, DecodesTo, CarriesContext;
    if Truthy(encoded) && Truthy(signature) {
      hide VerifyContext;
      VerdictIsDue(encoded.value, signature.value, secret, hmac, read, now,
        VerifyContext(encoded, signature, secret, hmac, read, now));
      if IsVerdict(r, encoded, signature, secret, hmac, read, now) {
        VerdictIsOne(encoded.value, signature.value, secret, hmac, read, now, r);
      }
    }
  }
}
