/** Compact tokens: minting and validating. JSON text, signatures and clocks come from outside. */
module Jwt {
  import opened Prelude
  import opened Base64Url
  import opened KeyIds

  const MAX_TOKEN_LENGTH := 16 * 1024
  const MAX_HEADER_LENGTH := 1024
  const MAX_CLAIMS_LENGTH := 8 * 1024
  const SIGNATURE_SIZE := 64

  /** Times and durations count nanoseconds, times from 1970. */
  const ZERO_TIME := -62_135_596_800 * SECOND

  function Seconds(time: int): int {
    time / SECOND
  }

  function Truncate(time: int): int {
    Seconds(time) * SECOND
  }

  // ---------------------------------------------------------------- JSON, keys, signatures

  datatype Name =
    | Alg | Typ | Kid
    | Iss | Aud | Sub | Sid | Jti | Iat | Exp | AuthTime | Amr | Acr | GlobalRoles
    | OtherName(text: string)

  datatype Json = JString(text: string) | JInteger(n: int) | JStrings(items: seq<string>) | JOther

  datatype Member = Member(key: Name, value: Json)

  type PublicKey = nat

  datatype Lookup = Found(key: PublicKey) | Unknown | WrongSize | Unavailable

  /** `members` reads a text that is one JSON object and nothing else, in order. */
  datatype Library = Library(
    marshal: seq<Member> -> Bytes,
    members: Bytes -> Option<seq<Member>>,
    verify: (PublicKey, string, Bytes) -> bool)

  type Object = map<Name, Json>

  /** The members as a map, unless a key occurs twice. */
  function Collect(ms: seq<Member>): Option<Object> {
    if ms == [] then Some(map[]) else
    var last := ms[|ms| - 1];
    var before :- Collect(ms[..|ms| - 1]);
    if last.key in before then None else Some(before[last.key := last.value])
  }

  function DecodedObject(lib: Library, value: Bytes): Option<Object> {
    var ms :- lib.members(value);
    Collect(ms)
  }

  lemma {:induction false} RepeatedKeySticks(ms: seq<Member>, n: nat)
    requires n <= |ms| && Collect(ms[..n]) == None
    ensures Collect(ms) == None
    decreases |ms| - n
  {
    if n == |ms| {
      assert ms[..n] == ms;
    } else {
      assert ms[..n + 1][..n] == ms[..n];
      RepeatedKeySticks(ms, n + 1);
    }
  }

  method DecodeObject(lib: Library, value: Bytes) returns (r: Option<Object>)
    ensures r == DecodedObject(lib, value)
  {
    var found := lib.members(value);
    if found.None? {
      return None;
    }
    var ms := found.value;
    var fields: Object := map[];
    var i := 0;
    while i < |ms|
      invariant 0 <= i <= |ms|
      invariant Collect(ms[..i]) == Some(fields)
    {
      assert ms[..i + 1][..i] == ms[..i];
      if ms[i].key in fields {
        RepeatedKeySticks(ms, i + 1);
        return None;
      }
      fields := fields[ms[i].key := ms[i].value];
      i := i + 1;
    }
    assert ms[..i] == ms;
    r := Some(fields);
  }

  function ObjectString(o: Object, key: Name): Option<string> {
    if key in o && o[key].JString? && o[key].text != "" then Some(o[key].text) else None
  }

  function ObjectUnixTime(o: Object, key: Name): Option<int> {
    if key in o && o[key].JInteger? && 0 <= o[key].n < INT64_LIMIT then Some(o[key].n) else None
  }

  predicate ValidRoles(roles: seq<string>) {
    |roles| > 0 && forall i :: 0 <= i < |roles| ==> roles[i] != ""
  }

  function ObjectStringSlice(o: Object, key: Name): Option<seq<string>> {
    if key in o && o[key].JStrings? && ValidRoles(o[key].items) then Some(o[key].items) else None
  }

  // ---------------------------------------------------------------- minting

  /** The service exists only with an issuer, an audience and a leeway that is not negative. */
  datatype Config = Config(issuer: string, audience: string, leeway: int)

  predicate ValidConfig(cfg: Config) {
    cfg.issuer != "" && cfg.audience != "" && cfg.leeway >= 0
  }

  datatype MintRequest = MintRequest(
    subject: string, sessionId: string, tokenId: string, authenticationMethod: string, assuranceLevel: string,
    globalRoles: seq<string>, authenticationTime: int, lifetime: int)

  datatype Claims = Claims(
    issuer: string, audience: string, subject: string, sessionId: string, tokenId: string,
    issuedAt: int, expiresAt: int, authenticationTime: int,
    authenticationMethod: string, assuranceLevel: string, globalRoles: seq<string>, keyId: string)

  datatype Signature = Signature(version: string, bytes: Bytes)

  /** What one call of Mint gets from outside. */
  datatype Issuing = Issuing(
    clock: int, randomId: Bytes, signingKey: Option<string>,
    sign: (string, string) -> Option<Signature>, keys: string -> Lookup)

  datatype MintError = InvalidRequest | NoSigningKey | AuthenticatedAfterIssue | SigningFailed | KeyUnavailable
      | BadSignature

  predicate ValidMintRequest(r: MintRequest) {
    && r.subject != "" && r.sessionId != "" && r.authenticationMethod != "" && r.assuranceLevel != ""
    && ValidRoles(r.globalRoles)
    && r.authenticationTime != ZERO_TIME
    && r.lifetime > 0
  }

  function HeaderMembers(keyId: string): seq<Member> {
    [Member(Alg, JString("EdDSA")), Member(Typ, JString("JWT")), Member(Kid, JString(keyId))]
  }

  function PayloadMembers(c: Claims): seq<Member> {
    [Member(Iss, JString(c.issuer)), Member(Aud, JString(c.audience)), Member(Sub, JString(c.subject)),
     Member(Sid, JString(c.sessionId)), Member(Jti, JString(c.tokenId)),
     Member(Iat, JInteger(Seconds(c.issuedAt))), Member(Exp, JInteger(Seconds(c.expiresAt))),
     Member(AuthTime, JInteger(Seconds(c.authenticationTime))),
     Member(Amr, JString(c.authenticationMethod)), Member(Acr, JString(c.assuranceLevel)),
     Member(GlobalRoles, JStrings(c.globalRoles))]
  }

  /** The text written for these members is read back as these members. */
  predicate ReadsBack(lib: Library, ms: seq<Member>) {
    lib.marshal(ms) != [] && lib.members(lib.marshal(ms)) == Some(ms)
  }

  /** The headers and payloads a mint writes are read back. */
  ghost predicate Faithful(lib: Library) {
    && (forall keyId :: ReadsBack(lib, HeaderMembers(keyId)))
    && (forall c :: ReadsBack(lib, PayloadMembers(c)))
  }

  function MintedClaims(cfg: Config, env: Issuing, request: MintRequest, keyId: string): Claims {
    var issuedAt := Truncate(env.clock);
    Claims(
      cfg.issuer, cfg.audience, request.subject, request.sessionId,
      if request.tokenId == "" then Encode(env.randomId) else request.tokenId,
      issuedAt, issuedAt + request.lifetime, Truncate(request.authenticationTime),
      request.authenticationMethod, request.assuranceLevel, request.globalRoles, keyId)
  }

  function SigningInput(lib: Library, c: Claims): string {
    Encode(lib.marshal(HeaderMembers(c.keyId))) + "." + Encode(lib.marshal(PayloadMembers(c)))
  }

  function Mint(cfg: Config, lib: Library, env: Issuing, request: MintRequest): Result<string, MintError> {
    if !ValidMintRequest(request) then Err(InvalidRequest)
    else if env.signingKey.None? || !ValidTransitVersion(env.signingKey.value) then Err(NoSigningKey)
    else
      var claims := MintedClaims(cfg, env, request, env.signingKey.value);
      if claims.authenticationTime > claims.issuedAt then Err(AuthenticatedAfterIssue) else
      var input := SigningInput(lib, claims);
      var signed := env.sign(claims.keyId, input);
      if signed.None? || |signed.value.bytes| != SIGNATURE_SIZE || signed.value.version != claims.keyId
      then Err(SigningFailed) else
      var lookup := env.keys(claims.keyId);
      if !lookup.Found? then Err(KeyUnavailable)
      else if !lib.verify(lookup.key, input, signed.value.bytes) then Err(BadSignature)
      else Ok(input + "." + Encode(signed.value.bytes))
  }

  // ---------------------------------------------------------------- validating

  /** A failure of the token itself, or of what its validation depends on. */
  datatype Failure = Invalid | Dependency

  function Split(t: string): (parts: seq<string>)
    ensures |parts| > 0
  {
    if t == "" then [""]
    else
      var rest := Split(t[1..]);
      if t[0] == '.' then [""] + rest else [[t[0]] + rest[0]] + rest[1..]
  }

  function SplitCompact(compact: string): Option<(string, string, string)> {
    if compact == "" || |compact| > MAX_TOKEN_LENGTH then None else
    var parts := Split(compact);
    if |parts| != 3 || parts[0] == "" || parts[1] == "" || parts[2] == "" then None
    else Some((parts[0], parts[1], parts[2]))
  }

  function ValidateHeader(o: Object): Option<string> {
    if |o| != 3 then None else
    var alg :- ObjectString(o, Alg);
    if alg != "EdDSA" then None else
    var typ :- ObjectString(o, Typ);
    if typ != "JWT" then None else
    var keyId :- ObjectString(o, Kid);
    if ValidTransitVersion(keyId) then Some(keyId) else None
  }

  function ParseClaims(o: Object, keyId: string): Option<Claims> {
    var issuer :- ObjectString(o, Iss);
    var audience :- ObjectString(o, Aud);
    var subject :- ObjectString(o, Sub);
    var sessionId :- ObjectString(o, Sid);
    var tokenId :- ObjectString(o, Jti);
    var issuedAt :- ObjectUnixTime(o, Iat);
    var expiresAt :- ObjectUnixTime(o, Exp);
    var authenticationTime :- ObjectUnixTime(o, AuthTime);
    var authenticationMethod :- ObjectString(o, Amr);
    var assuranceLevel :- ObjectString(o, Acr);
    var globalRoles :- ObjectStringSlice(o, GlobalRoles);
    Some(Claims(issuer, audience, subject, sessionId, tokenId,
                issuedAt * SECOND, expiresAt * SECOND, authenticationTime * SECOND,
                authenticationMethod, assuranceLevel, globalRoles, keyId))
  }

  predicate ValidClaims(cfg: Config, c: Claims, now: int) {
    && c.issuer == cfg.issuer
    && c.audience == cfg.audience
    && c.expiresAt > c.issuedAt
    && !(c.authenticationTime > c.issuedAt)
    && now < c.expiresAt + cfg.leeway
    && !(c.issuedAt > now + cfg.leeway)
  }

  function DecodedPart(part: string, maxLength: nat): Option<Bytes> {
    var r := DecodeCompactPart(part, maxLength);
    if r.Ok? then Some(r.value) else None
  }

  function HeaderKeyId(lib: Library, part: string): Option<string> {
    var bytes :- DecodedPart(part, MAX_HEADER_LENGTH);
    var header :- DecodedObject(lib, bytes);
    ValidateHeader(header)
  }

  function PayloadClaims(lib: Library, part: string, keyId: string): Option<Claims> {
    var bytes :- DecodedPart(part, MAX_CLAIMS_LENGTH);
    var payload :- DecodedObject(lib, bytes);
    ParseClaims(payload, keyId)
  }

  function Validate(cfg: Config, lib: Library, keys: string -> Lookup, now: int, compact: string)
    : Result<Claims, Failure>
  {
    var parts := SplitCompact(compact);
    if parts.None? then Err(Invalid) else
    var (headerPart, payloadPart, signaturePart) := parts.value;
    var keyId := HeaderKeyId(lib, headerPart);
    var signature := DecodedPart(signaturePart, SIGNATURE_SIZE);
    if keyId.None? || signature.None? || |signature.value| != SIGNATURE_SIZE then Err(Invalid) else
    match keys(keyId.value)
    case Unavailable => Err(Dependency)
    case Unknown => Err(Invalid)
    case WrongSize => Err(Dependency)
    case Found(key) =>
      if !lib.verify(key, headerPart + "." + payloadPart, signature.value) then Err(Invalid) else
      var claims := PayloadClaims(lib, payloadPart, keyId.value);
      if claims.None? || !ValidClaims(cfg, claims.value, now) then Err(Invalid)
      else Ok(claims.value)
  }
}
