/** A minted token validates back to its claims exactly in its time window, and an accepted token
    has one text. */
module JwtProperties {
  import opened Prelude
  import opened Base64Url
  import opened Jwt
  import opened KeyIds

  // ---------------------------------------------------------------- splitting

  lemma EncodedHasNoDots(b: Bytes)
    ensures '.' !in Encode(b)
  {
    EncodedIsInAlphabet(b);
    OnlyAlphabet(Encode(b), '.');
  }

  lemma {:induction false} SplitWhole(t: string)
    requires '.' !in t
    ensures Split(t) == [t]
  {
    if t != "" {
      SplitWhole(t[1..]);
      assert [t[0]] + t[1..] == t;
    }
  }

  lemma {:induction false} SplitFirst(t: string, rest: string)
    requires '.' !in t
    ensures Split(t + "." + rest) == [t] + Split(rest)
  {
    var whole := t + "." + rest;
    if t == "" {
      assert whole[1..] == rest;
    } else {
      SplitFirst(t[1..], rest);
      assert whole[1..] == t[1..] + "." + rest;
      assert [t[0]] + t[1..] == t;
    }
  }

  lemma SplitThree(h: string, p: string, s: string)
    requires '.' !in h && '.' !in p && '.' !in s
    ensures Split(h + "." + p + "." + s) == [h, p, s]
  {
    assert h + "." + p + "." + s == h + "." + (p + "." + s);
    SplitFirst(h, p + "." + s);
    SplitFirst(p, s);
    SplitWhole(s);
  }

  /** Joining what was split gives the text back. */
  function Join(parts: seq<string>): string
    requires |parts| > 0
  {
    if |parts| == 1 then parts[0] else parts[0] + "." + Join(parts[1..])
  }

  lemma {:induction false} SplitThenJoin(t: string)
    ensures Join(Split(t)) == t
  {
    if t != "" {
      var rest := Split(t[1..]);
      SplitThenJoin(t[1..]);
      if t[0] == '.' {
        assert ([""] + rest)[1..] == rest;
      } else {
        var parts := [[t[0]] + rest[0]] + rest[1..];
        assert parts[1..] == rest[1..];
        assert Join(parts) == [t[0]] + Join(rest);
      }
    }
  }

  // ---------------------------------------------------------------- objects

  function Rank(n: Name): int {
    match n
    case Alg => 0 case Typ => 1 case Kid => 2
    case Iss => 0 case Aud => 1 case Sub => 2 case Sid => 3 case Jti => 4 case Iat => 5 case Exp => 6
    case AuthTime => 7 case Amr => 8 case Acr => 9 case GlobalRoles => 10
    case OtherName(_) => -1
  }

  predicate Ranked(ms: seq<Member>) {
    forall i :: 0 <= i < |ms| ==> Rank(ms[i].key) == i
  }

  predicate Holds(o: Object, m: Member) {
    m.key in o && o[m.key] == m.value
  }

  lemma {:induction false} RankedCollects(ms: seq<Member>)
    requires Ranked(ms)
    ensures Collect(ms).Some?
    ensures forall k :: k in Collect(ms).value ==> 0 <= Rank(k) < |ms|
    ensures |Collect(ms).value| == |ms|
    ensures forall i {:trigger ms[i]} :: 0 <= i < |ms| ==> Holds(Collect(ms).value, ms[i])
  {
    if ms != [] {
      var before, last := ms[..|ms| - 1], ms[|ms| - 1];
      RankedCollects(before);
      var o := Collect(before).value;
      assert last.key !in o;
      var all := Collect(ms).value;
      assert all == o[last.key := last.value];
      assert all.Keys == o.Keys + {last.key};
      forall i | 0 <= i < |ms|
        ensures Holds(all, ms[i])
      {
        if i < |ms| - 1 {
          assert before[i] == ms[i];
          assert Holds(o, before[i]);
        }
      }
    }
  }

  lemma HeaderValidates(keyId: string)
    requires ValidTransitVersion(keyId)
    ensures Collect(HeaderMembers(keyId)).Some?
    ensures ValidateHeader(Collect(HeaderMembers(keyId)).value) == Some(keyId)
  {
    var ms := HeaderMembers(keyId);
    RankedCollects(ms);
    var o := Collect(ms).value;
    assert Holds(o, ms[0]) && Holds(o, ms[1]) && Holds(o, ms[2]);
    assert "EdDSA"[0] == 'E' && "JWT"[0] == 'J';
  }

  predicate TimesFit(c: Claims) {
    && 0 <= Seconds(c.issuedAt) < INT64_LIMIT
    && 0 <= Seconds(c.expiresAt) < INT64_LIMIT
    && 0 <= Seconds(c.authenticationTime) < INT64_LIMIT
  }

  function InSeconds(c: Claims): Claims {
    c.(issuedAt := Truncate(c.issuedAt), expiresAt := Truncate(c.expiresAt),
       authenticationTime := Truncate(c.authenticationTime))
  }

  predicate TextsPresent(c: Claims) {
    && c.issuer != "" && c.audience != "" && c.subject != "" && c.sessionId != "" && c.tokenId != ""
    && c.authenticationMethod != "" && c.assuranceLevel != "" && ValidRoles(c.globalRoles)
  }

  lemma PayloadIsRanked(c: Claims)
    ensures Ranked(PayloadMembers(c))
  {
  }

  lemma PayloadParses(c: Claims)
    requires TextsPresent(c)
    ensures Collect(PayloadMembers(c)).Some?
    ensures ParseClaims(Collect(PayloadMembers(c)).value, c.keyId) == if TimesFit(c) then Some(InSeconds(c)) else None
  {
    var ms := PayloadMembers(c);
    PayloadIsRanked(c);
    RankedCollects(ms);
    var o := Collect(ms).value;
    assert Holds(o, ms[0]) && Holds(o, ms[1]) && Holds(o, ms[2]) && Holds(o, ms[3]) && Holds(o, ms[4]);
    assert Holds(o, ms[5]) && Holds(o, ms[6]) && Holds(o, ms[7]);
    assert Holds(o, ms[8]) && Holds(o, ms[9]) && Holds(o, ms[10]);
  }

  // ---------------------------------------------------------------- minted tokens

  lemma PartOfEncoded(b: Bytes, maxLength: nat)
    ensures DecodedPart(Encode(b), maxLength) == if |b| <= maxLength then Some(b) else None
  {
    PartDecodesExactly(Encode(b), maxLength, b);
    var r := DecodeCompactPart(Encode(b), maxLength);
    if r.Ok? {
      PartDecodesExactly(Encode(b), maxLength, r.value);
      EncodeIsInjective(b, r.value);
    }
  }

  function Header(lib: Library, c: Claims): Bytes {
    lib.marshal(HeaderMembers(c.keyId))
  }

  function Payload(lib: Library, c: Claims): Bytes {
    lib.marshal(PayloadMembers(c))
  }

  /** The text of a token with these claims and this signature. */
  function Compact(lib: Library, c: Claims, signature: Bytes): string {
    SigningInput(lib, c) + "." + Encode(signature)
  }

  /** Header and payload of the greatest size fit the greatest token. */
  lemma LargestPartsFit(lib: Library, c: Claims, signature: Bytes)
    requires |Header(lib, c)| <= MAX_HEADER_LENGTH && |Payload(lib, c)| <= MAX_CLAIMS_LENGTH
    requires |signature| == SIGNATURE_SIZE
    ensures |Compact(lib, c, signature)| <= MAX_TOKEN_LENGTH
  {
    EncodedLength(Header(lib, c));
    EncodedLength(Payload(lib, c));
    EncodedLength(signature);
  }

  lemma CompactSplits(lib: Library, c: Claims, signature: Bytes)
    requires Faithful(lib)
    requires |signature| == SIGNATURE_SIZE
    ensures SplitCompact(Compact(lib, c, signature))
            == if |Compact(lib, c, signature)| <= MAX_TOKEN_LENGTH
               then Some((Encode(Header(lib, c)), Encode(Payload(lib, c)), Encode(signature)))
               else None
  {
    var h, p := Header(lib, c), Payload(lib, c);
    EncodedHasNoDots(h);
    EncodedHasNoDots(p);
    EncodedHasNoDots(signature);
    SplitThree(Encode(h), Encode(p), Encode(signature));
    EncodedLength(h);
    EncodedLength(p);
    EncodedLength(signature);
    assert h != [] && p != [];
  }

  /** Reading a minted token back, as far as its parts go. */
  lemma PartsReadBack(lib: Library, c: Claims)
    requires Faithful(lib)
    requires ValidTransitVersion(c.keyId) && TextsPresent(c)
    ensures HeaderKeyId(lib, Encode(Header(lib, c)))
            == if |Header(lib, c)| <= MAX_HEADER_LENGTH then Some(c.keyId) else None
    ensures PayloadClaims(lib, Encode(Payload(lib, c)), c.keyId)
            == if |Payload(lib, c)| <= MAX_CLAIMS_LENGTH && TimesFit(c) then Some(InSeconds(c)) else None
  {
    PartOfEncoded(Header(lib, c), MAX_HEADER_LENGTH);
    PartOfEncoded(Payload(lib, c), MAX_CLAIMS_LENGTH);
    assert lib.members(Header(lib, c)) == Some(HeaderMembers(c.keyId));
    assert lib.members(Payload(lib, c)) == Some(PayloadMembers(c));
    HeaderValidates(c.keyId);
    PayloadParses(c);
  }

  /** The limits a mint request does not check and a validation does. */
  predicate Usable(lib: Library, c: Claims) {
    && |Header(lib, c)| <= MAX_HEADER_LENGTH
    && |Payload(lib, c)| <= MAX_CLAIMS_LENGTH
    && TimesFit(c)
  }

  lemma ValidateOfCompact(cfg: Config, lib: Library, keys: string -> Lookup, now: int,
                                             c: Claims, signature: Bytes, key: PublicKey)
    requires Faithful(lib)
    requires ValidTransitVersion(c.keyId) && TextsPresent(c)
    requires |signature| == SIGNATURE_SIZE
    requires keys(c.keyId) == Found(key) && lib.verify(key, SigningInput(lib, c), signature)
    ensures Validate(cfg, lib, keys, now, Compact(lib, c, signature))
            == if Usable(lib, c) && ValidClaims(cfg, InSeconds(c), now) then Ok(InSeconds(c)) else Err(Invalid)
  {
    CompactSplits(lib, c, signature);
    PartsReadBack(lib, c);
    PartOfEncoded(signature, SIGNATURE_SIZE);
    if Usable(lib, c) {
      LargestPartsFit(lib, c, signature);
    }
  }

  lemma SecondsOfWhole(k: int, d: int)
    ensures Seconds(k * SECOND) == k
    ensures Seconds(k * SECOND + d) == k + Seconds(d)
  {
  }

  lemma MintedShape(cfg: Config, lib: Library, env: Issuing, request: MintRequest)
    requires ValidConfig(cfg)
    requires env.randomId != []
    requires Mint(cfg, lib, env, request).Ok?
    ensures env.signingKey.Some?
    ensures var c := MintedClaims(cfg, env, request, env.signingKey.value);
            && ValidTransitVersion(c.keyId) && TextsPresent(c)
            && c.authenticationTime <= c.issuedAt
            && env.keys(c.keyId).Found?
            && env.sign(c.keyId, SigningInput(lib, c)).Some?
            && var signature := env.sign(c.keyId, SigningInput(lib, c)).value.bytes;
            && |signature| == SIGNATURE_SIZE
            && lib.verify(env.keys(c.keyId).key, SigningInput(lib, c), signature)
            && Mint(cfg, lib, env, request) == Ok(Compact(lib, c, signature))
  {
    EncodedLength(env.randomId);
  }

  /** When a minted token is good: a lifetime of at least a second, times from 1970 to the end of
      64-bit seconds, header and payload within their limits, and a clock inside the window. */
  predicate GoodAt(cfg: Config, lib: Library, env: Issuing, request: MintRequest, c: Claims, now: int) {
    && request.lifetime >= SECOND
    && 0 <= request.authenticationTime
    && Seconds(c.expiresAt) < INT64_LIMIT
    && |Header(lib, c)| <= MAX_HEADER_LENGTH
    && |Payload(lib, c)| <= MAX_CLAIMS_LENGTH
    && Truncate(env.clock) - cfg.leeway <= now < Truncate(env.clock) + Truncate(request.lifetime) + cfg.leeway
  }

  lemma GoodIsUsableAndValid(cfg: Config, lib: Library, env: Issuing, request: MintRequest, keyId: string, now: int)
    requires request.lifetime > 0
    requires var c := MintedClaims(cfg, env, request, keyId); c.authenticationTime <= c.issuedAt
    ensures var c := MintedClaims(cfg, env, request, keyId);
            GoodAt(cfg, lib, env, request, c, now) <==> Usable(lib, c) && ValidClaims(cfg, InSeconds(c), now)
  {
    SecondsOfWhole(Seconds(env.clock), request.lifetime);
    SecondsOfWhole(Seconds(request.authenticationTime), 0);
  }

  /** While its key is known, a minted token validates to the request's claims, times cut to whole
      seconds, exactly when it is good; otherwise it is invalid. */
  lemma MintedValidatesExactly(cfg: Config, lib: Library, env: Issuing, request: MintRequest,
                                                  keys: string -> Lookup, now: int)
    requires Faithful(lib) && ValidConfig(cfg)
    requires env.randomId != []
    requires Mint(cfg, lib, env, request).Ok?
    requires env.signingKey.Some? && keys(env.signingKey.value) == env.keys(env.signingKey.value)
    ensures var c := MintedClaims(cfg, env, request, env.signingKey.value);
            Validate(cfg, lib, keys, now, Mint(cfg, lib, env, request).value)
            == if GoodAt(cfg, lib, env, request, c, now) then Ok(InSeconds(c)) else Err(Invalid)
  {
    MintedShape(cfg, lib, env, request);
    var c := MintedClaims(cfg, env, request, env.signingKey.value);
    var signature := env.sign(c.keyId, SigningInput(lib, c)).value.bytes;
    ValidateOfCompact(cfg, lib, keys, now, c, signature, env.keys(c.keyId).key);
    GoodIsUsableAndValid(cfg, lib, env, request, env.signingKey.value, now);
  }

  /** A lifetime under a second mints a token that is never valid. */
  lemma ShortLifetimeIsNeverValid(cfg: Config, lib: Library, env: Issuing, request: MintRequest,
                                                     keys: string -> Lookup, now: int)
    requires Faithful(lib) && ValidConfig(cfg)
    requires env.randomId != []
    requires Mint(cfg, lib, env, request).Ok?
    requires env.signingKey.Some? && keys(env.signingKey.value) == env.keys(env.signingKey.value)
    requires request.lifetime < SECOND
    ensures Validate(cfg, lib, keys, now, Mint(cfg, lib, env, request).value) == Err(Invalid)
  {
    MintedValidatesExactly(cfg, lib, env, request, keys, now);
  }

  // ---------------------------------------------------------------- requests that should not be minted

  /** The signing key is known, and its signature over any text has the right form and verifies. */
  predicate Signs(lib: Library, env: Issuing, c: Claims) {
    && env.signingKey == Some(c.keyId) && ValidTransitVersion(c.keyId)
    && env.keys(c.keyId).Found?
    && env.sign(c.keyId, SigningInput(lib, c)).Some?
    && var signature := env.sign(c.keyId, SigningInput(lib, c)).value;
    && signature.version == c.keyId && |signature.bytes| == SIGNATURE_SIZE
    && lib.verify(env.keys(c.keyId).key, SigningInput(lib, c), signature.bytes)
  }

  /** A request with too short a lifetime, too early a time or too long a payload is minted all the
      same, and its token is invalid at every clock. */
  lemma UnusableRequestsAreMinted(cfg: Config, lib: Library, env: Issuing, request: MintRequest, keys: string -> Lookup,
                                  now: int)
    requires Faithful(lib) && ValidConfig(cfg) && env.randomId != []
    requires ValidMintRequest(request) && env.signingKey.Some?
             && keys(env.signingKey.value) == env.keys(env.signingKey.value)
    requires Signs(lib, env, MintedClaims(cfg, env, request, env.signingKey.value))
    requires Seconds(request.authenticationTime) <= Seconds(env.clock)
    requires || request.lifetime < SECOND
             || request.authenticationTime < 0
             || |Payload(lib, MintedClaims(cfg, env, request, env.signingKey.value))| > MAX_CLAIMS_LENGTH
    ensures Mint(cfg, lib, env, request).Ok?
    ensures Validate(cfg, lib, keys, now, Mint(cfg, lib, env, request).value) == Err(Invalid)
  {
    var c := MintedClaims(cfg, env, request, env.signingKey.value);
    assert c.authenticationTime <= c.issuedAt;
    MintedValidatesExactly(cfg, lib, env, request, keys, now);
  }

  /** A signer and a key set that go with any library whose `verify` accepts the signature. */
  function SomeSignature(): Bytes {
    seq(SIGNATURE_SIZE, i => 0)
  }

  function SomeIssuing(clock: int): Issuing {
    Issuing(clock, [0], Some("v1"), (keyId, text) => Some(Signature("v1", SomeSignature())), keyId => Found(0))
  }

  function SomeRequest(subject: string, authenticationTime: int, lifetime: int): MintRequest {
    MintRequest(subject, "session", "token", "password", "1", ["user"], authenticationTime, lifetime)
  }

  lemma VersionOneIsValid()
    ensures ValidTransitVersion("v1")
  {
    assert "v1"[1..] == "1";
    assert "1"[..0] == "";
    assert Decimal("1") == 1;
  }

  function Repeated(n: nat): string {
    seq(n, i => 'a')
  }

  /** Half a second of lifetime, a login one second before 1970, a subject of 8193 characters: each
      is minted, by any signer and library that go together, and never valid. */
  lemma ThreeUnusableTokens(cfg: Config, lib: Library, now: int)
    requires Faithful(lib) && ValidConfig(cfg)
    requires forall text :: lib.verify(0, text, SomeSignature())
    requires forall c: Claims {:trigger PayloadMembers(c)} :: |c.subject| <= |lib.marshal(PayloadMembers(c))|
    ensures var env := SomeIssuing(0);
            forall request: MintRequest ::
              || request == SomeRequest("user", 0, SECOND / 2)
              || request == SomeRequest("user", -SECOND, 60 * SECOND)
              || request == SomeRequest(Repeated(8193), 0, 60 * SECOND)
              ==> && Mint(cfg, lib, env, request).Ok?
                  && Validate(cfg, lib, env.keys, now, Mint(cfg, lib, env, request).value) == Err(Invalid)
  {
    var env := SomeIssuing(0);
    VersionOneIsValid();
    forall request: MintRequest |
      || request == SomeRequest("user", 0, SECOND / 2)
      || request == SomeRequest("user", -SECOND, 60 * SECOND)
      || request == SomeRequest(Repeated(8193), 0, 60 * SECOND)
      ensures Mint(cfg, lib, env, request).Ok?
      ensures Validate(cfg, lib, env.keys, now, Mint(cfg, lib, env, request).value) == Err(Invalid)
    {
      assert ValidRoles(request.globalRoles);
      var c := MintedClaims(cfg, env, request, "v1");
      assert |c.subject| <= |Payload(lib, c)|;
      UnusableRequestsAreMinted(cfg, lib, env, request, env.keys, now);
    }
  }

  // ---------------------------------------------------------------- accepted tokens

  /** `compact` is the one text of its three byte strings, signed by the key its header names. */
  predicate SignedText(lib: Library, keys: string -> Lookup, compact: string, keyId: string, h: Bytes, p: Bytes,
                       s: Bytes) {
    && compact == Encode(h) + "." + Encode(p) + "." + Encode(s)
    && |s| == SIGNATURE_SIZE
    && DecodedObject(lib, h).Some?
    && ValidateHeader(DecodedObject(lib, h).value) == Some(keyId)
    && keys(keyId).Found?
    && lib.verify(keys(keyId).key, Encode(h) + "." + Encode(p), s)
  }

  /** The claims are what the payload says, and they hold now. */
  predicate StatedClaims(cfg: Config, lib: Library, p: Bytes, c: Claims, now: int) {
    && DecodedObject(lib, p).Some?
    && ParseClaims(DecodedObject(lib, p).value, c.keyId) == Some(c)
    && ValidClaims(cfg, c, now)
  }

  lemma ThreePartsJoin(compact: string)
    requires SplitCompact(compact).Some?
    ensures var (h, p, s) := SplitCompact(compact).value;
            compact == h + "." + p + "." + s
  {
    SplitThenJoin(compact);
    var parts := Split(compact);
    assert parts[1..][1..] == [parts[2]];
    assert Join([parts[2]]) == parts[2];
    assert Join(parts[1..]) == parts[1] + "." + parts[2];
    assert compact == parts[0] + "." + Join(parts[1..]);
  }

  lemma DecodedPartIsEncoded(part: string, maxLength: nat)
    requires DecodedPart(part, maxLength).Some?
    ensures part == Encode(DecodedPart(part, maxLength).value)
  {
    PartDecodesExactly(part, maxLength, DecodedPart(part, maxLength).value);
  }

  lemma KeyIdOfClaims(lib: Library, part: string, keyId: string)
    requires PayloadClaims(lib, part, keyId).Some?
    ensures PayloadClaims(lib, part, keyId).value.keyId == keyId
  {
  }

  /** An accepted token is signed over the very text that was split, by the key its header names; no
      other text with the same bytes is accepted; and its claims hold now. */
  lemma AcceptedIsSignedAndCanonical(cfg: Config, lib: Library, keys: string -> Lookup, now: int, compact: string)
    returns (h: Bytes, p: Bytes, s: Bytes)
    requires Validate(cfg, lib, keys, now, compact).Ok?
    ensures var c := Validate(cfg, lib, keys, now, compact).value;
            SignedText(lib, keys, compact, c.keyId, h, p, s) && StatedClaims(cfg, lib, p, c, now)
    ensures 0 < |h| <= MAX_HEADER_LENGTH && 0 < |p| <= MAX_CLAIMS_LENGTH
  {
    var (headerPart, payloadPart, signaturePart) := SplitCompact(compact).value;
    ThreePartsJoin(compact);
    DecodedPartIsEncoded(headerPart, MAX_HEADER_LENGTH);
    DecodedPartIsEncoded(payloadPart, MAX_CLAIMS_LENGTH);
    DecodedPartIsEncoded(signaturePart, SIGNATURE_SIZE);
    KeyIdOfClaims(lib, payloadPart, HeaderKeyId(lib, headerPart).value);
    h := DecodedPart(headerPart, MAX_HEADER_LENGTH).value;
    p := DecodedPart(payloadPart, MAX_CLAIMS_LENGTH).value;
    s := DecodedPart(signaturePart, SIGNATURE_SIZE).value;
  }
}
