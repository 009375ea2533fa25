/** Which tokens are accepted, and what a minted one says, field by field. */
module JwtOutcomes {
  import opened Prelude
  import opened Base64Url
  import opened Jwt
  import opened JwtProperties
  import opened KeyIds

  // ---------------------------------------------------------------- headers and claims

  /** A header has these three members and no other. */
  predicate IsHeader(o: Object, keyId: string) {
    o == map[Alg := JString("EdDSA"), Typ := JString("JWT"), Kid := JString(keyId)] && ValidTransitVersion(keyId)
  }

  lemma ThreeKeys(o: Object)
    requires |o| == 3 && Alg in o && Typ in o && Kid in o
    ensures o.Keys == {Alg, Typ, Kid}
  {
    assert |o.Keys| == |o|;
    var rest := o.Keys - {Alg, Typ, Kid};
    assert o.Keys == {Alg, Typ, Kid} + rest;
    assert |{Alg, Typ, Kid}| == 3;
  }

  lemma HeaderIsValid(o: Object, keyId: string)
    requires IsHeader(o, keyId)
    ensures ValidateHeader(o) == Some(keyId)
  {
    assert o.Keys == {Alg, Typ, Kid} && |{Alg, Typ, Kid}| == 3 && |o.Keys| == |o|;
    assert "EdDSA"[0] == 'E' && "JWT"[0] == 'J';
  }

  lemma HeaderExactly(o: Object, keyId: string)
    ensures ValidateHeader(o) == Some(keyId) <==> IsHeader(o, keyId)
  {
    if IsHeader(o, keyId) {
      HeaderIsValid(o, keyId);
    } else if ValidateHeader(o) == Some(keyId) {
      ThreeKeys(o);
    }
  }

  predicate HasText(o: Object, key: Name, text: string) {
    text != "" && key in o && o[key] == JString(text)
  }

  /** A number of seconds from 1970 that fits 63 bits. */
  predicate HasTime(o: Object, key: Name, time: int) {
    key in o && o[key].JInteger? && 0 <= o[key].n < INT64_LIMIT && time == o[key].n * SECOND
  }

  /** The payload says the claims, whatever else it holds. */
  predicate Says(o: Object, c: Claims) {
    && HasText(o, Iss, c.issuer) && HasText(o, Aud, c.audience) && HasText(o, Sub, c.subject)
    && HasText(o, Sid, c.sessionId) && HasText(o, Jti, c.tokenId)
    && HasTime(o, Iat, c.issuedAt) && HasTime(o, Exp, c.expiresAt) && HasTime(o, AuthTime, c.authenticationTime)
    && HasText(o, Amr, c.authenticationMethod) && HasText(o, Acr, c.assuranceLevel)
    && GlobalRoles in o && o[GlobalRoles] == JStrings(c.globalRoles)
    && |c.globalRoles| > 0 && forall i :: 0 <= i < |c.globalRoles| ==> c.globalRoles[i] != ""
  }

  lemma ClaimsExactly(o: Object, keyId: string, c: Claims)
    ensures ParseClaims(o, keyId) == Some(c) <==> Says(o, c) && c.keyId == keyId
  {
  }

  // ---------------------------------------------------------------- accepted tokens

  function Text(h: Bytes, p: Bytes, s: Bytes): string {
    Encode(h) + "." + Encode(p) + "." + Encode(s)
  }

  /** Header, payload and signature of an acceptable token: within their limits, signed by the header's
      key, for this issuer and audience, issued after the login and not yet out of its time, give or take
      the leeway. */
  ghost predicate Acceptable(cfg: Config, lib: Library, keys: string -> Lookup, now: int, h: Bytes, p: Bytes, s: Bytes,
                             c: Claims) {
    && 0 < |h| <= 1024 && 0 < |p| <= 8192 && |s| == 64
    && DecodedObject(lib, h).Some? && IsHeader(DecodedObject(lib, h).value, c.keyId)
    && keys(c.keyId).Found? && lib.verify(keys(c.keyId).key, Encode(h) + "." + Encode(p), s)
    && DecodedObject(lib, p).Some? && Says(DecodedObject(lib, p).value, c)
    && c.issuer == cfg.issuer && c.audience == cfg.audience
    && c.issuedAt < c.expiresAt && c.authenticationTime <= c.issuedAt
    && c.issuedAt - cfg.leeway <= now < c.expiresAt + cfg.leeway
  }

  ghost predicate AcceptableAs(cfg: Config, lib: Library, keys: string -> Lookup, now: int, compact: string, h: Bytes,
                               p: Bytes, s: Bytes, c: Claims) {
    compact == Text(h, p, s) && Acceptable(cfg, lib, keys, now, h, p, s, c)
  }

  lemma TextSplits(h: Bytes, p: Bytes, s: Bytes)
    requires 0 < |h| <= MAX_HEADER_LENGTH && 0 < |p| <= MAX_CLAIMS_LENGTH && |s| == SIGNATURE_SIZE
    ensures SplitCompact(Text(h, p, s)) == Some((Encode(h), Encode(p), Encode(s)))
  {
    EncodedHasNoDots(h);
    EncodedHasNoDots(p);
    EncodedHasNoDots(s);
    SplitThree(Encode(h), Encode(p), Encode(s));
    EncodedLength(h);
    EncodedLength(p);
    EncodedLength(s);
  }

  lemma HeaderRead(lib: Library, h: Bytes, keyId: string)
    requires |h| <= MAX_HEADER_LENGTH && DecodedObject(lib, h).Some? && IsHeader(DecodedObject(lib, h).value, keyId)
    ensures HeaderKeyId(lib, Encode(h)) == Some(keyId)
  {
    PartOfEncoded(h, MAX_HEADER_LENGTH);
    HeaderExactly(DecodedObject(lib, h).value, keyId);
  }

  lemma PayloadRead(lib: Library, p: Bytes, c: Claims)
    requires |p| <= MAX_CLAIMS_LENGTH && DecodedObject(lib, p).Some? && Says(DecodedObject(lib, p).value, c)
    ensures PayloadClaims(lib, Encode(p), c.keyId) == Some(c)
  {
    PartOfEncoded(p, MAX_CLAIMS_LENGTH);
    ClaimsExactly(DecodedObject(lib, p).value, c.keyId, c);
  }

  lemma AcceptableIsAccepted(cfg: Config, lib: Library, keys: string -> Lookup, now: int, h: Bytes, p: Bytes, s: Bytes,
                             c: Claims)
    requires Acceptable(cfg, lib, keys, now, h, p, s, c)
    ensures Validate(cfg, lib, keys, now, Text(h, p, s)) == Ok(c)
  {
    TextSplits(h, p, s);
    PartOfEncoded(s, SIGNATURE_SIZE);
    HeaderRead(lib, h, c.keyId);
    PayloadRead(lib, p, c);
  }

  /** A token is accepted with these claims exactly if it is the text of an acceptable header, payload and
      signature. */
  lemma AcceptsExactly(cfg: Config, lib: Library, keys: string -> Lookup, now: int, compact: string, c: Claims)
    ensures Validate(cfg, lib, keys, now, compact) == Ok(c) <==>
            exists h, p, s :: AcceptableAs(cfg, lib, keys, now, compact, h, p, s, c)
  {
    if Validate(cfg, lib, keys, now, compact) == Ok(c) {
      var h, p, s := AcceptedIsSignedAndCanonical(cfg, lib, keys, now, compact);
      HeaderExactly(DecodedObject(lib, h).value, c.keyId);
      ClaimsExactly(DecodedObject(lib, p).value, c.keyId, c);
      assert AcceptableAs(cfg, lib, keys, now, compact, h, p, s, c);
    } else if exists h, p, s :: AcceptableAs(cfg, lib, keys, now, compact, h, p, s, c) {
      var h, p, s :| AcceptableAs(cfg, lib, keys, now, compact, h, p, s, c);
      AcceptableIsAccepted(cfg, lib, keys, now, h, p, s, c);
    }
  }

  /** When header and signature are in order, the provider of keys is to blame exactly if it fails or answers
      a key of the wrong size. */
  lemma BlamesProviderExactly(cfg: Config, lib: Library, keys: string -> Lookup, now: int, h: Bytes, p: Bytes, s: Bytes,
                              keyId: string)
    requires 0 < |h| <= 1024 && 0 < |p| <= 8192 && |s| == 64
    requires DecodedObject(lib, h).Some? && IsHeader(DecodedObject(lib, h).value, keyId)
    ensures Validate(cfg, lib, keys, now, Text(h, p, s)) == Err(Dependency) <==>
            keys(keyId) == Unavailable || keys(keyId) == WrongSize
  {
    TextSplits(h, p, s);
    PartOfEncoded(s, SIGNATURE_SIZE);
    HeaderRead(lib, h, keyId);
  }

  // ---------------------------------------------------------------- minted tokens

  /** The claims that a token for the request makes, in whole seconds. */
  predicate SaysRequest(cfg: Config, env: Issuing, request: MintRequest, keyId: string, c: Claims) {
    && c.issuer == cfg.issuer && c.audience == cfg.audience
    && c.subject == request.subject && c.sessionId == request.sessionId
    && c.tokenId == (if request.tokenId != "" then request.tokenId else Encode(env.randomId))
    && c.issuedAt == env.clock / SECOND * SECOND
    && c.expiresAt == (env.clock / SECOND + request.lifetime / SECOND) * SECOND
    && c.authenticationTime == request.authenticationTime / SECOND * SECOND
    && c.authenticationMethod == request.authenticationMethod && c.assuranceLevel == request.assuranceLevel
    && c.globalRoles == request.globalRoles && c.keyId == keyId
  }

  lemma WholeSeconds(k: int, d: int)
    ensures (k * SECOND + d) / SECOND == k + d / SECOND
  {
    SecondsOfWhole(k, d);
  }

  /** Cut to whole seconds, the claims that are minted are these; header and payload are the same. */
  lemma MintedIsRequest(cfg: Config, lib: Library, env: Issuing, request: MintRequest, keyId: string, c: Claims)
    requires SaysRequest(cfg, env, request, keyId, c)
    ensures InSeconds(MintedClaims(cfg, env, request, keyId)) == c
    ensures HeaderMembers(c.keyId) == HeaderMembers(MintedClaims(cfg, env, request, keyId).keyId)
    ensures PayloadMembers(c) == PayloadMembers(MintedClaims(cfg, env, request, keyId))
  {
    WholeSeconds(env.clock / SECOND, 0);
    WholeSeconds(env.clock / SECOND, request.lifetime);
    WholeSeconds(env.clock / SECOND + request.lifetime / SECOND, 0);
    WholeSeconds(request.authenticationTime / SECOND, 0);
  }

  /** A request is minted exactly if it names a subject, a session, a method, a level and roles, a login not
      after now and a positive lifetime, and its claims are signed by the signing key's known version. */
  lemma MintsExactly(cfg: Config, lib: Library, env: Issuing, request: MintRequest, c: Claims)
    requires SaysRequest(cfg, env, request, env.signingKey.GetOr(""), c)
    ensures Mint(cfg, lib, env, request).Ok? <==>
            && request.subject != "" && request.sessionId != ""
            && request.authenticationMethod != "" && request.assuranceLevel != ""
            && |request.globalRoles| > 0
            && (forall i :: 0 <= i < |request.globalRoles| ==> request.globalRoles[i] != "")
            && request.authenticationTime != ZERO_TIME && request.lifetime > 0
            && c.authenticationTime <= c.issuedAt
            && Signs(lib, env, c)
    ensures Mint(cfg, lib, env, request).Ok? ==>
              && Signs(lib, env, c)
              && Mint(cfg, lib, env, request).value
                 == Text(Header(lib, c), Payload(lib, c), env.sign(c.keyId, SigningInput(lib, c)).value.bytes)
  {
    MintedIsRequest(cfg, lib, env, request, env.signingKey.GetOr(""), c);
  }

  /** While its key is known, a minted token validates to what was asked for, times cut to whole seconds,
      exactly when it is good; otherwise it is invalid. */
  lemma MintedSaysTheRequest(cfg: Config, lib: Library, env: Issuing, request: MintRequest, c: Claims,
                             keys: string -> Lookup, now: int)
    requires Faithful(lib) && ValidConfig(cfg) && env.randomId != []
    requires Mint(cfg, lib, env, request).Ok? && env.signingKey.Some?
    requires keys(env.signingKey.value) == env.keys(env.signingKey.value)
    requires SaysRequest(cfg, env, request, env.signingKey.value, c)
    ensures Validate(cfg, lib, keys, now, Mint(cfg, lib, env, request).value)
            == if GoodAt(cfg, lib, env, request, c, now) then Ok(c) else Err(Invalid)
  {
    MintedIsRequest(cfg, lib, env, request, env.signingKey.value, c);
    MintedValidatesExactly(cfg, lib, env, request, keys, now);
  }
}
