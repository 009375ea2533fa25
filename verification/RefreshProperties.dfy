/** The guarantees of refresh-token families and tickets over every run. */
module RefreshProperties {
  import opened Prelude
  import opened RefreshStore
  import opened RefreshChain
  import opened RefreshRuns

  // ----- Shape -----

  /** In every reachable state the tokens of a family form one chain with one unreplaced
      head; a token is unused exactly when it is unreplaced; the head's deadline is the
      family's idle deadline, which is never after the absolute one. */
  lemma FamiliesAreChains(es: seq<Event>, f: FamilyId)
    requires RunFrom(EMPTY_STORE, es).Some? && f in RunFrom(EMPTY_STORE, es).value.rows.families
    ensures var r := RunFrom(EMPTY_STORE, es).value.rows;
            exists c :: Chain(r, f, c, RunFrom(EMPTY_STORE, es).value.clock)
              && Heads(r.tokens, f) == {Last(c)}
              && r.tokens[Last(c)].expiresAt == r.families[f].idleExpiresAt <= r.families[f].absoluteExpiresAt
              && (forall h :: h in c ==> h in r.tokens && (r.tokens[h].usedAt.None? <==> r.tokens[h].replacedBy.None?))
  {
    var s := RunFrom(EMPTY_STORE, es).value;
    var cs := RunPreserves(EMPTY_STORE, map[], es);
    assert FamilyOk(s.rows, cs, f, s.clock);
    OneHead(s.rows, f, cs[f], s.clock);
    forall h | h in cs[f]
      ensures h in s.rows.tokens && (s.rows.tokens[h].usedAt.None? <==> s.rows.tokens[h].replacedBy.None?)
    {
      UnusedIsHead(s.rows, f, cs[f], s.clock, h);
    }
  }

  /** The absolute deadline of a family never changes and the family never disappears. */
  lemma AbsoluteDeadlineIsFixed(r: Rows, e: Event, f: FamilyId)
    requires f in r.families
    ensures f in After(r, e).families
    ensures After(r, e).families[f].absoluteExpiresAt == r.families[f].absoluteExpiresAt
    ensures After(r, e).families[f].user == r.families[f].user
  {
  }

  // ----- Rotation -----

  /** A rotation that gets past the liveness and CSRF checks ends in one of four ways. The
      branches "no current token", "chain changed", "expired head", "no successor" and
      "successor does not match" cannot be reached. */
  lemma RotationOutcomes(es: seq<Event>, e: Event)
    requires RunFrom(EMPTY_STORE, es).Some? && e.RotateToken? && Allowed(RunFrom(EMPTY_STORE, es).value, e)
    ensures var r := RunFrom(EMPTY_STORE, es).value.rows;
            var result := Rotate(r, e.token, e.csrf, e.idle, e.minted, e.cipher, e.now).result;
            Admit(r, e.token, e.csrf, e.now).Ok? ==>
              || result.Ok?
              || result == Err(Replay)
              || (result == Err(NoCipher) && !e.cipher)
              || (result == Err(Conflict) && Sha256(e.minted) in r.tokens)
  {
    var s := RunFrom(EMPTY_STORE, es).value;
    var cs := RunPreserves(EMPTY_STORE, map[], es);
    if Admit(s.rows, e.token, e.csrf, e.now).Ok? {
      var f, i := PlaceOf(s.rows, cs, s.clock, e.token, e.csrf, e.now);
      RotateAtHead(s.rows, e.token, e.csrf, e.idle, e.minted, e.cipher, e.now, f, cs[f], s.clock);
      UseIsPosition(s.rows, f, cs[f], s.clock, i, e.now);
      assert i < |cs[f]| - 1 ==> Link(s.rows.tokens, cs[f], i, s.clock);
    }
  }

  /** With a cipher and a new random token, a rotation succeeds exactly for an active account's family
      that is not revoked and has time left, the family's CSRF value, and the head or its predecessor
      within five seconds. */
  lemma RotationSucceedsExactly(es: seq<Event>, e: Event)
    requires RunFrom(EMPTY_STORE, es).Some? && e.RotateToken? && Allowed(RunFrom(EMPTY_STORE, es).value, e)
    requires e.cipher && Sha256(e.minted) !in RunFrom(EMPTY_STORE, es).value.rows.tokens
    ensures var r, h := RunFrom(EMPTY_STORE, es).value.rows, Sha256(e.token);
            Rotate(r, e.token, e.csrf, e.idle, e.minted, e.cipher, e.now).result.Ok? <==>
              && h in r.tokens
              && var t := r.tokens[h];
              && t.family in r.families
              && var family := r.families[t.family];
              && family.user in r.users && r.users[family.user] == Active
              && family.revokedAt.None? && e.now < family.idleExpiresAt && e.now < family.absoluteExpiresAt
              && family.csrf == Sha256(e.csrf)
              && (|| Heads(r.tokens, t.family) == {h}
                  || (&& t.replacedBy.Some? && Heads(r.tokens, t.family) == {t.replacedBy.value}
                      && t.replacedAt.Some? && e.now < t.replacedAt.value + 5 * SECOND))
  {
    var s := RunFrom(EMPTY_STORE, es).value;
    var cs := RunPreserves(EMPTY_STORE, map[], es);
    if Admit(s.rows, e.token, e.csrf, e.now).Ok? {
      var f, i := PlaceOf(s.rows, cs, s.clock, e.token, e.csrf, e.now);
      RotateByPlace(s.rows, e, f, cs[f], i, s.clock);
    }
  }

  lemma RotateByPlace(r: Rows, e: Event, f: FamilyId, c: seq<Digest>, i: nat, clock: int)
    requires e.RotateToken? && clock <= e.now && e.cipher && Sha256(e.minted) !in r.tokens
    requires Admit(r, e.token, e.csrf, e.now) == Ok(f) && Chain(r, f, c, clock)
    requires i < |c| && c[i] == Sha256(e.token) && c[i] in r.tokens
    ensures var t := r.tokens[c[i]];
            Rotate(r, e.token, e.csrf, e.idle, e.minted, e.cipher, e.now).result.Ok? <==>
              || Heads(r.tokens, f) == {c[i]}
              || (&& t.replacedBy.Some? && Heads(r.tokens, f) == {t.replacedBy.value}
                  && t.replacedAt.Some? && e.now < t.replacedAt.value + REFRESH_TOKEN_GRACE)
  {
    OneHead(r, f, c, clock);
    UnusedIsHead(r, f, c, clock, c[i]);
    if i == |c| - 1 {
      RotateHead(r, e.token, e.csrf, e.idle, e.minted, e.now, f, c, clock);
    } else {
      assert Link(r.tokens, c, i, clock);
      if i == |c| - 2 && e.now < r.tokens[c[i]].replacedAt.value + REFRESH_TOKEN_GRACE {
        RotateInGrace(r, e.token, e.csrf, e.idle, e.minted, e.now, f, c, clock);
      } else {
        RotateReplayed(r, e.token, e.csrf, e.idle, e.minted, e.cipher, e.now, f, c, i, clock);
      }
    }
  }

  /** A rotation succeeds only for the head, or for its predecessor within five seconds of
      its replacement; it returns the one token that is the head afterwards; for the
      predecessor it changes nothing. */
  lemma RotationReturnsTheHead(es: seq<Event>, e: Event)
    requires RunFrom(EMPTY_STORE, es).Some? && e.RotateToken? && Allowed(RunFrom(EMPTY_STORE, es).value, e)
    requires Rotate(RunFrom(EMPTY_STORE, es).value.rows, e.token, e.csrf, e.idle, e.minted, e.cipher, e.now).result.Ok?
    ensures var s := RunFrom(EMPTY_STORE, es).value;
            var a := Rotate(s.rows, e.token, e.csrf, e.idle, e.minted, e.cipher, e.now);
            var f, h := a.result.value.family, Sha256(e.token);
            && Heads(a.rows.tokens, f) == {Sha256(a.result.value.refreshToken)}
            && h in s.rows.tokens
            && (|| Heads(s.rows.tokens, f) == {h}
                || (&& a.rows == s.rows && s.rows.tokens[h].replacedBy == Some(Sha256(a.result.value.refreshToken))
                    && e.now < s.rows.tokens[h].replacedAt.GetOr(0) + REFRESH_TOKEN_GRACE))
  {
    var s := RunFrom(EMPTY_STORE, es).value;
    var cs := RunPreserves(EMPTY_STORE, map[], es);
    assert Admit(s.rows, e.token, e.csrf, e.now).Ok?;
    var f, i := PlaceOf(s.rows, cs, s.clock, e.token, e.csrf, e.now);
    var c := cs[f];
    OneHead(s.rows, f, c, s.clock);
    RotateAtHead(s.rows, e.token, e.csrf, e.idle, e.minted, e.cipher, e.now, f, c, s.clock);
    UseIsPosition(s.rows, f, c, s.clock, i, e.now);
    if i == |c| - 1 {
      AdvanceGrowsChain(s.rows, f, c, e.csrf, e.idle, e.minted, e.now, s.clock);
      OneHead(After(s.rows, e), f, c + [Sha256(e.minted)], e.now);
    } else {
      assert Link(s.rows.tokens, c, i, s.clock);
    }
  }

  // ----- Revocation -----

  predicate Revoked(r: Rows, f: FamilyId) {
    f in r.families && r.families[f].revokedAt.Some?
  }

  /** Nothing works for a revoked family. */
  ghost predicate Barred(r: Rows, f: FamilyId, now: int) {
    && (forall token, csrf, idle, minted, cipher :: Sha256(token) in r.tokens && r.tokens[Sha256(token)].family == f ==>
          Rotate(r, token, csrf, idle, minted, cipher, now) == Answer(r, Err(NotFound)))
    && (forall token, csrf :: Sha256(token) in r.tokens && r.tokens[Sha256(token)].family == f ==>
          Get(r, token, csrf, now) == Err(NotFound) && Revoke(r, token, csrf, now) == (r, Err(NotFound)))
    && (forall user :: !Introspect(r, user, f, now))
    && (forall user, ticket, batch :: Issue(r, user, f, ticket, batch, now).1 == Err(NotFound))
    && (forall ticket :: Sha256(ticket) in r.tickets && r.tickets[Sha256(ticket)].family == f ==>
          Consume(r, ticket, now) == (r, Err(NotFound)))
  }

  lemma {:induction false} RevocationIsPermanent(s: State, es: seq<Event>, f: FamilyId, now: int)
    requires Revoked(s.rows, f) && RunFrom(s, es).Some?
    ensures Revoked(RunFrom(s, es).value.rows, f) && Barred(RunFrom(s, es).value.rows, f, now)
    decreases |es|
  {
    if es != [] {
      RevocationIsPermanent(State(After(s.rows, es[0]), es[0].now), es[1..], f, now);
    }
  }

  /** Presenting any token of a live chain other than the head, or its predecessor in grace,
      with the right CSRF value revokes every family of the user, for good. */
  lemma ReplayEndsEverySession(es: seq<Event>, e: Event, more: seq<Event>, g: FamilyId, later: int)
    requires RunFrom(EMPTY_STORE, es).Some? && e.RotateToken? && Allowed(RunFrom(EMPTY_STORE, es).value, e)
    requires var r, h := RunFrom(EMPTY_STORE, es).value.rows, Sha256(e.token);
             && Admit(r, e.token, e.csrf, e.now).Ok? && h in r.tokens && r.tokens[h].replacedBy.Some?
             && (Heads(r.tokens, r.tokens[h].family) == {r.tokens[h].replacedBy.value} ==>
                   r.tokens[h].replacedAt.GetOr(0) + REFRESH_TOKEN_GRACE <= e.now)
             && g in r.families && r.families[g].user == r.families[r.tokens[h].family].user
    requires RunFrom(State(After(RunFrom(EMPTY_STORE, es).value.rows, e), e.now), more).Some?
    ensures Rotate(RunFrom(EMPTY_STORE, es).value.rows, e.token, e.csrf, e.idle, e.minted, e.cipher, e.now).result
            == Err(Replay)
    ensures Barred(RunFrom(State(After(RunFrom(EMPTY_STORE, es).value.rows, e), e.now), more).value.rows, g, later)
  {
    var s := RunFrom(EMPTY_STORE, es).value;
    var cs := RunPreserves(EMPTY_STORE, map[], es);
    var f, i := PlaceOf(s.rows, cs, s.clock, e.token, e.csrf, e.now);
    var c := cs[f];
    OneHead(s.rows, f, c, s.clock);
    UnusedIsHead(s.rows, f, c, s.clock, c[i]);
    assert Link(s.rows.tokens, c, i, s.clock);
    RotateReplayed(s.rows, e.token, e.csrf, e.idle, e.minted, e.cipher, e.now, f, c, i, s.clock);
    RevocationIsPermanent(State(After(s.rows, e), e.now), more, g, later);
  }
}
