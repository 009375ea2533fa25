/** What each call of the store answers and leaves, row by row. */
module RefreshOutcomes {
  import opened Prelude
  import opened RefreshStore
  import opened RefreshChain
  import opened RefreshRuns
  import opened RefreshProperties

  // ----- Who may use a family -----

  /** A session check succeeds exactly for the family's own user, while the account is active, the
      family is not revoked, and neither deadline has passed. */
  lemma IntrospectsExactly(r: Rows, user: UserId, f: FamilyId, now: int)
    ensures Introspect(r, user, f, now) <==>
            && f in r.families && r.families[f].user == user && r.families[f].revokedAt.None?
            && now < r.families[f].idleExpiresAt && now < r.families[f].absoluteExpiresAt
            && user in r.users && r.users[user] == Active
  {
  }

  /** The account is there and not active. */
  predicate Suspended(r: Rows, user: UserId) {
    user in r.users && r.users[user] != Active
  }

  predicate Activates(e: Event, user: UserId) {
    e.SetStatus? && e.user == user && e.status == Active
  }

  lemma SuspendedIsBarred(r: Rows, user: UserId, f: FamilyId, now: int)
    requires Suspended(r, user) && f in r.families && r.families[f].user == user
    ensures Barred(r, f, now)
  {
  }

  lemma SuspensionLasts(r: Rows, e: Event, user: UserId)
    requires Suspended(r, user) && !Activates(e, user)
    ensures Suspended(After(r, e), user)
  {
  }

  /** Once an account is disabled or sent back to approval, and until it is made active again, nothing
      works for any of its families, be they made before or since. */
  lemma {:induction false} SuspensionEndsEverySession(s: State, es: seq<Event>, user: UserId, f: FamilyId, now: int)
    requires Suspended(s.rows, user) && RunFrom(s, es).Some?
    requires forall i :: 0 <= i < |es| ==> !Activates(es[i], user)
    requires f in RunFrom(s, es).value.rows.families && RunFrom(s, es).value.rows.families[f].user == user
    ensures Suspended(RunFrom(s, es).value.rows, user)
    ensures Barred(RunFrom(s, es).value.rows, f, now)
    decreases |es|
  {
    if es == [] {
      SuspendedIsBarred(s.rows, user, f, now);
    } else {
      SuspensionLasts(s.rows, es[0], user);
      assert forall i :: 0 <= i < |es[1..]| ==> es[1..][i] == es[i + 1];
      SuspensionEndsEverySession(State(After(s.rows, es[0]), es[0].now), es[1..], user, f, now);
    }
  }

  /** Setting a status that is not active suspends; setting it active brings an untouched family back. */
  lemma StatusDecides(r: Rows, user: UserId, f: FamilyId, status: Status, now: int, later: int)
    requires f in r.families && r.families[f].user == user && r.families[f].revokedAt.None?
    requires later < r.families[f].idleExpiresAt && later < r.families[f].absoluteExpiresAt
    ensures var r' := After(r, SetStatus(user, status, now));
            && (status != Active ==> Suspended(r', user))
            && (status == Active ==> Introspect(r', user, f, later))
            && r'.families == r.families && r'.tokens == r.tokens && r'.tickets == r.tickets
  {
  }

  // ----- Creating -----

  /** Nothing but the rows of family `f`. */
  predicate OthersKept(r: Rows, r': Rows, f: FamilyId) {
    && r'.users == r.users && r'.tickets == r.tickets
    && r'.families - {f} == r.families - {f}
    && (forall h :: h in r.tokens && r.tokens[h].family != f ==> h in r'.tokens && r'.tokens[h] == r.tokens[h])
    && (forall h :: h in r'.tokens && r'.tokens[h].family != f ==> h in r.tokens)
  }

  /** A family is made exactly for a known user with a new id and a new token. Its answer carries the
      secrets that were drawn and the deadlines, both counted from now; until the idle deadline the two
      secrets open the family while the account is active, and no other CSRF value does. */
  lemma CreatedSession(r: Rows, user: UserId, f: FamilyId, token: Secret, csrf: Secret, idle: int, absolute: int,
                       now: int, later: int, other: Secret)
    requires 0 < idle < absolute && later < now + idle && other != csrf
    ensures var a := Create(r, user, f, token, csrf, idle, absolute, now);
            && After(r, CreateFamily(user, f, token, csrf, idle, absolute, now)) == a.rows
            && if user !in r.users || f in r.families || Sha256(token) in r.tokens
            then a.rows == r && a.result == Err(Conflict)
            else
              && a.result == Ok(Session(f, now + idle, now + absolute, token, csrf))
              && OthersKept(r, a.rows, f) && a.rows.families.Keys == r.families.Keys + {f}
              && a.rows.families[f].user == user && a.rows.families[f].authenticatedAt == now
              && a.rows.families[f].lastUsedAt == now
              && a.rows.families[f].idleExpiresAt == now + idle
              && a.rows.families[f].absoluteExpiresAt == now + absolute
              && (r.users[user] == Active ==>
                    && Get(a.rows, token, csrf, later) == Ok(f) && Introspect(a.rows, user, f, later)
                    && Get(a.rows, token, other, later) == Err(Csrf))
  {
    var a := Create(r, user, f, token, csrf, idle, absolute, now);
    if user in r.users && f !in r.families && Sha256(token) !in r.tokens {
      assert a.rows.families - {f} == r.families - {f};
      assert a.rows.tokens[Sha256(token)].family == f;
    }
  }

  // ----- Rotating -----

  /** A replaced token whose grace is over forgets its successor. */
  function Faded(t: Token, now: int): Token {
    if t.graceExpiresAt.Some? && t.graceExpiresAt.value <= now then t.(successor := None) else t
  }

  lemma AdvancedRows(r: Rows, f: FamilyId, h: Digest, csrf: Secret, idle: int, minted: Secret, cipher: bool, now: int)
    requires f in r.families && h in r.tokens && Advance(r, f, h, csrf, idle, minted, cipher, now).result.Ok?
    ensures var a, n := Advance(r, f, h, csrf, idle, minted, cipher, now), Sha256(minted);
            var expires := Min(now + idle, r.families[f].absoluteExpiresAt);
            && n !in r.tokens
            && a.result == Ok(Session(f, expires, r.families[f].absoluteExpiresAt, minted, csrf))
            && a.rows.users == r.users && a.rows.tickets == r.tickets
            && a.rows.families == r.families[f := r.families[f].(lastUsedAt := now, idleExpiresAt := expires)]
            && a.rows.tokens.Keys == r.tokens.Keys + {n}
            && a.rows.tokens[n] == Token(f, now, expires, None, None, None, None, None)
            && a.rows.tokens[h] == r.tokens[h].(usedAt := Some(now), replacedAt := Some(now),
                                                graceExpiresAt := Some(now + 5 * SECOND),
                                                successor := Some(Sealed(minted)), replacedBy := Some(n))
            && (forall x :: x in r.tokens && x != h ==> a.rows.tokens[x] == Faded(r.tokens[x], now))
  {
    var a := Advance(r, f, h, csrf, idle, minted, cipher, now);
    assert a.rows.tokens.Keys == r.tokens.Keys + {Sha256(minted)};
  }

  /** What a rotation of the head leaves, in any rows: a new token that expires with the family's new idle
      deadline, the old one marked as used now and recoverable for five seconds, and no other family touched but
      for successors whose grace is over. */
  lemma RotatedRows(r: Rows, token: Secret, csrf: Secret, idle: int, minted: Secret, cipher: bool, now: int)
    requires Rotate(r, token, csrf, idle, minted, cipher, now).result.Ok?
    requires Sha256(token) in r.tokens && r.tokens[Sha256(token)].replacedBy.None?
    ensures var a, h, n := Rotate(r, token, csrf, idle, minted, cipher, now), Sha256(token), Sha256(minted);
            var f := r.tokens[h].family;
            && After(r, RotateToken(token, csrf, idle, minted, cipher, now)) == a.rows && f in r.families
            && var expires := Min(now + idle, r.families[f].absoluteExpiresAt);
            && a.result == Ok(Session(f, expires, r.families[f].absoluteExpiresAt, minted, csrf))
            && a.rows.users == r.users && a.rows.tickets == r.tickets
            && a.rows.families == r.families[f := r.families[f].(lastUsedAt := now, idleExpiresAt := expires)]
            && a.rows.tokens.Keys == r.tokens.Keys + {n} && n !in r.tokens
            && a.rows.tokens[n] == Token(f, now, expires, None, None, None, None, None)
            && a.rows.tokens[h] == r.tokens[h].(usedAt := Some(now), replacedAt := Some(now),
                                                graceExpiresAt := Some(now + 5 * SECOND),
                                                successor := Some(Sealed(minted)), replacedBy := Some(n))
            && (forall x :: x in r.tokens && x != h ==> a.rows.tokens[x] == Faded(r.tokens[x], now))
  {
    AdvancedRows(r, r.tokens[Sha256(token)].family, Sha256(token), csrf, idle, minted, cipher, now);
  }

  /** In grace, the predecessor gets the secret that was minted for the head, with the family's deadlines as
      they are, and no row changes. */
  lemma GraceAnswer(r: Rows, token: Secret, csrf: Secret, idle: int, minted: Secret, cipher: bool, now: int)
    requires Rotate(r, token, csrf, idle, minted, cipher, now).result.Ok?
    requires Sha256(token) in r.tokens && r.tokens[Sha256(token)].replacedBy.Some?
    ensures var a, t := Rotate(r, token, csrf, idle, minted, cipher, now), r.tokens[Sha256(token)];
            && a.rows == r && t.family in r.families && t.successor.Some? && cipher
            && t.replacedBy == Some(Sha256(t.successor.value.secret))
            && t.graceExpiresAt.Some? && now < t.graceExpiresAt.value
            && a.result == Ok(Session(t.family, r.families[t.family].idleExpiresAt,
                                      r.families[t.family].absoluteExpiresAt, t.successor.value.secret, csrf))
  {
  }

  /** A replay marks every family of the user that was not revoked as revoked now, lets successors fade, and
      changes nothing else. */
  lemma ReplayedRows(r: Rows, token: Secret, csrf: Secret, idle: int, minted: Secret, cipher: bool, now: int)
    requires Rotate(r, token, csrf, idle, minted, cipher, now).result == Err(Replay)
    ensures var r' := Rotate(r, token, csrf, idle, minted, cipher, now).rows;
            && Sha256(token) in r.tokens && r.tokens[Sha256(token)].family in r.families
            && var user := r.families[r.tokens[Sha256(token)].family].user;
            && r'.users == r.users && r'.tickets == r.tickets
            && r'.tokens.Keys == r.tokens.Keys && r'.families.Keys == r.families.Keys
            && (forall x :: x in r.tokens ==> r'.tokens[x] == Faded(r.tokens[x], now))
            && (forall g :: g in r.families ==>
                  r'.families[g] == if r.families[g].user == user && r.families[g].revokedAt.None?
                                    then r.families[g].(revokedAt := Some(now)) else r.families[g])
  {
  }

  /** Any other refusal changes no row. One for the CSRF value is for a token whose family could be used. */
  lemma RefusedRotation(r: Rows, token: Secret, csrf: Secret, idle: int, minted: Secret, cipher: bool, now: int)
    ensures var a, h := Rotate(r, token, csrf, idle, minted, cipher, now), Sha256(token);
            && (a.result.Err? && a.result != Err(Replay) ==> a.rows == r)
            && (a.result == Err(Csrf) <==>
                  && h in r.tokens && r.tokens[h].family in r.families
                  && var family := r.families[r.tokens[h].family];
                  && family.user in r.users && r.users[family.user] == Active && family.revokedAt.None?
                  && now < family.idleExpiresAt && now < family.absoluteExpiresAt && family.csrf != Sha256(csrf))
  {
  }

  // ----- Getting and revoking -----

  /** The token opens the family: the unexpired head of a family that an active account may use. */
  predicate Opens(r: Rows, token: Secret, csrf: Secret, f: FamilyId, now: int) {
    && Sha256(token) in r.tokens
    && var t := r.tokens[Sha256(token)];
    && t.family == f && t.replacedBy.None? && t.usedAt.None? && now < t.expiresAt
    && f in r.families
    && var family := r.families[f];
    && family.user in r.users && r.users[family.user] == Active
    && family.revokedAt.None? && now < family.idleExpiresAt && now < family.absoluteExpiresAt
    && family.csrf == Sha256(csrf)
  }

  lemma GetsExactly(r: Rows, token: Secret, csrf: Secret, f: FamilyId, now: int)
    ensures Get(r, token, csrf, now) == Ok(f) <==> Opens(r, token, csrf, f, now)
  {
  }

  /** A logout succeeds exactly for the token and CSRF value that open the family. It marks that family
      revoked now and changes nothing else; from then on nothing works for it. A failed one changes
      nothing. */
  lemma RevokesExactly(r: Rows, token: Secret, csrf: Secret, f: FamilyId, now: int)
    ensures var (r', result) := Revoke(r, token, csrf, now);
            && After(r, RevokeFamily(token, csrf, now)) == r'
            && (result == Ok(f) <==> Opens(r, token, csrf, f, now))
            && (result.Err? ==> r' == r)
            && (result == Ok(f) ==>
                  && r' == r.(families := r'.families) && r'.families.Keys == r.families.Keys
                  && r'.families - {f} == r.families - {f}
                  && r'.families[f] == r.families[f].(revokedAt := Some(now))
                  && Revoked(r', f))
  {
    GetsExactly(r, token, csrf, f, now);
    var (r', result) := Revoke(r, token, csrf, now);
    if result == Ok(f) {
      assert r'.families - {f} == r.families - {f};
    }
  }

  lemma LogoutIsFinal(s: State, e: Event, f: FamilyId, more: seq<Event>, later: int)
    requires e.RevokeFamily? && Allowed(s, e) && Opens(s.rows, e.token, e.csrf, f, e.now)
    requires RunFrom(State(After(s.rows, e), e.now), more).Some?
    ensures Revoke(s.rows, e.token, e.csrf, e.now).1 == Ok(f)
    ensures Barred(RunFrom(State(After(s.rows, e), e.now), more).value.rows, f, later)
  {
    RevokesExactly(s.rows, e.token, e.csrf, f, e.now);
    RevocationIsPermanent(State(After(s.rows, e), e.now), more, f, later);
  }

  // ----- Tickets -----

  /** A ticket is issued exactly for a session that would pass the check, unless its secret is taken;
      it is good for a minute. Old tickets of the batch are gone unless that failed, and no other row
      changes. The batch is at most a hundred, and as many if old tickets remain. */
  lemma IssuesExactly(r: Rows, user: UserId, f: FamilyId, ticket: Secret, batch: set<Digest>, now: int)
    requires ExpiredBatch(r.tickets, batch, now)
    ensures var (r', result) := Issue(r, user, f, ticket, batch, now);
            var may := && f in r.families && r.families[f].user == user && r.families[f].revokedAt.None?
                       && now < r.families[f].idleExpiresAt && now < r.families[f].absoluteExpiresAt
                       && user in r.users && r.users[user] == Active;
            && After(r, IssueTicket(user, f, ticket, batch, now)) == r' == r.(tickets := r'.tickets)
            && (result.Ok? <==> may && Sha256(ticket) !in r.tickets)
            && (result.Ok? ==>
                  && result.value == ticket
                  && r'.tickets.Keys == (r.tickets.Keys - batch) + {Sha256(ticket)}
                  && r'.tickets[Sha256(ticket)] == Ticket(user, f, now, now + 60 * SECOND, None))
            && (result == Err(NotFound) <==> !may)
            && (result == Err(NotFound) ==> r'.tickets == r.tickets - batch)
            && (forall h :: h in r.tickets && now < r.tickets[h].expiresAt ==>
                  h in r'.tickets && r'.tickets[h] == r.tickets[h])
    ensures |batch| <= 100
    ensures (exists h :: h in r.tickets && h !in batch && r.tickets[h].expiresAt <= now) ==> |batch| == 100
  {
    var (r', result) := Issue(r, user, f, ticket, batch, now);
    if result.Ok? {
      assert r'.tickets.Keys == (r.tickets.Keys - batch) + {Sha256(ticket)};
    }
  }

  /** A ticket admits exactly once, before its deadline, and only while its session would pass the
      check; it answers the row that it marks. */
  lemma ConsumesExactly(r: Rows, ticket: Secret, now: int)
    ensures var (r', result) := Consume(r, ticket, now);
            var h := Sha256(ticket);
            && After(r, ConsumeTicket(ticket, now)) == r'
            && (result.Ok? <==>
                  && h in r.tickets
                  && var t := r.tickets[h];
                  && t.consumedAt.None? && now < t.expiresAt
                  && t.family in r.families && r.families[t.family].user == t.user
                  && r.families[t.family].revokedAt.None?
                  && now < r.families[t.family].idleExpiresAt && now < r.families[t.family].absoluteExpiresAt
                  && t.user in r.users && r.users[t.user] == Active)
            && (result.Err? ==> r' == r)
            && (result.Ok? ==>
                  && result.value == r.tickets[h]
                  && r' == r.(tickets := r.tickets[h := r.tickets[h].(consumedAt := Some(now))])
                  && Consume(r', ticket, now).1 == Err(NotFound))
  {
  }
}
