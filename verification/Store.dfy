/** The store's transactions statement by statement. A transaction works on its own copy of
    the rows and publishes it when it commits; every other return rolls back. */
module Stores {
  import opened Prelude
  import opened RefreshStore
  import opened RefreshChain

  class Store {
    var users: map<UserId, Status>
    var families: map<FamilyId, Family>
    var tokens: map<Digest, Token>
    var tickets: map<Digest, Ticket>
    var refreshCipher: bool

    function View(): Rows
      reads this
    {
      Rows(users, families, tokens, tickets)
    }

    constructor ()
      ensures View() == Rows(map[], map[], map[], map[]) && !refreshCipher
    {
      users, families, tokens, tickets, refreshCipher := map[], map[], map[], map[], false;
    }

    method CreateRefreshFamily(user: UserId, id: FamilyId, token: Secret, csrfToken: Secret,
                               idleTimeout: int, absoluteTimeout: int, now: int)
      returns (session: Result<Session, Error>)
      modifies this`families, this`tokens
      ensures Answer(View(), session)
              == Create(old(View()), user, id, token, csrfToken, idleTimeout, absoluteTimeout, now)
    {
      if user !in users || id in families {
        return Err(Conflict);
      }
      var family := Family(user, Sha256(csrfToken), now, now, now + idleTimeout, now + absoluteTimeout, None);
      var txFamilies := families[id := family];
      if Sha256(token) in tokens {
        return Err(Conflict);
      }
      families := txFamilies;
      tokens := tokens[Sha256(token) := Token(id, now, family.idleExpiresAt, None, None, None, None, None)];
      return Ok(Session(id, family.idleExpiresAt, family.absoluteExpiresAt, token, csrfToken));
    }

    method RotateRefreshToken(token: Secret, csrfToken: Secret, idleTimeout: int, newToken: Secret, now: int)
      returns (session: Result<Session, Error>)
      requires exists cs, clock :: Inv(View(), cs, clock)
      modifies this`families, this`tokens
      ensures Answer(View(), session)
              == Rotate(old(View()), token, csrfToken, idleTimeout, newToken, refreshCipher, now)
    {
      if Sha256(token) !in tokens {
        return Err(NotFound);
      }
      var incoming := tokens[Sha256(token)];
      var id := incoming.family;
      var txTokens := ClearExpired(tokens, now);
      if !Live(View(), id, now) {
        return Err(NotFound);
      }
      var family := families[id];
      if Sha256(csrfToken) != family.csrf {
        return Err(Csrf);
      }
      var head := CurrentToken(txTokens, token, csrfToken, id, now);
      ghost var start := View();
      assert Rotate(start, token, csrfToken, idleTimeout, newToken, refreshCipher, now)
             == RotateAt(start, id, token, head, csrfToken, idleTimeout, newToken, refreshCipher, now);
      match ClassifyRefreshUse(Sha256(token), incoming.replacedBy, head, incoming.graceExpiresAt, now)
      case GraceUse =>
        if incoming.successor.None? {
          return Err(MissingSuccessor);
        }
        if !refreshCipher {
          return Err(NoCipher);
        }
        var successor := incoming.successor.value.secret;
        if Sha256(successor) != head {
          return Err(WrongSuccessor);
        }
        if txTokens[head].expiresAt <= now {
          return Err(NotFound);
        }
        return Ok(Session(id, family.idleExpiresAt, family.absoluteExpiresAt, successor, csrfToken));
      case ReplayUse =>
        tokens := txTokens;
        families := RevokeAllOf(families, family.user, now);
        return Err(Replay);
      case CurrentUse =>
        if txTokens[head].expiresAt <= now {
          return Err(NotFound);
        }
        if !refreshCipher {
          return Err(NoCipher);
        }
        var successorCiphertext := Sealed(newToken);
        var idleExpiresAt := Min(now + idleTimeout, family.absoluteExpiresAt);
        if Sha256(newToken) in txTokens {
          return Err(Conflict);
        }
        txTokens := txTokens[Sha256(newToken) := Token(id, now, idleExpiresAt, None, None, None, None, None)];
        if txTokens[head].replacedBy.Some? {
          return Err(ChainChanged);
        }
        txTokens := txTokens[head := tokens[head].(usedAt := Some(now), replacedAt := Some(now),
                                                   graceExpiresAt := Some(now + REFRESH_TOKEN_GRACE),
                                                   successor := Some(successorCiphertext),
                                                   replacedBy := Some(Sha256(newToken)))];
        tokens := txTokens;
        families := families[id := family.(lastUsedAt := now, idleExpiresAt := idleExpiresAt)];
        return Ok(Session(id, idleExpiresAt, family.absoluteExpiresAt, newToken, csrfToken));
    }

    /** The query for the family's current token. */
    method CurrentToken(txTokens: map<Digest, Token>, ghost token: Secret, ghost csrfToken: Secret, id: FamilyId,
                        ghost now: int)
      returns (head: Digest)
      requires exists cs, clock :: Inv(View(), cs, clock)
      requires Admit(View(), token, csrfToken, now) == Ok(id) && txTokens == ClearExpired(tokens, now)
      ensures head in tokens && head in txTokens
      ensures forall idle, minted, cipher ::
                Rotate(View(), token, csrfToken, idle, minted, cipher, now)
                == RotateAt(View(), id, token, head, csrfToken, idle, minted, cipher, now)
    {
      ghost var cs, clock :| Inv(View(), cs, clock);
      assert FamilyOk(View(), cs, id, clock);
      var heads := Heads(txTokens, id);
      assert heads == Heads(tokens, id);
      OneHead(View(), id, cs[id], clock);
      assert Last(cs[id]) in heads && IsNewest(txTokens, heads, Last(cs[id]));
      head :| head in heads && IsNewest(txTokens, heads, head);
      assert head == Last(cs[id]);
      forall idle, minted, cipher
        ensures Rotate(View(), token, csrfToken, idle, minted, cipher, now)
                == RotateAt(View(), id, token, head, csrfToken, idle, minted, cipher, now)
      {
        RotateAtHead(View(), token, csrfToken, idle, minted, cipher, now, id, cs[id], clock);
      }
    }

    method GetRefreshFamily(token: Secret, csrfToken: Secret, now: int) returns (family: Result<FamilyId, Error>)
      ensures family == Get(View(), token, csrfToken, now)
    {
      var h := Sha256(token);
      if h !in tokens || tokens[h].replacedBy.Some? || tokens[h].usedAt.Some? || tokens[h].expiresAt <= now {
        return Err(NotFound);
      }
      var id := tokens[h].family;
      if !Live(View(), id, now) {
        return Err(NotFound);
      }
      if Sha256(csrfToken) != families[id].csrf {
        return Err(Csrf);
      }
      return Ok(id);
    }

    method RevokeRefreshFamily(token: Secret, csrfToken: Secret, now: int) returns (family: Result<FamilyId, Error>)
      modifies this`families
      ensures (View(), family) == Revoke(old(View()), token, csrfToken, now)
    {
      family := GetRefreshFamily(token, csrfToken, now);
      if family.Err? {
        return;
      }
      var id := family.value;
      families := families[id := families[id].(revokedAt := Some(now))];
    }

    /** `expired` is what the statement's query for old tickets picks. */
    method IssueWebSocketTicket(user: UserId, id: FamilyId, ticket: Secret, expired: set<Digest>, now: int)
      returns (issued: Result<Secret, Error>)
      requires ExpiredBatch(tickets, expired, now)
      modifies this`tickets
      ensures (View(), issued) == Issue(old(View()), user, id, ticket, expired, now)
    {
      if !Introspect(View(), user, id, now) {
        tickets := tickets - expired;
        return Err(NotFound);
      }
      if Sha256(ticket) in tickets {
        return Err(Conflict);
      }
      tickets := (tickets - expired)[Sha256(ticket) := Ticket(user, id, now, now + WEB_SOCKET_TICKET_TTL, None)];
      return Ok(ticket);
    }

    method ConsumeWebSocketTicket(ticket: Secret, now: int) returns (admission: Result<Ticket, Error>)
      modifies this`tickets
      ensures (View(), admission) == Consume(old(View()), ticket, now)
    {
      var h := Sha256(ticket);
      if h !in tickets || tickets[h].consumedAt.Some? || tickets[h].expiresAt <= now
         || !Introspect(View(), tickets[h].user, tickets[h].family, now)
      {
        return Err(NotFound);
      }
      admission := Ok(tickets[h]);
      tickets := tickets[h := tickets[h].(consumedAt := Some(now))];
    }
  }
}
