/** The store over every sequence of calls with a clock that does not run backwards. */
module RefreshRuns {
  import opened Prelude
  import opened RefreshStore
  import opened RefreshChain

  datatype Event =
    | SetStatus(user: UserId, status: Status, now: int)
    | CreateFamily(user: UserId, family: FamilyId, token: Secret, csrf: Secret, idle: int, absolute: int, now: int)
    | RotateToken(token: Secret, csrf: Secret, idle: int, minted: Secret, cipher: bool, now: int)
    | RevokeFamily(token: Secret, csrf: Secret, now: int)
    | IssueTicket(user: UserId, family: FamilyId, ticket: Secret, batch: set<Digest>, now: int)
    | ConsumeTicket(ticket: Secret, now: int)

  datatype State = State(rows: Rows, clock: int)

  const EMPTY_STORE := State(Rows(map[], map[], map[], map[]), 0)

  /** The clock does not go back; the configured lifetimes satisfy 0 < idle < absolute; the
      ticket cleanup picks what its query may pick. */
  predicate Allowed(s: State, e: Event) {
    && s.clock <= e.now
    && (e.CreateFamily? ==> 0 < e.idle < e.absolute)
    && (e.RotateToken? ==> 0 < e.idle)
    && (e.IssueTicket? ==> ExpiredBatch(s.rows.tickets, e.batch, e.now))
  }

  ghost function After(r: Rows, e: Event): Rows {
    match e
    case SetStatus(user, status, _) => r.(users := r.users[user := status])
    case CreateFamily(user, f, token, csrf, idle, absolute, now) =>
      Create(r, user, f, token, csrf, idle, absolute, now).rows
    case RotateToken(token, csrf, idle, minted, cipher, now) => Rotate(r, token, csrf, idle, minted, cipher, now).rows
    case RevokeFamily(token, csrf, now) => Revoke(r, token, csrf, now).0
    case IssueTicket(user, f, ticket, batch, now) => Issue(r, user, f, ticket, batch, now).0
    case ConsumeTicket(ticket, now) => Consume(r, ticket, now).0
  }

  ghost function RunFrom(s: State, es: seq<Event>): Option<State>
    decreases |es|
  {
    if es == [] then Some(s)
    else if Allowed(s, es[0]) then RunFrom(State(After(s.rows, es[0]), es[0].now), es[1..])
    else None
  }

  // ----- The chains survive every call -----

  /** A family whose tokens and deadlines are untouched keeps its chain. */
  lemma FamilyFrame(r: Rows, r': Rows, cs: Chains, cs': Chains, f: FamilyId, clock: int, now: int)
    requires f in r.families && FamilyOk(r, cs, f, clock) && clock <= now
    requires f in cs' && cs'[f] == cs[f]
    requires f in r'.families && r'.families[f].idleExpiresAt == r.families[f].idleExpiresAt
    requires r'.families[f].absoluteExpiresAt == r.families[f].absoluteExpiresAt
    requires forall h :: h in r.tokens && r.tokens[h].family == f ==> h in r'.tokens && r'.tokens[h] == r.tokens[h]
    requires forall h :: h in r'.tokens && r'.tokens[h].family == f ==> h in r.tokens && r'.tokens[h] == r.tokens[h]
    ensures FamilyOk(r', cs', f, now)
  {
    ChainLater(r, f, cs[f], clock, now);
    ChainFrame(r, r', f, cs[f], now);
  }

  /** Calls that only revoke, or touch accounts and tickets. */
  lemma SameTokensKeepInv(r: Rows, r': Rows, cs: Chains, clock: int, now: int)
    requires Inv(r, cs, clock) && clock <= now
    requires r'.tokens == r.tokens && r'.families.Keys == r.families.Keys
    requires forall f :: f in r.families ==>
               && r'.families[f].idleExpiresAt == r.families[f].idleExpiresAt
               && r'.families[f].absoluteExpiresAt == r.families[f].absoluteExpiresAt
    ensures Inv(r', cs, now)
  {
    forall f ensures FamilyOk(r', cs, f, now) {
      assert FamilyOk(r, cs, f, clock);
      if f in r.families {
        FamilyFrame(r, r', cs, cs, f, clock, now);
      }
    }
    assert forall h :: TokenOk(r, h) ==> TokenOk(r', h);
  }

  lemma ClearingKeepsInv(r: Rows, cs: Chains, clock: int, now: int)
    requires Inv(r, cs, clock) && clock <= now
    ensures Inv(r.(tokens := ClearExpired(r.tokens, now)), cs, now)
  {
    var r' := r.(tokens := ClearExpired(r.tokens, now));
    forall f ensures FamilyOk(r', cs, f, now) {
      assert FamilyOk(r, cs, f, clock);
      if f in r.families {
        ChainLater(r, f, cs[f], clock, now);
        ChainCleared(r, f, cs[f], now);
      }
    }
    assert forall h :: TokenOk(r, h) ==> TokenOk(r', h);
  }

  lemma CreatePreserves(r: Rows, cs: Chains, clock: int, e: Event) returns (cs': Chains)
    requires Inv(r, cs, clock) && clock <= e.now && e.CreateFamily? && e.idle < e.absolute
    ensures Inv(After(r, e), cs', e.now)
  {
    var r', n, f := After(r, e), Sha256(e.token), e.family;
    if r' == r {
      cs' := cs;
      SameTokensKeepInv(r, r, cs, clock, e.now);
      return;
    }
    cs' := cs[f := [n]];
    forall h | h in r'.tokens && r'.tokens[h].family == f ensures h == n {
      assert TokenOk(r, h);
    }
    assert Chain(r', f, [n], e.now);
    forall g ensures FamilyOk(r', cs', g, e.now) {
      assert FamilyOk(r, cs, g, clock);
      if g in r.families {
        FamilyFrame(r, r', cs, cs', g, clock, e.now);
      }
    }
    assert forall h :: TokenOk(r, h) ==> TokenOk(r', h);
  }

  /** Where an admitted token stands in the chain of its family. */
  lemma PlaceOf(r: Rows, cs: Chains, clock: int, token: Secret, csrf: Secret, now: int) returns (f: FamilyId, i: nat)
    requires Inv(r, cs, clock) && Admit(r, token, csrf, now).Ok?
    ensures Admit(r, token, csrf, now) == Ok(f) && f in cs && Chain(r, f, cs[f], clock)
    ensures i < |cs[f]| && cs[f][i] == Sha256(token)
  {
    f := Admit(r, token, csrf, now).value;
    assert FamilyOk(r, cs, f, clock);
    assert Sha256(token) in cs[f];
    i :| 0 <= i < |cs[f]| && cs[f][i] == Sha256(token);
  }

  lemma AdvancePreserves(r: Rows, cs: Chains, clock: int, f: FamilyId, csrf: Secret, idle: int, minted: Secret,
                         now: int)
    requires Inv(r, cs, clock) && clock <= now && Live(r, f, now) && Sha256(minted) !in r.tokens
    requires f in cs && Chain(r, f, cs[f], clock) && Last(cs[f]) in r.tokens
    ensures Inv(Advance(r, f, Last(cs[f]), csrf, idle, minted, true, now).rows, cs[f := cs[f] + [Sha256(minted)]], now)
  {
    var n, cs' := Sha256(minted), cs[f := cs[f] + [Sha256(minted)]];
    var r' := Advance(r, f, Last(cs[f]), csrf, idle, minted, true, now).rows;
    var cleared := r.(tokens := ClearExpired(r.tokens, now));
    AdvanceGrowsChain(r, f, cs[f], csrf, idle, minted, now, clock);
    ClearingKeepsInv(r, cs, clock, now);
    assert Last(cs[f]) in cs[f];
    assert FamilyOk(r, cs, f, clock);
    forall g ensures FamilyOk(r', cs', g, now) {
      assert FamilyOk(cleared, cs, g, now);
      if g in r.families && g != f {
        FamilyFrame(cleared, r', cs, cs', g, now, now);
      }
    }
    assert forall h :: TokenOk(cleared, h) ==> TokenOk(r', h);
  }

  lemma RotatePreserves(r: Rows, cs: Chains, clock: int, e: Event) returns (cs': Chains)
    requires Inv(r, cs, clock) && clock <= e.now && e.RotateToken?
    ensures Inv(After(r, e), cs', e.now)
  {
    cs' := cs;
    SameTokensKeepInv(r, r, cs, clock, e.now);
    if Admit(r, e.token, e.csrf, e.now).Ok? && After(r, e) != r {
      var f, i := PlaceOf(r, cs, clock, e.token, e.csrf, e.now);
      RotateAtHead(r, e.token, e.csrf, e.idle, e.minted, e.cipher, e.now, f, cs[f], clock);
      if Rotate(r, e.token, e.csrf, e.idle, e.minted, e.cipher, e.now).result == Err(Replay) {
        ReplayPreserves(r, cs, clock, f, e.now);
      } else {
        AdvancePreserves(r, cs, clock, f, e.csrf, e.idle, e.minted, e.now);
        cs' := cs[f := cs[f] + [Sha256(e.minted)]];
      }
    }
  }

  lemma ReplayPreserves(r: Rows, cs: Chains, clock: int, f: FamilyId, now: int)
    requires Inv(r, cs, clock) && clock <= now && f in r.families
    ensures Inv(r.(tokens := ClearExpired(r.tokens, now), families :=
            RevokeAllOf(r.families, r.families[f].user, now)), cs, now)
  {
    var cleared := r.(tokens := ClearExpired(r.tokens, now));
    ClearingKeepsInv(r, cs, clock, now);
    SameTokensKeepInv(cleared, cleared.(families := RevokeAllOf(r.families, r.families[f].user, now)), cs, now, now);
  }

  lemma AfterPreserves(r: Rows, cs: Chains, clock: int, e: Event) returns (cs': Chains)
    requires Inv(r, cs, clock) && Allowed(State(r, clock), e)
    ensures Inv(After(r, e), cs', e.now)
  {
    if e.CreateFamily? {
      cs' := CreatePreserves(r, cs, clock, e);
    } else if e.RotateToken? {
      cs' := RotatePreserves(r, cs, clock, e);
    } else {
      cs' := cs;
      SameTokensKeepInv(r, After(r, e), cs, clock, e.now);
    }
  }

  lemma {:induction false} RunPreserves(s: State, cs: Chains, es: seq<Event>) returns (cs': Chains)
    requires Inv(s.rows, cs, s.clock) && RunFrom(s, es).Some?
    ensures Inv(RunFrom(s, es).value.rows, cs', RunFrom(s, es).value.clock)
    decreases |es|
  {
    if es == [] {
      cs' := cs;
    } else {
      cs' := AfterPreserves(s.rows, cs, s.clock, es[0]);
      cs' := RunPreserves(State(After(s.rows, es[0]), es[0].now), cs', es[1..]);
    }
  }
}
