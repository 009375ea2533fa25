/** The tokens of a family form one chain in every reachable state, and rotation is decided by
    a token's place in it. */
module RefreshChain {
  import opened Prelude
  import opened RefreshStore

  // ----- The chain -----

  /** Token i of the list was replaced by the next, and until its grace ends it still yields
      that one's secret. */
  predicate Link(tokens: map<Digest, Token>, c: seq<Digest>, i: int, clock: int)
    requires 0 <= i < |c| - 1
  {
    && c[i] in tokens
    && var t := tokens[c[i]];
       && t.replacedBy == Some(c[i + 1]) && t.usedAt.Some? && t.replacedAt.Some? && t.replacedAt.value <= clock
       && t.graceExpiresAt == Some(t.replacedAt.value + REFRESH_TOKEN_GRACE)
       && (t.successor.Some? ==> Sha256(t.successor.value.secret) == c[i + 1])
       && (clock < t.graceExpiresAt.value ==> t.successor.Some?)
  }

  /** c lists the tokens of family f, oldest first; only the last is unreplaced and unused,
      and its deadline is the family's idle deadline. */
  ghost predicate Chain(r: Rows, f: FamilyId, c: seq<Digest>, clock: int) {
    && f in r.families && c != []
    && (forall h :: h in c <==> h in r.tokens && r.tokens[h].family == f)
    && (forall i, j :: 0 <= i < j < |c| ==> c[i] != c[j])
    && (forall i {:trigger Link(r.tokens, c, i, clock)} :: 0 <= i < |c| - 1 ==> Link(r.tokens, c, i, clock))
    && var last := c[|c| - 1];
       && last in r.tokens && r.tokens[last].replacedBy.None? && r.tokens[last].usedAt.None?
       && r.tokens[last].expiresAt == r.families[f].idleExpiresAt
  }

  type Chains = map<FamilyId, seq<Digest>>

  ghost predicate FamilyOk(r: Rows, cs: Chains, f: FamilyId, clock: int) {
    f in r.families ==>
      && r.families[f].idleExpiresAt <= r.families[f].absoluteExpiresAt
      && f in cs && Chain(r, f, cs[f], clock)
  }

  predicate TokenOk(r: Rows, h: Digest) {
    h in r.tokens ==> r.tokens[h].family in r.families
  }

  /** Each family has its chain, and every token belongs to a family. */
  ghost predicate Inv(r: Rows, cs: Chains, clock: int) {
    && (forall h {:trigger TokenOk(r, h)} :: TokenOk(r, h))
    && (forall f {:trigger FamilyOk(r, cs, f, clock)} :: FamilyOk(r, cs, f, clock))
  }

  function Last(c: seq<Digest>): Digest
    requires c != []
  {
    c[|c| - 1]
  }

  // ----- Facts about one chain -----

  /** A token is unused exactly when it is unreplaced, that is when it is the head. */
  lemma UnusedIsHead(r: Rows, f: FamilyId, c: seq<Digest>, clock: int, h: Digest)
    requires Chain(r, f, c, clock) && h in c
    ensures r.tokens[h].usedAt.None? <==> r.tokens[h].replacedBy.None?
    ensures r.tokens[h].replacedBy.None? <==> h == Last(c)
  {
    var i :| 0 <= i < |c| && c[i] == h;
    if i < |c| - 1 {
      assert Link(r.tokens, c, i, clock);
    }
  }

  lemma OneHead(r: Rows, f: FamilyId, c: seq<Digest>, clock: int)
    requires Chain(r, f, c, clock)
    ensures Heads(r.tokens, f) == {Last(c)}
    ensures forall head :: IsNewest(r.tokens, Heads(r.tokens, f), head) <==> head == Last(c)
  {
    forall h | h in c ensures h in Heads(r.tokens, f) <==> h == Last(c) {
      UnusedIsHead(r, f, c, clock, h);
    }
    assert Last(c) in c;
  }

  /** Of any two tokens, in a chain or not: only the head itself is current, only a token the head replaced can be
      in grace, and that until its grace ends. */
  lemma UseExactly(incoming: Digest, replacedBy: Option<Digest>, head: Digest, grace: Option<int>, now: int)
    ensures var use := ClassifyRefreshUse(incoming, replacedBy, head, grace, now);
            && (use == CurrentUse <==> incoming == head && replacedBy == None)
            && (use == GraceUse <==> replacedBy == Some(head) && exists end :: grace == Some(end) && now < end)
  {
    assert grace.Some? ==> grace == Some(grace.value);
  }

  /** The classification is the token's place in the chain: the last is current, the one
      before it is in grace for five seconds from its replacement, all others are replays. */
  lemma UseIsPosition(r: Rows, f: FamilyId, c: seq<Digest>, clock: int, i: nat, now: int)
    requires Chain(r, f, c, clock) && i < |c|
    ensures c[i] in r.tokens
    ensures var t := r.tokens[c[i]];
            var use := ClassifyRefreshUse(c[i], t.replacedBy, Last(c), t.graceExpiresAt, now);
            && (use == CurrentUse <==> i == |c| - 1)
            && (use == GraceUse <==>
                  i == |c| - 2 && t.replacedAt.Some? && now < t.replacedAt.value + REFRESH_TOKEN_GRACE)
  {
    assert c[i] in c;
    if i < |c| - 1 {
      assert Link(r.tokens, c, i, clock);
    }
  }

  lemma ChainLater(r: Rows, f: FamilyId, c: seq<Digest>, clock: int, now: int)
    requires Chain(r, f, c, clock) && clock <= now
    ensures Chain(r, f, c, now)
  {
    forall i | 0 <= i < |c| - 1 ensures Link(r.tokens, c, i, now) {
      assert Link(r.tokens, c, i, clock);
    }
  }

  /** Clearing successors whose grace is over leaves a chain. */
  lemma ChainCleared(r: Rows, f: FamilyId, c: seq<Digest>, now: int)
    requires Chain(r, f, c, now)
    ensures Chain(r.(tokens := ClearExpired(r.tokens, now)), f, c, now)
  {
    var tokens := ClearExpired(r.tokens, now);
    forall i | 0 <= i < |c| - 1 ensures Link(tokens, c, i, now) {
      assert Link(r.tokens, c, i, now);
    }
  }

  /** Rows that agree on a family and its tokens agree on its chain. */
  lemma ChainFrame(r: Rows, r': Rows, f: FamilyId, c: seq<Digest>, clock: int)
    requires Chain(r, f, c, clock)
    requires f in r'.families && r'.families[f].idleExpiresAt == r.families[f].idleExpiresAt
    requires forall h :: h in r.tokens && r.tokens[h].family == f ==> h in r'.tokens && r'.tokens[h] == r.tokens[h]
    requires forall h :: h in r'.tokens && r'.tokens[h].family == f ==> h in r.tokens && r'.tokens[h] == r.tokens[h]
    ensures Chain(r', f, c, clock)
  {
    forall h | h in c ensures h in r'.tokens && r'.tokens[h] == r.tokens[h] {}
    forall i | 0 <= i < |c| - 1 ensures Link(r'.tokens, c, i, clock) {
      assert Link(r.tokens, c, i, clock) && c[i] in c;
    }
    assert Last(c) in c;
  }

  // ----- Rotation -----

  /** With one chain, the query for the current token can only return its last token. */
  lemma RotateAtHead(r: Rows, token: Secret, csrf: Secret, idle: int, minted: Secret, cipher: bool, now: int,
                     f: FamilyId, c: seq<Digest>, clock: int)
    requires Admit(r, token, csrf, now) == Ok(f) && Chain(r, f, c, clock)
    ensures Last(c) in r.tokens
    ensures Rotate(r, token, csrf, idle, minted, cipher, now)
            == RotateAt(r, f, token, Last(c), csrf, idle, minted, cipher, now)
  {
    OneHead(r, f, c, clock);
    assert Last(c) in c;
    assert IsNewest(r.tokens, Heads(r.tokens, f), Last(c));
  }

  /** The last token is rotated: the chain grows by the token returned. */
  lemma RotateHead(r: Rows, token: Secret, csrf: Secret, idle: int, minted: Secret, now: int,
                   f: FamilyId, c: seq<Digest>, clock: int)
    requires Admit(r, token, csrf, now) == Ok(f) && Chain(r, f, c, clock) && clock <= now
    requires Last(c) == Sha256(token)
    ensures var a := Rotate(r, token, csrf, idle, minted, true, now);
            if Sha256(minted) in r.tokens then a == Answer(r, Err(Conflict))
            else && a.result.Ok? && a.result.value.refreshToken == minted
                 && Chain(a.rows, f, c + [Sha256(minted)], now)
                 && a.rows.families[f].absoluteExpiresAt == r.families[f].absoluteExpiresAt
                 && a.rows.families[f].idleExpiresAt == Min(now + idle, r.families[f].absoluteExpiresAt)
  {
    RotateAtHead(r, token, csrf, idle, minted, true, now, f, c, clock);
    UseIsPosition(r, f, c, clock, |c| - 1, now);
    if Sha256(minted) !in r.tokens {
      AdvanceGrowsChain(r, f, c, csrf, idle, minted, now, clock);
    }
  }

  /** The token before the last, within its grace, gets the last token back - the one issued
      when it was replaced - and no row changes. */
  lemma RotateInGrace(r: Rows, token: Secret, csrf: Secret, idle: int, minted: Secret, now: int,
                      f: FamilyId, c: seq<Digest>, clock: int)
    requires Admit(r, token, csrf, now) == Ok(f) && Chain(r, f, c, clock) && clock <= now
    requires |c| >= 2 && c[|c| - 2] == Sha256(token)
    requires now < r.tokens[Sha256(token)].replacedAt.GetOr(0) + REFRESH_TOKEN_GRACE
    ensures var a := Rotate(r, token, csrf, idle, minted, true, now);
            a.rows == r && a.result.Ok? && Sha256(a.result.value.refreshToken) == Last(c)
  {
    RotateAtHead(r, token, csrf, idle, minted, true, now, f, c, clock);
    UseIsPosition(r, f, c, clock, |c| - 2, now);
    assert Link(r.tokens, c, |c| - 2, clock);
  }

  predicate RevokedFor(r: Rows, user: UserId) {
    forall f :: f in r.families && r.families[f].user == user ==> r.families[f].revokedAt.Some?
  }

  /** Any other token of the chain is a replay: every family of the user is revoked. */
  lemma RotateReplayed(r: Rows, token: Secret, csrf: Secret, idle: int, minted: Secret, cipher: bool, now: int,
                       f: FamilyId, c: seq<Digest>, i: nat, clock: int)
    requires Admit(r, token, csrf, now) == Ok(f) && Chain(r, f, c, clock)
    requires i < |c| - 1 && c[i] == Sha256(token)
    requires i == |c| - 2 ==> r.tokens[Sha256(token)].replacedAt.GetOr(0) + REFRESH_TOKEN_GRACE <= now
    ensures var a := Rotate(r, token, csrf, idle, minted, cipher, now);
            && a.result == Err(Replay) && RevokedFor(a.rows, r.families[f].user)
            && a.rows.families.Keys == r.families.Keys
  {
    RotateAtHead(r, token, csrf, idle, minted, cipher, now, f, c, clock);
    UseIsPosition(r, f, c, clock, i, now);
    assert Link(r.tokens, c, i, clock);
  }

  lemma AdvancedLink(r: Rows, f: FamilyId, c: seq<Digest>, csrf: Secret, idle: int, minted: Secret, now: int, i: nat)
    requires Chain(r, f, c, now) && Live(r, f, now) && Sha256(minted) !in r.tokens
    requires i < |c| && Last(c) in r.tokens
    ensures Link(Advance(r, f, Last(c), csrf, idle, minted, true, now).rows.tokens, c + [Sha256(minted)], i, now)
  {
    if i < |c| - 1 {
      assert Link(r.tokens, c, i, now) && c[i] != Last(c) && c[i] != Sha256(minted);
    }
  }

  lemma AdvanceGrowsChain(r: Rows, f: FamilyId, c: seq<Digest>, csrf: Secret, idle: int, minted: Secret, now: int,
                          clock: int)
    requires Chain(r, f, c, clock) && clock <= now && Live(r, f, now) && Sha256(minted) !in r.tokens
    requires Last(c) in r.tokens
    ensures var a := Advance(r, f, Last(c), csrf, idle, minted, true, now);
            a.result.Ok? && Chain(a.rows, f, c + [Sha256(minted)], now)
  {
    var a, n, c' := Advance(r, f, Last(c), csrf, idle, minted, true, now), Sha256(minted), c + [Sha256(minted)];
    ChainLater(r, f, c, clock, now);
    assert n !in c;
    forall h | h in a.rows.tokens && h != n ensures h in r.tokens && a.rows.tokens[h].family == r.tokens[h].family {}
    forall i | 0 <= i < |c'| - 1 ensures Link(a.rows.tokens, c', i, now) {
      AdvancedLink(r, f, c, csrf, idle, minted, now, i);
    }
  }
}
