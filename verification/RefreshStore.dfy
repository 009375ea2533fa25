/** Refresh-token families, rotation and WebSocket tickets (store.go) as functions on the rows.

    Each call is one atomic step at one clock reading. Rows are named by their unique hash
    column instead of a generated id; the hash is injective and decryption inverts
    encryption. A transaction that ends without a commit leaves the rows as they were. */
module RefreshStore {
  import opened Prelude

  type UserId = string
  type FamilyId = string
  type Secret = string

  const REFRESH_TOKEN_GRACE := 5 * SECOND
  const WEB_SOCKET_TICKET_TTL := 60 * SECOND

  datatype Digest = Sha256(secret: Secret)

  datatype Ciphertext = Sealed(secret: Secret)

  datatype Status = Active | PendingApproval | Disabled

  datatype Token = Token(family: FamilyId, issuedAt: int, expiresAt: int, usedAt: Option<int>, replacedAt: Option<int>,
                         graceExpiresAt: Option<int>, successor: Option<Ciphertext>, replacedBy: Option<Digest>)

  datatype Family = Family(user: UserId, csrf: Digest, authenticatedAt: int, lastUsedAt: int,
                           idleExpiresAt: int, absoluteExpiresAt: int, revokedAt: Option<int>)

  datatype Ticket = Ticket(user: UserId, family: FamilyId, issuedAt: int, expiresAt: int, consumedAt: Option<int>)

  datatype Rows = Rows(users: map<UserId, Status>, families: map<FamilyId, Family>,
                       tokens: map<Digest, Token>, tickets: map<Digest, Ticket>)

  datatype Error = NotFound | Csrf | Replay | NoCipher | NoCurrentToken | MissingSuccessor | WrongSuccessor
                 | ChainChanged | Conflict

  datatype Session = Session(family: FamilyId, idleExpiresAt: int, absoluteExpiresAt: int, refreshToken: Secret,
      csrfToken: Secret)

  datatype Answer = Answer(rows: Rows, result: Result<Session, Error>)

  // ----- Liveness -----

  /** Not revoked, neither deadline passed, account active. */
  predicate Live(r: Rows, f: FamilyId, now: int) {
    && f in r.families
    && r.families[f].revokedAt.None?
    && now < r.families[f].idleExpiresAt && now < r.families[f].absoluteExpiresAt
    && r.families[f].user in r.users && r.users[r.families[f].user] == Active
  }

  // ----- CreateRefreshFamily -----

  function Create(r: Rows, user: UserId, f: FamilyId, token: Secret, csrf: Secret, idle: int, absolute: int,
                  now: int): Answer {
    if user !in r.users || f in r.families || Sha256(token) in r.tokens then
      Answer(r, Err(Conflict))
    else
      var family := Family(user, Sha256(csrf), now, now, now + idle, now + absolute, None);
      var first := Token(f, now, now + idle, None, None, None, None, None);
      Answer(r.(families := r.families[f := family], tokens := r.tokens[Sha256(token) := first]),
             Ok(Session(f, now + idle, now + absolute, token, csrf)))
  }

  // ----- RotateRefreshToken -----

  datatype RefreshUse = ReplayUse | CurrentUse | GraceUse

  function ClassifyRefreshUse(incoming: Digest, replacedBy: Option<Digest>, head: Digest, grace: Option<int>,
                              now: int): RefreshUse {
    if incoming == head && replacedBy.None? then CurrentUse
    else if replacedBy == Some(head) && grace.Some? && now < grace.value then GraceUse
    else ReplayUse
  }

  function ClearExpired(tokens: map<Digest, Token>, now: int): map<Digest, Token> {
    map h | h in tokens ::
      if tokens[h].successor.Some? && tokens[h].graceExpiresAt.Some? && tokens[h].graceExpiresAt.value <= now
      then tokens[h].(successor := None) else tokens[h]
  }

  /** The unreplaced tokens of a family. */
  function Heads(tokens: map<Digest, Token>, f: FamilyId): set<Digest> {
    set h | h in tokens && tokens[h].family == f && tokens[h].replacedBy.None?
  }

  /** The row the query for the current token may return: of the unreplaced, a newest. */
  predicate IsNewest(tokens: map<Digest, Token>, heads: set<Digest>, head: Digest) {
    && head in heads
    && forall h :: h in heads && h in tokens && head in tokens ==> tokens[h].issuedAt <= tokens[head].issuedAt
  }

  function RevokeAllOf(families: map<FamilyId, Family>, user: UserId, now: int): map<FamilyId, Family> {
    map f | f in families ::
      if families[f].user == user && families[f].revokedAt.None? then families[f].(revokedAt := Some(now))
      else families[f]
  }

  /** Everything up to the classification; Ok carries nothing but that it may go on. */
  function Admit(r: Rows, token: Secret, csrf: Secret, now: int): Result<FamilyId, Error> {
    if Sha256(token) !in r.tokens then Err(NotFound)
    else
      var f := r.tokens[Sha256(token)].family;
      if !Live(r, f, now) then Err(NotFound)
      else if Sha256(csrf) != r.families[f].csrf then Err(Csrf)
      else Ok(f)
  }

  function Recover(r: Rows, f: FamilyId, incoming: Token, head: Digest, csrf: Secret, cipher: bool, now: int): Answer
    requires f in r.families && head in r.tokens
  {
    if incoming.successor.None? then Answer(r, Err(MissingSuccessor))
    else if !cipher then Answer(r, Err(NoCipher))
    else
      var successor := incoming.successor.value.secret;
      if Sha256(successor) != head then Answer(r, Err(WrongSuccessor))
      else if r.tokens[head].expiresAt <= now then Answer(r, Err(NotFound))
      else Answer(r, Ok(Session(f, r.families[f].idleExpiresAt, r.families[f].absoluteExpiresAt, successor, csrf)))
  }

  function Advance(r: Rows, f: FamilyId, head: Digest, csrf: Secret, idle: int, minted: Secret, cipher: bool,
                   now: int): Answer
    requires f in r.families && head in r.tokens
  {
    if r.tokens[head].expiresAt <= now then Answer(r, Err(NotFound))
    else if !cipher then Answer(r, Err(NoCipher))
    else if Sha256(minted) in r.tokens then Answer(r, Err(Conflict))
    else if r.tokens[head].replacedBy.Some? then Answer(r, Err(ChainChanged))
    else
      var family := r.families[f];
      var expires := Min(now + idle, family.absoluteExpiresAt);
      var next := Token(f, now, expires, None, None, None, None, None);
      var replaced := r.tokens[head].(usedAt := Some(now), replacedAt := Some(now),
                                      graceExpiresAt := Some(now + REFRESH_TOKEN_GRACE),
                                      successor := Some(Sealed(minted)), replacedBy := Some(Sha256(minted)));
      var tokens := ClearExpired(r.tokens, now)[Sha256(minted) := next][head := replaced];
      Answer(r.(tokens := tokens, families := r.families[f := family.(lastUsedAt := now, idleExpiresAt := expires)]),
             Ok(Session(f, expires, family.absoluteExpiresAt, minted, csrf)))
  }

  /** `head` is the row the query for the current token returned. */
  function RotateAt(r: Rows, f: FamilyId, token: Secret, head: Digest, csrf: Secret, idle: int, minted: Secret,
                    cipher: bool, now: int): Answer
    requires Sha256(token) in r.tokens && f in r.families && head in r.tokens
  {
    var incoming := r.tokens[Sha256(token)];
    match ClassifyRefreshUse(Sha256(token), incoming.replacedBy, head, incoming.graceExpiresAt, now)
    case GraceUse => Recover(r, f, incoming, head, csrf, cipher, now)
    case ReplayUse =>
      Answer(r.(tokens := ClearExpired(r.tokens, now),
                families := RevokeAllOf(r.families, r.families[f].user, now)),
             Err(Replay))
    case CurrentUse => Advance(r, f, head, csrf, idle, minted, cipher, now)
  }

  ghost function Rotate(r: Rows, token: Secret, csrf: Secret, idle: int, minted: Secret, cipher: bool,
                        now: int): Answer {
    match Admit(r, token, csrf, now)
    case Err(e) => Answer(r, Err(e))
    case Ok(f) =>
      var heads := Heads(r.tokens, f);
      if !(exists head :: IsNewest(r.tokens, heads, head)) then Answer(r, Err(NoCurrentToken))
      else
        var head :| IsNewest(r.tokens, heads, head);
        RotateAt(r, f, token, head, csrf, idle, minted, cipher, now)
  }

  // ----- GetRefreshFamily, RevokeRefreshFamily, IntrospectAccess, ValidateWebSocketSession -----

  function Get(r: Rows, token: Secret, csrf: Secret, now: int): Result<FamilyId, Error> {
    if Sha256(token) !in r.tokens then Err(NotFound)
    else
      var t := r.tokens[Sha256(token)];
      if t.replacedBy.Some? || t.usedAt.Some? || t.expiresAt <= now then Err(NotFound)
      else if !Live(r, t.family, now) then Err(NotFound)
      else if Sha256(csrf) != r.families[t.family].csrf then Err(Csrf)
      else Ok(t.family)
  }

  function Revoke(r: Rows, token: Secret, csrf: Secret, now: int): (Rows, Result<FamilyId, Error>) {
    match Get(r, token, csrf, now)
    case Err(e) => (r, Err(e))
    case Ok(f) => (r.(families := r.families[f := r.families[f].(revokedAt := Some(now))]), Ok(f))
  }

  predicate Introspect(r: Rows, user: UserId, f: FamilyId, now: int) {
    Live(r, f, now) && r.families[f].user == user
  }

  // ----- Tickets -----

  const EXPIRED_TICKET_BATCH := 100

  /** Up to 100 expired tickets, earliest deadlines first. */
  predicate ExpiredBatch(tickets: map<Digest, Ticket>, batch: set<Digest>, now: int) {
    && (forall h :: h in batch ==> h in tickets && tickets[h].expiresAt <= now)
    && |batch| <= EXPIRED_TICKET_BATCH
    && (forall h :: h in tickets && h !in batch && tickets[h].expiresAt <= now ==>
          |batch| == EXPIRED_TICKET_BATCH && forall b :: b in batch ==> tickets[b].expiresAt <= tickets[h].expiresAt)
  }

  /** The deletion of expired tickets happens whether or not a ticket is issued. */
  function Issue(r: Rows, user: UserId, f: FamilyId, ticket: Secret, batch: set<Digest>, now: int)
    : (Rows, Result<Secret, Error>)
  {
    if Introspect(r, user, f, now) && Sha256(ticket) in r.tickets then
      (r, Err(Conflict))
    else if Introspect(r, user, f, now) then
      var issued := Ticket(user, f, now, now + WEB_SOCKET_TICKET_TTL, None);
      (r.(tickets := (r.tickets - batch)[Sha256(ticket) := issued]), Ok(ticket))
    else
      (r.(tickets := r.tickets - batch), Err(NotFound))
  }

  predicate Admissible(r: Rows, ticket: Secret, now: int) {
    && Sha256(ticket) in r.tickets
    && var t := r.tickets[Sha256(ticket)];
       t.consumedAt.None? && now < t.expiresAt && Introspect(r, t.user, t.family, now)
  }

  function Consume(r: Rows, ticket: Secret, now: int): (Rows, Result<Ticket, Error>) {
    if Admissible(r, ticket, now) then
      var h := Sha256(ticket);
      (r.(tickets := r.tickets[h := r.tickets[h].(consumedAt := Some(now))]), Ok(r.tickets[h]))
    else
      (r, Err(NotFound))
  }
}
