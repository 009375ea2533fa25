/** The table of field leases (FieldLockManager) as values: what each call does to the
    table, what it answers, and which leases it lets go.

    Date.now() and randomUUID() are parameters. Times are milliseconds. */
module Leases {
  import opened Prelude

  type Key = string
  type UserId = string
  type ProjectId = string
  type SocketId = string
  type Token = string

  const FIELD_LOCK_TTL_MS := 30_000

  /** Who holds a lease; fixed when the lease is created. */
  datatype Holder = Holder(userId: UserId, username: string, avatarUrl: Option<string>,
                           projectId: ProjectId, socketId: SocketId)

  datatype Lease = Lease(holder: Holder, token: Token, expiresAt: int)

  /** A lease without its token, as other clients see it. */
  datatype FieldLock = FieldLock(holder: Holder, expiresAt: int)

  datatype Released = Released(key: Key, lock: FieldLock)

  type Table = map<Key, Lease>

  /** A lease that left the table. */
  datatype Gone = Gone(key: Key, lease: Lease)

  function ToPublicLock(l: Lease): FieldLock {
    FieldLock(l.holder, l.expiresAt)
  }

  /** Others see who holds a lease and until when, and nothing of its token. */
  lemma PublicFormExactly(a: Lease, b: Lease)
    ensures ToPublicLock(a) == ToPublicLock(b) <==> a.holder == b.holder && a.expiresAt == b.expiresAt
    ensures ToPublicLock(a).holder == a.holder && ToPublicLock(a).expiresAt == a.expiresAt
  {
  }

  function Record(g: Gone): Released {
    Released(g.key, ToPublicLock(g.lease))
  }

  predicate Expired(l: Lease, now: int) {
    l.expiresAt <= now
  }

  /** A live lease on the key that belongs to somebody else's socket. */
  predicate HeldByOther(t: Table, key: Key, socketId: SocketId, now: int) {
    key in t && !Expired(t[key], now) && t[key].holder.socketId != socketId
  }

  predicate TokenFits(l: Lease, token: Option<Token>) {
    token == Some(l.token)
  }

  /** First check of withValidatedLease. */
  predicate Valid(t: Table, projectId: ProjectId, key: Key, userId: UserId, token: Option<Token>, now: int) {
    && key in t
    && t[key].holder.userId == userId && t[key].holder.projectId == projectId
    && TokenFits(t[key], token) && !Expired(t[key], now)
  }

  /** Second check, after authorize: the token and the clock only. */
  predicate StillValid(t: Table, key: Key, token: Option<Token>, now: int) {
    key in t && TokenFits(t[key], token) && !Expired(t[key], now)
  }

  /** assertLeaseOwnerIfLocked, once an expired lease is out of the way. */
  predicate OwnedIfLocked(t: Table, projectId: ProjectId, key: Key, userId: UserId, token: Option<Token>) {
    key in t ==> t[key].holder.userId == userId && t[key].holder.projectId == projectId && TokenFits(t[key], token)
  }

  // ----- Calls -----

  datatype Call =
    | Acquire(key: Key, holder: Holder, minted: Token, now: int)
    | Renew(key: Key, socketId: SocketId, token: Token, now: int)
    | Get(key: Key, now: int)
    | Release(key: Key, socketId: SocketId)
    | ReleaseResource(key: Key)
    | ReleaseUserInProject(userId: UserId, projectId: ProjectId, order: seq<Key>)
    | Validate(projectId: ProjectId, key: Key, userId: UserId, shown: Option<Token>, now: int)
    | AssertOwner(projectId: ProjectId, key: Key, userId: UserId, shown: Option<Token>, now: int)
    | Sweep(key: Key, now: int)

  /** The keys whose leases a call removes, in order. For ReleaseUserInProject the order is
      that of the map's iterator, so it is part of the call. */
  function Removed(t: Table, c: Call): seq<Key> {
    match c
    case Acquire(key, _, _, now) => IfExpired(t, key, now)
    case Renew(key, socketId, token, now) =>
      if key in t && t[key].holder.socketId == socketId && t[key].token == token then IfExpired(t, key, now) else []
    case Get(key, now) => IfExpired(t, key, now)
    case Release(key, socketId) => if key in t && t[key].holder.socketId == socketId then [key] else []
    case ReleaseResource(key) => if key in t then [key] else []
    case ReleaseUserInProject(_, _, order) => order
    case Validate(_, key, _, _, now) => IfExpired(t, key, now)
    case AssertOwner(_, key, _, _, now) => IfExpired(t, key, now)
    case Sweep(key, now) => IfExpired(t, key, now)
  }

  function IfExpired(t: Table, key: Key, now: int): seq<Key> {
    if key in t && Expired(t[key], now) then [key] else []
  }

  function KeySet(keys: seq<Key>): set<Key> {
    set k | k in keys
  }

  function After(t: Table, c: Call): Table {
    var left := t - KeySet(Removed(t, c));
    match c
    case Acquire(key, holder, minted, now) =>
      if key !in left then left[key := Lease(holder, minted, now + FIELD_LOCK_TTL_MS)]
      else if left[key].holder.socketId == holder.socketId then Extend(left, key, now)
      else left
    case Renew(key, socketId, token, now) =>
      if key in left && left[key].holder.socketId == socketId && left[key].token == token then Extend(left, key, now)
      else left
    case _ => left
  }

  function Extend(t: Table, key: Key, now: int): Table
    requires key in t
  {
    t[key := t[key].(expiresAt := now + FIELD_LOCK_TTL_MS)]
  }

  /** Iterating a map visits each matching entry once. */
  predicate Enumerates(order: seq<Key>, t: Table, userId: UserId, projectId: ProjectId) {
    && (forall k :: k in order ==> k in t && t[k].holder.userId == userId && t[k].holder.projectId == projectId)
    && (forall k :: k in t && t[k].holder.userId == userId && t[k].holder.projectId == projectId ==> k in order)
    && (forall i, j :: 0 <= i < j < |order| ==> order[i] != order[j])
  }

  function Departures(t: Table, keys: seq<Key>): seq<Gone>
    requires forall k :: k in keys ==> k in t
  {
    seq(|keys|, i requires 0 <= i < |keys| => Gone(keys[i], t[keys[i]]))
  }

  lemma RemovedArePresent(t: Table, c: Call)
    requires c.ReleaseUserInProject? ==> Enumerates(c.order, t, c.userId, c.projectId)
    ensures forall k :: k in Removed(t, c) ==> k in t
    ensures forall i, j :: 0 <= i < j < |Removed(t, c)| ==> Removed(t, c)[i] != Removed(t, c)[j]
  {
  }

  // ----- Single calls -----

  /** An acquire is refused exactly when another socket holds a live lease, and then nothing
      changes; otherwise the socket holds the key for a full term afterwards, under its old
      token if its own lease was still live. No other key is touched. */
  lemma AcquireOutcome(t: Table, key: Key, holder: Holder, minted: Token, now: int)
    ensures var t' := After(t, Acquire(key, holder, minted, now));
            && (HeldByOther(t, key, holder.socketId, now) ==> t' == t)
            && (!HeldByOther(t, key, holder.socketId, now) ==>
                  && key in t' && t'[key].holder.socketId == holder.socketId
                  && t'[key].expiresAt == now + FIELD_LOCK_TTL_MS
                  && t'[key].token == (if key in t && !Expired(t[key], now) then t[key].token else minted)
                  && t' - {key} == t - {key})
  {
    var removed := Removed(t, Acquire(key, holder, minted, now));
    if removed == [] {
      assert t - KeySet(removed) == t;
    } else {
      assert KeySet(removed) == {key};
    }
  }

  /** A call on one key leaves all other leases alone. At its key it can only remove the
      lease, make one for the caller, or extend one whose socket is the caller's. */
  lemma AfterOnOneKey(t: Table, c: Call)
    requires !c.ReleaseUserInProject?
    ensures After(t, c) - {c.key} == t - {c.key}
    ensures c.key in After(t, c) && !(c.key in t && After(t, c)[c.key] == t[c.key]) ==>
              var l := After(t, c)[c.key];
              && (c.Acquire? || c.Renew?) && l.expiresAt == c.now + FIELD_LOCK_TTL_MS
              && (|| (c.Acquire? && l.holder == c.holder)
                  || (c.key in t && l.holder == t[c.key].holder
                      && l.holder.socketId == if c.Acquire? then c.holder.socketId else c.socketId))
  {
    var removed := Removed(t, c);
    assert removed == [] || removed == [c.key];
    assert KeySet([c.key]) == {c.key} && KeySet([]) == {};
  }
}
