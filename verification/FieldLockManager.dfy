/** FieldLockManager's lease table as the program keeps it. `handled` is what has been passed
    to the expiration handler. Each method is the call of the same name in module Leases:
    the table afterwards is After, and the departed leases are the records returned or
    handled. */
module FieldLockManagers {
  import opened Prelude
  import opened Leases

  class FieldLockManager {
    var leases: Table
    var handled: seq<Released>

    constructor ()
      ensures leases == map[] && handled == []
    {
      leases, handled := map[], [];
    }

    /** The records of the leases a call lets go. */
    static function RecordsOf(t: Table, c: Call): seq<Released>
      requires forall k :: k in Leases.Removed(t, c) ==> k in t
    {
      var gone := Departures(t, Leases.Removed(t, c));
      seq(|gone|, i requires 0 <= i < |gone| => Record(gone[i]))
    }

    static lemma OneRecord(t: Table, c: Call, key: Key)
      requires forall k :: k in Leases.Removed(t, c) ==> k in t
      ensures Leases.Removed(t, c) == [] ==> RecordsOf(t, c) == [] && t - KeySet([]) == t
      ensures Leases.Removed(t, c) == [key] ==>
                RecordsOf(t, c) == [Released(key, ToPublicLock(t[key]))] && KeySet([key]) == {key}
    {
    }

    static lemma OneMoreReleased(t: Table, order: seq<Key>, i: nat)
      requires i < |order| && order[i] in t
      requires forall j :: 0 <= j < i ==> order[j] != order[i]
      ensures order[i] in t - KeySet(order[..i]) && (t - KeySet(order[..i]))[order[i]] == t[order[i]]
      ensures t - KeySet(order[..i]) - {order[i]} == t - KeySet(order[..i + 1])
    {
      assert order[..i + 1] == order[..i] + [order[i]];
    }

    method Acquire(key: Key, holder: Holder, token: Token, now: int)
      returns (acquired: bool, lock: FieldLock, given: Option<Token>)
      modifies this
      ensures var c := Call.Acquire(key, holder, token, now);
              leases == After(old(leases), c) && handled == old(handled) + RecordsOf(old(leases), c)
      ensures acquired <==> !HeldByOther(old(leases), key, holder.socketId, now)
      ensures key in leases && lock == ToPublicLock(leases[key])
      ensures given == if acquired then Some(leases[key].token) else None
    {
      OneRecord(leases, Call.Acquire(key, holder, token, now), key);
      var expired := ReleaseIfExpired(key, now);
      if key in leases && leases[key].holder.socketId != holder.socketId {
        return false, ToPublicLock(leases[key]), None;
      }
      if key in leases {
        leases := leases[key := leases[key].(expiresAt := now + FIELD_LOCK_TTL_MS)];
      } else {
        leases := leases[key := Lease(holder, token, now + FIELD_LOCK_TTL_MS)];
      }
      return true, ToPublicLock(leases[key]), Some(leases[key].token);
    }

    method Renew(key: Key, socketId: SocketId, token: Token, now: int) returns (lock: Option<FieldLock>)
      modifies this
      ensures var c := Call.Renew(key, socketId, token, now);
              leases == After(old(leases), c) && handled == old(handled) + RecordsOf(old(leases), c)
      ensures lock.Some? <==> key in old(leases) && old(leases)[key].holder.socketId == socketId
                              && old(leases)[key].token == token && !Expired(old(leases)[key], now)
      ensures lock.Some? ==> key in leases && lock.value == ToPublicLock(leases[key])
    {
      OneRecord(leases, Call.Renew(key, socketId, token, now), key);
      if key !in leases || leases[key].holder.socketId != socketId || leases[key].token != token {
        return None;
      }
      if leases[key].expiresAt <= now {
        var released := ReleaseResource(key);
        handled := handled + [released.value];
        return None;
      }
      leases := leases[key := leases[key].(expiresAt := now + FIELD_LOCK_TTL_MS)];
      return Some(ToPublicLock(leases[key]));
    }

    method Get(key: Key, now: int) returns (lock: Option<FieldLock>)
      modifies this
      ensures var c := Call.Get(key, now);
              leases == After(old(leases), c) && handled == old(handled) + RecordsOf(old(leases), c)
      ensures lock == if key in leases then Some(ToPublicLock(leases[key])) else None
    {
      OneRecord(leases, Call.Get(key, now), key);
      var expired := ReleaseIfExpired(key, now);
      return if key in leases then Some(ToPublicLock(leases[key])) else None;
    }

    method Release(key: Key, socketId: SocketId) returns (released: Option<Released>)
      modifies this`leases
      ensures var c := Call.Release(key, socketId);
              && leases == After(old(leases), c)
              && (if released.Some? then [released.value] else []) == RecordsOf(old(leases), c)
    {
      OneRecord(leases, Call.Release(key, socketId), key);
      if key !in leases || leases[key].holder.socketId != socketId {
        return None;
      }
      released := Some(Released(key, ToPublicLock(leases[key])));
      leases := leases - {key};
    }

    method ReleaseResource(key: Key) returns (released: Option<Released>)
      modifies this`leases
      ensures var c := Call.ReleaseResource(key);
              && leases == After(old(leases), c)
              && (if released.Some? then [released.value] else []) == RecordsOf(old(leases), c)
      ensures released.Some? <==> key in old(leases)
    {
      OneRecord(leases, Call.ReleaseResource(key), key);
      if key !in leases {
        return None;
      }
      released := Some(Released(key, ToPublicLock(leases[key])));
      leases := leases - {key};
    }

    /** `order` is the order in which the map's iterator yields its matching entries. */
    method ReleaseUserInProject(userId: UserId, projectId: ProjectId, order: seq<Key>) returns (released: seq<Released>)
      requires Enumerates(order, leases, userId, projectId)
      modifies this`leases
      ensures var c := Call.ReleaseUserInProject(userId, projectId, order);
              leases == After(old(leases), c) && released == RecordsOf(old(leases), c)
    {
      released := [];
      ghost var before := leases;
      for i := 0 to |order|
        invariant leases == before - KeySet(order[..i])
        invariant |released| == i
        invariant forall j :: 0 <= j < i ==> released[j] == Released(order[j], ToPublicLock(before[order[j]]))
      {
        OneMoreReleased(before, order, i);
        released := released + [Released(order[i], ToPublicLock(leases[order[i]]))];
        leases := leases - {order[i]};
      }
      assert order[..|order|] == order;
    }

    /** The first check of withValidatedLease; false stands for FieldLockLeaseError. */
    method Validate(projectId: ProjectId, key: Key, userId: UserId, token: Option<Token>, now: int)
      returns (valid: bool)
      modifies this
      ensures var c := Call.Validate(projectId, key, userId, token, now);
              leases == After(old(leases), c) && handled == old(handled) + RecordsOf(old(leases), c)
      ensures valid <==> Leases.Valid(old(leases), projectId, key, userId, token, now)
    {
      OneRecord(leases, Call.Validate(projectId, key, userId, token, now), key);
      if key !in leases || leases[key].holder.userId != userId || leases[key].holder.projectId != projectId
         || token.None? || leases[key].token != token.value || leases[key].expiresAt <= now
      {
        if key in leases && leases[key].expiresAt <= now {
          var released := ReleaseResource(key);
          handled := handled + [released.value];
        }
        return false;
      }
      return true;
    }

    /** The second check of withValidatedLease. */
    method Revalidate(key: Key, token: Token, now: int) returns (valid: bool)
      ensures valid <==> StillValid(leases, key, Some(token), now)
    {
      return !(key !in leases || leases[key].token != token || leases[key].expiresAt <= now);
    }

    /** Nobody, or this user with the token, holds the key; false stands for the error. */
    method AssertLeaseOwnerIfLocked(projectId: ProjectId, key: Key, userId: UserId, token: Option<Token>, now: int)
      returns (ok: bool)
      modifies this
      ensures var c := Call.AssertOwner(projectId, key, userId, token, now);
              leases == After(old(leases), c) && handled == old(handled) + RecordsOf(old(leases), c)
      ensures ok <==> OwnedIfLocked(leases, projectId, key, userId, token)
    {
      OneRecord(leases, Call.AssertOwner(projectId, key, userId, token, now), key);
      if key !in leases {
        return true;
      }
      var lease := leases[key];
      var expired := ReleaseIfExpired(key, now);
      if expired {
        return true;
      }
      return !(lease.holder.userId != userId || lease.holder.projectId != projectId
               || token.None? || lease.token != token.value);
    }

    /** What releaseExpiredLeases does inside the lock of each key it found expired. */
    method SweepKey(key: Key, now: int)
      modifies this
      ensures var c := Call.Sweep(key, now);
              leases == After(old(leases), c) && handled == old(handled) + RecordsOf(old(leases), c)
    {
      OneRecord(leases, Call.Sweep(key, now), key);
      if key !in leases || leases[key].expiresAt > now {
        return;
      }
      var released := ReleaseResource(key);
      handled := handled + [released.value];
    }

    method ReleaseIfExpired(key: Key, now: int) returns (expired: bool)
      modifies this
      ensures var c := Call.Sweep(key, now);
              leases == After(old(leases), c) && handled == old(handled) + RecordsOf(old(leases), c)
      ensures expired <==> key in old(leases) && Expired(old(leases)[key], now)
    {
      OneRecord(leases, Call.Sweep(key, now), key);
      if key !in leases || leases[key].expiresAt > now {
        return false;
      }
      var released := ReleaseResource(key);
      handled := handled + [released.value];
      return true;
    }
  }
}
