/** The public-key cache of the Vault runtime, with what it remembers of unknown keys. */
module PublicKeyCaches {
  import opened Prelude
  import opened KeyCache
  import opened KeyIds
  import opened KeyVersions

  method DropExpired(before: Dated, cutoff: Time) returns (after: Dated)
    ensures after.Keys == LiveIds(before, cutoff)
    ensures forall k :: k in after ==> after[k] == before[k]
  {
    after := before;
    var toVisit := before.Keys;
    while toVisit != {}
      invariant toVisit <= before.Keys
      invariant forall k :: k in after <==> k in before && (k in toVisit || before[k] > cutoff)
      invariant forall k :: k in after ==> after[k] == before[k]
      decreases |toVisit|
    {
      var k :| k in toVisit;
      if after[k] <= cutoff {
        after := after - {k};
      }
      toVisit := toVisit - {k};
    }
    assert forall k :: k in after.Keys <==> k in LiveIds(before, cutoff);
  }

  method Oldest(entries: Dated) returns (oldest: Version)
    requires entries != map[]
    ensures oldest in entries && forall x :: x in entries ==> entries[oldest] <= entries[x]
  {
    var found: Option<Version> := None;
    var toVisit := entries.Keys;
    while toVisit != {}
      invariant toVisit <= entries.Keys
      invariant found.None? ==> toVisit == entries.Keys
      invariant found.Some? ==> found.value in entries
      invariant found.Some? ==> forall x :: x in entries && x !in toVisit ==> entries[found.value] <= entries[x]
      decreases |toVisit|
    {
      var k :| k in toVisit;
      if found.None? || entries[k] < entries[found.value] {
        found := Some(k);
      }
      toVisit := toVisit - {k};
    }
    oldest := found.value;
  }

  method Remember(before: Dated, id: Version, stamp: Time, cutoff: Time) returns (after: Dated)
    requires |before| <= MAX_NEGATIVE_KEY_IDS
    ensures Remembers(before, after, id, stamp, cutoff)
  {
    var live := DropExpired(before, cutoff);
    LiveIdsAreFew(before, live, cutoff);
    after := live;
    if |after| >= MAX_NEGATIVE_KEY_IDS {
      var oldest := Oldest(after);
      after := after - {oldest};
      assert after.Keys == live.Keys - {oldest};
      assert |after.Keys| < MAX_NEGATIVE_KEY_IDS;
    }
    assert after[id := stamp].Keys == after.Keys + {id};
    after := after[id := stamp];
    forall k | k in after && k != id
      ensures Carried(before, after, k, cutoff)
    {
      assert k in live.Keys;
    }
    forall k | Live(before, k, cutoff) && k !in after
      ensures |LiveIds(before, cutoff)| == MAX_NEGATIVE_KEY_IDS && NoneOlder(before, after, id, k)
    {
      assert k in live.Keys;
    }
  }

  lemma LiveIdsAreFew(before: Dated, live: Dated, cutoff: Time)
    requires live.Keys == LiveIds(before, cutoff)
    ensures |live| <= |before|
    ensures |live| == |LiveIds(before, cutoff)|
  {
    SubsetIsSmaller(LiveIds(before, cutoff), before.Keys);
    assert |live| == |live.Keys|;
  }

  /** The methods up to AfterWait are one section under the mutex each, and callers interleave between
      them; the last three are whole calls that find no refresh under way. */
  class PublicKeyCache {
    var ready: bool
    var publicKeys: map<Version, PublicKey>
    var latestKeyVersion: Version
    var keySetRefreshedAt: Time
    var negativeKeyIDs: Dated
    var unknownKeyChecks: Dated
    var refreshing: bool
    var refreshFailed: bool

    /** The last answer that was installed. */
    ghost var answer: Option<KeyInfo>

    ghost function View(): Cache
      reads this
    {
      Cache(ready, publicKeys, latestKeyVersion, keySetRefreshedAt, negativeKeyIDs, unknownKeyChecks, refreshing,
            refreshFailed, answer)
    }

    ghost predicate Valid()
      reads this
    {
      ValidCache(View())
    }

    constructor ()
      ensures Valid() && View() == EMPTY_CACHE && answer == None && !ready && !refreshing
      ensures negativeKeyIDs == map[] && unknownKeyChecks == map[]
    {
      ready, refreshing, refreshFailed := false, false, false;
      publicKeys, latestKeyVersion, keySetRefreshedAt := map[], 0, 0;
      negativeKeyIDs, unknownKeyChecks, answer := map[], map[], None;
    }

    method InstallKeyInfo(info: KeyInfo, now: Time)
      requires Valid() && Coherent(info)
      modifies this`publicKeys, this`latestKeyVersion, this`keySetRefreshedAt, this`negativeKeyIDs, this`answer
      ensures Valid() && answer == Some(info)
      ensures keySetRefreshedAt == now && negativeKeyIDs == map[]
      ensures View() == Installed(old(View()), info, now)
    {
      var versions := Take(Descending(info.publicKeys.Keys), MAX_CACHED_PUBLIC_KEYS);
      publicKeys := map v | v in versions && v in info.publicKeys :: info.publicKeys[v];
      latestKeyVersion := info.latestVersion;
      keySetRefreshedAt := now;
      negativeKeyIDs := map[];
      answer := Some(info);
      assert publicKeys == Kept(info);
      KeptMirrors(info);
    }

    /** The service starts with a key set that was read, and serves until its credentials run out. */
    method Start(info: KeyInfo, now: Time)
      requires Valid() && Coherent(info)
      modifies this
      ensures Valid() && ready && answer == Some(info) && refreshing == old(refreshing)
      ensures View() == Installed(old(View()), info, now).(ready := true)
    {
      InstallKeyInfo(info, now);
      ready := true;
    }

    method GiveUp()
      requires Valid()
      modifies this`ready
      ensures Valid() && !ready && View() == old(View()).(ready := false)
    {
      ready := false;
    }

    method RememberUnknownKey(id: Version, now: Time)
      requires Valid()
      modifies this`negativeKeyIDs
      ensures Valid()
      ensures Remembers(old(negativeKeyIDs), negativeKeyIDs, id, now + NEGATIVE_KEY_TTL, now)
      ensures MarksUnknown(old(View()), View(), id, now)
    {
      negativeKeyIDs := Remember(negativeKeyIDs, id, now + NEGATIVE_KEY_TTL, now);
    }

    method RememberUnknownKeyCheck(id: Version, now: Time)
      requires Valid()
      modifies this`unknownKeyChecks
      ensures Valid()
      ensures Remembers(old(unknownKeyChecks), unknownKeyChecks, id, now, now - NEGATIVE_KEY_TTL)
    {
      unknownKeyChecks := Remember(unknownKeyChecks, id, now, now - NEGATIVE_KEY_TTL);
    }

    /** The first section of a lookup. */
    method Lookup(version: Version, now: Time) returns (r: Looked)
      requires Valid()
      ensures r == Look(View(), version, now)
    {
      if version in publicKeys {
        return Hit(publicKeys[version]);
      }
      if version in negativeKeyIDs && negativeKeyIDs[version] > now {
        return KnownUnknown;
      }
      if latestKeyVersion > 0 && (version <= latestKeyVersion || version > latestKeyVersion + MAX_KEY_CATCH_UP) {
        return Barred;
      }
      if version in unknownKeyChecks && now - unknownKeyChecks[version] < NEGATIVE_KEY_TTL {
        return Barred;
      }
      r := MustRead;
    }

    /** The start of a refresh: at most one caller reads from Vault at a time. */
    method BeginRefresh(force: bool, unknown: Option<Version>, now: Time) returns (role: Role)
      requires Valid()
      modifies this`refreshing, this`unknownKeyChecks
      ensures Valid()
      ensures role == RoleOf(old(View()), force, now) && Begins(old(View()), View(), force, unknown, now)
      ensures role.UpToDate? <==> !force && latestKeyVersion > 0 && now < keySetRefreshedAt + 60 * SECOND
      ensures role.Ask? ==> !old(refreshing) && refreshing
      ensures role.Wait? ==> old(refreshing)
      ensures !role.Ask? ==> refreshing == old(refreshing)
      ensures if role.Ask? && unknown.Some?
              then Remembers(old(unknownKeyChecks), unknownKeyChecks, unknown.value, now, now - NEGATIVE_KEY_TTL)
              else unknownKeyChecks == old(unknownKeyChecks)
    {
      if !force && latestKeyVersion > 0 && now - keySetRefreshedAt < KEY_SET_TTL {
        return UpToDate;
      }
      if refreshing {
        return Wait;
      }
      refreshing := true;
      if unknown.Some? {
        RememberUnknownKeyCheck(unknown.value, now);
      }
      role := Ask;
    }

    /** Vault has answered, well or not: install, remember what is still unknown, let waiters go. */
    method FinishRefresh(unknown: Option<Version>, now: Time, response: Option<Response>)
      requires Valid() && refreshing
      modifies this
      ensures Valid() && !refreshing && ready == old(ready)
      ensures View() == Finished(old(View()), unknown, now, response)
      ensures unknownKeyChecks == old(unknownKeyChecks)
      ensures refreshFailed <==> TransitKeyInfo(response).None?
      ensures if refreshFailed
              then && answer == old(answer) && publicKeys == old(publicKeys) && negativeKeyIDs == old(negativeKeyIDs)
                   && keySetRefreshedAt == old(keySetRefreshedAt)
              else && answer == TransitKeyInfo(response) && keySetRefreshedAt == now
                   && negativeKeyIDs == if unknown.Some? && unknown.value !in publicKeys
                                        then map[unknown.value := now + NEGATIVE_KEY_TTL] else map[]
    {
      var info := TransitKeyInfo(response);
      if info.Some? {
        InstallKeyInfo(info.value, now);
        if unknown.Some? && unknown.value !in publicKeys {
          RememberUnknownKey(unknown.value, now);
          FirstRemembered(negativeKeyIDs, unknown.value, now + NEGATIVE_KEY_TTL, now);
        }
      }
      refreshFailed := info.None?;
      refreshing := false;
    }

    /** A caller whose wait is over takes the outcome of the refresh it waited for. */
    method AfterWait(unknown: Option<Version>, now: Time) returns (ok: bool)
      requires Valid()
      modifies this`negativeKeyIDs
      ensures Valid()
      ensures Resumes(old(View()), View(), unknown, now)
      ensures ok <==> !refreshFailed
      ensures ok && unknown.Some? && unknown.value !in publicKeys ==>
                Remembers(old(negativeKeyIDs), negativeKeyIDs, unknown.value, now + NEGATIVE_KEY_TTL, now)
      ensures !ok || unknown.None? || unknown.value in publicKeys ==> negativeKeyIDs == old(negativeKeyIDs)
    {
      ok := !refreshFailed;
      if ok && unknown.Some? && unknown.value !in publicKeys {
        RememberUnknownKey(unknown.value, now);
      }
    }

    /** A refresh that finds no other under way. */
    method RefreshPublicKeys(force: bool, unknown: Option<Version>, now: Time, response: Option<Response>)
      returns (ok: bool, asked: bool)
      requires Valid() && !refreshing
      modifies this
      ensures Valid() && !refreshing && ready == old(ready)
      ensures asked <==> force || old(latestKeyVersion) == 0 || old(keySetRefreshedAt) + 60 * SECOND <= now
      ensures !asked ==>
                && ok && answer == old(answer) && publicKeys == old(publicKeys) && negativeKeyIDs == old(negativeKeyIDs)
                && unknownKeyChecks == old(unknownKeyChecks) && keySetRefreshedAt == old(keySetRefreshedAt)
      ensures asked ==> (ok <==> TransitKeyInfo(response).Some?)
      ensures asked && ok ==> answer == TransitKeyInfo(response) && keySetRefreshedAt == now
      ensures asked && ok ==>
                negativeKeyIDs == if unknown.Some? && unknown.value !in publicKeys
                                  then map[unknown.value := now + NEGATIVE_KEY_TTL] else map[]
      ensures asked && !ok ==>
                && answer == old(answer) && publicKeys == old(publicKeys)
                && negativeKeyIDs == old(negativeKeyIDs) && keySetRefreshedAt == old(keySetRefreshedAt)
      ensures asked && unknown.Some? ==> unknown.value in unknownKeyChecks && unknownKeyChecks[unknown.value] == now
    {
      var role := BeginRefresh(force, unknown, now);
      if role.UpToDate? {
        return true, false;
      }
      FinishRefresh(unknown, now, response);
      return !refreshFailed, true;
    }

    /** The key id to sign with is the last answer's latest version, whose key is cached. */
    method SigningKeyID(now: Time, response: Option<Response>) returns (version: Option<Version>, asked: bool)
      requires Valid() && !refreshing
      modifies this
      ensures Valid() && !refreshing && ready == old(ready)
      ensures asked <==> ready && (old(latestKeyVersion) == 0 || old(keySetRefreshedAt) + 60 * SECOND <= now)
      ensures version.Some? ==>
                && ready && answer.Some? && version.value == answer.value.latestVersion && version.value in publicKeys
                && now - keySetRefreshedAt < KEY_SET_TTL
      ensures version.None? <==> !ready || (asked && TransitKeyInfo(response).None?)
    {
      asked := false;
      if !ready {
        return None, asked;
      }
      var current := latestKeyVersion;
      if current <= 0 || now - keySetRefreshedAt >= KEY_SET_TTL {
        var ok;
        ok, asked := RefreshPublicKeys(false, None, now, response);
        if !ok {
          return None, asked;
        }
        current := latestKeyVersion;
      }
      if current <= 0 {
        return None, asked;
      }
      version := Some(current);
    }

    /** A key that is found is the last answer's. Vault is asked exactly about versions that are not
        cached, not known to be unknown, and may be asked about; what was not found is known to be
        unknown from then on. */
    method PublicKey(keyID: string, now: Time, response: Option<Response>) returns (r: Found, asked: bool)
      requires Valid() && !refreshing
      modifies this
      ensures Valid() && !refreshing && ready == old(ready)
      ensures !ready ==> r == Failed && !asked
      ensures ready && TransitKeyVersion(keyID).None? ==> r == NotFound && !asked
      ensures asked <==>
                && ready && TransitKeyVersion(keyID).Some?
                && var version := TransitKeyVersion(keyID).value;
                && version !in old(publicKeys)
                && !(version in old(negativeKeyIDs) && now < old(negativeKeyIDs)[version])
                && (old(latestKeyVersion) == 0
                    || old(latestKeyVersion) < version <= old(latestKeyVersion) + 32)
                && !(version in old(unknownKeyChecks) && now < old(unknownKeyChecks)[version] + 30 * SECOND)
      ensures !asked ==>
                && answer == old(answer) && publicKeys == old(publicKeys)
                && unknownKeyChecks == old(unknownKeyChecks)
      ensures ready ==> (r.Failed? <==> asked && TransitKeyInfo(response).None?)
      ensures ready && TransitKeyVersion(keyID).Some? ==>
                var version := TransitKeyVersion(keyID).value;
                && (r.Key? <==> version in publicKeys && (asked ==> TransitKeyInfo(response).Some?))
                && (r.Key? ==> && answer.Some? && version in answer.value.publicKeys
                               && r.key == answer.value.publicKeys[version])
                && (r.NotFound? ==> Live(negativeKeyIDs, version, now))
                && (asked ==> version in unknownKeyChecks && unknownKeyChecks[version] == now)
    {
      if !ready {
        return Failed, false;
      }
      var parsed := TransitKeyVersion(keyID);
      if parsed.None? {
        return NotFound, false;
      }
      var version := parsed.value;
      var looked := Lookup(version, now);
      match looked {
        case Hit(key) => return Key(key), false;
        case KnownUnknown => return NotFound, false;
        case Barred =>
          RememberUnknownKey(version, now);
          return NotFound, false;
        case MustRead =>
      }
      var ok;
      ok, asked := RefreshPublicKeys(true, Some(version), now, response);
      if !ok {
        return Failed, asked;
      }
      if version !in publicKeys {
        return NotFound, asked;
      }
      r := Key(publicKeys[version]);
    }
  }
}
