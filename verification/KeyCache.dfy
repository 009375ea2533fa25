/** The public-key cache as a value, and what one critical section does to it. */
module KeyCache {
  import opened Prelude
  import opened KeyVersions

  datatype Found = Key(key: PublicKey) | NotFound | Failed

  /** Dated entries, of which old ones go first when there are too many. */
  type Dated = map<Version, Time>

  predicate Live(entries: Dated, id: Version, cutoff: Time) {
    id in entries && entries[id] > cutoff
  }

  function LiveIds(entries: Dated, cutoff: Time): set<Version> {
    set k | k in entries && entries[k] > cutoff
  }

  predicate Carried(before: Dated, after: Dated, k: Version, cutoff: Time) {
    Live(before, k, cutoff) && k in after && after[k] == before[k]
  }

  /** No entry that stayed, `id` aside, is older than `k`. */
  predicate NoneOlder(before: Dated, after: Dated, id: Version, k: Version)
    requires k in before
  {
    forall x :: x in after && x != id && x in before ==> before[k] <= before[x]
  }

  /** `after` is `before` with the expired entries dropped, `id` dated anew and, only when sixty-four
      entries were live, one of the oldest left out. */
  ghost predicate Remembers(before: Dated, after: Dated, id: Version, stamp: Time, cutoff: Time) {
    && id in after && after[id] == stamp
    && |after| <= MAX_NEGATIVE_KEY_IDS
    && (forall k {:trigger Carried(before, after, k, cutoff)} {:trigger k in after} ::
          k in after && k != id ==> Carried(before, after, k, cutoff))
    && (forall k {:trigger Live(before, k, cutoff)} :: Live(before, k, cutoff) && k !in after ==>
          |LiveIds(before, cutoff)| == MAX_NEGATIVE_KEY_IDS && NoneOlder(before, after, id, k))
    && (forall k, x :: Live(before, k, cutoff) && Live(before, x, cutoff) && k !in after && x !in after ==> k == x)
  }

  lemma FirstRemembered(after: Dated, id: Version, stamp: Time, cutoff: Time)
    requires Remembers(map[], after, id, stamp, cutoff)
    ensures after == map[id := stamp]
  {
    assert forall k :: k in after && k != id ==> Carried(map[], after, k, cutoff);
  }

  predicate IsStale(latest: Version, refreshedAt: Time, now: Time) {
    latest <= 0 || now - refreshedAt >= KEY_SET_TTL
  }

  /** Vault may be asked about versions just above the latest, each once in thirty seconds. */
  predicate MayAsk(version: Version, latest: Version, checks: Dated, now: Time) {
    && (latest == 0 || latest < version <= latest + MAX_KEY_CATCH_UP)
    && !Live(checks, version, now - NEGATIVE_KEY_TTL)
  }

  /** What a caller of a refresh does: nothing, wait for the one under way, or read from Vault. */
  datatype Role = UpToDate | Wait | Ask

  // ---------------------------------------------------------------- critical sections

  /** `answer` is the last answer that was installed. */
  datatype Cache = Cache(ready: bool, publicKeys: map<Version, PublicKey>, latest: Version, refreshedAt: Time,
                         negative: Dated, checks: Dated, refreshing: bool, failed: bool, answer: Option<KeyInfo>)

  const EMPTY_CACHE := Cache(false, map[], 0, 0, map[], map[], false, false, None)

  ghost predicate ValidCache(c: Cache) {
    && Mirrors(c.publicKeys, c.latest, c.answer)
    && |c.negative| <= MAX_NEGATIVE_KEY_IDS
    && |c.checks| <= MAX_NEGATIVE_KEY_IDS
  }

  /** What a lookup finds in the cache, and whether it goes on to a refresh. */
  datatype Looked = Hit(key: PublicKey) | KnownUnknown | Barred | MustRead

  function Look(c: Cache, version: Version, now: Time): Looked {
    if version in c.publicKeys then Hit(c.publicKeys[version])
    else if Live(c.negative, version, now) then KnownUnknown
    else if !MayAsk(version, c.latest, c.checks, now) then Barred
    else MustRead
  }

  function Installed(c: Cache, info: KeyInfo, now: Time): Cache {
    c.(publicKeys := Kept(info), latest := info.latestVersion, refreshedAt := now, negative := map[],
       answer := Some(info))
  }

  /** The caller remembers that the version is unknown. */
  ghost predicate MarksUnknown(c: Cache, c': Cache, version: Version, now: Time) {
    && c' == c.(negative := c'.negative)
    && Remembers(c.negative, c'.negative, version, now + NEGATIVE_KEY_TTL, now)
  }

  function RoleOf(c: Cache, force: bool, now: Time): Role {
    if !force && !IsStale(c.latest, c.refreshedAt, now) then UpToDate
    else if c.refreshing then Wait
    else Ask
  }

  /** The start of a refresh: at most one caller reads from Vault at a time. */
  ghost predicate Begins(c: Cache, c': Cache, force: bool, unknown: Option<Version>, now: Time) {
    var asks := RoleOf(c, force, now).Ask?;
    && c' == c.(refreshing := c.refreshing || asks, checks := c'.checks)
    && if asks && unknown.Some? then Remembers(c.checks, c'.checks, unknown.value, now, now - NEGATIVE_KEY_TTL)
       else c'.checks == c.checks
  }

  /** Vault has answered, well or not. */
  function Finished(c: Cache, unknown: Option<Version>, now: Time, response: Option<Response>): Cache {
    var done := c.(refreshing := false, failed := TransitKeyInfo(response).None?);
    if TransitKeyInfo(response).None? then done else
    var after := Installed(done, TransitKeyInfo(response).value, now);
    if unknown.Some? && unknown.value !in after.publicKeys
    then after.(negative := map[unknown.value := now + NEGATIVE_KEY_TTL])
    else after
  }

  /** A caller whose wait is over. */
  ghost predicate Resumes(c: Cache, c': Cache, unknown: Option<Version>, now: Time) {
    if !c.failed && unknown.Some? && unknown.value !in c.publicKeys
    then MarksUnknown(c, c', unknown.value, now)
    else c' == c
  }
}
