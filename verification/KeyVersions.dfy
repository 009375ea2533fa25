/** Which public keys are kept: the highest versions of an answer, at most thirty-two. */
module KeyVersions {
  import opened Prelude

  /** The number in a key id, which has one id only (KeyIds.OneIdPerVersion). */
  type Version = nat
  type PublicKey = nat
  type Time = int

  const MAX_CACHED_PUBLIC_KEYS := 32
  const MAX_NEGATIVE_KEY_IDS := 64
  const NEGATIVE_KEY_TTL := 30 * SECOND
  const KEY_SET_TTL := 60 * SECOND
  const MAX_KEY_CATCH_UP := MAX_CACHED_PUBLIC_KEYS

  datatype KeyInfo = KeyInfo(latestVersion: Version, publicKeys: map<Version, PublicKey>)

  /** The answer as it comes in: a version that does not parse is 0, a key that does not is None. */
  datatype Response = Response(latestVersion: int, keys: map<Version, Option<PublicKey>>)

  predicate WellFormed(r: Response) {
    && r.keys != map[]
    && r.latestVersion > 0
    && (forall v :: v in r.keys ==> 0 < v <= r.latestVersion && r.keys[v].Some?)
    && r.latestVersion in r.keys
  }

  function TransitKeyInfo(r: Option<Response>): (info: Option<KeyInfo>)
    ensures info.Some? ==> Coherent(info.value)
  {
    if r.None? || !WellFormed(r.value) then None
    else Some(KeyInfo(r.value.latestVersion, map v | v in r.value.keys :: r.value.keys[v].value))
  }

  /** What every accepted answer satisfies. */
  predicate Coherent(info: KeyInfo) {
    && 0 < info.latestVersion
    && info.latestVersion in info.publicKeys
    && forall v :: v in info.publicKeys ==> 0 < v <= info.latestVersion
  }

  // ---------------------------------------------------------------- the highest versions

  predicate IsHighest(vs: set<Version>, v: Version) {
    v in vs && forall x :: x in vs ==> x <= v
  }

  lemma {:induction false} HighestExists(vs: set<Version>)
    requires vs != {}
    ensures exists v: Version :: IsHighest(vs, v)
    decreases |vs|
  {
    var v :| v in vs;
    var rest := vs - {v};
    assert forall x :: x in vs ==> x == v || x in rest;
    if rest == {} {
      assert IsHighest(vs, v);
    } else {
      HighestExists(rest);
      var w: Version :| IsHighest(rest, w);
      assert IsHighest(vs, if v < w then w else v);
    }
  }

  function Highest(vs: set<Version>): (v: Version)
    requires vs != {}
    ensures IsHighest(vs, v)
  {
    HighestExists(vs);
    var v: Version :| IsHighest(vs, v);
    v
  }

  /** All versions, highest first. */
  function Descending(vs: set<Version>): (r: seq<Version>)
    ensures |r| == |vs|
    decreases |vs|
  {
    if vs == {} then [] else
    var v := Highest(vs);
    [v] + Descending(vs - {v})
  }

  function Elements(s: seq<Version>): set<Version> {
    set v | v in s
  }

  /** `kept` is the highest min(n, |vs|) of `vs`. */
  ghost predicate AreHighest(kept: set<Version>, vs: set<Version>, n: nat) {
    && kept <= vs
    && |kept| == Min(n, |vs|)
    && forall a, b :: a in kept && b in vs && b !in kept ==> b < a
  }

  lemma OneMoreHighest(rest: set<Version>, vs: set<Version>, n: nat)
    requires vs != {} && n > 0 && AreHighest(rest, vs - {Highest(vs)}, n - 1)
    ensures AreHighest(rest + {Highest(vs)}, vs, n)
  {
    var v := Highest(vs);
    assert |vs - {v}| == |vs| - 1;
    assert v !in rest;
  }

  /** Sorting in descending order and cutting off keeps the highest versions. */
  lemma {:induction false} CutKeepsHighest(vs: set<Version>, n: nat)
    ensures AreHighest(Elements(Take(Descending(vs), n)), vs, n)
    decreases |vs|
  {
    if vs == {} || n == 0 {
      assert Take(Descending(vs), n) == [];
      assert Elements([]) == {};
    } else {
      var v := Highest(vs);
      var rest := Elements(Take(Descending(vs - {v}), n - 1));
      CutKeepsHighest(vs - {v}, n - 1);
      CutFirst(v, Descending(vs - {v}), n);
      assert Elements(Take(Descending(vs), n)) == rest + {v};
      OneMoreHighest(rest, vs, n);
    }
  }

  lemma CutFirst(v: Version, s: seq<Version>, n: nat)
    requires n > 0
    ensures Take([v] + s, n) == [v] + Take(s, n - 1)
    ensures Elements(Take([v] + s, n)) == Elements(Take(s, n - 1)) + {v}
  {
    assert Take([v] + s, n) == [v] + Take(s, n - 1);
  }

  // ---------------------------------------------------------------- the cache against an answer

  /** The cached keys are those of the answer with the highest versions, and include its latest. */
  ghost predicate Mirrors(keys: map<Version, PublicKey>, latest: Version, answer: Option<KeyInfo>) {
    match answer
    case None => keys == map[] && latest == 0
    case Some(info) =>
      && Coherent(info)
      && latest == info.latestVersion
      && AreHighest(keys.Keys, info.publicKeys.Keys, MAX_CACHED_PUBLIC_KEYS)
      && latest in keys
      && forall v :: v in keys ==> keys[v] == info.publicKeys[v]
  }

  lemma LatestIsKept(info: KeyInfo, kept: set<Version>, n: nat)
    requires Coherent(info) && n > 0
    requires AreHighest(kept, info.publicKeys.Keys, n)
    ensures info.latestVersion in kept
  {
    assert |info.publicKeys.Keys| > 0;
    assert kept != {};
    var a: Version :| a in kept;
    assert info.latestVersion !in kept ==> info.latestVersion < a;
  }

  /** The answer's keys that are kept; nothing of an older answer is. */
  function Kept(info: KeyInfo): map<Version, PublicKey> {
    var versions := Take(Descending(info.publicKeys.Keys), MAX_CACHED_PUBLIC_KEYS);
    map v | v in versions && v in info.publicKeys :: info.publicKeys[v]
  }

  lemma KeptMirrors(info: KeyInfo)
    requires Coherent(info)
    ensures Mirrors(Kept(info), info.latestVersion, Some(info))
    ensures AreHighest(Kept(info).Keys, info.publicKeys.Keys, 32)
  {
    var vs := info.publicKeys.Keys;
    CutKeepsHighest(vs, MAX_CACHED_PUBLIC_KEYS);
    var kept := Elements(Take(Descending(vs), MAX_CACHED_PUBLIC_KEYS));
    assert Kept(info).Keys == kept;
    LatestIsKept(info, kept, MAX_CACHED_PUBLIC_KEYS);
  }
}
