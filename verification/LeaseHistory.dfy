/** Leases over any sequence of calls: each leaves once and is recorded once, and a token seen
    twice is one lease that was there all along. */
module LeaseHistory {
  import opened Prelude
  import opened Leases

  /** The table, every token ever given to a lease, every lease that left, in order. */
  datatype History = History(leases: Table, issued: set<Token>, gone: seq<Gone>)

  const NO_LEASES := History(map[], {}, [])

  /** Random tokens do not repeat; iteration is as a map's. */
  predicate Allowed(h: History, c: Call) {
    && (c.Acquire? ==> c.minted !in h.issued)
    && (c.ReleaseUserInProject? ==> Enumerates(c.order, h.leases, c.userId, c.projectId))
  }

  function Next(h: History, c: Call): History
    requires Allowed(h, c)
  {
    RemovedArePresent(h.leases, c);
    var t' := After(h.leases, c);
    History(t',
            if c.Acquire? && c.key in t' && t'[c.key].token == c.minted then h.issued + {c.minted} else h.issued,
            h.gone + Departures(h.leases, Removed(h.leases, c)))
  }

  function RunFrom(h: History, cs: seq<Call>): Option<History>
    decreases |cs|
  {
    if cs == [] then Some(h)
    else if Allowed(h, cs[0]) then RunFrom(Next(h, cs[0]), cs[1..])
    else None
  }

  predicate HeldAt(h: History, token: Token, key: Key) {
    key in h.leases && h.leases[key].token == token
  }

  predicate LeftAt(h: History, token: Token, i: int) {
    0 <= i < |h.gone| && h.gone[i].lease.token == token
  }

  /** Tokens tell leases apart, among those present, those gone, and across. */
  ghost predicate Accounted(h: History) {
    && (forall k :: k in h.leases ==> h.leases[k].token in h.issued)
    && (forall i :: 0 <= i < |h.gone| ==> h.gone[i].lease.token in h.issued)
    && (forall k, l :: k in h.leases && l in h.leases && h.leases[k].token == h.leases[l].token ==> k == l)
    && (forall i, j :: 0 <= i < j < |h.gone| ==> h.gone[i].lease.token != h.gone[j].lease.token)
    && (forall k, i :: k in h.leases && 0 <= i < |h.gone| ==> h.leases[k].token != h.gone[i].lease.token)
    && (forall token :: token in h.issued ==> (exists k :: HeldAt(h, token, k)) || (exists i :: LeftAt(h, token, i)))
  }

  function Drop(h: History, keys: seq<Key>): History
    requires forall k :: k in keys ==> k in h.leases
  {
    History(h.leases - KeySet(keys), h.issued, h.gone + Departures(h.leases, keys))
  }

  lemma DropAccounted(h: History, keys: seq<Key>)
    requires Accounted(h)
    requires forall k :: k in keys ==> k in h.leases
    requires forall i, j :: 0 <= i < j < |keys| ==> keys[i] != keys[j]
    ensures Accounted(Drop(h, keys))
  {
    var h', n := Drop(h, keys), |h.gone|;
    assert forall i :: 0 <= i < n ==> h'.gone[i] == h.gone[i];
    assert forall i :: n <= i < |h'.gone| ==> h'.gone[i] == Gone(keys[i - n], h.leases[keys[i - n]]);
    forall k, i | k in h'.leases && 0 <= i < |h'.gone| ensures h'.leases[k].token != h'.gone[i].lease.token {
      if n <= i {
        assert keys[i - n] in h.leases && keys[i - n] != k;
      }
    }
    forall i, j | 0 <= i < j < |h'.gone| ensures h'.gone[i].lease.token != h'.gone[j].lease.token {
      if n <= j {
        assert keys[j - n] in h.leases;
      }
    }
    forall token | token in h'.issued
      ensures (exists k :: HeldAt(h', token, k)) || (exists i :: LeftAt(h', token, i))
    {
      DropKeepsTrack(h, keys, token);
    }
  }

  lemma DropKeepsTrack(h: History, keys: seq<Key>, token: Token)
    requires Accounted(h) && token in h.issued
    requires forall k :: k in keys ==> k in h.leases
    ensures var h' := Drop(h, keys);
            (exists k :: HeldAt(h', token, k)) || (exists i :: LeftAt(h', token, i))
  {
    var h' := Drop(h, keys);
    if i :| LeftAt(h, token, i) {
      assert LeftAt(h', token, i);
    } else {
      var k :| HeldAt(h, token, k);
      if k in keys {
        var i :| 0 <= i < |keys| && keys[i] == k;
        assert LeftAt(h', token, |h.gone| + i);
      } else {
        assert HeldAt(h', token, k);
      }
    }
  }

  lemma ExtendAccounted(h: History, key: Key, now: int)
    requires Accounted(h) && key in h.leases
    ensures Accounted(h.(leases := Extend(h.leases, key, now)))
  {
    var h' := h.(leases := Extend(h.leases, key, now));
    forall token | token in h'.issued
      ensures (exists k :: HeldAt(h', token, k)) || (exists i :: LeftAt(h', token, i))
    {
      if i :| LeftAt(h, token, i) {
        assert LeftAt(h', token, i);
      } else {
        var k :| HeldAt(h, token, k);
        assert HeldAt(h', token, k);
      }
    }
  }

  lemma CreateAccounted(h: History, key: Key, l: Lease)
    requires Accounted(h) && key !in h.leases && l.token !in h.issued
    ensures Accounted(h.(leases := h.leases[key := l], issued := h.issued + {l.token}))
  {
    var h' := h.(leases := h.leases[key := l], issued := h.issued + {l.token});
    forall token | token in h'.issued
      ensures (exists k :: HeldAt(h', token, k)) || (exists i :: LeftAt(h', token, i))
    {
      if token == l.token {
        assert HeldAt(h', token, key);
      } else if i :| LeftAt(h, token, i) {
        assert LeftAt(h', token, i);
      } else {
        var k :| HeldAt(h, token, k);
        assert HeldAt(h', token, k);
      }
    }
  }

  lemma NextAccounted(h: History, c: Call)
    requires Accounted(h) && Allowed(h, c)
    ensures Accounted(Next(h, c))
  {
    RemovedArePresent(h.leases, c);
    DropAccounted(h, Removed(h.leases, c));
    var left, h' := Drop(h, Removed(h.leases, c)), Next(h, c);
    if c.Acquire? && c.key !in left.leases {
      CreateAccounted(left, c.key, h'.leases[c.key]);
    } else if (c.Acquire? || c.Renew?) && h'.leases != left.leases {
      ExtendAccounted(left, c.key, c.now);
    }
  }

  lemma {:induction false} RunAccounted(h: History, cs: seq<Call>)
    requires Accounted(h) && RunFrom(h, cs).Some?
    ensures Accounted(RunFrom(h, cs).value)
    decreases |cs|
  {
    if cs != [] {
      NextAccounted(h, cs[0]);
      RunAccounted(Next(h, cs[0]), cs[1..]);
    }
  }

  /** Every lease ever made is at one key, or has left and been recorded exactly once. */
  lemma EveryLeaseLeavesOnce(cs: seq<Call>, token: Token)
    requires RunFrom(NO_LEASES, cs).Some?
    ensures var h := RunFrom(NO_LEASES, cs).value;
            token in h.issued ==>
              || (exists k :: HeldAt(h, token, k) && (forall l :: HeldAt(h, token, l) ==> l == k)
                              && (forall i :: !LeftAt(h, token, i)))
              || (exists i :: LeftAt(h, token, i) && (forall j :: LeftAt(h, token, j) ==> j == i)
                              && (forall k :: !HeldAt(h, token, k)))
  {
    RunAccounted(NO_LEASES, cs);
    var h := RunFrom(NO_LEASES, cs).value;
    if token in h.issued {
      if k :| HeldAt(h, token, k) {
        assert forall l :: HeldAt(h, token, l) ==> l == k;
      } else {
        var i :| LeftAt(h, token, i);
        assert forall j :: LeftAt(h, token, j) ==> j == i;
      }
    }
  }

  /** A lease that a call does not let go stays with its holder and token. */
  lemma OthersStay(t: Table, c: Call, key: Key)
    requires key in t && key !in Removed(t, c)
    ensures key in After(t, c) && After(t, c)[key].holder == t[key].holder && After(t, c)[key].token == t[key].token
  {
  }

  /** One call keeps a lease with its holder, or records its departure. */
  lemma StepKeepsOrRecords(h: History, c: Call, token: Token, key: Key)
    requires Accounted(h) && Allowed(h, c) && HeldAt(h, token, key)
    ensures var h' := Next(h, c);
            || (HeldAt(h', token, key) && h'.leases[key].holder == h.leases[key].holder)
            || (exists i :: LeftAt(h', token, i))
  {
    RemovedArePresent(h.leases, c);
    var removed, h' := Removed(h.leases, c), Next(h, c);
    if key in removed {
      var i :| 0 <= i < |removed| && removed[i] == key;
      assert LeftAt(h', token, |h.gone| + i);
    } else {
      OthersStay(h.leases, c, key);
    }
  }

  lemma {:induction false} DeparturesStay(h: History, cs: seq<Call>)
    requires RunFrom(h, cs).Some?
    ensures h.gone <= RunFrom(h, cs).value.gone
    decreases |cs|
  {
    if cs != [] {
      DeparturesStay(Next(h, cs[0]), cs[1..]);
    }
  }

  /** A token seen at two times is the same lease at the same key for the same holder, and
      it was there the whole time: leases do not come back. */
  lemma {:induction false} TokenMeansSameLease(h: History, cs: seq<Call>, token: Token, key: Key, later: Key, n: nat)
    requires Accounted(h) && RunFrom(h, cs).Some? && n <= |cs|
    requires HeldAt(h, token, key) && HeldAt(RunFrom(h, cs).value, token, later)
    ensures key == later && RunFrom(h, cs).value.leases[key].holder == h.leases[key].holder
    ensures RunFrom(h, cs[..n]).Some? && HeldAt(RunFrom(h, cs[..n]).value, token, key)
    decreases |cs|
  {
    if cs != [] {
      var h1 := Next(h, cs[0]);
      NextAccounted(h, cs[0]);
      RunAccounted(h1, cs[1..]);
      StepKeepsOrRecords(h, cs[0], token, key);
      if i :| LeftAt(h1, token, i) {
        DeparturesStay(h1, cs[1..]);
        assert false;
      } else {
        TokenMeansSameLease(h1, cs[1..], token, key, later, if n == 0 then 0 else n - 1);
        if n > 0 {
          assert cs[..n][1..] == cs[1..][..n - 1];
        }
      }
    }
  }

  /** withValidatedLease: whatever calls happen while authorize runs, if the second check
      passes then the operation starts on the very lease the first check saw - same user,
      same project - still unexpired, although the second check compares only the token. */
  lemma SecondCheckSuffices(h: History, cs: seq<Call>, projectId: ProjectId, key: Key, userId: UserId,
                            token: Option<Token>, now: int, later: int)
    requires Accounted(h) && RunFrom(h, cs).Some?
    requires Valid(h.leases, projectId, key, userId, token, now)
    requires StillValid(RunFrom(h, cs).value.leases, key, token, later)
    ensures Valid(RunFrom(h, cs).value.leases, projectId, key, userId, token, later)
    ensures RunFrom(h, cs).value.leases[key].holder == h.leases[key].holder
  {
    TokenMeansSameLease(h, cs, token.value, key, key, 0);
  }
}
