/** The per-resource mutex built from a chain of promises (KeyedCoordinator).

    A ticket is the identity of the promise pair created by one acquire call; the table of
    tickets is the promise heap, which only grows. `tails` is the program's map. */
module KeyLock {
  import opened Prelude

  type Key = string
  type Ticket = nat

  /** One acquire call: the tail it found, whether its await returned, whether it released. */
  datatype Cell = Cell(key: Key, op: nat, previous: Option<Ticket>, entered: bool, released: bool)

  datatype Keyed = Keyed(tails: map<Key, Ticket>, cells: seq<Cell>)

  const EMPTY := Keyed(map[], [])

  // ----- The program's steps -----

  /** Up to the await: read the tail, chain a new promise behind it and publish that. */
  function Join(s: Keyed, key: Key, op: nat): Keyed {
    var previous := if key in s.tails then Some(s.tails[key]) else None;
    Keyed(s.tails[key := |s.cells|], s.cells + [Cell(key, op, previous, false, false)])
  }

  /** Whether the promise `previous.then(() => current)` of a ticket has settled. */
  predicate Settled(cells: seq<Cell>, t: Ticket)
    decreases t
  {
    && t < |cells|
    && cells[t].released
    && (cells[t].previous.Some? ==> cells[t].previous.value < t && Settled(cells, cells[t].previous.value))
  }

  predicate CanEnter(s: Keyed, t: Ticket) {
    && t < |s.cells|
    && !s.cells[t].entered
    && (s.cells[t].previous.Some? ==> Settled(s.cells, s.cells[t].previous.value))
  }

  /** The await returned. */
  function Enter(s: Keyed, t: Ticket): Keyed
    requires t < |s.cells|
  {
    s.(cells := s.cells[t := s.cells[t].(entered := true)])
  }

  /** Resolve the promise, and forget the key if nobody chained behind it. */
  function Release(s: Keyed, t: Ticket): Keyed
    requires t < |s.cells|
  {
    var key := s.cells[t].key;
    Keyed(if key in s.tails && s.tails[key] == t then s.tails - {key} else s.tails,
          s.cells[t := s.cells[t].(released := true)])
  }

  // ----- Invariant -----

  predicate Busy(cells: seq<Cell>, t: Ticket) {
    t < |cells| && !cells[t].released
  }

  /** A key is in the table exactly when its newest ticket is unreleased. */
  predicate TailsOk(s: Keyed) {
    && (forall k :: k in s.tails ==>
          && Busy(s.cells, s.tails[k])
          && s.cells[s.tails[k]].key == k
          && (forall j :: s.tails[k] < j < |s.cells| ==> s.cells[j].key != k))
    && (forall t :: 0 <= t < |s.cells| && !s.cells[t].released ==> s.cells[t].key in s.tails)
  }

  /** A ticket is chained behind the previous ticket of its key, or had no live one. */
  predicate ChainOk(cells: seq<Cell>) {
    forall t :: 0 <= t < |cells| ==>
      match cells[t].previous
      case Some(p) =>
        && p < t && cells[p].key == cells[t].key
        && (forall j :: p < j < t ==> cells[j].key != cells[t].key)
      case None => forall j :: 0 <= j < t && cells[j].key == cells[t].key ==> cells[j].released
  }

  /** Service is in ticket order: an entered ticket finds every earlier one released. */
  predicate ServedInOrder(cells: seq<Cell>) {
    && (forall i, t :: 0 <= i < t < |cells| && cells[t].entered && cells[i].key == cells[t].key
          ==> cells[i].released)
    && (forall t :: 0 <= t < |cells| && cells[t].released ==> cells[t].entered)
  }

  predicate Inv(s: Keyed) {
    TailsOk(s) && ChainOk(s.cells) && ServedInOrder(s.cells)
  }

  // ----- Properties of one state -----

  lemma {:induction false} SettledIsReleased(s: Keyed, t: Ticket)
    requires Inv(s) && t < |s.cells|
    ensures Settled(s.cells, t) <==> s.cells[t].released
    decreases t
  {
    if s.cells[t].released && s.cells[t].previous.Some? {
      var p := s.cells[t].previous.value;
      assert p < t && s.cells[p].key == s.cells[t].key;
      assert s.cells[t].entered;
      SettledIsReleased(s, p);
    }
  }

  lemma EarlierAreReleased(cells: seq<Cell>, t: Ticket, p: Ticket)
    requires ChainOk(cells) && ServedInOrder(cells) && t < |cells|
    requires cells[t].previous == Some(p) && p < |cells| && cells[p].entered && cells[p].released
    ensures forall i :: 0 <= i < t && cells[i].key == cells[t].key ==> cells[i].released
  {
  }

  /** If the promise before has settled, so has every earlier ticket of the key. */
  lemma SettledMeansFirst(s: Keyed, t: Ticket)
    requires Inv(s) && CanEnter(s, t)
    ensures forall i :: 0 <= i < t && s.cells[i].key == s.cells[t].key ==> s.cells[i].released
  {
    if s.cells[t].previous.Some? {
      var p := s.cells[t].previous.value;
      assert p < t && s.cells[p].key == s.cells[t].key;
      SettledIsReleased(s, p);
      EarlierAreReleased(s.cells, t, p);
    }
  }

  lemma FirstMeansSettled(s: Keyed, t: Ticket)
    requires Inv(s) && t < |s.cells| && !s.cells[t].entered
    requires forall i :: 0 <= i < t && s.cells[i].key == s.cells[t].key ==> s.cells[i].released
    ensures CanEnter(s, t)
  {
    if s.cells[t].previous.Some? {
      var p := s.cells[t].previous.value;
      assert p < t && s.cells[p].key == s.cells[t].key;
      SettledIsReleased(s, p);
    }
  }

  /** No lost wake-up: a ticket's await has returned or can return exactly when every earlier
      ticket of its key is released. */
  lemma EntersWhenFirst(s: Keyed, t: Ticket)
    requires Inv(s) && t < |s.cells| && !s.cells[t].entered
    ensures CanEnter(s, t) <==>
            forall i :: 0 <= i < t && s.cells[i].key == s.cells[t].key ==> s.cells[i].released
  {
    if CanEnter(s, t) {
      SettledMeansFirst(s, t);
    } else if forall i :: 0 <= i < t && s.cells[i].key == s.cells[t].key ==> s.cells[i].released {
      FirstMeansSettled(s, t);
    }
  }

  /** The table holds exactly the keys that somebody holds or waits for. */
  lemma TableHasNoIdleKeys(s: Keyed, key: Key)
    requires Inv(s)
    ensures key in s.tails <==> exists t: nat :: Busy(s.cells, t) && s.cells[t].key == key
  {
    if key in s.tails {
      assert Busy(s.cells, s.tails[key]);
    }
  }

  /** Some unreleased ticket of every busy key has entered or can enter. */
  lemma SomebodyIsNext(s: Keyed, t: Ticket) returns (first: Ticket)
    requires Inv(s) && Busy(s.cells, t)
    ensures first <= t && Busy(s.cells, first) && s.cells[first].key == s.cells[t].key
    ensures s.cells[first].entered || CanEnter(s, first)
    decreases t
  {
    if s.cells[t].entered {
      return t;
    }
    EntersWhenFirst(s, t);
    if CanEnter(s, t) {
      return t;
    }
    var i :| 0 <= i < t && s.cells[i].key == s.cells[t].key && !s.cells[i].released;
    first := SomebodyIsNext(s, i);
  }

  // ----- Preservation -----

  lemma JoinKeepsTails(s: Keyed, key: Key, op: nat)
    requires TailsOk(s)
    ensures TailsOk(Join(s, key, op))
  {
    var s' := Join(s, key, op);
    assert forall i :: 0 <= i < |s.cells| ==> s'.cells[i] == s.cells[i];
    forall k | k in s'.tails
      ensures Busy(s'.cells, s'.tails[k]) && s'.cells[s'.tails[k]].key == k
      ensures forall j :: s'.tails[k] < j < |s'.cells| ==> s'.cells[j].key != k
    {
      if k != key {
        assert k in s.tails && Busy(s.cells, s.tails[k]);
      }
    }
  }

  lemma JoinKeepsChain(s: Keyed, key: Key, op: nat)
    requires TailsOk(s) && ChainOk(s.cells)
    ensures ChainOk(Join(s, key, op).cells)
  {
    var cells := Join(s, key, op).cells;
    var n := |s.cells|;
    assert forall i :: 0 <= i < n ==> cells[i] == s.cells[i];
    if key in s.tails {
      assert Busy(s.cells, s.tails[key]);
    } else {
      forall i | 0 <= i < n && s.cells[i].key == key
        ensures s.cells[i].released
      {
      }
    }
  }

  lemma JoinKeepsService(s: Keyed, key: Key, op: nat)
    requires ServedInOrder(s.cells)
    ensures ServedInOrder(Join(s, key, op).cells)
  {
    assert forall i :: 0 <= i < |s.cells| ==> Join(s, key, op).cells[i] == s.cells[i];
  }

  lemma JoinPreserves(s: Keyed, key: Key, op: nat)
    requires Inv(s)
    ensures Inv(Join(s, key, op))
  {
    JoinKeepsTails(s, key, op);
    JoinKeepsChain(s, key, op);
    JoinKeepsService(s, key, op);
  }

  lemma EnterKeepsTails(s: Keyed, t: Ticket)
    requires TailsOk(s) && t < |s.cells|
    ensures TailsOk(Enter(s, t))
  {
    var s' := Enter(s, t);
    assert forall i :: 0 <= i < |s.cells| ==> s'.cells[i].(entered := s.cells[i].entered) == s.cells[i];
    assert forall k :: k in s.tails ==> Busy(s.cells, s.tails[k]);
  }

  lemma EnterKeepsChain(s: Keyed, t: Ticket)
    requires ChainOk(s.cells) && t < |s.cells|
    ensures ChainOk(Enter(s, t).cells)
  {
    var s' := Enter(s, t);
    assert forall i :: 0 <= i < |s.cells| ==> s'.cells[i].(entered := s.cells[i].entered) == s.cells[i];
    forall i | 0 <= i < |s'.cells| && s'.cells[i].previous.None?
      ensures forall j :: 0 <= j < i && s'.cells[j].key == s'.cells[i].key ==> s'.cells[j].released
    {
      assert s.cells[i].previous.None?;
    }
  }

  lemma EnterPreserves(s: Keyed, t: Ticket)
    requires Inv(s) && CanEnter(s, t)
    ensures Inv(Enter(s, t))
  {
    EntersWhenFirst(s, t);
    EnterKeepsTails(s, t);
    EnterKeepsChain(s, t);
    var s' := Enter(s, t);
    assert forall i :: 0 <= i < |s.cells| ==> s'.cells[i].(entered := s.cells[i].entered) == s.cells[i];
  }

  lemma ReleaseKeepsChain(s: Keyed, t: Ticket)
    requires ChainOk(s.cells) && t < |s.cells|
    ensures ChainOk(Release(s, t).cells)
  {
    var cells := Release(s, t).cells;
    assert forall i :: 0 <= i < |s.cells| ==> cells[i].(released := s.cells[i].released) == s.cells[i];
    forall i | 0 <= i < |cells| && cells[i].previous.None?
      ensures forall j :: 0 <= j < i && cells[j].key == cells[i].key ==> cells[j].released
    {
      assert s.cells[i].previous.None?;
    }
  }

  lemma ReleaseKeepsService(s: Keyed, t: Ticket)
    requires ServedInOrder(s.cells) && t < |s.cells| && s.cells[t].entered
    ensures ServedInOrder(Release(s, t).cells)
  {
    var cells := Release(s, t).cells;
    assert forall i :: 0 <= i < |s.cells| ==> cells[i].(released := s.cells[i].released) == s.cells[i];
  }

  lemma ReleasePreserves(s: Keyed, t: Ticket)
    requires Inv(s) && Busy(s.cells, t) && s.cells[t].entered
    ensures Inv(Release(s, t))
  {
    ReleaseKeepsTails(s, t);
    ReleaseKeepsChain(s, t);
    ReleaseKeepsService(s, t);
  }

  lemma ReleaseKeepsTails(s: Keyed, t: Ticket)
    requires TailsOk(s) && ServedInOrder(s.cells) && Busy(s.cells, t) && s.cells[t].entered
    ensures TailsOk(Release(s, t))
  {
    var s' := Release(s, t);
    forall k | k in s'.tails
      ensures Busy(s'.cells, s'.tails[k]) && s'.cells[s'.tails[k]].key == k
      ensures forall j :: s'.tails[k] < j < |s'.cells| ==> s'.cells[j].key != k
    {
      assert k in s.tails && s.cells[s.tails[k]].key == k;
    }
    forall i | 0 <= i < |s'.cells| && !s'.cells[i].released ensures s'.cells[i].key in s'.tails {
      assert !s.cells[i].released && s.cells[i].key in s.tails;
    }
  }
}
