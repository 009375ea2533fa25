/** Which request of a run acts where: in the serial order every committed request stands once, at a
    moment between its read and its commit. */
module BoardActs {
  import opened Prelude
  import opened Board
  import opened BoardRuns
  import opened BoardSerial

  // ---------------------------------------------------------------- the moments of a run

  /** The state that event `i` finds. */
  function StateAt(es: seq<Event>, i: nat): State
    requires i <= |es|
  {
    RunFrom(EMPTY_BOARD, es[..i]).GetOr(EMPTY_BOARD)
  }

  lemma {:induction false} RunAppend(st: State, es: seq<Event>, e: Event)
    ensures RunFrom(st, es + [e]) == if RunFrom(st, es).None? then None else Next(RunFrom(st, es).value, e)
    decreases |es|
  {
    if es == [] {
      assert es + [e] == [e] && [e][1..] == [];
    } else {
      assert (es + [e])[1..] == es[1..] + [e];
      if Next(st, es[0]).Some? {
        RunAppend(Next(st, es[0]).value, es[1..], e);
      }
    }
  }

  lemma {:induction false} PrefixRuns(es: seq<Event>, i: nat)
    requires RunFrom(EMPTY_BOARD, es).Some? && i <= |es|
    ensures RunFrom(EMPTY_BOARD, es[..i]).Some?
    decreases |es| - i
  {
    if i == |es| {
      assert es[..i] == es;
    } else {
      PrefixRuns(es, i + 1);
      assert es[..i + 1] == es[..i] + [es[i]];
      RunAppend(EMPTY_BOARD, es[..i], es[i]);
    }
  }

  lemma StepAt(es: seq<Event>, i: nat)
    requires RunFrom(EMPTY_BOARD, es).Some? && i < |es|
    ensures Next(StateAt(es, i), es[i]) == Some(StateAt(es, i + 1))
  {
    PrefixRuns(es, i + 1);
    assert es[..i + 1] == es[..i] + [es[i]];
    RunAppend(EMPTY_BOARD, es[..i], es[i]);
  }

  /** What event `i` serves in the serial order. */
  function ActAt(es: seq<Event>, i: nat): seq<Request>
    requires i < |es|
  {
    Acts(StateAt(es, i), es[i], es[i + 1..])
  }

  predicate IsCommit(es: seq<Event>, j: int) {
    0 <= j < |es| && !es[j].Find?
  }

  /** The request that event `j` commits, for the task that it read. */
  function Asked(es: seq<Event>, j: nat): Option<Request>
    requires j < |es|
  {
    var found := StateAt(es, j).found;
    match es[j]
    case Create(id, project, status, rank) => Some(CreateOne(id, project, status, rank))
    case Find(_, _, _) => None
    case Patch(q, requested, wanted) =>
      if q in found then Some(PatchOne(found[q].id, found[q].row.project, requested, wanted)) else None
    case Remove(q) => if q in found then Some(RemoveOne(found[q].id, found[q].row.project)) else None
  }

  /** The last read of the request before event `n`. */
  function LastFind(es: seq<Event>, q: nat, n: nat): int
    requires n <= |es|
  {
    if n == 0 then -1
    else if es[n - 1].Find? && es[n - 1].request == q then n - 1
    else LastFind(es, q, n - 1)
  }

  /** Where the request that event `j` commits began; a creation reads nothing before. */
  function ReadAt(es: seq<Event>, j: nat): int
    requires j < |es|
  {
    if es[j].Create? || es[j].Find? then j else LastFind(es, es[j].request, j)
  }

  predicate Skipped(es: seq<Event>, j: nat)
    requires j < |es|
  {
    && es[j].Patch?
    && es[j].request in StateAt(es, j).found
    && !IsMoving(StateAt(es, j).found[es[j].request].row, es[j].requested, es[j].wanted)
  }

  /** The moment that stands for the request that event `j` commits. */
  function ActsAt(es: seq<Event>, j: nat): int
    requires j < |es|
  {
    if Skipped(es, j) then ReadAt(es, j) else j
  }

  // ---------------------------------------------------------------- a read and its commit

  predicate Ends(e: Event, q: nat) {
    (e.Patch? || e.Remove?) && e.request == q
  }

  /** A read is recorded once and kept until its request ends. */
  lemma FoundStep(st: State, e: Event, q: nat)
    requires Next(st, e).Some?
    ensures var found := Next(st, e).value.found;
            if q in st.found
            then
              && !(e.Find? && e.request == q)
              && if Ends(e, q) then q !in found else q in found && found[q] == st.found[q]
            else q in found ==>
              && e.Find? && e.request == q && e.id in st.rows && st.rows[e.id].project == e.project
              && found[q] == Read(e.id, st.rows[e.id])
  {
  }

  /** What the state keeps of a request is the row at its last read, and it has not ended since. */
  predicate ReadStands(es: seq<Event>, q: nat, n: nat)
    requires n <= |es|
  {
    q in StateAt(es, n).found ==>
      var i := LastFind(es, q, n);
      && 0 <= i < n && es[i].Find? && es[i].request == q
      && es[i].id in StateAt(es, i).rows
      && StateAt(es, i).rows[es[i].id].project == es[i].project
      && StateAt(es, n).found[q] == Read(es[i].id, StateAt(es, i).rows[es[i].id])
      && forall m :: i < m < n ==> !Ends(es[m], q)
  }

  lemma ReadStandsOn(es: seq<Event>, q: nat, n: nat)
    requires RunFrom(EMPTY_BOARD, es).Some? && n < |es| && ReadStands(es, q, n)
    ensures ReadStands(es, q, n + 1)
  {
    StepAt(es, n);
    FoundStep(StateAt(es, n), es[n], q);
  }

  lemma {:induction false} ReadsStand(es: seq<Event>, q: nat, n: nat)
    requires RunFrom(EMPTY_BOARD, es).Some? && n <= |es|
    ensures ReadStands(es, q, n)
  {
    if n == 0 {
      assert es[..0] == [];
    } else {
      ReadsStand(es, q, n - 1);
      ReadStandsOn(es, q, n - 1);
    }
  }

  lemma {:induction false} FirstEnd(es: seq<Event>, q: nat, n: nat)
    requires n < |es| && Ends(es[n], q)
    requires forall m :: 0 <= m < n ==> !Ends(es[m], q)
    ensures CommitOf(es, q) == Some(es[n])
  {
    if n > 0 {
      assert !Ends(es[0], q);
      FirstEnd(es[1..], q, n - 1);
    }
  }

  lemma {:induction false} EndOf(es: seq<Event>, q: nat) returns (n: nat)
    requires CommitOf(es, q).Some?
    ensures n < |es| && Ends(es[n], q) && CommitOf(es, q) == Some(es[n])
    ensures forall m :: 0 <= m < n ==> !Ends(es[m], q)
  {
    if Ends(es[0], q) {
      n := 0;
    } else {
      n := EndOf(es[1..], q);
      n := n + 1;
      forall m | 0 <= m < n ensures !Ends(es[m], q) {
        assert m > 0 ==> es[m] == es[1..][m - 1];
      }
    }
  }

  /** The commit of a request is the one its read looks forward to. */
  lemma ReadSeesCommit(es: seq<Event>, j: nat)
    requires RunFrom(EMPTY_BOARD, es).Some? && j < |es| && (es[j].Patch? || es[j].Remove?)
    ensures es[j].request in StateAt(es, j).found
    ensures 0 <= ReadAt(es, j) < j && CommitOf(es[ReadAt(es, j) + 1..], es[j].request) == Some(es[j])
  {
    StepAt(es, j);
    ReadsStand(es, es[j].request, j);
    var i := ReadAt(es, j);
    var later := es[i + 1..];
    forall m | 0 <= m < j - i - 1 ensures !Ends(later[m], es[j].request) {
      assert later[m] == es[i + 1 + m];
    }
    FirstEnd(later, es[j].request, j - i - 1);
  }

  lemma FoundStaysOn(es: seq<Event>, q: nat, n: nat)
    requires RunFrom(EMPTY_BOARD, es).Some? && n < |es|
    requires q in StateAt(es, n).found && !Ends(es[n], q)
    ensures q in StateAt(es, n + 1).found && LastFind(es, q, n + 1) == LastFind(es, q, n)
  {
    StepAt(es, n);
    FoundStep(StateAt(es, n), es[n], q);
  }

  /** A read that has not ended is the last one of its request. */
  lemma {:induction false} FoundStays(es: seq<Event>, i: nat, n: nat)
    requires RunFrom(EMPTY_BOARD, es).Some? && i < n <= |es|
    requires es[i].Find? && es[i].request in StateAt(es, i + 1).found
    requires forall m :: i < m < n ==> !Ends(es[m], es[i].request)
    ensures es[i].request in StateAt(es, n).found && LastFind(es, es[i].request, n) == i
    decreases n
  {
    if n > i + 1 {
      FoundStays(es, i, n - 1);
      FoundStaysOn(es, es[i].request, n - 1);
    }
  }

  // ---------------------------------------------------------------- every commit acts once

  predicate InItsSpan(es: seq<Event>, j: nat)
    requires j < |es|
  {
    && Asked(es, j).Some?
    && 0 <= ReadAt(es, j) <= ActsAt(es, j) <= j
    && ActAt(es, ActsAt(es, j)) == [Asked(es, j).value]
  }

  lemma CommitActs(es: seq<Event>, j: nat)
    requires RunFrom(EMPTY_BOARD, es).Some? && IsCommit(es, j)
    ensures InItsSpan(es, j)
  {
    if !es[j].Create? {
      ReadSeesCommit(es, j);
      ReadsStand(es, es[j].request, j);
    }
  }

  lemma ActIsACommits(es: seq<Event>, i: nat) returns (j: nat)
    requires RunFrom(EMPTY_BOARD, es).Some? && i < |es| && ActAt(es, i) != []
    ensures IsCommit(es, j) && ActsAt(es, j) == i
  {
    if es[i].Find? {
      var q := es[i].request;
      var n := EndOf(es[i + 1..], q);
      j := i + 1 + n;
      StepAt(es, i);
      forall m | i < m < j ensures !Ends(es[m], q) {
        assert es[m] == es[i + 1..][m - i - 1];
      }
      FoundStays(es, i, j);
      ReadsStand(es, q, j);
    } else {
      j := i;
    }
  }

  lemma ActsOfOne(es: seq<Event>, j: nat, k: nat)
    requires RunFrom(EMPTY_BOARD, es).Some? && IsCommit(es, j) && IsCommit(es, k)
    requires ActsAt(es, j) == ActsAt(es, k)
    ensures j == k
  {
    CommitActs(es, j);
    CommitActs(es, k);
    if Skipped(es, j) && Skipped(es, k) {
      ReadSeesCommit(es, j);
      ReadSeesCommit(es, k);
      ReadsStand(es, es[j].request, j);
      ReadsStand(es, es[k].request, k);
      assert Ends(es[j], es[j].request) && Ends(es[k], es[k].request);
    } else if Skipped(es, j) {
      ReadSeesCommit(es, j);
      ReadsStand(es, es[j].request, j);
    } else if Skipped(es, k) {
      ReadSeesCommit(es, k);
      ReadsStand(es, es[k].request, k);
    }
  }

  /** What the first `n` events serve, in the order of the events. */
  function ActsUpTo(es: seq<Event>, n: nat): seq<Request>
    requires n <= |es|
  {
    if n == 0 then [] else ActsUpTo(es, n - 1) + ActAt(es, n - 1)
  }

  lemma SerialFrom(es: seq<Event>, n: nat)
    requires RunFrom(EMPTY_BOARD, es).Some? && n < |es|
    ensures Serialize(StateAt(es, n), es[n..]) == ActAt(es, n) + Serialize(StateAt(es, n + 1), es[n + 1..])
  {
    StepAt(es, n);
    assert es[n..][0] == es[n] && es[n..][1..] == es[n + 1..];
  }

  lemma {:induction false} SerialIsActs(es: seq<Event>, n: nat)
    requires RunFrom(EMPTY_BOARD, es).Some? && n <= |es|
    ensures ActsUpTo(es, n) + Serialize(StateAt(es, n), es[n..]) == ActsUpTo(es, |es|)
    decreases |es| - n
  {
    if n < |es| {
      SerialFrom(es, n);
      SerialIsActs(es, n + 1);
      Regroup(ActsUpTo(es, n), ActAt(es, n), Serialize(StateAt(es, n + 1), es[n + 1..]));
    }
  }

  // ---------------------------------------------------------------- as many acts as commits

  function Commits(es: seq<Event>): nat {
    if es == [] then 0 else (if es[0].Find? then 0 else 1) + Commits(es[1..])
  }

  /** The requests that acted when they read and have not committed. */
  function Owed(st: State, es: seq<Event>): set<nat> {
    set q | q in st.found && OwedHere(st, es, q)
  }

  predicate OwedHere(st: State, es: seq<Event>, q: nat) {
    q in st.found && WillSkip(es, q, st.found[q].row)
  }

  lemma CommitAfter(e: Event, later: seq<Event>, q: nat)
    ensures CommitOf([e] + later, q)
            == if (e.Patch? || e.Remove?) && e.request == q then Some(e) else CommitOf(later, q)
  {
    assert ([e] + later)[1..] == later;
  }

  lemma OwedElsewhere(st: State, e: Event, later: seq<Event>, q: nat)
    requires Next(st, e).Some?
    requires e.Create? || e.request != q
    ensures OwedHere(st, [e] + later, q) <==> OwedHere(Next(st, e).value, later, q)
  {
    CommitAfter(e, later, q);
  }

  /** The requests owed before and after differ at most in the one of the event. */
  lemma OwedBut(st: State, e: Event, later: seq<Event>)
    requires Next(st, e).Some? && !e.Create?
    ensures Owed(Next(st, e).value, later) - {e.request} == Owed(st, [e] + later) - {e.request}
  {
    forall q | q != e.request
      ensures q in Owed(st, [e] + later) <==> q in Owed(Next(st, e).value, later)
    {
      OwedElsewhere(st, e, later, q);
    }
  }

  lemma CountWithout(a: set<nat>, x: nat)
    ensures |a| == |a - {x}| + if x in a then 1 else 0
  {
    if x in a {
      assert a == (a - {x}) + {x};
    } else {
      assert a - {x} == a;
    }
  }

  lemma OwedAfterFind(st: State, e: Event, later: seq<Event>)
    requires e.Find? && Next(st, e).Some?
    ensures |Acts(st, e, later)| + |Owed(st, [e] + later)| == |Owed(Next(st, e).value, later)|
  {
    OwedBut(st, e, later);
    CountWithout(Owed(st, [e] + later), e.request);
    CountWithout(Owed(Next(st, e).value, later), e.request);
  }

  lemma OwedAfterCommit(st: State, e: Event, later: seq<Event>)
    requires (e.Patch? || e.Remove?) && Next(st, e).Some?
    ensures |Acts(st, e, later)| + |Owed(st, [e] + later)| == 1 + |Owed(Next(st, e).value, later)|
  {
    CommitAfter(e, later, e.request);
    OwedBut(st, e, later);
    CountWithout(Owed(st, [e] + later), e.request);
    CountWithout(Owed(Next(st, e).value, later), e.request);
  }

  lemma OwedAfter(st: State, e: Event, later: seq<Event>)
    requires Next(st, e).Some?
    ensures |Acts(st, e, later)| + |Owed(st, [e] + later)|
            == (if e.Find? then 0 else 1) + |Owed(Next(st, e).value, later)|
  {
    if e.Find? {
      OwedAfterFind(st, e, later);
    } else if e.Create? {
      forall q ensures q in Owed(st, [e] + later) <==> q in Owed(Next(st, e).value, later) {
        OwedElsewhere(st, e, later, q);
      }
      assert Owed(st, [e] + later) == Owed(Next(st, e).value, later);
    } else {
      OwedAfterCommit(st, e, later);
    }
  }

  lemma {:induction false} ActsAreCommits(st: State, es: seq<Event>)
    requires RunFrom(st, es).Some?
    ensures |Serialize(st, es)| + |Owed(st, es)| == Commits(es)
    decreases |es|
  {
    if es == [] {
      assert Owed(st, es) == {};
    } else {
      assert [es[0]] + es[1..] == es;
      OwedAfter(st, es[0], es[1..]);
      ActsAreCommits(Next(st, es[0]).value, es[1..]);
    }
  }

  // ---------------------------------------------------------------- the serial order of a run

  /** The serial order has the committed requests and no others, each once and at a moment from its
      read to its commit, in the order of these moments. */
  lemma EveryCommitActsOnce(es: seq<Event>)
    requires RunFrom(EMPTY_BOARD, es).Some?
    ensures Serialize(EMPTY_BOARD, es) == ActsUpTo(es, |es|)
    ensures forall j :: IsCommit(es, j) ==> InItsSpan(es, j)
    ensures forall i :: 0 <= i < |es| && ActAt(es, i) != [] ==> exists j :: IsCommit(es, j) && ActsAt(es, j) == i
    ensures forall j, k :: IsCommit(es, j) && IsCommit(es, k) && ActsAt(es, j) == ActsAt(es, k) ==> j == k
    ensures |Serialize(EMPTY_BOARD, es)| == Commits(es)
  {
    assert es[..0] == [] && es[0..] == es;
    SerialIsActs(es, 0);
    forall j | IsCommit(es, j) ensures InItsSpan(es, j) {
      CommitActs(es, j);
    }
    forall i | 0 <= i < |es| && ActAt(es, i) != []
      ensures exists j :: IsCommit(es, j) && ActsAt(es, j) == i
    {
      var j := ActIsACommits(es, i);
    }
    forall j, k | IsCommit(es, j) && IsCommit(es, k) && ActsAt(es, j) == ActsAt(es, k) ensures j == k {
      ActsOfOne(es, j, k);
    }
    ActsAreCommits(EMPTY_BOARD, es);
    assert Owed(EMPTY_BOARD, es) == {};
  }
}
