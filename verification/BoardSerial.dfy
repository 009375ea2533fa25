/** The order that interleaved requests amount to. A request reads its task and commits later; what
    it does to the board is what it would do at one moment in between, with one exception. */
module BoardSerial {
  import opened Prelude
  import opened Board
  import opened BoardRuns

  // ---------------------------------------------------------------- requests served one at a time

  datatype Request =
    | CreateOne(id: TaskId, project: ProjectId, status: Status, rank: int)
    | PatchOne(id: TaskId, project: ProjectId, requested: Option<Status>, wanted: Option<int>)
    | RemoveOne(id: TaskId, project: ProjectId)

  /** A request whose read and commit are one step. */
  function Serve(rows: Rows, r: Request): Rows {
    match r
    case CreateOne(id, project, status, rank) => Committed(CreateTask(rows, id, project, status, rank), rows)
    case PatchOne(id, project, requested, wanted) =>
      if id in rows && rows[id].project == project && IsMoving(rows[id], requested, wanted)
      then Committed(MoveTask(rows, id, project, requested, wanted), rows)
      else rows
    case RemoveOne(id, project) =>
      if id in rows && rows[id].project == project then Committed(RemoveTask(rows, id, project), rows) else rows
  }

  function ServeAll(rows: Rows, rs: seq<Request>): Rows
    decreases |rs|
  {
    if rs == [] then rows else ServeAll(Serve(rows, rs[0]), rs[1..])
  }

  // ---------------------------------------------------------------- the moment each request acts

  /** The transaction that ends a request. */
  function CommitOf(es: seq<Event>, request: nat): Option<Event> {
    if es == [] then None
    else if (es[0].Patch? || es[0].Remove?) && es[0].request == request then Some(es[0])
    else CommitOf(es[1..], request)
  }

  /** The request will be a PATCH that asks for nothing but what it read. */
  predicate WillSkip(es: seq<Event>, request: nat, seen: Row) {
    var commit := CommitOf(es, request);
    commit.Some? && commit.value.Patch? && !IsMoving(seen, commit.value.requested, commit.value.wanted)
  }

  /** A PATCH that is skipped acts when it reads, every other request when it commits. */
  function Acts(st: State, e: Event, later: seq<Event>): seq<Request> {
    match e
    case Create(id, project, status, rank) => [CreateOne(id, project, status, rank)]
    case Find(request, id, project) =>
      if id in st.rows && st.rows[id].project == project && WillSkip(later, request, st.rows[id]) then
        var commit := CommitOf(later, request).value;
        [PatchOne(id, project, commit.requested, commit.wanted)]
      else []
    case Patch(request, requested, wanted) =>
      if request in st.found && IsMoving(st.found[request].row, requested, wanted)
      then [PatchOne(st.found[request].id, st.found[request].row.project, requested, wanted)]
      else []
    case Remove(request) =>
      if request in st.found then [RemoveOne(st.found[request].id, st.found[request].row.project)] else []
  }

  function Serialize(st: State, es: seq<Event>): seq<Request>
    decreases |es|
  {
    if es == [] || Next(st, es[0]).None? then []
    else Acts(st, es[0], es[1..]) + Serialize(Next(st, es[0]).value, es[1..])
  }

  // ---------------------------------------------------------------- the exception

  /** A PATCH for a status without a rank, read while the task had another status, commits when the
      task has got there already and is not its column's last: it is appended a second time. */
  ghost predicate Reappends(st: State, columns: Columns, e: Event) {
    && e.Patch? && e.request in st.found
    && e.wanted.None? && e.requested.Some?
    && var seen := st.found[e.request];
    && seen.row.status != e.requested.value
    && seen.id in st.rows && st.rows[seen.id].status == e.requested.value
    && st.rows[seen.id].rank != |columns(st.rows[seen.id].project, st.rows[seen.id].status)| - 1
  }

  /** What a request that moves its task does at its commit is what it would do if it read only then,
      exactly when it does not append a second time. */
  lemma CommitIsOneStepExactly(st: State, columns: Columns, e: Event, later: seq<Event>)
    requires ReadsAgree(st) && Shows(st.rows, columns)
    requires Next(st, e).Some?
    ensures ServeAll(st.rows, Acts(st, e, later)) == Next(st, e).value.rows <==> !Reappends(st, columns, e)
  {
    if e.Patch? && IsMoving(st.found[e.request].row, e.requested, e.wanted) {
      MovingPatch(st, columns, e);
    }
  }

  lemma MovingPatch(st: State, columns: Columns, e: Event)
    requires ReadsAgree(st) && Shows(st.rows, columns)
    requires e.Patch? && e.request in st.found && IsMoving(st.found[e.request].row, e.requested, e.wanted)
    ensures var seen := st.found[e.request];
            Serve(st.rows, PatchOne(seen.id, seen.row.project, e.requested, e.wanted)) == Next(st, e).value.rows
            <==> !Reappends(st, columns, e)
  {
    var seen := st.found[e.request];
    if seen.id in st.rows {
      MoveIsIdleExactly(st.rows, columns, seen.id, e.requested, e.wanted);
      if e.wanted.Some? && !IsMoving(st.rows[seen.id], e.requested, e.wanted) {
        SkippedPatchIsIdleMove(st.rows, columns, seen.id, e.requested, e.wanted);
      }
    }
  }

  /** In the run no PATCH appends its task a second time. */
  ghost predicate NeverReappends(st: State, columns: Columns, es: seq<Event>)
    decreases |es|
  {
    es == [] || Next(st, es[0]).None? ||
    (!Reappends(st, columns, es[0]) && NeverReappends(Next(st, es[0]).value, ListsAfter(columns, st, es[0]), es[1..]))
  }

  lemma ServeFirst(rows: Rows, a: seq<Request>, rs: seq<Request>)
    requires |a| <= 1
    ensures ServeAll(rows, a + rs) == ServeAll(ServeAll(rows, a), rs)
  {
    if a == [] {
      assert a + rs == rs;
    } else {
      assert (a + rs)[1..] == rs && a[1..] == [];
    }
  }

  lemma {:induction false} RunIsSerial(st: State, columns: Columns, es: seq<Event>)
    requires ReadsAgree(st) && Shows(st.rows, columns)
    requires RunFrom(st, es).Some? && NeverReappends(st, columns, es)
    ensures ServeAll(st.rows, Serialize(st, es)) == RunFrom(st, es).value.rows
    decreases |es|
  {
    if es != [] {
      var st' := Next(st, es[0]).value;
      CommitIsOneStepExactly(st, columns, es[0], es[1..]);
      StepShows(st, es[0], columns);
      RunIsSerial(st', ListsAfter(columns, st, es[0]), es[1..]);
      ServeFirst(st.rows, Acts(st, es[0], es[1..]), Serialize(st', es[1..]));
    }
  }

  /** In every run from an empty board in which no PATCH appends its task a second time, the rows are
      those of serving the same requests one at a time, each at a moment between its read and its commit. */
  lemma BoardsAreSerial(es: seq<Event>)
    requires RunFrom(EMPTY_BOARD, es).Some? && NeverReappends(EMPTY_BOARD, (p, s) => [], es)
    ensures ServeAll(map[], Serialize(EMPTY_BOARD, es)) == RunFrom(EMPTY_BOARD, es).value.rows
  {
    RunIsSerial(EMPTY_BOARD, (p, s) => [], es);
  }

  // ---------------------------------------------------------------- a run that has no such order

  /** Two PATCHes send one task to review; between their commits another task arrives there. */
  function TwoPatches(): seq<Event> {
    [Create(0, 0, TODO, 0), Find(1, 0, 0), Find(2, 0, 0), Patch(2, Some(REVIEW), None),
     Create(1, 0, REVIEW, 1), Patch(1, Some(REVIEW), None)]
  }

  const TO_REVIEW := PatchOne(0, 0, Some(REVIEW), None)

  function Moved(): Rows {
    map[0 := Row(0, REVIEW, 0)]
  }

  function Both(first: TaskId, second: TaskId): Rows {
    map[first := Row(0, REVIEW, 0), second := Row(0, REVIEW, 1)]
  }

  lemma FirstIsCreated()
    ensures CreateTask(map[], 0, 0, TODO, 0) == Ok(map[0 := Row(0, TODO, 0)])
  {
    var none: Rows := map[];
    assert OpenRankSlot(none, 0, TODO, 0, None) == map[];
  }

  lemma FirstIsMoved()
    ensures MoveTask(map[0 := Row(0, TODO, 0)], 0, 0, Some(REVIEW), None) == Ok(Moved())
  {
    var rows: Rows := map[0 := Row(0, TODO, 0)];
    assert CloseRankGap(rows, 0, TODO, 0) == rows;
    assert Members(rows, 0, REVIEW, Some(0)) == {};
    assert OpenRankSlot(rows, 0, REVIEW, 0, Some(0)) == rows;
    assert rows[0 := Row(0, REVIEW, 0)] == Moved();
  }

  lemma SecondIsCreated()
    ensures CreateTask(Moved(), 1, 0, REVIEW, 1) == Ok(Both(0, 1))
  {
    assert Members(Moved(), 0, REVIEW, None) == {0};
    assert OpenRankSlot(Moved(), 0, REVIEW, 1, None) == Moved();
  }

  lemma FirstIsMovedAgain()
    ensures MoveTask(Both(0, 1), 0, 0, Some(REVIEW), None) == Ok(Both(1, 0))
  {
    var closed: Rows := map[0 := Row(0, REVIEW, 0), 1 := Row(0, REVIEW, 0)];
    assert CloseRankGap(Both(0, 1), 0, REVIEW, 0) == closed;
    assert Members(closed, 0, REVIEW, Some(0)) == {1};
    assert OpenRankSlot(closed, 0, REVIEW, 1, Some(0)) == closed;
    assert closed[0 := Row(0, REVIEW, 1)] == Both(1, 0);
  }

  function StatesOfTwoPatches(): seq<State> {
    var todo: Rows := map[0 := Row(0, TODO, 0)];
    var seen := Read(0, Row(0, TODO, 0));
    [EMPTY_BOARD, State(todo, {0}, map[]), State(todo, {0}, map[1 := seen]),
     State(todo, {0}, map[1 := seen, 2 := seen]), State(Moved(), {0}, map[1 := seen]),
     State(Both(0, 1), {0, 1}, map[1 := seen]), State(Both(1, 0), {0, 1}, map[])]
  }

  predicate StepsAt(i: nat)
    requires i < 6
  {
    Next(StatesOfTwoPatches()[i], TwoPatches()[i]) == Some(StatesOfTwoPatches()[i + 1])
  }

  lemma TheFirstIsCreatedAndRead()
    ensures StepsAt(0) && StepsAt(1) && StepsAt(2)
  {
    FirstIsCreated();
  }

  lemma ItIsMoved()
    ensures StepsAt(3)
  {
    FirstIsMoved();
    var seen := Read(0, Row(0, TODO, 0));
    assert map[1 := seen, 2 := seen] - {2} == map[1 := seen];
  }

  lemma TheSecondIsCreated()
    ensures StepsAt(4)
  {
    SecondIsCreated();
    assert {0} + {1} == {0, 1};
  }

  lemma TheFirstIsMovedAgain()
    ensures StepsAt(5)
  {
    FirstIsMovedAgain();
  }

  lemma TwoPatchesStep(i: nat)
    requires i < 6
    ensures StepsAt(i)
  {
    if i < 3 {
      TheFirstIsCreatedAndRead();
    } else if i == 3 {
      ItIsMoved();
    } else if i == 4 {
      TheSecondIsCreated();
    } else {
      TheFirstIsMovedAgain();
    }
  }

  lemma {:induction false} TwoPatchesFrom(i: nat)
    requires i <= 6
    ensures RunFrom(StatesOfTwoPatches()[i], TwoPatches()[i..]) == Some(StatesOfTwoPatches()[6])
    decreases 6 - i
  {
    if i < 6 {
      TwoPatchesStep(i);
      TwoPatchesFrom(i + 1);
      assert TwoPatches()[i..][1..] == TwoPatches()[i + 1..];
    }
  }

  lemma ServeNext(rows: Rows, r: Request, rs: seq<Request>)
    ensures ServeAll(rows, [r] + rs) == ServeAll(Serve(rows, r), rs)
  {
    assert ([r] + rs)[1..] == rs;
  }

  lemma CreatedThenMoved(rs: seq<Request>)
    ensures ServeAll(map[], [CreateOne(0, 0, TODO, 0), TO_REVIEW] + rs) == ServeAll(Moved(), rs)
  {
    FirstIsCreated();
    FirstIsMoved();
    assert [CreateOne(0, 0, TODO, 0), TO_REVIEW] + rs == [CreateOne(0, 0, TODO, 0)] + ([TO_REVIEW] + rs);
    ServeNext(map[], CreateOne(0, 0, TODO, 0), [TO_REVIEW] + rs);
    ServeNext(map[0 := Row(0, TODO, 0)], TO_REVIEW, rs);
  }

  /** In review already: the PATCH finds nothing to do. */
  lemma ServedTwice(rows: Rows, rs: seq<Request>)
    requires 0 in rows && rows[0].project == 0 && rows[0].status == REVIEW
    ensures ServeAll(rows, [TO_REVIEW] + rs) == ServeAll(rows, rs)
  {
    ServeNext(rows, TO_REVIEW, rs);
  }

  lemma SecondArrives(rs: seq<Request>)
    ensures ServeAll(Moved(), [CreateOne(1, 0, REVIEW, 1)] + rs) == ServeAll(Both(0, 1), rs)
  {
    SecondIsCreated();
    ServeNext(Moved(), CreateOne(1, 0, REVIEW, 1), rs);
  }

  function PatchesFirst(): seq<Request> {
    [CreateOne(0, 0, TODO, 0), TO_REVIEW, TO_REVIEW, CreateOne(1, 0, REVIEW, 1)]
  }

  function PatchLast(): seq<Request> {
    [CreateOne(0, 0, TODO, 0), TO_REVIEW, CreateOne(1, 0, REVIEW, 1), TO_REVIEW]
  }

  lemma ServedPatchesFirst()
    ensures ServeAll(map[], PatchesFirst()) == Both(0, 1)
  {
    var create := [CreateOne(1, 0, REVIEW, 1)];
    assert PatchesFirst() == [CreateOne(0, 0, TODO, 0), TO_REVIEW] + ([TO_REVIEW] + create);
    CreatedThenMoved([TO_REVIEW] + create);
    ServedTwice(Moved(), create);
    assert create + [] == create;
    SecondArrives([]);
  }

  lemma ServedPatchLast()
    ensures ServeAll(map[], PatchLast()) == Both(0, 1)
  {
    var create := [CreateOne(1, 0, REVIEW, 1)];
    assert PatchLast() == [CreateOne(0, 0, TODO, 0), TO_REVIEW] + (create + [TO_REVIEW]);
    CreatedThenMoved(create + [TO_REVIEW]);
    SecondArrives([TO_REVIEW]);
    assert [TO_REVIEW] + [] == [TO_REVIEW];
    ServedTwice(Both(0, 1), []);
  }

  /** An order of the run's requests in which the first task is created first and one of the two
      PATCHes, which had committed by then, comes before the second task. */
  predicate RespectsCommits(rs: seq<Request>) {
    && |rs| == 4 && rs[0] == CreateOne(0, 0, TODO, 0)
    && multiset{rs[1], rs[2], rs[3]} == multiset{TO_REVIEW, TO_REVIEW, CreateOne(1, 0, REVIEW, 1)}
    && exists i, j :: 0 <= i < j < 4 && rs[i] == TO_REVIEW && rs[j] == CreateOne(1, 0, REVIEW, 1)
  }

  /** Three values that are p twice and q once, in one of three orders. */
  lemma OneOfThree<T>(a: T, b: T, c: T, p: T, q: T)
    requires p != q && multiset{a, b, c} == multiset{p, p, q}
    ensures (a, b, c) == (q, p, p) || (a, b, c) == (p, q, p) || (a, b, c) == (p, p, q)
  {
    assert a in multiset{p, p, q} && b in multiset{p, p, q} && c in multiset{p, p, q};
    assert multiset{a, b, c}[q] == 1;
  }

  lemma TwoOrders(rs: seq<Request>)
    requires RespectsCommits(rs)
    ensures rs == PatchesFirst() || rs == PatchLast()
  {
    OneOfThree(rs[1], rs[2], rs[3], TO_REVIEW, CreateOne(1, 0, REVIEW, 1));
  }

  /** The run ends with the second task first; every order of its requests that respects which of
      them had committed before another began ends with the first task first. */
  lemma AppendingTwiceHasNoOrder(rs: seq<Request>)
    requires RespectsCommits(rs)
    ensures RunFrom(EMPTY_BOARD, TwoPatches()).Some?
    ensures RunFrom(EMPTY_BOARD, TwoPatches()).value.rows == Both(1, 0)
    ensures ServeAll(map[], rs) == Both(0, 1) != Both(1, 0)
  {
    assert Both(0, 1)[0].rank != Both(1, 0)[0].rank;
    TwoPatchesFrom(0);
    assert TwoPatches()[0..] == TwoPatches();
    TwoOrders(rs);
    ServedPatchesFirst();
    ServedPatchLast();
  }
}
