/** What a move keeps, and boards over any sequence of requests. */
module BoardRuns {
  import opened Prelude
  import opened Board

  // ---------------------------------------------------------------- one move

  lemma WithoutFirst(x: TaskId, l: seq<TaskId>, id: TaskId)
    ensures Without([x] + l, id) == (if x == id then [] else [x]) + Without(l, id)
  {
    assert ([x] + l)[1..] == l;
  }

  lemma {:induction false} WithoutJoins(a: seq<TaskId>, b: seq<TaskId>, id: TaskId)
    ensures Without(a + b, id) == Without(a, id) + Without(b, id)
  {
    if a == [] {
      assert a + b == b;
    } else {
      var x, rest := a[0], a[1..];
      WithoutJoins(rest, b, id);
      WithoutFirst(x, rest, id);
      WithoutFirst(x, rest + b, id);
      Regroup(if x == id then [] else [x], Without(rest, id), Without(b, id));
      assert a == [x] + rest;
      Regroup([x], rest, b);
    }
  }

  lemma {:induction false} JoinedIsTakenOut(a: seq<TaskId>, b: seq<TaskId>, id: TaskId)
    requires id !in a && id !in b
    ensures Without(a + [id] + b, id) == a + b
  {
    WithoutJoins(a + [id], b, id);
    WithoutJoins(a, [id], id);
    WithoutNothing(a, id);
    WithoutNothing(b, id);
    assert Without([id], id) == [];
  }

  lemma InsertedIsTakenOut(l: seq<TaskId>, k: nat, id: TaskId)
    requires id !in l && k <= |l|
    ensures Without(Insert(l, k, id), id) == l
  {
    JoinedIsTakenOut(l[..k], l[k..], id);
    assert l[..k] + l[k..] == l;
  }

  /** Apart from the moved task, every column of every project keeps its tasks in order, and the
      task stands at the clamped rank of its target. */
  lemma MoveKeepsOthersInOrder(columns: Columns, id: TaskId, project: ProjectId, target: Status, wanted: Option<int>)
    ensures var after := Put(TakeOut(columns, id), project, target, wanted, id);
            && (forall p, s :: Without(after(p, s), id) == Without(columns(p, s), id))
            && (forall p, s :: id in after(p, s) <==> p == project && s == target)
            && var k := Slot(wanted, |Without(columns(project, target), id)|);
            && k < |after(project, target)|
            && after(project, target)[k] == id
  {
    var taken := TakeOut(columns, id);
    var after := Put(taken, project, target, wanted, id);
    forall p, s
      ensures Without(after(p, s), id) == Without(columns(p, s), id)
      ensures id in after(p, s) <==> p == project && s == target
    {
      assert taken(p, s) == Without(columns(p, s), id);
      if p == project && s == target {
        var k := Slot(wanted, |taken(p, s)|);
        assert after(p, s) == Insert(taken(p, s), k, id);
        InsertedIsTakenOut(taken(p, s), k, id);
        assert after(p, s)[k] == id;
      } else {
        WithoutNothing(taken(p, s), id);
      }
    }
    assert taken(project, target) == Without(columns(project, target), id);
    assert after(project, target) == Insert(taken(project, target), Slot(wanted, |taken(project, target)|), id);
  }

  lemma SameLists(rows: Rows, a: Columns, b: Columns)
    requires Shows(rows, a)
    requires forall p, s :: a(p, s) == b(p, s)
    ensures Shows(rows, b)
  {
    forall p, s
      ensures IsColumn(rows, p, s, b(p, s))
    {
      assert IsColumn(rows, p, s, a(p, s));
    }
  }

  /** Repeating a move changes nothing: a second delivery finds the task where it would put it. */
  lemma RepeatedMoveChangesNothing(rows: Rows, columns: Columns, id: TaskId, requested: Option<Status>,
                                   wanted: Option<int>)
    requires Shows(rows, columns)
    requires id in rows
    ensures var project := rows[id].project;
            var once := MoveTask(rows, id, project, requested, wanted);
            && once.Ok?
            && MoveTask(once.value, id, project, requested, wanted) == once
  {
    var project := rows[id].project;
    var target := requested.GetOr(rows[id].status);
    var once := MoveTask(rows, id, project, requested, wanted).value;
    var shown := Put(TakeOut(columns, id), project, target, wanted, id);
    MoveReinserts(rows, columns, id, requested, wanted);
    MoveReinserts(once, shown, id, requested, wanted);
    var again := Put(TakeOut(shown, id), project, target, wanted, id);
    MoveKeepsOthersInOrder(columns, id, project, target, wanted);
    SameLists(once, shown, again);
    ShownOnce(once, MoveTask(once, id, project, requested, wanted).value, again);
  }

  lemma CutAndInsert(l: seq<TaskId>, r: nat, k: nat)
    requires forall i, j :: 0 <= i < j < |l| ==> l[i] != l[j]
    requires r < |l| && k < |l|
    ensures Insert(l[..r] + l[r+1..], k, l[r]) == l <==> k == r
  {
    if k == r {
      assert l[..r] + [l[r]] + l[r+1..] == l;
    } else {
      assert Insert(l[..r] + l[r+1..], k, l[r])[k] == l[r];
      assert l[k] != l[r];
    }
  }

  lemma IdleLists(rows: Rows, columns: Columns, id: TaskId, wanted: Option<int>)
    requires Shows(rows, columns)
    requires id in rows
    requires var l := columns(rows[id].project, rows[id].status);
             0 < |l| && Slot(wanted, |l| - 1) == rows[id].rank
    ensures forall p, s ::
              columns(p, s) == Put(TakeOut(columns, id), rows[id].project, rows[id].status, wanted, id)(p, s)
  {
    forall p, s
      ensures columns(p, s) == Put(TakeOut(columns, id), rows[id].project, rows[id].status, wanted, id)(p, s)
    {
      var l := columns(p, s);
      assert IsColumn(rows, p, s, l);
      if InColumn(rows[id], p, s) {
        assert Listed(rows, l, id);
        ColumnIsDistinct(rows, p, s, l, None);
        WithoutIsCut(l, rows[id].rank);
        CutAndInsert(l, rows[id].rank, rows[id].rank);
      } else {
        StrangerIsNotListed(rows, p, s, l, id);
        WithoutNothing(l, id);
      }
    }
  }

  lemma AnotherRankIsNoIdle(rows: Rows, columns: Columns, id: TaskId, wanted: Option<int>)
    requires Shows(rows, columns)
    requires id in rows
    requires var l := columns(rows[id].project, rows[id].status);
             0 < |l| && Slot(wanted, |l| - 1) != rows[id].rank
    ensures var project, status := rows[id].project, rows[id].status;
            Put(TakeOut(columns, id), project, status, wanted, id)(project, status) != columns(project, status)
  {
    var project, status := rows[id].project, rows[id].status;
    var l := columns(project, status);
    assert IsColumn(rows, project, status, l) && Listed(rows, l, id);
    ColumnIsDistinct(rows, project, status, l, None);
    WithoutIsCut(l, rows[id].rank);
    CutAndInsert(l, rows[id].rank, Slot(wanted, |l| - 1));
  }

  lemma ColumnIsOne(rows: Rows, p: ProjectId, s: Status, a: seq<TaskId>, b: seq<TaskId>)
    requires IsColumn(rows, p, s, a) && IsColumn(rows, p, s, b)
    ensures a == b
  {
    CountIsLength(rows, p, s, a, None);
    CountIsLength(rows, p, s, b, None);
    forall i | 0 <= i < |a|
      ensures a[i] == b[i]
    {
      assert AtRank(rows, p, s, b, None, i) && Listed(rows, a, b[i]);
    }
  }

  /** A move changes nothing exactly when the task already stands where it would be put. */
  lemma MoveIsIdleExactly(rows: Rows, columns: Columns, id: TaskId, requested: Option<Status>, wanted: Option<int>)
    requires Shows(rows, columns)
    requires id in rows
    ensures var l := columns(rows[id].project, rows[id].status);
            && 0 < |l|
            && (MoveTask(rows, id, rows[id].project, requested, wanted) == Ok(rows)
                <==> requested.GetOr(rows[id].status) == rows[id].status && Slot(wanted, |l| - 1) == rows[id].rank)
  {
    var project, status := rows[id].project, rows[id].status;
    var l := columns(project, status);
    assert IsColumn(rows, project, status, l) && Listed(rows, l, id);
    MoveReinserts(rows, columns, id, requested, wanted);
    var after := MoveTask(rows, id, project, requested, wanted).value;
    if requested.GetOr(status) != status {
      assert after[id].status != status;
    } else {
      var shown := Put(TakeOut(columns, id), project, status, wanted, id);
      if Slot(wanted, |l| - 1) == rows[id].rank {
        IdleLists(rows, columns, id, wanted);
        SameLists(rows, columns, shown);
        ShownOnce(rows, after, shown);
      } else {
        AnotherRankIsNoIdle(rows, columns, id, wanted);
        if after == rows {
          assert IsColumn(after, project, status, shown(project, status));
          ColumnIsOne(rows, project, status, l, shown(project, status));
        }
      }
    }
  }

  /** A PATCH that repeats the rank the task has now is not sent through a move, and loses nothing. */
  lemma SkippedPatchIsIdleMove(rows: Rows, columns: Columns, id: TaskId, requested: Option<Status>, wanted: Option<int>)
    requires Shows(rows, columns)
    requires id in rows
    requires wanted.Some? && !IsMoving(rows[id], requested, wanted)
    ensures MoveTask(rows, id, rows[id].project, requested, wanted) == Ok(rows)
  {
    var l := columns(rows[id].project, rows[id].status);
    assert IsColumn(rows, rows[id].project, rows[id].status, l) && Listed(rows, l, id);
    MoveIsIdleExactly(rows, columns, id, requested, wanted);
  }

  // ---------------------------------------------------------------- any number of requests

  /** What a request read before its transaction; it may be stale when the transaction runs. */
  datatype Read = Read(id: TaskId, row: Row)

  datatype State = State(rows: Rows, used: set<TaskId>, found: map<nat, Read>)

  datatype Event =
    | Create(id: TaskId, project: ProjectId, status: Status, rank: int)
    | Find(request: nat, id: TaskId, project: ProjectId)
    | Patch(request: nat, requested: Option<Status>, wanted: Option<int>)
    | Remove(request: nat)

  const EMPTY_BOARD := State(map[], {}, map[])

  function Committed(r: Result<Rows, Error>, otherwise: Rows): Rows {
    if r.Ok? then r.value else otherwise
  }

  function Next(st: State, e: Event): Option<State> {
    match e
    case Create(id, project, status, rank) =>
      if id in st.used then None
      else Some(State(Committed(CreateTask(st.rows, id, project, status, rank), st.rows), st.used + {id}, st.found))
    case Find(request, id, project) =>
      if request in st.found then None
      else if id !in st.rows || st.rows[id].project != project then Some(st)
      else Some(st.(found := st.found[request := Read(id, st.rows[id])]))
    case Patch(request, requested, wanted) =>
      if request !in st.found then None else
      var seen := st.found[request];
      var rows' :=
        if IsMoving(seen.row, requested, wanted)
        then Committed(MoveTask(st.rows, seen.id, seen.row.project, requested, wanted), st.rows)
        else st.rows;
      Some(State(rows', st.used, st.found - {request}))
    case Remove(request) =>
      if request !in st.found then None else
      var seen := st.found[request];
      Some(State(Committed(RemoveTask(st.rows, seen.id, seen.row.project), st.rows), st.used, st.found - {request}))
  }

  function RunFrom(st: State, es: seq<Event>): Option<State>
    decreases |es|
  {
    if es == [] then Some(st) else
    var st' :- Next(st, es[0]);
    RunFrom(st', es[1..])
  }

  /** The same request on lists: insert, delete, or delete and insert. */
  function ListsAfter(columns: Columns, st: State, e: Event): Columns {
    match e
    case Create(id, project, status, rank) => Put(columns, project, status, Some(rank), id)
    case Find(_, _, _) => columns
    case Patch(request, requested, wanted) =>
      if request !in st.found then columns else
      var seen := st.found[request];
      if seen.id in st.rows && IsMoving(seen.row, requested, wanted)
      then Put(TakeOut(columns, seen.id), seen.row.project, requested.GetOr(st.rows[seen.id].status), wanted, seen.id)
      else columns
    case Remove(request) =>
      if request in st.found && st.found[request].id in st.rows then TakeOut(columns, st.found[request].id) else columns
  }

  function ListsAfterRun(columns: Columns, st: State, es: seq<Event>): Columns
    decreases |es|
  {
    if es == [] || Next(st, es[0]).None? then columns
    else ListsAfterRun(ListsAfter(columns, st, es[0]), Next(st, es[0]).value, es[1..])
  }

  predicate ReadsAgree(st: State) {
    && (forall id :: id in st.rows ==> id in st.used)
    && (forall q :: q in st.found ==>
          && st.found[q].id in st.used
          && (st.found[q].id in st.rows ==> st.rows[st.found[q].id].project == st.found[q].row.project))
  }

  lemma StepShows(st: State, e: Event, columns: Columns)
    requires ReadsAgree(st) && Shows(st.rows, columns)
    requires Next(st, e).Some?
    ensures ReadsAgree(Next(st, e).value)
    ensures Shows(Next(st, e).value.rows, ListsAfter(columns, st, e))
  {
    match e
    case Create(id, project, status, rank) => CreateInserts(st.rows, columns, id, project, status, rank);
    case Find(_, _, _) =>
    case Patch(request, requested, wanted) =>
      var seen := st.found[request];
      if seen.id in st.rows {
        MoveReinserts(st.rows, columns, seen.id, requested, wanted);
      }
    case Remove(request) =>
      var seen := st.found[request];
      if seen.id in st.rows {
        RemoveDeletes(st.rows, columns, seen.id);
      }
  }

  lemma {:induction false} RunShows(st: State, es: seq<Event>, columns: Columns)
    requires ReadsAgree(st) && Shows(st.rows, columns)
    requires RunFrom(st, es).Some?
    ensures Shows(RunFrom(st, es).value.rows, ListsAfterRun(columns, st, es))
    decreases |es|
  {
    if es != [] {
      StepShows(st, es[0], columns);
      RunShows(Next(st, es[0]).value, es[1..], ListsAfter(columns, st, es[0]));
    }
  }

  /** From an empty board, in every interleaving of reads and transactions, the rows are at all
      times the lists that insert, delete, and delete and insert produce. */
  lemma BoardsAreLists(es: seq<Event>)
    requires RunFrom(EMPTY_BOARD, es).Some?
    ensures Shows(RunFrom(EMPTY_BOARD, es).value.rows, ListsAfterRun((p, s) => [], EMPTY_BOARD, es))
  {
    RunShows(EMPTY_BOARD, es, (p, s) => []);
  }

  predicate SomeTaskHas(rows: Rows, tasks: set<TaskId>, rank: int) {
    exists id :: id in tasks && id in rows && rows[id].rank == rank
  }

  /** So the ranks of each column are a permutation of 0 up to its size. */
  lemma RanksArePermutations(es: seq<Event>, project: ProjectId, status: Status)
    requires RunFrom(EMPTY_BOARD, es).Some?
    ensures var rows := RunFrom(EMPTY_BOARD, es).value.rows;
            var tasks := Members(rows, project, status, None);
            && (forall id :: id in tasks ==> 0 <= rows[id].rank < |tasks|)
            && (forall id, x :: id in tasks && x in tasks && id != x ==> rows[id].rank != rows[x].rank)
            && (forall k :: 0 <= k < |tasks| ==> SomeTaskHas(rows, tasks, k))
  {
    BoardsAreLists(es);
    var rows := RunFrom(EMPTY_BOARD, es).value.rows;
    var l := ListsAfterRun((p, s) => [], EMPTY_BOARD, es)(project, status);
    assert IsColumn(rows, project, status, l);
    CountIsLength(rows, project, status, l, None);
    var tasks := Members(rows, project, status, None);
    forall id | id in tasks
      ensures Listed(rows, l, id)
    {
    }
    forall k | 0 <= k < |tasks|
      ensures SomeTaskHas(rows, tasks, k)
    {
      assert AtRank(rows, project, status, l, None, k);
      assert l[k] in tasks && rows[l[k]].rank == k;
    }
  }
}
