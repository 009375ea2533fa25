/** Where the transactions put a task, said on the rows themselves. */
module BoardPlaces {
  import opened Prelude
  import opened Board
  import opened BoardRuns

  /** The other tasks of a column. */
  function Others(rows: Rows, id: TaskId, project: ProjectId, status: Status): set<TaskId> {
    set x | x in rows && x != id && rows[x].project == project && rows[x].status == status
  }

  /** Asked for a rank, a task gets it if the column has it, else the nearest end; asked for none, the last. */
  predicate IsPlace(rank: int, wanted: Option<int>, others: nat) {
    if wanted.None? || wanted.value > others then rank == others
    else if wanted.value < 0 then rank == 0
    else rank == wanted.value
  }

  lemma AllAreOthers(rows: Rows, id: TaskId, project: ProjectId, status: Status)
    requires id !in rows
    ensures Members(rows, project, status, None) == Others(rows, id, project, status)
  {
  }

  lemma SlotIsPlace(wanted: Option<int>, others: nat)
    ensures IsPlace(Slot(wanted, others), wanted, others)
  {
  }

  lemma CreatedRows(rows: Rows, id: TaskId, project: ProjectId, status: Status, wanted: int)
    requires id !in rows
    ensures var r := CreateTask(rows, id, project, status, wanted);
            && r.Ok? && r.value.Keys == rows.Keys + {id}
            && forall x :: x in rows ==> r.value[x].project == rows[x].project && r.value[x].status == rows[x].status
  {
    assert CreateTask(rows, id, project, status, wanted).value.Keys == rows.Keys + {id};
  }

  /** A creation fails exactly for an id that is taken; else the task stands in the column it was made for,
      where it was asked to, and no other task changes its column. */
  lemma CreatedPlace(rows: Rows, id: TaskId, project: ProjectId, status: Status, wanted: int)
    ensures var r := CreateTask(rows, id, project, status, wanted);
            if id in rows then r == Err(Duplicate)
            else
              && r.Ok? && r.value.Keys == rows.Keys + {id}
              && r.value[id].project == project && r.value[id].status == status
              && IsPlace(r.value[id].rank, Some(wanted), |Others(rows, id, project, status)|)
              && forall x :: x in rows ==> r.value[x].project == rows[x].project && r.value[x].status == rows[x].status
  {
    if id !in rows {
      AllAreOthers(rows, id, project, status);
      SlotIsPlace(Some(wanted), |Others(rows, id, project, status)|);
      CreatedRows(rows, id, project, status, wanted);
    }
  }

  /** A move fails exactly for a task that is gone; else the task stands in the column asked for, its own if
      none is, where it was asked to among the others there, and no other task changes its column. */
  lemma MovedPlace(rows: Rows, id: TaskId, requested: Option<Status>, wanted: Option<int>, project: ProjectId)
    requires id in rows ==> rows[id].project == project
    ensures var r := MoveTask(rows, id, project, requested, wanted);
            if id !in rows then r == Err(NotFound)
            else
              && r.Ok? && r.value.Keys == rows.Keys
              && var target := if requested.Some? then requested.value else rows[id].status;
              && r.value[id].project == project && r.value[id].status == target
              && IsPlace(r.value[id].rank, wanted, |Others(rows, id, project, target)|)
              && forall x :: x in rows && x != id ==>
                   r.value[x].project == rows[x].project && r.value[x].status == rows[x].status
  {
    if id in rows {
      var target := requested.GetOr(rows[id].status);
      var closed := CloseRankGap(rows, project, rows[id].status, rows[id].rank);
      assert Members(closed, project, target, Some(id)) == Others(rows, id, project, target);
      assert MoveTask(rows, id, project, requested, wanted).value.Keys == rows.Keys;
    }
  }

  /** A removal fails exactly for a task that is gone; else that task goes and no other changes its column. */
  lemma RemovedPlace(rows: Rows, id: TaskId, project: ProjectId)
    ensures var r := RemoveTask(rows, id, project);
            if id !in rows then r == Err(NotFound)
            else
              && r.Ok? && r.value.Keys == rows.Keys - {id}
              && forall x :: x in r.value ==>
                   r.value[x].project == rows[x].project && r.value[x].status == rows[x].status
  {
    if id in rows {
      assert RemoveTask(rows, id, project).value.Keys == rows.Keys - {id};
    }
  }

  /** A PATCH leaves the board alone exactly when it asks for nothing but what it read, or its task is gone,
      or already stands where it asks. In every other case the task ends where it was asked to be. */
  lemma PatchedPlace(st: State, columns: Columns, e: Event)
    requires ReadsAgree(st) && Shows(st.rows, columns)
    requires e.Patch? && e.request in st.found
    ensures Next(st, e).Some?
    ensures var seen, rows' := st.found[e.request], Next(st, e).value.rows;
            var same := && (e.requested.Some? ==> e.requested.value == seen.row.status)
                        && (e.wanted.Some? ==> e.wanted.value == seen.row.rank);
            if same || seen.id !in st.rows then rows' == st.rows
            else
              && seen.id in rows'
              && var target := if e.requested.Some? then e.requested.value else st.rows[seen.id].status;
              && rows'[seen.id].project == seen.row.project && rows'[seen.id].status == target
              && IsPlace(rows'[seen.id].rank, e.wanted, |Others(st.rows, seen.id, seen.row.project, target)|)
              && (rows' == st.rows <==>
                    && target == st.rows[seen.id].status
                    && IsPlace(st.rows[seen.id].rank, e.wanted, |Others(st.rows, seen.id, seen.row.project, target)|))
  {
    var seen := st.found[e.request];
    if seen.id in st.rows {
      MovedPlace(st.rows, seen.id, e.requested, e.wanted, seen.row.project);
      MoveIsIdleExactly(st.rows, columns, seen.id, e.requested, e.wanted);
      OthersOfOwn(st.rows, columns, seen.id);
    }
  }

  lemma OthersOfOwn(rows: Rows, columns: Columns, id: TaskId)
    requires Shows(rows, columns) && id in rows
    ensures |Others(rows, id, rows[id].project, rows[id].status)| == |columns(rows[id].project, rows[id].status)| - 1
  {
    var p, s := rows[id].project, rows[id].status;
    assert IsColumn(rows, p, s, columns(p, s));
    CountIsLength(rows, p, s, columns(p, s), None);
    assert Members(rows, p, s, None) == Others(rows, id, p, s) + {id};
  }
}
