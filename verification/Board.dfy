/** The board's rows: tasks in no order, each with a column and a rank, shifted in bulk. */
module Board {
  import opened Prelude

  type TaskId = nat
  type ProjectId = nat
  datatype Status = TODO | IN_PROGRESS | REVIEW | COMPLETED

  datatype Row = Row(project: ProjectId, status: Status, rank: int)
  type Rows = map<TaskId, Row>

  predicate InColumn(row: Row, project: ProjectId, status: Status) {
    row.project == project && row.status == status
  }

  // ---------------------------------------------------------------- the queries

  function Members(rows: Rows, project: ProjectId, status: Status, except: Option<TaskId>): set<TaskId> {
    set id | id in rows && InColumn(rows[id], project, status) && except != Some(id)
  }

  function CloseRankGap(rows: Rows, project: ProjectId, status: Status, vacated: int): Rows {
    map id | id in rows ::
      if InColumn(rows[id], project, status) && rows[id].rank > vacated
      then rows[id].(rank := rows[id].rank - 1)
      else rows[id]
  }

  /** The rank a request for `wanted` gets: clamped to the column, appended without a request. */
  function Slot(wanted: Option<int>, length: nat): (r: nat)
    ensures r <= length
  {
    if wanted.None? then length else Min(Max(wanted.value, 0), length)
  }

  function OpenRankSlot(rows: Rows, project: ProjectId, status: Status, rank: int, except: Option<TaskId>): Rows {
    map id | id in rows ::
      if InColumn(rows[id], project, status) && rows[id].rank >= rank && except != Some(id)
      then rows[id].(rank := rows[id].rank + 1)
      else rows[id]
  }

  // ---------------------------------------------------------------- the transactions

  datatype Error = NotFound | Duplicate

  function CreateTask(rows: Rows, id: TaskId, project: ProjectId, status: Status, wanted: int): Result<Rows, Error> {
    if id in rows then Err(Duplicate) else
    var rank := Slot(Some(wanted), |Members(rows, project, status, None)|);
    Ok(OpenRankSlot(rows, project, status, rank, None)[id := Row(project, status, rank)])
  }

  function RemoveTask(rows: Rows, id: TaskId, project: ProjectId): Result<Rows, Error> {
    if id !in rows then Err(NotFound)
    else Ok(CloseRankGap(rows - {id}, project, rows[id].status, rows[id].rank))
  }

  function MoveTask(rows: Rows, id: TaskId, project: ProjectId, requested: Option<Status>, wanted: Option<int>)
    : Result<Rows, Error>
  {
    if id !in rows then Err(NotFound) else
    var target := requested.GetOr(rows[id].status);
    var closed := CloseRankGap(rows, project, rows[id].status, rows[id].rank);
    var rank := Slot(wanted, |Members(closed, project, target, Some(id))|);
    var shifted := OpenRankSlot(closed, project, target, rank, Some(id));
    Ok(shifted[id := shifted[id].(status := target, rank := rank)])
  }

  /** A PATCH moves only when it asks for something other than what was read before. */
  predicate IsMoving(seen: Row, requested: Option<Status>, wanted: Option<int>) {
    || (requested.Some? && requested.value != seen.status)
    || (wanted.Some? && wanted.value != seen.rank)
  }

  // ---------------------------------------------------------------- the lists the rows stand for

  predicate AtRank(rows: Rows, project: ProjectId, status: Status, l: seq<TaskId>, except: Option<TaskId>, i: int)
    requires 0 <= i < |l|
  {
    l[i] in rows && rows[l[i]] == Row(project, status, i) && except != Some(l[i])
  }

  predicate Listed(rows: Rows, l: seq<TaskId>, id: TaskId)
    requires id in rows
  {
    0 <= rows[id].rank < |l| && l[rows[id].rank] == id
  }

  /** `l` lists the column's rows other than `except` by rank, with ranks 0, 1, 2 and so on. */
  ghost predicate IsColumnBut(rows: Rows, project: ProjectId, status: Status, l: seq<TaskId>, except: Option<TaskId>) {
    && (forall i {:trigger AtRank(rows, project, status, l, except, i)} ::
          0 <= i < |l| ==> AtRank(rows, project, status, l, except, i))
    && (forall id {:trigger Listed(rows, l, id)} ::
          id in rows && InColumn(rows[id], project, status) && except != Some(id) ==> Listed(rows, l, id))
  }

  ghost predicate IsColumn(rows: Rows, project: ProjectId, status: Status, l: seq<TaskId>) {
    IsColumnBut(rows, project, status, l, None)
  }

  type Columns = (ProjectId, Status) -> seq<TaskId>

  /** Every column of every project is dense, and `columns` lists them. */
  ghost predicate Shows(rows: Rows, columns: Columns) {
    forall p, s {:trigger columns(p, s)} :: IsColumn(rows, p, s, columns(p, s))
  }

  function Without(l: seq<TaskId>, id: TaskId): (r: seq<TaskId>)
    ensures id !in r
  {
    if l == [] then []
    else if l[0] == id then Without(l[1..], id)
    else [l[0]] + Without(l[1..], id)
  }

  function Insert(l: seq<TaskId>, k: nat, id: TaskId): (r: seq<TaskId>)
    requires k <= |l|
    ensures |r| == |l| + 1 && r[k] == id
  {
    l[..k] + [id] + l[k..]
  }

  function Put(columns: Columns, project: ProjectId, status: Status, wanted: Option<int>, id: TaskId): Columns {
    (p, s) =>
      if p == project && s == status
      then Insert(columns(p, s), Slot(wanted, |columns(p, s)|), id)
      else columns(p, s)
  }

  function TakeOut(columns: Columns, id: TaskId): Columns {
    (p, s) => Without(columns(p, s), id)
  }

  // ---------------------------------------------------------------- how the queries act on a column

  lemma {:induction false} WithoutIsCut(l: seq<TaskId>, r: nat)
    requires r < |l|
    requires forall i, j :: 0 <= i < j < |l| ==> l[i] != l[j]
    ensures Without(l, l[r]) == l[..r] + l[r+1..]
  {
    if r == 0 {
      WithoutNothing(l[1..], l[0]);
      assert l[..0] + l[1..] == l[1..];
    } else {
      WithoutIsCut(l[1..], r - 1);
      assert l[1..][r - 1] == l[r];
      assert l[0] != l[r];
      assert [l[0]] + (l[1..][..r - 1] + l[1..][r..]) == l[..r] + l[r+1..];
    }
  }

  lemma {:induction false} WithoutNothing(l: seq<TaskId>, id: TaskId)
    requires id !in l
    ensures Without(l, id) == l
  {
    if l != [] {
      WithoutNothing(l[1..], id);
      assert [l[0]] + l[1..] == l;
    }
  }

  lemma ColumnIsDistinct(rows: Rows, p: ProjectId, s: Status, l: seq<TaskId>, except: Option<TaskId>)
    requires IsColumnBut(rows, p, s, l, except)
    ensures forall i, j :: 0 <= i < j < |l| ==> l[i] != l[j]
  {
    forall i, j | 0 <= i < j < |l|
      ensures l[i] != l[j]
    {
      assert AtRank(rows, p, s, l, except, i) && AtRank(rows, p, s, l, except, j);
    }
  }

  lemma {:induction false} DistinctCount(l: seq<TaskId>, m: set<TaskId>)
    requires forall i, j :: 0 <= i < j < |l| ==> l[i] != l[j]
    requires forall id :: id in m <==> id in l
    ensures |m| == |l|
  {
    if l == [] {
      assert m == {};
    } else {
      assert l == [l[0]] + l[1..];
      assert l[0] in m;
      forall id
        ensures id in m - {l[0]} <==> id in l[1..]
      {
        if id in l[1..] {
          var k :| 0 <= k < |l[1..]| && l[1..][k] == id;
          assert l[k + 1] == id && l[0] != l[k + 1];
        }
      }
      DistinctCount(l[1..], m - {l[0]});
    }
  }

  /** The count the transaction reads is the length of the list. */
  lemma CountIsLength(rows: Rows, p: ProjectId, s: Status, l: seq<TaskId>, except: Option<TaskId>)
    requires IsColumnBut(rows, p, s, l, except)
    ensures |Members(rows, p, s, except)| == |l|
  {
    ColumnIsDistinct(rows, p, s, l, except);
    var m := Members(rows, p, s, except);
    forall id
      ensures id in m <==> id in l
    {
      if id in m {
        assert Listed(rows, l, id);
      }
      if id in l {
        var i :| 0 <= i < |l| && l[i] == id;
        assert AtRank(rows, p, s, l, except, i);
      }
    }
    DistinctCount(l, m);
  }

  lemma CutColumn(rows: Rows, p: ProjectId, s: Status, l: seq<TaskId>, r: nat)
    requires IsColumn(rows, p, s, l)
    requires r < |l|
    ensures IsColumnBut(CloseRankGap(rows, p, s, r), p, s, l[..r] + l[r+1..], Some(l[r]))
  {
    var after, cut := CloseRankGap(rows, p, s, r), l[..r] + l[r+1..];
    forall i | 0 <= i < |cut|
      ensures AtRank(after, p, s, cut, Some(l[r]), i)
    {
      var j := if i < r then i else i + 1;
      assert cut[i] == l[j];
      assert AtRank(rows, p, s, l, None, j) && AtRank(rows, p, s, l, None, r);
    }
    forall x | x in after && InColumn(after[x], p, s) && x != l[r]
      ensures Listed(after, cut, x)
    {
      var k := rows[x].rank;
      assert Listed(rows, l, x);
      if k < r {
        assert cut[k] == l[k] && after[x].rank == k;
      } else {
        assert k > r;
        assert cut[k - 1] == l[k] && after[x].rank == k - 1;
      }
    }
  }

  /** Closing the gap behind a task leaves the column without it, dense. */
  lemma CloseCutsTheList(rows: Rows, p: ProjectId, s: Status, l: seq<TaskId>, id: TaskId)
    requires IsColumn(rows, p, s, l)
    requires id in rows && InColumn(rows[id], p, s)
    ensures IsColumnBut(CloseRankGap(rows, p, s, rows[id].rank), p, s, Without(l, id), Some(id))
  {
    var r := rows[id].rank;
    ColumnIsDistinct(rows, p, s, l, None);
    assert Listed(rows, l, id);
    WithoutIsCut(l, r);
    CutColumn(rows, p, s, l, r);
  }

  lemma StrangerIsNotListed(rows: Rows, p: ProjectId, s: Status, l: seq<TaskId>, id: TaskId)
    requires IsColumn(rows, p, s, l)
    requires id in rows ==> !InColumn(rows[id], p, s)
    ensures id !in l
  {
    forall i | 0 <= i < |l|
      ensures l[i] != id
    {
      assert AtRank(rows, p, s, l, None, i);
    }
  }

  lemma CloseSparesOthers(rows: Rows, p: ProjectId, s: Status, rank: int, p': ProjectId, s': Status, l: seq<TaskId>,
                          id: TaskId)
    requires IsColumn(rows, p', s', l)
    requires p != p' || s != s'
    requires id in rows ==> !InColumn(rows[id], p', s')
    ensures IsColumnBut(CloseRankGap(rows, p, s, rank), p', s', Without(l, id), Some(id))
  {
    var after := CloseRankGap(rows, p, s, rank);
    forall i | 0 <= i < |l|
      ensures AtRank(after, p', s', l, Some(id), i)
    {
      assert AtRank(rows, p', s', l, None, i);
    }
    forall x | x in after && InColumn(after[x], p', s')
      ensures Listed(after, l, x)
    {
      assert Listed(rows, l, x);
    }
    StrangerIsNotListed(rows, p', s', l, id);
    WithoutNothing(l, id);
  }

  /** Opening a slot and writing the task into it inserts the task into the list. */
  lemma OpenInserts(rows: Rows, p: ProjectId, s: Status, l: seq<TaskId>, id: TaskId, k: nat)
    requires IsColumnBut(rows, p, s, l, Some(id))
    requires k <= |l|
    ensures IsColumn(OpenRankSlot(rows, p, s, k, Some(id))[id := Row(p, s, k)], p, s, Insert(l, k, id))
  {
    var after := OpenRankSlot(rows, p, s, k, Some(id))[id := Row(p, s, k)];
    var l' := Insert(l, k, id);
    forall i | 0 <= i < |l'|
      ensures AtRank(after, p, s, l', None, i)
    {
      if i < k {
        assert l'[i] == l[i];
        assert AtRank(rows, p, s, l, Some(id), i);
      } else if i > k {
        assert l'[i] == l[i - 1];
        assert AtRank(rows, p, s, l, Some(id), i - 1);
      }
    }
    forall x | x in after && InColumn(after[x], p, s)
      ensures Listed(after, l', x)
    {
      if x != id {
        var r := rows[x].rank;
        assert Listed(rows, l, x);
        if r < k {
          assert l'[r] == l[r] && after[x].rank == r;
        } else {
          assert l'[r + 1] == l[r] && after[x].rank == r + 1;
        }
      }
    }
  }

  lemma OpenSparesOthers(rows: Rows, p: ProjectId, s: Status, k: nat, p': ProjectId, s': Status, l: seq<TaskId>,
                         id: TaskId)
    requires IsColumnBut(rows, p', s', l, Some(id))
    requires p != p' || s != s'
    ensures IsColumn(OpenRankSlot(rows, p, s, k, Some(id))[id := Row(p, s, k)], p', s', l)
  {
    var after := OpenRankSlot(rows, p, s, k, Some(id))[id := Row(p, s, k)];
    forall i | 0 <= i < |l|
      ensures AtRank(after, p', s', l, None, i)
    {
      assert AtRank(rows, p', s', l, Some(id), i);
    }
    forall x | x in after && InColumn(after[x], p', s')
      ensures Listed(after, l, x)
    {
      assert Listed(rows, l, x);
    }
  }

  // ---------------------------------------------------------------- the transactions act on lists

  lemma ColumnWithoutStranger(rows: Rows, p: ProjectId, s: Status, l: seq<TaskId>, id: TaskId)
    requires IsColumn(rows, p, s, l)
    requires id !in rows
    ensures IsColumnBut(rows, p, s, l, Some(id))
  {
    forall i | 0 <= i < |l|
      ensures AtRank(rows, p, s, l, Some(id), i)
    {
      assert AtRank(rows, p, s, l, None, i);
    }
  }

  lemma ColumnWithoutRow(rows: Rows, p: ProjectId, s: Status, l: seq<TaskId>, id: TaskId)
    requires IsColumnBut(rows, p, s, l, Some(id))
    ensures IsColumn(rows - {id}, p, s, l)
  {
    forall i | 0 <= i < |l|
      ensures AtRank(rows - {id}, p, s, l, None, i)
    {
      assert AtRank(rows, p, s, l, Some(id), i);
    }
    forall x | x in rows - {id} && InColumn(rows[x], p, s)
      ensures Listed(rows - {id}, l, x)
    {
      assert Listed(rows, l, x);
    }
  }

  /** Creating a task inserts it at the clamped rank; every other list stays. */
  lemma CreateInserts(rows: Rows, columns: Columns, id: TaskId, project: ProjectId, status: Status, wanted: int)
    requires Shows(rows, columns)
    requires id !in rows
    ensures CreateTask(rows, id, project, status, wanted).Ok?
    ensures Shows(CreateTask(rows, id, project, status, wanted).value, Put(columns, project, status, Some(wanted), id))
  {
    var l := columns(project, status);
    CountIsLength(rows, project, status, l, None);
    var k := Slot(Some(wanted), |l|);
    assert OpenRankSlot(rows, project, status, k, None) == OpenRankSlot(rows, project, status, k, Some(id));
    forall p, s
      ensures IsColumn(CreateTask(rows, id, project, status, wanted).value, p, s,
                       Put(columns, project, status, Some(wanted), id)(p, s))
    {
      assert IsColumn(rows, p, s, columns(p, s));
      ColumnWithoutStranger(rows, p, s, columns(p, s), id);
      if p == project && s == status {
        OpenInserts(rows, p, s, l, id, k);
      } else {
        OpenSparesOthers(rows, project, status, k, p, s, columns(p, s), id);
      }
    }
  }

  lemma ClosedColumns(rows: Rows, columns: Columns, id: TaskId, p: ProjectId, s: Status)
    requires Shows(rows, columns)
    requires id in rows
    ensures IsColumnBut(CloseRankGap(rows, rows[id].project, rows[id].status, rows[id].rank), p, s,
                        TakeOut(columns, id)(p, s), Some(id))
  {
    assert IsColumn(rows, p, s, columns(p, s));
    if InColumn(rows[id], p, s) {
      CloseCutsTheList(rows, p, s, columns(p, s), id);
    } else {
      CloseSparesOthers(rows, rows[id].project, rows[id].status, rows[id].rank, p, s, columns(p, s), id);
    }
  }

  /** Removing a task deletes it from its list; every other list stays. */
  lemma RemoveDeletes(rows: Rows, columns: Columns, id: TaskId)
    requires Shows(rows, columns)
    requires id in rows
    ensures RemoveTask(rows, id, rows[id].project).Ok?
    ensures Shows(RemoveTask(rows, id, rows[id].project).value, TakeOut(columns, id))
  {
    var closed := CloseRankGap(rows, rows[id].project, rows[id].status, rows[id].rank);
    var after := RemoveTask(rows, id, rows[id].project).value;
    assert after == closed - {id};
    forall p, s
      ensures IsColumn(after, p, s, TakeOut(columns, id)(p, s))
    {
      ClosedColumns(rows, columns, id, p, s);
      ColumnWithoutRow(closed, p, s, TakeOut(columns, id)(p, s), id);
    }
  }

  /** Moving a task deletes it from its list and inserts it at the clamped rank of the target. */
  lemma MoveReinserts(rows: Rows, columns: Columns, id: TaskId, requested: Option<Status>, wanted: Option<int>)
    requires Shows(rows, columns)
    requires id in rows
    ensures MoveTask(rows, id, rows[id].project, requested, wanted).Ok?
    ensures Shows(MoveTask(rows, id, rows[id].project, requested, wanted).value,
                  Put(TakeOut(columns, id), rows[id].project, requested.GetOr(rows[id].status), wanted, id))
  {
    var project := rows[id].project;
    var target := requested.GetOr(rows[id].status);
    var closed := CloseRankGap(rows, project, rows[id].status, rows[id].rank);
    var taken := TakeOut(columns, id);
    ClosedColumns(rows, columns, id, project, target);
    CountIsLength(closed, project, target, taken(project, target), Some(id));
    var k := Slot(wanted, |taken(project, target)|);
    var after := MoveTask(rows, id, project, requested, wanted).value;
    assert after == OpenRankSlot(closed, project, target, k, Some(id))[id := Row(project, target, k)];
    forall p, s
      ensures IsColumn(after, p, s, Put(taken, project, target, wanted, id)(p, s))
    {
      ClosedColumns(rows, columns, id, p, s);
      if p == project && s == target {
        OpenInserts(closed, p, s, taken(p, s), id, k);
      } else {
        OpenSparesOthers(closed, project, target, k, p, s, taken(p, s), id);
      }
    }
  }

  /** Lists determine rows, so equal boards are equal tables. */
  lemma ShownOnce(a: Rows, b: Rows, columns: Columns)
    requires Shows(a, columns) && Shows(b, columns)
    ensures a == b
  {
    forall id | id in a
      ensures id in b && a[id] == b[id]
    {
      var l := columns(a[id].project, a[id].status);
      assert IsColumn(a, a[id].project, a[id].status, l) && IsColumn(b, a[id].project, a[id].status, l);
      assert Listed(a, l, id);
      assert AtRank(b, a[id].project, a[id].status, l, None, a[id].rank);
    }
    forall id | id in b
      ensures id in a
    {
      var l := columns(b[id].project, b[id].status);
      assert IsColumn(a, b[id].project, b[id].status, l) && IsColumn(b, b[id].project, b[id].status, l);
      assert Listed(b, l, id);
      assert AtRank(a, b[id].project, b[id].status, l, None, b[id].rank);
    }
  }
}
