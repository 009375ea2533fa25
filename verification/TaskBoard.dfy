/** The task table as the service updates it: each transaction is a sequence of bulk updates. */
module TaskBoards {
  import opened Prelude
  import B = Board

  lemma SlotIsOpened(rows: B.Rows, project: B.ProjectId, status: B.Status, rank: int, except: Option<B.TaskId>)
    ensures rows + (map id |
              id in rows && B.InColumn(rows[id], project, status) && rows[id].rank >= rank && except != Some(id) ::
              rows[id].(rank := rows[id].rank + 1)) == B.OpenRankSlot(rows, project, status, rank, except)
  {
  }

  class TaskBoard {
    var rows: B.Rows

    constructor ()
      ensures rows == map[]
    {
      rows := map[];
    }

    method CloseRankGap(project: B.ProjectId, status: B.Status, vacated: int)
      modifies this
      ensures rows == B.CloseRankGap(old(rows), project, status, vacated)
    {
      rows := rows + map id | id in rows && B.InColumn(rows[id], project, status) && rows[id].rank > vacated ::
        rows[id].(rank := rows[id].rank - 1);
    }

    method OpenRankSlot(project: B.ProjectId, status: B.Status, wanted: Option<int>, except: Option<B.TaskId>)
      returns (rank: int)
      modifies this
      ensures rank == B.Slot(wanted, |B.Members(old(rows), project, status, except)|)
      ensures rows == B.OpenRankSlot(old(rows), project, status, rank, except)
    {
      var column := set id | id in rows && B.InColumn(rows[id], project, status) && except != Some(id);
      assert column == B.Members(rows, project, status, except);
      var columnLength := |column|;
      rank := if wanted.None? then columnLength else Min(Max(wanted.value, 0), columnLength);
      SlotIsOpened(rows, project, status, rank, except);
      rows := rows + map id |
        id in rows && B.InColumn(rows[id], project, status) && rows[id].rank >= rank && except != Some(id) ::
        rows[id].(rank := rows[id].rank + 1);
    }

    method CreateTask(id: B.TaskId, project: B.ProjectId, status: B.Status, wanted: int)
      returns (error: Option<B.Error>)
      modifies this
      ensures match B.CreateTask(old(rows), id, project, status, wanted)
              case Ok(after) => error == None && rows == after
              case Err(e) => error == Some(e) && rows == old(rows)
    {
      if id in rows {
        return Some(B.Duplicate);
      }
      var rank := OpenRankSlot(project, status, Some(wanted), None);
      rows := rows[id := B.Row(project, status, rank)];
      error := None;
    }

    method RemoveTask(id: B.TaskId, project: B.ProjectId) returns (error: Option<B.Error>)
      modifies this
      ensures match B.RemoveTask(old(rows), id, project)
              case Ok(after) => error == None && rows == after
              case Err(e) => error == Some(e) && rows == old(rows)
    {
      if id !in rows {
        return Some(B.NotFound);
      }
      var deleted := rows[id];
      rows := rows - {id};
      CloseRankGap(project, deleted.status, deleted.rank);
      error := None;
    }

    method MoveTask(id: B.TaskId, project: B.ProjectId, requested: Option<B.Status>, wanted: Option<int>)
      returns (error: Option<B.Error>)
      modifies this
      ensures match B.MoveTask(old(rows), id, project, requested, wanted)
              case Ok(after) => error == None && rows == after
              case Err(e) => error == Some(e) && rows == old(rows)
    {
      if id !in rows {
        return Some(B.NotFound);
      }
      var current := rows[id];
      var target := requested.GetOr(current.status);
      CloseRankGap(project, current.status, current.rank);
      var nextRank := OpenRankSlot(project, target, wanted, Some(id));
      rows := rows[id := rows[id].(status := target, rank := nextRank)];
      error := None;
    }
  }
}
