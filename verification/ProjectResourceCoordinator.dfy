/** ProjectResourceCoordinator as the program keeps it: a map of lock objects. runProject and
    runProjectResource are cut at their awaits; what runs up to the first await and what runs
    after the last one are the Begin and Leave steps of module Coordinator. */
module ProjectResourceCoordinators {
  import opened Prelude
  import opened Coordinator
  import opened ProjectCoordinators
  import L = ProjectLock

  ghost predicate Numbered(objects: seq<ProjectCoordinator>)
    reads objects
  {
    forall i :: 0 <= i < |objects| ==> objects[i].number == i && objects[i].Valid()
  }

  ghost function LocksOf(objects: seq<ProjectCoordinator>): (locks: seq<L.Lock>)
    reads objects
    ensures |locks| == |objects| && forall i :: 0 <= i < |objects| ==> locks[i] == objects[i].View()
  {
    if objects == [] then [] else LocksOf(objects[..|objects| - 1]) + [objects[|objects| - 1].View()]
  }

  lemma OneReplaced(before: seq<L.Lock>, after: seq<L.Lock>, n: nat)
    requires |after| == |before| && n < |before|
    requires forall i :: 0 <= i < |before| && i != n ==> after[i] == before[i]
    ensures after == before[n := after[n]]
  {
  }

  class ProjectResourceCoordinator {
    var projects: map<ProjectId, ProjectCoordinator>
    // The lock objects made so far, by number.
    ghost var objects: seq<ProjectCoordinator>

    ghost predicate Valid()
      reads this, objects
    {
      && Numbered(objects)
      && forall p :: p in projects ==> projects[p] in objects
    }

    ghost function Refs(): map<ProjectId, Ref>
      reads this`projects
    {
      map p | p in projects :: projects[p].number
    }

    ghost function Locks(): seq<L.Lock>
      reads this`objects, objects
    {
      LocksOf(objects)
    }

    /** An operation that has asked none of the locks yet. */
    ghost predicate Strange(op: OpId)
      reads this`objects, objects
    {
      forall i :: 0 <= i < |objects| ==> op !in L.Everyone(objects[i].View())
    }

    constructor ()
      ensures Valid() && Refs() == map[] && Locks() == []
    {
      projects, objects := map[], [];
    }

    method GetProject(projectId: ProjectId, ghost op: OpId) returns (project: ProjectCoordinator)
      requires Valid()
      modifies this
      ensures Valid() && project in objects
      ensures (Refs(), Locks()) == Coordinator.GetProject(old(Refs()), old(Locks()), projectId)
      ensures projectId in projects && projects[projectId] == project
      ensures forall x :: x in objects && x !in old(objects) ==> fresh(x)
      ensures old(Strange(op)) ==> op !in L.Everyone(project.View())
    {
      if projectId in projects {
        project := projects[projectId];
      } else {
        project := new ProjectCoordinator(|objects|);
        objects := objects + [project];
        projects := projects[projectId := project];
        assert objects[..|objects| - 1] == old(objects);
        assert Refs() == old(Refs())[projectId := |old(objects)|];
        assert Locks() == old(Locks()) + [L.UNLOCKED];
      }
    }

    /** Compares the object, not the name: a newer object of that name stays. */
    method ReleaseProjectIfIdle(projectId: ProjectId, project: ProjectCoordinator)
      requires Valid() && project in objects
      modifies this`projects
      ensures Valid()
      ensures Refs() == ForgetIfIdle(old(Refs()), Locks(), projectId, project.number)
    {
      var idle := project.IsIdle();
      assert projectId in projects ==>
               (projects[projectId] == project <==> projects[projectId].number == project.number);
      if idle && projectId in projects && projects[projectId] == project {
        projects := projects - {projectId};
        assert Refs() == old(Refs()) - {projectId};
      }
    }

    static method Ask(project: ProjectCoordinator, mode: L.Mode, op: OpId) returns (granted: bool)
      requires project.Valid() && op !in L.Everyone(project.View())
      modifies project
      ensures project.Valid()
      ensures project.View() == L.Acquire(old(project.View()), L.Waiter(op, mode)).lock
      ensures granted == (L.Acquire(old(project.View()), L.Waiter(op, mode)).woken != [])
    {
      if mode.Shared? {
        granted := project.AcquireShared(op);
      } else {
        granted := project.AcquireExclusive(op);
      }
    }

    method Acquire(project: ProjectCoordinator, mode: L.Mode, op: OpId) returns (granted: bool)
      requires Valid() && project in objects
      requires op !in L.Everyone(project.View())
      modifies project
      ensures Valid()
      ensures project.number < |old(Locks())|
      ensures var o := L.Acquire(old(Locks())[project.number], L.Waiter(op, mode));
              Locks() == old(Locks())[project.number := o.lock] && granted == (o.woken != [])
    {
      ghost var before := Locks();
      assert objects[project.number] == project;
      assert forall i :: 0 <= i < |objects| && i != project.number ==> objects[i] != project;
      granted := Ask(project, mode, op);
      assert Numbered(objects);
      OneReplaced(before, Locks(), project.number);
    }

    /** The release function an acquire of this mode resolves to. */
    static method Resolve(project: ProjectCoordinator, mode: L.Mode, ghost op: OpId) returns (woken: seq<L.Waiter>)
      requires project.Valid() && L.Inv(project.View())
      requires if mode.Shared? then op in project.readers else project.writer == Some(op)
      modifies project
      ensures project.Valid()
      ensures project.View() == L.Release(old(project.View()), op).lock
      ensures woken == L.Release(old(project.View()), op).woken
    {
      if mode.Shared? {
        woken := project.ReleaseShared(op);
      } else {
        woken := project.ReleaseExclusive();
      }
    }

    method Release(project: ProjectCoordinator, mode: L.Mode, ghost op: OpId) returns (woken: seq<L.Waiter>)
      requires Valid() && project in objects && L.Inv(project.View())
      requires if mode.Shared? then op in project.readers else project.writer == Some(op)
      modifies project
      ensures Valid()
      ensures Locks() == old(Locks())[project.number := L.Release(old(project.View()), op).lock]
      ensures woken == L.Release(old(project.View()), op).woken
    {
      ghost var before := Locks();
      assert objects[project.number] == project;
      assert forall i :: 0 <= i < |objects| && i != project.number ==> objects[i] != project;
      woken := Resolve(project, mode, op);
      assert Numbered(objects);
      OneReplaced(before, Locks(), project.number);
    }

    /** runProject and runProjectResource up to their first await. */
    method Begin(projectId: ProjectId, mode: L.Mode, op: OpId) returns (project: ProjectCoordinator, granted: bool)
      requires Valid() && Strange(op)
      modifies this, objects
      ensures Valid() && project in objects
      ensures Refs() == Coordinator.GetProject(old(Refs()), old(Locks()), projectId).0
      ensures projectId in Refs() && Refs()[projectId] == project.number
      ensures project.number < |Coordinator.GetProject(old(Refs()), old(Locks()), projectId).1|
      ensures var locks := Coordinator.GetProject(old(Refs()), old(Locks()), projectId).1;
              var o := L.Acquire(locks[project.number], L.Waiter(op, mode));
              Locks() == locks[project.number := o.lock] && granted == (o.woken != [])
    {
      project := GetProject(projectId, op);
      granted := Acquire(project, mode, op);
    }

    /** runProject and runProjectResource after the operation: release, then forget an idle entry. */
    method Leave(projectId: ProjectId, project: ProjectCoordinator, mode: L.Mode, ghost op: OpId)
      returns (woken: seq<L.Waiter>)
      requires Valid() && project in objects && L.Inv(project.View())
      requires if mode.Shared? then op in project.readers else project.writer == Some(op)
      modifies this`projects, project
      ensures Valid()
      ensures Locks() == old(Locks())[project.number := L.Release(old(project.View()), op).lock]
      ensures woken == L.Release(old(project.View()), op).woken
      ensures Refs() == ForgetIfIdle(old(Refs()), Locks(), projectId, project.number)
    {
      woken := Release(project, mode, op);
      ReleaseProjectIfIdle(projectId, project);
    }
  }
}
