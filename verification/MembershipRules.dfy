/** Who may change the rows of a project's members, over every run and step by step. */
module MembershipRules {
  import opened Prelude
  import opened Leases
  import opened Realtime
  import opened RealtimeSafety

  predicate Manages(m: Members, user: UserId, p: ProjectId) {
    (user, p) in m && (m[(user, p)] == Owner || m[(user, p)] == Admin)
  }

  /** Changing or removing somebody else's row: an admin's takes the owner, an owner's nobody. */
  predicate MayManage(m: Members, actor: UserId, row: Membership) {
    && Manages(m, actor, row.1) && row in m && m[row] != Owner
    && (m[row] == Admin ==> m[(actor, row.1)] == Owner)
  }

  // ----- Authorization -----

  /** What it takes for a membership request to be cleared. */
  predicate Entitled(m: Members, p: ProjectId, j: Job)
    requires Exclusive(j)
  {
    match j
    case AddMember(actor, target) => Manages(m, actor, p) && (target, p) !in m
    case ChangeRole(actor, target, role) => MayManage(m, actor, (target, p)) && role != m[(target, p)] && role != Owner
    case RemoveMember(actor, target) =>
      && (target, p) in m && m[(target, p)] != Owner
      && (actor == target || MayManage(m, actor, (target, p)))
  }

  /** A membership request is cleared exactly when its requester is entitled to it then, and refused
      otherwise; clearing changes no row. */
  lemma ClearedExactly(s: State, o: OpId)
    requires Enabled(s, Authorize(o)) && Exclusive(s.jobs[o])
    ensures var s' := Next(s, Authorize(o));
            && (s'.progress[o] == Cleared(None) <==> Entitled(s.members, ProjectOf(s, o), s.jobs[o]))
            && (s'.progress[o] == Complete(false) <==> !Entitled(s.members, ProjectOf(s, o), s.jobs[o]))
            && s'.members == s.members && s'.leases == s.leases && s'.written == s.written
  {
  }

  /** Any other request goes on exactly when its user is a member, and a message or removal about a field
      only if the field is the project's. */
  lemma AdmittedExactly(s: State, o: OpId)
    requires Enabled(s, Authorize(o)) && !Exclusive(s.jobs[o])
    ensures var s', j, p := Next(s, Authorize(o)), s.jobs[o], ProjectOf(s, o);
            && UserOf(j).Some?
            && (!s'.progress[o].Complete? <==>
                  && (UserOf(j).value, p) in s.members
                  && (j.LockField? || j.UnlockField? || j.RenewField? || j.QueryField? || j.RemoveItem? ==>
                        s.world.projectOf(KeyOf(s, o)) == Some(p)))
            && (s'.progress[o].Complete? ==> s'.progress[o] == Complete(false))
            && s'.members == s.members && s'.leases == s.leases && s'.written == s.written
  {
  }

  // ----- Changes -----

  lemma ClearedIsEntitled(s: State, e: Event)
    requires Sound(s) && Enabled(s, e) && (e.DeleteRow? || e.PutRow?)
    ensures Exclusive(s.jobs[e.op]) && Entitled(s.members, ProjectOf(s, e.op), s.jobs[e.op])
  {
    assert JobOk(s, e.op);
  }

  /** The step wrote the row for a cleared request about it. */
  predicate Writes(s: State, e: Event, row: Membership)
    requires Enabled(s, e)
  {
    && (e.DeleteRow? || e.PutRow?)
    && Exclusive(s.jobs[e.op]) && s.jobs[e.op].target == row.0 && ProjectOf(s, e.op) == row.1
  }

  predicate ChangedByRight(s: State, e: Event, row: Membership)
    requires Enabled(s, e) && row in s.members && row in Next(s, e).members
  {
    var now, after := s.members[row], Next(s, e).members[row];
    && Writes(s, e, row) && s.jobs[e.op].ChangeRole? && after == s.jobs[e.op].role
    && (after == Admin || after == Member) && after != now && now != Owner
    && var actor := (s.jobs[e.op].requester, row.1);
    && actor in s.members && (s.members[actor] == Owner || s.members[actor] == Admin)
    && (now == Admin ==> s.members[actor] == Owner)
  }

  predicate RemovedByRight(s: State, e: Event, row: Membership)
    requires Enabled(s, e) && row in s.members
  {
    && Writes(s, e, row) && s.jobs[e.op].RemoveMember? && s.members[row] != Owner
    && var actor := (s.jobs[e.op].requester, row.1);
    && (actor == row || (&& actor in s.members && (s.members[actor] == Owner || s.members[actor] == Admin)
                      && (s.members[row] == Admin ==> s.members[actor] == Owner)))
  }

  predicate AddedByRight(s: State, e: Event, row: Membership)
    requires Enabled(s, e) && row in Next(s, e).members
  {
    || (e == CreateProject(row.1, row.0) && Next(s, e).members[row] == Owner)
    || (&& Writes(s, e, row) && s.jobs[e.op].AddMember? && Next(s, e).members[row] == Member
        && var actor := (s.jobs[e.op].requester, row.1);
        && actor in s.members && (s.members[actor] == Owner || s.members[actor] == Admin))
  }

  lemma RowsChangeByRight(s: State, e: Event, row: Membership)
    requires Sound(s) && Enabled(s, e)
    ensures var m, m' := s.members, Next(s, e).members;
            && (row in m && row in m' && m'[row] != m[row] ==> ChangedByRight(s, e, row))
            && (row in m && row !in m' ==> RemovedByRight(s, e, row))
            && (row !in m && row in m' ==> AddedByRight(s, e, row))
  {
    if e.DeleteRow? || e.PutRow? {
      ClearedIsEntitled(s, e);
    }
  }

  /** In every run and at every step: a role changes to admin or member by the owner or an admin, and an
      admin's only by the owner; a row goes by its own user or in the same way, and the owner's never; a
      row comes with a new project, as its owner's, or as a member's, by the owner or an admin. */
  lemma MembersChangeByRight(w: World, es: seq<Event>, e: Event, row: Membership)
    requires Run(w, es).Some? && Enabled(Run(w, es).value, e)
    ensures var s := Run(w, es).value;
            var m, m' := s.members, Next(s, e).members;
            && (row in m && row in m' && m'[row] != m[row] ==> ChangedByRight(s, e, row))
            && (row in m && row !in m' ==> RemovedByRight(s, e, row))
            && (row !in m && row in m' ==> AddedByRight(s, e, row))
  {
    RunInvariant(w, es);
    RowsChangeByRight(Run(w, es).value, e, row);
  }

  /** A cleared request does what it asks for, to its target's row and to no other. */
  lemma ClearedIsDone(w: World, es: seq<Event>, e: Event)
    requires Run(w, es).Some? && Enabled(Run(w, es).value, e) && (e.DeleteRow? || e.PutRow?)
    ensures var s := Run(w, es).value;
            var j, m, m' := s.jobs[e.op], s.members, Next(s, e).members;
            && Exclusive(j)
            && var row := (j.target, ProjectOf(s, e.op));
            && m' - {row} == m - {row}
            && match j
               case AddMember(_, _) => row !in m && row in m' && m'[row] == Member
               case ChangeRole(_, _, role) => row in m && row in m' && m'[row] == role
               case RemoveMember(_, _) => row in m && row !in m'
  {
    RunInvariant(w, es);
    RowIsWritten(Run(w, es).value, e);
  }

  lemma RowIsWritten(s: State, e: Event)
    requires Sound(s) && Enabled(s, e) && (e.DeleteRow? || e.PutRow?)
    ensures var j, m, m' := s.jobs[e.op], s.members, Next(s, e).members;
            && Exclusive(j)
            && var row := (j.target, ProjectOf(s, e.op));
            && m' - {row} == m - {row}
            && match j
               case AddMember(_, _) => row !in m && row in m' && m'[row] == Member
               case ChangeRole(_, _, role) => row in m && row in m' && m'[row] == role
               case RemoveMember(_, _) => row in m && row !in m'
  {
    ClearedIsEntitled(s, e);
    var row := (s.jobs[e.op].target, ProjectOf(s, e.op));
    assert Next(s, e).members - {row} == s.members - {row};
  }
}
