/** The guarantees of the running system. */
module RealtimeProperties {
  import opened Prelude
  import opened Leases
  import opened Realtime
  import opened RealtimeSafety

  predicate HeldBy(t: Table, k: Key, u: UserId, p: ProjectId) {
    k in t && t[k].holder.userId == u && t[k].holder.projectId == p
  }

  // ----- Writes -----

  lemma WriterIsMember(s: State, o: OpId)
    requires Sound(s) && Enabled(s, DoWrite(o))
    ensures (UserOf(s.jobs[o]).value, ProjectOf(s, o)) in s.members
  {
    assert JobOk(s, o);
  }

  lemma RequesterMay(s: State, o: OpId)
    requires Sound(s) && (Enabled(s, DeleteRow(o)) || Enabled(s, PutRow(o)))
    ensures Permitted(s.members, ProjectOf(s, o), s.jobs[o])
    ensures (s.jobs[o].requester, ProjectOf(s, o)) in s.members
  {
    assert JobOk(s, o);
  }

  /** In every interleaving, a write made under the coordinator runs while its user is a
      member of the project, and a membership change while its requester may still make it. */
  lemma WritesAreByMembers(w: World, es: seq<Event>)
    requires Run(w, es).Some?
    ensures var s := Run(w, es).value;
            && (forall i :: 0 <= i < |s.written| ==> s.written[i].byMember)
            && (forall o: OpId :: Enabled(s, DoWrite(o)) ==> (UserOf(s.jobs[o]).value, ProjectOf(s, o)) in s.members)
            && (forall o: OpId :: Enabled(s, DeleteRow(o)) || Enabled(s, PutRow(o)) ==>
                  && Permitted(s.members, ProjectOf(s, o), s.jobs[o])
                  && (s.jobs[o].requester, ProjectOf(s, o)) in s.members)
  {
    RunInvariant(w, es);
    var s := Run(w, es).value;
    forall o: OpId | Enabled(s, DoWrite(o)) ensures (UserOf(s.jobs[o]).value, ProjectOf(s, o)) in s.members {
      WriterIsMember(s, o);
    }
    forall o: OpId | Enabled(s, DeleteRow(o)) || Enabled(s, PutRow(o))
      ensures Permitted(s.members, ProjectOf(s, o), s.jobs[o])
      ensures (s.jobs[o].requester, ProjectOf(s, o)) in s.members
    {
      RequesterMay(s, o);
    }
  }

  /** A validated update is let through to its operation exactly when the lease its first
      check saw has not run out: behind the locks nothing else can happen to that lease. */
  lemma OnlyExpiryStopsAValidatedUpdate(w: World, es: seq<Event>, o: OpId)
    requires Run(w, es).Some? && Enabled(Run(w, es).value, Recheck(o))
    ensures var s := Run(w, es).value;
            var p, k, j, seen := ProjectOf(s, o), KeyOf(s, o), s.jobs[o], s.progress[o].lease;
            && seen.Some? && k in s.leases && s.leases[k] == seen.value
            && (Next(s, Recheck(o)).progress[o] == Ready <==> !Expired(seen.value, s.clock))
            && (Next(s, Recheck(o)).progress[o] == Ready <==> Valid(s.leases, p, k, j.user, j.token, s.clock))
  {
    RunInvariant(w, es);
    assert JobOk(Run(w, es).value, o);
  }

  // ----- Live leases -----

  /** The lease is still there, with its holder and token; its term may have been extended. */
  predicate Stays(t: Table, t': Table, k: Key)
    requires k in t
  {
    k in t' && t'[k].holder == t[k].holder && t'[k].token == t[k].token
  }

  /** The three ways to end a lease before its term: its socket gives it up or is gone, its user
      removes the item it is for with its token, or its user is removed from the project. */
  predicate Ends(s: State, e: Event, l: Lease)
    requires Enabled(s, e)
  {
    || (e.UseTable? && (s.jobs[e.op].UnlockField? || s.jobs[e.op].DropSocket?)
        && s.jobs[e.op].socketId == l.holder.socketId)
    || (e.DropLease? && s.jobs[e.op].user == l.holder.userId && s.jobs[e.op].token == Some(l.token))
    || (e.ReleaseLeases? && s.jobs[e.op].target == l.holder.userId && ProjectOf(s, e.op) == l.holder.projectId)
  }

  lemma TableCallKeepsLive(s: State, o: OpId, minted: Token, k: Key)
    requires Enabled(s, UseTable(o, minted)) && k in s.leases && !Expired(s.leases[k], s.clock)
    ensures Stays(s.leases, Next(s, UseTable(o, minted)).leases, k) || Ends(s, UseTable(o, minted), s.leases[k])
  {
    OneKey(s.leases, TableCall(s, o, minted));
  }

  /** Nothing anybody else does ends a live lease. */
  lemma LiveLeasesEndByTheirOwn(w: World, es: seq<Event>, e: Event, k: Key)
    requires Run(w, es).Some? && Enabled(Run(w, es).value, e)
    requires k in Run(w, es).value.leases && !Expired(Run(w, es).value.leases[k], Run(w, es).value.clock)
    ensures var s := Run(w, es).value;
            Stays(s.leases, Next(s, e).leases, k) || Ends(s, e, s.leases[k])
  {
    RunInvariant(w, es);
    LiveLeaseStep(Run(w, es).value, e, k);
  }

  /** The checks of a body drop only leases that have run out. */
  lemma ChecksKeepLive(s: State, e: Event, k: Key)
    requires Enabled(s, e) && (e.CheckLease? || e.CheckOwner?)
    requires k in s.leases && !Expired(s.leases[k], s.clock)
    ensures Stays(s.leases, Next(s, e).leases, k)
  {
  }

  lemma RemovalEndsOwn(s: State, e: Event, k: Key)
    requires Sound(s) && Enabled(s, e) && (e.DropLease? || e.ReleaseLeases?)
    requires k in s.leases
    ensures Stays(s.leases, Next(s, e).leases, k) || Ends(s, e, s.leases[k])
  {
    assert JobOk(s, e.op);
  }

  lemma OtherStepsKeepLive(s: State, e: Event, k: Key)
    requires Enabled(s, e) && k in s.leases
    requires !e.UseTable? && !e.DropLease? && !e.ReleaseLeases? && !e.CheckLease? && !e.CheckOwner?
    ensures Next(s, e).leases == s.leases
  {
  }

  lemma LiveLeaseStep(s: State, e: Event, k: Key)
    requires Sound(s) && Enabled(s, e) && k in s.leases && !Expired(s.leases[k], s.clock)
    ensures Stays(s.leases, Next(s, e).leases, k) || Ends(s, e, s.leases[k])
  {
    if e.UseTable? {
      TableCallKeepsLive(s, e.op, e.minted, k);
    } else if e.DropLease? || e.ReleaseLeases? {
      RemovalEndsOwn(s, e, k);
    } else if e.CheckLease? || e.CheckOwner? {
      ChecksKeepLive(s, e, k);
    } else {
      OtherStepsKeepLive(s, e, k);
    }
  }

  // ----- Leases after a removal -----

  /** After a removal that reached its end, and until the user is a member again, no lease of
      the user in the project exists. A removal that threw after deleting the row is the only
      way to leave one, and it ends within one term of the deletion. */
  lemma LeasesOfNonMembers(w: World, es: seq<Event>, u: UserId, p: ProjectId, k: Key)
    requires Run(w, es).Some?
    ensures var s := Run(w, es).value;
            HeldBy(s.leases, k, u, p) && (u, p) !in s.members ==>
              && (u, p) in s.lost && !s.lost[(u, p)].swept
              && s.leases[k].expiresAt <= s.lost[(u, p)].at + FIELD_LOCK_TTL_MS
  {
    RunInvariant(w, es);
    var s := Run(w, es).value;
    if HeldBy(s.leases, k, u, p) {
      assert LeaseOk(s, k);
    }
  }

  /** How removeMember ends decides it: at its last step none of the target's leases in the
      project is left, but if it throws between deleting the row and that step, every one of
      them is left, with the target no longer a member. */
  lemma RemovalClearsLeasesUnlessItThrows(w: World, es: seq<Event>, o: OpId, order: seq<Key>, k: Key)
    requires Run(w, es).Some? && Enabled(Run(w, es).value, ReleaseLeases(o, order))
    ensures var s := Run(w, es).value;
            var u, p := s.jobs[o].target, ProjectOf(s, o);
            var done, threw := Next(s, ReleaseLeases(o, order)), Next(s, Fail(o));
            && done.progress[o] == Complete(true) && !HeldBy(done.leases, k, u, p)
            && (u, p) in done.lost && done.lost[(u, p)] == Loss(s.clock, true) && (u, p) !in done.members
            && threw.progress[o] == Complete(false) && (u, p) !in threw.members
            && (HeldBy(threw.leases, k, u, p) <==> k in order)
  {
    RunInvariant(w, es);
    var s := Run(w, es).value;
    assert JobOk(s, o);
    SweptLeases(s, o, order);
  }

  // ----- Owners -----

  predicate Owns(m: Members, u: UserId, p: ProjectId) {
    (u, p) in m && m[(u, p)] == Owner
  }

  /** Every project with members has an owner, and only one. */
  ghost predicate OwnersOk(m: Members) {
    && (forall row: Membership :: row in m ==> exists u :: Owns(m, u, row.1))
    && (forall u, v, p :: Owns(m, u, p) && Owns(m, v, p) ==> u == v)
  }

  /** No step takes an owner's place away. */
  lemma OwnersStay(s: State, e: Event, u: UserId, p: ProjectId)
    requires Sound(s) && Enabled(s, e) && Owns(s.members, u, p)
    ensures Owns(Next(s, e).members, u, p)
  {
    if e.DeleteRow? || e.PutRow? {
      assert JobOk(s, e.op);
    }
  }

  /** No step makes a second owner. */
  lemma NoSecondOwner(s: State, e: Event, u: UserId, p: ProjectId)
    requires Sound(s) && Enabled(s, e) && Owns(Next(s, e).members, u, p)
    ensures Owns(s.members, u, p) || (e.CreateProject? && e.owner == u && e.project == p)
  {
    if e.DeleteRow? || e.PutRow? {
      assert JobOk(s, e.op);
    }
  }

  /** A new row is in a new project of its owner, or in a project that had rows before. */
  lemma RowsHaveProjects(s: State, e: Event, row: Membership)
    requires Sound(s) && Enabled(s, e) && row in Next(s, e).members
    ensures (e.CreateProject? && row.1 == e.project) || exists r: Membership :: r in s.members && r.1 == row.1
  {
    if e.PutRow? {
      RequesterMay(s, e.op);
      assert row in s.members || (s.jobs[e.op].requester, row.1) in s.members;
    }
  }

  /** New rows belong to projects that have an owner. */
  lemma RowsHaveOwners(s: State, e: Event, row: Membership)
    requires Sound(s) && Enabled(s, e) && OwnersOk(s.members) && row in Next(s, e).members
    ensures exists u :: Owns(Next(s, e).members, u, row.1)
  {
    RowsHaveProjects(s, e, row);
    if e.CreateProject? && row.1 == e.project {
      assert Owns(Next(s, e).members, e.owner, row.1);
    } else {
      var r: Membership :| r in s.members && r.1 == row.1;
      var u :| Owns(s.members, u, r.1);
      OwnersStay(s, e, u, row.1);
    }
  }

  lemma OwnersAgree(s: State, e: Event, u: UserId, v: UserId, p: ProjectId)
    requires Sound(s) && Enabled(s, e) && OwnersOk(s.members)
    requires Owns(Next(s, e).members, u, p) && Owns(Next(s, e).members, v, p)
    ensures u == v
  {
    NoSecondOwner(s, e, u, p);
    NoSecondOwner(s, e, v, p);
    if e.CreateProject? && e.project == p {
      assert (u, p) !in s.members && (v, p) !in s.members;
    }
  }

  lemma {:induction false} OneOwnerPerProject(w: World, es: seq<Event>)
    requires Run(w, es).Some?
    ensures OwnersOk(Run(w, es).value.members)
  {
    if es != [] {
      var s, e := Run(w, es[..|es| - 1]).value, es[|es| - 1];
      RunInvariant(w, es[..|es| - 1]);
      OneOwnerPerProject(w, es[..|es| - 1]);
      OwnersStep(s, e);
    }
  }

  lemma OwnersStep(s: State, e: Event)
    requires Sound(s) && Enabled(s, e) && OwnersOk(s.members)
    ensures OwnersOk(Next(s, e).members)
  {
    var m' := Next(s, e).members;
    forall row: Membership | row in m' ensures exists u :: Owns(m', u, row.1) {
      RowsHaveOwners(s, e, row);
    }
    forall u, v, p | Owns(m', u, p) && Owns(m', v, p) ensures u == v {
      OwnersAgree(s, e, u, v, p);
    }
  }
}
