/** What holds in every reachable state of the running system, and the theorems it gives. */
module RealtimeSafety {
  import opened Prelude
  import opened Leases
  import opened Realtime
  import C = Coordinator
  import P = CoordinatorProperties

  // ----- Invariant -----

  /** A lease that passed a validated update's first check is still, unchanged, in the table. */
  predicate Pinned(s: State, o: OpId, l: Lease)
    requires Known(s, o) && s.jobs[o].LeasedWrite?
  {
    && KeyOf(s, o) in s.leases && s.leases[KeyOf(s, o)] == l
    && l.holder.userId == s.jobs[o].user && l.holder.projectId == ProjectOf(s, o)
    && TokenFits(l, s.jobs[o].token)
  }

  /** What a job in its body may rely on. */
  predicate Relies(s: State, o: OpId)
    requires Known(s, o)
  {
    var j, p := s.jobs[o], ProjectOf(s, o);
    match s.progress[o]
    case Fresh => true
    case LeaseSeen(l) => j.LeasedWrite? && Pinned(s, o, l)
    case Cleared(l) =>
      if Exclusive(j) then Permitted(s.members, p, j)
      else
        && IsMember(s, UserOf(j), p) && KeyFits(s.world, j, KeyOf(s, o), p)
        && (j.LeasedWrite? ==> l.Some? && Pinned(s, o, l.value))
    case Ready =>
      && !Exclusive(j) && IsMember(s, UserOf(j), p)
      && (j.RemoveItem? ==> OwnedIfLocked(s.leases, p, KeyOf(s, o), j.user, j.token))
    case RowDeleted =>
      && j.RemoveMember? && (j.target, p) !in s.members
      && (j.target, p) in s.lost && !s.lost[(j.target, p)].swept
    case Complete(_) => true
  }

  /** Jobs advance only in their body, and are over when they leave it. */
  predicate JobOk(s: State, o: OpId)
    requires Known(s, o)
  {
    var stage := s.locks.ops[o].stage;
    && (s.locks.ops[o].key.None? <==> Exclusive(s.jobs[o]))
    && (stage in {C.AwaitProject, C.AwaitKey} ==> s.progress[o].Fresh?)
    && (stage in {C.KeyFreed, C.Finished} ==> s.progress[o].Complete?)
    && SocketFits(s.world, s.jobs[o])
    && Relies(s, o)
  }

  /** The holder of a lease is a member, or was removed without its leases being released,
      and then the lease ends within one term of the removal. */
  predicate LeaseOk(s: State, k: Key)
    requires k in s.leases
  {
    var l := s.leases[k];
    var row := (l.holder.userId, l.holder.projectId);
    && s.world.userOf(l.holder.socketId) == l.holder.userId
    && s.world.projectOf(k) == Some(l.holder.projectId)
    && l.expiresAt <= s.clock + FIELD_LOCK_TTL_MS
    && (row in s.members
        || (row in s.lost && !s.lost[row].swept && l.expiresAt <= s.lost[row].at + FIELD_LOCK_TTL_MS))
  }

  predicate Shape(s: State) {
    |s.jobs| == |s.locks.ops| == |s.progress|
  }

  /** What holds of jobs, leases and writes, apart from the lock itself. */
  predicate Sound(s: State) {
    && Shape(s)
    && (forall o {:trigger JobOk(s, o)} :: 0 <= o < |s.jobs| ==> JobOk(s, o))
    && (forall k {:trigger LeaseOk(s, k)} :: k in s.leases ==> LeaseOk(s, k))
    && (forall i :: 0 <= i < |s.written| ==> s.written[i].byMember)
  }

  predicate Inv(s: State) {
    C.Inv(s.locks) && Sound(s)
  }

  // ----- A body step disturbs nobody else's reliance -----

  /** Membership changes of `s'` are all in project p. */
  predicate MembersOnlyIn(s: State, s': State, p: ProjectId) {
    && (forall m: Membership :: m in s.members && m.1 != p ==> m in s'.members && s'.members[m] == s.members[m])
    && (forall m: Membership :: m in s'.members && m.1 != p ==> m in s.members)
    && (forall m: Membership :: m in s.lost && m.1 != p ==> m in s'.lost && s'.lost[m] == s.lost[m])
  }

  predicate SameLease(t: Table, t': Table, k: Key) {
    k in t ==> k in t' && t'[k] == t[k]
  }

  /** The effect of operation o: under a key, on that key's lease; exclusively, on the rows
      and leases of its project. */
  ghost predicate Confined(s: State, s': State, o: OpId)
    requires InBody(s, o)
  {
    && s'.world == s.world && s'.locks == s.locks && s'.jobs == s.jobs && |s'.progress| == |s.progress|
    && (forall i :: 0 <= i < |s.progress| && i != o ==> s'.progress[i] == s.progress[i])
    && if Exclusive(s.jobs[o]) then
         && MembersOnlyIn(s, s', ProjectOf(s, o))
         && (forall k :: k in s.leases && s.leases[k].holder.projectId != ProjectOf(s, o) ==>
               SameLease(s.leases, s'.leases, k))
         && (forall k :: k in s'.leases ==> SameLease(s'.leases, s.leases, k))
       else
         && s'.members == s.members && s'.lost == s.lost
         && (forall k :: k in s.leases && k != KeyOf(s, o) ==> SameLease(s.leases, s'.leases, k))
         && (forall k :: k in s'.leases && k != KeyOf(s, o) ==> SameLease(s'.leases, s.leases, k))
  }

  lemma OthersUndisturbed(s: State, s': State, o: OpId, i: OpId)
    requires Sound(s) && InBody(s, o) && Confined(s, s', o)
    requires i < |s.jobs| && i != o
    requires InBody(s, i) ==>
               && (ProjectOf(s, o) == ProjectOf(s, i) ==> !Exclusive(s.jobs[o]) && !Exclusive(s.jobs[i]))
               && (!Exclusive(s.jobs[o]) && !Exclusive(s.jobs[i]) ==> KeyOf(s, o) != KeyOf(s, i))
    ensures JobOk(s', i)
  {
    assert JobOk(s, i) && JobOk(s, o);
  }

  /** Two operations in their bodies share neither an exclusive project nor a key. */
  lemma NeverTogether(s: State, o: OpId, i: OpId)
    requires C.Inv(s.locks) && Shape(s) && InBody(s, o) && InBody(s, i) && i != o
    requires (s.locks.ops[o].key.None? <==> Exclusive(s.jobs[o])) && (s.locks.ops[i].key.None?
             <==> Exclusive(s.jobs[i]))
    ensures ProjectOf(s, o) == ProjectOf(s, i) ==> !Exclusive(s.jobs[o]) && !Exclusive(s.jobs[i])
    ensures !Exclusive(s.jobs[o]) && !Exclusive(s.jobs[i]) ==> KeyOf(s, o) != KeyOf(s, i)
  {
    if ProjectOf(s, o) == ProjectOf(s, i) {
      if Exclusive(s.jobs[o]) {
        P.ExclusiveIsAlone(s.locks, o, i);
      } else if Exclusive(s.jobs[i]) {
        P.ExclusiveIsAlone(s.locks, i, o);
      }
    }
    if !Exclusive(s.jobs[o]) && !Exclusive(s.jobs[i]) && KeyOf(s, o) == KeyOf(s, i) {
      P.KeyIsAlone(s.locks, o, i);
    }
  }

  // ----- Preservation: body steps -----

  /** What a body step has to keep by itself: its effect is confined, its own job may go on, and
      leases and writes are in order. */
  ghost predicate BodyOk(s: State, s': State, o: OpId)
    requires InBody(s, o)
  {
    && Confined(s, s', o)
    && |s'.jobs| == |s.jobs| && |s'.locks.ops| == |s.locks.ops|
    && JobOk(s', o)
    && (forall k {:trigger LeaseOk(s', k)} :: k in s'.leases ==> LeaseOk(s', k))
    && (forall i :: 0 <= i < |s'.written| ==> s'.written[i].byMember)
  }

  lemma BodyStep(s: State, s': State, o: OpId)
    requires Inv(s) && InBody(s, o) && BodyOk(s, s', o)
    ensures Inv(s')
  {
    forall i | 0 <= i < |s'.jobs| ensures JobOk(s', i) {
      if i != o {
        assert JobOk(s, i) && JobOk(s, o);
        if InBody(s, i) {
          NeverTogether(s, o, i);
        }
        OthersUndisturbed(s, s', o, i);
      }
    }
  }

  lemma LeasesFrame(s: State, s': State)
    requires forall k {:trigger LeaseOk(s, k)} :: k in s.leases ==> LeaseOk(s, k)
    requires s'.world == s.world && s'.clock >= s.clock && s'.lost == s.lost
    requires forall m: Membership :: m in s.members ==> m in s'.members
    requires forall k :: k in s'.leases ==> SameLease(s'.leases, s.leases, k)
    ensures forall k {:trigger LeaseOk(s', k)} :: k in s'.leases ==> LeaseOk(s', k)
  {
    forall k | k in s'.leases ensures LeaseOk(s', k) {
      assert LeaseOk(s, k);
    }
  }

  lemma AuthorizeStep(s: State, o: OpId)
    requires Sound(s) && Enabled(s, Authorize(o))
    ensures BodyOk(s, Next(s, Authorize(o)), o)
  {
    assert JobOk(s, o);
    LeasesFrame(s, Next(s, Authorize(o)));
  }

  /** Steps that only move the job on, or log a write. */
  lemma QuietStep(s: State, e: Event, o: OpId)
    requires Sound(s) && Enabled(s, e)
    requires (e.Fail? || e.Recheck? || e.DoWrite? || e.Return?) && e.op == o
    ensures BodyOk(s, Next(s, e), o)
  {
    assert JobOk(s, o);
    LeasesFrame(s, Next(s, e));
  }

  lemma CheckLeaseIsConfined(s: State, o: OpId)
    requires Sound(s) && Enabled(s, CheckLease(o))
    ensures Confined(s, Next(s, CheckLease(o)), o)
    ensures forall k :: k in Next(s, CheckLease(o)).leases ==> SameLease(Next(s, CheckLease(o)).leases, s.leases, k)
  {
    var j, p, k := s.jobs[o], ProjectOf(s, o), KeyOf(s, o);
    OneKey(s.leases, Validate(p, k, j.user, j.token, s.clock));
  }

  lemma CheckLeaseJob(s: State, o: OpId)
    requires Sound(s) && Enabled(s, CheckLease(o))
    ensures JobOk(Next(s, CheckLease(o)), o)
  {
    assert JobOk(s, o);
  }

  lemma CheckLeaseStep(s: State, o: OpId)
    requires Sound(s) && Enabled(s, CheckLease(o))
    ensures BodyOk(s, Next(s, CheckLease(o)), o)
  {
    CheckLeaseIsConfined(s, o);
    CheckLeaseJob(s, o);
    LeasesFrame(s, Next(s, CheckLease(o)));
  }

  lemma CheckOwnerStep(s: State, o: OpId)
    requires Sound(s) && Enabled(s, CheckOwner(o))
    ensures BodyOk(s, Next(s, CheckOwner(o)), o)
  {
    var j, p, k := s.jobs[o], ProjectOf(s, o), KeyOf(s, o);
    assert JobOk(s, o);
    OneKey(s.leases, Call.AssertOwner(p, k, j.user, j.token, s.clock));
    LeasesFrame(s, Next(s, CheckOwner(o)));
  }

  lemma OneKey(t: Table, c: Call)
    requires !c.ReleaseUserInProject?
    ensures forall x :: x in t && x != c.key ==> SameLease(t, After(t, c), x)
    ensures forall x :: x in After(t, c) && x != c.key ==> SameLease(After(t, c), t, x)
    ensures !c.Acquire? && !c.Renew? ==> SameLease(After(t, c), t, c.key)
  {
    AfterOnOneKey(t, c);
    forall x | x in t && x != c.key ensures SameLease(t, After(t, c), x) {
      assert x in t - {c.key} && (t - {c.key})[x] == t[x];
    }
    forall x | x in After(t, c) && x != c.key ensures SameLease(After(t, c), t, x) {
      assert x in After(t, c) - {c.key} && (After(t, c) - {c.key})[x] == After(t, c)[x];
    }
  }

  lemma DropLeaseStep(s: State, o: OpId)
    requires Sound(s) && Enabled(s, DropLease(o))
    ensures BodyOk(s, Next(s, DropLease(o)), o)
  {
    assert JobOk(s, o);
    OneKey(s.leases, ReleaseResource(KeyOf(s, o)));
    LeasesFrame(s, Next(s, DropLease(o)));
  }

  /** A table call under a key makes or extends only a lease of the calling member. */
  lemma UseTableLease(s: State, o: OpId, minted: Token)
    requires Sound(s) && Enabled(s, UseTable(o, minted))
    ensures var s', k := Next(s, UseTable(o, minted)), KeyOf(s, o);
            k in s'.leases ==> LeaseOk(s', k)
  {
    var k, c := KeyOf(s, o), TableCall(s, o, minted);
    assert JobOk(s, o);
    AfterOnOneKey(s.leases, c);
    assert k in s.leases ==> LeaseOk(s, k);
  }

  lemma OtherLeasesOk(s: State, o: OpId, minted: Token, x: Key)
    requires Sound(s) && Enabled(s, UseTable(o, minted))
    requires x in Next(s, UseTable(o, minted)).leases && x != KeyOf(s, o)
    ensures LeaseOk(Next(s, UseTable(o, minted)), x)
  {
    OneKey(s.leases, TableCall(s, o, minted));
    assert SameLease(Next(s, UseTable(o, minted)).leases, s.leases, x);
    assert LeaseOk(s, x);
  }

  lemma UseTableIsConfined(s: State, o: OpId, minted: Token)
    requires Sound(s) && Enabled(s, UseTable(o, minted))
    ensures Confined(s, Next(s, UseTable(o, minted)), o)
  {
    OneKey(s.leases, TableCall(s, o, minted));
  }

  lemma UseTableJob(s: State, o: OpId, minted: Token)
    requires Sound(s) && Enabled(s, UseTable(o, minted))
    ensures JobOk(Next(s, UseTable(o, minted)), o)
  {
    assert JobOk(s, o);
  }

  lemma UseTableStep(s: State, o: OpId, minted: Token)
    requires Sound(s) && Enabled(s, UseTable(o, minted))
    ensures BodyOk(s, Next(s, UseTable(o, minted)), o)
  {
    var s' := Next(s, UseTable(o, minted));
    UseTableIsConfined(s, o, minted);
    UseTableJob(s, o, minted);
    forall x | x in s'.leases ensures LeaseOk(s', x) {
      if x == KeyOf(s, o) {
        UseTableLease(s, o, minted);
      } else {
        OtherLeasesOk(s, o, minted, x);
      }
    }
  }

  lemma DeleteRowLease(s: State, o: OpId, k: Key)
    requires Sound(s) && Enabled(s, DeleteRow(o)) && k in s.leases
    ensures LeaseOk(Next(s, DeleteRow(o)), k)
  {
    assert LeaseOk(s, k);
  }

  lemma DeleteRowIsConfined(s: State, o: OpId)
    requires Sound(s) && Enabled(s, DeleteRow(o))
    ensures Confined(s, Next(s, DeleteRow(o)), o)
  {
    assert JobOk(s, o);
  }

  lemma DeleteRowStep(s: State, o: OpId)
    requires Sound(s) && Enabled(s, DeleteRow(o))
    ensures BodyOk(s, Next(s, DeleteRow(o)), o)
  {
    var s' := Next(s, DeleteRow(o));
    assert JobOk(s, o);
    DeleteRowIsConfined(s, o);
    forall k | k in s'.leases ensures LeaseOk(s', k) {
      DeleteRowLease(s, o, k);
    }
  }

  /** The sweep takes away exactly the leases of the user it removed. */
  lemma SweptLeases(s: State, o: OpId, order: seq<Key>)
    requires Enabled(s, ReleaseLeases(o, order))
    ensures var t, t', row := s.leases, Next(s, ReleaseLeases(o, order)).leases, (s.jobs[o].target, ProjectOf(s, o));
            forall k :: k in t' <==> k in t && (t[k].holder.userId, t[k].holder.projectId) != row
    ensures var t, t' := s.leases, Next(s, ReleaseLeases(o, order)).leases;
            forall k :: k in t' ==> t'[k] == t[k]
  {
  }

  lemma SweepSparesOthers(s: State, o: OpId, order: seq<Key>)
    requires Enabled(s, ReleaseLeases(o, order))
    ensures var t, t' := s.leases, Next(s, ReleaseLeases(o, order)).leases;
            && (forall k :: k in t && t[k].holder.projectId != ProjectOf(s, o) ==> SameLease(t, t', k))
            && (forall k :: k in t' ==> SameLease(t', t, k))
  {
    SweptLeases(s, o, order);
  }

  lemma SweepIsConfined(s: State, o: OpId, order: seq<Key>)
    requires Enabled(s, ReleaseLeases(o, order))
    ensures Confined(s, Next(s, ReleaseLeases(o, order)), o)
  {
    var s' := Next(s, ReleaseLeases(o, order));
    SweepSparesOthers(s, o, order);
    assert MembersOnlyIn(s, s', ProjectOf(s, o));
  }

  /** A lease that stays is another user's, so marking the row as swept does not concern it. */
  lemma SweptLeasesOk(s: State, o: OpId, order: seq<Key>, k: Key)
    requires Sound(s) && Enabled(s, ReleaseLeases(o, order))
    requires k in Next(s, ReleaseLeases(o, order)).leases
    ensures LeaseOk(Next(s, ReleaseLeases(o, order)), k)
  {
    SweptLeases(s, o, order);
    assert LeaseOk(s, k);
  }

  lemma ReleaseLeasesStep(s: State, o: OpId, order: seq<Key>)
    requires Sound(s) && Enabled(s, ReleaseLeases(o, order))
    ensures BodyOk(s, Next(s, ReleaseLeases(o, order)), o)
  {
    var s' := Next(s, ReleaseLeases(o, order));
    assert JobOk(s, o);
    SweepIsConfined(s, o, order);
    forall k | k in s'.leases ensures LeaseOk(s', k) {
      SweptLeasesOk(s, o, order, k);
    }
  }

  lemma PutRowStep(s: State, o: OpId)
    requires Sound(s) && Enabled(s, PutRow(o))
    ensures BodyOk(s, Next(s, PutRow(o)), o)
  {
    assert JobOk(s, o);
    LeasesFrame(s, Next(s, PutRow(o)));
  }

  // ----- Preservation: the other steps -----

  lemma StartStep(s: State, p: ProjectId, key: Option<Key>, job: Job)
    requires Sound(s) && Enabled(s, Start(p, key, job))
    ensures Sound(Next(s, Start(p, key, job)))
  {
    var s' := Next(s, Start(p, key, job));
    C.BeginShape(s.locks, p, key);
    forall o | 0 <= o < |s'.jobs| ensures JobOk(s', o) {
      if o < |s.jobs| {
        assert JobOk(s, o);
      }
    }
    LeasesFrame(s, s');
  }

  lemma LockStepStep(s: State, step: C.Event)
    requires Sound(s) && Enabled(s, LockStep(step))
    ensures Sound(Next(s, LockStep(step)))
  {
    var s' := Next(s, LockStep(step));
    C.StepShape(s.locks, step);
    forall o | 0 <= o < |s'.jobs| ensures JobOk(s', o) {
      assert JobOk(s, o);
    }
    LeasesFrame(s, s');
  }

  lemma OutsideStep(s: State, e: Event)
    requires Sound(s) && Enabled(s, e) && (e.Tick? || e.CreateProject?)
    ensures Sound(Next(s, e))
  {
    var s' := Next(s, e);
    forall o | 0 <= o < |s'.jobs| ensures JobOk(s', o) {
      assert JobOk(s, o);
    }
    LeasesFrame(s, s');
  }

  lemma BodyEvent(s: State, e: Event)
    requires Sound(s) && Enabled(s, e)
    requires !e.Start? && !e.LockStep? && !e.Tick? && !e.CreateProject?
    ensures BodyOk(s, Next(s, e), e.op)
  {
    if e.CheckLease? {
      CheckLeaseStep(s, e.op);
    } else if e.CheckOwner? {
      CheckOwnerStep(s, e.op);
    } else if e.Authorize? {
      AuthorizeStep(s, e.op);
    } else if e.DropLease? {
      DropLeaseStep(s, e.op);
    } else if e.UseTable? {
      UseTableStep(s, e.op, e.minted);
    } else if e.DeleteRow? {
      DeleteRowStep(s, e.op);
    } else if e.ReleaseLeases? {
      ReleaseLeasesStep(s, e.op, e.order);
    } else if e.PutRow? {
      PutRowStep(s, e.op);
    } else {
      QuietStep(s, e, e.op);
    }
  }

  lemma LockPreserves(s: State, e: Event)
    requires Inv(s) && Enabled(s, e) && (e.Start? || e.LockStep?)
    ensures Inv(Next(s, e))
  {
    if e.Start? {
      C.BeginPreserves(s.locks, e.project, e.key);
      StartStep(s, e.project, e.key, e.job);
    } else {
      C.NextPreserves(s.locks, e.step);
      LockStepStep(s, e.step);
    }
  }

  lemma BodyPreserves(s: State, e: Event)
    requires Inv(s) && Enabled(s, e)
    requires !e.Start? && !e.LockStep? && !e.Tick? && !e.CreateProject?
    ensures Inv(Next(s, e))
  {
    BodyEvent(s, e);
    BodyStep(s, Next(s, e), e.op);
  }

  lemma NextPreserves(s: State, e: Event)
    requires Inv(s) && Enabled(s, e)
    ensures Inv(Next(s, e))
  {
    if e.Start? || e.LockStep? {
      LockPreserves(s, e);
    } else if e.Tick? || e.CreateProject? {
      OutsideStep(s, e);
    } else {
      BodyPreserves(s, e);
    }
  }

  lemma {:induction false} RunInvariant(w: World, es: seq<Event>)
    requires Run(w, es).Some?
    ensures Inv(Run(w, es).value)
  {
    if es != [] {
      RunInvariant(w, es[..|es| - 1]);
      NextPreserves(Run(w, es[..|es| - 1]).value, es[|es| - 1]);
    }
  }
}
