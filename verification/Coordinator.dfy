/** The two-level lock (ProjectResourceCoordinator) as a transition system.

    One step is what runs between two awaits of runProject and runProjectResource. Lock
    objects live in a heap that only grows, so that two objects made for one project at
    different times are told apart; `projects` is the program's map, from which idle entries
    are deleted. */
module Coordinator {
  import opened Prelude
  import L = ProjectLock
  import K = KeyLock

  type ProjectId = string
  type OpId = nat
  type Ref = nat

  datatype Stage = AwaitProject | AwaitKey | Body | KeyFreed | Finished

  /** One call. Without a key it is runProject (exclusive), with a key runProjectResource. */
  datatype Op = Op(project: ProjectId, key: Option<K.Key>, coordinator: Ref, ticket: K.Ticket, stage: Stage)

  datatype State = State(projects: map<ProjectId, Ref>, locks: seq<L.Lock>, resources: K.Keyed, ops: seq<Op>)

  const INITIAL := State(map[], [], K.EMPTY, [])

  datatype Event =
    | Begin(project: ProjectId, key: Option<K.Key>)
    | Resume(op: OpId)
    | EnterKey(op: OpId)
    | FreeKey(op: OpId)
    | Leave(op: OpId)

  // ----- The program's steps -----

  function ModeOf(key: Option<K.Key>): L.Mode {
    if key.Some? then L.Shared else L.Exclusive
  }

  function GetProject(projects: map<ProjectId, Ref>, locks: seq<L.Lock>, project: ProjectId)
    : (map<ProjectId, Ref>, seq<L.Lock>)
  {
    if project in projects then (projects, locks)
    else (projects[project := |locks|], locks + [L.UNLOCKED])
  }

  /** releaseProjectIfIdle: the entry goes only if it still is this very object. */
  function ForgetIfIdle(projects: map<ProjectId, Ref>, locks: seq<L.Lock>, project: ProjectId, r: Ref)
    : map<ProjectId, Ref>
    requires r < |locks|
  {
    if L.Idle(locks[r]) && project in projects && projects[project] == r then projects - {project} else projects
  }

  function Prepared(s: State, project: ProjectId): State {
    var (projects, locks) := GetProject(s.projects, s.locks, project);
    s.(projects := projects, locks := locks)
  }

  predicate Live(s: State, o: OpId) {
    o < |s.ops| && s.ops[o].stage != Finished && s.ops[o].coordinator < |s.locks|
  }

  predicate Granted(s: State, o: OpId) {
    Live(s, o) && o in L.Holders(s.locks[s.ops[o].coordinator])
  }

  predicate TicketOk(s: State, o: OpId) {
    o < |s.ops| && s.ops[o].key.Some? && s.ops[o].ticket < |s.resources.cells|
  }

  predicate Enabled(s: State, e: Event) {
    match e
    case Begin(_, _) => forall p :: p in s.projects ==> s.projects[p] < |s.locks|
    case Resume(o) => Granted(s, o) && s.ops[o].stage == AwaitProject
    case EnterKey(o) => TicketOk(s, o) && s.ops[o].stage == AwaitKey && K.CanEnter(s.resources, s.ops[o].ticket)
    case FreeKey(o) => TicketOk(s, o) && s.ops[o].stage == Body
    case Leave(o) => Live(s, o) && s.ops[o].stage == if s.ops[o].key.Some? then KeyFreed else Body
  }

  function SetStage(s: State, o: OpId, stage: Stage): State
    requires o < |s.ops|
  {
    s.(ops := s.ops[o := s.ops[o].(stage := stage)])
  }

  function Next(s: State, e: Event): State
    requires Enabled(s, e)
  {
    match e
    case Begin(project, key) =>
      var s1 := Prepared(s, project);
      var r, o := s1.projects[project], |s.ops|;
      var lock := L.Acquire(s1.locks[r], L.Waiter(o, ModeOf(key))).lock;
      s1.(locks := s1.locks[r := lock], ops := s.ops + [Op(project, key, r, 0, AwaitProject)])
    case Resume(o) =>
      if s.ops[o].key.None? then
        SetStage(s, o, Body)
      else
        s.(resources := K.Join(s.resources, s.ops[o].key.value, o),
           ops := s.ops[o := s.ops[o].(ticket := |s.resources.cells|, stage := AwaitKey)])
    case EnterKey(o) =>
      SetStage(s, o, Body).(resources := K.Enter(s.resources, s.ops[o].ticket))
    case FreeKey(o) =>
      SetStage(s, o, KeyFreed).(resources := K.Release(s.resources, s.ops[o].ticket))
    case Leave(o) =>
      var r := s.ops[o].coordinator;
      var locks := s.locks[r := L.Release(s.locks[r], o).lock];
      SetStage(s, o, Finished).(locks := locks, projects := ForgetIfIdle(s.projects, locks, s.ops[o].project, r))
  }

  function Run(es: seq<Event>): Option<State> {
    if es == [] then
      Some(INITIAL)
    else
      var s :- Run(es[..|es| - 1]);
      if Enabled(s, es[|es| - 1]) then Some(Next(s, es[|es| - 1])) else None
  }

  /** A call adds its operation and changes no other. */
  lemma BeginShape(s: State, project: ProjectId, key: Option<K.Key>)
    requires Enabled(s, Begin(project, key))
    ensures var ops, ops' := s.ops, Next(s, Begin(project, key)).ops;
            && |ops'| == |ops| + 1 && ops'[..|ops|] == ops
            && ops'[|ops|].project == project && ops'[|ops|].key == key && ops'[|ops|].stage == AwaitProject
  {
  }

  function StageAfter(op: Op, e: Event): Stage {
    match e
    case Begin(_, _) => op.stage
    case Resume(_) => if op.key.None? then Body else AwaitKey
    case EnterKey(_) => Body
    case FreeKey(_) => KeyFreed
    case Leave(_) => Finished
  }

  /** Any other step moves one operation on and leaves the rest as they are. */
  lemma StepShape(s: State, e: Event)
    requires Enabled(s, e) && !e.Begin?
    ensures var ops, ops' := s.ops, Next(s, e).ops;
            && e.op < |ops| == |ops'|
            && (forall o :: 0 <= o < |ops| && o != e.op ==> ops'[o] == ops[o])
            && ops'[e.op].(ticket := ops[e.op].ticket) == ops[e.op].(stage := StageAfter(ops[e.op], e))
  {
  }

  // ----- Invariant -----

  function Exclusives(ops: seq<Op>): set<OpId> {
    set o | 0 <= o < |ops| && ops[o].key.None?
  }

  /** Every lock is in order, and only unfinished operations of its own appear in it; those
      still queued have not resumed. */
  predicate LockOk(l: L.Lock, r: Ref, ops: seq<Op>) {
    && L.Inv(l)
    && L.Typed(l, Exclusives(ops))
    && L.InOrder(l)
    && Belong(l, r, ops)
    && Await(l, ops)
  }

  predicate Belong(l: L.Lock, r: Ref, ops: seq<Op>) {
    forall o :: o in L.Everyone(l) ==> o < |ops| && ops[o].coordinator == r && ops[o].stage != Finished
  }

  predicate Await(l: L.Lock, ops: seq<Op>) {
    forall o :: o in L.Ops(l.queue) ==> o < |ops| && ops[o].stage == AwaitProject
  }

  predicate LocksOk(s: State) {
    forall r :: 0 <= r < |s.locks| ==> LockOk(s.locks[r], r, s.ops)
  }

  /** An unfinished operation is in the lock its project maps to. */
  predicate OpOk(s: State, o: OpId)
    requires o < |s.ops|
  {
    var op := s.ops[o];
    op.stage != Finished ==>
      && op.coordinator < |s.locks|
      && op.project in s.projects && s.projects[op.project] == op.coordinator
      && o in L.Everyone(s.locks[op.coordinator])
      && (op.stage in {AwaitKey, KeyFreed} ==> op.key.Some?)
  }

  predicate OpsOk(s: State) {
    forall o :: 0 <= o < |s.ops| ==> OpOk(s, o)
  }

  /** The map has no idle entry and no two projects share an object. */
  predicate ProjectsOk(s: State) {
    && (forall p :: p in s.projects ==> s.projects[p] < |s.locks| && !L.Idle(s.locks[s.projects[p]]))
    && (forall p, q :: p in s.projects && q in s.projects && s.projects[p] == s.projects[q] ==> p == q)
  }

  predicate AtKey(op: Op) {
    op.key.Some? && op.stage in {AwaitKey, Body}
  }

  predicate HasTicket(cells: seq<K.Cell>, o: OpId, op: Op)
    requires AtKey(op)
  {
    && K.Busy(cells, op.ticket)
    && cells[op.ticket].op == o
    && cells[op.ticket].key == op.key.value
    && (cells[op.ticket].entered <==> op.stage == Body)
  }

  /** Unreleased tickets and operations at a key correspond one to one. */
  predicate TicketsOk(s: State) {
    && K.Inv(s.resources)
    && (forall o :: 0 <= o < |s.ops| && AtKey(s.ops[o]) ==> HasTicket(s.resources.cells, o, s.ops[o]))
    && (forall t :: 0 <= t < |s.resources.cells| && !s.resources.cells[t].released ==>
          var o := s.resources.cells[t].op;
          o < |s.ops| && AtKey(s.ops[o]) && s.ops[o].ticket == t)
  }

  predicate Inv(s: State) {
    LocksOk(s) && OpsOk(s) && ProjectsOk(s) && TicketsOk(s)
  }

  // ----- Preservation: one lock -----

  lemma {:induction false} QueueMembers(q: seq<L.Waiter>)
    ensures forall i :: 0 <= i < |q| ==> q[i].op in L.Ops(q)
  {
    if q != [] {
      QueueMembers(q[1..]);
      assert forall i :: 1 <= i < |q| ==> q[i] == q[1..][i - 1];
    }
  }

  /** The operations of a lock keep their place, their kind and, if queued, their stage. */
  predicate Keeps(l: L.Lock, ops: seq<Op>, ops': seq<Op>) {
    && |ops| <= |ops'|
    && (forall o :: o in L.Everyone(l) && o < |ops| ==>
          && ops'[o].coordinator == ops[o].coordinator && ops'[o].key == ops[o].key
          && ops'[o].stage != Finished
          && (ops'[o].stage == ops[o].stage || o !in L.Ops(l.queue)))
  }

  /** Whoever is in the lock came for the same kind of access under both lists of operations. */
  lemma TypedFrame(l: L.Lock, ops: seq<Op>, ops': seq<Op>)
    requires L.Typed(l, Exclusives(ops))
    requires forall o :: o in L.Everyone(l) ==> o < |ops| <= |ops'| && ops'[o].key == ops[o].key
    ensures L.Typed(l, Exclusives(ops'))
  {
    QueueMembers(l.queue);
    forall o | o in L.Everyone(l) ensures o in Exclusives(ops') <==> o in Exclusives(ops) {}
  }

  lemma LockOkFrame(l: L.Lock, r: Ref, ops: seq<Op>, ops': seq<Op>)
    requires LockOk(l, r, ops) && Keeps(l, ops, ops')
    ensures LockOk(l, r, ops')
  {
    TypedFrame(l, ops, ops');
  }

  /** A settled lock has the members of the lock before, and a part of its queue. */
  lemma ServedMembers(l: L.Lock, o: L.Outcome, r: Ref, ops: seq<Op>)
    requires L.Served(l, o) && L.Everyone(o.lock) == L.Everyone(l)
    requires Belong(l, r, ops) && Await(l, ops)
    ensures Belong(o.lock, r, ops) && Await(o.lock, ops)
  {
    L.OpsConcat(o.woken, o.lock.queue);
  }

  lemma JoinedMembers(l: L.Lock, w: L.Waiter, r: Ref, ops: seq<Op>, op: Op)
    requires Belong(l, r, ops) && Await(l, ops) && w.op == |ops|
    requires op.coordinator == r && op.stage == AwaitProject
    ensures var joined := l.(queue := l.queue + [w]);
            && Belong(joined, r, ops + [op]) && Await(joined, ops + [op])
            && L.Everyone(joined) == L.Everyone(l) + {w.op}
  {
    var joined := l.(queue := l.queue + [w]);
    L.OpsConcat(l.queue, [w]);
    assert L.Ops([w]) == {w.op};
    assert L.Holders(joined) == L.Holders(l);
    assert L.Everyone(joined) == L.Everyone(l) + {w.op};
    forall o | o in L.Ops(joined.queue)
      ensures o < |ops + [op]| && (ops + [op])[o].stage == AwaitProject
    {
    }
  }

  lemma AcquireMembers(l: L.Lock, r: Ref, ops: seq<Op>, op: Op)
    requires L.Inv(l) && Belong(l, r, ops) && Await(l, ops)
    requires op.coordinator == r && op.stage == AwaitProject
    ensures var l' := L.Acquire(l, L.Waiter(|ops|, ModeOf(op.key))).lock;
            && Belong(l', r, ops + [op]) && Await(l', ops + [op])
            && L.Everyone(l') == L.Everyone(l) + {|ops|}
  {
    var w := L.Waiter(|ops|, ModeOf(op.key));
    L.AcquirePreserves(l, w);
    JoinedMembers(l, w, r, ops, op);
    ServedMembers(l.(queue := l.queue + [w]), L.Acquire(l, w), r, ops + [op]);
  }

  lemma AcquireTyped(l: L.Lock, r: Ref, ops: seq<Op>, op: Op)
    requires L.Inv(l) && L.Typed(l, Exclusives(ops)) && Belong(l, r, ops)
    ensures L.Typed(L.Acquire(l, L.Waiter(|ops|, ModeOf(op.key))).lock, Exclusives(ops + [op]))
  {
    TypedFrame(l, ops, ops + [op]);
    L.StepKeepsTypes(l, L.Waiter(|ops|, ModeOf(op.key)), Exclusives(ops + [op]));
  }

  lemma AcquireLockOk(l: L.Lock, r: Ref, ops: seq<Op>, op: Op)
    requires LockOk(l, r, ops)
    requires op.coordinator == r && op.stage == AwaitProject
    ensures var l' := L.Acquire(l, L.Waiter(|ops|, ModeOf(op.key))).lock;
            && LockOk(l', r, ops + [op])
            && L.Everyone(l') == L.Everyone(l) + {|ops|}
  {
    var w := L.Waiter(|ops|, ModeOf(op.key));
    L.AcquirePreserves(l, w);
    L.AcquireKeepsOrder(l, w);
    AcquireTyped(l, r, ops, op);
    AcquireMembers(l, r, ops, op);
  }

  lemma FinishedMembers(l: L.Lock, r: Ref, ops: seq<Op>, o: OpId)
    requires Belong(l, r, ops) && Await(l, ops) && o < |ops| && o !in L.Everyone(l)
    ensures var ops' := ops[o := ops[o].(stage := Finished)];
            Belong(l, r, ops') && Await(l, ops')
  {
  }

  lemma ReleaseMembers(l: L.Lock, r: Ref, ops: seq<Op>, o: OpId)
    requires L.Inv(l) && Belong(l, r, ops) && Await(l, ops) && o in L.Holders(l) && o < |ops|
    ensures var l', ops' := L.Release(l, o).lock, ops[o := ops[o].(stage := Finished)];
            Belong(l', r, ops') && Await(l', ops')
  {
    var rest := l.(readers := l.readers - {o}, writer := None);
    L.ReleasePreserves(l, o);
    assert L.Everyone(rest) == L.Everyone(l) - {o};
    ServedMembers(rest, L.Release(l, o), r, ops);
    FinishedMembers(L.Release(l, o).lock, r, ops, o);
  }

  lemma FinishedTyped(l: L.Lock, r: Ref, ops: seq<Op>, o: OpId)
    requires L.Typed(l, Exclusives(ops)) && Belong(l, r, ops) && o < |ops|
    ensures L.Typed(l, Exclusives(ops[o := ops[o].(stage := Finished)]))
  {
    TypedFrame(l, ops, ops[o := ops[o].(stage := Finished)]);
  }

  lemma ReleaseLockOk(l: L.Lock, r: Ref, ops: seq<Op>, o: OpId, ops': seq<Op>)
    requires LockOk(l, r, ops) && o in L.Holders(l)
    requires o < |ops| && ops' == ops[o := ops[o].(stage := Finished)]
    ensures var l' := L.Release(l, o).lock;
            && LockOk(l', r, ops')
            && L.Everyone(l') == L.Everyone(l) - {o}
            && L.Holders(l) - {o} <= L.Holders(l')
  {
    FinishedTyped(l, r, ops, o);
    L.StepKeepsTypes(l, L.Waiter(o, L.Shared), Exclusives(ops'));
    L.StepKeepsOrder(l, L.Waiter(o, L.Shared));
    ReleaseMembers(l, r, ops, o);
    L.ReleasePreserves(l, o);
  }

  // ----- Preservation: the steps -----

  lemma BeginLocks(s: State, project: ProjectId, key: Option<K.Key>)
    requires Inv(s)
    ensures Enabled(s, Begin(project, key))
    ensures var s', n := Next(s, Begin(project, key)), |s.ops|;
            && LocksOk(s')
            && (forall i :: 0 <= i < |s.locks| ==> L.Everyone(s.locks[i]) <= L.Everyone(s'.locks[i]))
            && n in L.Everyone(s'.locks[s'.ops[n].coordinator])
  {
    var s1 := Prepared(s, project);
    var r, n := s1.projects[project], |s.ops|;
    var s' := Next(s, Begin(project, key));
    forall i | 0 <= i < |s1.locks| ensures LockOk(s1.locks[i], i, s.ops) {
      if i < |s.locks| {
        assert LockOk(s.locks[i], i, s.ops);
      }
    }
    AcquireLockOk(s1.locks[r], r, s.ops, s'.ops[n]);
    forall i | 0 <= i < |s'.locks| ensures LockOk(s'.locks[i], i, s'.ops) {
      if i != r {
        LockOkFrame(s1.locks[i], i, s.ops, s'.ops);
      }
    }
  }

  /** Locks that lose nobody and entries that stay keep an untouched operation in place. */
  lemma OpOkFrame(s: State, s': State, o: OpId)
    requires o < |s.ops| <= |s'.ops| && OpOk(s, o) && s'.ops[o] == s.ops[o]
    requires |s.locks| <= |s'.locks|
    requires forall i :: 0 <= i < |s.locks| ==> L.Everyone(s.locks[i]) <= L.Everyone(s'.locks[i])
    requires forall p :: p in s.projects ==> p in s'.projects && s'.projects[p] == s.projects[p]
    ensures OpOk(s', o)
  {
  }

  lemma OneMoreOp(s: State, s': State)
    requires OpsOk(s)
    requires |s'.ops| == |s.ops| + 1 && s'.ops[..|s.ops|] == s.ops && OpOk(s', |s.ops|)
    requires |s.locks| <= |s'.locks|
    requires forall i :: 0 <= i < |s.locks| ==> L.Everyone(s.locks[i]) <= L.Everyone(s'.locks[i])
    requires forall p :: p in s.projects ==> p in s'.projects && s'.projects[p] == s.projects[p]
    ensures OpsOk(s')
  {
    forall o | 0 <= o < |s.ops| ensures OpOk(s', o) {
      assert s'.ops[o] == s.ops[o];
      OpOkFrame(s, s', o);
    }
  }

  lemma BeginOps(s: State, project: ProjectId, key: Option<K.Key>)
    requires Inv(s)
    ensures Enabled(s, Begin(project, key)) && OpsOk(Next(s, Begin(project, key)))
  {
    BeginLocks(s, project, key);
    OneMoreOp(s, Next(s, Begin(project, key)));
  }

  /** The map gains at most the new object, and a lock with somebody in it is not idle. */
  lemma ProjectsGrow(s: State, s': State, project: ProjectId)
    requires ProjectsOk(s) && |s.locks| <= |s'.locks|
    requires project in s'.projects && s'.projects[project] < |s'.locks|
    requires L.Everyone(s'.locks[s'.projects[project]]) != {}
    requires forall p :: p in s'.projects && p != project ==> p in s.projects && s'.projects[p] == s.projects[p]
    requires project in s.projects ==> s'.projects[project] == s.projects[project]
    requires project !in s.projects ==> s'.projects[project] == |s.locks|
    requires forall i :: 0 <= i < |s.locks| ==> L.Everyone(s.locks[i]) <= L.Everyone(s'.locks[i])
    ensures ProjectsOk(s')
  {
    forall p | p in s'.projects ensures s'.projects[p] < |s'.locks| && !L.Idle(s'.locks[s'.projects[p]]) {
      if p != project {
        assert !L.Idle(s.locks[s.projects[p]]);
        NotIdle(s.locks[s.projects[p]]);
      }
      NotIdle(s'.locks[s'.projects[p]]);
    }
  }

  lemma NotIdle(l: L.Lock)
    ensures L.Idle(l) <==> L.Everyone(l) == {}
  {
    if l.queue != [] {
      assert l.queue[0].op in L.Ops(l.queue);
    }
  }

  lemma BeginProjects(s: State, project: ProjectId, key: Option<K.Key>)
    requires Inv(s)
    ensures Enabled(s, Begin(project, key)) && ProjectsOk(Next(s, Begin(project, key)))
  {
    BeginLocks(s, project, key);
    ProjectsGrow(s, Next(s, Begin(project, key)), project);
  }

  lemma BeginPreserves(s: State, project: ProjectId, key: Option<K.Key>)
    requires Inv(s)
    ensures Enabled(s, Begin(project, key)) && Inv(Next(s, Begin(project, key)))
  {
    BeginLocks(s, project, key);
    BeginOps(s, project, key);
    BeginProjects(s, project, key);
    var s' := Next(s, Begin(project, key));
    TicketsFrame(s, s');
  }

  lemma TicketsFrame(s: State, s': State)
    requires TicketsOk(s) && s'.resources == s.resources && |s.ops| <= |s'.ops|
    requires forall o :: 0 <= o < |s'.ops| && AtKey(s'.ops[o]) ==> o < |s.ops|
    requires forall o :: 0 <= o < |s.ops| && (AtKey(s.ops[o]) || AtKey(s'.ops[o])) ==> s'.ops[o] == s.ops[o]
    ensures TicketsOk(s')
  {
  }

  lemma ResumePreserves(s: State, o: OpId)
    requires Inv(s) && Enabled(s, Resume(o))
    ensures Inv(Next(s, Resume(o)))
  {
    var s' := Next(s, Resume(o));
    StageLocks(s, o, s');
    forall i | 0 <= i < |s'.ops| ensures OpOk(s', i) {
      assert OpOk(s, i);
    }
    if s.ops[o].key.None? {
      TicketsFrame(s, s');
    } else {
      K.JoinPreserves(s.resources, s.ops[o].key.value, o);
      JoinTickets(s, o);
    }
  }

  /** A holder that moves to another unfinished stage leaves every lock in order. */
  lemma StageLocks(s: State, o: OpId, s': State)
    requires LocksOk(s) && Granted(s, o) && s'.locks == s.locks && |s'.ops| == |s.ops|
    requires s'.ops[o].coordinator == s.ops[o].coordinator && s'.ops[o].key == s.ops[o].key
    requires s'.ops[o].stage != Finished
    requires forall i :: 0 <= i < |s.ops| && i != o ==> s'.ops[i] == s.ops[i]
    ensures LocksOk(s')
  {
    forall r | 0 <= r < |s.locks| ensures LockOk(s.locks[r], r, s'.ops) {
      assert LockOk(s.locks[r], r, s.ops);
      LockOkFrame(s.locks[r], r, s.ops, s'.ops);
    }
  }

  lemma JoinTickets(s: State, o: OpId)
    requires TicketsOk(s) && Enabled(s, Resume(o)) && s.ops[o].key.Some?
    requires K.Inv(Next(s, Resume(o)).resources)
    ensures TicketsOk(Next(s, Resume(o)))
  {
    var s', n := Next(s, Resume(o)), |s.resources.cells|;
    forall i | 0 <= i < |s'.ops| && AtKey(s'.ops[i]) ensures HasTicket(s'.resources.cells, i, s'.ops[i]) {
      if i != o {
        assert AtKey(s.ops[i]) && HasTicket(s.resources.cells, i, s.ops[i]);
      }
    }
    forall t | 0 <= t < |s'.resources.cells| && !s'.resources.cells[t].released
      ensures var i := s'.resources.cells[t].op;
              i < |s'.ops| && AtKey(s'.ops[i]) && s'.ops[i].ticket == t
    {
      if t < n {
        assert s'.resources.cells[t] == s.resources.cells[t];
      }
    }
  }

  lemma EnterKeyPreserves(s: State, o: OpId)
    requires Inv(s) && Enabled(s, EnterKey(o))
    ensures Inv(Next(s, EnterKey(o)))
  {
    var s', t := Next(s, EnterKey(o)), s.ops[o].ticket;
    HolderPastWait(s, o);
    StageLocks(s, o, s');
    forall i | 0 <= i < |s'.ops| ensures OpOk(s', i) {
      assert OpOk(s, i);
    }
    K.EnterPreserves(s.resources, t);
    CellTickets(s, o, s');
  }

  /** Operations that resumed hold their lock. */
  lemma HolderPastWait(s: State, o: OpId)
    requires LocksOk(s) && OpsOk(s) && o < |s.ops| && s.ops[o].stage !in {AwaitProject, Finished}
    ensures Granted(s, o)
  {
    assert OpOk(s, o);
    assert LockOk(s.locks[s.ops[o].coordinator], s.ops[o].coordinator, s.ops);
  }

  /** Of all operations and tickets only `o` and its own ticket move. */
  ghost predicate OneTicketMoves(s: State, o: OpId, s': State) {
    && o < |s.ops| && AtKey(s.ops[o]) && |s'.ops| == |s.ops|
    && (forall i :: 0 <= i < |s.ops| && i != o ==> s'.ops[i] == s.ops[i])
    && var t := s.ops[o].ticket;
    && t < |s.resources.cells| == |s'.resources.cells|
    && (forall i :: 0 <= i < |s.resources.cells| && i != t ==> s'.resources.cells[i] == s.resources.cells[i])
    && s'.resources.cells[t].op == o
    && (AtKey(s'.ops[o]) ==> s'.ops[o].ticket == t && HasTicket(s'.resources.cells, o, s'.ops[o]))
    && (!s'.resources.cells[t].released ==> AtKey(s'.ops[o]))
  }

  lemma OpsHaveTickets(s: State, o: OpId, s': State, i: OpId)
    requires TicketsOk(s) && OneTicketMoves(s, o, s') && i < |s'.ops| && AtKey(s'.ops[i])
    ensures HasTicket(s'.resources.cells, i, s'.ops[i])
  {
    if i != o {
      assert HasTicket(s.resources.cells, i, s.ops[i]);
      assert HasTicket(s.resources.cells, o, s.ops[o]);
    }
  }

  /** An operation and its own ticket move together; no other ticket is involved. */
  lemma CellTickets(s: State, o: OpId, s': State)
    requires TicketsOk(s) && K.Inv(s'.resources)
    requires OneTicketMoves(s, o, s')
    ensures TicketsOk(s')
  {
    forall i | 0 <= i < |s'.ops| && AtKey(s'.ops[i]) ensures HasTicket(s'.resources.cells, i, s'.ops[i]) {
      OpsHaveTickets(s, o, s', i);
    }
    forall i | 0 <= i < |s'.resources.cells| && !s'.resources.cells[i].released
      ensures var x := s'.resources.cells[i].op;
              x < |s'.ops| && AtKey(s'.ops[x]) && s'.ops[x].ticket == i
    {
      if i != s.ops[o].ticket {
        assert s'.resources.cells[i] == s.resources.cells[i];
      }
    }
  }

  lemma FreeKeyOps(s: State, o: OpId)
    requires OpsOk(s) && Enabled(s, FreeKey(o))
    ensures OpsOk(Next(s, FreeKey(o)))
  {
    var s' := Next(s, FreeKey(o));
    forall i | 0 <= i < |s'.ops| ensures OpOk(s', i) {
      assert OpOk(s, i);
    }
  }

  lemma FreeKeyTickets(s: State, o: OpId)
    requires TicketsOk(s) && Enabled(s, FreeKey(o))
    ensures TicketsOk(Next(s, FreeKey(o)))
  {
    assert AtKey(s.ops[o]) && HasTicket(s.resources.cells, o, s.ops[o]);
    K.ReleasePreserves(s.resources, s.ops[o].ticket);
    CellTickets(s, o, Next(s, FreeKey(o)));
  }

  lemma FreeKeyPreserves(s: State, o: OpId)
    requires Inv(s) && Enabled(s, FreeKey(o))
    ensures Inv(Next(s, FreeKey(o)))
  {
    HolderPastWait(s, o);
    StageLocks(s, o, Next(s, FreeKey(o)));
    FreeKeyOps(s, o);
    FreeKeyTickets(s, o);
  }

  lemma LeaveLocks(s: State, o: OpId)
    requires Inv(s) && Enabled(s, Leave(o))
    ensures var s', r := Next(s, Leave(o)), s.ops[o].coordinator;
            && LocksOk(s')
            && L.Everyone(s'.locks[r]) == L.Everyone(s.locks[r]) - {o}
  {
    var s', r := Next(s, Leave(o)), s.ops[o].coordinator;
    HolderPastWait(s, o);
    assert LockOk(s.locks[r], r, s.ops);
    ReleaseLockOk(s.locks[r], r, s.ops, o, s'.ops);
    forall i | 0 <= i < |s'.locks| ensures LockOk(s'.locks[i], i, s'.ops) {
      if i != r {
        assert LockOk(s.locks[i], i, s.ops);
        LockOkFrame(s.locks[i], i, s.ops, s'.ops);
      }
    }
  }

  lemma LeavePreserves(s: State, o: OpId)
    requires Inv(s) && Enabled(s, Leave(o))
    ensures Inv(Next(s, Leave(o)))
  {
    var s', r := Next(s, Leave(o)), s.ops[o].coordinator;
    LeaveLocks(s, o);
    assert OpOk(s, o);
    forall i | 0 <= i < |s'.ops| ensures OpOk(s', i) {
      assert OpOk(s, i);
      if i != o && s.ops[i].stage != Finished && s.ops[i].coordinator == r {
        assert i in L.Everyone(s'.locks[r]);
        assert !L.Idle(s'.locks[r]);
      }
    }
    LeaveProjects(s, o);
    TicketsFrame(s, s');
  }

  lemma LeaveProjects(s: State, o: OpId)
    requires OpsOk(s) && ProjectsOk(s) && Enabled(s, Leave(o))
    ensures ProjectsOk(Next(s, Leave(o)))
  {
    assert OpOk(s, o);
  }

  lemma NextPreserves(s: State, e: Event)
    requires Inv(s) && Enabled(s, e)
    ensures Inv(Next(s, e))
  {
    match e
    case Begin(project, key) => BeginPreserves(s, project, key);
    case Resume(o) => ResumePreserves(s, o);
    case EnterKey(o) => EnterKeyPreserves(s, o);
    case FreeKey(o) => FreeKeyPreserves(s, o);
    case Leave(o) => LeavePreserves(s, o);
  }

  lemma {:induction false} RunInvariant(es: seq<Event>)
    requires Run(es).Some?
    ensures Inv(Run(es).value)
  {
    if es != [] {
      RunInvariant(es[..|es| - 1]);
      NextPreserves(Run(es[..|es| - 1]).value, es[|es| - 1]);
    }
  }
}
