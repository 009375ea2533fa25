/** What the two-level lock guarantees over every run. */
module CoordinatorProperties {
  import opened Prelude
  import opened Coordinator
  import L = ProjectLock
  import K = KeyLock

  /** Past the first await: the project lock is held. */
  predicate Inside(s: State, o: OpId) {
    o < |s.ops| && s.ops[o].stage in {AwaitKey, Body, KeyFreed}
  }

  predicate InBody(s: State, o: OpId) {
    o < |s.ops| && s.ops[o].stage == Body
  }

  predicate Unfinished(s: State, o: OpId) {
    o < |s.ops| && s.ops[o].stage != Finished
  }

  // ----- One coordinator per project, whatever was deleted and made again -----

  /** All unfinished operations of a project use one lock object, the one in the map; an
      entry exists exactly while such an operation exists. */
  lemma OneCoordinatorPerProject(es: seq<Event>, project: ProjectId)
    requires Run(es).Some?
    ensures var s := Run(es).value;
            && (forall o: OpId :: Unfinished(s, o) && s.ops[o].project == project ==>
                  project in s.projects && s.ops[o].coordinator == s.projects[project])
            && (project in s.projects <==> exists o: OpId :: Unfinished(s, o) && s.ops[o].project == project)
  {
    RunInvariant(es);
    var s := Run(es).value;
    forall o: OpId | Unfinished(s, o) && s.ops[o].project == project
      ensures project in s.projects && s.ops[o].coordinator == s.projects[project]
    {
      assert OpOk(s, o);
    }
    if project in s.projects {
      var r := s.projects[project];
      var l := s.locks[r];
      assert L.Everyone(l) != {} by {
        if l.queue != [] {
          assert l.queue[0].op in L.Ops(l.queue);
        }
      }
      var o :| o in L.Everyone(l);
      assert LockOk(l, r, s.ops);
      assert OpOk(s, o);
      assert Unfinished(s, o) && s.ops[o].project == project;
    }
  }

  // ----- Exclusion -----

  /** While an exclusive operation of a project is past its await, no other operation of that
      project is, on any resource. */
  lemma ExclusiveIsAlone(s: State, a: OpId, b: OpId)
    requires Inv(s) && Inside(s, a) && Inside(s, b)
    requires s.ops[a].project == s.ops[b].project && s.ops[a].key.None?
    ensures a == b
  {
    assert OpOk(s, a) && OpOk(s, b);
    HolderPastWait(s, a);
    HolderPastWait(s, b);
    var r := s.ops[a].coordinator;
    assert LockOk(s.locks[r], r, s.ops);
    assert a in Exclusives(s.ops);
  }

  /** Two operations in their body on one resource key are one, whatever their projects. */
  lemma KeyIsAlone(s: State, a: OpId, b: OpId)
    requires Inv(s) && InBody(s, a) && InBody(s, b)
    requires s.ops[a].key.Some? && s.ops[a].key == s.ops[b].key
    ensures a == b
  {
    var cells, ta, tb := s.resources.cells, s.ops[a].ticket, s.ops[b].ticket;
    assert HasTicket(cells, a, s.ops[a]) && HasTicket(cells, b, s.ops[b]);
    assert K.ServedInOrder(cells);
    assert ta == tb;
  }

  // ----- Order -----

  /** Operations are numbered as they arrive. If a later one of the project got the lock, so
      did every earlier one: nobody is overtaken. */
  lemma ProjectOrder(es: seq<Event>, a: OpId, b: OpId)
    requires Run(es).Some?
    ensures var s := Run(es).value;
            a < b && Unfinished(s, a) && Granted(s, b) && s.ops[a].project == s.ops[b].project ==> Granted(s, a)
  {
    RunInvariant(es);
    var s := Run(es).value;
    if a < b && Unfinished(s, a) && Granted(s, b) && s.ops[a].project == s.ops[b].project {
      assert OpOk(s, a) && OpOk(s, b);
      var r := s.ops[a].coordinator;
      assert LockOk(s.locks[r], r, s.ops);
    }
  }

  /** On one key the body runs in ticket order: everyone with an earlier ticket has left. */
  lemma KeyOrder(es: seq<Event>, t: K.Ticket)
    requires Run(es).Some?
    ensures var cells := Run(es).value.resources.cells;
            t < |cells| && cells[t].entered ==>
              forall i :: 0 <= i < t && cells[i].key == cells[t].key ==> cells[i].released
  {
    RunInvariant(es);
  }

  // ----- Progress -----

  /** The step an unfinished operation is waiting to take, or takes next. */
  function Own(s: State, o: OpId): Event
    requires o < |s.ops|
  {
    match s.ops[o].stage
    case AwaitProject => Resume(o)
    case AwaitKey => EnterKey(o)
    case Body => if s.ops[o].key.Some? then FreeKey(o) else Leave(o)
    case KeyFreed => Leave(o)
    case Finished => Leave(o)
  }

  /** The first at a key is in its body, or its await can return. */
  lemma FirstCanStep(s: State, first: K.Ticket)
    requires Inv(s) && K.Busy(s.resources.cells, first)
    requires s.resources.cells[first].entered || K.CanEnter(s.resources, first)
    ensures Unfinished(s, s.resources.cells[first].op)
    ensures Enabled(s, Own(s, s.resources.cells[first].op))
  {
    var mover := s.resources.cells[first].op;
    assert OpOk(s, mover) && HasTicket(s.resources.cells, mover, s.ops[mover]);
  }

  /** An operation past its first await can step, or somebody at its key can. */
  lemma InsideCanStep(s: State, o: OpId) returns (mover: OpId)
    requires Inv(s) && Inside(s, o)
    ensures Unfinished(s, mover) && Enabled(s, Own(s, mover))
  {
    assert OpOk(s, o);
    if AtKey(s.ops[o]) {
      assert HasTicket(s.resources.cells, o, s.ops[o]);
      var first := K.SomebodyIsNext(s.resources, s.ops[o].ticket);
      mover := s.resources.cells[first].op;
      FirstCanStep(s, first);
    } else {
      mover := o;
    }
  }

  /** Somebody can step as long as somebody is unfinished. */
  lemma SomebodyCanStep(s: State, o: OpId) returns (mover: OpId)
    requires Inv(s) && Unfinished(s, o)
    ensures Unfinished(s, mover) && Enabled(s, Own(s, mover))
  {
    assert OpOk(s, o);
    if s.ops[o].stage != AwaitProject {
      mover := InsideCanStep(s, o);
      return;
    }
    var r := s.ops[o].coordinator;
    var l := s.locks[r];
    assert LockOk(l, r, s.ops);
    assert L.Holders(l) != {} by {
      if o !in L.Holders(l) {
        assert l.queue != [];
      }
    }
    var h :| h in L.Holders(l);
    assert h in L.Everyone(l) && OpOk(s, h);
    if s.ops[h].stage == AwaitProject {
      mover := h;
    } else {
      mover := InsideCanStep(s, h);
    }
  }

  /** Deadlock freedom, although resource keys are shared between projects. */
  lemma NoDeadlock(es: seq<Event>, o: OpId)
    requires Run(es).Some? && Unfinished(Run(es).value, o)
    ensures exists mover :: Unfinished(Run(es).value, mover) && Enabled(Run(es).value, Own(Run(es).value, mover))
  {
    RunInvariant(es);
    var mover := SomebodyCanStep(Run(es).value, o);
  }

  // ----- Termination -----

  function Rank(stage: Stage): nat {
    match stage
    case AwaitProject => 4
    case AwaitKey => 3
    case Body => 2
    case KeyFreed => 1
    case Finished => 0
  }

  /** Stages still ahead of all operations together. */
  function Work(ops: seq<Op>): nat {
    if ops == [] then 0 else Work(ops[..|ops| - 1]) + Rank(ops[|ops| - 1].stage)
  }

  lemma {:induction false} WorkOfUpdate(ops: seq<Op>, o: OpId, op: Op)
    requires o < |ops|
    ensures Work(ops[o := op]) == Work(ops) - Rank(ops[o].stage) + Rank(op.stage)
  {
    var n := |ops| - 1;
    if o == n {
      assert ops[o := op][..n] == ops[..n];
    } else {
      assert ops[o := op][..n] == ops[..n][o := op];
      WorkOfUpdate(ops[..n], o, op);
    }
  }

  lemma StepDoesWork(s: State, e: Event)
    requires Enabled(s, e) && !e.Begin?
    ensures Work(Next(s, e).ops) < Work(s.ops)
  {
    var s' := Next(s, e);
    WorkOfUpdate(s.ops, e.op, s'.ops[e.op]);
    assert s'.ops == s.ops[e.op := s'.ops[e.op]];
  }

  function RunFrom(s: State, es: seq<Event>): Option<State>
    decreases |es|
  {
    if es == [] then Some(s)
    else if Enabled(s, es[0]) then RunFrom(Next(s, es[0]), es[1..])
    else None
  }

  predicate NoArrivals(es: seq<Event>) {
    forall e :: e in es ==> !e.Begin?
  }

  predicate AllFinished(s: State) {
    forall o :: 0 <= o < |s.ops| ==> s.ops[o].stage == Finished
  }

  lemma {:induction false} RunFromFacts(s: State, es: seq<Event>)
    requires Inv(s) && RunFrom(s, es).Some? && NoArrivals(es)
    ensures Inv(RunFrom(s, es).value) && |es| + Work(RunFrom(s, es).value.ops) <= Work(s.ops)
    decreases |es|
  {
    if es != [] {
      NextPreserves(s, es[0]);
      StepDoesWork(s, es[0]);
      RunFromFacts(Next(s, es[0]), es[1..]);
    }
  }

  /** A state is stuck exactly when every operation has finished. */
  lemma StuckIsFinished(s: State)
    requires Inv(s)
    ensures (forall e :: Enabled(s, e) ==> e.Begin?) <==> AllFinished(s)
  {
    if !AllFinished(s) {
      var o :| 0 <= o < |s.ops| && s.ops[o].stage != Finished;
      var mover := SomebodyCanStep(s, o);
    }
  }

  /** Once no operation arrives, a run from any reachable state has at most Work steps, and
      it can go no further exactly when every operation has finished. */
  lemma EveryOperationFinishes(es: seq<Event>, more: seq<Event>)
    requires Run(es).Some? && RunFrom(Run(es).value, more).Some? && NoArrivals(more)
    ensures |more| <= Work(Run(es).value.ops)
    ensures var end := RunFrom(Run(es).value, more).value;
            (forall e :: Enabled(end, e) ==> e.Begin?) <==> AllFinished(end)
  {
    RunInvariant(es);
    RunFromFacts(Run(es).value, more);
    StuckIsFinished(RunFrom(Run(es).value, more).value);
  }
}
