/** The order of calls. A promise that is resolved queues what awaits it, and the queue is served from
    the front; so the calls of one project reach their resource keys in the order they were made. */
module CallOrder {
  import opened Prelude
  import opened Coordinator
  import L = ProjectLock
  import K = KeyLock
  import P = CoordinatorProperties

  /** The two-level lock and the operations whose project lock was resolved and not yet taken up. */
  datatype Turns = Turns(state: State, queue: seq<OpId>)

  const AT_START := Turns(INITIAL, [])

  function Ids(ws: seq<L.Waiter>): (ids: seq<OpId>)
    ensures |ids| == |ws| && forall i :: 0 <= i < |ws| ==> ids[i] == ws[i].op
  {
    if ws == [] then [] else [ws[0].op] + Ids(ws[1..])
  }

  /** The operations whose project promise a step resolves, in order. */
  function Resolved(s: State, e: Event): seq<OpId>
    requires Enabled(s, e)
  {
    match e
    case Begin(project, key) =>
      var s1 := Prepared(s, project);
      Ids(L.Acquire(s1.locks[s1.projects[project]], L.Waiter(|s.ops|, ModeOf(key))).woken)
    case Leave(o) => Ids(L.Release(s.locks[s.ops[o].coordinator], o).woken)
    case _ => []
  }

  /** An operation takes up its project lock when it is at the front. */
  predicate Allowed(t: Turns, e: Event) {
    Enabled(t.state, e) && (e.Resume? ==> t.queue != [] && t.queue[0] == e.op)
  }

  function Step(t: Turns, e: Event): Turns
    requires Allowed(t, e)
  {
    Turns(Next(t.state, e), (if e.Resume? then t.queue[1..] else t.queue) + Resolved(t.state, e))
  }

  function RunInTurn(es: seq<Event>): Option<Turns> {
    if es == [] then
      Some(AT_START)
    else
      var t :- RunInTurn(es[..|es| - 1]);
      if Allowed(t, es[|es| - 1]) then Some(Step(t, es[|es| - 1])) else None
  }

  // ---------------------------------------------------------------- the queue

  /** Has the lock of its project and has not gone on. */
  predicate Pending(s: State, o: OpId) {
    Granted(s, o) && s.ops[o].stage == AwaitProject
  }

  /** The queue holds exactly the pending operations. */
  ghost predicate QueuedOk(t: Turns) {
    && (forall o: OpId {:trigger Pending(t.state, o)} :: Pending(t.state, o) ==> o in t.queue)
    && (forall i {:trigger t.queue[i]} :: 0 <= i < |t.queue| ==> Pending(t.state, t.queue[i]))
  }

  predicate InTurn(ops: seq<Op>, a: OpId, b: OpId) {
    a < |ops| && b < |ops| && ops[a].project == ops[b].project ==> a < b
  }

  /** Those of one project are queued in the order of their calls. */
  predicate OrderOk(t: Turns) {
    forall i, j {:trigger InTurn(t.state.ops, t.queue[i], t.queue[j])} ::
      0 <= i < j < |t.queue| ==> InTurn(t.state.ops, t.queue[i], t.queue[j])
  }

  lemma {:induction false} IdsAscend(ws: seq<L.Waiter>)
    requires L.Ascending(ws)
    ensures forall i, j :: 0 <= i < j < |ws| ==> ws[i].op < ws[j].op
    ensures forall o :: o in Ids(ws) <==> o in L.Ops(ws)
  {
    if ws != [] {
      IdsAscend(ws[1..]);
      QueueMembers(ws[1..]);
      forall i, j | 0 <= i < j < |ws|
        ensures ws[i].op < ws[j].op
      {
        assert ws[j] == ws[1..][j - 1];
        if i > 0 {
          assert ws[i] == ws[1..][i - 1];
        }
      }
    }
  }

  /** What settling hands on: ascending, later than every holder, and the only new holders. */
  lemma ServedAscend(l: L.Lock, o: L.Outcome)
    requires L.InOrder(l) && L.Served(l, o)
    ensures L.Ascending(o.woken) && L.Below(L.Holders(l), L.Ops(o.woken))
    ensures L.Ops(o.woken) <= L.Ops(l.queue)
  {
    L.AscendingConcat(o.woken, o.lock.queue);
    L.OpsConcat(o.woken, o.lock.queue);
  }

  // ---------------------------------------------------------------- steps without a hand-over

  /** Taking up the front leaves the other pending operations pending, and no other. */
  lemma ResumePending(s: State, o: OpId, x: OpId)
    requires Enabled(s, Resume(o))
    ensures Pending(Next(s, Resume(o)), x) <==> Pending(s, x) && x != o
  {
  }

  lemma FrontIsAlone(t: Turns, i: nat)
    requires QueuedOk(t) && OrderOk(t) && 0 < i < |t.queue|
    ensures t.queue[i] != t.queue[0]
  {
    assert Pending(t.state, t.queue[0]) && Pending(t.state, t.queue[i]);
    assert InTurn(t.state.ops, t.queue[0], t.queue[i]);
  }

  lemma ResumeKeepsQueued(t: Turns, o: OpId)
    requires QueuedOk(t) && OrderOk(t) && Allowed(t, Resume(o))
    ensures QueuedOk(Step(t, Resume(o)))
  {
    var s, t' := t.state, Step(t, Resume(o));
    assert t'.queue == t.queue[1..];
    forall i | 0 <= i < |t'.queue|
      ensures Pending(t'.state, t'.queue[i])
    {
      assert t'.queue[i] == t.queue[i + 1] && Pending(s, t.queue[i + 1]);
      FrontIsAlone(t, i + 1);
      ResumePending(s, o, t.queue[i + 1]);
    }
    forall x: OpId | Pending(t'.state, x)
      ensures x in t'.queue
    {
      ResumePending(s, o, x);
      var i :| 0 <= i < |t.queue| && t.queue[i] == x;
      assert t'.queue[i - 1] == x;
    }
  }

  lemma ResumeKeepsOrder(t: Turns, o: OpId)
    requires OrderOk(t) && Allowed(t, Resume(o))
    ensures OrderOk(Step(t, Resume(o)))
  {
    var s, t' := t.state, Step(t, Resume(o));
    assert t'.queue == t.queue[1..];
    forall i, j | 0 <= i < j < |t'.queue|
      ensures InTurn(t'.state.ops, t'.queue[i], t'.queue[j])
    {
      assert InTurn(s.ops, t.queue[i + 1], t.queue[j + 1]);
    }
  }

  lemma KeyStepKeepsQueue(t: Turns, e: Event)
    requires QueuedOk(t) && OrderOk(t) && Allowed(t, e) && (e.EnterKey? || e.FreeKey?)
    ensures QueuedOk(Step(t, e)) && OrderOk(Step(t, e))
  {
    var s, t' := t.state, Step(t, e);
    assert t'.queue == t.queue;
    forall x: OpId
      ensures Pending(t'.state, x) <==> Pending(s, x)
    {
    }
    forall i, j | 0 <= i < j < |t'.queue|
      ensures InTurn(t'.state.ops, t'.queue[i], t'.queue[j])
    {
      assert InTurn(s.ops, t.queue[i], t.queue[j]);
    }
  }

  // ---------------------------------------------------------------- steps that hand the lock on

  /** A step that lets `woken` into one lock, as far as the queue is concerned. */
  ghost predicate HandsOn(s: State, s': State, woken: seq<OpId>) {
    && |s.ops| <= |s'.ops|
    && (forall x: OpId {:trigger Pending(s', x)} :: Pending(s', x) <==> Pending(s, x) || x in woken)
    && (forall x: OpId {:trigger s'.ops[x]} :: x < |s.ops| ==> s'.ops[x].project == s.ops[x].project)
    && (forall i, j :: 0 <= i < j < |woken| ==> woken[i] < woken[j])
    && (forall x: OpId, w: OpId {:trigger Pending(s, x), InTurn(s'.ops, x, w)} ::
          Pending(s, x) && w in woken ==> InTurn(s'.ops, x, w))
  }

  lemma HandOnKeepsQueued(t: Turns, e: Event)
    requires QueuedOk(t) && Allowed(t, e) && !e.Resume?
    requires HandsOn(t.state, Next(t.state, e), Resolved(t.state, e))
    ensures QueuedOk(Step(t, e))
  {
    var t', woken := Step(t, e), Resolved(t.state, e);
    assert t'.queue == t.queue + woken;
    forall i | 0 <= i < |t'.queue|
      ensures Pending(t'.state, t'.queue[i])
    {
      if i < |t.queue| {
        assert Pending(t.state, t.queue[i]);
      } else {
        assert t'.queue[i] in woken;
      }
    }
  }

  lemma HandOnKeepsOrder(t: Turns, e: Event)
    requires QueuedOk(t) && OrderOk(t) && Allowed(t, e) && !e.Resume?
    requires HandsOn(t.state, Next(t.state, e), Resolved(t.state, e))
    ensures OrderOk(Step(t, e))
  {
    var s, t', woken := t.state, Step(t, e), Resolved(t.state, e);
    assert t'.queue == t.queue + woken;
    forall i, j | 0 <= i < j < |t'.queue|
      ensures InTurn(t'.state.ops, t'.queue[i], t'.queue[j])
    {
      if j < |t.queue| {
        assert InTurn(s.ops, t.queue[i], t.queue[j]);
        assert Pending(s, t.queue[i]) && Pending(s, t.queue[j]);
      } else if i < |t.queue| {
        assert Pending(s, t.queue[i]) && t'.queue[j] in woken;
      } else {
        assert woken[i - |t.queue|] < woken[j - |t.queue|];
      }
    }
  }

  /** An operation that is pending holds the lock its project maps to. */
  lemma PendingAt(s: State, x: OpId)
    requires Inv(s) && Pending(s, x)
    ensures s.ops[x].project in s.projects && s.projects[s.ops[x].project] == s.ops[x].coordinator
    ensures LockOk(s.locks[s.ops[x].coordinator], s.ops[x].coordinator, s.ops)
  {
    assert OpOk(s, x);
  }

  lemma BeginLock(s: State, project: ProjectId, key: Option<K.Key>)
    requires Inv(s) && Enabled(s, Begin(project, key))
    ensures var s1, n := Prepared(s, project), |s.ops|;
            var r, s' := s1.projects[project], Next(s, Begin(project, key));
            && L.Inv(s1.locks[r]) && n !in L.Everyone(s1.locks[r])
            && s'.locks == s1.locks[r := L.Acquire(s1.locks[r], L.Waiter(n, ModeOf(key))).lock]
            && |s.locks| <= |s1.locks| && s1.locks[..|s.locks|] == s.locks
            && (r >= |s.locks| ==> s1.locks[r] == L.UNLOCKED)
            && s'.ops[..n] == s.ops && s'.ops[n].coordinator == r && s'.ops[n].stage == AwaitProject
  {
    var s1 := Prepared(s, project);
    var r := s1.projects[project];
    assert r < |s.locks| ==> LockOk(s.locks[r], r, s.ops);
  }

  lemma BeginHolders(l: L.Lock, n: OpId, mode: L.Mode, x: OpId)
    requires L.Inv(l) && n !in L.Everyone(l)
    ensures var o := L.Acquire(l, L.Waiter(n, mode));
            x in L.Holders(o.lock) <==> x in L.Holders(l) || x in Ids(o.woken)
  {
    BeginWoken(l, L.Waiter(n, mode));
  }

  lemma BeginResolves(s: State, project: ProjectId, key: Option<K.Key>)
    requires Inv(s) && Enabled(s, Begin(project, key))
    ensures Resolved(s, Begin(project, key)) == [] || Resolved(s, Begin(project, key)) == [|s.ops|]
  {
    var s1, w := Prepared(s, project), L.Waiter(|s.ops|, ModeOf(key));
    BeginLock(s, project, key);
    BeginWoken(s1.locks[s1.projects[project]], w);
    assert Ids([w]) == [|s.ops|];
  }

  lemma BeginPending(s: State, project: ProjectId, key: Option<K.Key>, x: OpId)
    requires Inv(s) && Enabled(s, Begin(project, key))
    ensures Pending(Next(s, Begin(project, key)), x) <==> Pending(s, x) || x in Resolved(s, Begin(project, key))
  {
    var s1, s', n := Prepared(s, project), Next(s, Begin(project, key)), |s.ops|;
    var r := s1.projects[project];
    BeginLock(s, project, key);
    BeginHolders(s1.locks[r], n, ModeOf(key), x);
    BeginResolves(s, project, key);
    if x < n {
      assert s'.ops[x] == s.ops[x];
      assert OpOk(s, x);
    }
  }

  /** Of an arrival at a sound lock at most the arrival itself gets in. */
  lemma BeginWoken(l: L.Lock, w: L.Waiter)
    requires L.Inv(l) && w.op !in L.Everyone(l)
    ensures L.Acquire(l, w).woken == [] || L.Acquire(l, w).woken == [w]
    ensures forall o :: o in Ids(L.Acquire(l, w).woken) <==> o in L.Ops(L.Acquire(l, w).woken)
    ensures L.Holders(L.Acquire(l, w).lock) == L.Holders(l) + L.Ops(L.Acquire(l, w).woken)
  {
    assert L.Ops([w]) == {w.op};
    assert Ids([w]) == [w.op];
  }

  lemma BeginHandsOn(s: State, project: ProjectId, key: Option<K.Key>)
    requires Inv(s) && Enabled(s, Begin(project, key))
    ensures var e := Begin(project, key);
            HandsOn(s, Next(s, e), Resolved(s, e))
  {
    var e, n := Begin(project, key), |s.ops|;
    var s', woken := Next(s, e), Resolved(s, e);
    forall x: OpId ensures Pending(s', x) <==> Pending(s, x) || x in woken {
      BeginPending(s, project, key, x);
    }
    BeginResolves(s, project, key);
    forall x: OpId, w: OpId | Pending(s, x) && w in woken
      ensures InTurn(s'.ops, x, w)
    {
      assert w == n;
    }
  }

  /** What a release hands on: waiters of its lock, ascending, and later than its other holders. */
  lemma ReleaseWoken(l: L.Lock, o: OpId)
    requires L.Inv(l) && L.InOrder(l) && o in L.Holders(l)
    ensures var out := L.Release(l, o);
            && L.Ascending(out.woken)
            && L.Ops(out.woken) <= L.Ops(l.queue)
            && L.Below(L.Holders(l) - {o}, L.Ops(out.woken))
            && L.Holders(out.lock) == L.Holders(l) - {o} + L.Ops(out.woken)
  {
    var rest := l.(readers := l.readers - {o}, writer := None);
    L.ReleasePreserves(l, o);
    ServedAscend(rest, L.Release(l, o));
    assert L.Holders(rest) == L.Holders(l) - {o};
  }

  lemma LeaveResolves(s: State, o: OpId)
    requires Inv(s) && Enabled(s, Leave(o))
    ensures Granted(s, o)
    ensures var r, woken := s.ops[o].coordinator, Resolved(s, Leave(o));
            && (forall i, j :: 0 <= i < j < |woken| ==> woken[i] < woken[j])
            && (forall w :: w in woken ==> w in L.Ops(s.locks[r].queue))
            && (forall x, w :: x in L.Holders(s.locks[r]) && x != o && w in woken ==> x < w)
            && (forall x :: x in L.Holders(L.Release(s.locks[r], o).lock) <==>
                  (x in L.Holders(s.locks[r]) && x != o) || x in woken)
  {
    HolderPastWait(s, o);
    var r := s.ops[o].coordinator;
    assert LockOk(s.locks[r], r, s.ops);
    ReleaseWoken(s.locks[r], o);
    IdsAscend(L.Release(s.locks[r], o).woken);
  }

  lemma LeavePending(s: State, o: OpId, x: OpId)
    requires Inv(s) && Enabled(s, Leave(o))
    ensures Pending(Next(s, Leave(o)), x) <==> Pending(s, x) || x in Resolved(s, Leave(o))
  {
    var s', r := Next(s, Leave(o)), s.ops[o].coordinator;
    LeaveResolves(s, o);
    assert LockOk(s.locks[r], r, s.ops);
    if x < |s.ops| && x != o {
      assert s'.ops[x] == s.ops[x];
    }
  }

  lemma LeaveHandsOn(s: State, o: OpId)
    requires Inv(s) && Enabled(s, Leave(o))
    ensures HandsOn(s, Next(s, Leave(o)), Resolved(s, Leave(o)))
  {
    var s', r, woken := Next(s, Leave(o)), s.ops[o].coordinator, Resolved(s, Leave(o));
    LeaveResolves(s, o);
    forall x: OpId ensures Pending(s', x) <==> Pending(s, x) || x in woken {
      LeavePending(s, o, x);
    }
    assert LockOk(s.locks[r], r, s.ops);
    forall x: OpId, w: OpId | Pending(s, x) && w in woken
      ensures InTurn(s'.ops, x, w)
    {
      PendingAt(s, x);
      assert w in L.Everyone(s.locks[r]);
      assert OpOk(s, w);
    }
  }

  lemma StepKeepsQueue(t: Turns, e: Event)
    requires Inv(t.state) && QueuedOk(t) && OrderOk(t) && Allowed(t, e)
    ensures QueuedOk(Step(t, e)) && OrderOk(Step(t, e))
  {
    match e
    case Begin(project, key) =>
      BeginHandsOn(t.state, project, key);
      HandOnKeepsQueued(t, e);
      HandOnKeepsOrder(t, e);
    case Resume(o) =>
      ResumeKeepsQueued(t, o);
      ResumeKeepsOrder(t, o);
    case EnterKey(_) => KeyStepKeepsQueue(t, e);
    case FreeKey(_) => KeyStepKeepsQueue(t, e);
    case Leave(o) =>
      LeaveHandsOn(t.state, o);
      HandOnKeepsQueued(t, e);
      HandOnKeepsOrder(t, e);
  }

  // ---------------------------------------------------------------- tickets in the order of calls

  predicate Past(s: State, o: OpId) {
    o < |s.ops| && s.ops[o].stage != AwaitProject
  }

  predicate SameKey(s: State, a: OpId, b: OpId) {
    && a < |s.ops| && b < |s.ops|
    && s.ops[a].project == s.ops[b].project
    && s.ops[a].key.Some? && s.ops[a].key == s.ops[b].key
  }

  predicate HasJoined(s: State, o: OpId) {
    Past(s, o) && s.ops[o].key.Some? ==> s.ops[o].ticket < |s.resources.cells|
  }

  /** An earlier call of the project on the key has the earlier ticket. */
  predicate JoinedFirst(s: State, a: OpId, b: OpId) {
    a < b && SameKey(s, a, b) && Past(s, b) ==> Past(s, a) && s.ops[a].ticket < s.ops[b].ticket
  }

  ghost predicate Joined(s: State) {
    && (forall o: OpId {:trigger HasJoined(s, o)} :: HasJoined(s, o))
    && (forall a: OpId, b: OpId {:trigger JoinedFirst(s, a, b)} :: JoinedFirst(s, a, b))
  }

  /** Whoever takes up its project lock finds every earlier call of the project gone on. */
  lemma ResumesInTurn(t: Turns, a: OpId, b: OpId)
    requires Inv(t.state) && QueuedOk(t) && OrderOk(t) && Allowed(t, Resume(b))
    requires a < b && t.state.ops[a].project == t.state.ops[b].project
    ensures Past(t.state, a)
  {
    var s := t.state;
    assert OpOk(s, a) && OpOk(s, b);
    var r := s.ops[b].coordinator;
    assert LockOk(s.locks[r], r, s.ops);
    FrontIsFirst(t, a);
    assert Pending(s, a) ==> a in t.queue;
  }

  lemma FrontIsFirst(t: Turns, a: OpId)
    requires OrderOk(t) && t.queue != []
    requires t.queue[0] < |t.state.ops| && a < |t.state.ops|
    requires t.state.ops[t.queue[0]].project == t.state.ops[a].project
    ensures a in t.queue ==> t.queue[0] <= a
  {
    if a in t.queue {
      var i :| 0 <= i < |t.queue| && t.queue[i] == a;
      assert i > 0 ==> InTurn(t.state.ops, t.queue[0], t.queue[i]);
    }
  }

  lemma ResumeJoins(t: Turns, o: OpId)
    requires Inv(t.state) && QueuedOk(t) && OrderOk(t) && Allowed(t, Resume(o)) && Joined(t.state)
    ensures Joined(Next(t.state, Resume(o)))
  {
    var s, s' := t.state, Next(t.state, Resume(o));
    forall x: OpId ensures HasJoined(s', x) {
      assert HasJoined(s, x);
    }
    forall a: OpId, b: OpId ensures JoinedFirst(s', a, b) {
      assert JoinedFirst(s, a, b);
      if b == o && a < b && SameKey(s, a, b) {
        ResumesInTurn(t, a, b);
        assert HasJoined(s, a);
      }
      assert HasJoined(s, b);
    }
  }

  /** Tickets stay, nobody falls back behind the project lock, and nobody passes it but by resuming. */
  lemma OtherOps(s: State, e: Event, x: OpId)
    requires Enabled(s, e) && !e.Resume? && x < |s.ops|
    ensures var s' := Next(s, e);
            && x < |s'.ops| && s'.ops[x].(stage := s.ops[x].stage) == s.ops[x]
            && (Past(s', x) <==> Past(s, x)) && |s'.resources.cells| == |s.resources.cells|
  {
  }

  lemma OtherJoins(s: State, e: Event)
    requires Enabled(s, e) && !e.Resume? && Joined(s)
    ensures Joined(Next(s, e))
  {
    var s' := Next(s, e);
    forall x: OpId ensures HasJoined(s', x) {
      assert HasJoined(s, x);
      if x < |s.ops| {
        OtherOps(s, e, x);
      } else if x < |s'.ops| {
        NewOp(s, e);
      }
    }
    forall a: OpId, b: OpId ensures JoinedFirst(s', a, b) {
      assert JoinedFirst(s, a, b);
      if a < b < |s.ops| {
        OtherOps(s, e, a);
        OtherOps(s, e, b);
      } else if a < b < |s'.ops| {
        NewOp(s, e);
      }
    }
  }

  lemma NewOp(s: State, e: Event)
    requires Enabled(s, e) && |s.ops| < |Next(s, e).ops|
    ensures |Next(s, e).ops| == |s.ops| + 1 && !Past(Next(s, e), |s.ops|)
  {
  }

  lemma {:induction false} RunInTurnOk(es: seq<Event>)
    requires RunInTurn(es).Some?
    ensures var t := RunInTurn(es).value;
            Inv(t.state) && QueuedOk(t) && OrderOk(t) && Joined(t.state)
  {
    if es != [] {
      var t, e := RunInTurn(es[..|es| - 1]).value, es[|es| - 1];
      RunInTurnOk(es[..|es| - 1]);
      StepKeepsQueue(t, e);
      NextPreserves(t.state, e);
      if e.Resume? {
        ResumeJoins(t, e.op);
      } else {
        OtherJoins(t.state, e);
      }
    }
  }

  /** On one resource key of one project bodies run in the order of the calls: while one runs, every
      earlier call of the project on the key is done with it. */
  lemma CallsRunInOrder(es: seq<Event>, a: OpId, b: OpId)
    requires RunInTurn(es).Some?
    requires a < b && SameKey(RunInTurn(es).value.state, a, b)
    requires RunInTurn(es).value.state.ops[b].stage == Body
    ensures RunInTurn(es).value.state.ops[a].stage in {KeyFreed, Finished}
  {
    RunInTurnOk(es);
    var s := RunInTurn(es).value.state;
    assert JoinedFirst(s, a, b);
    assert AtKey(s.ops[b]) && HasTicket(s.resources.cells, b, s.ops[b]);
  }

  /** The front of the queue can always go on, so serving in turn delays nobody. */
  lemma FrontCanResume(es: seq<Event>)
    requires RunInTurn(es).Some? && RunInTurn(es).value.queue != []
    ensures Allowed(RunInTurn(es).value, Resume(RunInTurn(es).value.queue[0]))
  {
    RunInTurnOk(es);
    var t := RunInTurn(es).value;
    assert Pending(t.state, t.queue[0]);
  }
}
