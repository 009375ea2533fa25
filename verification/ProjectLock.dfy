/** The per-project reader-writer lock (ProjectCoordinator).

    The value type Lock carries who holds the lock; the class ProjectCoordinator keeps the
    counters the program keeps. A simple reference lock - every arrival queues, then the longest
    admissible prefix of the queue is let in - is proved equal to the program's fast paths
    and drain. */
module ProjectLock {
  import opened Prelude

  type OpId = nat

  datatype Mode = Shared | Exclusive

  datatype Waiter = Waiter(op: OpId, mode: Mode)

  datatype Lock = Lock(readers: set<OpId>, writer: Option<OpId>, queue: seq<Waiter>)

  /** A lock after one call, and the waiters whose promises that call resolved, in order. */
  datatype Outcome = Outcome(lock: Lock, woken: seq<Waiter>)

  const UNLOCKED := Lock({}, None, [])

  predicate Idle(l: Lock) {
    l.writer.None? && l.readers == {} && l.queue == []
  }

  function Ops(ws: seq<Waiter>): set<OpId> {
    if ws == [] then {} else {ws[0].op} + Ops(ws[1..])
  }

  predicate Distinct(ws: seq<Waiter>) {
    ws == [] || (ws[0].op !in Ops(ws[1..]) && Distinct(ws[1..]))
  }

  function Holders(l: Lock): set<OpId> {
    l.readers + if l.writer.Some? then {l.writer.value} else {}
  }

  /** Everyone who holds the lock or waits for it. */
  function Everyone(l: Lock): set<OpId> {
    Holders(l) + Ops(l.queue)
  }

  // ----- The program's operations -----

  predicate ExclusiveWaits(q: seq<Waiter>) {
    exists i :: 0 <= i < |q| && q[i].mode == Exclusive
  }

  function AcquireShared(l: Lock, op: OpId): Outcome {
    var w := Waiter(op, Shared);
    if l.writer.None? && !ExclusiveWaits(l.queue) then
      Outcome(l.(readers := l.readers + {op}), [w])
    else
      Outcome(l.(queue := l.queue + [w]), [])
  }

  function AcquireExclusive(l: Lock, op: OpId): Outcome {
    var w := Waiter(op, Exclusive);
    if l.writer.None? && l.readers == {} && l.queue == [] then
      Outcome(l.(writer := Some(op)), [w])
    else
      Outcome(l.(queue := l.queue + [w]), [])
  }

  function Acquire(l: Lock, w: Waiter): Outcome {
    if w.mode.Shared? then AcquireShared(l, w.op) else AcquireExclusive(l, w.op)
  }

  /** The shared waiters at the front of the queue. */
  function SharedPrefix(q: seq<Waiter>): (n: nat)
    ensures n <= |q|
    ensures forall i :: 0 <= i < n ==> q[i].mode == Shared
    ensures n < |q| ==> q[n].mode == Exclusive
  {
    if q == [] || q[0].mode.Exclusive? then 0 else 1 + SharedPrefix(q[1..])
  }

  function Drain(l: Lock): Outcome {
    if l.writer.Some? || l.readers != {} || l.queue == [] then
      Outcome(l, [])
    else if l.queue[0].mode.Exclusive? then
      Outcome(Lock(l.readers, Some(l.queue[0].op), l.queue[1..]), l.queue[..1])
    else
      var n := SharedPrefix(l.queue);
      Outcome(Lock(l.readers + Ops(l.queue[..n]), l.writer, l.queue[n..]), l.queue[..n])
  }

  function ReleaseShared(l: Lock, op: OpId): Outcome {
    Drain(l.(readers := l.readers - {op}))
  }

  function ReleaseExclusive(l: Lock): Outcome {
    Drain(l.(writer := None))
  }

  function Release(l: Lock, op: OpId): Outcome {
    if op in l.readers then ReleaseShared(l, op) else ReleaseExclusive(l)
  }

  // ----- The reference lock -----

  predicate Admissible(l: Lock, mode: Mode) {
    l.writer.None? && (mode.Exclusive? ==> l.readers == {})
  }

  function Grant(l: Lock, w: Waiter): Lock {
    if w.mode.Shared? then l.(readers := l.readers + {w.op}) else l.(writer := Some(w.op))
  }

  /** Lets waiters in from the front for as long as the one in front is admissible. */
  function Settle(l: Lock): Outcome
    decreases |l.queue|
  {
    if l.queue != [] && Admissible(l, l.queue[0].mode) then
      var rest := Settle(Grant(l.(queue := l.queue[1..]), l.queue[0]));
      Outcome(rest.lock, l.queue[..1] + rest.woken)
    else
      Outcome(l, [])
  }

  // ----- Invariant -----

  /** A writer excludes readers, and nobody who could be let in is still waiting. */
  predicate Sound(l: Lock) {
    && (l.writer.Some? ==> l.readers == {})
    && (l.queue != [] ==> !Admissible(l, l.queue[0].mode))
  }

  /** Each operation appears once: as a holder or at one place in the queue. */
  predicate Tidy(l: Lock) {
    && Holders(l) !! Ops(l.queue)
    && Distinct(l.queue)
  }

  predicate Inv(l: Lock) {
    Sound(l) && Tidy(l)
  }

  lemma {:induction false} OpsConcat(a: seq<Waiter>, b: seq<Waiter>)
    ensures Ops(a + b) == Ops(a) + Ops(b)
    ensures Distinct(a + b) <==> Distinct(a) && Distinct(b) && Ops(a) !! Ops(b)
  {
    if a == [] {
      assert a + b == b;
    } else {
      assert (a + b)[1..] == a[1..] + b;
      OpsConcat(a[1..], b);
    }
  }

  lemma PrefixGrows(ws: seq<Waiter>, k: nat)
    requires k < |ws| && Distinct(ws)
    ensures ws[..k + 1] == ws[..k] + [ws[k]]
    ensures Ops(ws[..k + 1]) == Ops(ws[..k]) + {ws[k].op}
    ensures ws[k].op !in Ops(ws[..k])
  {
    assert ws[..k + 1] == ws[..k] + [ws[k]];
    assert ws == ws[..k + 1] + ws[k + 1..];
    assert Ops([ws[k]]) == {ws[k].op};
    OpsConcat(ws[..k], [ws[k]]);
    OpsConcat(ws[..k + 1], ws[k + 1..]);
  }

  /** With a sound lock and no writer, a non-empty queue starts with an exclusive waiter;
      so the program's test for an exclusive waiter anywhere means "somebody waits". */
  lemma WaitingMeansExclusiveFirst(l: Lock)
    requires Sound(l) && l.writer.None?
    ensures l.queue != [] ==> l.queue[0].mode == Exclusive && l.readers != {}
    ensures ExclusiveWaits(l.queue) <==> l.queue != []
  {
    if l.queue != [] {
      assert l.queue[0].mode == Exclusive;
    }
  }

  lemma SettleOnlyBlocked(l: Lock)
    requires l.queue != [] ==> !Admissible(l, l.queue[0].mode)
    ensures Settle(l) == Outcome(l, [])
  {
  }

  lemma {:induction false} SettleShared(l: Lock)
    requires l.writer.None?
    requires l.readers != {} || (l.queue != [] && l.queue[0].mode.Shared?)
    ensures var n := SharedPrefix(l.queue);
            Settle(l) == Outcome(Lock(l.readers + Ops(l.queue[..n]), None, l.queue[n..]), l.queue[..n])
    decreases |l.queue|
  {
    var n := SharedPrefix(l.queue);
    if n == 0 {
      assert Ops(l.queue[..0]) == {};
      assert l == Lock(l.readers + Ops(l.queue[..0]), None, l.queue[0..]);
    } else {
      var w := l.queue[0];
      var l' := Grant(l.(queue := l.queue[1..]), w);
      SettleShared(l');
      var m := SharedPrefix(l'.queue);
      assert n == m + 1;
      assert l.queue[..1] + l'.queue[..m] == l.queue[..n];
      assert l'.queue[m..] == l.queue[n..];
      OpsConcat(l.queue[..1], l'.queue[..m]);
      assert l.readers + Ops(l.queue[..n]) == l'.readers + Ops(l'.queue[..m]);
    }
  }

  lemma AcquireIsReference(l: Lock, w: Waiter)
    requires Sound(l)
    ensures Acquire(l, w) == Settle(l.(queue := l.queue + [w]))
  {
    var joined := l.(queue := l.queue + [w]);
    if l.queue != [] {
      assert joined.queue[0] == l.queue[0];
      SettleOnlyBlocked(joined);
      if l.writer.None? {
        WaitingMeansExclusiveFirst(l);
      }
    } else if Admissible(l, w.mode) {
      assert joined.queue[..1] == [w] && joined.queue[1..] == [];
      assert joined.(queue := []) == l;
      SettleOnlyBlocked(Grant(l, w));
    } else {
      SettleOnlyBlocked(joined);
    }
  }

  lemma DrainIsReference(l: Lock)
    requires l.writer.None?
    requires l.readers != {} ==> l.queue == [] || l.queue[0].mode.Exclusive?
    ensures Drain(l) == Settle(l)
  {
    if l.readers != {} || l.queue == [] {
      SettleOnlyBlocked(l);
    } else if l.queue[0].mode.Exclusive? {
      SettleOnlyBlocked(Grant(l.(queue := l.queue[1..]), l.queue[0]));
    } else {
      SettleShared(l);
    }
  }

  lemma ReleaseIsReference(l: Lock, op: OpId)
    requires Sound(l) && op in Holders(l)
    ensures Release(l, op) == Settle(l.(readers := l.readers - {op}, writer := None))
  {
    if l.writer.None? {
      WaitingMeansExclusiveFirst(l);
    } else {
      assert l.readers - {op} == l.readers;
    }
    DrainIsReference(l.(readers := l.readers - {op}, writer := None));
  }

  // ----- What one settling does -----

  /** Settling serves the queue strictly from the front, lets in exactly the woken
      operations, loses nobody and leaves nobody admissible behind. */
  ghost predicate Served(l: Lock, o: Outcome) {
    && Inv(o.lock)
    && o.woken + o.lock.queue == l.queue
    && Holders(o.lock) == Holders(l) + Ops(o.woken)
  }

  lemma GrantMovesFirst(l: Lock)
    requires l.queue != [] && l.writer.None?
    requires Tidy(l)
    ensures var w, l' := l.queue[0], Grant(l.(queue := l.queue[1..]), l.queue[0]);
            && Holders(l') == Holders(l) + {w.op}
            && l.queue == [w] + l'.queue
            && Tidy(l') && Everyone(l') == Everyone(l)
  {
  }

  lemma {:induction false} SettleServesInOrder(l: Lock)
    requires l.writer.Some? ==> l.readers == {}
    requires Tidy(l)
    ensures Served(l, Settle(l)) && Everyone(Settle(l).lock) == Everyone(l)
    decreases |l.queue|
  {
    var o := Settle(l);
    if l.queue != [] && Admissible(l, l.queue[0].mode) {
      var w := l.queue[0];
      var l' := Grant(l.(queue := l.queue[1..]), w);
      GrantMovesFirst(l);
      SettleServesInOrder(l');
      var o' := Settle(l');
      assert o.woken == [w] + o'.woken;
      OpsConcat([w], o'.woken);
      assert Ops([w]) == {w.op};
      Regroup([w], o'.woken, o'.lock.queue);
    } else {
      assert o.woken + o.lock.queue == l.queue;
    }
  }

  lemma AcquirePreserves(l: Lock, w: Waiter)
    requires Inv(l) && w.op !in Everyone(l)
    ensures var o := Acquire(l, w);
            && Served(l.(queue := l.queue + [w]), o)
            && Everyone(o.lock) == Everyone(l) + {w.op}
            && Holders(l) <= Holders(o.lock) <= Holders(l) + {w.op}
  {
    AcquireIsReference(l, w);
    var joined := l.(queue := l.queue + [w]);
    OpsConcat(l.queue, [w]);
    assert Ops([w]) == {w.op};
    SettleServesInOrder(joined);
  }

  lemma ReleasePreserves(l: Lock, op: OpId)
    requires Inv(l) && op in Holders(l)
    ensures var o := Release(l, op);
            && Served(l.(readers := l.readers - {op}, writer := None), o)
            && Everyone(o.lock) == Everyone(l) - {op}
            && Holders(l) - {op} <= Holders(o.lock)
  {
    ReleaseIsReference(l, op);
    SettleServesInOrder(l.(readers := l.readers - {op}, writer := None));
  }

  /** Readers came for shared access, the writer and the exclusive waiters are `exclusive`. */
  predicate Typed(l: Lock, exclusive: set<OpId>) {
    && l.readers !! exclusive
    && (l.writer.Some? ==> l.writer.value in exclusive)
    && (forall i :: 0 <= i < |l.queue| ==> (l.queue[i].mode.Exclusive? <==> l.queue[i].op in exclusive))
  }

  lemma {:induction false} SettleKeepsTypes(l: Lock, exclusive: set<OpId>)
    requires Typed(l, exclusive)
    ensures Typed(Settle(l).lock, exclusive)
    decreases |l.queue|
  {
    if l.queue != [] && Admissible(l, l.queue[0].mode) {
      SettleKeepsTypes(Grant(l.(queue := l.queue[1..]), l.queue[0]), exclusive);
    }
  }

  lemma StepKeepsTypes(l: Lock, w: Waiter, exclusive: set<OpId>)
    requires Sound(l) && Typed(l, exclusive)
    ensures (w.mode.Exclusive? <==> w.op in exclusive) ==> Typed(Acquire(l, w).lock, exclusive)
    ensures w.op in Holders(l) ==> Typed(Release(l, w.op).lock, exclusive)
  {
    if w.mode.Exclusive? <==> w.op in exclusive {
      AcquireIsReference(l, w);
      SettleKeepsTypes(l.(queue := l.queue + [w]), exclusive);
    }
    if w.op in Holders(l) {
      ReleaseIsReference(l, w.op);
      SettleKeepsTypes(l.(readers := l.readers - {w.op}, writer := None), exclusive);
    }
  }

  predicate Below(xs: set<OpId>, ys: set<OpId>) {
    forall x, y :: x in xs && y in ys ==> x < y
  }

  predicate Ascending(ws: seq<Waiter>) {
    ws == [] || (Below({ws[0].op}, Ops(ws[1..])) && Ascending(ws[1..]))
  }

  /** With operations numbered as they arrive: holders came first, waiters in queue order. */
  predicate InOrder(l: Lock) {
    Ascending(l.queue) && Below(Holders(l), Ops(l.queue))
  }

  lemma {:induction false} AscendingConcat(a: seq<Waiter>, b: seq<Waiter>)
    ensures Ascending(a + b) <==> Ascending(a) && Ascending(b) && Below(Ops(a), Ops(b))
  {
    if a == [] {
      assert a + b == b;
    } else {
      assert (a + b)[1..] == a[1..] + b;
      OpsConcat(a[1..], b);
      AscendingConcat(a[1..], b);
    }
  }

  lemma ServedInOrder(l: Lock, o: Outcome)
    requires InOrder(l) && Served(l, o)
    ensures InOrder(o.lock)
  {
    AscendingConcat(o.woken, o.lock.queue);
    OpsConcat(o.woken, o.lock.queue);
  }

  lemma AcquireKeepsOrder(l: Lock, w: Waiter)
    requires Inv(l) && InOrder(l)
    requires w.op !in Everyone(l) && Below(Everyone(l), {w.op})
    ensures InOrder(Acquire(l, w).lock)
  {
    assert Ops([w]) == {w.op};
    assert Ascending([w]) by {
      assert [w][1..] == [];
    }
    AscendingConcat(l.queue, [w]);
    OpsConcat(l.queue, [w]);
    AcquirePreserves(l, w);
    ServedInOrder(l.(queue := l.queue + [w]), Acquire(l, w));
  }

  lemma StepKeepsOrder(l: Lock, w: Waiter)
    requires Inv(l) && InOrder(l)
    ensures w.op !in Everyone(l) && Below(Everyone(l), {w.op}) ==> InOrder(Acquire(l, w).lock)
    ensures w.op in Holders(l) ==> InOrder(Release(l, w.op).lock)
  {
    if w.op !in Everyone(l) && Below(Everyone(l), {w.op}) {
      AcquireKeepsOrder(l, w);
    }
    if w.op in Holders(l) {
      ReleasePreserves(l, w.op);
      ServedInOrder(l.(readers := l.readers - {w.op}, writer := None), Release(l, w.op));
    }
  }

  // ----- Whole histories -----

  datatype Event = Arrive(op: OpId, mode: Mode) | Leave(op: OpId)

  /** The lock with the arrivals so far and the grants so far, both in order. */
  datatype History = History(lock: Lock, arrived: seq<Waiter>, granted: seq<Waiter>)

  /** Operations arrive once and only a holder releases. */
  predicate Allowed(h: History, e: Event) {
    match e
    case Arrive(op, _) => op !in Ops(h.arrived)
    case Leave(op) => op in Holders(h.lock)
  }

  function Next(h: History, e: Event): History {
    match e
    case Arrive(op, mode) =>
      var w := Waiter(op, mode);
      var o := Acquire(h.lock, w);
      History(o.lock, h.arrived + [w], h.granted + o.woken)
    case Leave(op) =>
      var o := Release(h.lock, op);
      History(o.lock, h.arrived, h.granted + o.woken)
  }

  function Run(es: seq<Event>): Option<History> {
    if es == [] then
      Some(History(UNLOCKED, [], []))
    else
      var h :- Run(es[..|es| - 1]);
      if Allowed(h, es[|es| - 1]) then Some(Next(h, es[|es| - 1])) else None
  }

  ghost predicate Orderly(h: History) {
    && h.arrived == h.granted + h.lock.queue
    && Inv(h.lock)
    && Everyone(h.lock) <= Ops(h.arrived)
  }

  lemma ArriveOrderly(h: History, w: Waiter)
    requires Orderly(h) && w.op !in Ops(h.arrived)
    ensures Orderly(Next(h, Arrive(w.op, w.mode)))
  {
    var o := Acquire(h.lock, w);
    AcquirePreserves(h.lock, w);
    OpsConcat(h.arrived, [w]);
    assert Ops([w]) == {w.op};
    Regroup(h.granted, h.lock.queue, [w]);
    Regroup(h.granted, o.woken, o.lock.queue);
  }

  lemma LeaveOrderly(h: History, op: OpId)
    requires Orderly(h) && op in Holders(h.lock)
    ensures Orderly(Next(h, Leave(op)))
  {
    var o := Release(h.lock, op);
    ReleasePreserves(h.lock, op);
    Regroup(h.granted, o.woken, o.lock.queue);
  }

  lemma NextOrderly(h: History, e: Event)
    requires Orderly(h) && Allowed(h, e)
    ensures Orderly(Next(h, e))
  {
    match e
    case Arrive(op, mode) => ArriveOrderly(h, Waiter(op, mode));
    case Leave(op) => LeaveOrderly(h, op);
  }

  /** Over every run: grants follow arrival order with nobody overtaking, a writer is alone,
      whoever could proceed has proceeded, and a lock nobody holds has no waiters. */
  lemma {:induction false} GrantsFollowArrivals(es: seq<Event>)
    requires Run(es).Some?
    ensures var h := Run(es).value;
            && h.arrived == h.granted + h.lock.queue
            && Inv(h.lock)
            && (h.lock.writer.Some? ==> h.lock.readers == {})
            && (Holders(h.lock) == {} ==> h.lock.queue == [])
  {
    RunOrderly(es);
  }

  lemma {:induction false} RunOrderly(es: seq<Event>)
    requires Run(es).Some?
    ensures Orderly(Run(es).value)
  {
    if es != [] {
      RunOrderly(es[..|es| - 1]);
      NextOrderly(Run(es[..|es| - 1]).value, es[|es| - 1]);
    }
  }
}
