/** ProjectCoordinator as the program keeps it: two counters and an array of waiters, with a
    ghost record of who holds the lock. Every method is the operation of the same name on
    the value type ProjectLock.Lock. */
module ProjectCoordinators {
  import opened Prelude
  import opened ProjectLock

  class ProjectCoordinator {
    var readerCount: int
    var writerActive: bool
    var waiters: seq<Waiter>
    // Which of the lock objects made so far this is.
    ghost const number: nat
    ghost var readers: set<OpId>
    ghost var writer: Option<OpId>

    ghost predicate Valid()
      reads this
    {
      readerCount == |readers| && writerActive == writer.Some?
    }

    ghost function View(): Lock
      reads this
    {
      Lock(readers, writer, waiters)
    }

    constructor (ghost number: nat)
      ensures Valid() && View() == UNLOCKED && this.number == number
    {
      this.number := number;
      readerCount, writerActive, waiters := 0, false, [];
      readers, writer := {}, None;
    }

    method AcquireShared(op: OpId) returns (granted: bool)
      requires Valid() && op !in Everyone(View())
      modifies this
      ensures Valid()
      ensures View() == ProjectLock.AcquireShared(old(View()), op).lock
      ensures granted <==> ProjectLock.AcquireShared(old(View()), op).woken != []
    {
      granted := !writerActive && !ExclusiveWaits(waiters);
      if granted {
        readerCount := readerCount + 1;
        readers := readers + {op};
      } else {
        waiters := waiters + [Waiter(op, Shared)];
      }
    }

    method AcquireExclusive(op: OpId) returns (granted: bool)
      requires Valid()
      modifies this
      ensures Valid()
      ensures View() == ProjectLock.AcquireExclusive(old(View()), op).lock
      ensures granted <==> ProjectLock.AcquireExclusive(old(View()), op).woken != []
    {
      granted := !writerActive && readerCount == 0 && |waiters| == 0;
      if granted {
        writerActive := true;
        writer := Some(op);
      } else {
        waiters := waiters + [Waiter(op, Exclusive)];
      }
    }

    method IsIdle() returns (idle: bool)
      requires Valid()
      ensures idle == Idle(View())
    {
      idle := !writerActive && readerCount == 0 && |waiters| == 0;
    }

    method ReleaseShared(ghost op: OpId) returns (woken: seq<Waiter>)
      requires Valid() && Inv(View()) && op in readers
      modifies this
      ensures Valid()
      ensures Outcome(View(), woken) == ProjectLock.ReleaseShared(old(View()), op)
    {
      readerCount := readerCount - 1;
      readers := readers - {op};
      woken := Drain();
    }

    method ReleaseExclusive() returns (woken: seq<Waiter>)
      requires Valid() && Inv(View()) && writer.Some?
      modifies this
      ensures Valid()
      ensures Outcome(View(), woken) == ProjectLock.ReleaseExclusive(old(View()))
    {
      writerActive := false;
      writer := None;
      woken := Drain();
    }

    method Drain() returns (woken: seq<Waiter>)
      requires Valid() && Tidy(View())
      modifies this
      ensures Valid()
      ensures Outcome(View(), woken) == ProjectLock.Drain(old(View()))
    {
      woken := [];
      if writerActive || readerCount > 0 || |waiters| == 0 {
        return;
      }
      if waiters[0].mode.Exclusive? {
        woken := waiters[..1];
        writer := Some(waiters[0].op);
        waiters := waiters[1..];
        writerActive := true;
        return;
      }
      woken := ServeReaders();
    }

    /** The waiters in front that share are let in one by one. */
    method ServeReaders() returns (woken: seq<Waiter>)
      requires Valid() && Tidy(View())
      requires !writerActive && readerCount == 0 && waiters != [] && waiters[0].mode.Shared?
      modifies this
      ensures Valid()
      ensures Outcome(View(), woken) == ProjectLock.Drain(old(View()))
    {
      woken := [];
      ghost var queue, k := waiters, 0;
      while |waiters| > 0 && waiters[0].mode.Shared?
        invariant !writerActive && writer.None?
        invariant 0 <= k <= SharedPrefix(queue)
        invariant woken == queue[..k] && waiters == queue[k..]
        invariant readers == Ops(woken) && readerCount == |readers|
        decreases |waiters|
      {
        PrefixStep(queue, k);
        readers := readers + {waiters[0].op};
        readerCount := readerCount + 1;
        woken := woken + [waiters[0]];
        waiters := waiters[1..];
        k := k + 1;
      }
      PrefixIsServed(old(View()), k);
    }
  }

  lemma PrefixStep(queue: seq<Waiter>, k: nat)
    requires k < |queue| && k <= SharedPrefix(queue) && queue[k].mode.Shared? && Distinct(queue)
    ensures k + 1 <= SharedPrefix(queue)
    ensures queue[k..][0] == queue[k] && queue[k..][1..] == queue[k + 1..]
    ensures queue[..k] + [queue[k]] == queue[..k + 1]
    ensures Ops(queue[..k + 1]) == Ops(queue[..k]) + {queue[k].op}
    ensures queue[k].op !in Ops(queue[..k])
  {
    PrefixGrows(queue, k);
  }

  lemma PrefixIsServed(l: Lock, k: nat)
    requires l.writer.None? && l.readers == {} && l.queue != [] && l.queue[0].mode.Shared?
    requires k <= SharedPrefix(l.queue)
    requires k < |l.queue| ==> l.queue[k].mode.Exclusive?
    ensures Outcome(Lock(Ops(l.queue[..k]), None, l.queue[k..]), l.queue[..k]) == ProjectLock.Drain(l)
  {
  }
}
