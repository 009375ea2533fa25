/** A reachable run in which a removal throws after deleting the row and leaves a lease behind. */
module StrandedLease {
  import opened Prelude
  import opened Leases
  import opened Realtime
  import C = Coordinator
  import K = KeyLock
  import L = ProjectLock
  import RealtimeProperties

  /** One project with one field, and sockets that are all the guest's. */
  const THE_WORLD := World(s => "guest", k => Some("p"))
  const THE_HOLDER := Holder("guest", "Guest", None, "p", "socket")

  function Jobs(): seq<Job> {
    [AddMember("owner", "guest"), LockField(THE_HOLDER), RemoveMember("owner", "guest")]
  }

  // ---------------------------------------------------------------- the lock's states

  function Adding(stage: C.Stage): C.State {
    C.State(map["p" := 0], [L.Lock({}, Some(0), [])], K.EMPTY, [C.Op("p", None, 0, 0, stage)])
  }

  const ADDED := C.State(map[], [L.UNLOCKED], K.EMPTY, [C.Op("p", None, 0, 0, C.Finished)])

  function Locking(stage: C.Stage, tails: map<K.Key, K.Ticket>, cells: seq<K.Cell>): C.State {
    C.State(map["p" := 1], [L.UNLOCKED, L.Lock({1}, None, [])], K.Keyed(tails, cells),
            [C.Op("p", None, 0, 0, C.Finished), C.Op("p", Some("f"), 1, 0, stage)])
  }

  const LOCKED := C.State(map[], [L.UNLOCKED, L.UNLOCKED], K.Keyed(map[], [K.Cell("f", 1, None, true, true)]),
                          [C.Op("p", None, 0, 0, C.Finished), C.Op("p", Some("f"), 1, 0, C.Finished)])

  function Removing(stage: C.Stage): C.State {
    C.State(map["p" := 2], [L.UNLOCKED, L.UNLOCKED, L.Lock({}, Some(2), [])], LOCKED.resources,
            LOCKED.ops + [C.Op("p", None, 2, 0, stage)])
  }

  // ---------------------------------------------------------------- the run

  ghost predicate StepsTo(s: State, e: Event, s': State) {
    Enabled(s, e) && Next(s, e) == s'
  }

  ghost predicate Follows(es: seq<Event>, ss: seq<State>, i: int)
    requires |ss| == |es| + 1 && 0 <= i < |es|
  {
    StepsTo(ss[i], es[i], ss[i + 1])
  }

  lemma RunGoesOnce(es: seq<Event>, e: Event, s: State, s': State)
    requires Run(THE_WORLD, es) == Some(s) && StepsTo(s, e, s')
    ensures Run(THE_WORLD, es + [e]) == Some(s')
  {
    assert (es + [e])[..|es + [e]| - 1] == es;
  }

  /** The run of a start and the first `n` of more events, ending in the state given for it. */
  ghost predicate Gone(es: seq<Event>, more: seq<Event>, ss: seq<State>, n: nat)
    requires n <= |more| < |ss|
  {
    Run(THE_WORLD, es + more[..n]) == Some(ss[n])
  }

  lemma RunGoesOnAt(es: seq<Event>, more: seq<Event>, ss: seq<State>, n: nat)
    requires |ss| == |more| + 1 && n < |more|
    requires Gone(es, more, ss, n) && Follows(more, ss, n)
    ensures Gone(es, more, ss, n + 1)
  {
    RunGoesOnce(es + more[..n], more[n], ss[n], ss[n + 1]);
    assert es + more[..n + 1] == es + more[..n] + [more[n]];
  }

  lemma {:induction false} RunGoesOn(es: seq<Event>, more: seq<Event>, ss: seq<State>, n: nat)
    requires |ss| == |more| + 1 && n <= |more|
    requires Gone(es, more, ss, 0)
    requires forall i {:trigger Follows(more, ss, i)} :: 0 <= i < n ==> Follows(more, ss, i)
    ensures Gone(es, more, ss, n)
    decreases n
  {
    if n > 0 {
      RunGoesOn(es, more, ss, n - 1);
      RunGoesOnAt(es, more, ss, n - 1);
    }
  }

  const OWNED: Members := map[("owner", "p") := Owner]
  const JOINED: Members := OWNED[("guest", "p") := Member]

  /** The owner's write. */
  const WRITE := Write("owner", "p", true)

  /** The owner adds the guest. */
  function AddEvents(): seq<Event> {
    [CreateProject("p", "owner"), Start("p", None, Jobs()[0]), LockStep(C.Resume(0)), Authorize(0), PutRow(0),
     LockStep(C.Leave(0))]
  }

  function GuestIsIn(): State {
    Init(THE_WORLD).(locks := ADDED, jobs := Jobs()[..1], progress := [Complete(true)], members := JOINED,
                     written := [WRITE])
  }

  function AddStates(): seq<State> {
    var s := Init(THE_WORLD).(members := OWNED, jobs := Jobs()[..1], progress := [Fresh]);
    [Init(THE_WORLD), Init(THE_WORLD).(members := OWNED),
     s.(locks := Adding(C.AwaitProject)), s.(locks := Adding(C.Body)),
     s.(locks := Adding(C.Body), progress := [Cleared(None)]),
     s.(locks := Adding(C.Body), progress := [Complete(true)], members := JOINED, written := [WRITE]),
     GuestIsIn()]
  }

  /** The guest locks the field. */
  function LockEvents(): seq<Event> {
    [Start("p", Some("f"), Jobs()[1]), LockStep(C.Resume(1)), LockStep(C.EnterKey(1)), Authorize(1),
     UseTable(1, "token"), LockStep(C.FreeKey(1)), LockStep(C.Leave(1))]
  }

  const HELD: Table := map["f" := Lease(THE_HOLDER, "token", FIELD_LOCK_TTL_MS)]

  function GuestHasField(): State {
    GuestIsIn().(locks := LOCKED, jobs := Jobs()[..2], progress := [Complete(true), Complete(true)], leases := HELD)
  }

  function LockStates(): seq<State> {
    var s := Init(THE_WORLD).(members := JOINED, jobs := Jobs()[..2], progress := [Complete(true), Fresh],
                              written := [WRITE]);
    var done := s.(progress := [Complete(true), Complete(true)], leases := HELD);
    var waiting, entered := [K.Cell("f", 1, None, false, false)], [K.Cell("f", 1, None, true, false)];
    [GuestIsIn(),
     s.(locks := Locking(C.AwaitProject, map[], [])),
     s.(locks := Locking(C.AwaitKey, map["f" := 0], waiting)),
     s.(locks := Locking(C.Body, map["f" := 0], entered)),
     s.(locks := Locking(C.Body, map["f" := 0], entered), progress := [Complete(true), Cleared(None)]),
     done.(locks := Locking(C.Body, map["f" := 0], entered)),
     done.(locks := Locking(C.KeyFreed, map[], [K.Cell("f", 1, None, true, true)])),
     GuestHasField()]
  }

  /** The owner removes the guest, and a statement after the deletion throws. */
  function RemoveEvents(): seq<Event> {
    [Start("p", None, Jobs()[2]), LockStep(C.Resume(2)), Authorize(2), DeleteRow(2), Fail(2)]
  }

  function RemoveStates(): seq<State> {
    var s := GuestHasField().(jobs := Jobs(), progress := [Complete(true), Complete(true), Fresh]);
    var body := s.(locks := Removing(C.Body));
    var deleted := body.(members := OWNED, lost := map[("guest", "p") := Loss(0, false)],
                              written := [WRITE, WRITE]);
    [GuestHasField(),
     s.(locks := Removing(C.AwaitProject)),
     body,
     body.(progress := [Complete(true), Complete(true), Cleared(None)]),
     deleted.(progress := [Complete(true), Complete(true), RowDeleted]),
     deleted.(progress := [Complete(true), Complete(true), Complete(false)])]
  }

  lemma ProjectIsCreated()
    ensures Follows(AddEvents(), AddStates(), 0)
  {
  }

  lemma AddingBegins()
    ensures Follows(AddEvents(), AddStates(), 1)
  {
  }

  lemma AddingResumes()
    ensures Follows(AddEvents(), AddStates(), 2)
  {
  }

  lemma AddingIsPermitted()
    ensures Follows(AddEvents(), AddStates(), 3)
  {
  }

  lemma GuestIsAdded()
    ensures Follows(AddEvents(), AddStates(), 4)
  {
  }

  lemma AddingLeaves()
    ensures Follows(AddEvents(), AddStates(), 5)
  {
  }

  lemma LockingBegins()
    ensures Follows(LockEvents(), LockStates(), 0)
  {
    assert Jobs()[..1] + [Jobs()[1]] == Jobs()[..2];
    assert L.Acquire(L.UNLOCKED, L.Waiter(1, L.Shared)).lock == L.Lock({1}, None, []);
  }

  lemma LockingResumes()
    ensures Follows(LockEvents(), LockStates(), 1)
  {
  }

  lemma LockingEntersKey()
    ensures Follows(LockEvents(), LockStates(), 2)
  {
  }

  lemma LockingIsPermitted()
    ensures Follows(LockEvents(), LockStates(), 3)
  {
  }

  lemma FieldIsLocked()
    ensures Follows(LockEvents(), LockStates(), 4)
  {
  }

  lemma LockingFreesKey()
    ensures Follows(LockEvents(), LockStates(), 5)
  {
  }

  lemma LockingLeaves()
    ensures Follows(LockEvents(), LockStates(), 6)
  {
  }

  lemma RemovingBegins()
    ensures Follows(RemoveEvents(), RemoveStates(), 0)
  {
    assert Jobs()[..2] + [Jobs()[2]] == Jobs();
  }

  lemma RemovingResumes()
    ensures Follows(RemoveEvents(), RemoveStates(), 1)
  {
  }

  lemma RemovingIsPermitted()
    ensures Follows(RemoveEvents(), RemoveStates(), 2)
  {
  }

  lemma RowIsDeleted()
    ensures Follows(RemoveEvents(), RemoveStates(), 3)
  {
  }

  lemma RemovalThrows()
    ensures Follows(RemoveEvents(), RemoveStates(), 4)
  {
  }

  lemma AddFollows(i: int)
    requires 0 <= i < 6
    ensures Follows(AddEvents(), AddStates(), i)
  {
    match i
    case 0 => ProjectIsCreated();
    case 1 => AddingBegins();
    case 2 => AddingResumes();
    case 3 => AddingIsPermitted();
    case 4 => GuestIsAdded();
    case _ => AddingLeaves();
  }

  lemma LockFollows(i: int)
    requires 0 <= i < 7
    ensures Follows(LockEvents(), LockStates(), i)
  {
    match i
    case 0 => LockingBegins();
    case 1 => LockingResumes();
    case 2 => LockingEntersKey();
    case 3 => LockingIsPermitted();
    case 4 => FieldIsLocked();
    case 5 => LockingFreesKey();
    case _ => LockingLeaves();
  }

  lemma RemoveFollows(i: int)
    requires 0 <= i < 5
    ensures Follows(RemoveEvents(), RemoveStates(), i)
  {
    match i
    case 0 => RemovingBegins();
    case 1 => RemovingResumes();
    case 2 => RemovingIsPermitted();
    case 3 => RowIsDeleted();
    case _ => RemovalThrows();
  }

  function Events(): seq<Event> {
    AddEvents() + LockEvents() + RemoveEvents()
  }

  lemma GuestJoins()
    ensures Run(THE_WORLD, AddEvents()) == Some(LockStates()[0])
  {
    forall i | 0 <= i < 6 ensures Follows(AddEvents(), AddStates(), i) { AddFollows(i); }
    assert [] + AddEvents()[..0] == [];
    RunGoesOn([], AddEvents(), AddStates(), 6);
    assert [] + AddEvents()[..6] == AddEvents();
  }

  lemma GuestLocks()
    ensures Run(THE_WORLD, AddEvents() + LockEvents()) == Some(RemoveStates()[0])
  {
    GuestJoins();
    forall i | 0 <= i < 7 ensures Follows(LockEvents(), LockStates(), i) { LockFollows(i); }
    assert AddEvents() + LockEvents()[..0] == AddEvents();
    RunGoesOn(AddEvents(), LockEvents(), LockStates(), 7);
    assert AddEvents() + LockEvents()[..7] == AddEvents() + LockEvents();
  }

  lemma GuestIsRemoved()
    ensures Run(THE_WORLD, Events()) == Some(RemoveStates()[5])
  {
    GuestLocks();
    forall i | 0 <= i < 5 ensures Follows(RemoveEvents(), RemoveStates(), i) { RemoveFollows(i); }
    assert AddEvents() + LockEvents() + RemoveEvents()[..0] == AddEvents() + LockEvents();
    RunGoesOn(AddEvents() + LockEvents(), RemoveEvents(), RemoveStates(), 5);
    assert AddEvents() + LockEvents() + RemoveEvents()[..5] == Events();
  }

  /** The removed guest still holds the field. */
  lemma ThrownRemovalStrandsALease()
    ensures Run(THE_WORLD, Events()).Some?
    ensures var s := Run(THE_WORLD, Events()).value;
            RealtimeProperties.HeldBy(s.leases, "f", "guest", "p") && ("guest", "p") !in s.members
  {
    GuestIsRemoved();
  }
}
