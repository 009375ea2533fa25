/** Lock requests, lease-validated updates, chat posts and membership changes running
    together over the two-level lock.

    A job is the body of one call; between two of its awaits it takes one atomic step. A
    body may throw at any await (Fail). Membership rows change only in the exclusive jobs,
    except that a new project gets its owner. */
module Realtime {
  import opened Prelude
  import opened Leases
  import C = Coordinator

  type OpId = nat

  datatype Role = Owner | Admin | Member

  type Membership = (UserId, ProjectId)

  type Members = map<Membership, Role>

  datatype Job =
    | GuardedWrite(user: UserId)                            // chat create and remove
    | RemoveItem(user: UserId, token: Option<Token>)        // removal of a block or checklist item
    | LeasedWrite(user: UserId, token: Option<Token>)       // an update under withValidatedLease
    | LockField(holder: Holder)                             // field:lock
    | UnlockField(user: UserId, socketId: SocketId)         // field:unlock
    | RenewField(user: UserId, socketId: SocketId, renewed: Token)  // field:renew
    | QueryField(user: UserId)                              // field:query
    | DropSocket(socketId: SocketId)                        // a disconnected socket's key
    | SweepExpired                                          // the expiry timer's key
    | RemoveMember(requester: UserId, target: UserId)
    | AddMember(requester: UserId, target: UserId)
    | ChangeRole(requester: UserId, target: UserId, role: Role)

  predicate Exclusive(j: Job) {
    j.RemoveMember? || j.AddMember? || j.ChangeRole?
  }

  datatype Progress =
    | Fresh
    | LeaseSeen(seen: Lease)              // the first lease check passed
    | Cleared(lease: Option<Lease>)       // the membership read or permission check passed
    | Ready                               // the protected write may run
    | RowDeleted                          // removeMember, before it releases leases
    | Complete(ok: bool)                  // returned or threw

  /** When a membership was last lost, and whether that removal went on to release leases. */
  datatype Loss = Loss(at: int, swept: bool)

  /** Who wrote, and whether that user was a member then. */
  datatype Write = Write(user: UserId, project: ProjectId, byMember: bool)

  /** What does not change while the system runs: a socket's user, set when it was admitted,
      and the project a well-formed resource key belongs to, if any. */
  datatype World = World(userOf: SocketId -> UserId, projectOf: Key -> Option<ProjectId>)

  datatype State = State(world: World, locks: C.State, jobs: seq<Job>, progress: seq<Progress>,
                         members: Members, leases: Table, clock: int,
                         lost: map<Membership, Loss>, written: seq<Write>)

  datatype Event =
    | Start(project: ProjectId, key: Option<Key>, job: Job)
    | LockStep(step: C.Event)
    | Tick(ms: nat)
    | CreateProject(project: ProjectId, owner: UserId)
    | Fail(op: OpId)
    | CheckLease(op: OpId)
    | Authorize(op: OpId)
    | CheckOwner(op: OpId)
    | Recheck(op: OpId)
    | DoWrite(op: OpId)
    | DropLease(op: OpId)
    | Return(op: OpId)
    | UseTable(op: OpId, minted: Token)
    | DeleteRow(op: OpId)
    | ReleaseLeases(op: OpId, order: seq<Key>)
    | PutRow(op: OpId)

  function Init(w: World): State {
    State(w, C.INITIAL, [], [], map[], map[], 0, map[], [])
  }

  // ----- Permission rules of project-members.service -----

  /** assertOwnerRequiredForAdminTarget does not throw. */
  predicate MayTouchAdmin(target: Role, requester: Role) {
    target == Admin ==> requester == Owner
  }

  predicate Permitted(m: Members, p: ProjectId, j: Job) {
    match j
    case RemoveMember(r, t) =>
      && (r, p) in m && (t, p) in m && m[(t, p)] != Owner
      && (r != t ==> m[(r, p)] != Member && MayTouchAdmin(m[(t, p)], m[(r, p)]))
    case AddMember(r, t) => (r, p) in m && m[(r, p)] != Member && (t, p) !in m
    case ChangeRole(r, t, role) =>
      && (r, p) in m && m[(r, p)] != Member && (t, p) in m && m[(t, p)] != Owner
      && (role == Member ==> MayTouchAdmin(m[(t, p)], m[(r, p)]))
      && m[(t, p)] != role && role != Owner
    case _ => false
  }

  /** The user whose membership a resource job reads. */
  function UserOf(j: Job): Option<UserId> {
    match j
    case GuardedWrite(u) => Some(u)
    case RemoveItem(u, _) => Some(u)
    case LeasedWrite(u, _) => Some(u)
    case LockField(h) => Some(h.userId)
    case UnlockField(u, _) => Some(u)
    case RenewField(u, _, _) => Some(u)
    case QueryField(u) => Some(u)
    case _ => None
  }

  /** A field message comes from a socket of its user and names a key of the project. */
  predicate SocketFits(w: World, j: Job) {
    match j
    case LockField(h) => w.userOf(h.socketId) == h.userId
    case UnlockField(u, socket) => w.userOf(socket) == u
    case RenewField(u, socket, _) => w.userOf(socket) == u
    case _ => true
  }

  predicate FieldJob(j: Job) {
    j.LockField? || j.UnlockField? || j.RenewField? || j.QueryField?
  }

  /** keyBelongsToProject, which the field messages check; a removal looks its item up in the project. */
  predicate KeyFits(w: World, j: Job, key: Key, p: ProjectId) {
    FieldJob(j) || j.RemoveItem? ==> w.projectOf(key) == Some(p)
  }

  predicate IsMember(s: State, user: Option<UserId>, p: ProjectId) {
    user.Some? && (user.value, p) in s.members
  }

  /** The log after a write by the user. */
  function Logged(s: State, user: UserId, p: ProjectId): seq<Write> {
    s.written + [Write(user, p, IsMember(s, Some(user), p))]
  }

  // ----- Steps -----

  predicate Known(s: State, o: OpId) {
    o < |s.locks.ops| && o < |s.jobs| && o < |s.progress|
  }

  predicate InBody(s: State, o: OpId) {
    Known(s, o) && s.locks.ops[o].stage == C.Body
  }

  function KeyOf(s: State, o: OpId): Key
    requires Known(s, o)
  {
    s.locks.ops[o].key.GetOr("")
  }

  function ProjectOf(s: State, o: OpId): ProjectId
    requires Known(s, o)
  {
    s.locks.ops[o].project
  }

  predicate Enabled(s: State, e: Event) {
    match e
    case Start(p, key, job) =>
      (key.None? <==> Exclusive(job)) && SocketFits(s.world, job) && C.Enabled(s.locks, C.Begin(p, key))
    case LockStep(step) =>
      && !step.Begin? && C.Enabled(s.locks, step)
      && ((step.FreeKey? || step.Leave?) ==> Known(s, step.op) && s.progress[step.op].Complete?)
    case Tick(_) => true
    case CreateProject(p, _) =>
      && (forall m: Membership :: m in s.members ==> m.1 != p)
      && (forall m: Membership :: m in s.lost ==> m.1 != p)
    case Fail(o) => InBody(s, o) && !s.progress[o].Complete?
    case CheckLease(o) => InBody(s, o) && s.progress[o].Fresh? && s.jobs[o].LeasedWrite?
    case Authorize(o) =>
      && InBody(s, o)
      && if s.jobs[o].LeasedWrite? then s.progress[o].LeaseSeen?
         else s.progress[o].Fresh? && (UserOf(s.jobs[o]).Some? || Exclusive(s.jobs[o]))
    case Recheck(o) => InBody(s, o) && s.progress[o].Cleared? && s.jobs[o].LeasedWrite?
    case DoWrite(o) => InBody(s, o) && s.progress[o].Ready? && UserOf(s.jobs[o]).Some?
    case CheckOwner(o) => InBody(s, o) && s.progress[o].Cleared? && s.jobs[o].RemoveItem?
    case DropLease(o) => InBody(s, o) && s.progress[o].Ready? && s.jobs[o].RemoveItem?
    case Return(o) => InBody(s, o) && s.progress[o].Ready?
    case UseTable(o, _) =>
      && InBody(s, o)
      && match s.jobs[o] {
           case LockField(_) => s.progress[o].Cleared?
           case UnlockField(_, _) => s.progress[o].Cleared?
           case RenewField(_, _, _) => s.progress[o].Cleared?
           case QueryField(_) => s.progress[o].Cleared?
           case DropSocket(_) => s.progress[o].Fresh?
           case SweepExpired => s.progress[o].Fresh?
           case _ => false
         }
    case DeleteRow(o) => InBody(s, o) && s.progress[o].Cleared? && s.jobs[o].RemoveMember?
    case ReleaseLeases(o, order) =>
      && InBody(s, o) && s.progress[o].RowDeleted? && s.jobs[o].RemoveMember?
      && Enumerates(order, s.leases, s.jobs[o].target, ProjectOf(s, o))
    case PutRow(o) => InBody(s, o) && s.progress[o].Cleared? && (s.jobs[o].AddMember? || s.jobs[o].ChangeRole?)
  }

  function At(s: State, o: OpId, p: Progress): State
    requires Known(s, o)
  {
    s.(progress := s.progress[o := p])
  }

  /** The call on the lease table that a job ends with. */
  function TableCall(s: State, o: OpId, minted: Token): Call
    requires Known(s, o)
  {
    var k := KeyOf(s, o);
    match s.jobs[o]
    case LockField(h) => Acquire(k, h.(projectId := ProjectOf(s, o)), minted, s.clock)
    case UnlockField(_, socket) => Release(k, socket)
    case RenewField(_, socket, token) => Renew(k, socket, token, s.clock)
    case QueryField(_) => Get(k, s.clock)
    case DropSocket(socket) => Release(k, socket)
    case _ => Sweep(k, s.clock)
  }

  function Next(s: State, e: Event): State
    requires Enabled(s, e)
  {
    match e
    case Start(p, key, job) =>
      s.(locks := C.Next(s.locks, C.Begin(p, key)), jobs := s.jobs + [job], progress := s.progress + [Fresh])
    case LockStep(step) => s.(locks := C.Next(s.locks, step))
    case Tick(ms) => s.(clock := s.clock + ms)
    case CreateProject(p, owner) => s.(members := s.members[(owner, p) := Owner])
    case Fail(o) => At(s, o, Complete(false))
    case CheckLease(o) =>
      var p, k, j := ProjectOf(s, o), KeyOf(s, o), s.jobs[o];
      if Valid(s.leases, p, k, j.user, j.token, s.clock) then
        At(s, o, LeaseSeen(s.leases[k]))
      else
        At(s, o, Complete(false)).(leases := After(s.leases, Validate(p, k, j.user, j.token, s.clock)))
    case Authorize(o) =>
      var ok := if Exclusive(s.jobs[o]) then Permitted(s.members, ProjectOf(s, o), s.jobs[o])
                else IsMember(s, UserOf(s.jobs[o]), ProjectOf(s, o))
                     && KeyFits(s.world, s.jobs[o], KeyOf(s, o), ProjectOf(s, o));
      At(s, o, if !ok then Complete(false)
               else match s.jobs[o]
                 case GuardedWrite(_) => Ready
                 case LeasedWrite(_, _) => Cleared(Some(s.progress[o].seen))
                 case _ => Cleared(None))
    case CheckOwner(o) =>
      var p, k, j := ProjectOf(s, o), KeyOf(s, o), s.jobs[o];
      var leases := After(s.leases, Call.AssertOwner(p, k, j.user, j.token, s.clock));
      At(s, o, if OwnedIfLocked(leases, p, k, j.user, j.token) then Ready else Complete(false)).(leases := leases)
    case Recheck(o) =>
      At(s, o, if StillValid(s.leases, KeyOf(s, o), s.jobs[o].token, s.clock) then Ready else Complete(false))
    case DoWrite(o) =>
      s.(written := Logged(s, UserOf(s.jobs[o]).value, ProjectOf(s, o)))
    case DropLease(o) => s.(leases := After(s.leases, ReleaseResource(KeyOf(s, o))))
    case Return(o) => At(s, o, Complete(true))
    case UseTable(o, minted) => At(s, o, Complete(true)).(leases := After(s.leases, TableCall(s, o, minted)))
    case DeleteRow(o) =>
      var row := (s.jobs[o].target, ProjectOf(s, o));
      At(s, o, RowDeleted).(members := s.members - {row}, lost := s.lost[row := Loss(s.clock, false)],
                            written := Logged(s, s.jobs[o].requester, row.1))
    case ReleaseLeases(o, order) =>
      var row := (s.jobs[o].target, ProjectOf(s, o));
      At(s, o, Complete(true)).(leases := After(s.leases, ReleaseUserInProject(row.0, row.1, order)),
                                lost := s.lost[row := Loss(s.clock, true)])
    case PutRow(o) =>
      var row := (s.jobs[o].target, ProjectOf(s, o));
      var role := if s.jobs[o].ChangeRole? then s.jobs[o].role else Member;
      At(s, o, Complete(true)).(members := s.members[row := role],
                                written := Logged(s, s.jobs[o].requester, row.1))
  }

  function Run(w: World, es: seq<Event>): Option<State> {
    if es == [] then
      Some(Init(w))
    else
      var s :- Run(w, es[..|es| - 1]);
      if Enabled(s, es[|es| - 1]) then Some(Next(s, es[|es| - 1])) else None
  }
}
