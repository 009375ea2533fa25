/** Callers of the public-key cache that overlap: every interleaving of their critical sections with
    the reads from Vault, of which one at a time is under way. */
module KeyReads {
  import opened Prelude
  import opened KeyCache
  import opened KeyVersions

  /** What a caller saw when it decided to refresh: the latest version, the reads begun, the time. */
  datatype Sight = Sight(latest: Version, begun: nat, clock: Time)

  datatype Outcome = Got(found: Found) | Signing(version: Version)

  datatype Phase =
    | Fresh
    | Marking                          // barred: about to remember the version as unknown
    | Deciding(seen: Sight)            // about to enter the refresh
    | Reading                          // its read from Vault is under way
    | Waiting(begun: nat)              // for the last of the reads begun by then
    | Fetching                         // the refresh went well
    | Over(outcome: Outcome)

  /** A lookup of a version, or a question for the signing key; `now` was read off at its start. */
  datatype Call = Call(version: Option<Version>, now: Time, phase: Phase)

  /** A read from Vault, with what its caller had seen. */
  datatype VaultRead = VaultRead(caller: nat, version: Option<Version>, seen: Sight, began: Time)

  datatype State = State(c: Cache, clock: Time, calls: seq<Call>, log: seq<VaultRead>)

  const INITIAL := State(EMPTY_CACHE, 0, [], [])

  /** The maps in events are what the sections that remember leave, where they have a choice. */
  datatype Event =
    | Tick(passed: nat)
    | Open(info: KeyInfo)
    | GiveUp
    | Enter(version: Option<Version>)
    | LookUp(o: nat)
    | Mark(o: nat, negative: Dated)
    | Begin(o: nat, checks: Dated)
    | Finish(o: nat, response: Option<Response>)
    | Resume(o: nat, negative: Dated)
    | Fetch(o: nat)

  function At(s: State, o: nat, c: Cache, phase: Phase): State
    requires o < |s.calls|
  {
    s.(c := c, calls := s.calls[o := s.calls[o].(phase := phase)])
  }

  function AfterLook(s: State, call: Call): Phase {
    var decides := Deciding(Sight(s.c.latest, |s.log|, s.clock));
    if call.version.None? then
      if IsStale(s.c.latest, s.c.refreshedAt, s.clock) then decides else Over(Signing(s.c.latest))
    else
      match Look(s.c, call.version.value, call.now)
      case Hit(key) => Over(Got(Key(key)))
      case KnownUnknown => Over(Got(NotFound))
      case Barred => Marking
      case MustRead => decides
  }

  function AfterFetch(c: Cache, version: Option<Version>): Outcome {
    if version.None? then if c.latest == 0 then Got(Failed) else Signing(c.latest)
    else if version.value in c.publicKeys then Got(Key(c.publicKeys[version.value]))
    else Got(NotFound)
  }

  ghost predicate Enabled(s: State, e: Event) {
    match e
    case Tick(_) => true
    case Open(info) => s.calls == [] && Coherent(info)
    case GiveUp => true
    case Enter(_) => s.c.ready
    case LookUp(o) => o < |s.calls| && s.calls[o].phase.Fresh?
    case Mark(o, negative) =>
      && o < |s.calls| && s.calls[o].phase.Marking? && s.calls[o].version.Some?
      && MarksUnknown(s.c, s.c.(negative := negative), s.calls[o].version.value, s.calls[o].now)
    case Begin(o, checks) =>
      && o < |s.calls| && s.calls[o].phase.Deciding?
      && Begins(s.c, Begun(s, o, checks), s.calls[o].version.Some?, s.calls[o].version, s.clock)
    case Finish(o, _) => o < |s.calls| && s.calls[o].phase.Reading?
    case Resume(o, negative) =>
      && o < |s.calls| && s.calls[o].phase.Waiting?
      && (s.c.refreshing ==> s.calls[o].phase.begun < |s.log|)
      && Resumes(s.c, s.c.(negative := negative), s.calls[o].version, s.clock)
    case Fetch(o) => o < |s.calls| && s.calls[o].phase.Fetching?
  }

  function RoleAt(s: State, o: nat): Role
    requires o < |s.calls|
  {
    RoleOf(s.c, s.calls[o].version.Some?, s.clock)
  }

  function Begun(s: State, o: nat, checks: Dated): Cache
    requires o < |s.calls|
  {
    s.c.(refreshing := s.c.refreshing || RoleAt(s, o).Ask?, checks := checks)
  }

  ghost function Next(s: State, e: Event): State
    requires Enabled(s, e)
  {
    match e
    case Tick(passed) => s.(clock := s.clock + passed)
    case Open(info) => s.(c := Installed(s.c, info, s.clock).(ready := true))
    case GiveUp => s.(c := s.c.(ready := false))
    case Enter(version) => s.(calls := s.calls + [Call(version, s.clock, Fresh)])
    case LookUp(o) => At(s, o, s.c, AfterLook(s, s.calls[o]))
    case Mark(o, negative) => At(s, o, s.c.(negative := negative), Over(Got(NotFound)))
    case Begin(o, checks) =>
      (match RoleAt(s, o)
       case UpToDate => At(s, o, Begun(s, o, checks), Fetching)
       case Wait => At(s, o, Begun(s, o, checks), Waiting(|s.log|))
       case Ask =>
         At(s, o, Begun(s, o, checks), Reading)
         .(log := s.log + [VaultRead(o, s.calls[o].version, s.calls[o].phase.seen, s.clock)]))
    case Finish(o, response) =>
      At(s, o, Finished(s.c, s.calls[o].version, s.clock, response),
         if TransitKeyInfo(response).Some? then Fetching else Over(Got(Failed)))
    case Resume(o, negative) =>
      At(s, o, s.c.(negative := negative), if s.c.failed then Over(Got(Failed)) else Fetching)
    case Fetch(o) => At(s, o, s.c, Over(AfterFetch(s.c, s.calls[o].version)))
  }

  ghost function Run(es: seq<Event>): Option<State> {
    if es == [] then Some(INITIAL) else
    var s :- Run(es[..|es| - 1]);
    if Enabled(s, es[|es| - 1]) then Some(Next(s, es[|es| - 1])) else None
  }
}
