/** The credential renewal loop as a machine over time: it sleeps, attempts a renewal reply by
    reply, waits after a failure, or gives up and says it is not ready. */
module VaultRenewal {
  import opened Prelude

  /** Times and durations count nanoseconds. */
  const SAFETY_MARGIN := 60 * SECOND
  const RETRY_INTERVAL := 15 * SECOND

  type Time = int

  /** Division that cuts toward zero. */
  function Half(x: int): int {
    if x >= 0 then x / 2 else -((-x) / 2)
  }

  function RenewalDelay(tokenTTL: int, databaseTTL: int): int {
    var ttl := Min(tokenTTL, databaseTTL);
    if ttl <= 2 * SAFETY_MARGIN then Half(ttl) else ttl - SAFETY_MARGIN
  }

  /** The request an attempt is waiting on. */
  datatype Stage =
    | RenewingToken
    | LoggingIn
    | RenewingDatabase
    | IssuingDatabase
    | Connecting(lease: int)

  datatype Phase =
    | Sleeping(wake: Time)
    | Attempting(since: Time, stage: Stage)
    | Waiting(until: Time)
    | Stopped

  datatype State = State(now: Time, tokenExpiresAt: Time, databaseExpiresAt: Time, ready: bool, phase: Phase)

  datatype Reply =
    | Granted(duration: int)
    | LimitReached
    | Refused(authorization: bool)

  datatype Event = Tick(passed: int) | Wake | Answer(reply: Reply) | Resume

  /** The world's side of the bargain: an attempt takes less than `attempt`, a lease lasts at least `lease`. */
  datatype World = World(attempt: int, lease: int)

  /** The top of the loop. */
  function Plan(s: State): State {
    s.(phase := Sleeping(s.now + RenewalDelay(s.tokenExpiresAt - s.now, s.databaseExpiresAt - s.now)))
  }

  function Started(now: Time, token: int, database: int): State {
    Plan(State(now, now + token, now + database, true, Stopped))
  }

  /** A failed attempt: give up when refused outright or short of time, else try again later. */
  function Failed(s: State, authorization: bool): State {
    if authorization || s.tokenExpiresAt - s.now <= SAFETY_MARGIN || s.databaseExpiresAt - s.now <= SAFETY_MARGIN
    then s.(ready := false, phase := Stopped)
    else s.(phase := Waiting(s.now + RETRY_INTERVAL))
  }

  function Answered(s: State, reply: Reply): State
    requires s.phase.Attempting?
  {
    match s.phase.stage
    case RenewingToken =>
      if reply.Granted? then s.(tokenExpiresAt := s.now + reply.duration, phase := s.phase.(stage := RenewingDatabase))
      else s.(phase := s.phase.(stage := LoggingIn))
    case LoggingIn =>
      if reply.Granted? then s.(tokenExpiresAt := s.now + reply.duration, phase := s.phase.(stage := IssuingDatabase))
      else Failed(s, reply == Refused(true))
    case RenewingDatabase =>
      if reply.Granted? then s.(phase := s.phase.(stage := Connecting(reply.duration)))
      else if reply.LimitReached? then s.(phase := s.phase.(stage := IssuingDatabase))
      else Failed(s, reply.authorization)
    case IssuingDatabase =>
      if reply.Granted? then s.(phase := s.phase.(stage := Connecting(reply.duration)))
      else Failed(s, reply == Refused(true))
    case Connecting(lease) =>
      if reply.Granted? then Plan(s.(databaseExpiresAt := s.now + lease))
      else Failed(s, reply == Refused(true))
  }

  /** Timers fire on time, attempts stay within their limit, leases reach their minimum. */
  function Next(w: World, s: State, e: Event): Option<State> {
    match e
    case Tick(passed) =>
      if passed <= 0 then None else
      var later := s.(now := s.now + passed);
      (match s.phase
      case Sleeping(wake) => if later.now <= wake then Some(later) else None
      case Attempting(since, _) => if later.now < since + w.attempt then Some(later) else None
      case Waiting(until) => if later.now <= until then Some(later) else None
      case Stopped => Some(later))
    case Wake =>
      if s.phase.Sleeping? && s.now >= s.phase.wake then Some(s.(phase := Attempting(s.now, RenewingToken))) else None
    case Answer(reply) =>
      if !s.phase.Attempting? then None
      else if reply.Granted? && !s.phase.stage.Connecting? && reply.duration < w.lease then None
      else Some(Answered(s, reply))
    case Resume =>
      if s.phase.Waiting? && s.now >= s.phase.until then Some(Plan(s)) else None
  }

  function RunFrom(w: World, s: State, es: seq<Event>): Option<State>
    decreases |es|
  {
    if es == [] then Some(s) else
    var s' :- Next(w, s, es[0]);
    RunFrom(w, s', es[1..])
  }

  // ---------------------------------------------------------------- safety

  /** Attempts short against the retry pause, leases long against attempts. An attempt lasts at most
      a nanosecond less than its limit, which is where the odd nanoseconds come from. */
  predicate Fast(w: World) {
    && 2 * w.attempt <= SAFETY_MARGIN - RETRY_INTERVAL + 2
    && 3 * w.attempt <= w.lease + 2
  }

  function Soonest(s: State): Time {
    Min(s.tokenExpiresAt, s.databaseExpiresAt)
  }

  /** Whatever the loop is doing, the next thing it does comes before the first expiry. */
  predicate Safe(w: World, s: State) {
    match s.phase
    case Sleeping(wake) => s.now <= wake && wake + w.attempt <= Soonest(s)
    case Attempting(since, stage) =>
      && since <= s.now < since + w.attempt <= Soonest(s)
      && (!stage.RenewingToken? && !stage.LoggingIn? ==> since + w.lease <= s.tokenExpiresAt)
      && (stage.Connecting? ==> w.lease <= stage.lease)
    case Waiting(until) => s.now <= until && until + SAFETY_MARGIN - RETRY_INTERVAL < Soonest(s)
    case Stopped => !s.ready
  }

  /** Planned from far enough, the attempt will have its time. */
  lemma PlanIsSafe(w: World, s: State)
    requires Fast(w) && w.attempt > 0
    requires s.now + 2 * w.attempt - 1 <= Soonest(s)
    ensures Safe(w, Plan(s))
  {
  }

  lemma FailedIsSafe(w: World, s: State, authorization: bool)
    requires Fast(w) && w.attempt > 0
    ensures Safe(w, Failed(s, authorization))
  {
  }

  lemma ConnectedIsSafe(w: World, s: State)
    requires Fast(w) && w.attempt > 0 && Safe(w, s)
    requires s.phase.Attempting? && s.phase.stage.Connecting?
    ensures Safe(w, Plan(s.(databaseExpiresAt := s.now + s.phase.stage.lease)))
  {
    PlanIsSafe(w, s.(databaseExpiresAt := s.now + s.phase.stage.lease));
  }

  lemma AnswerIsSafe(w: World, s: State, reply: Reply)
    requires Fast(w) && w.attempt > 0 && Safe(w, s)
    requires Next(w, s, Answer(reply)).Some?
    ensures Safe(w, Next(w, s, Answer(reply)).value)
  {
    match s.phase.stage
    case RenewingToken =>
    case LoggingIn => FailedIsSafe(w, s, reply == Refused(true));
    case RenewingDatabase => FailedIsSafe(w, s, reply.Refused? && reply.authorization);
    case IssuingDatabase => FailedIsSafe(w, s, reply == Refused(true));
    case Connecting(lease) =>
      FailedIsSafe(w, s, reply == Refused(true));
      ConnectedIsSafe(w, s);
  }

  lemma StepIsSafe(w: World, s: State, e: Event)
    requires Fast(w) && w.attempt > 0 && Safe(w, s)
    requires Next(w, s, e).Some?
    ensures Safe(w, Next(w, s, e).value)
  {
    match e
    case Tick(_) =>
    case Wake =>
    case Answer(reply) => AnswerIsSafe(w, s, reply);
    case Resume => PlanIsSafe(w, s);
  }

  lemma {:induction false} RunIsSafe(w: World, s: State, es: seq<Event>)
    requires Fast(w) && w.attempt > 0 && Safe(w, s)
    requires RunFrom(w, s, es).Some?
    ensures Safe(w, RunFrom(w, s, es).value)
    decreases |es|
  {
    if es != [] {
      StepIsSafe(w, s, es[0]);
      RunIsSafe(w, Next(w, s, es[0]).value, es[1..]);
    }
  }

  /** At every moment of every run, while the service says it is ready neither credential has expired. */
  lemma ReadyMeansUnexpired(w: World, now: Time, token: int, database: int, es: seq<Event>)
    requires Fast(w) && w.attempt > 0
    requires token >= w.lease && database >= w.lease
    requires RunFrom(w, Started(now, token, database), es).Some?
    ensures var s := RunFrom(w, Started(now, token, database), es).value;
            s.ready ==> s.now < s.tokenExpiresAt && s.now < s.databaseExpiresAt
  {
    PlanIsSafe(w, State(now, now + token, now + database, true, Stopped));
    RunIsSafe(w, Started(now, token, database), es);
  }

  /** With leases of 75 seconds and attempts under 22, in particular. */
  lemma SeventyFiveSecondsSuffice(now: Time, token: int, database: int, es: seq<Event>)
    requires token >= 75 * SECOND && database >= 75 * SECOND
    requires RunFrom(World(22 * SECOND, 75 * SECOND), Started(now, token, database), es).Some?
    ensures var s := RunFrom(World(22 * SECOND, 75 * SECOND), Started(now, token, database), es).value;
            s.ready ==> s.now < s.tokenExpiresAt && s.now < s.databaseExpiresAt
  {
    ReadyMeansUnexpired(World(22 * SECOND, 75 * SECOND), now, token, database, es);
  }

  /** The service gives up on an answer only: refused as unauthorized, or failed with a minute or
      less to an expiry. */
  lemma GivesUpExactly(w: World, s: State, e: Event)
    requires s.ready && Next(w, s, e).Some?
    ensures !Next(w, s, e).value.ready <==>
              && e.Answer? && !e.reply.Granted?
              && !s.phase.stage.RenewingToken? && !(s.phase.stage.RenewingDatabase? && e.reply.LimitReached?)
              && (e.reply == Refused(true) || Soonest(s) - s.now <= SAFETY_MARGIN)
  {
  }

  /** So while requests are granted the service stays ready. */
  lemma {:induction false} GrantedRunsStayReady(w: World, s: State, es: seq<Event>)
    requires s.ready && RunFrom(w, s, es).Some?
    requires forall i :: 0 <= i < |es| && es[i].Answer? ==> es[i].reply.Granted?
    ensures RunFrom(w, s, es).value.ready
    decreases |es|
  {
    if es != [] {
      GivesUpExactly(w, s, es[0]);
      assert forall i :: 0 <= i < |es[1..]| ==> es[1..][i] == es[i + 1];
      GrantedRunsStayReady(w, Next(w, s, es[0]).value, es[1..]);
    }
  }

  // ---------------------------------------------------------------- what an attempt records

  /** The recorded expiries are those that were granted: the token's when it is renewed or logged in for, from
      then on; the database's when the service has connected, for the duration its request was granted. */
  lemma ExpiriesAreGranted(w: World, s: State, e: Event)
    requires Next(w, s, e).Some?
    ensures var s' := Next(w, s, e).value;
            var granted := e.Answer? && s.phase.Attempting? && e.reply.Granted?;
            && s'.tokenExpiresAt == (if granted && (s.phase.stage.RenewingToken? || s.phase.stage.LoggingIn?)
                                     then s.now + e.reply.duration else s.tokenExpiresAt)
            && s'.databaseExpiresAt == (if granted && s.phase.stage.Connecting?
                                        then s.now + s.phase.stage.lease else s.databaseExpiresAt)
            && (s'.phase.Attempting? && s'.phase.stage.Connecting?
                && !(s.phase.Attempting? && s.phase.stage.Connecting?) ==>
                  && granted && s'.phase.stage.lease == e.reply.duration
                  && (s.phase.stage.RenewingDatabase? || s.phase.stage.IssuingDatabase?))
  {
  }

  /** A token that cannot be renewed is logged in for anew, and then the database credential is issued anew: one
      is renewed only under the renewed token it came with. */
  lemma NewLoginIssuesAnew(w: World, s: State, e: Event)
    requires Next(w, s, e).Some? && s.phase.Attempting?
    ensures var s' := Next(w, s, e).value;
            && (s'.phase.Attempting? && s'.phase.stage != s.phase.stage ==>
                  match s'.phase.stage
                  case RenewingToken => false
                  case LoggingIn => s.phase.stage.RenewingToken? && !e.reply.Granted?
                  case RenewingDatabase => s.phase.stage.RenewingToken? && e.reply.Granted?
                  case IssuingDatabase =>
                    || (s.phase.stage.LoggingIn? && e.reply.Granted?)
                    || (s.phase.stage.RenewingDatabase? && e.reply.LimitReached?)
                  case Connecting(_) => e.reply.Granted?)
            && (s'.phase.Sleeping? ==> s.phase.stage.Connecting? && e.Answer? && e.reply.Granted?)
            && (s'.phase.Waiting? ==>
                  && e.Answer? && !e.reply.Granted? && e.reply != Refused(true)
                  && s'.phase.until == s.now + RETRY_INTERVAL)
  {
  }

  // ---------------------------------------------------------------- the limits are exact

  predicate StepsTo(w: World, ss: seq<State>, es: seq<Event>, i: int)
    requires |ss| == |es| + 1 && 0 <= i < |es|
  {
    Next(w, ss[i], es[i]) == Some(ss[i + 1])
  }

  lemma {:induction false} FollowsStates(w: World, es: seq<Event>, ss: seq<State>)
    requires |ss| == |es| + 1
    requires forall i :: 0 <= i < |es| ==> StepsTo(w, ss, es, i)
    ensures RunFrom(w, ss[0], es) == Some(ss[|es|])
    decreases |es|
  {
    if es != [] {
      assert StepsTo(w, ss, es, 0);
      forall i | 0 <= i < |es[1..]|
        ensures StepsTo(w, ss[1..], es[1..], i)
      {
        assert StepsTo(w, ss, es, i + 1);
      }
      FollowsStates(w, es[1..], ss[1..]);
    }
  }

  /** A credential has run out and the service says that it is ready. */
  predicate ExpiredWhileReady(s: State) {
    s.ready && (s.tokenExpiresAt <= s.now || s.databaseExpiresAt <= s.now)
  }

  /** Halves a remaining time: a minute before the end of its lease the token is renewed, the database
      refuses with just over a minute left, and after the pause half of what is left passes before the
      next attempt begins. */
  function LateRun(lease: int): seq<Event> {
    [Tick(lease - SAFETY_MARGIN), Wake, Answer(Granted(10 * lease)), Answer(Refused(false)),
     Tick(RETRY_INTERVAL), Resume, Tick(45 * SECOND / 2), Wake, Tick(45 * SECOND / 2 + 1)]
  }

  function StatesOfLateRun(lease: int): seq<State> {
    var start, database := lease - SAFETY_MARGIN, lease + 1;
    var renewed, resumed := start + 10 * lease, start + RETRY_INTERVAL;
    var again := resumed + 45 * SECOND / 2;
    [State(0, lease, database, true, Sleeping(start)),
     State(start, lease, database, true, Sleeping(start)),
     State(start, lease, database, true, Attempting(start, RenewingToken)),
     State(start, renewed, database, true, Attempting(start, RenewingDatabase)),
     State(start, renewed, database, true, Waiting(resumed)),
     State(resumed, renewed, database, true, Waiting(resumed)),
     State(resumed, renewed, database, true, Sleeping(again)),
     State(again, renewed, database, true, Sleeping(again)),
     State(again, renewed, database, true, Attempting(again, RenewingToken)),
     State(database, renewed, database, true, Attempting(again, RenewingToken))]
  }

  /** Attempts a moment longer than half the retry margin break it however long the leases are: the
      service is still ready when its database credential expires. */
  lemma SlowAttemptsExpireWhileReady(w: World, lease: int)
    requires 2 * w.attempt > SAFETY_MARGIN - RETRY_INTERVAL + 2
    requires w.lease <= lease && 121 * SECOND <= lease
    ensures var end := RunFrom(w, Started(0, lease, lease + 1), LateRun(lease));
            end.Some? && ExpiredWhileReady(end.value)
  {
    var es, ss := LateRun(lease), StatesOfLateRun(lease);
    forall i | 0 <= i < |es|
      ensures StepsTo(w, ss, es, i)
    {
    }
    FollowsStates(w, es, ss);
    assert ss[0] == Started(0, lease, lease + 1);
  }

  /** The token is renewed as an attempt begins, which then takes its whole time; half of what is left
      of the token passes, and the next attempt gets no answer. */
  function ShortRun(a: int): seq<Event> {
    var lease := 3 * a - 3;
    [Tick(lease / 2), Wake, Answer(Granted(lease)), Answer(Granted(lease)), Tick(a - 1), Answer(Granted(0)),
     Tick(a - 1), Wake, Tick(a - 1)]
  }

  function StatesOfShortRun(a: int): seq<State> {
    var lease := 3 * a - 3;
    var first := lease / 2;
    var connected, token, long := first + a - 1, first + lease, 10 * a;
    var again, database := connected + a - 1, connected + lease;
    [State(0, lease, long, true, Sleeping(first)),
     State(first, lease, long, true, Sleeping(first)),
     State(first, lease, long, true, Attempting(first, RenewingToken)),
     State(first, token, long, true, Attempting(first, RenewingDatabase)),
     State(first, token, long, true, Attempting(first, Connecting(lease))),
     State(connected, token, long, true, Attempting(first, Connecting(lease))),
     State(connected, token, database, true, Sleeping(again)),
     State(again, token, database, true, Sleeping(again)),
     State(again, token, database, true, Attempting(again, RenewingToken)),
     State(token, token, database, true, Attempting(again, RenewingToken))]
  }

  predicate Short(w: World) {
    && 1 < w.attempt && 2 * w.attempt <= SAFETY_MARGIN - RETRY_INTERVAL + 2
    && 3 * w.attempt > w.lease + 2
  }

  lemma FirstAttemptSteps(w: World, i: int)
    requires Short(w) && 0 <= i < 5
    ensures StepsTo(w, StatesOfShortRun(w.attempt), ShortRun(w.attempt), i)
  {
  }

  lemma ConnectedSteps(w: World)
    requires Short(w)
    ensures StepsTo(w, StatesOfShortRun(w.attempt), ShortRun(w.attempt), 5)
  {
    assert Half(2 * w.attempt - 2) == w.attempt - 1;
  }

  lemma LastAttemptSteps(w: World, i: int)
    requires Short(w) && 6 <= i < 9
    ensures StepsTo(w, StatesOfShortRun(w.attempt), ShortRun(w.attempt), i)
  {
  }

  /** So do leases shorter than three attempts, however quick the attempts are. */
  lemma ShortLeasesExpireWhileReady(w: World)
    requires Short(w)
    ensures var end := RunFrom(w, Started(0, 3 * w.attempt - 3, 10 * w.attempt), ShortRun(w.attempt));
            end.Some? && ExpiredWhileReady(end.value)
  {
    var es, ss := ShortRun(w.attempt), StatesOfShortRun(w.attempt);
    forall i | 0 <= i < |es|
      ensures StepsTo(w, ss, es, i)
    {
      if i < 5 {
        FirstAttemptSteps(w, i);
      } else if i == 5 {
        ConnectedSteps(w);
      } else {
        LastAttemptSteps(w, i);
      }
    }
    FollowsStates(w, es, ss);
    assert ss[0] == Started(0, 3 * w.attempt - 3, 10 * w.attempt);
  }

  /** No run from credentials of the minimal lease or more gets there. */
  ghost predicate NeverExpiresWhileReady(w: World) {
    forall now, token, database, es :: token >= w.lease && database >= w.lease ==>
      var end := RunFrom(w, Started(now, token, database), es);
      end.Some? ==> !ExpiredWhileReady(end.value)
  }

  /** The loop keeps its promise exactly when attempts take at most half of what the safety margin
      leaves after a retry pause, and leases last three attempts. */
  lemma NeverExpiresExactly(w: World)
    requires w.attempt > 0
    ensures NeverExpiresWhileReady(w) <==> Fast(w)
  {
    if Fast(w) {
      forall now, token, database, es | token >= w.lease && database >= w.lease
        && RunFrom(w, Started(now, token, database), es).Some?
        ensures !ExpiredWhileReady(RunFrom(w, Started(now, token, database), es).value)
      {
        ReadyMeansUnexpired(w, now, token, database, es);
      }
    } else if 2 * w.attempt > SAFETY_MARGIN - RETRY_INTERVAL + 2 {
      SlowAttemptsExpireWhileReady(w, Max(w.lease, 121 * SECOND));
    } else if w.attempt == 1 {
      assert RunFrom(w, Started(0, 0, 0), []) == Some(Started(0, 0, 0));
    } else {
      ShortLeasesExpireWhileReady(w);
    }
  }
}
