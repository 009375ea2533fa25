/** What holds however lookups overlap: one read from Vault at a time, of versions within reach of what
    the caller saw, and none that was read in the last thirty seconds before the caller looked. */
module KeyReadsProperties {
  import opened Prelude
  import opened KeyCache
  import opened KeyVersions
  import opened KeyReads

  /** The versions read from Vault at `t` or later. */
  function VersionsSince(log: seq<VaultRead>, t: Time): set<Version> {
    set i | 0 <= i < |log| && log[i].version.Some? && log[i].began >= t :: log[i].version.value
  }

  /** So many versions that the check of one of them may have been forgotten. */
  predicate Crowded(log: seq<VaultRead>, t: Time) {
    |VersionsSince(log, t)| >= 64
  }

  predicate InReach(version: Version, latest: Version) {
    latest == 0 || latest < version <= latest + 32
  }

  // ---------------------------------------------------------------- invariant

  /** The read under way is the last one begun, and its caller is the one that reads. */
  ghost predicate OneReads(s: State) {
    && (s.c.refreshing ==> s.log != [] && s.log[|s.log| - 1].caller < |s.calls|)
    && forall o :: 0 <= o < |s.calls| ==>
         (s.calls[o].phase.Reading? <==> s.c.refreshing && s.log[|s.log| - 1].caller == o)
  }

  predicate ReadAt(log: seq<VaultRead>, i: int, version: Version, t: Time) {
    0 <= i < |log| && log[i].version == Some(version) && log[i].began == t
  }

  ghost predicate ChecksAreReads(checks: Dated, log: seq<VaultRead>) {
    forall x :: x in checks ==> exists i :: ReadAt(log, i, x, checks[x])
  }

  predicate Remembered(checks: Dated, log: seq<VaultRead>, version: Version, t: Time) {
    (version in checks && checks[version] >= t) || Crowded(log, t)
  }

  ghost predicate RecentAreRemembered(s: State) {
    forall i :: 0 <= i < |s.log| && s.log[i].version.Some? && s.clock - s.log[i].began < NEGATIVE_KEY_TTL ==>
      Remembered(s.c.checks, s.log, s.log[i].version.value, s.log[i].began)
  }

  /** No read of the version was less than thirty seconds old when the caller looked, unless
      sixty-four versions had been read from that read on. */
  predicate NotJustRead(log: seq<VaultRead>, seen: Sight, version: Version)
    requires seen.begun <= |log|
  {
    forall i ::
      0 <= i < seen.begun && log[i].version == Some(version) && seen.clock - log[i].began < NEGATIVE_KEY_TTL ==>
        Crowded(log[..seen.begun], log[i].began)
  }

  predicate SightOk(log: seq<VaultRead>, seen: Sight, version: Option<Version>, clock: Time) {
    && seen.begun <= |log| && seen.clock <= clock
    && (version.Some? ==> InReach(version.value, seen.latest) && NotJustRead(log, seen, version.value))
  }

  predicate CallOk(s: State, o: nat)
    requires o < |s.calls|
  {
    && s.calls[o].now <= s.clock
    && (s.calls[o].phase.Deciding? ==> SightOk(s.log, s.calls[o].phase.seen, s.calls[o].version, s.clock))
    && (s.calls[o].phase.Marking? ==> s.calls[o].version.Some?)
    && (s.calls[o].phase.Waiting? ==> s.calls[o].phase.begun <= |s.log|)
  }

  predicate ReadOk(s: State, j: nat)
    requires j < |s.log|
  {
    s.log[j].began <= s.clock && SightOk(s.log[..j], s.log[j].seen, s.log[j].version, s.log[j].began)
  }

  ghost predicate Inv(s: State) {
    && ValidCache(s.c)
    && OneReads(s)
    && ChecksAreReads(s.c.checks, s.log)
    && RecentAreRemembered(s)
    && (forall o :: 0 <= o < |s.calls| ==> CallOk(s, o))
    && (forall j :: 0 <= j < |s.log| ==> ReadOk(s, j))
  }

  // ---------------------------------------------------------------- a read begins

  lemma SinceGrows(log: seq<VaultRead>, r: VaultRead, t: Time)
    ensures VersionsSince(log, t) <= VersionsSince(log + [r], t)
    ensures Crowded(log, t) ==> Crowded(log + [r], t)
  {
    forall i | 0 <= i < |log| && log[i].version.Some? && log[i].began >= t
      ensures log[i].version.value in VersionsSince(log + [r], t)
    {
      assert (log + [r])[i] == log[i];
    }
    SubsetIsSmaller(VersionsSince(log, t), VersionsSince(log + [r], t));
  }

  lemma ReadIsSince(log: seq<VaultRead>, i: int, version: Version, d: Time, t: Time)
    requires ReadAt(log, i, version, d) && d >= t
    ensures version in VersionsSince(log, t)
  {
  }

  /** When the check of a version is forgotten, all that are remembered were read no earlier. */
  lemma ForgottenIsCrowded(checks: Dated, after: Dated, log: seq<VaultRead>, r: VaultRead, id: Version,
                           cutoff: Time, v: Version, t: Time)
    requires ChecksAreReads(checks, log) && r.version == Some(id) && r.began >= t
    requires Remembers(checks, after, id, r.began, cutoff)
    requires v in checks && checks[v] >= t && Live(checks, v, cutoff) && v !in after
    ensures Crowded(log + [r], t)
  {
    var live := LiveIds(checks, cutoff);
    forall x | x in live
      ensures x in VersionsSince(log + [r], t)
    {
      assert Live(checks, x, cutoff);
      if x == id {
        ReadIsSince(log + [r], |log|, id, r.began, t);
      } else {
        assert x in after ==> Carried(checks, after, x, cutoff);
        assert checks[x] >= t;
        var i :| ReadAt(log, i, x, checks[x]);
        ReadIsSince(log + [r], i, x, checks[x], t);
      }
    }
    SubsetIsSmaller(live, VersionsSince(log + [r], t));
  }

  lemma RememberedAfter(checks: Dated, after: Dated, log: seq<VaultRead>, r: VaultRead, id: Version,
                        v: Version, t: Time)
    requires ChecksAreReads(checks, log) && r.version == Some(id) && r.began >= t
    requires Remembers(checks, after, id, r.began, r.began - NEGATIVE_KEY_TTL)
    requires Remembered(checks, log, v, t) && r.began - t < NEGATIVE_KEY_TTL
    ensures Remembered(after, log + [r], v, t)
  {
    SinceGrows(log, r, t);
    if !Crowded(log, t) && v != id {
      assert Live(checks, v, r.began - NEGATIVE_KEY_TTL);
      if v in after {
        assert Carried(checks, after, v, r.began - NEGATIVE_KEY_TTL);
      } else {
        ForgottenIsCrowded(checks, after, log, r, id, r.began - NEGATIVE_KEY_TTL, v, t);
      }
    }
  }

  lemma ChecksAfter(checks: Dated, after: Dated, log: seq<VaultRead>, r: VaultRead, id: Version, cutoff: Time)
    requires ChecksAreReads(checks, log) && r.version == Some(id)
    requires Remembers(checks, after, id, r.began, cutoff)
    ensures ChecksAreReads(after, log + [r])
  {
    forall x | x in after
      ensures exists i :: ReadAt(log + [r], i, x, after[x])
    {
      if x == id {
        assert ReadAt(log + [r], |log|, x, after[x]);
      } else {
        assert Carried(checks, after, x, cutoff);
        var i :| ReadAt(log, i, x, checks[x]);
        assert ReadAt(log + [r], i, x, after[x]);
      }
    }
  }

  lemma LogGrows(checks: Dated, log: seq<VaultRead>, r: VaultRead)
    requires ChecksAreReads(checks, log)
    ensures ChecksAreReads(checks, log + [r])
  {
    forall x | x in checks
      ensures exists i :: ReadAt(log + [r], i, x, checks[x])
    {
      var i :| ReadAt(log, i, x, checks[x]);
      assert ReadAt(log + [r], i, x, checks[x]);
    }
  }

  lemma SightStays(log: seq<VaultRead>, r: VaultRead, seen: Sight, version: Option<Version>, clock: Time)
    requires SightOk(log, seen, version, clock)
    ensures SightOk(log + [r], seen, version, clock)
  {
    assert (log + [r])[..seen.begun] == log[..seen.begun];
  }

  // ---------------------------------------------------------------- steps

  /** A caller that is neither known to be refused nor served has not just seen a read of its version. */
  lemma LookSees(s: State, o: nat)
    requires Inv(s) && Enabled(s, LookUp(o))
    requires AfterLook(s, s.calls[o]).Deciding?
    ensures SightOk(s.log, AfterLook(s, s.calls[o]).seen, s.calls[o].version, s.clock)
  {
    var seen, version := AfterLook(s, s.calls[o]).seen, s.calls[o].version;
    assert CallOk(s, o);
    assert s.log[..seen.begun] == s.log;
    if version.Some? {
      forall i | 0 <= i < |s.log| && s.log[i].version == version && s.clock - s.log[i].began < NEGATIVE_KEY_TTL
        ensures Crowded(s.log, s.log[i].began)
      {
        assert Remembered(s.c.checks, s.log, version.value, s.log[i].began);
        assert !Live(s.c.checks, version.value, s.calls[o].now - NEGATIVE_KEY_TTL);
      }
    }
  }

  lemma FinishedIsValid(c: Cache, unknown: Option<Version>, now: Time, response: Option<Response>)
    requires ValidCache(c)
    ensures ValidCache(Finished(c, unknown, now, response))
  {
    if TransitKeyInfo(response).Some? {
      KeptMirrors(TransitKeyInfo(response).value);
      assert forall v: Version, t: Time :: |map[v := t]| == 1;
    }
  }

  lemma CacheStaysValid(s: State, e: Event)
    requires ValidCache(s.c) && Enabled(s, e)
    ensures ValidCache(Next(s, e).c)
  {
    if e.Open? {
      KeptMirrors(e.info);
    } else if e.Finish? {
      FinishedIsValid(s.c, s.calls[e.o].version, s.clock, e.response);
    }
  }

  lemma FinishKeepsChecks(c: Cache, unknown: Option<Version>, now: Time, response: Option<Response>)
    ensures Finished(c, unknown, now, response).checks == c.checks
    ensures !Finished(c, unknown, now, response).refreshing
  {
  }

  lemma OneBegins(s: State, e: Event)
    requires OneReads(s) && Enabled(s, e) && e.Begin?
    ensures OneReads(Next(s, e))
  {
  }

  lemma OneReadsOn(s: State, e: Event)
    requires OneReads(s) && Enabled(s, e)
    ensures OneReads(Next(s, e))
  {
    if e.Begin? {
      OneBegins(s, e);
    } else if e.Finish? {
      FinishKeepsChecks(s.c, s.calls[e.o].version, s.clock, e.response);
    }
  }

  /** Everything but a read that begins leaves checks and log alone. */
  predicate Asks(s: State, e: Event) {
    e.Begin? && e.o < |s.calls| && RoleAt(s, e.o).Ask?
  }

  predicate OfCall(e: Event) {
    e.LookUp? || e.Mark? || e.Begin? || e.Finish? || e.Resume? || e.Fetch?
  }

  lemma QuietBegin(s: State, e: Event)
    requires Enabled(s, e) && !Asks(s, e) && e.Begin?
    ensures Next(s, e).log == s.log && Next(s, e).c.checks == s.c.checks
  {
  }

  lemma QuietSection(s: State, e: Event)
    requires Enabled(s, e) && OfCall(e) && !e.Begin?
    ensures Next(s, e).log == s.log && Next(s, e).c.checks == s.c.checks
  {
    if e.Finish? {
      FinishKeepsChecks(s.c, s.calls[e.o].version, s.clock, e.response);
    }
  }

  lemma QuietStep(s: State, e: Event)
    requires Enabled(s, e) && !Asks(s, e)
    ensures Next(s, e).log == s.log && Next(s, e).c.checks == s.c.checks && Next(s, e).clock >= s.clock
  {
    if e.Begin? {
      QuietBegin(s, e);
    } else if OfCall(e) {
      QuietSection(s, e);
    }
  }

  lemma OwnCall(s: State, e: Event)
    requires Inv(s) && Enabled(s, e) && !Asks(s, e) && OfCall(e)
    ensures CallOk(Next(s, e), e.o)
  {
    QuietStep(s, e);
    assert CallOk(s, e.o);
    if e.LookUp? && AfterLook(s, s.calls[e.o]).Deciding? {
      LookSees(s, e.o);
    }
  }

  lemma OtherCall(s: State, e: Event, o: nat)
    requires Inv(s) && Enabled(s, e) && !Asks(s, e) && o < |Next(s, e).calls|
    requires OfCall(e) ==> e.o != o
    ensures CallOk(Next(s, e), o)
  {
    QuietStep(s, e);
    assert o < |s.calls| ==> CallOk(s, o) && Next(s, e).calls[o] == s.calls[o];
  }

  lemma QuietCalls(s: State, e: Event, o: nat)
    requires Inv(s) && Enabled(s, e) && !Asks(s, e) && o < |Next(s, e).calls|
    ensures CallOk(Next(s, e), o)
  {
    if OfCall(e) && e.o == o {
      OwnCall(s, e);
    } else {
      OtherCall(s, e, o);
    }
  }

  lemma QuietPreserves(s: State, e: Event)
    requires Inv(s) && Enabled(s, e) && !Asks(s, e)
    ensures Inv(Next(s, e))
  {
    var s' := Next(s, e);
    QuietStep(s, e);
    CacheStaysValid(s, e);
    OneReadsOn(s, e);
    forall o | 0 <= o < |s'.calls| ensures CallOk(s', o) {
      QuietCalls(s, e, o);
    }
    forall j | 0 <= j < |s'.log| ensures ReadOk(s', j) {
      assert ReadOk(s, j);
    }
  }

  lemma AskKeepsCalls(s: State, e: Event, o: nat)
    requires Inv(s) && Enabled(s, e) && Asks(s, e) && o < |s.calls|
    ensures CallOk(Next(s, e), o)
  {
    var r := Next(s, e).log[|s.log|];
    assert CallOk(s, o);
    if o != e.o && s.calls[o].phase.Deciding? {
      SightStays(s.log, r, s.calls[o].phase.seen, s.calls[o].version, s.clock);
    }
  }

  lemma AskKeepsReads(s: State, e: Event, j: nat)
    requires Inv(s) && Enabled(s, e) && Asks(s, e) && j <= |s.log|
    ensures ReadOk(Next(s, e), j)
  {
    assert CallOk(s, e.o);
    assert Next(s, e).log[..j] == s.log[..j];
    if j < |s.log| {
      assert ReadOk(s, j);
    } else {
      assert s.log[..j] == s.log;
    }
  }

  lemma RecentStaysRemembered(s: State, e: Event, i: nat)
    requires Inv(s) && Enabled(s, e) && Asks(s, e)
    requires i < |s.log| && s.log[i].version.Some? && s.clock - s.log[i].began < NEGATIVE_KEY_TTL
    ensures Remembered(e.checks, Next(s, e).log, s.log[i].version.value, s.log[i].began)
  {
    var r := Next(s, e).log[|s.log|];
    assert Next(s, e).log == s.log + [r];
    assert ReadOk(s, i);
    if s.calls[e.o].version.Some? {
      RememberedAfter(s.c.checks, e.checks, s.log, r, s.calls[e.o].version.value, s.log[i].version.value,
                      s.log[i].began);
    } else {
      SinceGrows(s.log, r, s.log[i].began);
    }
  }

  lemma AskedChecks(s: State, e: Event)
    requires Inv(s) && Enabled(s, e) && Asks(s, e)
    ensures ChecksAreReads(Next(s, e).c.checks, Next(s, e).log)
  {
    var r := Next(s, e).log[|s.log|];
    if s.calls[e.o].version.Some? {
      ChecksAfter(s.c.checks, e.checks, s.log, r, s.calls[e.o].version.value, s.clock - NEGATIVE_KEY_TTL);
    } else {
      LogGrows(s.c.checks, s.log, r);
    }
  }

  lemma AskIsRemembered(s: State, e: Event)
    requires Inv(s) && Enabled(s, e) && Asks(s, e)
    ensures RecentAreRemembered(Next(s, e))
  {
    var s' := Next(s, e);
    forall i | 0 <= i < |s'.log| && s'.log[i].version.Some? && s'.clock - s'.log[i].began < NEGATIVE_KEY_TTL
      ensures Remembered(s'.c.checks, s'.log, s'.log[i].version.value, s'.log[i].began)
    {
      if i < |s.log| {
        RecentStaysRemembered(s, e, i);
      }
    }
  }

  lemma AskPreserves(s: State, e: Event)
    requires Inv(s) && Enabled(s, e) && Asks(s, e)
    ensures Inv(Next(s, e))
  {
    var s' := Next(s, e);
    CacheStaysValid(s, e);
    OneReadsOn(s, e);
    AskedChecks(s, e);
    AskIsRemembered(s, e);
    forall o | 0 <= o < |s'.calls| ensures CallOk(s', o) {
      AskKeepsCalls(s, e, o);
    }
    forall j | 0 <= j < |s'.log| ensures ReadOk(s', j) {
      AskKeepsReads(s, e, j);
    }
  }

  lemma {:induction false} RunInvariant(es: seq<Event>)
    requires Run(es).Some?
    ensures Inv(Run(es).value)
  {
    if es != [] {
      var s, e := Run(es[..|es| - 1]).value, es[|es| - 1];
      RunInvariant(es[..|es| - 1]);
      if Asks(s, e) {
        AskPreserves(s, e);
      } else {
        QuietPreserves(s, e);
      }
    }
  }

  // ---------------------------------------------------------------- every interleaving

  lemma SomebodyReads(s: State)
    requires OneReads(s)
    ensures s.c.refreshing ==> exists o :: 0 <= o < |s.calls| && s.calls[o].phase.Reading?
  {
    if s.c.refreshing {
      assert s.calls[s.log[|s.log| - 1].caller].phase.Reading?;
    }
  }

  /** One caller at most reads from Vault, exactly while a refresh is under way. */
  lemma OneReadAtATime(es: seq<Event>, a: nat, b: nat)
    requires Run(es).Some?
    ensures var s := Run(es).value;
            a < |s.calls| && s.calls[a].phase.Reading? ==>
              s.c.refreshing && (b < |s.calls| && s.calls[b].phase.Reading? ==> a == b)
    ensures var s := Run(es).value;
            s.c.refreshing ==> exists o :: 0 <= o < |s.calls| && s.calls[o].phase.Reading?
  {
    RunInvariant(es);
    SomebodyReads(Run(es).value);
  }

  /** A version is read from Vault only by a caller that saw it in reach, just above the latest, and saw
      no read of it in the last thirty seconds, short of sixty-four versions read since. */
  lemma ReadsWereDue(es: seq<Event>, i: nat, j: nat)
    requires Run(es).Some?
    ensures var log := Run(es).value.log;
            j < |log| && log[j].version.Some? ==>
              && InReach(log[j].version.value, log[j].seen.latest)
              && log[j].seen.begun <= j && log[j].seen.clock <= log[j].began
              && (i < log[j].seen.begun && log[i].version == log[j].version
                  && log[j].seen.clock - log[i].began < NEGATIVE_KEY_TTL ==>
                    Crowded(log[..log[j].seen.begun], log[i].began))
  {
    RunInvariant(es);
    var s := Run(es).value;
    if j < |s.log| && s.log[j].version.Some? {
      DueRead(s, i, j);
    }
  }

  lemma DueRead(s: State, i: nat, j: nat)
    requires j < |s.log| && ReadOk(s, j) && s.log[j].version.Some?
    ensures var read := s.log[j];
            && InReach(read.version.value, read.seen.latest) && read.seen.begun <= j && read.seen.clock <= read.began
            && (i < read.seen.begun && s.log[i].version == read.version
                && read.seen.clock - s.log[i].began < NEGATIVE_KEY_TTL ==>
                  Crowded(s.log[..read.seen.begun], s.log[i].began))
  {
    assert s.log[..j][..s.log[j].seen.begun] == s.log[..s.log[j].seen.begun];
    assert i < j ==> s.log[..j][i] == s.log[i];
  }

  predicate IsTheAnswers(outcome: Outcome, c: Cache, version: Option<Version>) {
    match outcome
    case Signing(latest) => version.None? && c.answer.Some? && latest == c.answer.value.latestVersion
    case Got(found) =>
      match found
      case Key(key) =>
        && version.Some? && c.answer.Some? && version.value in c.answer.value.publicKeys
        && key == c.answer.value.publicKeys[version.value]
      case NotFound => version.Some? && version.value !in c.publicKeys
      case Failed => version.None? && c.answer.None?
  }

  lemma FetchedIsTheAnswers(c: Cache, version: Option<Version>)
    requires ValidCache(c)
    ensures IsTheAnswers(AfterFetch(c, version), c, version)
  {
  }

  /** A call that finds a read under way waits, and goes on only when that read, the last one begun by then, has
      ended; a call reads itself only when none is under way. */
  lemma WaitsForTheRead(s: State, e: Event)
    requires Enabled(s, e) && OfCall(e)
    ensures Next(s, e).calls[e.o].phase.Waiting? ==>
              e.Begin? && s.c.refreshing && Next(s, e).calls[e.o].phase.begun == |Next(s, e).log| == |s.log|
    ensures e.Resume? ==> !s.c.refreshing || s.calls[e.o].phase.begun < |s.log|
    ensures Next(s, e).calls[e.o].phase.Reading? ==>
              && e.Begin? && !s.c.refreshing && Next(s, e).c.refreshing && |Next(s, e).log| == |s.log| + 1
              && Next(s, e).log[|s.log|].caller == e.o && Next(s, e).log[|s.log|].version == s.calls[e.o].version
  {
  }

  /** A call fails exactly when the read it made, or the last one to end before its wait was over, failed; or,
      asked for the signing key, when there is none. */
  lemma FailsExactly(s: State, e: Event)
    requires Enabled(s, e) && OfCall(e)
    ensures Next(s, e).calls[e.o].phase == Over(Got(Failed)) <==>
            || (e.Finish? && TransitKeyInfo(e.response).None?)
            || (e.Resume? && s.c.failed)
            || (e.Fetch? && s.calls[e.o].version.None? && s.c.latest == 0)
    ensures e.Finish? ==> (Next(s, e).c.failed <==> TransitKeyInfo(e.response).None?)
    ensures !e.Finish? ==> Next(s, e).c.failed == s.c.failed
  {
  }

  /** A call that is over at its first look has the last answer's key, a version remembered as unknown, or the
      last answer's latest version while that is less than a minute old. */
  lemma LookedUpOutcome(es: seq<Event>, o: nat)
    requires Run(es).Some? && Enabled(Run(es).value, LookUp(o))
    requires Next(Run(es).value, LookUp(o)).calls[o].phase.Over?
    ensures var s := Run(es).value;
            var version, outcome := s.calls[o].version, Next(s, LookUp(o)).calls[o].phase.outcome;
            && Next(s, LookUp(o)).c == s.c
            && IsTheAnswers(outcome, s.c, version)
            && (outcome.Signing? ==> s.clock < s.c.refreshedAt + 60 * SECOND)
            && (outcome == Got(NotFound) ==>
                  version.value in s.c.negative && s.calls[o].now < s.c.negative[version.value])
  {
    RunInvariant(es);
    LookIsTheAnswers(Run(es).value, Run(es).value.calls[o]);
  }

  lemma LookIsTheAnswers(s: State, call: Call)
    requires ValidCache(s.c) && AfterLook(s, call).Over?
    ensures var outcome := AfterLook(s, call).outcome;
            && IsTheAnswers(outcome, s.c, call.version)
            && (outcome.Signing? ==> s.clock < s.c.refreshedAt + 60 * SECOND)
            && (outcome == Got(NotFound) ==>
                  call.version.value in s.c.negative && call.now < s.c.negative[call.version.value])
  {
  }

  /** Whatever a call waited for, the key or version it ends with is the last answer's. */
  lemma OutcomesAreTheAnswers(es: seq<Event>, o: nat)
    requires Run(es).Some? && Enabled(Run(es).value, Fetch(o))
    ensures var s := Run(es).value;
            && Next(s, Fetch(o)).calls[o].phase.Over?
            && IsTheAnswers(Next(s, Fetch(o)).calls[o].phase.outcome, s.c, s.calls[o].version)
  {
    RunInvariant(es);
    FetchedIsTheAnswers(Run(es).value.c, Run(es).value.calls[o].version);
  }

  // ---------------------------------------------------------------- calls end

  /** How many sections a call has before it at most. */
  function Left(phase: Phase): nat {
    match phase
    case Fresh => 4
    case Deciding(_) => 3
    case Reading => 2
    case Waiting(_) => 2
    case Marking => 1
    case Fetching => 1
    case Over(_) => 0
  }

  /** Every section brings its call nearer to its end and leaves the other calls where they are. */
  lemma SectionsAdvance(s: State, e: Event)
    requires Enabled(s, e) && OfCall(e)
    ensures var s' := Next(s, e);
            && |s'.calls| == |s.calls| && Left(s'.calls[e.o].phase) < Left(s.calls[e.o].phase)
            && forall i :: 0 <= i < |s.calls| && i != e.o ==> s'.calls[i] == s.calls[i]
  {
  }

  lemma {:induction false} OldestOf(entries: Dated, ids: set<Version>) returns (oldest: Version)
    requires ids != {} && ids <= entries.Keys
    ensures oldest in ids && forall x :: x in ids ==> entries[oldest] <= entries[x]
    decreases |ids|
  {
    oldest :| oldest in ids;
    var rest := ids - {oldest};
    assert forall x :: x in ids ==> x == oldest || x in rest;
    if rest != {} {
      var other := OldestOf(entries, rest);
      if entries[other] < entries[oldest] {
        oldest := other;
      }
    }
  }

  lemma LiveMap(before: Dated, kept: set<Version>, id: Version, stamp: Time) returns (after: Dated)
    requires kept <= before.Keys
    ensures after.Keys == kept + {id} && after[id] == stamp
    ensures forall k :: k in kept && k != id ==> after[k] == before[k]
    ensures |after| <= |kept| + 1
  {
    after := (map k | k in kept :: before[k])[id := stamp];
    assert after.Keys == kept + {id};
    assert |after| == |after.Keys|;
  }

  /** Remembering always finds a map to leave. */
  lemma CanRemember(before: Dated, id: Version, stamp: Time, cutoff: Time) returns (after: Dated)
    requires |before| <= MAX_NEGATIVE_KEY_IDS
    ensures Remembers(before, after, id, stamp, cutoff)
  {
    var live := LiveIds(before, cutoff);
    SubsetIsSmaller(live, before.Keys);
    assert |before| == |before.Keys|;
    if |live| < MAX_NEGATIVE_KEY_IDS {
      after := LiveMap(before, live, id, stamp);
    } else {
      var oldest := OldestOf(before, live);
      after := LiveMap(before, live - {oldest}, id, stamp);
    }
    assert forall k :: Live(before, k, cutoff) <==> k in live;
  }

  lemma CanBegin(s: State, o: nat) returns (e: Event)
    requires Inv(s) && o < |s.calls| && s.calls[o].phase.Deciding?
    ensures OfCall(e) && Enabled(s, e)
  {
    var checks := s.c.checks;
    if RoleAt(s, o).Ask? && s.calls[o].version.Some? {
      checks := CanRemember(s.c.checks, s.calls[o].version.value, s.clock, s.clock - NEGATIVE_KEY_TTL);
    }
    e := Begin(o, checks);
  }

  lemma CanResume(s: State, o: nat) returns (e: Event)
    requires Inv(s) && o < |s.calls| && s.calls[o].phase.Waiting?
    ensures OfCall(e) && Enabled(s, e)
  {
    var version := s.calls[o].version;
    assert CallOk(s, o);
    if s.c.refreshing && s.calls[o].phase.begun == |s.log| {
      assert s.calls[s.log[|s.log| - 1].caller].phase.Reading?;
      e := Finish(s.log[|s.log| - 1].caller, None);
    } else if !s.c.failed && version.Some? && version.value !in s.c.publicKeys {
      var negative := CanRemember(s.c.negative, version.value, s.clock + NEGATIVE_KEY_TTL, s.clock);
      e := Resume(o, negative);
    } else {
      e := Resume(o, s.c.negative);
    }
  }

  /** As long as a call is not over, some call can take its next section, or Vault can answer it. */
  lemma NobodyIsStuck(es: seq<Event>, o: nat) returns (e: Event)
    requires Run(es).Some? && o < |Run(es).value.calls| && !Run(es).value.calls[o].phase.Over?
    ensures OfCall(e) && Enabled(Run(es).value, e)
  {
    RunInvariant(es);
    var s := Run(es).value;
    assert CallOk(s, o);
    match s.calls[o].phase {
      case Fresh => e := LookUp(o);
      case Marking =>
        var now := s.calls[o].now;
        var negative := CanRemember(s.c.negative, s.calls[o].version.value, now + NEGATIVE_KEY_TTL, now);
        e := Mark(o, negative);
      case Deciding(_) => e := CanBegin(s, o);
      case Reading => e := Finish(o, None);
      case Waiting(_) => e := CanResume(s, o);
      case Fetching => e := Fetch(o);
    }
  }

  // ---------------------------------------------------------------- two reads of one version

  /** An answer that says what the service knows already. */
  function SameAnswer(info: KeyInfo): Option<Response> {
    Some(Response(info.latestVersion, map v | v in info.publicKeys :: Some(info.publicKeys[v])))
  }

  /** Two lookups of the version after the latest look at the cache, then refresh one after the other. */
  function TwoLookups(info: KeyInfo): seq<Event> {
    var next := info.latestVersion + 1;
    [Open(info), Enter(Some(next)), Enter(Some(next)), LookUp(0), LookUp(1), Begin(0, map[next := 0]),
     Finish(0, SameAnswer(info)), Begin(1, map[next := 0])]
  }

  function Opened(info: KeyInfo): Cache {
    Cache(true, Kept(info), info.latestVersion, 0, map[], map[], false, false, Some(info))
  }

  function Asked(info: KeyInfo): Cache {
    Opened(info).(refreshing := true, checks := map[info.latestVersion + 1 := 0])
  }

  function Answered(info: KeyInfo): Cache {
    Cache(true, Kept(info), info.latestVersion, 0, map[info.latestVersion + 1 := NEGATIVE_KEY_TTL],
          map[info.latestVersion + 1 := 0], false, false, Some(info))
  }

  function Lookup(info: KeyInfo, phase: Phase): Call {
    Call(Some(info.latestVersion + 1), 0, phase)
  }

  function ReadBy(info: KeyInfo, caller: nat): VaultRead {
    VaultRead(caller, Some(info.latestVersion + 1), Sight(info.latestVersion, 0, 0), 0)
  }

  function StateOfTwoLookups(info: KeyInfo, n: nat): State {
    var entered, deciding := Lookup(info, Fresh), Lookup(info, Deciding(Sight(info.latestVersion, 0, 0)));
    match n
    case 0 => INITIAL
    case 1 => State(Opened(info), 0, [], [])
    case 2 => State(Opened(info), 0, [entered], [])
    case 3 => State(Opened(info), 0, [entered, entered], [])
    case 4 => State(Opened(info), 0, [deciding, entered], [])
    case 5 => State(Opened(info), 0, [deciding, deciding], [])
    case 6 => State(Asked(info), 0, [Lookup(info, Reading), deciding], [ReadBy(info, 0)])
    case 7 => State(Answered(info), 0, [Lookup(info, Fetching), deciding], [ReadBy(info, 0)])
    case _ => State(Answered(info).(refreshing := true), 0, [Lookup(info, Fetching), Lookup(info, Reading)],
                    [ReadBy(info, 0), ReadBy(info, 1)])
  }

  ghost predicate StepsAt(info: KeyInfo, n: nat)
    requires n < 8
  {
    && Enabled(StateOfTwoLookups(info, n), TwoLookups(info)[n])
    && Next(StateOfTwoLookups(info, n), TwoLookups(info)[n]) == StateOfTwoLookups(info, n + 1)
  }

  lemma NextIsUnknown(info: KeyInfo)
    requires Coherent(info)
    ensures info.latestVersion + 1 !in Kept(info)
    ensures TransitKeyInfo(SameAnswer(info)) == Some(info)
  {
    var keys := SameAnswer(info).value.keys;
    assert info.latestVersion in keys;
    assert (map v | v in keys :: keys[v].value) == info.publicKeys;
  }

  lemma TheyEnter(info: KeyInfo, n: nat)
    requires Coherent(info) && n < 3
    ensures StepsAt(info, n)
  {
  }

  lemma TheyLook(info: KeyInfo, n: nat)
    requires Coherent(info) && 3 <= n < 5
    ensures StepsAt(info, n)
  {
    NextIsUnknown(info);
  }

  lemma CheckedAgain(id: Version, before: Dated)
    requires before == map[] || before == map[id := 0]
    ensures Remembers(before, map[id := 0], id, 0, -NEGATIVE_KEY_TTL)
  {
    assert |map[id := 0]| == 1;
  }

  lemma TheFirstReads(info: KeyInfo)
    requires Coherent(info)
    ensures StepsAt(info, 5)
  {
    CheckedAgain(info.latestVersion + 1, map[]);
  }

  lemma VaultAnswers(info: KeyInfo)
    requires Coherent(info)
    ensures StepsAt(info, 6)
  {
    NextIsUnknown(info);
  }

  lemma TheSecondMayRead(info: KeyInfo)
    requires Coherent(info)
    ensures Enabled(StateOfTwoLookups(info, 7), TwoLookups(info)[7])
  {
    CheckedAgain(info.latestVersion + 1, map[info.latestVersion + 1 := 0]);
  }

  lemma TheSecondReads(info: KeyInfo)
    requires Coherent(info)
    ensures StepsAt(info, 7)
  {
    TheSecondMayRead(info);
    assert RoleAt(StateOfTwoLookups(info, 7), 1) == Ask;
  }

  lemma TwoLookupsStep(info: KeyInfo, n: nat)
    requires Coherent(info) && n < 8
    ensures StepsAt(info, n)
  {
    if n < 3 {
      TheyEnter(info, n);
    } else if n < 5 {
      TheyLook(info, n);
    } else if n == 5 {
      TheFirstReads(info);
    } else if n == 6 {
      VaultAnswers(info);
    } else {
      TheSecondReads(info);
    }
  }

  lemma RunGoesOn(es: seq<Event>, n: nat, s: State, s': State)
    requires n < |es| && Run(es[..n]) == Some(s) && Enabled(s, es[n]) && Next(s, es[n]) == s'
    ensures Run(es[..n + 1]) == Some(s')
  {
    assert es[..n + 1][..n] == es[..n];
  }

  lemma {:induction false} TwoLookupsRun(info: KeyInfo, n: nat)
    requires Coherent(info) && n <= 8
    ensures Run(TwoLookups(info)[..n]) == Some(StateOfTwoLookups(info, n))
  {
    if n > 0 {
      TwoLookupsRun(info, n - 1);
      TwoLookupsStep(info, n - 1);
      RunGoesOn(TwoLookups(info), n - 1, StateOfTwoLookups(info, n - 1), StateOfTwoLookups(info, n));
    }
  }

  lemma TwoLookupsEnd(info: KeyInfo)
    requires Coherent(info)
    ensures Run(TwoLookups(info)) == Some(StateOfTwoLookups(info, 8))
  {
    TwoLookupsRun(info, 8);
    assert TwoLookups(info)[..8] == TwoLookups(info);
  }

  lemma BothRead(info: KeyInfo)
    ensures var s := StateOfTwoLookups(info, 8);
            && |s.log| == 2 && s.log[0].version == s.log[1].version == Some(info.latestVersion + 1)
            && s.log[0].began == s.log[1].began
            && Live(s.c.negative, info.latestVersion + 1, s.log[1].began)
  {
  }

  /** The thirty seconds are checked at the look and recorded at the read: lookups that overlap read the
      same version from Vault one after the other, the second when it is known to be unknown. */
  lemma OverlappingLookupsReadTwice(info: KeyInfo)
    requires Coherent(info)
    ensures Run(TwoLookups(info)).Some?
    ensures var s := Run(TwoLookups(info)).value;
            && |s.log| == 2 && s.log[0].version == s.log[1].version == Some(info.latestVersion + 1)
            && s.log[0].began == s.log[1].began
            && Live(s.c.negative, info.latestVersion + 1, s.log[1].began)
  {
    TwoLookupsEnd(info);
    BothRead(info);
  }
}
