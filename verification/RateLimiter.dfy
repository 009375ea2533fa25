/** The fixed-window limiter as a table, and what it admits over any sequence of calls. */
module RateLimiter {
  import opened Prelude

  type Key = nat
  type Time = int

  datatype Counter = Counter(start: Time, count: int)
  type Table = map<Key, Counter>

  datatype Config = Config(limit: int, window: int, maxEntries: int)

  predicate Expired(cfg: Config, entry: Counter, now: Time) {
    now - entry.start >= cfg.window
  }

  function RemoveExpired(cfg: Config, t: Table, now: Time): Table {
    map k | k in t && !Expired(cfg, t[k], now) :: t[k]
  }

  datatype Answer = Answer(entries: Table, allowed: bool)

  function Allow(cfg: Config, t: Table, key: Key, now: Time): Answer {
    if key in t && !Expired(cfg, t[key], now) then
      if t[key].count >= cfg.limit then Answer(t, false)
      else Answer(t[key := t[key].(count := t[key].count + 1)], true)
    else
      var t1 := t - {key};
      var t2 := if |t1| >= cfg.maxEntries then RemoveExpired(cfg, t1, now) else t1;
      if |t2| >= cfg.maxEntries then Answer(t2, false)
      else Answer(t2[key := Counter(now, 1)], true)
  }

  // ---------------------------------------------------------------- sequences of calls

  datatype Call = Call(key: Key, now: Time)

  predicate InOrder(calls: seq<Call>, from: Time) {
    calls == [] || (from <= calls[0].now && InOrder(calls[1..], calls[0].now))
  }

  function TableAfter(cfg: Config, t: Table, calls: seq<Call>): Table
    decreases |calls|
  {
    if calls == [] then t
    else TableAfter(cfg, Allow(cfg, t, calls[0].key, calls[0].now).entries, calls[1..])
  }

  /** The time of the call if it is an allowed one of `key`. */
  function Grant(cfg: Config, t: Table, call: Call, key: Key): seq<Time> {
    if call.key == key && Allow(cfg, t, call.key, call.now).allowed then [call.now] else []
  }

  /** The times at which calls of `key` are allowed. */
  function Granted(cfg: Config, t: Table, calls: seq<Call>, key: Key): seq<Time>
    decreases |calls|
  {
    if calls == [] then []
    else
      Grant(cfg, t, calls[0], key) + Granted(cfg, Allow(cfg, t, calls[0].key, calls[0].now).entries, calls[1..], key)
  }

  function TimesOf(calls: seq<Call>, key: Key): seq<Time> {
    if calls == [] then []
    else (if calls[0].key == key then [calls[0].now] else []) + TimesOf(calls[1..], key)
  }

  function CountIn(ts: seq<Time>, lo: Time, hi: Time): nat {
    if ts == [] then 0
    else (if lo <= ts[0] < hi then 1 else 0) + CountIn(ts[1..], lo, hi)
  }

  /** What a window admits: the limit, and one call even when the limit is smaller than one. */
  function Budget(cfg: Config): int {
    Max(cfg.limit, 1)
  }

  // ---------------------------------------------------------------- the table is bounded

  lemma RemovalShrinks(cfg: Config, t: Table, now: Time)
    ensures |RemoveExpired(cfg, t, now)| <= |t|
  {
    var r := RemoveExpired(cfg, t, now);
    assert r.Keys <= t.Keys;
    SubsetIsSmaller(r.Keys, t.Keys);
  }

  lemma InsertCounts(t: Table, key: Key, entry: Counter)
    ensures |t[key := entry]| == if key in t then |t| else |t| + 1
  {
    assert t[key := entry].Keys == t.Keys + {key};
    if key in t {
      assert t.Keys + {key} == t.Keys;
    }
  }

  lemma AllowIsBounded(cfg: Config, t: Table, key: Key, now: Time)
    requires |t| <= Max(cfg.maxEntries, 0)
    ensures |Allow(cfg, t, key, now).entries| <= Max(cfg.maxEntries, 0)
  {
    if key in t && !Expired(cfg, t[key], now) {
      InsertCounts(t, key, t[key].(count := t[key].count + 1));
    } else {
      var t1 := t - {key};
      assert t1.Keys == t.Keys - {key};
      SubsetIsSmaller(t1.Keys, t.Keys);
      RemovalShrinks(cfg, t1, now);
      var t2 := if |t1| >= cfg.maxEntries then RemoveExpired(cfg, t1, now) else t1;
      InsertCounts(t2, key, Counter(now, 1));
    }
  }

  /** A call touches the entry of its own key only, unless the others have filled the table: then those that
      have expired go too. */
  lemma OthersStayUnlessFull(cfg: Config, t: Table, key: Key, now: Time, k: Key)
    requires k in t && k != key
    ensures var t' := Allow(cfg, t, key, now).entries;
            && (|t - {key}| < cfg.maxEntries || now < t[k].start + cfg.window ==> k in t' && t'[k] == t[k])
            && (k in t' ==> t'[k] == t[k])
  {
  }

  /** Whatever is called, the table never outgrows its maximum. */
  lemma {:induction false} TableIsBounded(cfg: Config, t: Table, calls: seq<Call>)
    requires |t| <= Max(cfg.maxEntries, 0)
    ensures |TableAfter(cfg, t, calls)| <= Max(cfg.maxEntries, 0)
    decreases |calls|
  {
    if calls != [] {
      AllowIsBounded(cfg, t, calls[0].key, calls[0].now);
      TableIsBounded(cfg, Allow(cfg, t, calls[0].key, calls[0].now).entries, calls[1..]);
    }
  }

  // ---------------------------------------------------------------- a live window

  predicate AllBefore(calls: seq<Call>, end: Time) {
    forall i :: 0 <= i < |calls| ==> calls[i].now < end
  }

  /** One call while the window of `key` is live. */
  lemma LiveCall(cfg: Config, t: Table, call: Call, key: Key)
    requires key in t && call.now < t[key].start + cfg.window
    ensures var t', grant := Allow(cfg, t, call.key, call.now).entries, Grant(cfg, t, call, key);
            && key in t' && t'[key] == t[key].(count := t[key].count + |grant|)
            && grant == if call.key == key && t[key].count < cfg.limit then [call.now] else []
  {
  }

  lemma TakeMore(grant: seq<Time>, call: Call, calls: seq<Call>, key: Key, left: int)
    requires grant == if call.key == key && left > 0 then [call.now] else []
    ensures grant + Take(TimesOf(calls, key), left - |grant|) == Take(TimesOf([call] + calls, key), left)
  {
    assert ([call] + calls)[1..] == calls;
  }

  /** While a key's window is live its calls are allowed until the limit is used up and refused
      from then on; calls of other keys, whatever they evict, have no say in it. */
  lemma {:induction false} LiveWindowIsExact(cfg: Config, t: Table, calls: seq<Call>, key: Key)
    requires key in t
    requires AllBefore(calls, t[key].start + cfg.window)
    ensures Granted(cfg, t, calls, key) == Take(TimesOf(calls, key), cfg.limit - t[key].count)
    decreases |calls|
  {
    if calls != [] {
      LiveCall(cfg, t, calls[0], key);
      LiveWindowIsExact(cfg, Allow(cfg, t, calls[0].key, calls[0].now).entries, calls[1..], key);
      TakeMore(Grant(cfg, t, calls[0], key), calls[0], calls[1..], key, cfg.limit - t[key].count);
    }
  }

  /** So two sequences with the same calls of the key get the same answers for it. */
  lemma OthersHaveNoSay(cfg: Config, t: Table, a: seq<Call>, b: seq<Call>, key: Key)
    requires key in t
    requires AllBefore(a, t[key].start + cfg.window) && AllBefore(b, t[key].start + cfg.window)
    requires TimesOf(a, key) == TimesOf(b, key)
    ensures Granted(cfg, t, a, key) == Granted(cfg, t, b, key)
  {
    LiveWindowIsExact(cfg, t, a, key);
    LiveWindowIsExact(cfg, t, b, key);
  }

  /** A window, its opening call included, admits exactly as many calls as it gets, up to the budget. */
  lemma WindowAdmitsBudget(cfg: Config, t: Table, calls: seq<Call>, key: Key)
    requires calls != [] && calls[0].key == key
    requires key !in t || Expired(cfg, t[key], calls[0].now)
    requires Allow(cfg, t, key, calls[0].now).allowed
    requires AllBefore(calls, calls[0].now + cfg.window)
    ensures |Granted(cfg, t, calls, key)| == Min(|TimesOf(calls, key)|, Budget(cfg))
  {
    var answer := Allow(cfg, t, key, calls[0].now);
    assert answer.entries[key] == Counter(calls[0].now, 1);
    assert AllBefore(calls[1..], calls[0].now + cfg.window);
    LiveWindowIsExact(cfg, answer.entries, calls[1..], key);
  }

  /** Two calls within a window of a limit of zero or less: the first is let through. */
  lemma LimitZeroAdmitsOne(cfg: Config, key: Key, now: Time, later: Time)
    requires cfg.limit <= 0 && cfg.maxEntries > 0 && now <= later < now + cfg.window
    ensures Granted(cfg, map[], [Call(key, now), Call(key, later)], key) == [now]
  {
    var t := Allow(cfg, map[], key, now).entries;
    assert t == map[key := Counter(now, 1)];
    assert [Call(key, now), Call(key, later)][1..] == [Call(key, later)] && [Call(key, later)][1..] == [];
    assert Granted(cfg, t, [Call(key, later)], key) == [];
  }

  /** The other keys' entries that are still live. */
  function LiveOthers(cfg: Config, t: Table, key: Key, now: Time): set<Key> {
    set k | k in t && k != key && !Expired(cfg, t[k], now)
  }

  /** A key without a live window gets one exactly when fewer than the maximum of other keys have
      one: expired entries never stand in the way. */
  lemma NewWindowOpensExactly(cfg: Config, t: Table, key: Key, now: Time)
    requires key !in t || Expired(cfg, t[key], now)
    ensures Allow(cfg, t, key, now).allowed <==> |LiveOthers(cfg, t, key, now)| < cfg.maxEntries
  {
    LiveOthersAreKept(cfg, t, key, now);
  }

  lemma LiveOthersAreKept(cfg: Config, t: Table, key: Key, now: Time)
    ensures |RemoveExpired(cfg, t - {key}, now)| == |LiveOthers(cfg, t, key, now)| <= |t - {key}|
  {
    var t1 := t - {key};
    var live := RemoveExpired(cfg, t1, now);
    assert live.Keys == LiveOthers(cfg, t, key, now);
    SubsetIsSmaller(live.Keys, t1.Keys);
    assert |live| == |live.Keys| && |t1| == |t1.Keys|;
  }

  lemma OpenedEntry(cfg: Config, t: Table, key: Key, now: Time)
    requires key !in t || Expired(cfg, t[key], now)
    requires Allow(cfg, t, key, now).allowed
    ensures key in Allow(cfg, t, key, now).entries && Allow(cfg, t, key, now).entries[key] == Counter(now, 1)
  {
  }

  // ---------------------------------------------------------------- any interval of a window's length

  predicate AllTimesBefore(ts: seq<Time>, end: Time) {
    ts == [] || (ts[0] < end && AllTimesBefore(ts[1..], end))
  }

  lemma {:induction false} AppendBefore(ts: seq<Time>, x: Time, end: Time)
    requires AllTimesBefore(ts, end) && x < end
    ensures AllTimesBefore(ts + [x], end)
  {
    if ts == [] {
      assert ts + [x] == [x];
    } else {
      AppendBefore(ts[1..], x, end);
      assert (ts + [x])[1..] == ts[1..] + [x];
    }
  }

  lemma {:induction false} BeforeLater(ts: seq<Time>, end: Time, later: Time)
    requires AllTimesBefore(ts, end) && end <= later
    ensures AllTimesBefore(ts, later)
  {
    if ts != [] {
      BeforeLater(ts[1..], end, later);
    }
  }

  lemma {:induction false} CountAppend(ts: seq<Time>, x: Time, lo: Time, hi: Time)
    ensures CountIn(ts + [x], lo, hi) == CountIn(ts, lo, hi) + (if lo <= x < hi then 1 else 0)
  {
    if ts == [] {
      assert ts + [x] == [x];
    } else {
      CountAppend(ts[1..], x, lo, hi);
      assert (ts + [x])[1..] == ts[1..] + [x];
    }
  }

  lemma {:induction false} CountSplits(ts: seq<Time>, lo: Time, mid: Time, hi: Time)
    requires lo <= mid <= hi
    ensures CountIn(ts, lo, hi) == CountIn(ts, lo, mid) + CountIn(ts, mid, hi)
  {
    if ts != [] {
      CountSplits(ts[1..], lo, mid, hi);
    }
  }

  lemma {:induction false} CountNarrows(ts: seq<Time>, lo: Time, hi: Time, lo': Time, hi': Time)
    requires lo' <= lo && hi <= hi'
    ensures CountIn(ts, lo, hi) <= CountIn(ts, lo', hi')
  {
    if ts != [] {
      CountNarrows(ts[1..], lo, hi, lo', hi');
    }
  }

  lemma {:induction false} CountAbove(ts: seq<Time>, lo: Time, hi: Time)
    requires AllTimesBefore(ts, lo)
    ensures CountIn(ts, lo, hi) == 0
  {
    if ts != [] {
      CountAbove(ts[1..], lo, hi);
    }
  }

  ghost predicate WithinTwice(cfg: Config, ts: seq<Time>, a: Time) {
    CountIn(ts, a, a + cfg.window) <= 2 * Budget(cfg) - 1
  }

  /** What is known of a key with the times `ts` granted so far, of which the last window opened at
      `s`: earlier calls are before it, it holds at most the budget, and the stretch of one window
      before it holds less than the budget. */
  ghost predicate Tracked(cfg: Config, t: Table, key: Key, ts: seq<Time>, s: Time, clock: Time) {
    && s <= clock
    && AllTimesBefore(ts, s + cfg.window)
    && (if key in t then t[key] == Counter(s, CountIn(ts, s, s + cfg.window)) else s + cfg.window <= clock)
    && 1 <= CountIn(ts, s, s + 1)
    && CountIn(ts, s, s + cfg.window) <= Budget(cfg)
    && CountIn(ts, s - cfg.window + 1, s) <= Budget(cfg) - 1
    && (forall a :: WithinTwice(cfg, ts, a))
  }

  ghost predicate Known(cfg: Config, t: Table, key: Key, ts: seq<Time>, s: Option<Time>, clock: Time) {
    if s.None? then ts == [] && key !in t else Tracked(cfg, t, key, ts, s.value, clock)
  }

  lemma GrantInWindow(cfg: Config, t: Table, key: Key, ts: seq<Time>, s: Time, clock: Time, now: Time)
    requires cfg.window > 0
    requires Tracked(cfg, t, key, ts, s, clock) && clock <= now < s + cfg.window
    requires key in t && t[key].count < cfg.limit
    ensures Tracked(cfg, Allow(cfg, t, key, now).entries, key, ts + [now], s, now)
  {
    AppendBefore(ts, now, s + cfg.window);
    CountAppend(ts, now, s, s + cfg.window);
    CountAppend(ts, now, s, s + 1);
    CountAppend(ts, now, s - cfg.window + 1, s);
    forall a
      ensures WithinTwice(cfg, ts + [now], a)
    {
      assert WithinTwice(cfg, ts, a);
      CountAppend(ts, now, a, a + cfg.window);
      if a <= now < a + cfg.window {
        if a <= s {
          CountSplits(ts, a, s, a + cfg.window);
          CountNarrows(ts, a, s, s - cfg.window + 1, s);
          CountNarrows(ts, s, a + cfg.window, s, s + cfg.window);
        } else {
          CountAboveWindow(cfg, ts, s, a);
        }
      }
    }
  }

  /** Nothing was granted after the window, so an interval starting in it holds only its calls. */
  lemma CountAboveWindow(cfg: Config, ts: seq<Time>, s: Time, a: Time)
    requires s <= a < s + cfg.window
    requires AllTimesBefore(ts, s + cfg.window)
    ensures CountIn(ts, a, a + cfg.window) <= CountIn(ts, s, s + cfg.window)
  {
    CountSplits(ts, a, s + cfg.window, a + cfg.window);
    CountAbove(ts, s + cfg.window, a + cfg.window);
    CountNarrows(ts, a, s + cfg.window, s, s + cfg.window);
  }

  lemma NewWindowCounts(cfg: Config, ts: seq<Time>, s: Time, now: Time)
    requires cfg.window > 0
    requires AllTimesBefore(ts, s + cfg.window) && s + cfg.window <= now
    requires 1 <= CountIn(ts, s, s + 1) && CountIn(ts, s, s + cfg.window) <= Budget(cfg)
    ensures AllTimesBefore(ts + [now], now + cfg.window)
    ensures CountIn(ts + [now], now, now + cfg.window) == 1
    ensures CountIn(ts + [now], now, now + 1) == 1
    ensures CountIn(ts + [now], now - cfg.window + 1, now) <= Budget(cfg) - 1
  {
    BeforeLater(ts, s + cfg.window, now);
    BeforeLater(ts, now, now + cfg.window);
    AppendBefore(ts, now, now + cfg.window);
    CountAppend(ts, now, now, now + cfg.window);
    CountAppend(ts, now, now, now + 1);
    CountAbove(ts, now, now + cfg.window);
    CountAbove(ts, now, now + 1);
    CountAppend(ts, now, now - cfg.window + 1, now);
    CountSplits(ts, s, s + 1, s + cfg.window);
    AfterOpening(cfg, ts, s, now - cfg.window + 1, now);
  }

  lemma NewWindowWithinTwice(cfg: Config, ts: seq<Time>, s: Time, now: Time, a: Time)
    requires cfg.window > 0
    requires AllTimesBefore(ts, s + cfg.window) && s + cfg.window <= now
    requires 1 <= CountIn(ts, s, s + 1) && CountIn(ts, s, s + cfg.window) <= Budget(cfg)
    requires WithinTwice(cfg, ts, a)
    ensures WithinTwice(cfg, ts + [now], a)
  {
    CountAppend(ts, now, a, a + cfg.window);
    if a <= now < a + cfg.window {
      CountSplits(ts, s, s + 1, s + cfg.window);
      AfterOpening(cfg, ts, s, a, a + cfg.window);
    }
  }

  lemma GrantNewWindow(cfg: Config, t: Table, key: Key, ts: seq<Time>, s: Time, clock: Time, now: Time)
    requires cfg.window > 0
    requires Tracked(cfg, t, key, ts, s, clock) && clock <= now && s + cfg.window <= now
    requires key !in t || Expired(cfg, t[key], now)
    requires Allow(cfg, t, key, now).allowed
    ensures Tracked(cfg, Allow(cfg, t, key, now).entries, key, ts + [now], now, now)
  {
    NewWindowCounts(cfg, ts, s, now);
    OpenedEntry(cfg, t, key, now);
    forall a
      ensures WithinTwice(cfg, ts + [now], a)
    {
      assert WithinTwice(cfg, ts, a);
      NewWindowWithinTwice(cfg, ts, s, now, a);
    }
  }

  lemma AfterOpening(cfg: Config, ts: seq<Time>, s: Time, a: Time, b: Time)
    requires AllTimesBefore(ts, s + cfg.window)
    requires s + 1 <= a
    requires cfg.window > 0
    ensures CountIn(ts, a, b) <= CountIn(ts, s + 1, s + cfg.window)
  {
    if s + cfg.window <= a {
      BeforeLater(ts, s + cfg.window, a);
      CountAbove(ts, a, b);
    } else if b <= s + cfg.window {
      CountNarrows(ts, a, b, s + 1, s + cfg.window);
    } else {
      CountSplits(ts, a, s + cfg.window, b);
      CountAbove(ts, s + cfg.window, b);
      CountNarrows(ts, a, s + cfg.window, s + 1, s + cfg.window);
    }
  }

  lemma FirstGrant(cfg: Config, t: Table, key: Key, now: Time)
    requires cfg.window > 0
    requires key !in t
    requires Allow(cfg, t, key, now).allowed
    ensures Tracked(cfg, Allow(cfg, t, key, now).entries, key, [now], now, now)
  {
    OpenedEntry(cfg, t, key, now);
    assert AllTimesBefore([now][1..], now + cfg.window);
    forall a
      ensures WithinTwice(cfg, [now], a)
    {
      assert CountIn([now][1..], a, a + cfg.window) == 0;
    }
  }

  lemma NoGrantEntry(cfg: Config, t: Table, key: Key, call: Call)
    requires call.key != key || !Allow(cfg, t, key, call.now).allowed
    ensures var t' := Allow(cfg, t, call.key, call.now).entries;
            && (key in t' ==> key in t && t'[key] == t[key])
            && (key in t && key !in t' ==> Expired(cfg, t[key], call.now))
  {
  }

  /** A call of another key, or a refused one, takes nothing away but an expired entry. */
  lemma NoGrant(cfg: Config, t: Table, key: Key, ts: seq<Time>, s: Time, clock: Time, call: Call)
    requires Tracked(cfg, t, key, ts, s, clock) && clock <= call.now
    requires call.key != key || !Allow(cfg, t, key, call.now).allowed
    ensures Tracked(cfg, Allow(cfg, t, call.key, call.now).entries, key, ts, s, call.now)
  {
    NoGrantEntry(cfg, t, key, call);
  }

  lemma StepIsKnown(cfg: Config, t: Table, key: Key, ts: seq<Time>, s: Option<Time>, clock: Time, call: Call)
    returns (s': Option<Time>)
    requires cfg.window > 0
    requires Known(cfg, t, key, ts, s, clock) && clock <= call.now
    ensures Known(cfg, Allow(cfg, t, call.key, call.now).entries, key, ts + Grant(cfg, t, call, key), s', call.now)
  {
    s' := s;
    if call.key == key && Allow(cfg, t, call.key, call.now).allowed {
      if s.None? {
        FirstGrant(cfg, t, key, call.now);
        assert ts + [call.now] == [call.now];
        s' := Some(call.now);
      } else if key in t && !Expired(cfg, t[key], call.now) {
        GrantInWindow(cfg, t, key, ts, s.value, clock, call.now);
      } else {
        GrantNewWindow(cfg, t, key, ts, s.value, clock, call.now);
        s' := Some(call.now);
      }
    } else {
      assert ts + [] == ts;
      if s.Some? {
        NoGrant(cfg, t, key, ts, s.value, clock, call);
      }
    }
  }

  lemma {:induction false} RunIsWithinTwice(cfg: Config, t: Table, calls: seq<Call>, key: Key, ts: seq<Time>,
                                            s: Option<Time>, clock: Time, a: Time)
    requires cfg.window > 0
    requires Known(cfg, t, key, ts, s, clock)
    requires InOrder(calls, clock)
    ensures WithinTwice(cfg, ts + Granted(cfg, t, calls, key), a)
    decreases |calls|
  {
    if calls == [] {
      assert ts + Granted(cfg, t, calls, key) == ts;
      assert WithinTwice(cfg, ts, a);
    } else {
      var grant := Grant(cfg, t, calls[0], key);
      var t' := Allow(cfg, t, calls[0].key, calls[0].now).entries;
      var s' := StepIsKnown(cfg, t, key, ts, s, clock, calls[0]);
      RunIsWithinTwice(cfg, t', calls[1..], key, ts + grant, s', calls[0].now, a);
      Regroup(ts, grant, Granted(cfg, t', calls[1..], key));
    }
  }

  lemma {:induction false} EmptyInterval(ts: seq<Time>, lo: Time, hi: Time)
    requires hi <= lo
    ensures CountIn(ts, lo, hi) == 0
  {
    if ts != [] {
      EmptyInterval(ts[1..], lo, hi);
    }
  }

  lemma FreshRunIsWithinTwice(cfg: Config, calls: seq<Call>, key: Key, from: Time, a: Time)
    requires cfg.window > 0
    requires InOrder(calls, from)
    ensures WithinTwice(cfg, Granted(cfg, map[], calls, key), a)
  {
    RunIsWithinTwice(cfg, map[], calls, key, [], None, from, a);
    assert [] + Granted(cfg, map[], calls, key) == Granted(cfg, map[], calls, key);
  }

  /** Over any calls at non-decreasing times, a half-open interval of one window's length admits
      fewer than twice the budget of any key. */
  lemma IntervalsAdmitLessThanTwice(cfg: Config, calls: seq<Call>, key: Key, from: Time, a: Time)
    requires InOrder(calls, from)
    ensures CountIn(Granted(cfg, map[], calls, key), a, a + cfg.window) <= 2 * Budget(cfg) - 1
  {
    if cfg.window > 0 {
      FreshRunIsWithinTwice(cfg, calls, key, from, a);
    } else {
      EmptyInterval(Granted(cfg, map[], calls, key), a, a + cfg.window);
    }
  }

  // ---------------------------------------------------------------- the bound is reached

  /** Twice the limit of calls: the first opens a window, the rest of it come at its last instant,
      and a whole window's calls at the next. */
  function Burst(cfg: Config, key: Key): seq<Call>
    requires cfg.limit >= 1
  {
    seq(2 * cfg.limit, i =>
      Call(key, if i == 0 then 0 else if i < cfg.limit then cfg.window - 1 else cfg.window))
  }

  function TableInBurst(cfg: Config, key: Key, i: nat): Table {
    if i == 0 then map[]
    else if i <= cfg.limit then map[key := Counter(0, i)]
    else map[key := Counter(cfg.window, i - cfg.limit)]
  }

  lemma BurstStep(cfg: Config, key: Key, i: nat)
    requires cfg.limit >= 1 && cfg.window >= 2 && cfg.maxEntries >= 1 && i < 2 * cfg.limit
    ensures Allow(cfg, TableInBurst(cfg, key, i), key, Burst(cfg, key)[i].now)
            == Answer(TableInBurst(cfg, key, i + 1), true)
  {
    var t := TableInBurst(cfg, key, i);
    if i == 0 || i == cfg.limit {
      assert t - {key} == map[];
      assert |t - {key}| == 0;
    }
  }

  lemma CountFirst(x: Time, ts: seq<Time>, lo: Time, hi: Time)
    ensures CountIn([x] + ts, lo, hi) == (if lo <= x < hi then 1 else 0) + CountIn(ts, lo, hi)
  {
    assert ([x] + ts)[1..] == ts;
  }

  lemma AllowedFirst(cfg: Config, t: Table, calls: seq<Call>, key: Key, t': Table, lo: Time, hi: Time)
    requires calls != [] && calls[0].key == key
    requires Allow(cfg, t, key, calls[0].now) == Answer(t', true)
    ensures CountIn(Granted(cfg, t, calls, key), lo, hi)
            == (if lo <= calls[0].now < hi then 1 else 0) + CountIn(Granted(cfg, t', calls[1..], key), lo, hi)
  {
    CountFirst(calls[0].now, Granted(cfg, t', calls[1..], key), lo, hi);
  }

  /** How many of the calls from the `i`th on are allowed in the window from 1. */
  function LeftInBurst(cfg: Config, key: Key, i: nat): nat
    requires cfg.limit >= 1 && i <= 2 * cfg.limit
  {
    CountIn(Granted(cfg, TableInBurst(cfg, key, i), Burst(cfg, key)[i..], key), 1, 1 + cfg.window)
  }

  lemma BurstCounts(cfg: Config, key: Key, i: nat)
    requires cfg.limit >= 1 && cfg.window >= 2 && cfg.maxEntries >= 1 && i < 2 * cfg.limit
    ensures LeftInBurst(cfg, key, i) == (if i == 0 then 0 else 1) + LeftInBurst(cfg, key, i + 1)
  {
    var calls := Burst(cfg, key);
    assert calls[i..][0] == calls[i] && calls[i..][1..] == calls[i + 1..];
    BurstStep(cfg, key, i);
    AllowedFirst(cfg, TableInBurst(cfg, key, i), calls[i..], key, TableInBurst(cfg, key, i + 1), 1, 1 + cfg.window);
  }

  /** After `i` calls, all of the remaining ones are allowed. */
  lemma {:induction false} BurstFrom(cfg: Config, key: Key, i: nat)
    requires cfg.limit >= 1 && cfg.window >= 2 && cfg.maxEntries >= 1 && i <= 2 * cfg.limit
    ensures LeftInBurst(cfg, key, i) == 2 * cfg.limit - Max(i, 1)
    decreases 2 * cfg.limit - i
  {
    if i < 2 * cfg.limit {
      BurstCounts(cfg, key, i);
      BurstFrom(cfg, key, i + 1);
    } else {
      assert Burst(cfg, key)[i..] == [];
    }
  }

  /** No smaller bound holds: a burst at a window's edge reaches twice the limit less one. */
  lemma BurstReachesTheBound(cfg: Config, key: Key)
    requires cfg.limit >= 1 && cfg.window >= 2 && cfg.maxEntries >= 1
    ensures CountIn(Granted(cfg, map[], Burst(cfg, key), key), 1, 1 + cfg.window) == 2 * Budget(cfg) - 1
  {
    assert Burst(cfg, key)[0..] == Burst(cfg, key);
    assert LeftInBurst(cfg, key, 0) == CountIn(Granted(cfg, map[], Burst(cfg, key), key), 1, 1 + cfg.window);
    BurstFrom(cfg, key, 0);
  }
}
