/** The limiter as it runs: one map of counters, changed in place by each call. */
module FixedWindowLimiters {
  import R = RateLimiter

  class FixedWindowLimiter {
    const cfg: R.Config
    var entries: R.Table

    constructor (limit: int, window: int, maxEntries: int)
      ensures cfg == R.Config(limit, window, maxEntries)
      ensures entries == map[]
    {
      cfg := R.Config(limit, window, maxEntries);
      entries := map[];
    }

    /** Visits the entries in whatever order the map gives them and deletes the expired ones. */
    method RemoveExpired(now: R.Time)
      modifies this
      ensures entries == R.RemoveExpired(cfg, old(entries), now)
    {
      var toVisit := entries.Keys;
      while toVisit != {}
        invariant toVisit <= old(entries).Keys
        invariant forall k :: k in entries <==>
                    k in old(entries) && (k in toVisit || !R.Expired(cfg, old(entries)[k], now))
        invariant forall k :: k in entries ==> entries[k] == old(entries)[k]
        decreases |toVisit|
      {
        var key :| key in toVisit;
        if R.Expired(cfg, entries[key], now) {
          entries := entries - {key};
        }
        toVisit := toVisit - {key};
      }
    }

    method Allow(key: R.Key, now: R.Time) returns (allowed: bool)
      modifies this
      ensures R.Answer(entries, allowed) == R.Allow(cfg, old(entries), key, now)
    {
      var found := key in entries;
      if found && R.Expired(cfg, entries[key], now) {
        entries := entries - {key};
        found := false;
      }
      if !found {
        assert entries == old(entries) - {key};
        if |entries| >= cfg.maxEntries {
          RemoveExpired(now);
        }
        if |entries| >= cfg.maxEntries {
          return false;
        }
        entries := entries[key := R.Counter(now, 1)];
        return true;
      }
      if entries[key].count >= cfg.limit {
        return false;
      }
      entries := entries[key := entries[key].(count := entries[key].count + 1)];
      allowed := true;
    }
  }
}
