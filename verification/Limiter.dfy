/** The limiter as the program keeps it: mutable buckets behind a map, with the run that led to them as a ghost. */
module Limiter {
  import opened Wrappers
  import opened TokenBucket
  import opened RateLimit
  import RateSettings

  class TrackedBucket {
    var tokens: real
    const maxBurst: real
    const rate: real
    var lastFill: real

    function Value(): Bucket
      reads this
    {
      Bucket(tokens, maxBurst, rate, lastFill)
    }

    constructor (maxBurst: real, rate: real, now: real)
      ensures Value() == Ask(None, maxBurst, rate, now).0
    {
      this.tokens := maxBurst - 1.0;
      this.maxBurst := maxBurst;
      this.rate := rate;
      this.lastFill := now;
    }

    /** Refill, then debit one token if there is one. */
    method Take(now: real) returns (granted: bool)
      modifies this
      ensures (Value(), granted) == old(Ask(Some(Value()), maxBurst, rate, now))
    {
      var elapsed := now - lastFill;
      tokens := tokens + Earned(rate, elapsed);
      if tokens > maxBurst {
        tokens := maxBurst;
      }
      lastFill := now;
      if tokens < 1.0 {
        return false;
      }
      tokens := tokens - 1.0;
      return true;
    }
  }

  class Limiter {
    const cfg: Config
    var buckets: map<string, TrackedBucket>

    /** Everything this limiter has been asked, in order. */
    ghost var history: seq<Event>

    ghost function Snapshot(): Buckets
      reads this`buckets, buckets.Values
    {
      map fullKey | fullKey in buckets :: buckets[fullKey].Value()
    }

    ghost predicate Unshared()
      reads this`buckets
    {
      forall k1, k2 :: k1 in buckets && k2 in buckets && k1 != k2 ==> buckets[k1] != buckets[k2]
    }

    /** The buckets are the ones that the history leads to. */
    ghost predicate Valid()
      reads this, buckets.Values
    {
      && cfg == Normalised(cfg)
      && Unshared()
      && Snapshot() == Run(cfg, history).buckets
    }

    /** Every answer this limiter has given. */
    ghost function Log(): seq<Call>
      reads this
    {
      Run(cfg, history).log
    }

    constructor (cfg: Config)
      ensures Valid() && history == [] && Log() == [] && buckets == map[]
      ensures this.cfg.burstFactor == (if cfg.burstFactor <= 0 then 10 else cfg.burstFactor)
      ensures this.cfg.cleanupSecs == (if cfg.cleanupSecs <= 0 then 300 else cfg.cleanupSecs)
      ensures this.cfg == cfg.(burstFactor := this.cfg.burstFactor, cleanupSecs := this.cfg.cleanupSecs)
    {
      this.cfg := Normalised(cfg);
      this.buckets := map[];
      this.history := [];
    }

    method Allow(dimension: string, key: string, now: real) returns (granted: bool)
      requires Valid()
      modifies this`buckets, this`history, buckets.Values
      ensures Valid()
      ensures history == old(history) + [Asked(dimension, key, now)]
      ensures Log() == old(Log()) + [Call(dimension, key, now, granted)]
      ensures (Snapshot(), granted) == AllowStep(cfg, old(Snapshot()), dimension, key, now)
      ensures || !cfg.enabled
              || (dimension == "agent" && cfg.perAgent <= 0.0)
              || (dimension == "group" && cfg.perGroup <= 0.0)
              || (dimension == "tag" && cfg.perTag <= 0.0)
              || dimension !in {"agent", "group", "tag"}
              ==> granted && buckets == old(buckets)
      ensures fresh(buckets.Values - old(buckets.Values))
    {
      hide Refilled, Run;
      ghost var before := Run(cfg, history);
      RunSnoc(cfg, history, Asked(dimension, key, now));
      history := history + [Asked(dimension, key, now)];
      assert Snapshot() == before.buckets;
      if !cfg.enabled {
        return true;
      }
      var rate := RateFor(cfg, dimension);
      if rate <= 0.0 {
        return true;
      }
      var fullKey := FullKey(dimension, key);
      var maxBurst := Burst(cfg, dimension);
      if fullKey !in buckets {
        var bucket := new TrackedBucket(maxBurst, rate, now);
        buckets := buckets[fullKey := bucket];
        granted := true;
      } else {
        var bucket := buckets[fullKey];
        granted := bucket.Take(now);
      }
      assert (buckets[fullKey].Value(), granted) == Ask(Lookup(before.buckets, fullKey), maxBurst, rate, now);
      assert Snapshot() == before.buckets[fullKey := buckets[fullKey].Value()];
      assert (Snapshot(), granted) == AllowStep(cfg, before.buckets, dimension, key, now);
    }

    /** Delete the buckets that have been idle for longer than the cleanup period. */
    method Cleanup(now: real)
      requires Valid()
      modifies this`buckets, this`history
      ensures Valid()
      ensures history == old(history) + [Swept(now)]
      ensures Log() == old(Log())
      ensures Snapshot() == SweepStep(cfg, old(Snapshot()), now)
      ensures buckets.Values <= old(buckets.Values)
      ensures forall k :: k in buckets <==>
                k in old(buckets) && !(old(buckets[k].lastFill) < now - cfg.cleanupSecs as real)
      ensures forall k :: k in buckets ==> buckets[k] == old(buckets[k])
    {
      hide Run;
      RunSnoc(cfg, history, Swept(now));
      var cutoff := now - cfg.cleanupSecs as real;
      var pending := buckets.Keys;
      while pending != {}
        invariant pending <= buckets.Keys <= old(buckets.Keys)
        invariant forall k :: k in buckets ==> buckets[k] == old(buckets)[k]
        invariant forall k :: k in old(buckets) ==>
                    (k in buckets <==> k in pending || !(old(buckets)[k].lastFill < cutoff))
        invariant history == old(history)
        decreases pending
      {
        var k :| k in pending;
        pending := pending - {k};
        if buckets[k].lastFill < cutoff {
          buckets := buckets - {k};
        }
      }
      history := history + [Swept(now)];
      assert Snapshot() == SweepStep(cfg, old(Snapshot()), now);
    }

    // ---- what its answers amount to -----------------------------------------------------------

    /** At any moment, what a key has been granted in any window of the past is at most a burst, and the rate times the
        window's length. */
    lemma KeptItsRate(dimension: string, rate: real, key: string, start: real, end: real)
      requires Valid() && Ordered(history) && start <= end
      requires || (dimension == "agent" && rate == cfg.perAgent)
               || (dimension == "group" && rate == cfg.perGroup)
               || (dimension == "tag" && rate == cfg.perTag)
      requires cfg.enabled && 0.0 < rate && 1.0 <= cfg.burstFactor as real * rate && cfg.burstFactor <= cfg.cleanupSecs
      ensures GrantedBetween(Log(), dimension, key, start, end) as real
           <= cfg.burstFactor as real * rate + rate * (end - start)
    {
      RateSettings.KeepsItsOwnRate(cfg, history, dimension, rate, key, start, end);
    }

    /** At any moment, the first requests of a key, a burst of them, have been granted, and all that are not limited. */
    lemma GrantedTheFirst(dimension: string, rate: real, key: string, n: nat, i: nat)
      requires Valid() && Ordered(history)
      requires || (dimension == "agent" && rate == cfg.perAgent)
               || (dimension == "group" && rate == cfg.perGroup)
               || (dimension == "tag" && rate == cfg.perTag)
      requires n < |CallsTo(Log(), dimension, key)| && (n == 0 || (n + 1) as real <= cfg.burstFactor as real * rate)
      requires i < |Log()| && (!cfg.enabled || Log()[i].dimension !in {"agent", "group", "tag"}
                               || (Log()[i].dimension == dimension && rate <= 0.0))
      ensures CallsTo(Log(), dimension, key)[n].granted && Log()[i].granted
    {
      RateSettings.FirstRequestsAreGranted(cfg, history, dimension, rate, key, n);
      RateSettings.UnlimitedIsGranted(cfg, history, i);
    }
  }
}
