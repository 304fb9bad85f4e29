/**
  What the limiter promises, in the words of its settings: a rate for each of the three dimensions, one burst factor, one
  cleanup period, and the switch that turns it on.
 */
module RateSettings {
  import opened Wrappers
  import opened TokenBucket
  import opened RateLimit

  // ---------------------------------------------------------------------------------------------
  // Every request is answered, and those that are not limited are granted
  // ---------------------------------------------------------------------------------------------

  /** The log has one answer for each request, in order, and nothing else. */
  lemma {:induction false} EveryRequestIsAnswered(cfg: Config, events: seq<Event>)
    ensures var log, asked := Run(cfg, events).log, WithoutSweeps(events);
            && |log| == |asked|
            && forall i :: 0 <= i < |log| ==> Asked(log[i].dimension, log[i].key, log[i].at) == asked[i]
  {
    if events != [] {
      hide AllowStep, SweepStep;
      EveryRequestIsAnswered(cfg, events[..|events| - 1]);
    }
  }

  /** In every run, with any sweeps, a request is granted when the limiter is off, when its dimension has no positive
      rate, and when its dimension is none of the three. */
  lemma {:induction false} UnlimitedIsGranted(cfg: Config, events: seq<Event>, i: nat)
    requires i < |Run(cfg, events).log|
    ensures var call := Run(cfg, events).log[i];
            || !cfg.enabled
            || (call.dimension == "agent" && cfg.perAgent <= 0.0)
            || (call.dimension == "group" && cfg.perGroup <= 0.0)
            || (call.dimension == "tag" && cfg.perTag <= 0.0)
            || call.dimension !in {"agent", "group", "tag"}
            ==> call.granted
  {
    var past := events[..|events| - 1];
    if i < |Run(cfg, past).log| {
      UnlimitedIsGranted(cfg, past, i);
    }
  }

  // ---------------------------------------------------------------------------------------------
  // The bound
  // ---------------------------------------------------------------------------------------------

  /** A dimension keeps its rate: in every window of every run, a key of it is granted at most the burst factor times its
      rate, and its rate times the length. This is so exactly when the burst is worth one request and the cleanup
      period is no shorter than the burst factor. */
  lemma KeepsItsOwnRateIff(cfg: Config, dimension: string, rate: real)
    requires || (dimension == "agent" && rate == cfg.perAgent)
             || (dimension == "group" && rate == cfg.perGroup)
             || (dimension == "tag" && rate == cfg.perTag)
    requires cfg.enabled && 0.0 < rate && 0 < cfg.burstFactor && 0 < cfg.cleanupSecs
    ensures (forall events, key, start, end :: Ordered(events) && start <= end ==>
               GrantedBetween(Run(cfg, events).log, dimension, key, start, end) as real
               <= cfg.burstFactor as real * rate + rate * (end - start))
            <==> 1.0 <= cfg.burstFactor as real * rate && cfg.burstFactor <= cfg.cleanupSecs
  {
    hide Run, Ordered, GrantedBetween, KeepsItsRate;
    KeepsItsRateIff(cfg, dimension);
    if KeepsItsRate(cfg, dimension) {
      forall events, key, start, end | Ordered(events) && start <= end
        ensures GrantedBetween(Run(cfg, events).log, dimension, key, start, end) as real
             <= cfg.burstFactor as real * rate + rate * (end - start)
      {
        KeepsItsOwnRate(cfg, events, dimension, rate, key, start, end);
      }
    } else {
      var events, key, start, end := BreaksItsRate(cfg, dimension);
    }
  }

  lemma BreaksItsRate(cfg: Config, dimension: string) returns (events: seq<Event>, key: string, start: real, end: real)
    requires !KeepsItsRate(cfg, dimension)
    ensures Ordered(events) && start <= end
    ensures GrantedBetween(Run(cfg, events).log, dimension, key, start, end) as real
          > Burst(cfg, dimension) + RateFor(cfg, dimension) * (end - start)
  {
    hide Ordered, Run, GrantedBetween, Burst, RateFor;
    events, key, start, end :| Ordered(events) && start <= end &&
      GrantedBetween(Run(cfg, events).log, dimension, key, start, end) as real
      > Burst(cfg, dimension) + Earned(RateFor(cfg, dimension), end - start);
  }

  lemma KeepsItsOwnRate(cfg: Config, events: seq<Event>, dimension: string, rate: real, key: string,
                        start: real, end: real)
    requires || (dimension == "agent" && rate == cfg.perAgent)
             || (dimension == "group" && rate == cfg.perGroup)
             || (dimension == "tag" && rate == cfg.perTag)
    requires cfg.enabled && 0.0 < rate && 1.0 <= cfg.burstFactor as real * rate && cfg.burstFactor <= cfg.cleanupSecs
    requires Ordered(events) && start <= end
    ensures GrantedBetween(Run(cfg, events).log, dimension, key, start, end) as real
         <= cfg.burstFactor as real * rate + rate * (end - start)
  {
    hide Run, Ordered, GrantedBetween;
    GrantsWithinWindow(cfg, events, dimension, key, start, end);
  }

  predicate KeptUp(cfg: Config, rate: real) {
    cfg.enabled && 0.0 < rate ==> 1.0 <= cfg.burstFactor as real * rate && cfg.burstFactor <= cfg.cleanupSecs
  }

  /** Sweeps change no answer of any run exactly when the limiter is off, or each positive rate is worth one request in
      a burst and the cleanup period is no shorter than the burst factor. */
  lemma SweepsAreInvisibleIff(cfg: Config)
    requires 0 < cfg.burstFactor && 0 < cfg.cleanupSecs
    ensures SweepsInvisible(cfg) <==> KeptUp(cfg, cfg.perAgent) && KeptUp(cfg, cfg.perGroup) && KeptUp(cfg, cfg.perTag)
  {
    hide SweepsInvisible;
    SweepingIsInvisible(cfg);
    assert SweepSafe(cfg) ==>
      && (Limited(cfg, "agent") ==> SafeFor(cfg, "agent")) && (Limited(cfg, "group") ==> SafeFor(cfg, "group"))
      && (Limited(cfg, "tag") ==> SafeFor(cfg, "tag"));
  }

  // ---------------------------------------------------------------------------------------------
  // The first requests
  // ---------------------------------------------------------------------------------------------

  /** A bucket never holds less than a burst, less one token for each call to its key. */
  ghost predicate HoldsTheRest(cfg: Config, run: Trace, dimension: string, key: string, clock: real) {
    var slot := Lookup(run.buckets, FullKey(dimension, key));
    slot.Some? ==>
      && slot.value.maxBurst == Burst(cfg, dimension) && slot.value.rate == RateFor(cfg, dimension)
      && slot.value.lastFill <= clock
      && Burst(cfg, dimension) - |CallsTo(run.log, dimension, key)| as real <= slot.value.tokens
  }

  ghost predicate FirstAreGranted(cfg: Config, calls: seq<Call>, dimension: string) {
    forall j :: 0 <= j < |calls| && (j == 0 || (j + 1) as real <= Burst(cfg, dimension)) ==> calls[j].granted
  }

  lemma AskHoldsTheRest(slot: Option<Bucket>, burst: real, rate: real, now: real, n: nat)
    requires 0.0 <= rate
    requires n == 0 ==> slot.None?
    requires slot.Some? ==>
               && slot.value.maxBurst == burst && slot.value.rate == rate
               && slot.value.lastFill <= now && burst - n as real <= slot.value.tokens
    ensures var (bucket, granted) := Ask(slot, burst, rate, now);
            && bucket.maxBurst == burst && bucket.rate == rate && bucket.lastFill == now
            && burst - (n + 1) as real <= bucket.tokens
            && (n == 0 || (n + 1) as real <= burst ==> granted)
  {
    if slot.Some? {
      EarnedIsNotNegative(rate, now - slot.value.lastFill);
    }
  }

  lemma EarnedIsNotNegative(rate: real, elapsed: real)
    requires 0.0 <= rate && 0.0 <= elapsed
    ensures 0.0 <= Earned(rate, elapsed)
  {
  }

  lemma AllowHoldsTheRest(cfg: Config, before: Trace, event: Event, dimension: string, key: string, clock: real)
    requires Limited(cfg, dimension) && clock <= event.at
    requires HoldsTheRest(cfg, before, dimension, key, clock)
    requires FirstAreGranted(cfg, CallsTo(before.log, dimension, key), dimension)
    requires CallsTo(before.log, dimension, key) == [] ==> Lookup(before.buckets, FullKey(dimension, key)).None?
    ensures var run := Step(cfg, before, event);
            && HoldsTheRest(cfg, run, dimension, key, event.at)
            && FirstAreGranted(cfg, CallsTo(run.log, dimension, key), dimension)
            && (CallsTo(run.log, dimension, key) == [] ==> Lookup(run.buckets, FullKey(dimension, key)).None?)
  {
    hide Ask, Burst, RateFor, CallsTo;
    var calls := CallsTo(before.log, dimension, key);
    match event
    case Swept(_) =>
    case Asked(d, k, at) =>
      var (buckets, granted) := AllowStep(cfg, before.buckets, d, k, at);
      CallsToSnoc(before.log, Call(d, k, at, granted), dimension, key);
      if d == dimension && k == key {
        AskHoldsTheRest(Lookup(before.buckets, FullKey(d, k)), Burst(cfg, d), RateFor(cfg, d), at, |calls|);
      } else {
        assert calls + [] == calls;
        OtherKeysStay(cfg, before.buckets, d, k, at, dimension, key);
      }
  }

  lemma OtherKeysStay(cfg: Config, buckets: Buckets, d: string, k: string, at: real, dimension: string, key: string)
    requires Limited(cfg, dimension) && (d != dimension || k != key)
    ensures Lookup(AllowStep(cfg, buckets, d, k, at).0, FullKey(dimension, key))
         == Lookup(buckets, FullKey(dimension, key))
  {
    hide Ask;
    if Limited(cfg, d) && FullKey(d, k) == FullKey(dimension, key) {
      FullKeyInjective(d, k, dimension, key);
    }
  }

  lemma {:induction false} RunHoldsTheRest(cfg: Config, events: seq<Event>, dimension: string, key: string)
    requires Limited(cfg, dimension) && Ordered(events)
    ensures var run := Run(cfg, events);
            && (events != [] ==> HoldsTheRest(cfg, run, dimension, key, events[|events| - 1].at))
            && FirstAreGranted(cfg, CallsTo(run.log, dimension, key), dimension)
            && (CallsTo(run.log, dimension, key) == [] ==> Lookup(run.buckets, FullKey(dimension, key)).None?)
  {
    if events != [] {
      var past, last := events[..|events| - 1], events[|events| - 1];
      hide Step, FirstAreGranted, Burst, RateFor;
      RunHoldsTheRest(cfg, past, dimension, key);
      AllowHoldsTheRest(cfg, Run(cfg, past), last, dimension, key, if past == [] then last.at else past[|past| - 1].at);
    }
  }

  /** In every run, with any sweeps and safe settings or not, the first request of a key is granted, and so are the first
      burst factor times the rate of them, whenever they come. */
  lemma FirstRequestsAreGranted(cfg: Config, events: seq<Event>, dimension: string, rate: real, key: string, n: nat)
    requires || (dimension == "agent" && rate == cfg.perAgent)
             || (dimension == "group" && rate == cfg.perGroup)
             || (dimension == "tag" && rate == cfg.perTag)
    requires Ordered(events) && n < |CallsTo(Run(cfg, events).log, dimension, key)|
    requires n == 0 || (n + 1) as real <= cfg.burstFactor as real * rate
    ensures CallsTo(Run(cfg, events).log, dimension, key)[n].granted
  {
    hide Run, Ordered, CallsTo;
    if Limited(cfg, dimension) {
      RunHoldsTheRest(cfg, events, dimension, key);
    } else {
      var i := CallIndex(Run(cfg, events).log, dimension, key, n);
      UnlimitedIsGranted(cfg, events, i);
    }
  }

  /** A call to a key is a call of the log. */
  lemma {:induction false} CallIndex(log: seq<Call>, dimension: string, key: string, n: nat) returns (i: nat)
    requires n < |CallsTo(log, dimension, key)|
    ensures i < |log| && log[i] == CallsTo(log, dimension, key)[n]
    ensures log[i].dimension == dimension && log[i].key == key
  {
    var past := log[..|log| - 1];
    if n < |CallsTo(past, dimension, key)| {
      i := CallIndex(past, dimension, key, n);
    } else {
      i := |log| - 1;
    }
  }
}
