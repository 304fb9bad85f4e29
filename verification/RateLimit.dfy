/**
  The limiter over many keys: a map of buckets, filled on demand and swept when idle.

  A limiter's behaviour is a function of its configuration and of the sequence of events it has seen. The theorems
  are about all event sequences: a key's answers ignore every other key (`NonInterference`), sweeping idle buckets is
  invisible exactly for the configurations that `SweepSafe` describes (`SweepingIsInvisible`), and a dimension keeps
  its rate in every window exactly when its own settings are safe (`KeepsItsRateIff`).
 */
module RateLimit {
  import opened Wrappers
  import opened TokenBucket

  datatype Config = Config(
    perAgent: real, perGroup: real, perTag: real,
    burstFactor: int, cleanupSecs: int, enabled: bool)

  const DIMENSION_AGENT := "agent"
  const DIMENSION_GROUP := "group"
  const DIMENSION_TAG := "tag"

  /** The defaults that replace an unset burst factor or cleanup period. */
  function Normalised(cfg: Config): Config {
    cfg.(burstFactor := if cfg.burstFactor <= 0 then 10 else cfg.burstFactor,
         cleanupSecs := if cfg.cleanupSecs <= 0 then 300 else cfg.cleanupSecs)
  }

  function RateFor(cfg: Config, dimension: string): real {
    if dimension == DIMENSION_AGENT then cfg.perAgent
    else if dimension == DIMENSION_GROUP then cfg.perGroup
    else if dimension == DIMENSION_TAG then cfg.perTag
    else 0.0
  }

  function Burst(cfg: Config, dimension: string): real {
    cfg.burstFactor as real * RateFor(cfg, dimension)
  }

  /** Whether requests of a dimension are counted at all. */
  predicate Limited(cfg: Config, dimension: string) {
    cfg.enabled && RateFor(cfg, dimension) > 0.0
  }

  function FullKey(dimension: string, key: string): string {
    dimension + ":" + key
  }

  type Buckets = map<string, Bucket>

  function Lookup(buckets: Buckets, fullKey: string): Option<Bucket> {
    if fullKey in buckets then Some(buckets[fullKey]) else None
  }

  /** One call of Allow: the buckets after it and its answer. */
  function AllowStep(cfg: Config, buckets: Buckets, dimension: string, key: string, now: real): (Buckets, bool) {
    if !Limited(cfg, dimension) then (buckets, true)
    else
      var fullKey := FullKey(dimension, key);
      var (bucket, granted) :=
        Ask(Lookup(buckets, fullKey), Burst(cfg, dimension), RateFor(cfg, dimension), now);
      (buckets[fullKey := bucket], granted)
  }

  predicate Stale(cfg: Config, bucket: Bucket, now: real) {
    bucket.lastFill < now - cfg.cleanupSecs as real
  }

  /** One call of Cleanup. */
  function SweepStep(cfg: Config, buckets: Buckets, now: real): Buckets {
    map fullKey | fullKey in buckets && !Stale(cfg, buckets[fullKey], now) :: buckets[fullKey]
  }

  datatype Event =
    | Asked(dimension: string, key: string, at: real)
    | Swept(at: real)

  /** One answered request. */
  datatype Call = Call(dimension: string, key: string, at: real, granted: bool)

  /** The buckets a run leaves and the answers it gave, in order. */
  datatype Trace = Trace(buckets: Buckets, log: seq<Call>)

  function Step(cfg: Config, before: Trace, event: Event): Trace {
    match event
    case Asked(dimension, key, at) =>
      var (buckets, granted) := AllowStep(cfg, before.buckets, dimension, key, at);
      Trace(buckets, before.log + [Call(dimension, key, at, granted)])
    case Swept(at) =>
      before.(buckets := SweepStep(cfg, before.buckets, at))
  }

  function Run(cfg: Config, events: seq<Event>): Trace {
    if events == [] then Trace(map[], [])
    else Step(cfg, Run(cfg, events[..|events| - 1]), events[|events| - 1])
  }

  /** The clock, read under the limiter's lock, never runs backwards. */
  ghost predicate Ordered(events: seq<Event>) {
    forall i, j :: 0 <= i < j < |events| ==> events[i].at <= events[j].at
  }

  // ---------------------------------------------------------------------------------------------
  // Keys of different dimensions never share a bucket
  // ---------------------------------------------------------------------------------------------

  predicate Rated(dimension: string) {
    dimension == DIMENSION_AGENT || dimension == DIMENSION_GROUP || dimension == DIMENSION_TAG
  }

  /** The prefixed key determines dimension and key, whatever colons the key contains. */
  lemma FullKeyInjective(d1: string, k1: string, d2: string, k2: string)
    requires Rated(d1) && Rated(d2) && FullKey(d1, k1) == FullKey(d2, k2)
    ensures d1 == d2 && k1 == k2
  {
    var whole := FullKey(d1, k1);
    assert whole[0] == d1[0] && whole[0] == d2[0];
    assert k1 == whole[|d1| + 1..] && k2 == whole[|d2| + 1..];
  }

  // ---------------------------------------------------------------------------------------------
  // Non-interference
  // ---------------------------------------------------------------------------------------------

  /** What one key can see of a run: its own requests, and the sweeps. */
  function Only(events: seq<Event>, dimension: string, key: string): seq<Event> {
    if events == [] then []
    else
      var last := events[|events| - 1];
      Only(events[..|events| - 1], dimension, key)
      + (if last.Asked? && (last.dimension != dimension || last.key != key) then [] else [last])
  }

  lemma OnlySnoc(events: seq<Event>, event: Event, dimension: string, key: string)
    ensures Only(events + [event], dimension, key)
         == Only(events, dimension, key)
            + (if event.Asked? && (event.dimension != dimension || event.key != key) then [] else [event])
  {
  }

  function CallsTo(log: seq<Call>, dimension: string, key: string): seq<Call> {
    if log == [] then []
    else
      var last := log[|log| - 1];
      CallsTo(log[..|log| - 1], dimension, key)
      + (if last.dimension == dimension && last.key == key then [last] else [])
  }

  lemma CallsToSnoc(log: seq<Call>, call: Call, dimension: string, key: string)
    ensures CallsTo(log + [call], dimension, key)
         == CallsTo(log, dimension, key) + (if call.dimension == dimension && call.key == key then [call] else [])
  {
  }

  lemma RunSnoc(cfg: Config, events: seq<Event>, event: Event)
    ensures Run(cfg, events + [event]) == Step(cfg, Run(cfg, events), event)
  {
  }

  /** The calls of one log to a key are another log, and the key has the same bucket. */
  ghost predicate SameForKey(whole: Trace, alone: Trace, dimension: string, key: string) {
    && CallsTo(whole.log, dimension, key) == alone.log
    && Lookup(whole.buckets, FullKey(dimension, key)) == Lookup(alone.buckets, FullKey(dimension, key))
  }

  /** An event about another key leaves this key alone; any other event acts on it alike. */
  lemma StepSeesOnlyKey(cfg: Config, whole: Trace, alone: Trace, event: Event, dimension: string, key: string)
    requires Rated(dimension) && SameForKey(whole, alone, dimension, key)
    ensures SameForKey(Step(cfg, whole, event),
                       if event.Asked? && (event.dimension != dimension || event.key != key) then alone
                       else Step(cfg, alone, event), dimension, key)
  {
    match event
    case Swept(_) =>
    case Asked(d, k, at) =>
      CallsToSnoc(whole.log, Call(d, k, at, AllowStep(cfg, whole.buckets, d, k, at).1), dimension, key);
      assert CallsTo(whole.log, dimension, key) + [] == CallsTo(whole.log, dimension, key);
      if (d != dimension || k != key) && Limited(cfg, d) && FullKey(d, k) == FullKey(dimension, key) {
        FullKeyInjective(d, k, dimension, key);
      }
  }

  /** The calls to one key, and its bucket, come out as if no other key existed. */
  lemma {:induction false} KeySeesOnlyItself(cfg: Config, events: seq<Event>, dimension: string, key: string)
    requires Rated(dimension)
    ensures SameForKey(Run(cfg, events), Run(cfg, Only(events, dimension, key)), dimension, key)
  {
    if events != [] {
      var past, last := events[..|events| - 1], events[|events| - 1];
      KeySeesOnlyItself(cfg, past, dimension, key);
      var mine := Only(past, dimension, key);
      assert Only(events, dimension, key)
          == mine + (if last.Asked? && (last.dimension != dimension || last.key != key) then [] else [last]);
      assert mine + [] == mine;
      RunSnoc(cfg, mine, last);
      StepSeesOnlyKey(cfg, Run(cfg, past), Run(cfg, mine), last, dimension, key);
    }
  }

  /** The answers one key gets depend only on the requests for that key and on the sweeps. */
  lemma NonInterference(cfg: Config, events: seq<Event>, events': seq<Event>, dimension: string, key: string)
    requires Rated(dimension)
    requires Only(events, dimension, key) == Only(events', dimension, key)
    ensures CallsTo(Run(cfg, events).log, dimension, key) == CallsTo(Run(cfg, events').log, dimension, key)
  {
    KeySeesOnlyItself(cfg, events, dimension, key);
    KeySeesOnlyItself(cfg, events', dimension, key);
  }

  // ---------------------------------------------------------------------------------------------
  // Without sweeps, a key's answers are its bucket's answers
  // ---------------------------------------------------------------------------------------------

  function WithoutSweeps(events: seq<Event>): seq<Event> {
    if events == [] then []
    else
      var last := events[|events| - 1];
      WithoutSweeps(events[..|events| - 1]) + (if last.Swept? then [] else [last])
  }

  function Times(log: seq<Call>): (times: seq<real>)
    ensures |times| == |log|
  {
    seq(|log|, i requires 0 <= i < |log| => log[i].at)
  }

  function Grants(log: seq<Call>): (grants: seq<bool>)
    ensures |grants| == |log|
  {
    seq(|log|, i requires 0 <= i < |log| => log[i].granted)
  }

  ghost predicate AllTo(events: seq<Event>, dimension: string, key: string) {
    forall i :: 0 <= i < |events| ==>
      events[i].Asked? && events[i].dimension == dimension && events[i].key == key
  }

  /** A run of requests to one limited key is the history of one bucket. */
  lemma {:induction false} RunIsServe(cfg: Config, events: seq<Event>, dimension: string, key: string)
    requires Limited(cfg, dimension) && AllTo(events, dimension, key)
    ensures var run := Run(cfg, events);
            Serve(Burst(cfg, dimension), RateFor(cfg, dimension), Times(run.log))
            == (Lookup(run.buckets, FullKey(dimension, key)), Grants(run.log))
  {
    if events != [] {
      var past, last := events[..|events| - 1], events[|events| - 1];
      RunIsServe(cfg, past, dimension, key);
      var before, after := Run(cfg, past), Run(cfg, events);
      var n := |before.log|;
      assert Times(after.log)[..n] == Times(before.log) && Times(after.log)[n] == last.at;
      assert Grants(after.log) == Grants(before.log) + [after.log[n].granted];
    }
  }

  lemma {:induction false} OnlyWithoutSweeps(events: seq<Event>, dimension: string, key: string)
    ensures AllTo(Only(WithoutSweeps(events), dimension, key), dimension, key)
  {
    if events != [] {
      var past, last := events[..|events| - 1], events[|events| - 1];
      OnlyWithoutSweeps(past, dimension, key);
      OnlySnoc(WithoutSweeps(past), last, dimension, key);
      hide Only;
      var seen := Only(WithoutSweeps(past), dimension, key);
      assert seen + [] == seen && WithoutSweeps(past) + [] == WithoutSweeps(past);
    }
  }

  /** In a run without sweeps, a limited key gets exactly the answers of the all-windows limiter, if a burst is worth
      at least one request. */
  lemma SweepFreeIsGreedy(cfg: Config, events: seq<Event>, dimension: string, key: string)
    requires Limited(cfg, dimension) && 1.0 <= Burst(cfg, dimension)
    ensures var calls := CallsTo(Run(cfg, WithoutSweeps(events)).log, dimension, key);
            && Grants(calls) == Answers(Burst(cfg, dimension), RateFor(cfg, dimension), Times(calls))
            && Grants(calls) == Greedy(Burst(cfg, dimension), RateFor(cfg, dimension), Times(calls))
  {
    var kept := WithoutSweeps(events);
    KeySeesOnlyItself(cfg, kept, dimension, key);
    OnlyWithoutSweeps(events, dimension, key);
    RunIsServe(cfg, Only(kept, dimension, key), dimension, key);
    var calls := CallsTo(Run(cfg, kept).log, dimension, key);
    BucketAgrees(Burst(cfg, dimension), RateFor(cfg, dimension), Times(calls));
  }

  // ---------------------------------------------------------------------------------------------
  // Sweeping is invisible: a bisimulation
  // ---------------------------------------------------------------------------------------------

  /** The settings of a dimension with which an idle bucket is full again before it may be swept. */
  predicate SafeFor(cfg: Config, dimension: string) {
    1.0 <= Burst(cfg, dimension) && cfg.burstFactor <= cfg.cleanupSecs
  }

  /** The configurations that are safe for every limited dimension. */
  ghost predicate SweepSafe(cfg: Config) {
    forall dimension :: Limited(cfg, dimension) ==> SafeFor(cfg, dimension)
  }

  /** A bucket of this configuration, in a state that a run can leave it in. */
  ghost predicate Sound(cfg: Config, fullKey: string, b: Bucket, clock: real) {
    && 0.0 <= b.tokens && 1.0 <= b.maxBurst && 0.0 < b.rate && b.lastFill <= clock
    && b.maxBurst == cfg.burstFactor as real * b.rate
    && forall d, k :: Limited(cfg, d) && FullKey(d, k) == fullKey ==>
         b.maxBurst == Burst(cfg, d) && b.rate == RateFor(cfg, d)
  }

  predicate FullAgain(b: Bucket, clock: real) {
    b.maxBurst <= b.tokens + Earned(b.rate, clock - b.lastFill)
  }

  /** The swept buckets are the kept ones, less some that are full again. */
  ghost predicate Hides(cfg: Config, swept: Buckets, kept: Buckets, clock: real) {
    && swept.Keys <= kept.Keys
    && (forall fullKey :: fullKey in kept ==> Sound(cfg, fullKey, kept[fullKey], clock))
    && (forall fullKey :: fullKey in kept ==>
          if fullKey in swept then swept[fullKey] == kept[fullKey] else FullAgain(kept[fullKey], clock))
  }

  lemma StaysFull(b: Bucket, clock: real, now: real)
    requires FullAgain(b, clock) && 0.0 <= b.rate && clock <= now
    ensures FullAgain(b, now)
  {
  }

  lemma HidesLater(cfg: Config, swept: Buckets, kept: Buckets, clock: real, now: real)
    requires Hides(cfg, swept, kept, clock) && clock <= now
    ensures Hides(cfg, swept, kept, now)
  {
    forall fullKey | fullKey in kept && fullKey !in swept ensures FullAgain(kept[fullKey], now) {
      StaysFull(kept[fullKey], clock, now);
    }
  }

  /** A stale bucket has earned a full burst. */
  lemma StaleIsFull(cfg: Config, fullKey: string, b: Bucket, now: real)
    requires Sound(cfg, fullKey, b, now) && Stale(cfg, b, now) && cfg.burstFactor <= cfg.cleanupSecs
    ensures FullAgain(b, now)
  {
    RateMonotone(b.rate, cfg.burstFactor as real, now - b.lastFill);
  }

  lemma SweepHides(cfg: Config, swept: Buckets, kept: Buckets, now: real)
    requires Hides(cfg, swept, kept, now) && cfg.burstFactor <= cfg.cleanupSecs
    ensures Hides(cfg, SweepStep(cfg, swept, now), kept, now)
  {
    forall fullKey | fullKey in kept && fullKey !in SweepStep(cfg, swept, now)
      ensures FullAgain(kept[fullKey], now)
    {
      if fullKey in swept {
        StaleIsFull(cfg, fullKey, kept[fullKey], now);
      }
    }
  }

  /** A full bucket and a missing one answer alike and become the same bucket. */
  lemma FullIsAbsent(b: Bucket, now: real)
    requires FullAgain(b, now) && 1.0 <= b.maxBurst
    ensures Ask(Some(b), b.maxBurst, b.rate, now) == Ask(None, b.maxBurst, b.rate, now)
  {
  }

  lemma AskKeepsSound(cfg: Config, dimension: string, key: string, slot: Option<Bucket>, now: real)
    requires Limited(cfg, dimension) && 1.0 <= Burst(cfg, dimension)
    requires slot.Some? ==> Sound(cfg, FullKey(dimension, key), slot.value, now)
    ensures Sound(cfg, FullKey(dimension, key),
                  Ask(slot, Burst(cfg, dimension), RateFor(cfg, dimension), now).0, now)
  {
    var fullKey := FullKey(dimension, key);
    forall d, k | Limited(cfg, d) && FullKey(d, k) == fullKey ensures d == dimension {
      FullKeyInjective(d, k, dimension, key);
    }
    if slot.Some? {
      RateMonotone(slot.value.rate, 0.0, now - slot.value.lastFill);
    }
  }

  lemma AllowHides(cfg: Config, swept: Buckets, kept: Buckets, dimension: string, key: string, now: real)
    requires Hides(cfg, swept, kept, now)
    requires Limited(cfg, dimension) ==> 1.0 <= Burst(cfg, dimension)
    ensures var (swept', granted) := AllowStep(cfg, swept, dimension, key, now);
            var (kept', granted') := AllowStep(cfg, kept, dimension, key, now);
            granted == granted' && Hides(cfg, swept', kept', now)
  {
    if Limited(cfg, dimension) {
      hide Sound, Ask, Earned;
      var fullKey := FullKey(dimension, key);
      AskKeepsSound(cfg, dimension, key, Lookup(kept, fullKey), now);
      if fullKey in kept && fullKey !in swept {
        SoundParameters(cfg, dimension, key, kept[fullKey], now);
        FullIsAbsent(kept[fullKey], now);
      }
    }
  }

  lemma SoundParameters(cfg: Config, dimension: string, key: string, b: Bucket, now: real)
    requires Limited(cfg, dimension) && Sound(cfg, FullKey(dimension, key), b, now)
    ensures b.maxBurst == Burst(cfg, dimension) && b.rate == RateFor(cfg, dimension) && 1.0 <= b.maxBurst
  {
  }

  lemma {:induction false} UnlimitedKeepsNothing(cfg: Config, events: seq<Event>)
    requires forall dimension :: !Limited(cfg, dimension)
    ensures Run(cfg, events).buckets == map[]
  {
    if events != [] {
      UnlimitedKeepsNothing(cfg, events[..|events| - 1]);
    }
  }

  lemma {:induction false} SweptRunHides(cfg: Config, events: seq<Event>)
    requires SweepSafe(cfg) && Ordered(events)
    ensures Run(cfg, events).log == Run(cfg, WithoutSweeps(events)).log
    ensures events != [] ==>
              Hides(cfg, Run(cfg, events).buckets, Run(cfg, WithoutSweeps(events)).buckets, events[|events| - 1].at)
  {
    if events != [] {
      var past, last := events[..|events| - 1], events[|events| - 1];
      SweptRunHides(cfg, past);
      var swept, kept := Run(cfg, past).buckets, Run(cfg, WithoutSweeps(past)).buckets;
      if past == [] {
        assert Hides(cfg, swept, kept, last.at);
      } else {
        HidesLater(cfg, swept, kept, past[|past| - 1].at, last.at);
      }
      match last {
        case Asked(d, k, at) =>
          RunSnoc(cfg, WithoutSweeps(past), last);
          AllowHides(cfg, swept, kept, d, k, at);
        case Swept(at) =>
          assert WithoutSweeps(past) + [] == WithoutSweeps(past);
          if cfg.burstFactor <= cfg.cleanupSecs {
            SweepHides(cfg, swept, kept, at);
          } else {
            UnlimitedKeepsNothing(cfg, past);
            UnlimitedKeepsNothing(cfg, WithoutSweeps(past));
          }
      }
    }
  }

  // ---------------------------------------------------------------------------------------------
  // The window bound
  // ---------------------------------------------------------------------------------------------

  function GrantedBetween(log: seq<Call>, dimension: string, key: string, start: real, end: real): nat {
    if log == [] then 0
    else
      var last := log[|log| - 1];
      GrantedBetween(log[..|log| - 1], dimension, key, start, end)
      + (if last.dimension == dimension && last.key == key && last.granted && start <= last.at <= end then 1 else 0)
  }

  lemma {:induction false} GrantedIsBetween(log: seq<Call>, dimension: string, key: string, start: real, end: real)
    ensures var calls := CallsTo(log, dimension, key);
            GrantedBetween(log, dimension, key, start, end) == GrantsBetween(Times(calls), Grants(calls), start, end)
  {
    if log != [] {
      var past, last := log[..|log| - 1], log[|log| - 1];
      GrantedIsBetween(past, dimension, key, start, end);
      if last.dimension == dimension && last.key == key {
        var calls := CallsTo(past, dimension, key);
        assert Times(calls + [last])[..|calls|] == Times(calls);
        assert Grants(calls + [last])[..|calls|] == Grants(calls);
      } else {
        assert CallsTo(past, dimension, key) + [] == CallsTo(past, dimension, key);
      }
    }
  }

  ghost predicate LogOrdered(log: seq<Call>, latest: real) {
    && (forall i :: 0 <= i < |log| ==> log[i].at <= latest)
    && (forall i, j :: 0 <= i < j < |log| ==> log[i].at <= log[j].at)
  }

  lemma {:induction false} RunIsOrdered(cfg: Config, events: seq<Event>)
    requires Ordered(events) && events != []
    ensures LogOrdered(Run(cfg, events).log, events[|events| - 1].at)
  {
    var past := events[..|events| - 1];
    if past != [] {
      RunIsOrdered(cfg, past);
    }
  }

  lemma {:induction false} CallsToOrdered(log: seq<Call>, dimension: string, key: string, latest: real)
    requires LogOrdered(log, latest)
    ensures LogOrdered(CallsTo(log, dimension, key), latest)
  {
    if log != [] {
      CallsToOrdered(log[..|log| - 1], dimension, key, log[|log| - 1].at);
    }
  }

  lemma {:induction false} WithoutSweepsOrdered(events: seq<Event>)
    requires Ordered(events)
    ensures Ordered(WithoutSweeps(events))
    ensures forall i :: 0 <= i < |WithoutSweeps(events)| ==>
              events != [] && WithoutSweeps(events)[i].at <= events[|events| - 1].at
  {
    if events != [] {
      WithoutSweepsOrdered(events[..|events| - 1]);
    }
  }

  lemma SweepFreeWindow(cfg: Config, events: seq<Event>, dimension: string, key: string, start: real, end: real)
    requires Limited(cfg, dimension) && 1.0 <= Burst(cfg, dimension) && Ordered(events) && start <= end
    ensures GrantedBetween(Run(cfg, WithoutSweeps(events)).log, dimension, key, start, end) as real
         <= Burst(cfg, dimension) + Earned(RateFor(cfg, dimension), end - start)
  {
    hide Earned;
    var kept := WithoutSweeps(events);
    var log := Run(cfg, kept).log;
    var calls := CallsTo(log, dimension, key);
    if kept != [] {
      WithoutSweepsOrdered(events);
      RunIsOrdered(cfg, kept);
      CallsToOrdered(log, dimension, key, kept[|kept| - 1].at);
    }
    GrantedIsBetween(log, dimension, key, start, end);
    SweepFreeIsGreedy(cfg, events, dimension, key);
    WindowBound(Burst(cfg, dimension), RateFor(cfg, dimension), Times(calls), start, end);
  }

  // ---------------------------------------------------------------------------------------------
  // One dimension at a time
  // ---------------------------------------------------------------------------------------------

  /** The configuration that limits this dimension alone, with the same rate. */
  function LimitsOnly(cfg: Config, dimension: string): Config {
    cfg.(perAgent := if dimension == DIMENSION_AGENT then cfg.perAgent else 0.0,
         perGroup := if dimension == DIMENSION_GROUP then cfg.perGroup else 0.0,
         perTag := if dimension == DIMENSION_TAG then cfg.perTag else 0.0)
  }

  lemma SameRate(cfg: Config, dimension: string)
    requires Rated(dimension)
    ensures RateFor(LimitsOnly(cfg, dimension), dimension) == RateFor(cfg, dimension)
    ensures Burst(LimitsOnly(cfg, dimension), dimension) == Burst(cfg, dimension)
  {
  }

  lemma LimitsOnlyIsSafe(cfg: Config, dimension: string)
    requires Limited(cfg, dimension) && SafeFor(cfg, dimension)
    ensures Limited(LimitsOnly(cfg, dimension), dimension) && SweepSafe(LimitsOnly(cfg, dimension))
  {
  }

  /** Nothing but the requests for one key, and sweeps. */
  ghost predicate ConcernsOnly(events: seq<Event>, dimension: string, key: string) {
    forall i :: 0 <= i < |events| ==>
      events[i].Swept? || (events[i].dimension == dimension && events[i].key == key)
  }

  lemma {:induction false} OnlyConcerns(events: seq<Event>, dimension: string, key: string)
    requires Ordered(events)
    ensures ConcernsOnly(Only(events, dimension, key), dimension, key)
    ensures Ordered(Only(events, dimension, key))
    ensures forall i :: 0 <= i < |Only(events, dimension, key)| ==>
              events != [] && Only(events, dimension, key)[i].at <= events[|events| - 1].at
  {
    if events != [] {
      OnlyConcerns(events[..|events| - 1], dimension, key);
    }
  }

  lemma {:induction false} OtherRatesDoNotMatter(cfg: Config, events: seq<Event>, dimension: string, key: string)
    requires Rated(dimension) && ConcernsOnly(events, dimension, key)
    ensures Run(cfg, events) == Run(LimitsOnly(cfg, dimension), events)
  {
    if events != [] {
      var past, last := events[..|events| - 1], events[|events| - 1];
      OtherRatesDoNotMatter(cfg, past, dimension, key);
      SameRate(cfg, dimension);
      assert last.Asked? ==> last.dimension == dimension;
      hide LimitsOnly, RateFor;
      var buckets := Run(cfg, past).buckets;
      assert SweepStep(cfg, buckets, last.at) == SweepStep(LimitsOnly(cfg, dimension), buckets, last.at);
    }
  }

  lemma {:induction false} CallsToTwice(log: seq<Call>, dimension: string, key: string)
    ensures CallsTo(CallsTo(log, dimension, key), dimension, key) == CallsTo(log, dimension, key)
  {
    if log != [] {
      var past, last := log[..|log| - 1], log[|log| - 1];
      CallsToTwice(past, dimension, key);
      CallsToSnoc(CallsTo(past, dimension, key), last, dimension, key);
      assert CallsTo(past, dimension, key) + [] == CallsTo(past, dimension, key);
    }
  }

  /** In any run with any sweeps, a key of a safe dimension gets exactly the answers of the limiter that checks every
      window, whatever the settings of the other dimensions. */
  lemma AnswersAreGreedy(cfg: Config, events: seq<Event>, dimension: string, key: string)
    requires Limited(cfg, dimension) && SafeFor(cfg, dimension) && Ordered(events)
    ensures var calls := CallsTo(Run(cfg, events).log, dimension, key);
            && Grants(calls) == Greedy(Burst(cfg, dimension), RateFor(cfg, dimension), Times(calls))
            && Grants(calls) == Answers(Burst(cfg, dimension), RateFor(cfg, dimension), Times(calls))
  {
    hide Run, SweepSafe, Hides, Greedy, Answers, Only, ConcernsOnly, Grants, Times, CallsTo;
    var own, alone := Only(events, dimension, key), LimitsOnly(cfg, dimension);
    KeySeesOnlyItself(cfg, events, dimension, key);
    OnlyConcerns(events, dimension, key);
    OtherRatesDoNotMatter(cfg, own, dimension, key);
    SameRate(cfg, dimension);
    LimitsOnlyIsSafe(cfg, dimension);
    SweptRunHides(alone, own);
    SweepFreeIsGreedy(alone, own, dimension, key);
    CallsToTwice(Run(cfg, events).log, dimension, key);
  }

  /** In any run with any sweeps, what a key of a safe dimension is granted in any window is at most a burst plus the
      rate times the window's length. */
  lemma GrantsWithinWindow(cfg: Config, events: seq<Event>, dimension: string, key: string, start: real, end: real)
    requires Limited(cfg, dimension) && SafeFor(cfg, dimension) && Ordered(events) && start <= end
    ensures GrantedBetween(Run(cfg, events).log, dimension, key, start, end) as real
         <= Burst(cfg, dimension) + Earned(RateFor(cfg, dimension), end - start)
  {
    hide Earned, Greedy;
    AnswersAreGreedy(cfg, events, dimension, key);
    KeyIsWithinWindow(cfg, events, dimension, key, start, end);
  }

  lemma KeyIsWithinWindow(cfg: Config, events: seq<Event>, dimension: string, key: string, start: real, end: real)
    requires Limited(cfg, dimension) && 1.0 <= Burst(cfg, dimension) && Ordered(events) && start <= end
    requires var calls := CallsTo(Run(cfg, events).log, dimension, key);
             Grants(calls) == Answers(Burst(cfg, dimension), RateFor(cfg, dimension), Times(calls))
    ensures GrantedBetween(Run(cfg, events).log, dimension, key, start, end) as real
         <= Burst(cfg, dimension) + Earned(RateFor(cfg, dimension), end - start)
  {
    hide Earned, Answers, Run;
    var log := Run(cfg, events).log;
    var calls := CallsTo(log, dimension, key);
    if events != [] {
      RunIsOrdered(cfg, events);
      CallsToOrdered(log, dimension, key, events[|events| - 1].at);
    } else {
      NothingAsked(cfg);
    }
    GrantedIsBetween(log, dimension, key, start, end);
    WindowBound(Burst(cfg, dimension), RateFor(cfg, dimension), Times(calls), start, end);
  }

  lemma NothingAsked(cfg: Config)
    ensures Run(cfg, []) == Trace(map[], [])
  {
  }

  // ---------------------------------------------------------------------------------------------
  // Sweeping is invisible only for the safe configurations
  // ---------------------------------------------------------------------------------------------

  /** No run of this configuration can tell whether and when idle buckets are swept. */
  ghost predicate SweepsInvisible(cfg: Config) {
    forall events :: Ordered(events) ==> Run(cfg, events).log == Run(cfg, WithoutSweeps(events)).log
  }

  function Asks(dimension: string, at: real, n: nat): seq<Event> {
    seq(n, _ => Asked(dimension, "", at))
  }

  function Granted(dimension: string, at: real, n: nat): seq<Call> {
    seq(n, _ => Call(dimension, "", at, true))
  }

  lemma {:induction false} BurstIsGranted(cfg: Config, dimension: string, at: real, n: nat)
    requires Limited(cfg, dimension) && n as real <= Burst(cfg, dimension)
    ensures Run(cfg, Asks(dimension, at, n)).log == Granted(dimension, at, n)
    ensures Run(cfg, Asks(dimension, at, n)).buckets ==
            if n == 0 then map[]
            else var burst := Burst(cfg, dimension);
                 map[FullKey(dimension, "") := Bucket(burst - n as real, burst, RateFor(cfg, dimension), at)]
  {
    if n > 0 {
      BurstIsGranted(cfg, dimension, at, n - 1);
      assert Asks(dimension, at, n)[..n - 1] == Asks(dimension, at, n - 1);
      assert Earned(RateFor(cfg, dimension), at - at) == 0.0;
    }
  }

  /** A burst, and one more request as soon as the bucket has a whole token again. */
  function Drain(cfg: Config, dimension: string, at: real): seq<Event>
    requires Limited(cfg, dimension) && 1.0 <= Burst(cfg, dimension)
  {
    Asks(dimension, at, Whole(cfg, dimension)) + [Asked(dimension, "", at + Wait(cfg, dimension))]
  }

  function Whole(cfg: Config, dimension: string): (n: nat)
    requires 1.0 <= Burst(cfg, dimension)
    ensures n as real <= Burst(cfg, dimension) < n as real + 1.0
  {
    Burst(cfg, dimension).Floor
  }

  function Wait(cfg: Config, dimension: string): (wait: real)
    requires Limited(cfg, dimension) && 1.0 <= Burst(cfg, dimension)
    ensures 0.0 <= wait
    ensures Earned(RateFor(cfg, dimension), wait)
         == 1.0 - Burst(cfg, dimension) + Whole(cfg, dimension) as real
  {
    (1.0 - Burst(cfg, dimension) + Whole(cfg, dimension) as real) / RateFor(cfg, dimension)
  }

  lemma DrainIsGranted(cfg: Config, dimension: string, at: real)
    requires Limited(cfg, dimension) && 1.0 <= Burst(cfg, dimension)
    ensures var run := Run(cfg, Drain(cfg, dimension, at));
            var later := at + Wait(cfg, dimension);
            && run.log == Granted(dimension, at, Whole(cfg, dimension)) + Granted(dimension, later, 1)
            && run.buckets.Keys == {FullKey(dimension, "")}
            && run.buckets[FullKey(dimension, "")].lastFill == later
  {
    hide Earned;
    var n, later := Whole(cfg, dimension), at + Wait(cfg, dimension);
    BurstIsGranted(cfg, dimension, at, n);
    RunSnoc(cfg, Asks(dimension, at, n), Asked(dimension, "", later));
    assert later - at == Wait(cfg, dimension);
  }

  /** Once every bucket is gone, a run goes on like a fresh one. */
  lemma {:induction false} RunRestarts(cfg: Config, before: seq<Event>, after: seq<Event>)
    requires Run(cfg, before).buckets == map[]
    ensures Run(cfg, before + after)
         == Trace(Run(cfg, after).buckets, Run(cfg, before).log + Run(cfg, after).log)
  {
    if after == [] {
      assert before + after == before;
    } else {
      var past, last := after[..|after| - 1], after[|after| - 1];
      RunRestarts(cfg, before, past);
      RunSnoc(cfg, before + past, last);
      assert before + after == (before + past) + [last];
    }
  }

  lemma {:induction false} GrantedCount(dimension: string, at: real, n: nat, start: real, end: real)
    requires start <= at <= end
    ensures GrantedBetween(Granted(dimension, at, n), dimension, "", start, end) == n
  {
    if n > 0 {
      GrantedCount(dimension, at, n - 1, start, end);
      assert Granted(dimension, at, n)[..n - 1] == Granted(dimension, at, n - 1);
    }
  }

  lemma {:induction false} GrantedAppend(a: seq<Call>, b: seq<Call>, dimension: string, start: real, end: real)
    ensures GrantedBetween(a + b, dimension, "", start, end)
         == GrantedBetween(a, dimension, "", start, end) + GrantedBetween(b, dimension, "", start, end)
  {
    if b == [] {
      assert a + b == a;
    } else {
      GrantedAppend(a, b[..|b| - 1], dimension, start, end);
      assert (a + b)[..|a + b| - 1] == a + b[..|b| - 1];
    }
  }

  /** A burst worth less than one request: the first is granted all the same, and the next only after a sweep. */
  lemma SmallBurstGrants(cfg: Config, dimension: string, later: real)
    requires Limited(cfg, dimension) && Burst(cfg, dimension) < 1.0 && cfg.cleanupSecs as real < later
    ensures var ask, again := Asked(dimension, "", 0.0), Asked(dimension, "", later);
            && Run(cfg, [ask, Swept(later)] + [again]).log == Granted(dimension, 0.0, 1) + Granted(dimension, later, 1)
            && Run(cfg, [ask] + [again]).log
               == Granted(dimension, 0.0, 1) + [Call(dimension, "", later, false)]
  {
    hide Earned, Burst, RateFor;
    var ask, again := Asked(dimension, "", 0.0), Asked(dimension, "", later);
    assert Run(cfg, []) == Trace(map[], []);
    RunSnoc(cfg, [], ask);
    RunSnoc(cfg, [ask], Swept(later));
    RunSnoc(cfg, [ask, Swept(later)], again);
    RunSnoc(cfg, [ask], again);
    assert [] + [ask] == [ask] && [ask] + [Swept(later)] == [ask, Swept(later)];
    assert Run(cfg, [ask]).buckets.Keys == {FullKey(dimension, "")};
    assert Run(cfg, [ask]).buckets[FullKey(dimension, "")].lastFill == 0.0;
    assert Run(cfg, [ask, Swept(later)]).buckets == map[];
  }

  lemma SmallBurstShows(cfg: Config, dimension: string)
    requires cfg == Normalised(cfg) && Limited(cfg, dimension) && Burst(cfg, dimension) < 1.0
    ensures !SweepsInvisible(cfg)
  {
    hide Run, Limited;
    var later := cfg.cleanupSecs as real + 1.0;
    SmallBurstGrants(cfg, dimension, later);
    var ask, again := Asked(dimension, "", 0.0), Asked(dimension, "", later);
    var events := [ask, Swept(later)] + [again];
    assert WithoutSweeps(events) == [ask] + [again] by {
      assert events[..2] == [ask, Swept(later)] && [ask, Swept(later)][..1] == [ask] && [ask][..0] == [];
      assert WithoutSweeps([ask]) == [ask];
      assert WithoutSweeps([ask, Swept(later)]) == [ask];
    }
    assert Run(cfg, events).log[1].granted;
    assert Ordered(events);
  }

  /** The run that exposes a sweep before the bucket is full: drain it, sweep it, drain it again. */
  function Exposing(cfg: Config, dimension: string, gap: real): seq<Event>
    requires Limited(cfg, dimension) && 1.0 <= Burst(cfg, dimension)
  {
    var sweep := Wait(cfg, dimension) + gap;
    Drain(cfg, dimension, 0.0) + [Swept(sweep)] + Drain(cfg, dimension, sweep)
  }

  lemma DrainCount(cfg: Config, dimension: string, at: real, start: real, end: real)
    requires Limited(cfg, dimension) && 1.0 <= Burst(cfg, dimension)
    requires start <= at && at + Wait(cfg, dimension) <= end
    ensures GrantedBetween(Run(cfg, Drain(cfg, dimension, at)).log, dimension, "", start, end)
         == Whole(cfg, dimension) + 1
  {
    hide Earned, Run;
    var n, later := Whole(cfg, dimension), at + Wait(cfg, dimension);
    DrainIsGranted(cfg, dimension, at);
    GrantedAppend(Granted(dimension, at, n), Granted(dimension, later, 1), dimension, start, end);
    GrantedCount(dimension, at, n, start, end);
    GrantedCount(dimension, later, 1, start, end);
  }

  lemma ExposingIsGranted(cfg: Config, dimension: string, gap: real)
    requires Limited(cfg, dimension) && 1.0 <= Burst(cfg, dimension) && cfg.cleanupSecs as real < gap && 0.0 <= gap
    ensures var end := Wait(cfg, dimension) + gap + Wait(cfg, dimension);
            var run := Run(cfg, Exposing(cfg, dimension, gap));
            && Ordered(Exposing(cfg, dimension, gap))
            && GrantedBetween(run.log, dimension, "", 0.0, end) == 2 * Whole(cfg, dimension) + 2
  {
    hide Earned, Run, Drain;
    var wait := Wait(cfg, dimension);
    var sweep := wait + gap;
    var first, second := Drain(cfg, dimension, 0.0), Drain(cfg, dimension, sweep);
    DrainIsGranted(cfg, dimension, 0.0);
    RunSnoc(cfg, first, Swept(sweep));
    assert Run(cfg, first + [Swept(sweep)]).buckets == map[];
    RunRestarts(cfg, first + [Swept(sweep)], second);
    GrantedAppend(Run(cfg, first).log, Run(cfg, second).log, dimension, 0.0, sweep + wait);
    DrainCount(cfg, dimension, 0.0, 0.0, sweep + wait);
    DrainCount(cfg, dimension, sweep, 0.0, sweep + wait);
    ExposingIsOrdered(cfg, dimension, gap);
  }

  lemma ExposingIsOrdered(cfg: Config, dimension: string, gap: real)
    requires Limited(cfg, dimension) && 1.0 <= Burst(cfg, dimension) && 0.0 <= gap
    ensures Ordered(Exposing(cfg, dimension, gap))
  {
    hide Earned, RateFor;
  }

  lemma ShortPeriodShows(cfg: Config, dimension: string)
    requires cfg == Normalised(cfg) && Limited(cfg, dimension) && 1.0 <= Burst(cfg, dimension)
    requires cfg.cleanupSecs < cfg.burstFactor
    ensures !SweepsInvisible(cfg)
  {
    hide Earned;
    var gap := (cfg.cleanupSecs as real + cfg.burstFactor as real) / 2.0;
    var rate, wait := RateFor(cfg, dimension), Wait(cfg, dimension);
    var events := Exposing(cfg, dimension, gap);
    ExposingIsGranted(cfg, dimension, gap);
    SweepFreeWindow(cfg, events, dimension, "", 0.0, wait + gap + wait);
    EarnedAdds(rate, wait + gap, wait);
    EarnedAdds(rate, wait, gap);
    EarnedAdds(rate, gap, cfg.burstFactor as real - gap);
    EarnedPositive(rate, cfg.burstFactor as real - gap);
    EarnedIsBurst(cfg, dimension);
  }

  lemma EarnedAdds(rate: real, x: real, y: real)
    ensures Earned(rate, x + y) == Earned(rate, x) + Earned(rate, y)
  {
  }

  lemma EarnedPositive(rate: real, x: real)
    requires 0.0 < rate && 0.0 < x
    ensures 0.0 < Earned(rate, x)
  {
  }

  lemma EarnedIsBurst(cfg: Config, dimension: string)
    ensures Earned(RateFor(cfg, dimension), cfg.burstFactor as real) == Burst(cfg, dimension)
  {
  }

  /** For a configuration with the defaults filled in: sweeping never changes an answer of any run, exactly when every
      limited dimension's burst is worth a request and the cleanup period is no shorter than the burst factor. */
  lemma SweepingIsInvisible(cfg: Config)
    requires cfg == Normalised(cfg)
    ensures SweepsInvisible(cfg) <==> SweepSafe(cfg)
  {
    if SweepSafe(cfg) {
      forall events | Ordered(events) ensures Run(cfg, events).log == Run(cfg, WithoutSweeps(events)).log {
        SweptRunHides(cfg, events);
      }
    } else {
      var dimension :| Limited(cfg, dimension) && !SafeFor(cfg, dimension);
      if Burst(cfg, dimension) < 1.0 {
        SmallBurstShows(cfg, dimension);
      } else {
        ShortPeriodShows(cfg, dimension);
      }
    }
  }

  // ---------------------------------------------------------------------------------------------
  // The bound and the exactness hold only for the safe settings
  // ---------------------------------------------------------------------------------------------

  /** No run grants a key of this dimension more than a burst plus the rate times the length, in any window. */
  ghost predicate KeepsItsRate(cfg: Config, dimension: string) {
    forall events, key, start, end :: Ordered(events) && start <= end ==>
      GrantedBetween(Run(cfg, events).log, dimension, key, start, end) as real
      <= Burst(cfg, dimension) + Earned(RateFor(cfg, dimension), end - start)
  }

  /** In every run, the keys of this dimension get the answers of the limiter that checks every window. */
  ghost predicate ChecksEveryWindow(cfg: Config, dimension: string) {
    forall events, key :: Ordered(events) ==>
      var calls := CallsTo(Run(cfg, events).log, dimension, key);
      Grants(calls) == Greedy(Burst(cfg, dimension), RateFor(cfg, dimension), Times(calls))
  }

  lemma FirstIsGranted(cfg: Config, dimension: string)
    requires Limited(cfg, dimension)
    ensures Run(cfg, [Asked(dimension, "", 0.0)]).log == [Call(dimension, "", 0.0, true)]
  {
    NothingAsked(cfg);
    RunSnoc(cfg, [], Asked(dimension, "", 0.0));
    assert [] + [Asked(dimension, "", 0.0)] == [Asked(dimension, "", 0.0)];
  }

  /** Below a burst of one, the first request alone breaks the bound. */
  lemma SmallBurstBreaks(cfg: Config, dimension: string)
    requires Limited(cfg, dimension) && Burst(cfg, dimension) < 1.0
    ensures !KeepsItsRate(cfg, dimension) && !ChecksEveryWindow(cfg, dimension)
  {
    hide Run, Burst, RateFor;
    var events, log := [Asked(dimension, "", 0.0)], [Call(dimension, "", 0.0, true)];
    FirstIsGranted(cfg, dimension);
    assert log[..0] == [] && GrantedBetween(log, dimension, "", 0.0, 0.0) == 1;
    assert CallsTo(log, dimension, "") == log;
    EarnedAdds(RateFor(cfg, dimension), 0.0, 0.0);
    assert Grants(log)[0];
    assert Times(log)[..0] == [];
    assert !Greedy(Burst(cfg, dimension), RateFor(cfg, dimension), Times(log))[0];
    assert Ordered(events) && Run(cfg, events).log == log;
  }

  /** With a cleanup period shorter than the burst factor, draining, sweeping and draining again breaks the bound. */
  lemma ShortPeriodBreaks(cfg: Config, dimension: string)
    requires cfg == Normalised(cfg) && Limited(cfg, dimension) && 1.0 <= Burst(cfg, dimension)
    requires cfg.cleanupSecs < cfg.burstFactor
    ensures !KeepsItsRate(cfg, dimension)
  {
    hide Earned, Run, Exposing;
    var gap := (cfg.cleanupSecs as real + cfg.burstFactor as real) / 2.0;
    var rate, wait := RateFor(cfg, dimension), Wait(cfg, dimension);
    var end := wait + gap + wait;
    ExposingIsGranted(cfg, dimension, gap);
    EarnedAdds(rate, wait + gap, wait);
    EarnedAdds(rate, wait, gap);
    EarnedAdds(rate, gap, cfg.burstFactor as real - gap);
    EarnedPositive(rate, cfg.burstFactor as real - gap);
    EarnedIsBurst(cfg, dimension);
    assert !(GrantedBetween(Run(cfg, Exposing(cfg, dimension, gap)).log, dimension, "", 0.0, end) as real
             <= Burst(cfg, dimension) + Earned(rate, end - 0.0));
  }

  /** A limited dimension keeps its rate in every window of every run exactly when its settings are safe. */
  lemma KeepsItsRateIff(cfg: Config, dimension: string)
    requires cfg == Normalised(cfg) && Limited(cfg, dimension)
    ensures KeepsItsRate(cfg, dimension) <==> SafeFor(cfg, dimension)
  {
    hide Earned, Run, Burst, RateFor, Limited;
    if SafeFor(cfg, dimension) {
      forall events, key, start, end | Ordered(events) && start <= end
        ensures GrantedBetween(Run(cfg, events).log, dimension, key, start, end) as real
             <= Burst(cfg, dimension) + Earned(RateFor(cfg, dimension), end - start)
      {
        GrantsWithinWindow(cfg, events, dimension, key, start, end);
      }
    } else if Burst(cfg, dimension) < 1.0 {
      SmallBurstBreaks(cfg, dimension);
    } else {
      ShortPeriodBreaks(cfg, dimension);
    }
  }

  /** A limited dimension answers like the limiter that checks every window, in every run, exactly when its settings are
      safe. */
  lemma ChecksEveryWindowIff(cfg: Config, dimension: string)
    requires cfg == Normalised(cfg) && Limited(cfg, dimension)
    ensures ChecksEveryWindow(cfg, dimension) <==> SafeFor(cfg, dimension)
  {
    hide Earned, Run, Burst, RateFor, Limited, Greedy, Answers;
    if SafeFor(cfg, dimension) {
      forall events, key | Ordered(events)
        ensures var calls := CallsTo(Run(cfg, events).log, dimension, key);
                Grants(calls) == Greedy(Burst(cfg, dimension), RateFor(cfg, dimension), Times(calls))
      {
        AnswersAreGreedy(cfg, events, dimension, key);
      }
    } else if Burst(cfg, dimension) < 1.0 {
      SmallBurstBreaks(cfg, dimension);
    } else {
      if ChecksEveryWindow(cfg, dimension) {
        forall events, key, start, end | Ordered(events) && start <= end
          ensures GrantedBetween(Run(cfg, events).log, dimension, key, start, end) as real
               <= Burst(cfg, dimension) + Earned(RateFor(cfg, dimension), end - start)
        {
          var calls := CallsTo(Run(cfg, events).log, dimension, key);
          BucketAgrees(Burst(cfg, dimension), RateFor(cfg, dimension), Times(calls));
          KeyIsWithinWindow(cfg, events, dimension, key, start, end);
        }
      }
      ShortPeriodBreaks(cfg, dimension);
    }
  }
}
