/**
  The publish gate: three rate-limit checks in front of the message store.

  The limiter's lock covers a single check, so publish calls interleave between their checks. A publish call is
  therefore a state machine of its own, and the theorems hold for every interleaving of any number of calls, sweeps
  included, whether or not the calls finish.
 */
module Gate {
  import opened Wrappers
  import opened Text
  import opened Envelopes
  import opened TokenBucket
  import opened RateLimit
  import L = Limiter

  const GROUP_PREFIX := "group:"

  function AgentKey(agent: string): string { "agent:" + agent }

  function GroupKey(group: string): string { "group:" + group }

  function TagKey(tag: string): string { "tag:" + tag }

  /** The key that an envelope is charged to in a dimension. */
  function ChargedKey(env: Envelope, dimension: string): string {
    if dimension == DIMENSION_AGENT then AgentKey(env.from)
    else if dimension == DIMENSION_GROUP then GroupKey(TrimPrefix(env.to, GROUP_PREFIX))
    else TagKey(EffectiveTag(env))
  }

  /** Where a publish call stands: before a check, before the store, or finished. */
  datatype Stage = Checking(dimension: string) | Storing | Persisted | Refused(dimension: string)

  /** A publish call, with the times at which its checks passed. */
  datatype Publish = Publish(env: Envelope, stage: Stage, passed: map<string, real>)

  type Counters = map<(string, string), nat>

  function Count(counters: Counters, series: (string, string)): nat {
    if series in counters then counters[series] else 0
  }

  /** What the limiter has seen, every publish call so far, and the refusal counters. */
  datatype GateState = GateState(events: seq<Event>, calls: seq<Publish>, refusals: Counters)

  datatype Move =
    | Arrive(env: Envelope)
    | Advance(call: nat, now: real)
    | Sweep(now: real)

  /** The stage after passing the check of a dimension; only messages to a group have a group check. */
  function StageAfter(env: Envelope, dimension: string): Stage {
    if dimension == DIMENSION_AGENT then
      if HasPrefix(env.to, GROUP_PREFIX) then Checking(DIMENSION_GROUP) else Checking(DIMENSION_TAG)
    else if dimension == DIMENSION_GROUP then Checking(DIMENSION_TAG)
    else Storing
  }

  /** One check: ask the limiter, then go on or be refused and counted. */
  function Check(cfg: Config, g: GateState, call: Publish, dimension: string, now: real): (GateState, Publish) {
    var key := ChargedKey(call.env, dimension);
    var granted := AllowStep(cfg, Run(cfg, g.events).buckets, dimension, key, now).1;
    var asked := g.(events := g.events + [Asked(dimension, key, now)]);
    if granted then
      (asked, call.(stage := StageAfter(call.env, dimension), passed := call.passed[dimension := now]))
    else
      (asked.(refusals := g.refusals[(dimension, key) := Count(g.refusals, (dimension, key)) + 1]),
       call.(stage := Refused(dimension)))
  }

  function Next(cfg: Config, g: GateState, move: Move): (after: GateState)
    ensures |after.calls| == |g.calls| + (if move.Arrive? then 1 else 0)
  {
    match move
    case Arrive(env) => g.(calls := g.calls + [Publish(env, Checking(DIMENSION_AGENT), map[])])
    case Sweep(now) => g.(events := g.events + [Swept(now)])
    case Advance(i, now) =>
      if i >= |g.calls| then g
      else
        var call := g.calls[i];
        match call.stage
        case Checking(dimension) =>
          var (after, moved) := Check(cfg, g, call, dimension, now);
          after.(calls := g.calls[i := moved])
        case Storing => g.(calls := g.calls[i := call.(stage := Persisted)])
        case Persisted => g
        case Refused(_) => g
  }

  function After(cfg: Config, moves: seq<Move>): GateState {
    if moves == [] then GateState([], [], map[])
    else Next(cfg, After(cfg, moves[..|moves| - 1]), moves[|moves| - 1])
  }

  // ---------------------------------------------------------------------------------------------
  // Counting calls
  // ---------------------------------------------------------------------------------------------

  function HowMany(calls: seq<Publish>, p: Publish -> bool): nat {
    if calls == [] then 0
    else HowMany(calls[..|calls| - 1], p) + (if p(calls[|calls| - 1]) then 1 else 0)
  }

  lemma {:induction false} HowManyUpdate(calls: seq<Publish>, i: nat, call: Publish, p: Publish -> bool)
    requires i < |calls|
    ensures HowMany(calls[i := call], p)
         == HowMany(calls, p) - (if p(calls[i]) then 1 else 0) + (if p(call) then 1 else 0)
  {
    var last := |calls| - 1;
    if i == last {
      assert calls[i := call][..last] == calls[..last];
    } else {
      HowManyUpdate(calls[..last], i, call, p);
      assert calls[i := call][..last] == calls[..last][i := call];
    }
  }

  lemma HowManySnoc(calls: seq<Publish>, call: Publish, p: Publish -> bool)
    ensures HowMany(calls + [call], p) == HowMany(calls, p) + (if p(call) then 1 else 0)
  {
  }

  lemma {:induction false} HowManyWeaker(calls: seq<Publish>, p: Publish -> bool, q: Publish -> bool)
    requires forall i :: 0 <= i < |calls| && p(calls[i]) ==> q(calls[i])
    ensures HowMany(calls, p) <= HowMany(calls, q)
  {
    if calls != [] {
      HowManyWeaker(calls[..|calls| - 1], p, q);
    }
  }

  // ---------------------------------------------------------------------------------------------
  // Conservation
  // ---------------------------------------------------------------------------------------------

  /** The call passed the check of a dimension, charged to `key`, within a window. */
  function PassedBetween(dimension: string, key: string, start: real, end: real): Publish -> bool {
    (c: Publish) =>
      dimension in c.passed && ChargedKey(c.env, dimension) == key && start <= c.passed[dimension] <= end
  }

  function RefusedFor(dimension: string, key: string): Publish -> bool {
    (c: Publish) => c.stage == Refused(dimension) && ChargedKey(c.env, dimension) == key
  }

  /** How far each call has come shows in the checks it passed, and nowhere else. */
  ghost predicate Consistent(c: Publish) {
    var grouped := HasPrefix(c.env.to, GROUP_PREFIX);
    match c.stage
    case Checking(d) =>
      || (d == DIMENSION_AGENT && c.passed.Keys == {})
      || (d == DIMENSION_GROUP && grouped && c.passed.Keys == {DIMENSION_AGENT})
      || (d == DIMENSION_TAG && c.passed.Keys == Passes(grouped) - {DIMENSION_TAG})
    case Storing => c.passed.Keys == Passes(grouped)
    case Persisted => c.passed.Keys == Passes(grouped)
    case Refused(d) =>
      || (d == DIMENSION_AGENT && c.passed.Keys == {})
      || (d == DIMENSION_GROUP && grouped && c.passed.Keys == {DIMENSION_AGENT})
      || (d == DIMENSION_TAG && c.passed.Keys == Passes(grouped) - {DIMENSION_TAG})
  }

  /** The checks that a message which reaches the store has passed. */
  function Passes(grouped: bool): set<string> {
    {DIMENSION_AGENT, DIMENSION_TAG} + (if grouped then {DIMENSION_GROUP} else {})
  }

  lemma {:induction false} CallsAreConsistent(cfg: Config, moves: seq<Move>)
    ensures forall i :: 0 <= i < |After(cfg, moves).calls| ==> Consistent(After(cfg, moves).calls[i])
  {
    if moves != [] {
      CallsAreConsistent(cfg, moves[..|moves| - 1]);
      CallStaysConsistent(cfg, After(cfg, moves[..|moves| - 1]), moves[|moves| - 1]);
    }
  }

  lemma CallStaysConsistent(cfg: Config, g: GateState, move: Move)
    requires forall i :: 0 <= i < |g.calls| ==> Consistent(g.calls[i])
    ensures forall i :: 0 <= i < |Next(cfg, g, move).calls| ==> Consistent(Next(cfg, g, move).calls[i])
  {
  }

  /** Every grant of the limiter is one call past that check, and every counted refusal is one refused call. */
  ghost predicate Conserved(cfg: Config, g: GateState, dimension: string, key: string, start: real, end: real) {
    && GrantedBetween(Run(cfg, g.events).log, dimension, key, start, end)
       == HowMany(g.calls, PassedBetween(dimension, key, start, end))
    && Count(g.refusals, (dimension, key)) == HowMany(g.calls, RefusedFor(dimension, key))
  }

  lemma GrantedSnoc(log: seq<Call>, call: Call, dimension: string, key: string, start: real, end: real)
    ensures GrantedBetween(log + [call], dimension, key, start, end)
         == GrantedBetween(log, dimension, key, start, end)
            + (if call.dimension == dimension && call.key == key && call.granted && start <= call.at <= end then 1 else 0)
  {
  }

  lemma CheckConserves(cfg: Config, g: GateState, i: nat, now: real,
                       dimension: string, key: string, start: real, end: real)
    requires i < |g.calls| && g.calls[i].stage.Checking? && Consistent(g.calls[i])
    requires Conserved(cfg, g, dimension, key, start, end)
    ensures Conserved(cfg, Next(cfg, g, Advance(i, now)), dimension, key, start, end)
  {
    hide Run, AllowStep, HowMany, GrantedBetween;
    var call := g.calls[i];
    var d := call.stage.dimension;
    var asked := Asked(d, ChargedKey(call.env, d), now);
    RunSnoc(cfg, g.events, asked);
    var before := Run(cfg, g.events);
    var granted := AllowStep(cfg, before.buckets, d, asked.key, now).1;
    GrantedSnoc(before.log, Call(d, asked.key, now, granted), dimension, key, start, end);
    var moved := Check(cfg, g, call, d, now).1;
    HowManyUpdate(g.calls, i, moved, PassedBetween(dimension, key, start, end));
    HowManyUpdate(g.calls, i, moved, RefusedFor(dimension, key));
  }

  lemma {:induction false} GateConserves(cfg: Config, moves: seq<Move>, dimension: string, key: string,
                                         start: real, end: real)
    ensures Conserved(cfg, After(cfg, moves), dimension, key, start, end)
  {
    if moves != [] {
      var past, move := moves[..|moves| - 1], moves[|moves| - 1];
      GateConserves(cfg, past, dimension, key, start, end);
      CallsAreConsistent(cfg, past);
      var g := After(cfg, past);
      var passed, refused := PassedBetween(dimension, key, start, end), RefusedFor(dimension, key);
      match move {
        case Arrive(env) =>
          HowManySnoc(g.calls, Publish(env, Checking(DIMENSION_AGENT), map[]), passed);
          HowManySnoc(g.calls, Publish(env, Checking(DIMENSION_AGENT), map[]), refused);
        case Sweep(now) =>
          RunSnoc(cfg, g.events, Swept(now));
        case Advance(i, now) =>
          if i < |g.calls| {
            if g.calls[i].stage.Checking? {
              CheckConserves(cfg, g, i, now, dimension, key, start, end);
            } else if g.calls[i].stage.Storing? {
              HowManyUpdate(g.calls, i, g.calls[i].(stage := Persisted), passed);
              HowManyUpdate(g.calls, i, g.calls[i].(stage := Persisted), refused);
            }
          }
      }
    }
  }

  /** The messages charged to one key of a dimension that reached the store, by the time they passed that check. */
  function PersistedBetween(dimension: string, key: string, start: real, end: real): Publish -> bool {
    (c: Publish) => c.stage.Persisted? && PassedBetween(dimension, key, start, end)(c)
  }

  /** What one sender, one group or one tag gets into the store is within the limit of its dimension, in every window
      and under every interleaving. */
  lemma PersistedWithinWindow(cfg: Config, moves: seq<Move>, dimension: string, key: string, start: real, end: real)
    requires Limited(cfg, dimension) && SafeFor(cfg, dimension) && start <= end
    requires Ordered(After(cfg, moves).events)
    ensures HowMany(After(cfg, moves).calls, PersistedBetween(dimension, key, start, end)) as real
         <= Burst(cfg, dimension) + Earned(RateFor(cfg, dimension), end - start)
  {
    hide Earned;
    var g := After(cfg, moves);
    GateConserves(cfg, moves, dimension, key, start, end);
    HowManyWeaker(g.calls, PersistedBetween(dimension, key, start, end), PassedBetween(dimension, key, start, end));
    GrantsWithinWindow(cfg, g.events, dimension, key, start, end);
  }

  predicate InFlight(c: Publish) {
    c.stage.Checking? || c.stage.Storing?
  }

  function PassedDimension(dimension: string): Publish -> bool {
    (c: Publish) => dimension in c.passed
  }

  function RefusedBy(dimension: string): Publish -> bool {
    (c: Publish) => c.stage == Refused(dimension)
  }

  function ReachedStore(): Publish -> bool {
    (c: Publish) => c.stage.Persisted?
  }

  function StillInFlight(): Publish -> bool {
    (c: Publish) => InFlight(c)
  }

  /** The call is in flight and past the check of a dimension. */
  function InFlightPast(dimension: string): Publish -> bool {
    (c: Publish) => InFlight(c) && dimension in c.passed
  }

  /** Only messages to a group are checked for one, so a message may reach the store without that check. */
  function StoredGrouped(): Publish -> bool {
    (c: Publish) => c.stage.Persisted? && HasPrefix(c.env.to, GROUP_PREFIX)
  }

  function RefusedGrouped(): Publish -> bool {
    (c: Publish) => c.stage == Refused(DIMENSION_TAG) && HasPrefix(c.env.to, GROUP_PREFIX)
  }

  lemma {:induction false} StagesCount(calls: seq<Publish>)
    requires forall i :: 0 <= i < |calls| ==> Consistent(calls[i])
    ensures |calls| == HowMany(calls, ReachedStore()) + HowMany(calls, RefusedBy(DIMENSION_AGENT))
                       + HowMany(calls, RefusedBy(DIMENSION_GROUP)) + HowMany(calls, RefusedBy(DIMENSION_TAG))
                       + HowMany(calls, StillInFlight())
    ensures HowMany(calls, PassedDimension(DIMENSION_AGENT))
         == HowMany(calls, ReachedStore())
            + HowMany(calls, RefusedBy(DIMENSION_GROUP)) + HowMany(calls, RefusedBy(DIMENSION_TAG))
            + HowMany(calls, InFlightPast(DIMENSION_AGENT))
    ensures HowMany(calls, PassedDimension(DIMENSION_GROUP))
         == HowMany(calls, StoredGrouped()) + HowMany(calls, RefusedGrouped())
            + HowMany(calls, InFlightPast(DIMENSION_GROUP))
    ensures HowMany(calls, PassedDimension(DIMENSION_TAG))
         == HowMany(calls, ReachedStore()) + HowMany(calls, InFlightPast(DIMENSION_TAG))
  {
    if calls != [] {
      StagesCount(calls[..|calls| - 1]);
    }
  }

  /** How many grants of a dimension the limiter gave, over all keys. */
  function GrantsOf(log: seq<Call>, dimension: string): nat {
    if log == [] then 0
    else
      var last := log[|log| - 1];
      GrantsOf(log[..|log| - 1], dimension) + (if last.dimension == dimension && last.granted then 1 else 0)
  }

  lemma GrantsOfSnoc(log: seq<Call>, call: Call, dimension: string)
    ensures GrantsOf(log + [call], dimension)
         == GrantsOf(log, dimension) + (if call.dimension == dimension && call.granted then 1 else 0)
  {
  }

  lemma CheckGrants(cfg: Config, g: GateState, i: nat, now: real, dimension: string)
    requires i < |g.calls| && g.calls[i].stage.Checking? && Consistent(g.calls[i])
    requires GrantsOf(Run(cfg, g.events).log, dimension) == HowMany(g.calls, PassedDimension(dimension))
    ensures var after := Next(cfg, g, Advance(i, now));
            GrantsOf(Run(cfg, after.events).log, dimension) == HowMany(after.calls, PassedDimension(dimension))
  {
    hide Run, AllowStep, HowMany, GrantsOf;
    var call := g.calls[i];
    var d := call.stage.dimension;
    var key := ChargedKey(call.env, d);
    var before := Run(cfg, g.events);
    RunSnoc(cfg, g.events, Asked(d, key, now));
    GrantsOfSnoc(before.log, Call(d, key, now, AllowStep(cfg, before.buckets, d, key, now).1), dimension);
    HowManyUpdate(g.calls, i, Check(cfg, g, call, d, now).1, PassedDimension(dimension));
  }

  lemma {:induction false} GrantsArePasses(cfg: Config, moves: seq<Move>, dimension: string)
    ensures var g := After(cfg, moves);
            GrantsOf(Run(cfg, g.events).log, dimension) == HowMany(g.calls, PassedDimension(dimension))
  {
    if moves != [] {
      var past, move := moves[..|moves| - 1], moves[|moves| - 1];
      GrantsArePasses(cfg, past, dimension);
      CallsAreConsistent(cfg, past);
      var g := After(cfg, past);
      match move {
        case Arrive(env) =>
          HowManySnoc(g.calls, Publish(env, Checking(DIMENSION_AGENT), map[]), PassedDimension(dimension));
        case Sweep(now) =>
          RunSnoc(cfg, g.events, Swept(now));
        case Advance(i, now) =>
          if i < |g.calls| {
            if g.calls[i].stage.Checking? {
              CheckGrants(cfg, g, i, now, dimension);
            } else if g.calls[i].stage.Storing? {
              HowManyUpdate(g.calls, i, g.calls[i].(stage := Persisted), PassedDimension(dimension));
            }
          }
      }
    }
  }

  /** At every moment of every run, finished or not: a publish call is stored, refused by one check, or in flight; the
      agent grants are the stored messages, the later refusals, and the calls in flight past that check; the group
      grants are the same for the messages to groups; the tag grants are the stored messages and the calls on their way
      to the store. */
  lemma GateBalances(cfg: Config, moves: seq<Move>)
    ensures var calls := After(cfg, moves).calls;
            var log := Run(cfg, After(cfg, moves).events).log;
            var stored := HowMany(calls, ReachedStore());
            && |calls| == stored + HowMany(calls, RefusedBy(DIMENSION_AGENT))
                          + HowMany(calls, RefusedBy(DIMENSION_GROUP)) + HowMany(calls, RefusedBy(DIMENSION_TAG))
                          + HowMany(calls, StillInFlight())
            && GrantsOf(log, DIMENSION_AGENT)
               == stored + HowMany(calls, RefusedBy(DIMENSION_GROUP)) + HowMany(calls, RefusedBy(DIMENSION_TAG))
                  + HowMany(calls, InFlightPast(DIMENSION_AGENT))
            && GrantsOf(log, DIMENSION_GROUP)
               == HowMany(calls, StoredGrouped()) + HowMany(calls, RefusedGrouped())
                  + HowMany(calls, InFlightPast(DIMENSION_GROUP))
            && GrantsOf(log, DIMENSION_TAG) == stored + HowMany(calls, InFlightPast(DIMENSION_TAG))
  {
    CallsAreConsistent(cfg, moves);
    StagesCount(After(cfg, moves).calls);
    GrantsArePasses(cfg, moves, DIMENSION_AGENT);
    GrantsArePasses(cfg, moves, DIMENSION_GROUP);
    GrantsArePasses(cfg, moves, DIMENSION_TAG);
  }

  /** Once no call is in flight, the calls are the stored ones and the refused ones, agent grants are the stored
      messages and the later refusals, and tag grants are exactly the stored messages. */
  lemma SettledGateBalances(cfg: Config, moves: seq<Move>)
    requires forall i :: 0 <= i < |After(cfg, moves).calls| ==> !InFlight(After(cfg, moves).calls[i])
    ensures var calls := After(cfg, moves).calls;
            var log := Run(cfg, After(cfg, moves).events).log;
            var stored := HowMany(calls, ReachedStore());
            && |calls| == stored + HowMany(calls, RefusedBy(DIMENSION_AGENT))
                          + HowMany(calls, RefusedBy(DIMENSION_GROUP)) + HowMany(calls, RefusedBy(DIMENSION_TAG))
            && GrantsOf(log, DIMENSION_AGENT)
               == stored + HowMany(calls, RefusedBy(DIMENSION_GROUP)) + HowMany(calls, RefusedBy(DIMENSION_TAG))
            && GrantsOf(log, DIMENSION_TAG) == stored
  {
    hide HowMany;
    GateBalances(cfg, moves);
    var calls := After(cfg, moves).calls;
    NoneOf(calls, StillInFlight());
    NoneOf(calls, InFlightPast(DIMENSION_AGENT));
    NoneOf(calls, InFlightPast(DIMENSION_TAG));
  }

  lemma {:induction false} NoneOf(calls: seq<Publish>, p: Publish -> bool)
    requires forall i :: 0 <= i < |calls| ==> !p(calls[i])
    ensures HowMany(calls, p) == 0
  {
    if calls != [] {
      NoneOf(calls[..|calls| - 1], p);
    }
  }

  // ---------------------------------------------------------------------------------------------
  // The publish call as the program runs it
  // ---------------------------------------------------------------------------------------------

  /** The checks of one publish call that nothing interrupts, with the times at which they read the clock. */
  function Checked(cfg: Config, g: GateState, env: Envelope, agentNow: real, groupNow: real, tagNow: real)
    : (after: GateState)
    ensures |after.calls| == |g.calls| + 1
  {
    hide Check, Run;
    var i := |g.calls|;
    var checked := Next(cfg, Next(cfg, g, Arrive(env)), Advance(i, agentNow));
    var grouped := if checked.calls[i].stage == Checking(DIMENSION_GROUP)
                   then Next(cfg, checked, Advance(i, groupNow)) else checked;
    Next(cfg, grouped, Advance(i, tagNow))
  }

  /** One publish call that nothing interrupts: its checks, and then the store, if it gets there. */
  function Uninterrupted(cfg: Config, g: GateState, env: Envelope,
                         agentNow: real, groupNow: real, tagNow: real): (after: GateState)
    ensures |after.calls| == |g.calls| + 1
  {
    Next(cfg, Checked(cfg, g, env, agentNow, groupNow, tagNow), Advance(|g.calls|, tagNow))
  }

  /** One check: the limiter has answered for the sender, the group or the tag of the envelope, and a refusal of them is
      counted when there are metrics. */
  ghost predicate Charges(env: Envelope, dimension: string, now: real, granted: bool, log: seq<Call>, log': seq<Call>,
                          refusals: Counters, refusals': Counters, metered: bool)
  {
    var key := match dimension
               case "agent" => "agent:" + env.from
               case "group" => "group:" + TrimPrefix(env.to, "group:")
               case _ => "tag:" + EffectiveTag(env);
    && log' == log + [Call(dimension, key, now, granted)]
    && refusals' == if granted || !metered then refusals
                    else refusals[(dimension, key) := Count(refusals, (dimension, key)) + 1]
  }

  lemma ChargesByKey(env: Envelope, dimension: string, now: real, granted: bool, log: seq<Call>, refusals: Counters,
                     metered: bool)
    ensures var key := ChargedKey(env, dimension);
            Charges(env, dimension, now, granted, log, log + [Call(dimension, key, now, granted)], refusals,
                    if granted || !metered then refusals
                    else refusals[(dimension, key) := Count(refusals, (dimension, key)) + 1], metered)
  {
    hide EffectiveTag, TrimPrefix, Count;
  }

  datatype PublishError = RateLimited | StoreFailed(reason: string)

  class PublishGate {
    const limiter: L.Limiter?
    const metered: bool
    var rateLimited: Counters
    /** The messages handed to the store, whatever the store made of them. */
    var handedOver: seq<Envelope>
    ghost var state: GateState

    ghost predicate Valid()
      reads this, limiter, if limiter == null then {} else limiter.buckets.Values
    {
      && (limiter != null ==> limiter.Valid() && limiter.history == state.events)
      && rateLimited == (if metered then state.refusals else map[])
    }

    constructor (limiter: L.Limiter?, metered: bool)
      requires limiter != null ==> limiter.Valid() && limiter.history == []
      ensures Valid() && this.limiter == limiter && this.metered == metered
      ensures handedOver == [] && state == GateState([], [], map[])
    {
      this.limiter := limiter;
      this.metered := metered;
      this.rateLimited := map[];
      this.handedOver := [];
      this.state := GateState([], [], map[]);
    }

    /** Ask for one dimension; a refusal is counted when there are metrics. */
    method AskLimiter(env: Envelope, dimension: string, now: real) returns (granted: bool)
      requires Valid() && limiter != null
      requires state.calls != [] && state.calls[|state.calls| - 1].stage == Checking(dimension)
      requires state.calls[|state.calls| - 1].env == env
      modifies this`rateLimited, this`state, limiter`buckets, limiter`history, limiter.buckets.Values
      ensures Valid() && fresh(limiter.buckets.Values - old(limiter.buckets.Values))
      ensures state == Next(limiter.cfg, old(state), Advance(|old(state).calls| - 1, now))
      ensures |state.calls| == |old(state).calls| && state.calls[|state.calls| - 1].env == env
      ensures granted <==> state.calls[|state.calls| - 1].stage == StageAfter(env, dimension)
      ensures !granted ==> state.calls[|state.calls| - 1].stage == Refused(dimension)
      ensures Charges(env, dimension, now, granted, old(limiter.Log()), limiter.Log(), old(rateLimited), rateLimited,
                      metered)
    {
      hide Run, AllowStep, SweepStep, ChargedKey, Charges;
      var key := ChargedKey(env, dimension);
      granted := limiter.Allow(dimension, key, now);
      ChargesByKey(env, dimension, now, granted, old(limiter.Log()), rateLimited, metered);
      if !granted && metered {
        rateLimited := rateLimited[(dimension, key) := Count(rateLimited, (dimension, key)) + 1];
      }
      state := Next(limiter.cfg, state, Advance(|state.calls| - 1, now));
    }

    /** Up to three checks, each after the one before it has passed. */
    method RunChecks(env: Envelope, agentNow: real, groupNow: real, tagNow: real) returns (passed: bool)
      requires Valid() && limiter != null
      modifies this`rateLimited, this`state, limiter, limiter.buckets.Values
      ensures Valid()
      ensures state == Checked(limiter.cfg, old(state), env, agentNow, groupNow, tagNow)
      ensures var stage := state.calls[|state.calls| - 1].stage;
              if passed then stage.Storing? else stage.Refused?
    {
      hide Check, Run, Charges, ChargedKey, AllowStep, SweepStep;
      state := Next(limiter.cfg, state, Arrive(env));
      passed := AskLimiter(env, DIMENSION_AGENT, agentNow);
      if !passed {
        return;
      }
      if HasPrefix(env.to, GROUP_PREFIX) {
        passed := AskLimiter(env, DIMENSION_GROUP, groupNow);
        if !passed {
          return;
        }
      }
      passed := AskLimiter(env, DIMENSION_TAG, tagNow);
    }

    /** Up to three checks, then the store; `stored` is what the store answers if it is asked. */
    method PublishAndAudit(env: Envelope, agentNow: real, groupNow: real, tagNow: real,
                           stored: Result<string, PublishError>)
      returns (r: Result<string, PublishError>)
      requires Valid()
      modifies this`rateLimited, this`handedOver, this`state,
               if limiter == null then {} else {limiter} + limiter.buckets.Values
      ensures Valid()
      ensures limiter == null ==> state == old(state) && r == stored && handedOver == old(handedOver) + [env]
      ensures limiter != null ==>
                && state == Uninterrupted(limiter.cfg, old(state), env, agentNow, groupNow, tagNow)
                && (var stage := state.calls[|state.calls| - 1].stage;
                    if stage.Persisted? then r == stored && handedOver == old(handedOver) + [env]
                    else stage.Refused? && r == Failure(RateLimited) && handedOver == old(handedOver))
    {
      hide Check, Run, Checked;
      if limiter != null {
        var passed := RunChecks(env, agentNow, groupNow, tagNow);
        state := Next(limiter.cfg, state, Advance(|state.calls| - 1, tagNow));
        if !passed {
          return Failure(RateLimited);
        }
      }
      handedOver := handedOver + [env];
      return stored;
    }
  }
}
