/**
  Whom the publish gate charges: the sender, the group a message is addressed to, and the tag it is routed by.

  The theorems count publish calls by what their envelopes say.
 */
module GateCharges {
  import opened Wrappers
  import opened Text
  import opened Envelopes
  import opened RateLimit
  import opened Gate
  import RateSettings

  /** The envelope is from this agent, is to this group, or is routed by this tag. */
  predicate Concerns(env: Envelope, dimension: string, whom: string) {
    || (dimension == "agent" && env.from == whom)
    || (dimension == "group" && env.to == "group:" + whom)
    || (dimension == "tag" && EffectiveTag(env) == whom)
  }

  lemma ChargedIff(env: Envelope, dimension: string, whom: string)
    requires Rated(dimension) && (dimension == "group" ==> "group:" <= env.to)
    ensures ChargedKey(env, dimension) == dimension + ":" + whom <==> Concerns(env, dimension, whom)
  {
    hide EffectiveTag;
    var key, prefix := ChargedKey(env, dimension), dimension + ":";
    assert key[..|prefix|] == prefix;
    assert (prefix + whom)[|prefix|..] == whom;
    if dimension == "group" {
      assert env.to == "group:" + env.to[6..];
      assert ("group:" + whom)[6..] == whom;
    }
  }

  // ---------------------------------------------------------------------------------------------
  // Which bucket a check asks
  // ---------------------------------------------------------------------------------------------

  /** A check asks the limiter once, for its own dimension, about a key that says whom the envelope concerns. */
  lemma CheckAsksFor(cfg: Config, moves: seq<Move>, i: nat, now: real, whom: string)
    requires i < |After(cfg, moves).calls| && After(cfg, moves).calls[i].stage.Checking?
    ensures var g := After(cfg, moves);
            var g', call := Next(cfg, g, Advance(i, now)), g.calls[i];
            && |g'.events| == |g.events| + 1 && g'.events[..|g.events|] == g.events
            && var asked := g'.events[|g.events|];
               && asked.Asked? && asked.dimension == call.stage.dimension && asked.at == now
               && asked.dimension in {"agent", "group", "tag"}
               && (asked.key == asked.dimension + ":" + whom <==> Concerns(call.env, asked.dimension, whom))
  {
    hide After, Run, AllowStep, Concerns, ChargedKey;
    CallsAreConsistent(cfg, moves);
    assert Consistent(After(cfg, moves).calls[i]);
    ChargedIff(After(cfg, moves).calls[i].env, After(cfg, moves).calls[i].stage.dimension, whom);
  }

  /** Two checks ask the same bucket exactly when both are for the sender and the senders are equal, both are for the
      group and it is the same group, or both are for the tag and the tags are equal. */
  lemma SameBucketIff(cfg: Config, moves: seq<Move>, i: nat, j: nat, now: real, later: real)
    requires i < |After(cfg, moves).calls| && After(cfg, moves).calls[i].stage.Checking?
    requires j < |After(cfg, moves).calls| && After(cfg, moves).calls[j].stage.Checking?
    ensures var g := After(cfg, moves);
            var a, b := Next(cfg, g, Advance(i, now)).events, Next(cfg, g, Advance(j, later)).events;
            var x, y := g.calls[i], g.calls[j];
            && |a| == |b| == |g.events| + 1 && a[|g.events|].Asked? && b[|g.events|].Asked?
            && (FullKey(a[|g.events|].dimension, a[|g.events|].key) == FullKey(b[|g.events|].dimension, b[|g.events|].key)
                <==> x.stage == y.stage && match x.stage.dimension
                                           case "agent" => x.env.from == y.env.from
                                           case "group" => x.env.to == y.env.to
                                           case _ => EffectiveTag(x.env) == EffectiveTag(y.env))
  {
    hide After, Run, AllowStep, ChargedKey, EffectiveTag, Next, FullKey;
    var g := After(cfg, moves);
    var x, y := g.calls[i], g.calls[j];
    var whom := match x.stage.dimension
                case "agent" => x.env.from
                case "group" => x.env.to[if |x.env.to| < 6 then 0 else 6..]
                case _ => EffectiveTag(x.env);
    CheckAsksFor(cfg, moves, i, now, whom);
    CheckAsksFor(cfg, moves, j, later, whom);
    CallsAreConsistent(cfg, moves);
    assert Consistent(x) && Consistent(y);
    var a, b := Next(cfg, g, Advance(i, now)).events[|g.events|], Next(cfg, g, Advance(j, later)).events[|g.events|];
    ToGroup(x);
    assert Concerns(x.env, a.dimension, whom);
    if FullKey(a.dimension, a.key) == FullKey(b.dimension, b.key) {
      FullKeyInjective(a.dimension, a.key, b.dimension, b.key);
    }
  }

  lemma ToGroup(call: Publish)
    requires Consistent(call)
    ensures call.stage == Checking("group") ==> |call.env.to| >= 6 && call.env.to == "group:" + call.env.to[6..]
  {
  }

  // ---------------------------------------------------------------------------------------------
  // The bound
  // ---------------------------------------------------------------------------------------------

  /** The message was stored, concerns them, and passed that check within a window. */
  function StoredBetween(dimension: string, whom: string, start: real, end: real): Publish -> bool {
    (c: Publish) =>
      c.stage.Persisted? && Concerns(c.env, dimension, whom)
      && dimension in c.passed && start <= c.passed[dimension] <= end
  }

  /** A stored message has passed the checks for its sender and its tag, and for its group if it is addressed to one. So
      all of them are counted by the window in which they passed. */
  lemma StoredHavePassed(cfg: Config, moves: seq<Move>, i: nat)
    requires i < |After(cfg, moves).calls| && After(cfg, moves).calls[i].stage.Persisted?
    ensures var call := After(cfg, moves).calls[i];
            "agent" in call.passed && "tag" in call.passed && ("group" in call.passed <==> "group:" <= call.env.to)
  {
    hide After;
    CallsAreConsistent(cfg, moves);
    assert Consistent(After(cfg, moves).calls[i]);
  }

  /** What one sender, one group or one tag gets into the store within any window is at most a burst of its dimension,
      and the dimension's rate times the window's length, however the publish calls interleave. */
  lemma StoredWithinWindow(cfg: Config, moves: seq<Move>, dimension: string, rate: real, whom: string,
                           start: real, end: real)
    requires || (dimension == "agent" && rate == cfg.perAgent)
             || (dimension == "group" && rate == cfg.perGroup)
             || (dimension == "tag" && rate == cfg.perTag)
    requires cfg.enabled && 0.0 < rate && 1.0 <= cfg.burstFactor as real * rate && cfg.burstFactor <= cfg.cleanupSecs
    requires Ordered(After(cfg, moves).events) && start <= end
    ensures HowMany(After(cfg, moves).calls, StoredBetween(dimension, whom, start, end)) as real
         <= cfg.burstFactor as real * rate + rate * (end - start)
  {
    hide After, Concerns, ChargedKey, Run, GrantedBetween, Ordered;
    var g, key := After(cfg, moves), dimension + ":" + whom;
    GateConserves(cfg, moves, dimension, key, start, end);
    forall i | 0 <= i < |g.calls| && StoredBetween(dimension, whom, start, end)(g.calls[i])
      ensures PassedBetween(dimension, key, start, end)(g.calls[i])
    {
      ConcernedIsGrouped(g.calls[i].env, dimension, whom);
      ChargedIff(g.calls[i].env, dimension, whom);
    }
    HowManyWeaker(g.calls, StoredBetween(dimension, whom, start, end), PassedBetween(dimension, key, start, end));
    RateSettings.KeepsItsOwnRate(cfg, g.events, dimension, rate, key, start, end);
  }

  lemma ConcernedIsGrouped(env: Envelope, dimension: string, whom: string)
    requires Concerns(env, dimension, whom)
    ensures dimension == "group" ==> "group:" <= env.to
  {
  }

  // ---------------------------------------------------------------------------------------------
  // The refusals
  // ---------------------------------------------------------------------------------------------

  /** The publish call has come to the check of a dimension and been answered. */
  function CheckedFor(dimension: string, key: string): Publish -> bool {
    (c: Publish) => (dimension in c.passed || c.stage == Refused(dimension)) && ChargedKey(c.env, dimension) == key
  }

  function Denied(calls: seq<Call>): nat {
    if calls == [] then 0 else Denied(calls[..|calls| - 1]) + (if calls[|calls| - 1].granted then 0 else 1)
  }

  lemma {:induction false} DeniedNone(calls: seq<Call>)
    requires forall j :: 0 <= j < |calls| ==> calls[j].granted
    ensures Denied(calls) == 0
  {
    if calls != [] {
      DeniedNone(calls[..|calls| - 1]);
    }
  }

  /** The limiter's calls to a key are the checks that were charged to it, and its denials are the refused ones. */
  ghost predicate Answered(cfg: Config, g: GateState, dimension: string, key: string) {
    var calls := CallsTo(Run(cfg, g.events).log, dimension, key);
    && |calls| == HowMany(g.calls, CheckedFor(dimension, key))
    && Denied(calls) == HowMany(g.calls, RefusedFor(dimension, key))
  }

  lemma CheckIsAnswered(cfg: Config, g: GateState, i: nat, now: real, dimension: string, key: string)
    requires i < |g.calls| && g.calls[i].stage.Checking? && Consistent(g.calls[i])
    requires Answered(cfg, g, dimension, key)
    ensures Answered(cfg, Next(cfg, g, Advance(i, now)), dimension, key)
  {
    hide Run, AllowStep, HowMany, CallsTo, ChargedKey;
    var call := g.calls[i];
    var d := call.stage.dimension;
    var asked := Asked(d, ChargedKey(call.env, d), now);
    RunSnoc(cfg, g.events, asked);
    var before := Run(cfg, g.events);
    var granted := AllowStep(cfg, before.buckets, d, asked.key, now).1;
    var moved, calls := Check(cfg, g, call, d, now).1, CallsTo(before.log, dimension, key);
    CallsToSnoc(before.log, Call(d, asked.key, now, granted), dimension, key);
    assert calls + [] == calls && (calls + [Call(d, asked.key, now, granted)])[..|calls|] == calls;
    HowManyUpdate(g.calls, i, moved, CheckedFor(dimension, key));
    HowManyUpdate(g.calls, i, moved, RefusedFor(dimension, key));
  }

  lemma {:induction false} ChecksAreAnswered(cfg: Config, moves: seq<Move>, dimension: string, key: string)
    ensures Answered(cfg, After(cfg, moves), dimension, key)
  {
    if moves != [] {
      hide ChargedKey;
      var past, move := moves[..|moves| - 1], moves[|moves| - 1];
      ChecksAreAnswered(cfg, past, dimension, key);
      CallsAreConsistent(cfg, past);
      var g := After(cfg, past);
      var checked, refused := CheckedFor(dimension, key), RefusedFor(dimension, key);
      match move {
        case Arrive(env) =>
          HowManySnoc(g.calls, Publish(env, Checking(DIMENSION_AGENT), map[]), checked);
          HowManySnoc(g.calls, Publish(env, Checking(DIMENSION_AGENT), map[]), refused);
        case Sweep(now) =>
          RunSnoc(cfg, g.events, Swept(now));
        case Advance(i, now) =>
          if i < |g.calls| {
            if g.calls[i].stage.Checking? {
              CheckIsAnswered(cfg, g, i, now, dimension, key);
            } else if g.calls[i].stage.Storing? {
              HowManyUpdate(g.calls, i, g.calls[i].(stage := Persisted), checked);
              HowManyUpdate(g.calls, i, g.calls[i].(stage := Persisted), refused);
            }
          }
      }
    }
  }

  /** The publish calls that concern them, whatever became of them. */
  function Concerning(dimension: string, whom: string): Publish -> bool {
    (c: Publish) => Concerns(c.env, dimension, whom)
  }

  function RefusedThem(dimension: string, whom: string): Publish -> bool {
    (c: Publish) => c.stage == Refused(dimension) && Concerns(c.env, dimension, whom)
  }

  /** A refusal counter counts the refused publish calls of one sender, to one group, or with one tag. */
  lemma RefusalsAreCounted(cfg: Config, moves: seq<Move>, dimension: string, whom: string)
    requires dimension in {"agent", "group", "tag"}
    ensures var g := After(cfg, moves);
            Count(g.refusals, (dimension, dimension + ":" + whom)) == HowMany(g.calls, RefusedThem(dimension, whom))
  {
    hide After, Concerns, ChargedKey, Run, GrantedBetween, Count;
    var g, key := After(cfg, moves), dimension + ":" + whom;
    GateConserves(cfg, moves, dimension, key, 0.0, 0.0);
    SameRefusals(cfg, moves, dimension, whom);
  }

  lemma SameRefusals(cfg: Config, moves: seq<Move>, dimension: string, whom: string)
    requires dimension in {"agent", "group", "tag"}
    ensures var calls, key := After(cfg, moves).calls, dimension + ":" + whom;
            && HowMany(calls, RefusedFor(dimension, key)) == HowMany(calls, RefusedThem(dimension, whom))
            && HowMany(calls, CheckedFor(dimension, key)) <= HowMany(calls, Concerning(dimension, whom))
  {
    hide After, Concerns, ChargedKey, HowMany;
    var calls, key := After(cfg, moves).calls, dimension + ":" + whom;
    CallsAreConsistent(cfg, moves);
    forall i | 0 <= i < |calls|
      ensures RefusedFor(dimension, key)(calls[i]) <==> RefusedThem(dimension, whom)(calls[i])
      ensures CheckedFor(dimension, key)(calls[i]) ==> Concerning(dimension, whom)(calls[i])
    {
      if calls[i].stage == Refused(dimension) || dimension in calls[i].passed {
        assert Consistent(calls[i]);
        ChargedIff(calls[i].env, dimension, whom);
      }
    }
    HowManyWeaker(calls, RefusedFor(dimension, key), RefusedThem(dimension, whom));
    HowManyWeaker(calls, RefusedThem(dimension, whom), RefusedFor(dimension, key));
    HowManyWeaker(calls, CheckedFor(dimension, key), Concerning(dimension, whom));
  }

  lemma {:induction false} NoneRefused(calls: seq<Publish>, p: Publish -> bool, i: nat)
    requires i < |calls| && HowMany(calls, p) == 0
    ensures !p(calls[i])
  {
    if i < |calls| - 1 {
      NoneRefused(calls[..|calls| - 1], p, i);
    }
  }

  /** A sender, a group or a tag with no more publish calls than a burst is never refused by its check, whatever others
      do, and neither is any when the limiter is off or the dimension has no positive rate. */
  lemma FewAreNotRefused(cfg: Config, moves: seq<Move>, dimension: string, rate: real, whom: string, i: nat)
    requires || (dimension == "agent" && rate == cfg.perAgent)
             || (dimension == "group" && rate == cfg.perGroup)
             || (dimension == "tag" && rate == cfg.perTag)
    requires Ordered(After(cfg, moves).events) && i < |After(cfg, moves).calls|
    requires Concerns(After(cfg, moves).calls[i].env, dimension, whom)
    requires || !cfg.enabled || rate <= 0.0
             || HowMany(After(cfg, moves).calls, Concerning(dimension, whom)) as real <= cfg.burstFactor as real * rate
    ensures After(cfg, moves).calls[i].stage != Refused(dimension)
  {
    hide After, Concerns, ChargedKey, Run, HowMany, Ordered, CallsTo;
    var g, key := After(cfg, moves), dimension + ":" + whom;
    var log := Run(cfg, g.events).log;
    var calls := CallsTo(log, dimension, key);
    ChecksAreAnswered(cfg, moves, dimension, key);
    SameRefusals(cfg, moves, dimension, whom);
    forall j | 0 <= j < |calls| ensures calls[j].granted {
      var k := RateSettings.CallIndex(log, dimension, key, j);
      if !cfg.enabled || rate <= 0.0 {
        RateSettings.UnlimitedIsGranted(cfg, g.events, k);
      } else {
        RateSettings.FirstRequestsAreGranted(cfg, g.events, dimension, rate, key, j);
      }
    }
    DeniedNone(calls);
    NoneRefused(g.calls, RefusedThem(dimension, whom), i);
  }
}
