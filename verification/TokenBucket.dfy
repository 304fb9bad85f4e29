/**
  One token bucket of the rate limiter, over exact reals, and the limiter it is meant to be.

  The source keeps a single counter that is refilled lazily. The natural meaning of a rate limit is different:
  a request passes when no window that ends now would hold more than `burst + rate * length` granted requests.
  The main theorem, `BucketIsGreedy`, says that the counter decides exactly that.
 */
module TokenBucket {
  import opened Wrappers

  datatype Bucket = Bucket(tokens: real, maxBurst: real, rate: real, lastFill: real)

  /** The tokens earned in a stretch of time. */
  function Earned(rate: real, elapsed: real): real {
    elapsed * rate
  }

  /** The lazy refill, capped at the burst. */
  function Refilled(b: Bucket, now: real): Bucket {
    var tokens := b.tokens + Earned(b.rate, now - b.lastFill);
    b.(tokens := if tokens > b.maxBurst then b.maxBurst else tokens, lastFill := now)
  }

  /** One request to the bucket of a key; a key without a bucket gets one and is granted unconditionally. */
  function Ask(slot: Option<Bucket>, maxBurst: real, rate: real, now: real): (Bucket, bool) {
    match slot
    case None => (Bucket(maxBurst - 1.0, maxBurst, rate, now), true)
    case Some(b) =>
      var full := Refilled(b, now);
      if full.tokens < 1.0 then (full, false) else (full.(tokens := full.tokens - 1.0), true)
  }

  /** A whole history of requests to one key: the bucket it leaves and the answers it got. */
  function Serve(maxBurst: real, rate: real, times: seq<real>): (r: (Option<Bucket>, seq<bool>))
    ensures |r.1| == |times|
    ensures r.0.None? <==> times == []
  {
    if times == [] then (None, [])
    else
      var last := |times| - 1;
      var before := Serve(maxBurst, rate, times[..last]);
      var now := Ask(before.0, maxBurst, rate, times[last]);
      (Some(now.0), before.1 + [now.1])
  }

  function Answers(maxBurst: real, rate: real, times: seq<real>): (answers: seq<bool>)
    ensures |answers| == |times|
  {
    Serve(maxBurst, rate, times).1
  }

  // ---------------------------------------------------------------------------------------------
  // The reference limiter
  // ---------------------------------------------------------------------------------------------

  /** How many of the answers from index `from` on are grants. */
  function GrantsSince(answers: seq<bool>, from: nat): (n: nat)
    ensures from >= |answers| ==> n == 0
  {
    if |answers| <= from then 0
    else GrantsSince(answers[..|answers| - 1], from) + (if answers[|answers| - 1] then 1 else 0)
  }

  /** What the window from request `i` to time `now` has left: burst plus refill, less the grants it holds. */
  ghost function Slack(maxBurst: real, rate: real, times: seq<real>, answers: seq<bool>, i: nat, now: real): real
    requires i < |times| == |answers|
  {
    maxBurst + Earned(rate, now - times[i]) - GrantsSince(answers, i) as real
  }

  /** One more grant at `now` keeps every window that starts at a past request, or now, within its budget. */
  ghost predicate EveryWindowHasRoom(maxBurst: real, rate: real, times: seq<real>, answers: seq<bool>, now: real)
    requires |answers| == |times|
  {
    && 1.0 <= maxBurst
    && forall i :: 0 <= i < |times| ==> 1.0 <= Slack(maxBurst, rate, times, answers, i, now)
  }

  /** The limiter that keeps the whole history and checks every window. */
  ghost function Greedy(maxBurst: real, rate: real, times: seq<real>): (answers: seq<bool>)
    ensures |answers| == |times|
  {
    if times == [] then []
    else
      var last := |times| - 1;
      var before := Greedy(maxBurst, rate, times[..last]);
      before + [EveryWindowHasRoom(maxBurst, rate, times[..last], before, times[last])]
  }

  // ---------------------------------------------------------------------------------------------
  // The counter is the minimum slack over all windows
  // ---------------------------------------------------------------------------------------------

  ghost predicate IsLeastSlack(x: real, maxBurst: real, rate: real, times: seq<real>, answers: seq<bool>, now: real)
    requires |answers| == |times|
  {
    && (forall i :: 0 <= i < |times| ==> x <= Slack(maxBurst, rate, times, answers, i, now))
    && (exists i :: 0 <= i < |times| && x == Slack(maxBurst, rate, times, answers, i, now))
  }

  /** Moving the end of every window moves every slack by the same amount. */
  lemma SlackShifts(maxBurst: real, rate: real, times: seq<real>, answers: seq<bool>, i: nat, t: real, now: real)
    requires i < |times| == |answers|
    ensures Slack(maxBurst, rate, times, answers, i, now)
         == Slack(maxBurst, rate, times, answers, i, t) + Earned(rate, now - t)
  {
  }

  /** Recording one more request changes an old window's slack by its grant. */
  lemma SlackAfter(maxBurst: real, rate: real, times: seq<real>, answers: seq<bool>, now: real, granted: bool, i: nat)
    requires |times| == |answers| && i <= |times|
    ensures Slack(maxBurst, rate, times + [now], answers + [granted], i, now)
         == (if i == |times| then maxBurst else Slack(maxBurst, rate, times, answers, i, now))
            - (if granted then 1.0 else 0.0)
  {
  }

  lemma LeastShifts(x: real, maxBurst: real, rate: real, times: seq<real>, answers: seq<bool>, t: real, now: real)
    requires |times| == |answers| && IsLeastSlack(x, maxBurst, rate, times, answers, t)
    ensures IsLeastSlack(x + Earned(rate, now - t), maxBurst, rate, times, answers, now)
  {
    hide Slack, Earned;
    forall i | 0 <= i < |times|
      ensures Slack(maxBurst, rate, times, answers, i, now)
           == Slack(maxBurst, rate, times, answers, i, t) + Earned(rate, now - t)
    {
      SlackShifts(maxBurst, rate, times, answers, i, t, now);
    }
    var least :| 0 <= least < |times| && x == Slack(maxBurst, rate, times, answers, least, t);
    assert x + Earned(rate, now - t) == Slack(maxBurst, rate, times, answers, least, now);
  }

  /** A request opens the window that starts with it, and costs every window its grant. */
  lemma LeastAfter(x: real, maxBurst: real, rate: real, times: seq<real>, answers: seq<bool>, now: real, granted: bool)
    requires |times| == |answers|
    requires times != [] ==> IsLeastSlack(x, maxBurst, rate, times, answers, now)
    ensures var least := if times == [] || x > maxBurst then maxBurst else x;
            IsLeastSlack(least - (if granted then 1.0 else 0.0), maxBurst, rate, times + [now], answers + [granted], now)
  {
    hide Slack, Earned;
    var least := if times == [] || x > maxBurst then maxBurst else x;
    forall i | 0 <= i <= |times|
      ensures Slack(maxBurst, rate, times + [now], answers + [granted], i, now)
           == (if i == |times| then maxBurst else Slack(maxBurst, rate, times, answers, i, now))
              - (if granted then 1.0 else 0.0)
    {
      SlackAfter(maxBurst, rate, times, answers, now, granted, i);
    }
    var tight: nat;
    if least == maxBurst {
      tight := |times|;
    } else {
      tight :| 0 <= tight < |times| && x == Slack(maxBurst, rate, times, answers, tight, now);
    }
    assert least - (if granted then 1.0 else 0.0)
        == Slack(maxBurst, rate, times + [now], answers + [granted], tight, now);
  }

  /** The bucket's counter is the least slack of any window of the history, whatever the clock does. */
  lemma {:induction false} TokensAreLeastSlack(maxBurst: real, rate: real, times: seq<real>)
    requires times != []
    ensures var (slot, answers) := Serve(maxBurst, rate, times);
            var now := times[|times| - 1];
            && slot == Some(Bucket(slot.value.tokens, maxBurst, rate, now))
            && IsLeastSlack(slot.value.tokens, maxBurst, rate, times, answers, now)
  {
    hide IsLeastSlack, Earned;
    var last := |times| - 1;
    var past, now := times[..last], times[last];
    var (slot, answers) := Serve(maxBurst, rate, past);
    assert times == past + [now];
    if past == [] {
      LeastAfter(0.0, maxBurst, rate, past, answers, now, true);
    } else {
      TokensAreLeastSlack(maxBurst, rate, past);
      var prev := past[last - 1];
      LeastShifts(slot.value.tokens, maxBurst, rate, past, answers, prev, now);
      var (bucket, granted) := Ask(slot, maxBurst, rate, now);
      LeastAfter(slot.value.tokens + Earned(rate, now - prev), maxBurst, rate, past, answers, now, granted);
      assert Serve(maxBurst, rate, times) == (Some(bucket), answers + [granted]);
    }
  }

  /** There is room in every window exactly when there is room in the tightest one. */
  lemma RoomIsLeastSlack(x: real, maxBurst: real, rate: real, times: seq<real>, answers: seq<bool>, now: real)
    requires |times| == |answers| && times != [] && IsLeastSlack(x, maxBurst, rate, times, answers, now)
    ensures EveryWindowHasRoom(maxBurst, rate, times, answers, now) <==> 1.0 <= maxBurst && 1.0 <= x
  {
  }

  /** After the first request, the bucket answers like the reference for the answers given so far. */
  lemma LaterAnswer(maxBurst: real, rate: real, times: seq<real>, now: real)
    requires times != []
    ensures var (slot, answers) := Serve(maxBurst, rate, times);
            Ask(slot, maxBurst, rate, now).1 <==> EveryWindowHasRoom(maxBurst, rate, times, answers, now)
  {
    hide IsLeastSlack, EveryWindowHasRoom, Earned;
    TokensAreLeastSlack(maxBurst, rate, times);
    var (slot, answers) := Serve(maxBurst, rate, times);
    var prev := times[|times| - 1];
    LeastShifts(slot.value.tokens, maxBurst, rate, times, answers, prev, now);
    RoomIsLeastSlack(slot.value.tokens + Earned(rate, now - prev), maxBurst, rate, times, answers, now);
  }

  lemma {:induction false} BucketAgrees(maxBurst: real, rate: real, times: seq<real>)
    requires 1.0 <= maxBurst
    ensures Answers(maxBurst, rate, times) == Greedy(maxBurst, rate, times)
  {
    if times != [] {
      var last := |times| - 1;
      BucketAgrees(maxBurst, rate, times[..last]);
      if last > 0 {
        LaterAnswer(maxBurst, rate, times[..last], times[last]);
      }
    }
  }

  /** The one-counter bucket and the all-windows limiter agree on every history exactly when a full burst is
      worth at least one request. */
  lemma BucketIsGreedy(maxBurst: real, rate: real)
    ensures (forall times :: Answers(maxBurst, rate, times) == Greedy(maxBurst, rate, times)) <==> 1.0 <= maxBurst
  {
    if 1.0 <= maxBurst {
      forall times ensures Answers(maxBurst, rate, times) == Greedy(maxBurst, rate, times) {
        BucketAgrees(maxBurst, rate, times);
      }
    } else {
      assert [0.0][..0] == [];
      assert Answers(maxBurst, rate, [0.0]) == [true];
      assert Greedy(maxBurst, rate, [0.0]) == [false];
      assert Answers(maxBurst, rate, [0.0])[0] != Greedy(maxBurst, rate, [0.0])[0];
    }
  }

  // ---------------------------------------------------------------------------------------------
  // Any window, not only one that starts at a request
  // ---------------------------------------------------------------------------------------------

  ghost predicate Monotone(times: seq<real>) {
    forall i, j :: 0 <= i < j < |times| ==> times[i] <= times[j]
  }

  function GrantsBetween(times: seq<real>, answers: seq<bool>, start: real, end: real): nat
    requires |answers| == |times|
  {
    if times == [] then 0
    else
      var last := |times| - 1;
      GrantsBetween(times[..last], answers[..last], start, end)
      + (if answers[last] && start <= times[last] <= end then 1 else 0)
  }

  /** A window holds no more grants than the part of the history that starts with its first request. */
  lemma {:induction false} WindowWithinSuffix(times: seq<real>, answers: seq<bool>, start: real, end: real, first: nat)
    requires |answers| == |times| && first <= |times|
    requires forall i :: 0 <= i < first ==> times[i] < start
    ensures GrantsBetween(times, answers, start, end) <= GrantsSince(answers, first)
  {
    if times != [] {
      var last := |times| - 1;
      WindowWithinSuffix(times[..last], answers[..last], start, end, if first <= last then first else last);
    }
  }

  lemma FirstInside(times: seq<real>, start: real) returns (first: nat)
    requires times != [] && start <= times[|times| - 1]
    ensures first < |times| && start <= times[first]
    ensures forall i :: 0 <= i < first ==> times[i] < start
  {
    first := 0;
    while times[first] < start
      invariant first < |times|
      invariant forall i :: 0 <= i < first ==> times[i] < start
      decreases |times| - first
    {
      first := first + 1;
    }
  }

  /** The answers after one more request are the old ones and one more. */
  lemma AnswersGrow(maxBurst: real, rate: real, times: seq<real>)
    requires times != []
    ensures var last := |times| - 1;
            Answers(maxBurst, rate, times)[..last] == Answers(maxBurst, rate, times[..last])
  {
  }

  /** A grant leaves every window that ends with it within its budget. */
  lemma GrantFits(maxBurst: real, rate: real, times: seq<real>, first: nat)
    requires 1.0 <= maxBurst && first < |times| && Answers(maxBurst, rate, times)[|times| - 1]
    ensures GrantsSince(Answers(maxBurst, rate, times), first) as real
         <= maxBurst + Earned(rate, times[|times| - 1] - times[first])
  {
    hide EveryWindowHasRoom, Ask;
    var last := |times| - 1;
    var past, now := times[..last], times[last];
    AnswersGrow(maxBurst, rate, times);
    if first < last {
      LaterAnswer(maxBurst, rate, past, now);
      RoomAt(maxBurst, rate, past, Answers(maxBurst, rate, past), now, first);
      assert past[first] == times[first];
    }
  }

  lemma RoomAt(maxBurst: real, rate: real, times: seq<real>, answers: seq<bool>, now: real, i: nat)
    requires |answers| == |times| && i < |times| && EveryWindowHasRoom(maxBurst, rate, times, answers, now)
    ensures GrantsSince(answers, i) as real + 1.0 <= maxBurst + Earned(rate, now - times[i])
  {
    assert 1.0 <= Slack(maxBurst, rate, times, answers, i, now);
  }

  /** Under a clock that does not run backwards, grants in any window stay within burst plus rate times length. */
  lemma {:induction false} WindowBound(maxBurst: real, rate: real, times: seq<real>, start: real, end: real)
    requires 1.0 <= maxBurst && 0.0 <= rate && start <= end && Monotone(times)
    ensures GrantsBetween(times, Answers(maxBurst, rate, times), start, end) as real
         <= maxBurst + Earned(rate, end - start)
  {
    hide Earned;
    if times == [] {
      RateMonotone(rate, end - start, end - start);
    } else {
      var last := |times| - 1;
      var answers := Answers(maxBurst, rate, times);
      AnswersGrow(maxBurst, rate, times);
      if answers[last] && start <= times[last] <= end {
        var first := FirstInside(times, start);
        WindowWithinSuffix(times, answers, start, end, first);
        GrantFits(maxBurst, rate, times, first);
        RateMonotone(rate, times[last] - times[first], end - start);
      } else {
        WindowBound(maxBurst, rate, times[..last], start, end);
        assert GrantsBetween(times, answers, start, end) == GrantsBetween(times[..last], answers[..last], start, end);
      }
    }
  }

  lemma RateMonotone(rate: real, short: real, long: real)
    requires 0.0 <= rate && 0.0 <= short <= long
    ensures 0.0 <= Earned(rate, short) <= Earned(rate, long)
  {
  }
}
