/**
 * Interval-reset request counter of 493819/ideal2.go: the count is cleared
 * once ResetInterval has passed since LastRequestTime, a request succeeds
 * while the count is below MaxRate, and a rejection moves LastRequestTime
 * to the time of the rejection.
 */
module IntervalLimiter {
  import opened Clock

  /** The fields of a RateLimiter that Request reads or writes. */
  datatype Counter = Counter(currentRate: int, maxRate: int, resetInterval: int, lastRequestTime: int)

  /** The two answers of Request; LimitExceeded carries the interval it reports. */
  datatype Reply = Success | LimitExceeded(retryIn: int)

  datatype Outcome = Outcome(reply: Reply, next: Counter)

  /**
   * The text Request returns; durationText stands for the rendering of the
   * reset interval by fmt's %v verb.
   */
  function Text(r: Reply, durationText: string): (t: string)
    ensures r.Success? ==> t == "Request successful."
    ensures r.LimitExceeded? ==>
      t == "Error: Rate limit exceeded. Please try again in " + durationText + "."
  {
    match r
    case Success => "Request successful."
    case LimitExceeded(_) => "Error: Rate limit exceeded. Please try again in " + durationText + "."
  }

  /** The two texts never coincide, whatever the duration's rendering. */
  lemma TextsDiffer(d: string, d': string, k: int)
    ensures Text(Success, d) != Text(LimitExceeded(k), d')
  {
    var prefix := "Error: Rate limit exceeded. Please try again in ";
    assert |Text(Success, d)| < |prefix| <= |Text(LimitExceeded(k), d')|;
  }

  /** A counter as NewRateLimiter creates it at time now. */
  function New(maxRate: int, resetInterval: int, now: int): Counter {
    Counter(0, maxRate, resetInterval, now)
  }

  /** CheckLimit */
  predicate WithinRate(c: Counter) {
    c.currentRate < c.maxRate
  }

  /** The counter CheckLimit looks at: cleared once the interval has passed. */
  function AfterReset(c: Counter, now: int): Counter {
    if now - c.lastRequestTime >= c.resetInterval then c.(currentRate := 0) else c
  }

  /** Request as one atomic step at time now. */
  function Step(c: Counter, now: int): (o: Outcome)
    ensures o.next.maxRate == c.maxRate && o.next.resetInterval == c.resetInterval
    ensures o.reply.Success? <==> AfterReset(c, now).currentRate < c.maxRate
    ensures o.reply.Success? ==>
      o.next == AfterReset(c, now).(currentRate := AfterReset(c, now).currentRate + 1)
      && o.next.lastRequestTime == c.lastRequestTime
    ensures o.reply.LimitExceeded? ==>
      o.reply.retryIn == c.resetInterval
      && o.next == AfterReset(c, now).(lastRequestTime := now)
  {
    var s := AfterReset(c, now);
    if !WithinRate(s) then Outcome(LimitExceeded(s.resetInterval), s.(lastRequestTime := now))
    else Outcome(Success, s.(currentRate := s.currentRate + 1))
  }

  /** The count stays between 0 and max(0, MaxRate). */
  predicate Bounded(c: Counter) {
    0 <= c.currentRate && (c.currentRate <= c.maxRate || c.currentRate == 0)
  }

  lemma StepKeepsBounded(c: Counter, now: int)
    requires Bounded(c)
    ensures Bounded(Step(c, now).next)
  {
  }

  /** Successive requests at the given times. */
  function Run(c: Counter, times: seq<int>): (r: (seq<Reply>, Counter))
    ensures |r.0| == |times|
    decreases |times|
  {
    if times == [] then ([], c)
    else
      var o := Step(c, times[0]);
      var rest := Run(o.next, times[1..]);
      ([o.reply] + rest.0, rest.1)
  }

  /**
   * Ascending request times that all come less than ResetInterval after
   * lastRequestTime: the first maxRate - currentRate succeed and all later
   * ones are refused (a refusal moves lastRequestTime forward, which only
   * postpones a reset).
   */
  lemma {:induction false} RunWithinInterval(c: Counter, times: seq<int>)
    requires forall i, j | 0 <= i < j < |times| :: times[i] <= times[j]
    requires forall i | 0 <= i < |times| :: c.lastRequestTime <= times[i] < c.lastRequestTime + c.resetInterval
    ensures forall i | 0 <= i < |times| :: Run(c, times).0[i].Success? <==> c.currentRate + i < c.maxRate
    decreases |times|
  {
    if times != [] {
      var o := Step(c, times[0]);
      var tail := times[1..];
      assert forall i | 0 <= i < |tail| :: tail[i] == times[i + 1];
      assert o.next.lastRequestTime <= times[0];
      RunWithinInterval(o.next, tail);
      var r := Run(c, times);
      forall i | 0 < i < |times|
        ensures r.0[i].Success? <==> c.currentRate + i < c.maxRate
      {
        assert r.0[i] == Run(o.next, tail).0[i - 1];
      }
    }
  }

  /**
   * A limiter created at 0 with MaxRate 10 and a one-minute interval, asked
   * every half second: ten successes, then the refusal.
   */
  lemma HalfSecondScenario()
    ensures var times := seq(11, i => i * (Second / 2));
      Run(New(10, Minute, 0), times).0
      == [Success, Success, Success, Success, Success, Success, Success, Success, Success, Success,
          LimitExceeded(Minute)]
  {
    var times := seq(11, i => i * (Second / 2));
    RunWithinInterval(New(10, Minute, 0), times);
    var r := Run(New(10, Minute, 0), times).0;
    assert r[10].LimitExceeded?;
    assert r[10].retryIn == Minute by {
      ExceededReportsInterval(New(10, Minute, 0), times, 10);
    }
  }

  /** Every refusal of a run reports the limiter's ResetInterval. */
  lemma {:induction false} ExceededReportsInterval(c: Counter, times: seq<int>, i: nat)
    requires i < |times| && Run(c, times).0[i].LimitExceeded?
    ensures Run(c, times).0[i].retryIn == c.resetInterval
    decreases |times|
  {
    if i > 0 {
      ExceededReportsInterval(Step(c, times[0]).next, times[1..], i - 1);
    }
  }

  /** RateLimiter */
  class RateLimiter {
    var userID: string
    var currentRate: int
    var maxRate: int
    var threshold: int
    var resetInterval: int
    var behaviorHistory: seq<int>
    var lastRequestTime: int

    function Snapshot(): Counter
      reads this
    {
      Counter(currentRate, maxRate, resetInterval, lastRequestTime)
    }

    /** NewRateLimiter */
    constructor (userID: string, maxRate: int, threshold: int, resetInterval: int, now: int)
      ensures Snapshot() == New(maxRate, resetInterval, now)
      ensures this.userID == userID && this.threshold == threshold && behaviorHistory == []
    {
      this.userID := userID;
      currentRate := 0;
      this.maxRate := maxRate;
      this.threshold := threshold;
      this.resetInterval := resetInterval;
      behaviorHistory := [];
      lastRequestTime := now;
    }

    /** CheckLimit: false once the count has reached MaxRate. */
    function CheckLimit(): (ok: bool)
      reads this
      ensures ok == WithinRate(Snapshot())
    {
      currentRate < maxRate
    }

    method Request(now: int) returns (reply: Reply)
      modifies this
      ensures Outcome(reply, Snapshot()) == Step(old(Snapshot()), now)
      ensures userID == old(userID) && threshold == old(threshold) && behaviorHistory == old(behaviorHistory)
    {
      if now - lastRequestTime >= resetInterval {
        currentRate := 0;
      }
      if !CheckLimit() {
        lastRequestTime := now;
        return LimitExceeded(resetInterval);
      }
      currentRate := currentRate + 1;
      return Success;
    }
  }
}
