/**
 * Fixed-window request counter per user (493819/ideal1.go): each user has
 * a RateLimiter holding a request count that is cleared once the reset
 * time has passed since the last reset; a request is admitted while the
 * count is below the user's maximum. Users' limiters are created lazily in
 * a registry, and an HTTP query parameter may override a user's maximum.
 */
module FixedWindow {
  import opened Wrappers
  import opened GoStrings
  import opened Clock

  const DefaultLimit: int := 10
  const DefaultResetTime: int := 60 * Second

  const StatusOK: int := 200
  const StatusBadRequest: int := 400
  const StatusTooManyRequests: int := 429

  /** The fields of one RateLimiter. */
  datatype Counter = Counter(maxRequests: int, resetTime: int, requests: int, lastReset: int)

  datatype Decision = Decision(allowed: bool, next: Counter)

  /** A limiter as getRateLimiter creates it at time now. */
  function Fresh(now: int): Counter {
    Counter(DefaultLimit, DefaultResetTime, 0, now)
  }

  /** A reset is due once strictly more than resetTime has elapsed. */
  predicate ResetDue(c: Counter, now: int) {
    now - c.lastReset > c.resetTime
  }

  /** The count seen by the admission test, after a due reset. */
  function Start(c: Counter, now: int): Counter {
    if ResetDue(c, now) then c.(requests := 0, lastReset := now) else c
  }

  /** The count never exceeds the maximum. */
  predicate WithinLimit(c: Counter) {
    0 <= c.requests <= c.maxRequests
  }

  /** isAllowed as one atomic step at time now. */
  function Check(c: Counter, now: int): (d: Decision)
    ensures d.allowed <==> Start(c, now).requests < c.maxRequests
    ensures d.next.maxRequests == c.maxRequests && d.next.resetTime == c.resetTime
    ensures d.next.lastReset == if ResetDue(c, now) then now else c.lastReset
    ensures ResetDue(c, now) ==> d.next.requests == (if d.allowed then 1 else 0)
    ensures !ResetDue(c, now) ==> d.next.requests == c.requests + (if d.allowed then 1 else 0)
    ensures !ResetDue(c, now) && !d.allowed ==> d.next == c
    ensures WithinLimit(c) ==> WithinLimit(d.next)
  {
    var s := Start(c, now);
    if s.requests < s.maxRequests then Decision(true, s.(requests := s.requests + 1))
    else Decision(false, s)
  }


  /** Successive calls at the given times. */
  function Run(c: Counter, times: seq<int>): (r: (seq<bool>, Counter))
    ensures |r.0| == |times|
    ensures r.1.maxRequests == c.maxRequests && r.1.resetTime == c.resetTime
    decreases |times|
  {
    if times == [] then ([], c)
    else
      var d := Check(c, times[0]);
      var rest := Run(d.next, times[1..]);
      ([d.allowed] + rest.0, rest.1)
  }

  /** A run over a + b is the run over a continued over b. */
  lemma {:induction false} RunAppend(c: Counter, a: seq<int>, b: seq<int>)
    ensures Run(c, a + b).0 == Run(c, a).0 + Run(Run(c, a).1, b).0
    ensures Run(c, a + b).1 == Run(Run(c, a).1, b).1
    decreases |a|
  {
    if a != [] {
      var d := Check(c, a[0]);
      assert (a + b)[0] == a[0] && (a + b)[1..] == a[1..] + b;
      RunAppend(d.next, a[1..], b);
      assert Run(c, a + b) == ([d.allowed] + Run(d.next, a[1..] + b).0, Run(d.next, a[1..] + b).1);
      assert Run(c, a) == ([d.allowed] + Run(d.next, a[1..]).0, Run(d.next, a[1..]).1);
    } else {
      assert a + b == b;
    }
  }

  function CountTrue(bs: seq<bool>): nat
    decreases |bs|
  {
    if bs == [] then 0 else (if bs[0] then 1 else 0) + CountTrue(bs[1..])
  }

  /** The bound holds after every call of a run, whatever the times. */
  lemma {:induction false} RunKeepsWithinLimit(c: Counter, times: seq<int>)
    requires WithinLimit(c)
    ensures WithinLimit(Run(c, times).1)
    decreases |times|
  {
    if times != [] {
      RunKeepsWithinLimit(Check(c, times[0]).next, times[1..]);
    }
  }

  /**
   * Inside one window (no reset due at any of the times) the calls are
   * admitted greedily: exactly the first maxRequests - requests of them.
   */
  lemma {:induction false} RunInsideWindow(c: Counter, times: seq<int>)
    requires forall i | 0 <= i < |times| :: !ResetDue(c, times[i])
    ensures forall i | 0 <= i < |times| :: Run(c, times).0[i] <==> c.requests + i < c.maxRequests
    ensures Run(c, times).1.lastReset == c.lastReset
    decreases |times|
  {
    if times != [] {
      var d := Check(c, times[0]);
      assert d.next.lastReset == c.lastReset && d.next.resetTime == c.resetTime;
      forall i | 0 <= i < |times[1..]| ensures !ResetDue(d.next, times[1..][i]) {
        assert times[1..][i] == times[i + 1];
      }
      RunInsideWindow(d.next, times[1..]);
      var r := Run(c, times);
      forall i | 0 <= i < |times| ensures r.0[i] <==> c.requests + i < c.maxRequests {
        if i > 0 {
          assert r.0[i] == Run(d.next, times[1..]).0[i - 1];
          if d.allowed {
            assert d.next.requests == c.requests + 1;
          } else {
            assert d.next == c;
          }
        }
      }
    }
  }

  /** Inside one window at most maxRequests calls are admitted. */
  lemma {:induction false} WindowBound(c: Counter, times: seq<int>)
    requires c.requests == 0 && c.maxRequests >= 0
    requires forall i | 0 <= i < |times| :: !ResetDue(c, times[i])
    ensures CountTrue(Run(c, times).0) <= c.maxRequests
  {
    RunInsideWindow(c, times);
    CountTrueAtMost(Run(c, times).0, c.maxRequests);
  }

  lemma {:induction false} CountTrueAtMost(bs: seq<bool>, k: nat)
    requires forall i | 0 <= i < |bs| :: bs[i] <==> i < k
    ensures CountTrue(bs) <= k
    decreases |bs|
  {
    if bs != [] && k > 0 {
      forall i | 0 <= i < |bs[1..]| ensures bs[1..][i] <==> i < k - 1 {
        assert bs[1..][i] == bs[i + 1];
      }
      CountTrueAtMost(bs[1..], k - 1);
    } else if bs != [] {
      CountTrueNone(bs);
    }
  }

  lemma {:induction false} CountTrueNone(bs: seq<bool>)
    requires forall i | 0 <= i < |bs| :: !bs[i]
    ensures CountTrue(bs) == 0
    decreases |bs|
  {
    if bs != [] {
      assert forall i | 0 <= i < |bs[1..]| :: bs[1..][i] == bs[i + 1];
      CountTrueNone(bs[1..]);
    }
  }

  /**
   * A limit of 5 and a 10 s window: five immediate calls are admitted, the
   * sixth is rejected, and a call more than 10 s later is admitted again.
   */
  lemma BoundaryScenario()
    ensures Run(Counter(5, 10 * Second, 0, 0), [0, 0, 0, 0, 0, 0, 10 * Second + 1]).0
         == [true, true, true, true, true, false, true]
  {
    var c := Counter(5, 10 * Second, 0, 0);
    var times := [0, 0, 0, 0, 0, 0];
    RunInsideWindow(c, times);
    RunAppend(c, times, [10 * Second + 1]);
    assert times + [10 * Second + 1] == [0, 0, 0, 0, 0, 0, 10 * Second + 1];
    var later := Run(Run(c, times).1, [10 * Second + 1]).0;
    assert later == [true];
  }

  /**
   * The maxRequests query parameter of rateLimitHandler: an override only
   * when the text parses as an integer greater than zero.
   */
  function ParseOverride(param: string): (r: Option<int>)
    ensures r.Some? ==> r.value > 0 && Atoi(param) == r
    ensures r.None? ==> param == "" || Atoi(param).None? || Atoi(param).value <= 0
  {
    if param == "" then None
    else
      match Atoi(param)
      case Some(v) => if v > 0 then Some(v) else None
      case None => None
  }

  /** Every positive 64-bit limit written in decimal is taken as an override. */
  lemma OverrideOfDecimal(n: int)
    requires MinInt64 <= n <= MaxInt64
    ensures ParseOverride(Itoa(n)) == (if n > 0 then Some(n) else None)
  {
    AtoiItoa(n);
  }

  class RateLimiter {
    var maxRequests: int
    var resetTime: int
    var requests: int
    var lastReset: int

    function Snapshot(): Counter
      reads this
    {
      Counter(maxRequests, resetTime, requests, lastReset)
    }

    constructor (now: int)
      ensures Snapshot() == Fresh(now)
    {
      maxRequests := DefaultLimit;
      resetTime := DefaultResetTime;
      requests := 0;
      lastReset := now;
    }

    method IsAllowed(now: int) returns (allowed: bool)
      modifies this
      ensures Decision(allowed, Snapshot()) == Check(old(Snapshot()), now)
    {
      if now - lastReset > resetTime {
        requests := 0;
        lastReset := now;
      }
      if requests < maxRequests {
        requests := requests + 1;
        return true;
      }
      return false;
    }
  }

  /** The userLimits map from user id to that user's limiter. */
  class UserLimits {
    var limiters: map<string, RateLimiter>

    /** Each user has a limiter of its own. */
    ghost predicate Valid()
      reads this
    {
      forall a, b | a in limiters && b in limiters && a != b :: limiters[a] != limiters[b]
    }

    constructor ()
      ensures Valid() && limiters == map[]
    {
      limiters := map[];
    }

    /** getRateLimiter: the user's limiter, created with the defaults if new. */
    method GetRateLimiter(userID: string, now: int) returns (limiter: RateLimiter)
      requires Valid()
      modifies this
      ensures Valid()
      ensures userID in old(limiters) ==> limiter == old(limiters)[userID] && limiters == old(limiters)
      ensures userID !in old(limiters) ==>
        fresh(limiter) && limiter.Snapshot() == Fresh(now) && limiters == old(limiters)[userID := limiter]
    {
      if userID in limiters {
        return limiters[userID];
      }
      limiter := new RateLimiter(now);
      limiters := limiters[userID := limiter];
    }

    /**
     * The decision part of rateLimitHandler: 400 without a user id, else
     * the optional override of the user's maximum, then 429 or 200 as
     * isAllowed decides.
     */
    method RateLimitHandler(userID: string, maxRequestsParam: string, now: int) returns (status: int)
      requires Valid()
      modifies this, limiters.Values
      ensures Valid()
      ensures userID == "" ==> status == StatusBadRequest && limiters == old(limiters)
      ensures userID != "" ==>
        && userID in limiters
        && limiters == old(limiters)[userID := limiters[userID]]
        && (userID in old(limiters) ==> limiters[userID] == old(limiters)[userID])
        && (status == StatusOK || status == StatusTooManyRequests)
        && var before := if userID in old(limiters) then old(limiters[userID].Snapshot()) else Fresh(now);
           var limited := match ParseOverride(maxRequestsParam)
                          case Some(v) => before.(maxRequests := v)
                          case None => before;
           Check(limited, now) == Decision(status == StatusOK, limiters[userID].Snapshot())
      ensures forall k | k in old(limiters) && (k != userID || userID == "") ::
        limiters[k].Snapshot() == old(limiters[k].Snapshot())
    {
      if userID == "" {
        return StatusBadRequest;
      }
      var override := ParseOverride(maxRequestsParam);
      if override.Some? {
        var limiter := GetRateLimiter(userID, now);
        limiter.maxRequests := override.value;
      }
      var limiter := GetRateLimiter(userID, now);
      var allowed := limiter.IsAllowed(now);
      status := if allowed then StatusOK else StatusTooManyRequests;
    }
  }
}
