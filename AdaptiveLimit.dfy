/**
 * Fixed-window limiter with multiplicative limit adjustment
 * (493819/a2.go). Limiter creation and the admission rule are those of
 * 493819/ideal1.go, so the FixedWindow definitions are reused; after every
 * decision the handler scales the user's maximum by 1.2 (admitted) or 0.8
 * (rejected), truncating toward zero as Go's int conversion does.
 */
module AdaptiveLimit {
  import opened Wrappers
  import opened FixedWindow

  const AdjustmentFactor: real := 1.2
  const DecreaseFactor: real := 0.8

  /** Go's int(x) for a float: truncation toward zero. */
  function Truncate(x: real): (i: int)
    ensures x >= 0.0 ==> i >= 0 && i as real <= x < i as real + 1.0
    ensures x < 0.0 ==> i <= 0 && i as real - 1.0 < x <= i as real
  {
    if x >= 0.0 then x.Floor else -((-x).Floor)
  }

  /** adjustLimit's new maximum, with exact (not floating-point) products. */
  function Scale(m: int, allowed: bool): (r: int)
    ensures m >= 0 ==> r >= 0
    ensures m >= 0 && allowed ==> r >= m
    ensures m >= 0 && !allowed ==> r <= m
  {
    Truncate(m as real * (if allowed then AdjustmentFactor else DecreaseFactor))
  }

  /** A maximum of 0 stays 0 whichever way it is adjusted. */
  lemma ZeroStaysZero(allowed: bool)
    ensures Scale(0, allowed) == 0
  {
  }

  /** A maximum of 4 or less never grows: 1.2 * m truncates back to m. */
  lemma SmallNeverGrows(m: int)
    requires 0 <= m <= 4
    ensures Scale(m, true) == m
  {
    var x := m as real * AdjustmentFactor;
    assert m as real <= x < m as real + 1.0;
    TruncateUnique(x, m);
  }

  /** From 5 on, every admission raises the maximum, without any upper bound. */
  lemma LargeGrows(m: int)
    requires m >= 5
    ensures Scale(m, true) > m
  {
    var x := m as real * AdjustmentFactor;
    assert x >= m as real + 1.0;
  }

  /** Every rejection lowers a positive maximum, and it never becomes negative. */
  lemma RejectionShrinks(m: int)
    requires m > 0
    ensures 0 <= Scale(m, false) < m
  {
    var x := m as real * DecreaseFactor;
    assert 0.0 <= x < m as real;
  }

  /** Truncation of a non-negative number is determined by the enclosing unit interval. */
  lemma TruncateUnique(x: real, k: int)
    requires 0 <= k && k as real <= x < k as real + 1.0
    ensures Truncate(x) == k
  {
  }

  /** adjustLimit on the counter's fields. */
  function Adjust(c: Counter, allowed: bool): (r: Counter)
    ensures r == c.(maxRequests := r.maxRequests)
    ensures r.maxRequests == Scale(c.maxRequests, allowed)
  {
    c.(maxRequests := Scale(c.maxRequests, allowed))
  }

  /** The user's limiter after the optional maxRequests override. */
  function Limited(before: Counter, maxRequestsParam: string): Counter {
    match ParseOverride(maxRequestsParam)
    case Some(v) => before.(maxRequests := v)
    case None => before
  }

  /**
   * rateLimitHandler for a non-empty user id whose limiter is `before`
   * (Fresh(now) for a new user): the override, the decision, then the
   * adjustment in the direction of the decision.
   */
  function Handle(before: Counter, maxRequestsParam: string, now: int): (r: (int, Counter))
    ensures r.0 == StatusOK || r.0 == StatusTooManyRequests
    ensures r.1.resetTime == before.resetTime
    ensures var m := Limited(before, maxRequestsParam).maxRequests;
      m >= 0 ==> if r.0 == StatusOK then r.1.maxRequests >= m else r.1.maxRequests <= m
  {
    var d := Check(Limited(before, maxRequestsParam), now);
    (if d.allowed then StatusOK else StatusTooManyRequests, Adjust(d.next, d.allowed))
  }

  /** The maximum never becomes negative. */
  lemma HandleKeepsLimitNonNegative(before: Counter, maxRequestsParam: string, now: int)
    requires before.maxRequests >= 0
    ensures Handle(before, maxRequestsParam, now).1.maxRequests >= 0
  {
    var limited := Limited(before, maxRequestsParam);
    var d := Check(limited, now);
    if limited.maxRequests > 0 && !d.allowed {
      RejectionShrinks(limited.maxRequests);
    }
  }

  /**
   * Once a user's maximum is 0, every request without an override is
   * rejected and the maximum stays 0.
   */
  lemma ZeroLimitRejectsForever(before: Counter, maxRequestsParam: string, now: int)
    requires before.maxRequests == 0 && before.requests >= 0
    requires ParseOverride(maxRequestsParam).None?
    ensures Handle(before, maxRequestsParam, now).0 == StatusTooManyRequests
    ensures Handle(before, maxRequestsParam, now).1.maxRequests == 0
  {
  }

  /**
   * A maximum of 4 or less, without overrides, never grows again,
   * however the requests are decided.
   */
  lemma SmallLimitNeverGrows(before: Counter, maxRequestsParam: string, now: int)
    requires 0 <= before.maxRequests <= 4
    requires ParseOverride(maxRequestsParam).None?
    ensures Handle(before, maxRequestsParam, now).1.maxRequests <= before.maxRequests
  {
    var d := Check(before, now);
    if d.allowed {
      SmallNeverGrows(before.maxRequests);
    } else if before.maxRequests > 0 {
      RejectionShrinks(before.maxRequests);
    }
  }

  /** Successive handler calls for one user, each with its override text and time. */
  function HandleAll(before: Counter, calls: seq<(string, int)>): (r: (seq<int>, Counter))
    ensures |r.0| == |calls|
    decreases |calls|
  {
    if calls == [] then ([], before)
    else
      var first := Handle(before, calls[0].0, calls[0].1);
      var rest := HandleAll(first.1, calls[1..]);
      ([first.0] + rest.0, rest.1)
  }

  /**
   * A user whose maximum reached 0 is refused on every later call that
   * carries no override, and the maximum stays 0.
   */
  lemma {:induction false} ZeroLimitRejectsAll(before: Counter, calls: seq<(string, int)>)
    requires before.maxRequests == 0 && before.requests >= 0
    requires forall i | 0 <= i < |calls| :: ParseOverride(calls[i].0).None?
    ensures forall i | 0 <= i < |calls| :: HandleAll(before, calls).0[i] == StatusTooManyRequests
    ensures HandleAll(before, calls).1.maxRequests == 0
    decreases |calls|
  {
    if calls != [] {
      ZeroLimitRejectsForever(before, calls[0].0, calls[0].1);
      var first := Handle(before, calls[0].0, calls[0].1);
      assert first.1.requests >= 0;
      ZeroLimitRejectsAll(first.1, calls[1..]);
      var r := HandleAll(before, calls);
      forall i | 0 <= i < |calls| ensures r.0[i] == StatusTooManyRequests {
        if i > 0 {
          assert r.0[i] == HandleAll(first.1, calls[1..]).0[i - 1];
        }
      }
    }
  }

  /** Without overrides a maximum of at most 4 is never exceeded again, whatever the decisions. */
  lemma {:induction false} SmallLimitStaysSmall(before: Counter, calls: seq<(string, int)>)
    requires 0 <= before.maxRequests <= 4
    requires forall i | 0 <= i < |calls| :: ParseOverride(calls[i].0).None?
    ensures 0 <= HandleAll(before, calls).1.maxRequests <= before.maxRequests
    decreases |calls|
  {
    if calls != [] {
      SmallLimitNeverGrows(before, calls[0].0, calls[0].1);
      HandleKeepsLimitNonNegative(before, calls[0].0, calls[0].1);
      var first := Handle(before, calls[0].0, calls[0].1);
      SmallLimitStaysSmall(first.1, calls[1..]);
    }
  }

  /** adjustLimit on a live limiter. */
  method AdjustLimit(limiter: RateLimiter, allowed: bool)
    modifies limiter
    ensures limiter.Snapshot() == Adjust(old(limiter.Snapshot()), allowed)
  {
    if allowed {
      limiter.maxRequests := Truncate(limiter.maxRequests as real * AdjustmentFactor);
    } else {
      limiter.maxRequests := Truncate(limiter.maxRequests as real * DecreaseFactor);
    }
  }

  /**
   * The decision part of rateLimitHandler over the registry of users'
   * limiters: 400 without a user id, otherwise Handle on the user's limiter.
   */
  method RateLimitHandler(users: UserLimits, userID: string, maxRequestsParam: string, now: int)
    returns (status: int)
    requires users.Valid()
    modifies users, users.limiters.Values
    ensures users.Valid()
    ensures userID == "" ==> status == StatusBadRequest && users.limiters == old(users.limiters)
    ensures userID != "" ==>
      && userID in users.limiters
      && users.limiters == old(users.limiters)[userID := users.limiters[userID]]
      && (userID in old(users.limiters) ==> users.limiters[userID] == old(users.limiters)[userID])
      && var before := if userID in old(users.limiters) then old(users.limiters[userID].Snapshot()) else Fresh(now);
         Handle(before, maxRequestsParam, now) == (status, users.limiters[userID].Snapshot())
    ensures forall k | k in old(users.limiters) && (k != userID || userID == "") ::
      users.limiters[k].Snapshot() == old(users.limiters[k].Snapshot())
  {
    if userID == "" {
      return StatusBadRequest;
    }
    var override := ParseOverride(maxRequestsParam);
    if override.Some? {
      var limiter := users.GetRateLimiter(userID, now);
      limiter.maxRequests := override.value;
    }
    var limiter := users.GetRateLimiter(userID, now);
    var allowed := limiter.IsAllowed(now);
    if !allowed {
      AdjustLimit(limiter, false);
      return StatusTooManyRequests;
    }
    AdjustLimit(limiter, true);
    status := StatusOK;
  }
}
