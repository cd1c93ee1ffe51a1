/**
 * Dynamic sliding window of 493819/ideal3.go: each user's window keeps the
 * timestamps of admitted requests, smooths the observed rate with an EWMA
 * and admits while the estimate is at most the base limit. The registry
 * creates every user's window with fixed parameters.
 */
module EwmaWindow {
  import opened Clock
  import opened SlidingWindow

  /** The constructor parameters of a DynamicSlidingWindow. */
  datatype Config = Config(baseLimit: real, windowSize: int, alpha: real)

  /** The fields of a DynamicSlidingWindow that Allow changes. */
  datatype State = State(requests: seq<int>, rateEstimate: real, lastRequest: int)

  datatype Outcome = Outcome(allowed: bool, next: State)

  /** What the registry gives every new user: 10 per second, a 1 minute window, alpha 0.1. */
  const UserConfig: Config := Config(10.0, Minute, 0.1)

  const Initial: State := State([], 0.0, ZeroTime)

  /** Allow's division needs time to have passed since the last admission. */
  predicate CanStep(s: State, now: int) {
    s.lastRequest != ZeroTime ==> now > s.lastRequest
  }

  /** Allow as one atomic step at time now. */
  function Step(cfg: Config, s: State, now: int): (o: Outcome)
    requires CanStep(s, now)
    ensures s.lastRequest == ZeroTime ==>
      o.allowed && o.next == s.(lastRequest := now)
    ensures s.lastRequest != ZeroTime ==>
      var kept := Prune(s.requests, now, cfg.windowSize);
      && o.next.rateEstimate == Ewma(cfg.alpha, Rate(|kept|, now - s.lastRequest), s.rateEstimate)
      && (o.allowed <==> o.next.rateEstimate <= cfg.baseLimit)
      && (o.allowed ==> o.next.requests == kept + [now] && o.next.lastRequest == now)
      && (!o.allowed ==> o.next.requests == kept && o.next.lastRequest == s.lastRequest)
  {
    if s.lastRequest == ZeroTime then Outcome(true, s.(lastRequest := now))
    else
      var kept := Prune(s.requests, now, cfg.windowSize);
      var estimate := Ewma(cfg.alpha, Rate(|kept|, now - s.lastRequest), s.rateEstimate);
      if estimate <= cfg.baseLimit then Outcome(true, State(kept + [now], estimate, now))
      else Outcome(false, State(kept, estimate, s.lastRequest))
  }

  /**
   * What a window keeps between calls (given a smoothing factor in [0, 1]
   * and a non-negative window): no history before the first call,
   * timestamps ascending and not after the last admission, and a
   * non-negative estimate.
   */
  predicate Good(cfg: Config, s: State) {
    && 0.0 <= cfg.alpha <= 1.0 && cfg.windowSize >= 0
    && (s.lastRequest == ZeroTime ==> s.requests == [])
    && Ascending(s.requests)
    && (forall i | 0 <= i < |s.requests| :: s.requests[i] <= s.lastRequest)
    && s.rateEstimate >= 0.0
  }

  /**
   * Every step keeps Good (the clock never reads the zero time), and
   * afterwards every recorded timestamp lies in [now - windowSize, now].
   */
  lemma StepKeepsGood(cfg: Config, s: State, now: int)
    requires Good(cfg, s) && CanStep(s, now) && now != ZeroTime
    ensures Good(cfg, Step(cfg, s, now).next)
    ensures forall i | 0 <= i < |Step(cfg, s, now).next.requests| ::
      now - cfg.windowSize <= Step(cfg, s, now).next.requests[i] <= now
  {
    if s.lastRequest != ZeroTime {
      var kept := Prune(s.requests, now, cfg.windowSize);
      PruneAscending(s.requests, now, cfg.windowSize);
      PruneBounded(s.requests, now, cfg.windowSize, s.lastRequest);
      var rate := Rate(|kept|, now - s.lastRequest);
      EwmaBetween(cfg.alpha, rate, s.rateEstimate);
      var o := Step(cfg, s, now);
      if o.allowed {
        AscendingAppend(kept, now);
        assert o.next.requests == kept + [now];
      } else {
        assert o.next.requests == kept;
      }
    }
  }

  class DynamicSlidingWindow {
    var baseLimit: real
    var windowSize: int
    var requests: seq<int>
    var rateEstimate: real
    var alpha: real
    var lastRequest: int

    function Settings(): Config
      reads this
    {
      Config(baseLimit, windowSize, alpha)
    }

    function Current(): State
      reads this
    {
      State(requests, rateEstimate, lastRequest)
    }

    /** NewDynamicSlidingWindow */
    constructor (baseLimit: real, windowSize: int, alpha: real)
      ensures Settings() == Config(baseLimit, windowSize, alpha)
      ensures Current() == Initial
    {
      this.baseLimit := baseLimit;
      this.windowSize := windowSize;
      this.alpha := alpha;
      requests := [];
      rateEstimate := 0.0;
      lastRequest := ZeroTime;
    }

    method Allow(now: int) returns (allowed: bool)
      requires CanStep(Current(), now)
      modifies this
      ensures Settings() == old(Settings())
      ensures Step(Settings(), old(Current()), now) == Outcome(allowed, Current())
    {
      if lastRequest == ZeroTime {
        lastRequest := now;
        return true;
      }
      var valid: seq<int> := [];
      var i := 0;
      while i < |requests|
        invariant 0 <= i <= |requests|
        invariant valid == Prune(requests[..i], now, windowSize)
      {
        if now - requests[i] <= windowSize {
          valid := valid + [requests[i]];
        }
        assert requests[..i + 1][..i] == requests[..i];
        i := i + 1;
      }
      assert requests[..i] == requests;
      requests := valid;
      var currentRate := (|requests| as real) / Seconds(now - lastRequest);
      rateEstimate := alpha * currentRate + (1.0 - alpha) * rateEstimate;
      if rateEstimate <= baseLimit {
        requests := requests + [now];
        lastRequest := now;
        return true;
      }
      return false;
    }
  }

  /** DynamicRateLimiter: the map from user id to that user's window. */
  class DynamicRateLimiter {
    var userLimits: map<string, DynamicSlidingWindow>

    ghost predicate Valid()
      reads this
    {
      forall a, b | a in userLimits && b in userLimits && a != b :: userLimits[a] != userLimits[b]
    }

    /** NewDynamicRateLimiter: the arguments are not used. */
    constructor (baseLimit: real, windowSize: int, alpha: real)
      ensures Valid() && userLimits == map[]
    {
      userLimits := map[];
    }

    method Allow(userID: string, now: int) returns (allowed: bool)
      requires Valid()
      requires userID in userLimits ==> CanStep(userLimits[userID].Current(), now)
      modifies this, userLimits.Values
      ensures Valid()
      ensures userID in userLimits && userLimits == old(userLimits)[userID := userLimits[userID]]
      ensures userID in old(userLimits) ==> userLimits[userID] == old(userLimits)[userID]
      ensures userID !in old(userLimits) ==>
        fresh(userLimits[userID]) && userLimits[userID].Settings() == UserConfig
      ensures var w := userLimits[userID];
        && w.Settings() == (if userID in old(userLimits) then old(w.Settings()) else UserConfig)
        && Step(w.Settings(), if userID in old(userLimits) then old(w.Current()) else Initial, now)
           == Outcome(allowed, w.Current())
      ensures forall k | k in old(userLimits) && k != userID ::
        userLimits[k].Settings() == old(userLimits[k].Settings())
        && userLimits[k].Current() == old(userLimits[k].Current())
    {
      if userID !in userLimits {
        var w := new DynamicSlidingWindow(10.0, Minute, 0.1);
        userLimits := userLimits[userID := w];
      }
      var w := userLimits[userID];
      allowed := w.Allow(now);
    }
  }
}
