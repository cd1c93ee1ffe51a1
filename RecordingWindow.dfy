/**
 * Dynamic sliding window of 493819/a3.go. Unlike the window of
 * 493819/ideal3.go, every call after the first is recorded in the history
 * and moves lastRequest, whether or not it is admitted; the registry builds
 * new windows from its own target, window and smoothing factor.
 */
module RecordingWindow {
  import opened SlidingWindow
  import Clock

  /** The constructor parameters of a dynamicSlidingWindow. */
  datatype Config = Config(targetLimit: real, windowSize: int, alpha: real)

  /** The fields of a dynamicSlidingWindow that allow changes. */
  datatype State = State(requests: seq<int>, initialized: bool, rateEstimate: real, lastRequest: int)

  datatype Outcome = Outcome(allowed: bool, next: State)

  const Initial: State := State([], false, 0.0, 0)

  /** allow's division needs time to have passed since the previous call. */
  predicate CanStep(s: State, now: int) {
    s.initialized ==> now > s.lastRequest
  }

  /** allow as one atomic step at time now. */
  function Step(cfg: Config, s: State, now: int): (o: Outcome)
    requires CanStep(s, now)
    ensures !s.initialized ==>
      o.allowed && o.next == s.(lastRequest := now, initialized := true)
    ensures s.initialized ==>
      var kept := Prune(s.requests, now, cfg.windowSize);
      && o.next.rateEstimate == Ewma(cfg.alpha, Rate(|kept|, now - s.lastRequest), s.rateEstimate)
      && (o.allowed <==> o.next.rateEstimate <= cfg.targetLimit)
      && o.next.requests == kept + [now]
      && o.next.lastRequest == now
      && o.next.initialized
  {
    if !s.initialized then Outcome(true, s.(lastRequest := now, initialized := true))
    else
      var kept := Prune(s.requests, now, cfg.windowSize);
      var estimate := Ewma(cfg.alpha, Rate(|kept|, now - s.lastRequest), s.rateEstimate);
      Outcome(estimate <= cfg.targetLimit, State(kept + [now], true, estimate, now))
  }

  /**
   * What a window keeps between calls (given a smoothing factor in [0, 1]
   * and a non-negative window): no history before the first call,
   * timestamps ascending and not after the previous call, and a
   * non-negative estimate.
   */
  predicate Good(cfg: Config, s: State) {
    && 0.0 <= cfg.alpha <= 1.0 && cfg.windowSize >= 0
    && (!s.initialized ==> s.requests == [])
    && Ascending(s.requests)
    && (forall i | 0 <= i < |s.requests| :: s.requests[i] <= s.lastRequest)
    && s.rateEstimate >= 0.0
  }

  /**
   * Every step keeps Good; afterwards every recorded timestamp lies in
   * [now - windowSize, now], and after a non-first call the newest one is now.
   */
  lemma StepKeepsGood(cfg: Config, s: State, now: int)
    requires Good(cfg, s) && CanStep(s, now)
    ensures Good(cfg, Step(cfg, s, now).next)
    ensures forall i | 0 <= i < |Step(cfg, s, now).next.requests| ::
      now - cfg.windowSize <= Step(cfg, s, now).next.requests[i] <= now
    ensures s.initialized ==> Step(cfg, s, now).next.requests[|Step(cfg, s, now).next.requests| - 1] == now
  {
    if s.initialized {
      var kept := Prune(s.requests, now, cfg.windowSize);
      PruneAscending(s.requests, now, cfg.windowSize);
      PruneBounded(s.requests, now, cfg.windowSize, s.lastRequest);
      var rate := Rate(|kept|, now - s.lastRequest);
      EwmaBetween(cfg.alpha, rate, s.rateEstimate);
      AscendingAppend(kept, now);
      assert Step(cfg, s, now).next.requests == kept + [now];
    }
  }

  /**
   * Rejected calls count too: a call that finds nothing expired leaves a
   * history one longer, admitted or not.
   */
  lemma EveryCallRecorded(cfg: Config, s: State, now: int)
    requires CanStep(s, now) && s.initialized
    requires forall i | 0 <= i < |s.requests| :: InWindow(s.requests[i], now, cfg.windowSize)
    ensures Step(cfg, s, now).next.requests == s.requests + [now]
  {
    PruneAllInWindow(s.requests, now, cfg.windowSize);
  }

  class DynamicSlidingWindow {
    var targetLimit: real
    var windowSize: int
    var requests: seq<int>
    var initialized: bool
    var rateEstimate: real
    var lastRequest: int
    var alpha: real

    function Settings(): Config
      reads this
    {
      Config(targetLimit, windowSize, alpha)
    }

    function Current(): State
      reads this
    {
      State(requests, initialized, rateEstimate, lastRequest)
    }

    /** newDynamicSlidingWindow */
    constructor (targetLimit: real, windowSize: int, alpha: real)
      ensures Settings() == Config(targetLimit, windowSize, alpha)
      ensures Current() == Initial
    {
      this.targetLimit := targetLimit;
      this.windowSize := windowSize;
      this.alpha := alpha;
      requests := [];
      initialized := false;
      rateEstimate := 0.0;
      lastRequest := 0;
    }

    method Allow(now: int) returns (allowed: bool)
      requires CanStep(Current(), now)
      modifies this
      ensures Settings() == old(Settings())
      ensures Step(Settings(), old(Current()), now) == Outcome(allowed, Current())
    {
      if !initialized {
        lastRequest := now;
        initialized := true;
        return true;
      }
      var valid: seq<int> := [];
      var i := 0;
      while i < |requests|
        invariant 0 <= i <= |requests|
        invariant valid == Prune(requests[..i], now, windowSize)
      {
        if now - requests[i] <= windowSize {
          valid := valid + [requests[i]];
        }
        assert requests[..i + 1][..i] == requests[..i];
        i := i + 1;
      }
      assert requests[..i] == requests;
      requests := valid;
      var currentRate := (|requests| as real) / Clock.Seconds(now - lastRequest);
      rateEstimate := alpha * currentRate + (1.0 - alpha) * rateEstimate;
      allowed := rateEstimate <= targetLimit;
      lastRequest := now;
      requests := requests + [now];
    }
  }

  /** dynamicRateLimiter: the per-user windows and the parameters for new ones. */
  class DynamicRateLimiter {
    var userLimits: map<string, DynamicSlidingWindow>
    var targetLimit: real
    var windowSize: int
    var alpha: real
    var initialRPS: real

    function Settings(): Config
      reads this
    {
      Config(targetLimit, windowSize, alpha)
    }

    ghost predicate Valid()
      reads this
    {
      forall a, b | a in userLimits && b in userLimits && a != b :: userLimits[a] != userLimits[b]
    }

    /** NewDynamicRateLimiter */
    constructor (targetLimit: real, windowSize: int, alpha: real)
      ensures Valid() && userLimits == map[]
      ensures Settings() == Config(targetLimit, windowSize, alpha) && initialRPS == 0.0
    {
      userLimits := map[];
      this.targetLimit := targetLimit;
      this.windowSize := windowSize;
      this.alpha := alpha;
      initialRPS := 0.0;
    }

    method Allow(userID: string, now: int) returns (allowed: bool)
      requires Valid()
      requires userID in userLimits ==> CanStep(userLimits[userID].Current(), now)
      modifies this, userLimits.Values
      ensures Valid()
      ensures Settings() == old(Settings())
      ensures userID in userLimits && userLimits == old(userLimits)[userID := userLimits[userID]]
      ensures userID in old(userLimits) ==> userLimits[userID] == old(userLimits)[userID]
      ensures userID !in old(userLimits) ==>
        fresh(userLimits[userID]) && userLimits[userID].Settings() == Settings()
      ensures var w := userLimits[userID];
        && w.Settings() == (if userID in old(userLimits) then old(w.Settings()) else Settings())
        && Step(w.Settings(), if userID in old(userLimits) then old(w.Current()) else Initial, now)
           == Outcome(allowed, w.Current())
      ensures forall k | k in old(userLimits) && k != userID ::
        userLimits[k].Settings() == old(userLimits[k].Settings())
        && userLimits[k].Current() == old(userLimits[k].Current())
    {
      if userID !in userLimits {
        var w := new DynamicSlidingWindow(targetLimit, windowSize, alpha);
        userLimits := userLimits[userID := w];
      }
      var w := userLimits[userID];
      allowed := w.Allow(now);
    }
  }
}
