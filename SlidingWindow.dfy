/**
 * The arithmetic shared by the two EWMA sliding-window limiters
 * (493819/ideal3.go and 493819/a3.go): pruning the timestamp history to the
 * window, the per-call rate, and the exponentially weighted moving average.
 */
module SlidingWindow {
  import opened Clock

  /** Timestamp t is still inside the window of the given size ending at now. */
  predicate InWindow(t: int, now: int, window: int) {
    now - t <= window
  }

  /**
   * The prune loop: the timestamps still inside the window, in their
   * original order.
   */
  function Prune(ts: seq<int>, now: int, window: int): (r: seq<int>)
    ensures |r| <= |ts|
    ensures forall i | 0 <= i < |r| :: r[i] in ts && InWindow(r[i], now, window)
    decreases |ts|
  {
    if ts == [] then []
    else
      var last := ts[|ts| - 1];
      Prune(ts[..|ts| - 1], now, window) + (if InWindow(last, now, window) then [last] else [])
  }

  /** Pruning distributes over concatenation, so order is kept. */
  lemma {:induction false} PruneAppend(a: seq<int>, b: seq<int>, now: int, window: int)
    ensures Prune(a + b, now, window) == Prune(a, now, window) + Prune(b, now, window)
    decreases |b|
  {
    if b == [] {
      assert a + b == a;
    } else {
      var b' := b[..|b| - 1];
      assert (a + b)[..|a + b| - 1] == a + b';
      assert (a + b)[|a + b| - 1] == b[|b| - 1];
      PruneAppend(a, b', now, window);
    }
  }

  /** Every timestamp inside the window survives pruning. */
  lemma {:induction false} PruneKeepsInWindow(ts: seq<int>, now: int, window: int, i: nat)
    requires i < |ts| && InWindow(ts[i], now, window)
    ensures ts[i] in Prune(ts, now, window)
    decreases |ts|
  {
    if i < |ts| - 1 {
      assert ts[..|ts| - 1][i] == ts[i];
      PruneKeepsInWindow(ts[..|ts| - 1], now, window, i);
    }
  }

  /** Pruning an already pruned history changes nothing. */
  lemma {:induction false} PruneIdempotent(ts: seq<int>, now: int, window: int)
    ensures Prune(Prune(ts, now, window), now, window) == Prune(ts, now, window)
    decreases |ts|
  {
    if ts != [] {
      var init := ts[..|ts| - 1];
      var last := ts[|ts| - 1];
      var tail := if InWindow(last, now, window) then [last] else [];
      PruneAppend(Prune(init, now, window), tail, now, window);
      PruneIdempotent(init, now, window);
      if InWindow(last, now, window) {
        assert Prune(tail, now, window) == Prune([], now, window) + [last];
      }
    }
  }

  /** A history that lies wholly inside the window is untouched. */
  lemma {:induction false} PruneAllInWindow(ts: seq<int>, now: int, window: int)
    requires forall i | 0 <= i < |ts| :: InWindow(ts[i], now, window)
    ensures Prune(ts, now, window) == ts
    decreases |ts|
  {
    if ts != [] {
      PruneAllInWindow(ts[..|ts| - 1], now, window);
    }
  }

  /** Ascending order of timestamps. */
  predicate Ascending(ts: seq<int>) {
    forall i, j | 0 <= i < j < |ts| :: ts[i] <= ts[j]
  }

  /** Pruning keeps an ascending history ascending. */
  lemma {:induction false} PruneAscending(ts: seq<int>, now: int, window: int)
    requires Ascending(ts)
    ensures Ascending(Prune(ts, now, window))
    decreases |ts|
  {
    if ts != [] {
      var init := ts[..|ts| - 1];
      var last := ts[|ts| - 1];
      PruneAscending(init, now, window);
      var p := Prune(init, now, window);
      forall k | 0 <= k < |p| ensures p[k] <= last {
        var j :| 0 <= j < |init| && init[j] == p[k];
      }
    }
  }

  /** Pruning keeps an upper bound on the timestamps. */
  lemma PruneBounded(ts: seq<int>, now: int, window: int, hi: int)
    requires forall i | 0 <= i < |ts| :: ts[i] <= hi
    ensures forall i | 0 <= i < |Prune(ts, now, window)| :: Prune(ts, now, window)[i] <= hi
  {
    var p := Prune(ts, now, window);
    forall i | 0 <= i < |p| ensures p[i] <= hi {
      var j :| 0 <= j < |ts| && ts[j] == p[i];
    }
  }

  /** Appending a timestamp no earlier than all others keeps the order. */
  lemma AscendingAppend(ts: seq<int>, t: int)
    requires Ascending(ts)
    requires forall i | 0 <= i < |ts| :: ts[i] <= t
    ensures Ascending(ts + [t])
  {
  }

  /** The per-call rate: admitted timestamps per second of elapsed time. */
  function Rate(count: nat, elapsed: int): (r: real)
    requires elapsed > 0
    ensures r >= 0.0
    ensures count == 0 ==> r == 0.0
  {
    count as real / Seconds(elapsed)
  }

  /** One EWMA update: alpha * sample + (1 - alpha) * previous. */
  function Ewma(alpha: real, sample: real, previous: real): real {
    alpha * sample + (1.0 - alpha) * previous
  }

  /** With alpha in [0, 1] the new estimate lies between the old one and the sample. */
  lemma EwmaBetween(alpha: real, sample: real, previous: real)
    requires 0.0 <= alpha <= 1.0
    ensures sample <= previous ==> sample <= Ewma(alpha, sample, previous) <= previous
    ensures previous <= sample ==> previous <= Ewma(alpha, sample, previous) <= sample
  {
    var e := Ewma(alpha, sample, previous);
    assert e - sample == (1.0 - alpha) * (previous - sample);
    assert e - previous == alpha * (sample - previous);
    if sample <= previous {
      MulNonNegative(1.0 - alpha, previous - sample);
      MulNonNegative(alpha, previous - sample);
    } else {
      MulNonNegative(1.0 - alpha, sample - previous);
      MulNonNegative(alpha, sample - previous);
    }
  }

  lemma MulNonNegative(x: real, y: real)
    requires 0.0 <= x && 0.0 <= y
    ensures 0.0 <= x * y
  {
  }

  function Power(x: real, n: nat): real
    decreases n
  {
    if n == 0 then 1.0 else x * Power(x, n - 1)
  }

  /** n updates with the same sample. */
  function EwmaRepeat(alpha: real, sample: real, start: real, n: nat): real
    decreases n
  {
    if n == 0 then start else Ewma(alpha, sample, EwmaRepeat(alpha, sample, start, n - 1))
  }

  /**
   * Feeding a constant sample shrinks the distance to it by the factor
   * (1 - alpha) per update, so the estimate converges to the sample.
   */
  lemma {:induction false} EwmaConverges(alpha: real, sample: real, start: real, n: nat)
    ensures EwmaRepeat(alpha, sample, start, n) - sample == Power(1.0 - alpha, n) * (start - sample)
    decreases n
  {
    if n > 0 {
      EwmaConverges(alpha, sample, start, n - 1);
      var prev := EwmaRepeat(alpha, sample, start, n - 1);
      assert Ewma(alpha, sample, prev) - sample == (1.0 - alpha) * (prev - sample);
    }
  }

  /** alpha = 0.5, estimate 0 and a sample of 10: 5.0, then 7.5, then 8.75. */
  lemma EwmaProgression()
    ensures EwmaRepeat(0.5, 10.0, 0.0, 1) == 5.0
    ensures EwmaRepeat(0.5, 10.0, 0.0, 2) == 7.5
    ensures EwmaRepeat(0.5, 10.0, 0.0, 3) == 8.75
  {
  }
}
