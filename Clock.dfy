/**
 * Time in the model is an integer count of nanoseconds passed in by the
 * caller (Go's time.Now() becomes a parameter `now`); durations are
 * differences of such counts, as Go's time.Duration is.
 */
module Clock {

  const Nanosecond: int := 1
  const Second: int := 1_000_000_000 * Nanosecond
  const Minute: int := 60 * Second

  /** The zero time.Time, which `IsZero` recognises. */
  const ZeroTime: int := 0

  /** Duration.Seconds(): a duration in seconds, as a real number. */
  function Seconds(d: int): (s: real)
    ensures d > 0 ==> s > 0.0
    ensures d == Second ==> s == 1.0
  {
    d as real / Second as real
  }
}
