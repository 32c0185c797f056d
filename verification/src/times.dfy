/**
 * Go's `time` package as the model needs it: an instant is a whole number of
 * nanoseconds since the Unix epoch (unbounded, like Go's wall clock), a
 * `time.Duration` is an `int64` of nanoseconds, and `t.Sub(u)` saturates at
 * the ends of the `int64` range. The clock is never read: "now" is a parameter.
 */
module Times {
  const Second: int := 1_000_000_000
  const Minute: int := 60 * Second
  const Hour: int := 60 * Minute

  const MinInt64: int := -0x8000_0000_0000_0000
  const MaxInt64: int := 0x7fff_ffff_ffff_ffff

  /** The zero `time.Time`, January 1 of year 1, 00:00:00 UTC. */
  const ZeroTime: int := -62_135_596_800 * Second

  predicate IsZero(t: int) {
    t == ZeroTime
  }

  /** `t.Sub(u)`: the difference, clamped to what a Duration can hold; it keeps the sign. */
  function Sub(t: int, u: int): (d: int)
    ensures MinInt64 <= d <= MaxInt64
    ensures MinInt64 <= t - u <= MaxInt64 ==> d == t - u
    ensures d > 0 <==> t > u
    ensures d <= t - u <==> t - u >= MinInt64
  {
    if t - u > MaxInt64 then MaxInt64 else if t - u < MinInt64 then MinInt64 else t - u
  }

  /** `time.Until(t)` at the instant `now`. */
  function Until(t: int, now: int): int {
    Sub(t, now)
  }

  /** `now.After(t)`. */
  predicate After(now: int, t: int) {
    now > t
  }
}
