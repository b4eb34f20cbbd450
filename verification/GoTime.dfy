/**
 Go's clock arithmetic. An instant is a count of nanoseconds; a time.Duration
 is an int64, so products wrap and time.Time.Sub saturates.
 */
module GoTime {
  type Instant = int
  type Duration = int

  const TWO_63 := 0x8000_0000_0000_0000
  const TWO_64 := 0x1_0000_0000_0000_0000
  const MICROSECOND := 1_000
  const SECOND := 1_000_000_000
  const MINUTE := 60 * SECOND
  const HOUR := 60 * MINUTE

  predicate FitsInt64(n: int) {
    -TWO_63 <= n < TWO_63
  }

  /** The int64 an exact integer result is stored as. */
  function Wrap(n: int): int {
    (n + TWO_63) % TWO_64 - TWO_63
  }

  /** a.Sub(b): saturates at the ends of the int64 range. */
  function Sub(a: Instant, b: Instant): Duration {
    if a - b >= TWO_63 then TWO_63 - 1 else if a - b < -TWO_63 then -TWO_63 else a - b
  }

  /** What a TIMESTAMPTZ column keeps of an instant: whole microseconds. */
  function Micro(t: Instant): (m: Instant)
    ensures m <= t < m + MICROSECOND && m % MICROSECOND == 0
  {
    t - t % MICROSECOND
  }

  lemma MicroAgain(t: Instant)
    ensures Micro(Micro(t)) == Micro(t)
  {
  }

  /** time.Duration(n) * unit */
  function Times(n: int, unit: Duration): Duration {
    Wrap(Wrap(n) * unit)
  }

  lemma WrapFits(n: int)
    ensures FitsInt64(Wrap(n))
    ensures Wrap(n) == n <==> FitsInt64(n)
  {
  }

  /** Durations of whole microseconds compare the same before and after the later instant is cut off. */
  lemma MicroCompares(a: Instant, b: Instant, d: Duration)
    requires d % MICROSECOND == 0
    ensures a - Micro(b) >= d <==> Micro(a) - Micro(b) >= d
  {
    var q, r, e := a / MICROSECOND, b / MICROSECOND, d / MICROSECOND;
    assert Micro(a) == q * MICROSECOND && Micro(b) == r * MICROSECOND && d == e * MICROSECOND;
  }

  /** Saturation never changes the outcome of comparing a non-negative elapsed time with a duration. */
  lemma SubComparesExactly(a: Instant, b: Instant, d: Duration)
    requires FitsInt64(d)
    requires b <= a
    ensures Sub(a, b) >= d <==> a - b >= d
  {
  }
}
