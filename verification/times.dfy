/** The part of Go's `time.Time` the filter relies on. A time without a
    monotonic reading keeps its whole seconds since January 1 of year 1 in an
    int64 and its nanoseconds apart; `Before` and `After` compare those two
    numbers and nothing else (the location plays no part). */
module Times {
  import opened Strconv

  /** Seconds from January 1 of year 1 to the Unix epoch. */
  const UnixToInternal: int := 62135596800

  const TwoTo64: int := 0x1_0000_0000_0000_0000

  /** The largest Unix second whose internal seconds still fit an int64. */
  const MaxExactUnix: int := MaxInt64 - UnixToInternal

  /** An instant: internal seconds (an int64) and nanoseconds (below 10^9). */
  datatype Instant = Instant(sec: int, nsec: int)

  /** Two's-complement wrap-around of a 64-bit signed addition. */
  function Wrap64(x: int): (r: int)
    ensures InInt64(r)
    ensures (r - x) % TwoTo64 == 0
    ensures InInt64(x) ==> r == x
  {
    var m := (x - MinInt64) % TwoTo64;
    assert InInt64(x) ==> m == x - MinInt64;
    m + MinInt64
  }

  /** `time.Unix(ts, 0)`: the internal seconds are `ts + UnixToInternal` in
      int64 arithmetic, so they wrap for the last `UnixToInternal` seconds of
      the int64 range. */
  function Unix(ts: int): (t: Instant)
    ensures InInt64(t.sec) && t.nsec == 0
    ensures ts <= MaxExactUnix && InInt64(ts) ==> t.sec == ts + UnixToInternal
    ensures MaxExactUnix < ts <= MaxInt64 ==> t.sec == ts + UnixToInternal - TwoTo64
  {
    Instant(Wrap64(ts + UnixToInternal), 0)
  }

  /** `Time.Unix`: back to Unix seconds, again in int64 arithmetic. */
  function UnixSeconds(t: Instant): (ts: int)
    ensures InInt64(ts)
  {
    Wrap64(t.sec - UnixToInternal)
  }

  /** `Time.Before`: earlier seconds, or the same second and fewer nanoseconds. */
  predicate Before(t: Instant, u: Instant) {
    t.sec < u.sec || (t.sec == u.sec && t.nsec < u.nsec)
  }

  /** `Time.After`: later seconds, or the same second and more nanoseconds. */
  predicate After(t: Instant, u: Instant) {
    t.sec > u.sec || (t.sec == u.sec && t.nsec > u.nsec)
  }

  /** `After` is `Before` with the arguments swapped, and neither holds of an
      instant and itself. */
  lemma AfterIsConverse(t: Instant, u: Instant)
    ensures After(t, u) <==> Before(u, t)
    ensures !Before(t, t) && !After(t, t)
  {
  }

  /** A Unix time survives the trip through `time.Unix` and `Time.Unix`, wrap
      or no wrap. */
  lemma {:induction false} UnixRoundTrip(ts: int)
    requires InInt64(ts)
    ensures UnixSeconds(Unix(ts)) == ts
  {
    var s := Unix(ts).sec;
    var back := UnixSeconds(Unix(ts));
    assert (s - (ts + UnixToInternal)) % TwoTo64 == 0;
    assert (back - (s - UnixToInternal)) % TwoTo64 == 0;
    ModSum(s - (ts + UnixToInternal), back - (s - UnixToInternal));
    assert back - ts == (s - (ts + UnixToInternal)) + (back - (s - UnixToInternal));
    NearMultiple(back - ts);
  }

  lemma ModSum(a: int, b: int)
    requires a % TwoTo64 == 0 && b % TwoTo64 == 0
    ensures (a + b) % TwoTo64 == 0
  {
    var p := a / TwoTo64;
    var q := b / TwoTo64;
    assert a == p * TwoTo64 && b == q * TwoTo64;
    assert a + b == (p + q) * TwoTo64;
  }

  /** Two int64 values congruent modulo 2^64 are equal. */
  lemma NearMultiple(d: int)
    requires -TwoTo64 < d < TwoTo64 && d % TwoTo64 == 0
    ensures d == 0
  {
  }

  /** Below the wrap, comparing the instants of two Unix times compares the
      numbers. */
  lemma UnixOrder(a: int, b: int)
    requires InInt64(a) && InInt64(b) && a <= MaxExactUnix && b <= MaxExactUnix
    ensures Before(Unix(a), Unix(b)) <==> a < b
    ensures After(Unix(a), Unix(b)) <==> a > b
  {
  }

  /** Past the wrap the order breaks: the largest int64 Unix time comes out
      before November 2023. */
  lemma UnixWraps()
    ensures Before(Unix(MaxInt64), Unix(1700000000))
    ensures Unix(MaxInt64).sec < 0
  {
  }
}
