/**
 * Wall-clock arithmetic. Timestamps are integer seconds since an epoch that
 * falls on an hour boundary (as the UTC epoch does), so the minute and second
 * fields of a Python `datetime` are recovered by division.
 */
module Clock {

  const SECONDS_PER_MINUTE: int := 60
  const SECONDS_PER_HOUR: int := 3600
  const SECONDS_PER_DAY: int := 86400

  /** The `minute` field of the timestamp. */
  function MinuteOf(t: int): (m: int)
    ensures 0 <= m < 60
  {
    (t / SECONDS_PER_MINUTE) % 60
  }

  /** The `second` field of the timestamp. */
  function SecondOf(t: int): (s: int)
    ensures 0 <= s < 60
  {
    t % SECONDS_PER_MINUTE
  }

  /** Hour count since the epoch (everything above the minute field). */
  function HourOf(t: int): int {
    t / SECONDS_PER_HOUR
  }

  /** A timestamp is recovered from its hour, minute and second fields. */
  lemma Decompose(t: int)
    ensures t == HourOf(t) * 3600 + MinuteOf(t) * 60 + SecondOf(t)
  {
  }

  /** The timestamp with the given hour, minute and second fields. */
  lemma Compose(h: int, m: int, s: int)
    requires 0 <= m < 60 && 0 <= s < 60
    ensures HourOf(h * 3600 + m * 60 + s) == h
    ensures MinuteOf(h * 3600 + m * 60 + s) == m
    ensures SecondOf(h * 3600 + m * 60 + s) == s
  {
    var t := h * 3600 + m * 60 + s;
    assert t == 60 * (60 * h + m) + s;
    assert t / 60 == 60 * h + m;
    assert t == 3600 * h + (m * 60 + s);
  }

  /**
   * Python's `int(x / n)` for an integer x: true division then truncation
   * toward zero (Dafny's `/` on int is Euclidean, so negatives are handled
   * explicitly).
   */
  function TruncDiv(a: int, n: int): (q: int)
    requires n > 0
    ensures a >= 0 ==> q == a / n
    ensures a < 0 ==> q == -((-a) / n)
  {
    if a >= 0 then a / n else -((-a) / n)
  }
}
