/**
 Retry back-off of internal/notifications/worker.go: the schedule, the Retry-After header (section
 10.2.3 of RFC 9110) and the 64-bit arithmetic between them. Durations are nanoseconds.
 */
module Backoff {
  import opened Options

  const MINUTE := 60_000_000_000
  const HOUR := 3600_000_000_000
  const SCHEDULE := [MINUTE, 5 * MINUTE, 15 * MINUTE, HOUR, 4 * HOUR, 12 * HOUR]

  /** Two's-complement wrap-around of 64-bit integers. */
  function Wrap64(x: int): (r: int)
    ensures -0x8000_0000_0000_0000 <= r < 0x8000_0000_0000_0000
    ensures -0x8000_0000_0000_0000 <= x < 0x8000_0000_0000_0000 ==> r == x
  {
    (x + 0x8000_0000_0000_0000) % 0x1_0000_0000_0000_0000 - 0x8000_0000_0000_0000
  }

  /** A Retry-After value: delta-seconds that fit a 64-bit integer, a date this far ahead, or neither. */
  datatype RetryAfter = Absent | Seconds(n: int) | Date(ahead: int)

  function ParseRetryAfter(v: RetryAfter): (d: int)
    ensures d <= HOUR
  {
    match v
    case Seconds(n) => if n > 0 then Min(Wrap64(n * 1_000_000_000), HOUR) else 0
    case Date(ahead) => Min(Max(ahead, 0), HOUR)
    case Absent => 0
  }

  /** A date is honoured as far ahead as it lies, up to an hour; one that has passed, no header and no positive number
      of seconds ask for nothing. */
  lemma OtherHeaders(v: RetryAfter)
    ensures v.Absent? || (v.Seconds? && v.n <= 0) ==> ParseRetryAfter(v) == 0
    ensures v.Date? ==> 0 <= ParseRetryAfter(v) <= 3600_000_000_000
    ensures v.Date? && v.ahead <= 0 ==> ParseRetryAfter(v) == 0
    ensures v.Date? && 0 <= v.ahead <= 3600_000_000_000 ==> ParseRetryAfter(v) == v.ahead
    ensures v.Date? && 3600_000_000_000 <= v.ahead ==> ParseRetryAfter(v) == 3600_000_000_000
  {
  }

  datatype Delay = GiveUp | After(delay: int)

  function RetryDelay(attempt: int, retryable: bool, retryAfter: int): Delay {
    if !retryable || attempt < 1 || attempt > |SCHEDULE| then GiveUp
    else
      var delay := SCHEDULE[attempt - 1];
      After(if retryAfter > delay then Min(retryAfter, HOUR) else delay)
  }

  /** With a parsed header the delay is the longer of schedule and header, for every header and attempt. */
  lemma HeaderNeverShortensBackoff(attempt: int, v: RetryAfter)
    requires 1 <= attempt <= 6
    ensures RetryDelay(attempt, true, ParseRetryAfter(v)) == After(Max(SCHEDULE[attempt - 1], ParseRetryAfter(v)))
    ensures RetryDelay(attempt, true, ParseRetryAfter(v)).delay >= SCHEDULE[attempt - 1]
  {
  }

  /** `retryDelay` on its own shortens the schedule exactly for waits beyond a step that is itself beyond an hour. */
  lemma RawRetryDelayShortensIff(attempt: int, retryAfter: int)
    requires 1 <= attempt <= 6
    ensures RetryDelay(attempt, true, retryAfter).delay < SCHEDULE[attempt - 1]
            <==> retryAfter > SCHEDULE[attempt - 1] && attempt >= 5
  {
  }

  /** It would: after the fifth failure five hours asked for become one instead of the four scheduled. */
  lemma RawRetryDelayCanShorten()
    ensures RetryDelay(5, true, 5 * HOUR) == After(HOUR) && HOUR < SCHEDULE[4]
  {
  }

  /** Delta-seconds are honoured, up to the hour cap, exactly when they are at most an hour or their
      product with a second still reads as an hour or more in 64 bits. */
  lemma SecondsAreHonouredIff(n: int)
    requires 0 < n
    ensures ParseRetryAfter(Seconds(n)) == Min(n * 1_000_000_000, HOUR)
            <==> n <= 3600 || HOUR <= n * 1_000_000_000 % 0x1_0000_0000_0000_0000 < 0x8000_0000_0000_0000
    ensures n <= 9_223_372_036 ==> ParseRetryAfter(Seconds(n)) == Min(n * 1_000_000_000, HOUR)
  {
    var p := n * 1_000_000_000;
    var m := p % 0x1_0000_0000_0000_0000;
    assert Wrap64(p) == if m < 0x8000_0000_0000_0000 then m else m - 0x1_0000_0000_0000_0000 by {
      var q := p / 0x1_0000_0000_0000_0000;
      assert p == q * 0x1_0000_0000_0000_0000 + m;
      if m < 0x8000_0000_0000_0000 {
        assert (p + 0x8000_0000_0000_0000) / 0x1_0000_0000_0000_0000 == q;
      } else {
        assert (p + 0x8000_0000_0000_0000) / 0x1_0000_0000_0000_0000 == q + 1;
      }
    }
  }

  /** One second more overflows, and a server asking for 292 years is read as asking for nothing. */
  lemma LongestWaitsOverflow()
    ensures ParseRetryAfter(Seconds(9_223_372_037)) < 0
    ensures RetryDelay(1, true, ParseRetryAfter(Seconds(9_223_372_037))) == After(MINUTE)
    ensures ParseRetryAfter(Seconds(9_223_372_036)) == HOUR
  {
  }
}
