/**
 The retry schedule of segment downloads (retryBackoff and parseRetryAfter in
 jetstream/segmentfetch.go). Durations are nanoseconds in a signed 64-bit integer.
 */
module Backoff {
  import opened Common

  const MAX_RETRY_WAIT: nat := 30_000_000_000

  function Pow2(n: nat): (p: nat)
    ensures p >= 1
  {
    if n == 0 then 1 else 2 * Pow2(n - 1)
  }

  const SECOND: nat := 1_000_000_000

  /** The Retry-After header as read: a number of seconds, a date so far away, or nothing usable. */
  datatype RetryAfter = Absent | Delta(seconds: Int64) | Date(away: Int64)

  /** The response's wish: `reset` is how far away a readable RateLimit-Reset is. */
  datatype Headers = Headers(reset: Option<Int64>, retryAfter: RetryAfter)

  /** RateLimit-Reset first, Retry-After if that says nothing; seconds are multiplied in 64 bits. */
  function Wish(h: Headers): Int64 {
    if h.reset.Some? && h.reset.value != 0 then h.reset.value
    else match h.retryAfter
      case Absent => 0
      case Delta(seconds) => Wrap64(seconds * SECOND)
      case Date(away) => away
  }

  /** The wait the headers ask for, clamped: absent and malformed ones and dates gone by count as zero. */
  function ParseRetryAfter(h: Headers): (wait: nat)
    ensures wait <= MAX_RETRY_WAIT
    ensures 0 <= Wish(h) <= MAX_RETRY_WAIT ==> wait == Wish(h)
    ensures Wish(h) <= 0 ==> wait == 0
  {
    var until := Wish(h);
    if until < 0 then 0 else if until > MAX_RETRY_WAIT then MAX_RETRY_WAIT else until
  }

  /** What a number of seconds should come to: no wait if negative, and never more than the cap. */
  function Clamped(product: int): nat {
    if product < 0 then 0 else if product < MAX_RETRY_WAIT then product else MAX_RETRY_WAIT
  }

  /**
   A number of seconds is honoured unless the multiplication wraps it across a clamp:
   exactly the negative ones whose product does not wrap to a positive wait, and the
   others whose product is short enough or stays past the cap.
   */
  lemma DeltaHonoured(seconds: Int64)
    ensures var product := seconds * SECOND;
            var low := product % (MAX_UINT64 + 1);
            ParseRetryAfter(Headers(None, Delta(seconds))) == Clamped(product)
            <==> if product < 0 then low == 0 || low > MAX_INT64
                 else product < MAX_RETRY_WAIT || MAX_RETRY_WAIT <= low <= MAX_INT64
  {
  }

  /** Nearly six hundred years wrap to under a third of a second, and as many in the past to over two thirds. */
  lemma DeltaWraps()
    ensures ParseRetryAfter(Headers(None, Delta(18_446_744_074))) == 290_448_384
    ensures ParseRetryAfter(Headers(None, Delta(-18_446_744_073))) == 709_551_616
  {
  }

  /** The exponential schedule alone; the shift is guarded by comparing against the shifted cap. */
  function Scheduled(base: nat, attempt: nat): nat
    requires 1 <= attempt
  {
    if attempt - 1 < 63 && base < MAX_RETRY_WAIT / Pow2(attempt - 1)
    then base * Pow2(attempt - 1)
    else MAX_RETRY_WAIT
  }

  /** The delay before a retry: the longer of the schedule and the server's own wish. */
  function RetryBackoff(base: nat, attempt: nat, headers: Headers): nat
    requires 1 <= attempt
  {
    var wish, delay := ParseRetryAfter(headers), Scheduled(base, attempt);
    if wish > delay then wish else delay
  }

  /** RateLimit-Reset counts first, even when it has passed; only at zero is Retry-After looked at. */
  lemma HeadersRead(reset: Int64, retryAfter: RetryAfter, away: Int64)
    ensures reset != 0 ==> ParseRetryAfter(Headers(Some(reset), retryAfter)) == Clamped(reset)
    ensures ParseRetryAfter(Headers(Some(0), retryAfter)) == ParseRetryAfter(Headers(None, retryAfter))
    ensures ParseRetryAfter(Headers(None, Date(away))) == Clamped(away)
    ensures ParseRetryAfter(Headers(None, Absent)) == 0
  {
  }

  /** The server's wish is waited for, and so is the schedule: the delay is the longer of the two. */
  lemma DelayHonours(base: nat, attempt: nat, headers: Headers)
    requires 1 <= attempt
    ensures var delay := RetryBackoff(base, attempt, headers);
            && ParseRetryAfter(headers) <= delay && Scheduled(base, attempt) <= delay
            && (delay == ParseRetryAfter(headers) || delay == Scheduled(base, attempt))
  {
  }

  /** Below the shifted cap, the shifted base stays below the cap: the shift cannot overflow. */
  lemma ShiftFits(base: nat, p: nat, cap: nat)
    requires p >= 1 && base < cap / p
    ensures base * p <= cap - p
  {
    assert base + 1 <= cap / p;
    MulMono(base + 1, cap / p, p);
    assert (cap / p) * p <= cap;
  }

  /** Every scheduled delay is base * 2^(attempt-1) or the cap, and stays within the cap. */
  lemma ScheduleBounded(base: nat, attempt: nat)
    requires 1 <= attempt
    ensures Scheduled(base, attempt) <= MAX_RETRY_WAIT <= MAX_INT64
    ensures Scheduled(base, attempt) == base * Pow2(attempt - 1) || Scheduled(base, attempt) == MAX_RETRY_WAIT
  {
    if base < MAX_RETRY_WAIT / Pow2(attempt - 1) {
      ShiftFits(base, Pow2(attempt - 1), MAX_RETRY_WAIT);
    }
  }

  /** For every base, attempt and header the delay lies in [0, 30s]. */
  lemma DelayBounded(base: nat, attempt: nat, headers: Headers)
    requires 1 <= attempt
    ensures RetryBackoff(base, attempt, headers) <= MAX_RETRY_WAIT
  {
    ScheduleBounded(base, attempt);
  }

  lemma DivAntitone(cap: nat, p: nat, q: nat)
    requires 1 <= p <= q
    ensures cap / q <= cap / p
  {
    assert cap < (cap / p + 1) * p;
    MulMono(p, q, cap / p + 1);
    if cap / q > cap / p { MulMono(cap / p + 1, cap / q, q); }
  }

  lemma {:induction false} ScheduleStep(base: nat, attempt: nat)
    requires 1 <= attempt
    ensures Scheduled(base, attempt) <= Scheduled(base, attempt + 1)
  {
    ScheduleBounded(base, attempt);
    ScheduleBounded(base, attempt + 1);
    DivAntitone(MAX_RETRY_WAIT, Pow2(attempt - 1), Pow2(attempt));
    if base < MAX_RETRY_WAIT / Pow2(attempt) {
      MulMono(Pow2(attempt - 1), Pow2(attempt), base);
    }
  }

  /** The schedule never shrinks as attempts go on. */
  lemma {:induction false} DelayNonDecreasing(base: nat, a: nat, b: nat, headers: Headers)
    requires 1 <= a <= b
    ensures RetryBackoff(base, a, headers) <= RetryBackoff(base, b, headers)
  {
    if a < b {
      DelayNonDecreasing(base, a, b - 1, headers);
      ScheduleStep(base, b - 1);
    }
  }

  lemma {:induction false} Pow2Grows(n: nat)
    requires n >= 35
    ensures Pow2(n) > MAX_RETRY_WAIT
  {
    if n > 35 {
      Pow2Grows(n - 1);
    } else {
      assert Pow2(5) == 32;
      assert Pow2(10) == 1024;
      assert Pow2(15) == 32768;
      assert Pow2(20) == 1_048_576;
      assert Pow2(25) == 33_554_432;
      assert Pow2(30) == 1_073_741_824;
      assert Pow2(35) == 34_359_738_368;
    }
  }

  lemma ShiftedGuard(base: nat, p: nat, cap: nat)
    requires p >= 1
    ensures (base * p < cap && !(base < cap / p)) <==> (base == cap / p && cap % p != 0)
  {
    assert cap == (cap / p) * p + cap % p;
    if base < cap / p { ShiftFits(base, p, cap); }
    if base > cap / p {
      MulMono(cap / p + 1, base, p);
      assert (cap / p + 1) * p == (cap / p) * p + p;
    }
  }

  /**
   The guard compares base with the shifted cap, which is not the same as
   comparing the shifted base with the cap. For every attempt the schedule jumps to
   the cap early in exactly one case: the base equals the shifted cap and the shift
   lost a remainder.
   */
  lemma EarlyCap(base: nat, attempt: nat)
    requires 1 <= attempt
    ensures var p := Pow2(attempt - 1);
            Scheduled(base, attempt) == MAX_RETRY_WAIT && base * p < MAX_RETRY_WAIT
            <==> base == MAX_RETRY_WAIT / p && MAX_RETRY_WAIT % p != 0
  {
    var p := Pow2(attempt - 1);
    ShiftedGuard(base, p, MAX_RETRY_WAIT);
    if base < MAX_RETRY_WAIT / p { ShiftFits(base, p, MAX_RETRY_WAIT); }
    if attempt - 1 >= 63 { Pow2Grows(attempt - 1); }
  }

  /** Such a base exists: at the twelfth attempt the documented equivalence fails. */
  lemma EarlyCapHappens()
    ensures 14_648_437 * Pow2(11) < MAX_RETRY_WAIT && Scheduled(14_648_437, 12) == MAX_RETRY_WAIT
  {
    assert Pow2(2) == 4;
    assert Pow2(5) == 32;
    assert Pow2(8) == 256;
    assert Pow2(11) == 2048;
  }
}
