/** The retry schedule (api/notifications/backoff.py), in seconds; floats are reals. */
module Backoff {
  import opened Options

  const BASE_DELAYS: seq<int> := [1, 5, 25, 125, 625]
  const MAX_BACKOFF_SEC: real := 3600.0
  const JITTER_RATIO: real := 0.2

  function Min(x: real, y: real): real { if x <= y then x else y }

  function Max(x: real, y: real): real { if x >= y then x else y }

  function BaseDelay(attempt: int, retryAfter: Option<real>): real {
    if retryAfter.Some? && retryAfter.value > 0.0 then Min(retryAfter.value, MAX_BACKOFF_SEC)
    else
      var i := if attempt - 1 <= 0 then 0 else if attempt - 1 >= 4 then 4 else attempt - 1;
      BASE_DELAYS[i] as real
  }

  function Jitter(random: real): real {
    (random - 0.5) * (2.0 * JITTER_RATIO)
  }

  function Times(base: real, factor: real): real {
    base * factor
  }

  function Jittered(base: real, random: real): real {
    Times(base, 1.0 + Jitter(random))
  }

  /** The delay before the next attempt, None to give up; `random` is what random_fn returned. */
  function NextDelay(attempt: int, maxAttempts: int, retryAfter: Option<real>, random: real): Option<real> {
    if attempt >= maxAttempts then None
    else Some(Max(0.0, Min(Jittered(BaseDelay(attempt, retryAfter), random), MAX_BACKOFF_SEC)))
  }

  /** random_fn returns a float in [0, 1). */
  predicate Draw(r: real) { 0.0 <= r < 1.0 }

  lemma JitterRange(r: real)
    requires Draw(r)
    ensures -0.2 <= Jitter(r) < 0.2
    ensures Jitter(r) >= 0.0 <==> r >= 0.5
  {}

  lemma PositiveProduct(a: real, b: real)
    requires a > 0.0 && b > 0.0
    ensures a * b > 0.0
  {}

  lemma TimesGrows(base: real, x: real, y: real)
    requires base > 0.0 && x < y
    ensures Times(base, x) < Times(base, y)
  {
    PositiveProduct(base, y - x);
    assert base * (y - x) == base * y - base * x;
  }

  lemma TimesConstants(base: real)
    ensures Times(base, 0.8) == base * 0.8 && Times(base, 1.2) == base * 1.2 && Times(base, 1.0) == base
  {}

  lemma TimesRange(base: real, factor: real)
    requires base > 0.0
    ensures 0.8 <= factor < 1.2 ==> 0.0 < base * 0.8 <= Times(base, factor) < base * 1.2
    ensures Times(base, factor) >= base <==> factor >= 1.0
  {
    TimesConstants(base);
    if 0.8 < factor { TimesGrows(base, 0.8, factor); }
    if factor < 1.2 { TimesGrows(base, factor, 1.2); }
    if factor < 1.0 { TimesGrows(base, factor, 1.0); }
    if factor > 1.0 { TimesGrows(base, 1.0, factor); }
  }

  lemma Scaled(base: real, r: real)
    requires base > 0.0 && Draw(r)
    ensures 0.0 < base * 0.8 <= Jittered(base, r) < base * 1.2
    ensures Jittered(base, r) >= base <==> r >= 0.5
  {
    JitterRange(r);
    TimesRange(base, 1.0 + Jitter(r));
  }

  lemma BaseIsPositive(attempt: int, retryAfter: Option<real>)
    ensures 0.0 < BaseDelay(attempt, retryAfter) <= MAX_BACKOFF_SEC
    ensures retryAfter.None? ==> BaseDelay(attempt, retryAfter) <= 625.0
  {}

  lemma CappedBounds(delay: real)
    requires delay > 0.0
    ensures 0.0 < Max(0.0, Min(delay, MAX_BACKOFF_SEC)) <= MAX_BACKOFF_SEC
    ensures delay <= MAX_BACKOFF_SEC ==> Max(0.0, Min(delay, MAX_BACKOFF_SEC)) == delay
  {}

  /** A delay is given exactly while attempts remain, and always lies in (0, 3600]. */
  lemma DelayBounds(attempt: int, maxAttempts: int, retryAfter: Option<real>, r: real)
    requires Draw(r)
    ensures var d := NextDelay(attempt, maxAttempts, retryAfter, r);
            (d.Some? <==> attempt < maxAttempts) && (d.Some? ==> 0.0 < d.value <= 3600.0)
  {
    var base := BaseDelay(attempt, retryAfter);
    BaseIsPositive(attempt, retryAfter);
    Scaled(base, r);
    CappedBounds(Jittered(base, r));
  }

  /** Five to the power of `n`. */
  function FiveTo(n: nat): real {
    if n == 0 then 1.0 else 5.0 * FiveTo(n - 1)
  }

  /** What is scheduled, in seconds: a positive Retry-After up to an hour, else 1, 5, 25, 125, and 625 from then on. */
  function Scheduled(attempt: int, retryAfter: Option<real>): real {
    if retryAfter.Some? && retryAfter.value > 0.0 then (if retryAfter.value > 3600.0 then 3600.0 else retryAfter.value)
    else FiveTo(if attempt < 1 then 0 else if attempt < 5 then attempt - 1 else 4)
  }

  lemma BaseIsScheduled(attempt: int, retryAfter: Option<real>)
    ensures BaseDelay(attempt, retryAfter) == Scheduled(attempt, retryAfter)
  {
    assert FiveTo(1) == 5.0 && FiveTo(2) == 25.0 && FiveTo(3) == 125.0 && FiveTo(4) == 625.0;
  }

  /** Within 20 percent of what is scheduled, and within the hour. */
  predicate WithinSchedule(attempt: int, retryAfter: Option<real>, delay: real) {
    var base := Scheduled(attempt, retryAfter);
    base * 0.8 <= delay < base * 1.2 && delay <= 3600.0
  }

  lemma DelayIsWithinSchedule(attempt: int, maxAttempts: int, retryAfter: Option<real>, r: real)
    requires attempt < maxAttempts && Draw(r)
    ensures WithinSchedule(attempt, retryAfter, NextDelay(attempt, maxAttempts, retryAfter, r).value)
  {
    var base := BaseDelay(attempt, retryAfter);
    BaseIsPositive(attempt, retryAfter);
    BaseIsScheduled(attempt, retryAfter);
    Scaled(base, r);
    CappedBounds(Jittered(base, r));
  }

  /** Without Retry-After the delays in seconds lie in [0.8, 1.2), [4, 6), [20, 30), [100, 150), and from the fifth
      attempt on in [500, 750). */
  lemma ScheduledDelay(attempt: int, maxAttempts: int, r: real)
    requires 1 <= attempt < maxAttempts && Draw(r)
    ensures var b := BaseDelay(attempt, None);
            var d := NextDelay(attempt, maxAttempts, None, r);
            d.Some? && b * 0.8 <= d.value < b * 1.2
            && (attempt == 1 ==> 0.8 <= d.value < 1.2) && (attempt == 2 ==> 4.0 <= d.value < 6.0)
            && (attempt == 3 ==> 20.0 <= d.value < 30.0) && (attempt == 4 ==> 100.0 <= d.value < 150.0)
            && (attempt >= 5 ==> 500.0 <= d.value < 750.0)
  {
    var base := BaseDelay(attempt, None);
    BaseIsPositive(attempt, None);
    Scaled(base, r);
    CappedBounds(Jittered(base, r));
  }

  lemma DrawFor(base: real, delay: real) returns (r: real)
    requires base > 0.0 && base * 0.8 <= delay < base * 1.2
    ensures Draw(r) && Jittered(base, r) == delay
  {
    var q := delay / base;
    assert base * q == delay;
    if q < 0.8 { TimesGrows(base, q, 0.8); }
    if q >= 1.2 { if q > 1.2 { TimesGrows(base, 1.2, q); } }
    r := (q - 1.0) / 0.4 + 0.5;
    assert 1.0 + Jitter(r) == q;
  }

  /** The jitter uses its whole range: exactly the delays of that range are drawn. */
  lemma DelaysFillTheirRange(attempt: int, maxAttempts: int, delay: real)
    requires 1 <= attempt < maxAttempts
    ensures (exists r :: Draw(r) && NextDelay(attempt, maxAttempts, None, r) == Some(delay))
            <==> WithinSchedule(attempt, None, delay)
  {
    BaseIsScheduled(attempt, None);
    BaseIsPositive(attempt, None);
    if WithinSchedule(attempt, None, delay) {
      var r := DrawFor(BaseDelay(attempt, None), delay);
      CappedBounds(delay);
      assert NextDelay(attempt, maxAttempts, None, r) == Some(delay);
    }
    if r :| Draw(r) && NextDelay(attempt, maxAttempts, None, r) == Some(delay) {
      DelayIsWithinSchedule(attempt, maxAttempts, None, r);
    }
  }

  lemma BasesGrow(k: int, j: int)
    requires 1 <= k < j <= 5
    ensures BaseDelay(k, None) * 1.2 < BaseDelay(j, None) * 0.8
  {
    assert BaseDelay(1, None) == 1.0 && BaseDelay(2, None) == 5.0 && BaseDelay(3, None) == 25.0;
    assert BaseDelay(4, None) == 125.0 && BaseDelay(5, None) == 625.0;
  }

  /** For the first five attempts every delay is longer than every delay before it, whatever the draws. */
  lemma DelaysIncrease(k: int, j: int, maxAttempts: int, rk: real, rj: real)
    requires 1 <= k < j <= 5 && j < maxAttempts && Draw(rk) && Draw(rj)
    ensures NextDelay(k, maxAttempts, None, rk).value < NextDelay(j, maxAttempts, None, rj).value
  {
    ScheduledDelay(k, maxAttempts, rk);
    ScheduledDelay(j, maxAttempts, rj);
    BasesGrow(k, j);
  }

  /** Everything one delivery waits from its first attempt to its last. */
  function TotalWait(attempt: int, maxAttempts: int, draws: seq<real>): real
    requires attempt >= 1 && |draws| == (if attempt < maxAttempts then maxAttempts - attempt else 0)
    decreases |draws|
  {
    if attempt >= maxAttempts then 0.0
    else NextDelay(attempt, maxAttempts, None, draws[0]).value + TotalWait(attempt + 1, maxAttempts, draws[1..])
  }

  function TotalBase(attempt: int, maxAttempts: int): real
    decreases maxAttempts - attempt
  {
    if attempt >= maxAttempts then 0.0 else BaseDelay(attempt, None) + TotalBase(attempt + 1, maxAttempts)
  }

  lemma {:induction false} TotalWaitBound(attempt: int, maxAttempts: int, draws: seq<real>)
    requires attempt >= 1 && |draws| == (if attempt < maxAttempts then maxAttempts - attempt else 0)
    requires forall i :: 0 <= i < |draws| ==> Draw(draws[i])
    ensures 0.8 * TotalBase(attempt, maxAttempts) <= TotalWait(attempt, maxAttempts, draws)
    ensures TotalWait(attempt, maxAttempts, draws) <= 1.2 * TotalBase(attempt, maxAttempts)
    decreases |draws|
  {
    if attempt < maxAttempts {
      ScheduledDelay(attempt, maxAttempts, draws[0]);
      TotalWaitBound(attempt + 1, maxAttempts, draws[1..]);
    }
  }

  /** Five attempts wait at most 1.2 (1 + 5 + 25 + 125) seconds in all. */
  lemma FiveAttemptsWait(draws: seq<real>)
    requires |draws| == 4 && forall i :: 0 <= i < |draws| ==> Draw(draws[i])
    ensures TotalWait(1, 5, draws) <= 1.2 * 156.0
  {
    TotalWaitBound(1, 5, draws);
    assert TotalBase(4, 5) == 125.0 + TotalBase(5, 5);
    assert TotalBase(3, 5) == 25.0 + TotalBase(4, 5);
    assert TotalBase(2, 5) == 5.0 + TotalBase(3, 5);
    assert TotalBase(1, 5) == 1.0 + TotalBase(2, 5);
  }

  lemma AtLeastCapped(seconds: real, delay: real)
    requires 0.0 < seconds <= MAX_BACKOFF_SEC
    ensures Max(0.0, Min(delay, MAX_BACKOFF_SEC)) >= seconds <==> delay >= seconds
  {}

  lemma ShortRetryAfter(attempt: int, maxAttempts: int, seconds: real, r: real)
    requires attempt < maxAttempts && 0.0 < seconds <= MAX_BACKOFF_SEC && Draw(r)
    ensures NextDelay(attempt, maxAttempts, Some(seconds), r).value >= seconds <==> r >= 0.5
  {
    Scaled(seconds, r);
    AtLeastCapped(seconds, Jittered(seconds, r));
  }

  /** The upstream's Retry-After is capped and jittered like every base, so it is waited out exactly for the upper half
      of the draws and up to the cap. */
  lemma RetryAfterIsHonouredExactlyWhen(attempt: int, maxAttempts: int, seconds: real, r: real)
    requires attempt < maxAttempts && Draw(r)
    ensures NextDelay(attempt, maxAttempts, Some(seconds), r).value >= seconds
            <==> seconds <= 0.0 || (r >= 0.5 && seconds <= 3600.0)
  {
    DelayBounds(attempt, maxAttempts, Some(seconds), r);
    if 0.0 < seconds <= MAX_BACKOFF_SEC { ShortRetryAfter(attempt, maxAttempts, seconds, r); }
  }
}
