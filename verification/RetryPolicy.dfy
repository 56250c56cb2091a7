/**
 * Backoff arithmetic of the claim worker (domain/services/retry-policy.ts).
 * Delays are real milliseconds; the draw of Math.random() is the argument `jitter`.
 */
module RetryPolicy {
  datatype ErrorClass = Auth | RateLimit | Transient | Permanent

  datatype Decision = Decision(shouldRetry: bool, delayMs: real)

  const DEAD := Decision(false, 0.0)
  const AUTH_RETRY_MS: real := 300000.0
  const TRANSIENT_CAP_MS: real := 300000.0
  const RATE_LIMIT_FLOOR_MS: real := 60000.0
  const RATE_LIMIT_CAP_MS: real := 1800000.0

  function Pow2(n: nat): (r: real)
    ensures r >= 1.0
  {
    if n == 0 then 1.0 else 2.0 * Pow2(n - 1)
  }

  function Min(a: real, b: real): real { if a <= b then a else b }

  function Exponent(attempt: int): nat { if attempt >= 1 then attempt - 1 else 0 }

  function RateLimitDelay(attempt: int): real {
    Min(RATE_LIMIT_FLOOR_MS * Pow2(Exponent(attempt)), RATE_LIMIT_CAP_MS)
  }

  function TransientDelay(attempt: int, jitter: real): real {
    Jittered(1000.0 * Pow2(Exponent(attempt)), jitter)
  }

  function Jittered(base: real, jitter: real): real {
    Min(base + jitter * (base * 0.3), TRANSIENT_CAP_MS)
  }

  function Decide(attempt: int, errorClass: ErrorClass, maxAttempts: int, jitter: real): Decision {
    if errorClass == Permanent then DEAD
    else if attempt >= maxAttempts then DEAD
    else match errorClass
      case Auth => Decision(true, AUTH_RETRY_MS)
      case RateLimit => Decision(true, RateLimitDelay(attempt))
      case _ => Decision(true, TransientDelay(attempt, jitter))
  }

  ghost predicate Draw(jitter: real) { 0.0 <= jitter < 1.0 }

  lemma ScaledDown(x: real, y: real)
    requires 0.0 <= x <= 1.0 && y >= 0.0
    ensures 0.0 <= x * y <= y
  {
    var rest := 1.0 - x;
    assert rest * y >= 0.0;
    assert (rest + x) * y == rest * y + x * y;
  }

  /** The jittered step never reaches the next doubling: a draw adds less than 30% of the base. */
  lemma JitterBounds(base: real, jitter: real)
    requires base >= 0.0 && Draw(jitter)
    ensures Min(base, TRANSIENT_CAP_MS) <= Jittered(base, jitter) <= Min(1.3 * base, TRANSIENT_CAP_MS)
  {
    var span := base * 0.3;
    ScaledDown(jitter, span);
    assert base + jitter * span <= 1.3 * base;
  }

  lemma {:induction false} Pow2Monotone(a: nat, b: nat)
    requires a <= b
    ensures Pow2(a) <= Pow2(b)
    decreases b
  {
    if a < b {
      Pow2Monotone(a, b - 1);
    }
  }

  /** Every granted delay lies in its class's window, and a retry is granted exactly while attempts remain. */
  lemma DecisionBounds(attempt: int, errorClass: ErrorClass, maxAttempts: int, jitter: real)
    requires Draw(jitter)
    ensures var d := Decide(attempt, errorClass, maxAttempts, jitter);
      && (d.shouldRetry <==> errorClass != Permanent && attempt < maxAttempts)
      && (!d.shouldRetry ==> d.delayMs == 0.0)
      && (d.shouldRetry && errorClass == Auth ==> d.delayMs == 300000.0)
      && (d.shouldRetry && errorClass == Transient ==> 1000.0 <= d.delayMs <= 300000.0)
      && (d.shouldRetry && errorClass == RateLimit ==> 60000.0 <= d.delayMs <= 1800000.0)
  {
    JitterBounds(1000.0 * Pow2(Exponent(attempt)), jitter);
  }

  lemma RateLimitMonotone(a: int, b: int)
    requires a <= b
    ensures RateLimitDelay(a) <= RateLimitDelay(b)
  {
    Pow2Monotone(Exponent(a), Exponent(b));
  }

  ghost predicate StepsUp(attempt: int) {
    forall j, k :: Draw(j) && Draw(k) ==> TransientDelay(attempt, j) <= TransientDelay(attempt + 1, k)
  }

  lemma SameExponentBreaksOrder(attempt: int)
    requires attempt < 1
    ensures !StepsUp(attempt)
  {
    assert Exponent(attempt) == Exponent(attempt + 1) == 0;
    assert Pow2(0) == 1.0;
    assert Draw(0.5) && Draw(0.0);
    assert TransientDelay(attempt, 0.5) > TransientDelay(attempt + 1, 0.0);
  }

  /**
   * Whatever the two draws, the transient delay does not shrink from one attempt to the next,
   * and this holds for exactly the attempts the worker passes (it counts from 1). Attempts 0 and 1
   * share the exponent 0, so there a large draw can exceed a small one.
   */
  lemma TransientMonotoneIff(attempt: int)
    ensures StepsUp(attempt) <==> attempt >= 1
  {
    if attempt >= 1 {
      assert Pow2(Exponent(attempt + 1)) == 2.0 * Pow2(Exponent(attempt));
      forall j, k | Draw(j) && Draw(k)
        ensures TransientDelay(attempt, j) <= TransientDelay(attempt + 1, k)
      {
        JitterBounds(1000.0 * Pow2(Exponent(attempt)), j);
        JitterBounds(1000.0 * Pow2(Exponent(attempt + 1)), k);
      }
    } else {
      SameExponentBreaksOrder(attempt);
    }
  }

  // ---------------------------------------------------------------- the delays themselves

  /** A minute, doubled with every further attempt, and half an hour from the sixth on. */
  lemma RateLimitDelays(attempt: int)
    ensures attempt <= 1 ==> RateLimitDelay(attempt) == 60000.0
    ensures attempt == 2 ==> RateLimitDelay(attempt) == 120000.0
    ensures attempt == 3 ==> RateLimitDelay(attempt) == 240000.0
    ensures attempt == 4 ==> RateLimitDelay(attempt) == 480000.0
    ensures attempt == 5 ==> RateLimitDelay(attempt) == 960000.0
    ensures attempt >= 6 ==> RateLimitDelay(attempt) == 1800000.0
  {
    Powers();
    if attempt >= 6 {
      Pow2Monotone(5, Exponent(attempt));
    }
  }

  /** A second, doubled with every further attempt, plus up to three tenths by the draw; five minutes at most. */
  lemma TransientDelays(attempt: int, jitter: real)
    requires Draw(jitter)
    ensures attempt <= 1 ==> TransientDelay(attempt, jitter) == 1000.0 + 300.0 * jitter
    ensures attempt == 2 ==> TransientDelay(attempt, jitter) == 2000.0 + 600.0 * jitter
    ensures attempt == 3 ==> TransientDelay(attempt, jitter) == 4000.0 + 1200.0 * jitter
    ensures attempt == 4 ==> TransientDelay(attempt, jitter) == 8000.0 + 2400.0 * jitter
    ensures attempt == 5 ==> TransientDelay(attempt, jitter) == 16000.0 + 4800.0 * jitter
    ensures attempt == 6 ==> TransientDelay(attempt, jitter) == 32000.0 + 9600.0 * jitter
    ensures attempt == 7 ==> TransientDelay(attempt, jitter) == 64000.0 + 19200.0 * jitter
    ensures attempt == 8 ==> TransientDelay(attempt, jitter) == 128000.0 + 38400.0 * jitter
    ensures attempt == 9 ==> 256000.0 <= TransientDelay(attempt, jitter) <= 300000.0
    ensures attempt >= 10 ==> TransientDelay(attempt, jitter) == 300000.0
  {
    Powers();
    if attempt >= 9 {
      Pow2Monotone(8, Exponent(attempt));
      JitterBounds(1000.0 * Pow2(Exponent(attempt)), jitter);
    }
    if attempt >= 10 {
      Pow2Monotone(9, Exponent(attempt));
    }
  }

  lemma Powers()
    ensures Pow2(0) == 1.0 && Pow2(1) == 2.0 && Pow2(2) == 4.0 && Pow2(3) == 8.0 && Pow2(4) == 16.0
    ensures Pow2(5) == 32.0 && Pow2(6) == 64.0 && Pow2(7) == 128.0 && Pow2(8) == 256.0 && Pow2(9) == 512.0
  {
    assert Pow2(4) == 16.0;
    assert Pow2(6) == 64.0;
    assert Pow2(8) == 256.0;
  }

  /** Which of the two applies, and the fixed delay of an authentication failure. */
  lemma DecisionDelays(attempt: int, errorClass: ErrorClass, maxAttempts: int, jitter: real)
    requires errorClass != Permanent && attempt < maxAttempts
    ensures Decide(attempt, errorClass, maxAttempts, jitter).delayMs ==
      if errorClass == Auth then 300000.0
      else if errorClass == RateLimit then RateLimitDelay(attempt) else TransientDelay(attempt, jitter)
  {
  }
}
