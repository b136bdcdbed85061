/** Exponential retry delays with a stable jitter and a hard cap. */
module Retry {
  import opened Basics

  datatype RawRetryPolicy = RetryPolicy(maxAttempts: int, baseDelay: int, maximumDelay: int)
  {
    predicate Valid() {
      1 <= maxAttempts <= 20 && 1 <= baseDelay <= maximumDelay
    }
  }

  type RetryPolicy = p: RawRetryPolicy | p.Valid() witness RetryPolicy(6, 5, 900)

  function Pow2(n: nat): (r: int)
    ensures 1 <= r
  {
    if n == 0 then 1 else 2 * Pow2(n - 1)
  }

  /** The delay before jitter. */
  function Backoff(p: RetryPolicy, attempts: int): int {
    Min(p.maximumDelay, p.baseDelay * Pow2(Max(0, attempts - 1)))
  }

  function Jitter(claim: nat, delay: int): int {
    claim % Max(1, Min(delay, 17))
  }

  function Delay(p: RetryPolicy, claim: nat, attempts: int): int {
    Min(p.maximumDelay, Backoff(p, attempts) + Jitter(claim, Backoff(p, attempts)))
  }

  function NextAttemptAt(p: RetryPolicy, claim: nat, attempts: int, now: int): int {
    now + Delay(p, claim, attempts)
  }

  lemma BackoffBounds(p: RetryPolicy, attempts: int)
    ensures 1 <= Backoff(p, attempts) <= p.maximumDelay
    ensures forall claim: nat :: 0 <= Jitter(claim, Backoff(p, attempts)) < Backoff(p, attempts)
  {
    var m := Pow2(Max(0, attempts - 1));
    Scale(p.baseDelay, 1, m);
    forall claim: nat ensures 0 <= Jitter(claim, Backoff(p, attempts)) < Backoff(p, attempts) {
      assert Jitter(claim, Backoff(p, attempts)) < Max(1, Min(Backoff(p, attempts), 17));
    }
  }

  lemma Scale(b: int, m: int, n: int)
    requires 0 < b && m <= n
    ensures b * m <= b * n
  {
  }

  /** One more attempt doubles the delay before jitter, up to the cap. */
  lemma BackoffDoubles(p: RetryPolicy, attempts: int)
    requires 1 <= attempts
    ensures Backoff(p, attempts + 1) == Min(p.maximumDelay, 2 * Backoff(p, attempts))
  {
    var m := Pow2(attempts - 1);
    assert Pow2(attempts) == 2 * m;
    assert p.baseDelay * (2 * m) == 2 * (p.baseDelay * m);
  }

  /** For every claim the delay is at least a second and never above the cap. */
  lemma DelayBounded(p: RetryPolicy, claim: nat, attempts: int, now: int)
    ensures now + 1 <= NextAttemptAt(p, claim, attempts, now) <= now + p.maximumDelay
  {
    BackoffBounds(p, attempts);
  }

  /** A later attempt never waits less, and waits longer as long as the doubled delay is within the cap. */
  lemma DelayGrows(p: RetryPolicy, claim: nat, attempts: int)
    ensures Delay(p, claim, attempts) <= Delay(p, claim, attempts + 1)
    ensures 1 <= attempts && 2 * Backoff(p, attempts) <= p.maximumDelay ==>
              Delay(p, claim, attempts) < Delay(p, claim, attempts + 1)
  {
    BackoffBounds(p, attempts);
    BackoffBounds(p, attempts + 1);
    if 1 <= attempts {
      BackoffDoubles(p, attempts);
    }
  }

  /** The delays of all attempts are in order, for every claim. */
  lemma {:induction false} DelayMonotone(p: RetryPolicy, claim: nat, earlier: int, later: int)
    requires earlier <= later
    ensures Delay(p, claim, earlier) <= Delay(p, claim, later)
    decreases later - earlier
  {
    if earlier < later {
      DelayMonotone(p, claim, earlier, later - 1);
      DelayGrows(p, claim, later - 1);
    }
  }

  /** The first attempt waits the base delay before jitter; jitter adds at most 16 seconds. */
  lemma DelayRange(p: RetryPolicy, claim: nat, attempts: int)
    ensures Backoff(p, 1) == p.baseDelay
    ensures attempts <= 1 ==> Backoff(p, attempts) == p.baseDelay
    ensures Backoff(p, attempts) <= Delay(p, claim, attempts) <= Min(p.maximumDelay, Backoff(p, attempts) + 16)
  {
    BackoffBounds(p, attempts);
  }

  /**
    Jitter spreads retries: away from the cap, two claims wait the same time exactly when their numbers
    agree modulo the delay before jitter, or modulo 17 when that is smaller.
  */
  lemma JitterSpreads(p: RetryPolicy, a: nat, b: nat, attempts: int)
    requires Backoff(p, attempts) + 17 <= p.maximumDelay
    ensures var span := Min(Backoff(p, attempts), 17);
            1 <= span && (Delay(p, a, attempts) == Delay(p, b, attempts) <==> a % span == b % span)
  {
    BackoffBounds(p, attempts);
    var span := Min(Backoff(p, attempts), 17);
    hide Backoff;
    assert 0 <= a % span < 17 && 0 <= b % span < 17;
  }
}
