/** The exponential backoff object `RoundTrip` builds: factor 2, no jitter, delays in
    nanoseconds between `min` and `max`. The schedule is an integer model of the library's. */
module ExponentialBackoff {

  /** 2^n. */
  function Pow2(n: nat): (p: nat)
    ensures p >= 1
  {
    if n == 0 then 1 else 2 * Pow2(n - 1)
  }

  /** `min` doubled `n` times, that is min·2^n (`DoubledIsPow2`). */
  function Doubled(min: nat, n: nat): (g: nat)
    ensures g >= min
    ensures n > 0 ==> g >= 2 * min
  {
    if n == 0 then min else 2 * Doubled(min, n - 1)
  }

  lemma {:induction false} DoubledMonotone(min: nat, n: nat, m: nat)
    requires n <= m
    ensures Doubled(min, n) <= Doubled(min, m)
  {
    if n < m {
      DoubledMonotone(min, n, m - 1);
    }
  }

  lemma {:induction false} DoubledIsPow2(min: nat, n: nat)
    ensures Doubled(min, n) == min * Pow2(n)
  {
    if n > 0 {
      DoubledIsPow2(min, n - 1);
      assert min * Pow2(n) == 2 * (min * Pow2(n - 1));
    }
  }

  /** The delay for the given attempt, counting from 0: `min` doubled `attempt` times,
      capped at `max`. */
  function ForAttempt(min: nat, max: nat, attempt: nat): (d: nat)
    ensures d <= max
    ensures min <= max ==> min <= d
  {
    var grown := Doubled(min, attempt);
    if grown < max then grown else max
  }

  /** The schedule in closed form: min·2^attempt, capped at `max`. */
  lemma ForAttemptIsCappedPower(min: nat, max: nat, attempt: nat)
    ensures ForAttempt(min, max, attempt) == if min * Pow2(attempt) < max then min * Pow2(attempt) else max
  {
    DoubledIsPow2(min, attempt);
  }

  /** The first delay is `min`, or `max` when that is smaller. */
  lemma ForAttemptFirst(min: nat, max: nat)
    ensures ForAttempt(min, max, 0) == if min < max then min else max
  {
  }

  /** Each delay is the previous one doubled, until the cap is reached. */
  lemma ForAttemptDoubles(min: nat, max: nat, attempt: nat)
    ensures var d := ForAttempt(min, max, attempt);
      ForAttempt(min, max, attempt + 1) == if 2 * d < max then 2 * d else max
  {
  }

  /** Delays never shrink from one attempt to a later one. */
  lemma ForAttemptMonotone(min: nat, max: nat, n: nat, m: nat)
    requires n <= m
    ensures ForAttempt(min, max, n) <= ForAttempt(min, max, m)
  {
    DoubledMonotone(min, n, m);
  }

  /** A backoff object: its configuration and the number of delays already handed out. */
  class Backoff {
    const min: nat
    const max: nat
    var attempt: nat

    constructor (min: nat, max: nat)
      ensures this.min == min && this.max == max && attempt == 0
    {
      this.min := min;
      this.max := max;
      attempt := 0;
    }

    /** The delay for the current attempt; advances the attempt counter. */
    method Duration() returns (d: nat)
      modifies this`attempt
      ensures d == ForAttempt(min, max, old(attempt))
      ensures attempt == old(attempt) + 1
    {
      d := ForAttempt(min, max, attempt);
      attempt := attempt + 1;
    }
  }
}
