/** The capped exponential delay used both by the job executor and by the outbox dispatcher. */
module Backoff {
  import opened Common

  function Pow2(n: nat): (p: nat)
    ensures p >= 1
  {
    if n == 0 then 1 else 2 * Pow2(n - 1)
  }

  /** `min(base * (1 << max(0, attempts - 1)), cap)`. */
  function RetryDelay(base: nat, cap: nat, attempts: int): int {
    Min(base * Pow2(Max(0, attempts - 1)), cap)
  }

  lemma {:induction false} Pow2Monotone(m: nat, n: nat)
    requires m <= n
    ensures Pow2(m) <= Pow2(n)
    decreases n
  {
    if m < n {
      Pow2Monotone(m, n - 1);
    }
  }

  /** Once the settings satisfy `cap >= base`, every delay lies in `[base, cap]`, grows with the
      number of attempts, doubles below the cap, and is the base on the first failure. */
  lemma RetryDelayShape(base: nat, cap: nat, a: int, b: int)
    requires base <= cap
    requires a <= b
    ensures base <= RetryDelay(base, cap, a) <= RetryDelay(base, cap, b) <= cap
    ensures a <= 1 ==> RetryDelay(base, cap, a) == base
    ensures 1 <= a ==> RetryDelay(base, cap, a + 1) == Min(2 * RetryDelay(base, cap, a), cap)
  {
    var x, y := Pow2(Max(0, a - 1)), Pow2(Max(0, b - 1));
    Pow2Monotone(Max(0, a - 1), Max(0, b - 1));
    assert base * 1 <= base * x by { MulMonotone(base, 1, x); }
    assert base * x <= base * y by { MulMonotone(base, x, y); }
    if 1 <= a {
      assert base * Pow2(a) == 2 * (base * x);
    }
  }

  lemma MulMonotone(k: nat, x: int, y: int)
    requires x <= y
    ensures k * x <= k * y
  {
  }
}
