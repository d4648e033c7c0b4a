/** The delay before each automatic retry of a dead-lettered operation: doubling, then capped. */
module Backoff {
  import opened Arithmetic

  /** Delays in the unit of the clock; the attempt limit is at least 1. */
  datatype Settings = Settings(baseDelay: nat, maxDelay: nat, maxAttempts: nat, batchSize: nat)

  function Pow2(n: nat): (r: nat)
    ensures r >= 1
  {
    if n == 0 then 1 else 2 * Pow2(n - 1)
  }

  /** `compute_backoff`. */
  function ComputeBackoff(s: Settings, attempts: nat): int {
    Min(s.baseDelay * Pow2(attempts), s.maxDelay)
  }

  /** The delays before the first `n` retries together. */
  function TotalBackoff(s: Settings, n: nat): int {
    if n == 0 then 0 else TotalBackoff(s, n - 1) + ComputeBackoff(s, n - 1)
  }

  /** How many of the first `n` delays are not cut by the cap. */
  function Knee(s: Settings, n: nat): (k: nat)
    ensures k <= n
  {
    if n == 0 then 0
    else if s.baseDelay * Pow2(n - 1) <= s.maxDelay then n
    else Knee(s, n - 1)
  }

  lemma {:induction false} Doubles(a: nat, n: nat)
    ensures a * Pow2(n + 1) == a * Pow2(n) + a * Pow2(n)
    ensures a * Pow2(n) >= 0
  {
  }

  /** Delays grow, so the ones below the cap are exactly those before the knee. */
  lemma {:induction false} KneeSplits(s: Settings, n: nat, k: nat)
    requires k < n
    ensures k < Knee(s, n) <==> s.baseDelay * Pow2(k) <= s.maxDelay
  {
    if s.baseDelay * Pow2(n - 1) <= s.maxDelay {
      DelaysGrow(s, k, n - 1);
    } else if k < n - 1 {
      KneeSplits(s, n - 1, k);
    }
  }

  lemma {:induction false} DelaysGrow(s: Settings, a: nat, b: nat)
    requires a <= b
    ensures s.baseDelay * Pow2(a) <= s.baseDelay * Pow2(b)
    decreases b
  {
    if a < b {
      DelaysGrow(s, a, b - 1);
      Doubles(s.baseDelay, b - 1);
    }
  }

  lemma {:induction false} TotalBelowCap(s: Settings, n: nat)
    requires Knee(s, n) == n
    ensures TotalBackoff(s, n) == s.baseDelay * Pow2(n) - s.baseDelay
  {
    if n > 0 {
      if n > 1 {
        KneeSplits(s, n, n - 2);
      }
      TotalBelowCap(s, n - 1);
      Doubles(s.baseDelay, n - 1);
    }
  }

  /** A geometric part up to the knee, and after it the cap again and again. */
  lemma {:induction false} TotalClosedForm(s: Settings, n: nat)
    ensures var k := Knee(s, n);
            TotalBackoff(s, n) == s.baseDelay * Pow2(k) - s.baseDelay + s.maxDelay * (n - k)
  {
    if Knee(s, n) == n {
      TotalBelowCap(s, n);
    } else {
      TotalClosedForm(s, n - 1);
      OneMoreRound(s.maxDelay, n - 1 - Knee(s, n));
      assert ComputeBackoff(s, n - 1) == s.maxDelay;
    }
  }
}
