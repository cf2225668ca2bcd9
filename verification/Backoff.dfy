// apps/outbox-relay-service/src/relay/relay-worker.service.ts: calculateNextRetryAt.
module Backoff {

  function Pow2(n: nat): (r: nat)
    ensures r > 0
  {
    if n == 0 then 1 else 2 * Pow2(n - 1)
  }

  const MAX_DELAY_SECONDS := 300

  /** `Math.min(300, 2 ** Math.max(0, retryCount - 1) * 5)` */
  function DelaySeconds(retryCount: int): int {
    var delay := Pow2(if retryCount > 1 then retryCount - 1 else 0) * 5;
    if delay < MAX_DELAY_SECONDS then delay else MAX_DELAY_SECONDS
  }

  lemma {:induction false} Pow2Monotone(a: nat, b: nat)
    requires a <= b
    ensures Pow2(a) <= Pow2(b)
    decreases b
  {
    if a < b {
      Pow2Monotone(a, b - 1);
    }
  }

  lemma DelayIsMonotoneAndBounded(a: int, b: int)
    requires a <= b
    ensures 5 <= DelaySeconds(a) <= DelaySeconds(b) <= MAX_DELAY_SECONDS
  {
    Pow2Monotone(if a > 1 then a - 1 else 0, if b > 1 then b - 1 else 0);
  }

  /** Seconds waited over the first `n` failures of one event. */
  function TotalDelay(n: nat): int {
    if n == 0 then 0 else TotalDelay(n - 1) + DelaySeconds(n)
  }

  lemma {:induction false} TotalDelayClosedForm(n: nat)
    ensures TotalDelay(n) == if n <= 6 then 5 * (Pow2(n) - 1) else 315 + 300 * (n - 6)
  {
    if 0 < n <= 6 {
      TotalDelayClosedForm(n - 1);
      Pow2Monotone(n - 1, 5);
      assert Pow2(5) == 32;
    } else if n > 6 {
      TotalDelayClosedForm(n - 1);
      Pow2Monotone(6, n - 1);
      assert Pow2(6) == 64;
    }
  }
}
