// Retry arithmetic of the queue: the clamped exponential delay and the status that follows a failure.
module Retry {
  import opened Prelude

  datatype RunStatus = Queued | Running | Succeeded | Failed

  const RUN_CAP := 300
  const SUMMARY_CAP := 900

  function Pow2(n: nat): (p: nat)
    ensures p >= 1
  {
    if n == 0 then 1 else 2 * Pow2(n - 1)
  }

  // The exponent is clamped at 20, and only then is the cap applied.
  function RetryDelay(attempts: int, cap: int): Result<int, Problem> {
    if attempts < 1 then Err(AttemptsTooSmall)
    else Ok(Min(cap, Pow2(Min(attempts - 1, 20))))
  }

  function SummaryRetryDelay(attempts: int): Result<int, Problem> {
    RetryDelay(attempts, SUMMARY_CAP)
  }

  function FailureStatus(attempts: int, maxAttempts: int, retryable: bool): Result<RunStatus, Problem> {
    if attempts < 1 || maxAttempts < 1 || attempts > maxAttempts then Err(InvalidCounters)
    else if !retryable then Ok(Failed)
    else if attempts < maxAttempts then Ok(Queued)
    else Ok(Failed)
  }

  // The delay of a claimed attempt of a run, which is never refused for attempts >= 1.
  function Delay(attempts: int): int
    requires attempts >= 1
  {
    RetryDelay(attempts, RUN_CAP).value
  }

  lemma {:induction false} Pow2Monotone(a: nat, b: nat)
    requires a <= b
    ensures Pow2(a) <= Pow2(b)
    decreases b
  {
    if a < b {
      Pow2Monotone(a, b - 1);
    }
  }

  ghost function IdealDelay(attempts: int, cap: int): int
    requires attempts >= 1
  {
    Min(cap, Pow2(attempts - 1))
  }

  // Clamping the exponent is invisible exactly for the caps that do not exceed 2^20.
  lemma DelayIsIdealIff(cap: int)
    ensures (forall a :: a >= 1 ==> RetryDelay(a, cap) == Ok(IdealDelay(a, cap))) <==> cap <= Pow2(20)
  {
    if cap <= Pow2(20) {
      forall a | a >= 1
        ensures RetryDelay(a, cap) == Ok(IdealDelay(a, cap))
      {
        if a - 1 > 20 {
          Pow2Monotone(20, a - 1);
        }
      }
    } else {
      assert Pow2(21) == 2 * Pow2(20);
      assert RetryDelay(22, cap) != Ok(IdealDelay(22, cap));
    }
  }

  // Neither cap in use sees the clamp.
  lemma DelaysInUseAreIdeal(attempts: int)
    requires attempts >= 1
    ensures RetryDelay(attempts, 300) == Ok(IdealDelay(attempts, 300))
    ensures SummaryRetryDelay(attempts) == Ok(IdealDelay(attempts, 900))
  {
    assert Pow2(10) == 1024;
    Pow2Monotone(10, 20);
    DelayIsIdealIff(300);
    DelayIsIdealIff(900);
  }

  lemma DelayMonotone(a: int, b: int, cap: int)
    requires 1 <= a <= b
    ensures RetryDelay(a, cap).Ok? && RetryDelay(b, cap).Ok?
    ensures RetryDelay(a, cap).value <= RetryDelay(b, cap).value <= cap
  {
    Pow2Monotone(Min(a - 1, 20), Min(b - 1, 20));
  }

  ghost function DelaySum(n: nat): int {
    if n == 0 then 0 else DelaySum(n - 1) + Delay(n)
  }

  // The first n retries of a run wait 2^n - 1 seconds in all up to the ninth, then 300 more each.
  lemma {:induction false} DelaySumClosedForm(n: nat)
    ensures n <= 9 ==> DelaySum(n) == Pow2(n) - 1
    ensures n >= 9 ==> DelaySum(n) == 511 + 300 * (n - 9)
  {
    assert Pow2(8) == 256 && Pow2(9) == 512;
    if n > 0 {
      DelaySumClosedForm(n - 1);
      if n <= 9 {
        Pow2Monotone(n - 1, 8);
      } else {
        Pow2Monotone(9, Min(n - 1, 20));
      }
    }
  }
}
