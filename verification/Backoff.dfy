/** The retry delay, as the formula promises it and as the code computes it. */
module Backoff {

  const BASE_DELAY := 30
  const MAX_DELAY := 3600

  function Pow2(n: nat): (p: nat)
    ensures 1 <= p
  {
    if n == 0 then 1 else 2 * Pow2(n - 1)
  }

  function NonNegative(n: int): nat {
    if n < 0 then 0 else n
  }

  /** The documented formula: base times 2^retryCount, capped at one hour, with no clamp on the exponent. */
  function Delay(retryCount: int): (d: int)
    ensures BASE_DELAY <= d <= MAX_DELAY
  {
    var d := BASE_DELAY * Pow2(NonNegative(retryCount));
    if d > MAX_DELAY then MAX_DELAY else d
  }

  lemma {:induction false} Pow2Monotone(m: nat, n: nat)
    requires m <= n
    ensures Pow2(m) <= Pow2(n)
    decreases n
  {
    if m < n {
      Pow2Monotone(m, n - 1);
    }
  }

  /** The delay starts at 30 seconds and doubles with every retry until it reaches an hour. */
  lemma DelayDoubles(retryCount: int)
    ensures retryCount <= 0 ==> Delay(retryCount) == 30
    ensures retryCount >= 0 ==>
      Delay(retryCount + 1) == if 2 * Delay(retryCount) > 3600 then 3600 else 2 * Delay(retryCount)
  {
    if retryCount >= 0 {
      assert Pow2(retryCount + 1) == 2 * Pow2(retryCount);
    }
  }

  /** The delays in seconds, one by one. */
  lemma DelayTable()
    ensures Delay(0) == 30 && Delay(1) == 60 && Delay(2) == 120 && Delay(3) == 240 && Delay(4) == 480
    ensures Delay(5) == 960 && Delay(6) == 1920 && forall n :: n >= 7 ==> Delay(n) == 3600
  {
    forall n | n >= 7 ensures Delay(n) == 3600 {
      assert Pow2(7) == 128;
      Pow2Monotone(7, n);
    }
  }

  /** The code clamps the exponent to 0..7 before it shifts; the delay is the formula's all the same. */
  method RetryBackoff(retryCount: int) returns (d: int)
    ensures d == Delay(retryCount)
  {
    var maxShift := 7;
    var n := retryCount;
    if n < 0 {
      n := 0;
    }
    if n > maxShift {
      n := maxShift;
      assert Pow2(7) == 128;
      Pow2Monotone(7, retryCount);
    }
    d := BASE_DELAY * Pow2(n);
    if d > MAX_DELAY {
      d := MAX_DELAY;
    }
  }
}
