/** `RecoveryConfig::delay_before_retry`: a checked shift, a saturating product and a cap, all in
    `u64`, against the unbounded formula min(base * 2^k, cap). */
module Backoff {
  import opened Base

  const U32_MAX: nat := 0xFFFF_FFFF
  const U64_MAX: nat := 0xFFFF_FFFF_FFFF_FFFF

  function Pow2(k: nat): (r: nat)
    ensures r > 0
  {
    if k == 0 then 1 else 2 * Pow2(k - 1)
  }

  /** `1_u64.checked_shl(shift).unwrap_or(u64::MAX)` */
  function ShiftedOne(shift: nat): nat {
    if shift < 64 then Pow2(shift) else U64_MAX
  }

  /** `u64::saturating_mul` */
  function SaturatingMul(a: nat, b: nat): nat {
    Min(a * b, U64_MAX)
  }

  function DelayBeforeRetry(base: nat, cap: nat, completedRetries: nat): nat {
    var shift := Min(completedRetries, U32_MAX);   // u32::try_from(..).unwrap_or(u32::MAX)
    Min(SaturatingMul(base, ShiftedOne(shift)), cap)
  }

  lemma {:induction false} Pow2Monotone(i: nat, j: nat)
    requires i <= j
    ensures Pow2(i) <= Pow2(j)
    decreases j
  {
    if i < j { Pow2Monotone(i, j - 1); }
  }

  lemma {:induction false} Pow2Sum(i: nat, j: nat)
    ensures Pow2(i + j) == Pow2(i) * Pow2(j)
    decreases j
  {
    if j > 0 {
      Pow2Sum(i, j - 1);
      assert Pow2(i + j) == 2 * Pow2(i + (j - 1));
    }
  }

  lemma Pow2Of64()
    ensures Pow2(64) == U64_MAX + 1
  {
    Squares(8, 256);
    Squares(16, 0x1_0000);
    Squares(32, 0x1_0000_0000);
  }

  lemma Squares(k: nat, p: nat)
    requires Pow2(k) == p
    ensures Pow2(k + k) == p * p
  {
    Pow2Sum(k, k);
  }

  lemma MulMonotone(a: nat, b: nat, c: nat)
    requires b <= c
    ensures a * b <= a * c
  {
  }

  /** For every retry count, however large, the fixed-width code is the unbounded formula. */
  lemma BackoffIsExact(base: nat, cap: nat, k: nat)
    requires base <= U64_MAX && cap <= U64_MAX
    ensures DelayBeforeRetry(base, cap, k) == Min(base * Pow2(k), cap)
  {
    var shift := Min(k, U32_MAX);
    if shift >= 64 && base > 0 {
      Pow2Of64();
      Pow2Monotone(64, k);
      MulMonotone(base, 1, U64_MAX);
      MulMonotone(base, U64_MAX, Pow2(k));
      MulMonotone(U64_MAX, 1, base);
      assert base * U64_MAX >= U64_MAX;
    }
  }

  /** Later delays are never shorter, and none exceeds the cap. */
  lemma BackoffIsMonotone(base: nat, cap: nat, j: nat, k: nat)
    requires base <= U64_MAX && cap <= U64_MAX && j <= k
    ensures DelayBeforeRetry(base, cap, j) <= DelayBeforeRetry(base, cap, k) <= cap
  {
    BackoffIsExact(base, cap, j);
    BackoffIsExact(base, cap, k);
    Pow2Monotone(j, k);
    MulMonotone(base, Pow2(j), Pow2(k));
  }
}
