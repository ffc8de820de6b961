/** The halving schedule and the supply clamp applied when mining. */
module RewardSchedule {
  import opened LedgerTypes

  function Pow2(n: nat): (p: nat)
    ensures p >= 1
  {
    if n == 0 then 1 else 2 * Pow2(n - 1)
  }

  /** Issuance at which the subsidy has halved `n` times: cap * (1 - 2^-n). */
  function Threshold(n: nat): real
  {
    MaxSupply * (1.0 - 1.0 / (Pow2(n) as real))
  }

  /** The halving count found by scanning thresholds n, n+1, ..., 63 and
      stopping at the first one not yet reached. */
  function CountFrom(total: real, n: nat): (c: nat)
    requires 1 <= n <= 64
    ensures n - 1 <= c <= 63
    decreases 64 - n
  {
    if n == 64 then 63
    else if total >= Threshold(n) then CountFrom(total, n + 1)
    else n - 1
  }

  /** Number of halvings that have happened at cumulative issuance `total`. */
  function Halvings(total: real): nat
  {
    CountFrom(total, 1)
  }

  /** Subsidy before clamping: BaseReward / 2^Halvings(total). */
  function Reward(total: real): real
  {
    BaseReward / (Pow2(Halvings(total)) as real)
  }

  /** Subsidy actually paid: cut down to what is left under the cap. */
  function ClampedReward(total: real): real
  {
    var r := Reward(total);
    if total + r > MaxSupply then
      (if MaxSupply - total > 0.0 then MaxSupply - total else 0.0)
    else r
  }

  lemma {:induction false} CountFromIsLargest(total: real, n: nat)
    requires 1 <= n <= 64
    requires forall j :: 1 <= j < n ==> Threshold(j) <= total
    ensures forall j :: 1 <= j <= CountFrom(total, n) ==> Threshold(j) <= total
    ensures CountFrom(total, n) < 63 ==> total < Threshold(CountFrom(total, n) + 1)
    decreases 64 - n
  {
    if n < 64 && total >= Threshold(n) {
      CountFromIsLargest(total, n + 1);
    }
  }

  /** Halvings(total) is the largest n in 0..63 such that every threshold
      1..n has been reached: the thresholds up to it are reached and the
      next one is not. */
  lemma HalvingsIsLargest(total: real)
    ensures Halvings(total) <= 63
    ensures forall j :: 1 <= j <= Halvings(total) ==> Threshold(j) <= total
    ensures Halvings(total) < 63 ==> total < Threshold(Halvings(total) + 1)
  {
    CountFromIsLargest(total, 1);
  }

  /** No threshold is reached below the first one, so the count is 0. */
  lemma HalvingsBeforeFirstThreshold(total: real)
    requires total < Threshold(1)
    ensures Halvings(total) == 0
    ensures Reward(total) == BaseReward
  {
  }

  lemma {:induction false} Pow2Monotone(a: nat, b: nat)
    requires a <= b
    ensures Pow2(a) <= Pow2(b)
    decreases b
  {
    if a < b {
      Pow2Monotone(a, b - 1);
    }
  }

  /** The thresholds rise strictly and stay below the cap. */
  lemma {:induction false} ThresholdsRise(m: nat, n: nat)
    requires m < n
    ensures Threshold(m) < Threshold(n) < MaxSupply
    decreases n
  {
    var p := Pow2(n) as real;
    assert Pow2(n) == 2 * Pow2(n - 1);
    if m < n - 1 {
      ThresholdsRise(m, n - 1);
    }
    var q := Pow2(n - 1) as real;
    assert 1.0 / p < 1.0 / q by {
      assert p == 2.0 * q;
    }
  }

  lemma {:induction false} CountFromMonotone(t1: real, t2: real, n: nat)
    requires t1 <= t2
    requires 1 <= n <= 64
    ensures CountFrom(t1, n) <= CountFrom(t2, n)
    decreases 64 - n
  {
    if n < 64 && t1 >= Threshold(n) {
      CountFromMonotone(t1, t2, n + 1);
    }
  }

  /** The subsidy is positive and never above BaseReward. */
  lemma RewardBounds(total: real)
    ensures 0.0 < Reward(total) <= BaseReward
  {
    var p := Pow2(Halvings(total)) as real;
    assert p >= 1.0;
  }

  /** More issuance never means a larger subsidy. */
  lemma RewardNonIncreasing(t1: real, t2: real)
    requires t1 <= t2
    ensures Reward(t2) <= Reward(t1)
  {
    CountFromMonotone(t1, t2, 1);
    Pow2Monotone(Halvings(t1), Halvings(t2));
    DivideByLarger(BaseReward, Pow2(Halvings(t1)) as real, Pow2(Halvings(t2)) as real);
  }

  lemma DivideByLarger(a: real, x: real, y: real)
    requires 0.0 <= a && 0.0 < x <= y
    ensures a / y <= a / x
  {
    var u, v := a / x, a / y;
    assert u * x == a && v * y == a;
    assert v >= 0.0;
    assert v * x <= v * y;
  }

  /** The clamp keeps cumulative issuance under the cap and never pays a
      negative amount. */
  lemma ClampKeepsSupply(total: real)
    ensures 0.0 <= ClampedReward(total)
    ensures ClampedReward(total) <= Reward(total)
    ensures total <= MaxSupply ==> total + ClampedReward(total) <= MaxSupply
  {
    RewardBounds(total);
  }

  /** A block pays a positive subsidy exactly while issuance is below the cap. */
  lemma ClampedRewardPositiveIff(total: real)
    ensures ClampedReward(total) > 0.0 <==> total < MaxSupply
  {
    RewardBounds(total);
  }
}
