/** Block reward and block-size penalty (`Currency::getBlockReward`, `getPenalizedAmount`). */
module Reward {
  import opened LedgerTypes

  /** What `getPenalizedAmount` has to return: the amount scaled by c(2m-c)/m^2, rounded down. */
  function PenalizedAmount(amount: uint64, median: nat, size: nat): (r: uint64)
    requires size <= 2 * median
    ensures r <= amount
  {
    if size <= median then amount
    else
      PenaltyBelowAmount(amount, median, size);
      amount * (size * (2 * median - size)) / (median * median)
  }

  lemma {:induction false} PenaltyFactor(median: nat, size: nat)
    requires median < size <= 2 * median
    ensures 0 <= size * (2 * median - size) < median * median
  {
    var d := size - median;
    assert size * (2 * median - size) == median * median - d * d by {
      assert size == median + d && 2 * median - size == median - d;
    }
    assert 0 < d * d;
    assert d * d <= median * median;
  }

  lemma {:induction false} PenaltyBelowAmount(amount: nat, median: nat, size: nat)
    requires median < size <= 2 * median
    ensures 0 < median * median
    ensures 0 <= amount * (size * (2 * median - size)) / (median * median) <= amount
    ensures amount > 0 ==> amount * (size * (2 * median - size)) / (median * median) < amount
  {
    PenaltyFactor(median, size);
    var f, mm := size * (2 * median - size), median * median;
    if amount > 0 {
      assert amount * f < amount * mm;
    }
    DivBelow(amount * f, amount, mm);
  }

  lemma {:induction false} MulMonotone(a: nat, b: nat, d: nat)
    requires a <= b
    ensures a * d <= b * d
    ensures (a + 1) * d == a * d + d
  {
  }

  lemma {:induction false} DivBelow(x: nat, q: nat, d: nat)
    requires d > 0 && x <= q * d
    ensures 0 <= x / d <= q
    ensures x < q * d ==> x / d < q
  {
    var r := x / d;
    assert r * d <= x;
    if r > q {
      MulMonotone(q, q, d);
      MulMonotone(q + 1, r, d);
    }
  }

  lemma {:induction false} MulBound(x: nat, y: nat, maxX: nat, maxY: nat)
    requires x <= maxX && y <= maxY
    ensures 0 <= x * y <= maxX * maxY
  {
    assert x * y <= maxX * y;
    assert maxX * y <= maxX * maxY;
  }

  /** A larger block never earns more. */
  lemma {:induction false} PenaltyAntitone(amount: uint64, median: nat, size1: nat, size2: nat)
    requires size1 <= size2 <= 2 * median
    ensures PenalizedAmount(amount, median, size2) <= PenalizedAmount(amount, median, size1)
  {
    if median < size1 {
      var d1, d2 := size1 - median, size2 - median;
      PenaltyFactor(median, size1);
      PenaltyFactor(median, size2);
      FactorAntitone(median, d1, d2);
      var f1, f2 := size1 * (2 * median - size1), size2 * (2 * median - size2);
      assert amount * f2 <= amount * f1;
      DivMonotone(amount * f2, amount * f1, median * median);
    }
  }

  lemma {:induction false} FactorAntitone(median: nat, d1: nat, d2: nat)
    requires d1 <= d2 <= median
    ensures (median + d2) * (median - d2) <= (median + d1) * (median - d1)
  {
    assert (median + d2) * (median - d2) == median * median - d2 * d2;
    assert (median + d1) * (median - d1) == median * median - d1 * d1;
    MulBound(d1, d1, d2, d2);
  }

  lemma {:induction false} DivMonotone(x: nat, y: nat, d: nat)
    requires x <= y && 0 < d
    ensures x / d <= y / d
  {
    assert x == (x / d) * d + x % d && y == (y / d) * d + y % d;
    if x / d > y / d {
      MulMonotone(y / d + 1, x / d, d);
      MulMonotone(y / d, y / d, d);
    }
  }

  datatype RewardAndEmission = RewardAndEmission(reward: uint64, emission: uint64)

  lemma {:induction false} WrapDifference(base: uint64, fee: uint64, paidFee: uint64)
    ensures Wrap64(base - (fee - paidFee)) == Wrap64(Wrap64(base + paidFee) - fee)
  {
    WrapAdd(base + paidFee, 0 - fee);
  }

  /** The median size that both the miner and the validator penalise against. */
  function EffectiveMedian(medianSize: nat, fullRewardZone: nat): nat {
    if medianSize < fullRewardZone then fullRewardZone else medianSize
  }

  /**
   `getBlockReward` with the base reward as an argument. `None` is the "block too big" exit.
   The signed `emissionChange` is kept as its 64-bit pattern.
   */
  function BlockReward(baseReward: uint64, fullRewardZone: nat, medianSize: nat, size: nat,
                       fee: uint64, penalizeFee: bool): (r: Option<RewardAndEmission>)
    ensures r.Some? <==> size <= 2 * EffectiveMedian(medianSize, fullRewardZone)
    ensures r.Some? ==> r.value.emission == Wrap64(r.value.reward - fee)
  {
    var median := EffectiveMedian(medianSize, fullRewardZone);
    if size > 2 * median then None
    else
      var base := PenalizedAmount(baseReward, median, size);
      var paidFee := if penalizeFee then PenalizedAmount(fee, median, size) else fee;
      WrapDifference(base, fee, paidFee);
      Some(RewardAndEmission(Wrap64(base + paidFee), Wrap64(base - (fee - paidFee))))
  }

  // ---- How large the reward is ----

  /** What is left of an amount for a block of the given size above the median `m`. */
  function Scaled(amount: nat, m: nat, size: nat): int
    requires 0 < m
  {
    assert 0 < m * m;
    amount * size * (2 * m - size) / (m * m)
  }

  /**
   The reward, written out. Up to the median size `m` it is the base reward and the fee. Between `m` and `2m` the
   base reward, and the fee if fees are penalised, are scaled by size(2m - size)/m^2 and rounded down. A larger block
   has none. The emission is what the reward pays beyond the fee.
   */
  lemma {:induction false} RewardExactly(baseReward: uint64, fullRewardZone: nat, medianSize: nat, size: nat,
                                         fee: uint64, penalizeFee: bool)
    ensures var m := if medianSize < fullRewardZone then fullRewardZone else medianSize;
            var r := BlockReward(baseReward, fullRewardZone, medianSize, size, fee, penalizeFee);
            && (size > 2 * m ==> r == None)
            && (size <= m ==> r == Some(RewardAndEmission(Wrap64(baseReward + fee), baseReward)))
            && (m < size <= 2 * m ==>
                  var base := Scaled(baseReward, m, size);
                  var paidFee := if penalizeFee then Scaled(fee, m, size) else fee;
                  r == Some(RewardAndEmission(Wrap64(base + paidFee), Wrap64(base + paidFee - fee))))
  {
    var m := if medianSize < fullRewardZone then fullRewardZone else medianSize;
    if size <= m {
      WrapSmall(baseReward);
    } else if size <= 2 * m {
      PenaltyBelowAmount(baseReward, m, size);
      Associate(baseReward, size, 2 * m - size);
      Associate(fee, size, 2 * m - size);
    }
  }

  lemma {:induction false} Associate(x: int, y: int, z: int)
    ensures x * y * z == x * (y * z)
  {
  }

  lemma {:induction false} WrapSmall(x: uint64)
    ensures Wrap64(x) == x
  {
  }

  /**
   A larger block is never paid more, and pays its miner less than the full amount once it exceeds the median, as long
   as base reward and fee fit in 64 bits together.
   */
  lemma {:induction false} RewardAntitone(baseReward: uint64, fullRewardZone: nat, medianSize: nat, size1: nat,
                                          size2: nat, fee: uint64, penalizeFee: bool)
    requires baseReward + fee < TWO64 && size1 <= size2
    ensures var m := if medianSize < fullRewardZone then fullRewardZone else medianSize;
            var r1 := BlockReward(baseReward, fullRewardZone, medianSize, size1, fee, penalizeFee);
            var r2 := BlockReward(baseReward, fullRewardZone, medianSize, size2, fee, penalizeFee);
            && (r2.Some? ==> r1.Some? && r2.value.reward <= r1.value.reward <= baseReward + fee)
            && (r2.Some? && baseReward > 0 && m < size2 ==> r2.value.reward < baseReward + fee)
  {
    var m := if medianSize < fullRewardZone then fullRewardZone else medianSize;
    if size2 <= 2 * m {
      RewardFits(baseReward, fullRewardZone, medianSize, size1, fee, penalizeFee);
      RewardFits(baseReward, fullRewardZone, medianSize, size2, fee, penalizeFee);
      PenaltyAntitone(baseReward, m, size1, size2);
      PenaltyAntitone(fee, m, size1, size2);
      if m < size2 {
        PenaltyBelowAmount(baseReward, m, size2);
        assert PenalizedAmount(baseReward, m, size2) < baseReward || baseReward == 0;
      }
      hide PenalizedAmount, BlockReward;
    }
  }

  lemma {:induction false} RewardFits(baseReward: uint64, fullRewardZone: nat, medianSize: nat, size: nat, fee: uint64,
                                      penalizeFee: bool)
    requires baseReward + fee < TWO64 && size <= 2 * EffectiveMedian(medianSize, fullRewardZone)
    ensures var m := EffectiveMedian(medianSize, fullRewardZone);
            var r := BlockReward(baseReward, fullRewardZone, medianSize, size, fee, penalizeFee);
            && r.Some?
            && r.value.reward == PenalizedAmount(baseReward, m, size)
                                 + (if penalizeFee then PenalizedAmount(fee, m, size) else fee)
  {
    hide PenalizedAmount, Wrap64;
    var m := EffectiveMedian(medianSize, fullRewardZone);
    WrapSmall(PenalizedAmount(baseReward, m, size) + PenalizedAmount(fee, m, size));
    WrapSmall(PenalizedAmount(baseReward, m, size) + fee);
  }

  // ---- When the reward can rise with the size ----

  /** Base reward and fee as they are paid, before the sum is cut to 64 bits. */
  function Unwrapped(base: uint64, m: nat, size: nat, fee: uint64, penalizeFee: bool): (r: nat)
    requires size <= 2 * m
    ensures r < 2 * TWO64
  {
    PenalizedAmount(base, m, size) + if penalizeFee then PenalizedAmount(fee, m, size) else fee
  }

  /** The reward of a block of at most twice the median `m`. */
  function Paid(base: uint64, m: nat, size: nat, fee: uint64, penalizeFee: bool): (r: uint64)
    requires size <= 2 * m
  {
    BlockReward(base, m, m, size, fee, penalizeFee).value.reward
  }

  ghost predicate NeverRises(base: uint64, m: nat, fee: uint64, penalizeFee: bool) {
    forall s: nat, t: nat :: s <= t <= 2 * m ==>
      Paid(base, m, t, fee, penalizeFee) <= Paid(base, m, s, fee, penalizeFee)
  }

  /** The sum wraps around at most once. */
  lemma {:induction false} PaidIs(base: uint64, m: nat, size: nat, fee: uint64, penalizeFee: bool)
    requires size <= 2 * m
    ensures var u := Unwrapped(base, m, size, fee, penalizeFee);
            Paid(base, m, size, fee, penalizeFee) == if u < TWO64 then u else u - TWO64
  {
    hide PenalizedAmount;
  }

  lemma {:induction false} UnwrappedAntitone(base: uint64, m: nat, s: nat, t: nat, fee: uint64, penalizeFee: bool)
    requires s <= t <= 2 * m
    ensures Unwrapped(base, m, t, fee, penalizeFee) <= Unwrapped(base, m, s, fee, penalizeFee)
  {
    PenaltyAntitone(base, m, s, t);
    PenaltyAntitone(fee, m, s, t);
    hide PenalizedAmount;
  }

  lemma {:induction false} UnwrappedEnds(base: uint64, m: nat, fee: uint64, penalizeFee: bool)
    requires m > 0
    ensures Unwrapped(base, m, m, fee, penalizeFee) == base + fee
    ensures Unwrapped(base, m, 2 * m, fee, penalizeFee) == if penalizeFee then 0 else fee
  {
    PenaltyBelowAmount(base, m, 2 * m);
    NoFactor(base, m);
    NoFactor(fee, m);
  }

  lemma {:induction false} NoFactor(amount: uint64, m: nat)
    requires m > 0
    ensures PenalizedAmount(amount, m, 2 * m) == 0
  {
    PenaltyBelowAmount(amount, m, 2 * m);
    assert 2 * m * (2 * m - 2 * m) == 0;
  }

  /**
   The reward never rises with the size of the block exactly if base reward and fee fit in 64 bits together, or fees
   are penalised and even the block one short of twice the median is paid an amount that does not fit.
   */
  lemma {:induction false} RewardRisesExactly(base: uint64, m: nat, fee: uint64, penalizeFee: bool)
    ensures NeverRises(base, m, fee, penalizeFee) <==>
              || m == 0 || base + fee < TWO64
              || (penalizeFee && TWO64 <= Scaled(base, m, 2 * m - 1) + Scaled(fee, m, 2 * m - 1))
  {
    hide Paid, Unwrapped, Scaled, NeverRises;
    if m == 0 {
      OneSize(base, fee, penalizeFee);
      return;
    }
    UnwrappedEnds(base, m, fee, penalizeFee);
    ScaledLast(base, m, fee);
    if base + fee < TWO64 {
      AllFit(base, m, fee, penalizeFee);
    } else if !penalizeFee {
      RisesAt(base, m, m, 2 * m, fee, penalizeFee);
    } else if TWO64 <= Unwrapped(base, m, 2 * m - 1, fee, true) {
      AllWrap(base, m, fee);
    } else {
      var s := Crossing(base, m, m, 2 * m - 1, fee);
      SmallDrop(base, m, s, fee);
      RisesAt(base, m, s, s + 1, fee, true);
    }
  }

  lemma {:induction false} OneSize(base: uint64, fee: uint64, penalizeFee: bool)
    ensures NeverRises(base, 0, fee, penalizeFee)
  {
    hide Paid;
  }

  lemma {:induction false} ScaledLast(base: uint64, m: nat, fee: uint64)
    requires m > 0
    ensures Unwrapped(base, m, 2 * m - 1, fee, true) == Scaled(base, m, 2 * m - 1) + Scaled(fee, m, 2 * m - 1)
  {
    ScaledIs(base, m);
    ScaledIs(fee, m);
    hide PenalizedAmount, Scaled;
  }

  lemma {:induction false} ScaledIs(amount: uint64, m: nat)
    requires m > 0
    ensures PenalizedAmount(amount, m, 2 * m - 1) == Scaled(amount, m, 2 * m - 1)
  {
    if m == 1 {
      assert amount * 1 * 1 / 1 == amount;
    } else {
      PenaltyBelowAmount(amount, m, 2 * m - 1);
      Associate(amount, 2 * m - 1, 1);
    }
  }

  lemma {:induction false} RisesAt(base: uint64, m: nat, s: nat, t: nat, fee: uint64, penalizeFee: bool)
    requires s <= t <= 2 * m
    requires Unwrapped(base, m, t, fee, penalizeFee) < TWO64 <= Unwrapped(base, m, s, fee, penalizeFee)
    requires Unwrapped(base, m, s, fee, penalizeFee) - TWO64 < Unwrapped(base, m, t, fee, penalizeFee)
    ensures !NeverRises(base, m, fee, penalizeFee)
  {
    hide Paid, Unwrapped;
    PaidIs(base, m, s, fee, penalizeFee);
    PaidIs(base, m, t, fee, penalizeFee);
  }

  lemma {:induction false} AllFit(base: uint64, m: nat, fee: uint64, penalizeFee: bool)
    requires m > 0 && base + fee < TWO64
    ensures NeverRises(base, m, fee, penalizeFee)
  {
    hide Paid, Unwrapped;
    forall s: nat, t: nat | s <= t <= 2 * m
      ensures Paid(base, m, t, fee, penalizeFee) <= Paid(base, m, s, fee, penalizeFee)
    {
      PaidIs(base, m, s, fee, penalizeFee);
      PaidIs(base, m, t, fee, penalizeFee);
      UnwrappedAntitone(base, m, s, t, fee, penalizeFee);
      UnwrappedMost(base, m, s, fee, penalizeFee);
    }
  }

  lemma {:induction false} UnwrappedMost(base: uint64, m: nat, s: nat, fee: uint64, penalizeFee: bool)
    requires s <= 2 * m
    ensures Unwrapped(base, m, s, fee, penalizeFee) <= base + fee
  {
    hide PenalizedAmount;
  }

  lemma {:induction false} AllWrap(base: uint64, m: nat, fee: uint64)
    requires m > 0 && TWO64 <= Unwrapped(base, m, 2 * m - 1, fee, true)
    ensures NeverRises(base, m, fee, true)
  {
    hide Paid, Unwrapped;
    UnwrappedEnds(base, m, fee, true);
    PaidIs(base, m, 2 * m, fee, true);
    forall s: nat, t: nat | s <= t <= 2 * m ensures Paid(base, m, t, fee, true) <= Paid(base, m, s, fee, true) {
      if t < 2 * m {
        PaidIs(base, m, s, fee, true);
        PaidIs(base, m, t, fee, true);
        UnwrappedAntitone(base, m, s, t, fee, true);
        UnwrappedAntitone(base, m, t, 2 * m - 1, fee, true);
      }
    }
  }

  /** Somewhere between a size whose sum does not fit and one whose sum does, one step makes the difference. */
  lemma {:induction false} Crossing(base: uint64, m: nat, low: nat, high: nat, fee: uint64) returns (s: nat)
    requires low <= high <= 2 * m
    requires Unwrapped(base, m, high, fee, true) < TWO64 <= Unwrapped(base, m, low, fee, true)
    ensures low <= s < high
    ensures Unwrapped(base, m, s + 1, fee, true) < TWO64 <= Unwrapped(base, m, s, fee, true)
    decreases high - low
  {
    hide Unwrapped;
    if Unwrapped(base, m, low + 1, fee, true) < TWO64 {
      s := low;
    } else {
      s := Crossing(base, m, low + 1, high, fee);
    }
  }

  /** Below the last step of all, one step takes away about a third at most. */
  lemma {:induction false} SmallDrop(base: uint64, m: nat, s: nat, fee: uint64)
    requires m <= s <= 2 * m - 2
    ensures Unwrapped(base, m, s, fee, true) - Unwrapped(base, m, s + 1, fee, true) < TWO64
  {
    AmountDrop(base, m, s);
    AmountDrop(fee, m, s);
    hide PenalizedAmount;
  }

  lemma {:induction false} AmountDrop(amount: uint64, m: nat, s: nat)
    requires m <= s <= 2 * m - 2
    ensures 3 * (PenalizedAmount(amount, m, s) - PenalizedAmount(amount, m, s + 1)) < amount + 3
  {
    var f, g, d := s * (2 * m - s), (s + 1) * (2 * m - s - 1), m * m;
    FactorDrop(m, s);
    if s > m {
      PenaltyBelowAmount(amount, m, s);
    } else {
      WholeAmount(amount, m);
    }
    PenaltyBelowAmount(amount, m, s + 1);
    QuotientDrop(amount, f, g, d);
  }

  lemma {:induction false} WholeAmount(amount: nat, m: nat)
    requires m > 0
    ensures 0 < m * m && amount * (m * (2 * m - m)) / (m * m) == amount
  {
    assert m * (2 * m - m) == m * m;
    WholeQuotient(amount, m * m);
  }

  lemma {:induction false} WholeQuotient(a: nat, d: nat)
    requires d > 0
    ensures a * d / d == a
  {
    DivBelow(a * d, a, d);
    var q := a * d / d;
    assert a * d < q * d + d;
    if q < a {
      MulMonotone(q, q, d);
      MulMonotone(q + 1, a, d);
    }
  }

  lemma {:induction false} FactorDrop(m: nat, s: nat)
    requires m <= s <= 2 * m - 2
    ensures var f, g := s * (2 * m - s), (s + 1) * (2 * m - s - 1);
            0 <= g <= f && 3 * (f - g) <= m * m && 0 < m * m
  {
    var k := s - m;
    Difference(m, k);
    Difference(m, k + 1);
    assert s == m + k && 2 * m - s == m - k && s + 1 == m + (k + 1) && 2 * m - s - 1 == m - (k + 1);
    SquareAbove(m, k);
  }

  lemma {:induction false} Difference(m: nat, k: nat)
    ensures (m + k) * (m - k) == m * m - k * k
  {
  }

  lemma {:induction false} SquareAbove(m: nat, k: nat)
    requires k + 2 <= m
    ensures (k + 1) * (k + 1) == k * k + 2 * k + 1
    ensures 3 * (2 * k + 1) <= m * m && 0 < m * m && (k + 1) * (k + 1) <= m * m
  {
    assert 0 <= (m - 3) * (m - 3) == m * m - 6 * m + 9;
    MulBound(k + 1, k + 1, m, m);
  }

  lemma {:induction false} QuotientDrop(a: nat, f: nat, g: nat, d: nat)
    requires 0 < d && g <= f && 3 * (f - g) <= d
    ensures 3 * (a * f / d - a * g / d) < a + 3
  {
    var x, y := a * f / d, a * g / d;
    assert x * d <= a * f;
    assert a * g < (y + 1) * d;
    assert a * f - a * g == a * (f - g);
    ProductOf(a, 3 * (f - g), d);
    assert 3 * (x - y - 1) * d == 3 * (x * d - (y + 1) * d);
    if a <= 3 * (x - y - 1) {
      ProductOf(d, a, 3 * (x - y - 1));
    }
  }

  lemma {:induction false} ProductOf(a: nat, x: nat, y: nat)
    requires x <= y
    ensures a * x <= a * y
  {
  }

  /** Base reward and fee that do not fit: against a median of 2 the 64-bit reward is 1 at size 1 and 2^63 + 1 at 4. */
  lemma {:induction false} WrappedRewardRises()
    ensures var half := TWO64 / 2;
            && BlockReward(half, 2, 0, 1, half + 1, false) == Some(RewardAndEmission(1, half))
            && BlockReward(half, 2, 0, 4, half + 1, false) == Some(RewardAndEmission(half + 1, 0))
  {
    var half := TWO64 / 2;
    RewardExactly(half, 2, 0, 1, half + 1, false);
    RewardExactly(half, 2, 0, 4, half + 1, false);
    hide BlockReward;
    assert half * 4 * 0 / 4 == 0;
  }
}
