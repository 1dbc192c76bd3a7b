/**
 The base fee recurrence of EIP-1559 (Specification section) with Berachain's floors, over single
 steps and over whole chains (src/chainspec/mod.rs).
 */
module BaseFee {
  import opened Base
  import opened ChainSpec
  import opened Header

  /****** Integer division ******/

  lemma DivisorPositive(target: nat, denominator: nat)
    requires target > 0 && denominator > 0
    ensures target * denominator > 0
  {
  }

  lemma ProductNonNegative(a: nat, b: nat)
    ensures a * b >= 0
  {
  }

  lemma ProductGrows(a: nat, b: nat, d: nat)
    requires a <= b
    ensures a * d <= b * d
  {
  }

  lemma QuotientBelow(n: nat, d: nat, q: nat)
    requires d > 0 && n < (q + 1) * d
    ensures n / d <= q
  {
    var k := n / d;
    assert k * d <= n;
    if k > q {
      ProductGrows(q + 1, k, d);
    }
  }

  lemma QuotientAbove(n: nat, d: nat, q: nat)
    requires d > 0 && q * d <= n
    ensures q <= n / d
  {
    var k := n / d;
    assert n < (k + 1) * d;
    if q > k {
      ProductGrows(k + 1, q, d);
    }
  }

  lemma QuotientGrows(a: nat, b: nat, d: nat)
    requires d > 0 && a <= b
    ensures a / d <= b / d
  {
    var q := b / d;
    assert b < (q + 1) * d;
    QuotientBelow(a, d, q);
  }

  lemma QuotientShift(n: nat, m: nat, d: nat)
    requires d > 0
    ensures n + m * d >= 0 && (n + m * d) / d == n / d + m
  {
    ProductNonNegative(m, d);
    var q := n / d;
    assert q * d <= n < (q + 1) * d;
    assert (q + m) * d == q * d + m * d;
    assert (q + m + 1) * d == (q + 1) * d + m * d;
    QuotientBelow(n + m * d, d, q + m);
    QuotientAbove(n + m * d, d, q + m);
  }

  /** The quotient `b / k`, never more than b. */
  function Share(b: nat, k: nat): (q: nat)
    requires k > 0
    ensures q <= b
    ensures q == 0 <==> b < k
  {
    ShareBounds(b, k);
    b / k
  }

  lemma ShareBounds(b: nat, k: nat)
    requires k > 0
    ensures b / k <= b
    ensures b / k == 0 <==> b < k
  {
    ProductGrows(1, k, b + 1);
    QuotientBelow(b, k, b);
    if b < k {
      QuotientBelow(b, k, 0);
    } else {
      QuotientAbove(b, k, 1);
    }
  }

  lemma ShareAbove(b: nat, k: nat)
    requires k > 0
    ensures Share(b, k) * k <= b < (Share(b, k) + 1) * k
  {
  }

  /****** The recurrence ******/

  const ELASTICITY: U64 := 2
  const ETHEREUM_DENOMINATOR: U128 := 8

  function GasTarget(gasLimit: U64): U64 {
    gasLimit / ELASTICITY
  }

  /** The divisor of the recurrence is not zero when it is needed, and its product fits a u128. */
  predicate Divisible(gasUsed: U64, gasLimit: U64, denominator: U128) {
    && denominator > 0
    && GasTarget(gasLimit) * denominator < TWO_128
    && (GasTarget(gasLimit) == 0 ==> gasUsed == 0)
  }

  /** `base_fee * distance / (target * denominator)` */
  function Change(baseFee: nat, distance: nat, target: nat, denominator: nat): nat
    requires target > 0 && denominator > 0
  {
    DivisorPositive(target, denominator);
    ProductNonNegative(baseFee, distance);
    baseFee * distance / (target * denominator)
  }

  /** A cast to u64, and wrapping u64 arithmetic. */
  function Wrap64(x: nat): (w: U64)
    ensures x < TWO_64 ==> w == x
  {
    x % TWO_64
  }

  /** `calc_next_block_base_fee`, with the casts to u64 and the wrapping sum written out. */
  function RawBaseFee(gasUsed: U64, gasLimit: U64, baseFee: U64, denominator: U128): U64
    requires Divisible(gasUsed, gasLimit, denominator)
  {
    var target := GasTarget(gasLimit);
    if gasUsed == target then baseFee
    else if gasUsed > target then
      Wrap64(baseFee + Wrap64(Max(1, Change(baseFee, gasUsed - target, target, denominator))))
    else
      Max(0, baseFee - Wrap64(Change(baseFee, target - gasUsed, target, denominator)))
  }

  /** The parameters configured for Prague1 serve from Prague1 on. */
  function DenominatorAt(spec: ChainSpec, timestamp: U64): U128 {
    if IsActive(spec, Prague2, timestamp) then spec.denominator
    else if IsActive(spec, Prague1, timestamp) then spec.denominator
    else ETHEREUM_DENOMINATOR
  }

  function FloorAt(spec: ChainSpec, timestamp: U64): U64 {
    if IsActive(spec, Osaka1, timestamp) then spec.osaka1MinimumBaseFee
    else if IsActive(spec, Prague2, timestamp) then spec.prague2MinimumBaseFee
    else if IsActive(spec, Prague1, timestamp) then spec.prague1MinimumBaseFee
    else 0
  }

  predicate DivisibleHeader(spec: ChainSpec, parent: BerachainHeader) {
    Divisible(parent.gasUsed, parent.gasLimit, DenominatorAt(spec, parent.timestamp))
  }

  /** `next_block_base_fee`: parameters and floor are those of the parent's timestamp. */
  function NextBlockBaseFee(spec: ChainSpec, parent: BerachainHeader): Option<U64>
    requires DivisibleHeader(spec, parent)
  {
    if parent.baseFeePerGas.None? then None
    else
      var raw := RawBaseFee(parent.gasUsed, parent.gasLimit, parent.baseFeePerGas.value,
                            DenominatorAt(spec, parent.timestamp));
      Some(Max(raw, FloorAt(spec, parent.timestamp)))
  }

  /****** One step ******/

  /** A distance up to the target moves the fee by at most its denominator's share ... */
  lemma ChangeBound(b: nat, distance: nat, target: nat, k: nat)
    requires target > 0 && k > 0 && distance <= target
    ensures Change(b, distance, target, k) <= Share(b, k)
  {
    var q := Share(b, k);
    ProductGrows(distance, target, b);
    ShareAbove(b, k);
    ProductGrows(b + 1, (q + 1) * k, target);
    assert b * target < (b + 1) * target;
    assert (q + 1) * k * target == (q + 1) * (target * k);
    ProductNonNegative(b, distance);
    DivisorPositive(target, k);
    QuotientBelow(b * distance, target * k, q);
  }

  /** ... and the full distance moves it by exactly that share. */
  lemma FullChange(b: nat, target: nat, k: nat)
    requires target > 0 && k > 0
    ensures Change(b, target, target, k) == Share(b, k)
  {
    ChangeBound(b, target, target, k);
    var q := Share(b, k);
    ShareAbove(b, k);
    ProductGrows(q * k, b, target);
    assert q * k * target == q * (target * k);
    ProductNonNegative(b, target);
    DivisorPositive(target, k);
    QuotientAbove(b * target, target * k, q);
  }

  lemma ChangeGrowsWithDistance(b: nat, d1: nat, d2: nat, target: nat, k: nat)
    requires target > 0 && k > 0 && d1 <= d2
    ensures Change(b, d1, target, k) <= Change(b, d2, target, k)
  {
    ProductGrows(d1, d2, b);
    ProductNonNegative(b, d1);
    DivisorPositive(target, k);
    QuotientGrows(b * d1, b * d2, target * k);
  }

  lemma ChangeGrowsWithFee(b1: nat, b2: nat, distance: nat, target: nat, k: nat)
    requires target > 0 && k > 0 && b1 <= b2
    ensures Change(b1, distance, target, k) <= Change(b2, distance, target, k)
  {
    DivisorPositive(target, k);
    ProductGrows(b1, b2, distance);
    ProductNonNegative(b1, distance);
    QuotientGrows(b1 * distance, b2 * distance, target * k);
  }

  lemma ProductGrowsSlower(b1: nat, b2: nat, distance: nat, d: nat)
    requires b1 <= b2 && distance <= d
    ensures b2 * distance <= b1 * distance + (b2 - b1) * d
  {
    var m := b2 - b1;
    ProductGrows(distance, d, m);
    assert b2 * distance == b1 * distance + m * distance;
  }

  lemma QuotientGrowsSlower(n1: nat, n2: nat, m: nat, d: nat)
    requires d > 0 && n2 <= n1 + m * d
    ensures n2 / d - n1 / d <= m
  {
    QuotientGrows(n2, n1 + m * d, d);
    QuotientShift(n1, m, d);
  }

  /** Up to the target the change grows no faster than the fee. */
  lemma ChangeGrowsSlower(b1: nat, b2: nat, distance: nat, target: nat, k: nat)
    requires target > 0 && k > 0 && distance <= target && b1 <= b2
    ensures Change(b2, distance, target, k) - Change(b1, distance, target, k) <= b2 - b1
  {
    DivisorPositive(target, k);
    ProductGrows(1, k, target);
    ProductNonNegative(b1, distance);
    ProductNonNegative(b2, distance);
    ProductGrowsSlower(b1, b2, distance, target * k);
    QuotientGrowsSlower(b1 * distance, b2 * distance, b2 - b1, target * k);
  }

  /** The gas used is at most twice the target: on an even gas limit, at most the limit. */
  predicate WithinLimit(gasUsed: U64, gasLimit: U64) {
    gasUsed <= 2 * GasTarget(gasLimit)
  }

  /** Above the target, the fee and its step add up inside u64; at or below it nothing is added. */
  predicate StepFits(gasUsed: U64, gasLimit: U64, b: U64, k: U128)
    requires Divisible(gasUsed, gasLimit, k)
  {
    var target := GasTarget(gasLimit);
    gasUsed > target ==> b + Max(1, Change(b, gasUsed - target, target, k)) < TWO_64
  }

  /** The change never exceeds the fee's share, nor the fee. */
  lemma ChangeFits(gasUsed: U64, gasLimit: U64, b: U64, k: U128)
    requires Divisible(gasUsed, gasLimit, k) && WithinLimit(gasUsed, gasLimit) && GasTarget(gasLimit) > 0
    ensures var target := GasTarget(gasLimit);
            var distance := if gasUsed > target then gasUsed - target else target - gasUsed;
            Change(b, distance, target, k) <= Share(b, k) <= b
  {
    var target := GasTarget(gasLimit);
    ChangeBound(b, if gasUsed > target then gasUsed - target else target - gasUsed, target, k);
  }

  /** Without the casts, and without the wrapping sum where it does not wrap. */
  lemma RawUnwrapped(gasUsed: U64, gasLimit: U64, b: U64, k: U128)
    requires Divisible(gasUsed, gasLimit, k) && WithinLimit(gasUsed, gasLimit)
    ensures var target := GasTarget(gasLimit);
            gasUsed == target ==> RawBaseFee(gasUsed, gasLimit, b, k) == b
    ensures var target := GasTarget(gasLimit);
            gasUsed < target ==> RawBaseFee(gasUsed, gasLimit, b, k) == b - Change(b, target - gasUsed, target, k)
    ensures var target := GasTarget(gasLimit);
            gasUsed > target ==>
              var sum := b + Max(1, Change(b, gasUsed - target, target, k));
              RawBaseFee(gasUsed, gasLimit, b, k) == if sum < TWO_64 then sum else sum - TWO_64
  {
    hide Change, Share;
    if GasTarget(gasLimit) > 0 {
      ChangeFits(gasUsed, gasLimit, b, k);
    }
  }

  /** Above the target the fee does not fall if and only if the sum stays inside u64. */
  lemma RisingExact(gasUsed: U64, gasLimit: U64, b: U64, k: U128)
    requires Divisible(gasUsed, gasLimit, k) && WithinLimit(gasUsed, gasLimit) && gasUsed > GasTarget(gasLimit)
    ensures RawBaseFee(gasUsed, gasLimit, b, k) >= b <==> StepFits(gasUsed, gasLimit, b, k)
  {
    hide Change, Share, RawBaseFee;
    RawUnwrapped(gasUsed, gasLimit, b, k);
    ChangeFits(gasUsed, gasLimit, b, k);
  }

  /** A step that does not fit: after a full block the largest fee drops to less than half of itself. */
  lemma LargestFeeWraps()
    ensures Divisible(30_000_000, 30_000_000, 48) && !StepFits(30_000_000, 30_000_000, TWO_64 - 1, 48)
    ensures RawBaseFee(30_000_000, 30_000_000, TWO_64 - 1, 48) < TWO_64 / 2
  {
    FullChange(TWO_64 - 1, 15_000_000, 48);
    RawUnwrapped(30_000_000, 30_000_000, TWO_64 - 1, 48);
  }

  /** The step stays within max(1, fee / denominator), or lands on the floor. */
  predicate StepBounded(b: U64, k: U128, floor: U64, next: U64)
    requires k > 0
  {
    next == floor || b - Max(1, Share(b, k)) <= next <= b + Max(1, Share(b, k))
  }

  /** What the wrapping sum yields is still a bounded step only with denominator 1, whose share is the
      whole fee. */
  lemma WrappedStep(b: U64, k: U128, change: nat)
    requires k > 0 && change <= Share(b, k) && b + Max(1, change) >= TWO_64
    ensures b - Max(1, Share(b, k)) <= b + Max(1, change) - TWO_64 <==> k == 1
  {
    ShareAbove(b, k);
    if k >= 2 {
      ProductGrows(2, k, Share(b, k));
      assert 2 * Share(b, k) <= b;
    }
    hide Share;
  }

  /** With gas used of at most twice the target, each step is bounded or lands on the floor if and only
      if the sum above the target fits u64, the denominator is 1, or the wrapped sum is at or below
      the floor. */
  lemma StepBoundExact(spec: ChainSpec, parent: BerachainHeader)
    requires parent.baseFeePerGas.Some? && DivisibleHeader(spec, parent)
    requires WithinLimit(parent.gasUsed, parent.gasLimit)
    ensures var b, k, floor := parent.baseFeePerGas.value, DenominatorAt(spec, parent.timestamp), FloorAt(spec, parent.timestamp);
            var target, next := GasTarget(parent.gasLimit), NextBlockBaseFee(spec, parent).value;
            next >= floor
            && (StepBounded(b, k, floor, next) <==>
                StepFits(parent.gasUsed, parent.gasLimit, b, k) || k == 1
                || b + Max(1, Change(b, parent.gasUsed - target, target, k)) - TWO_64 <= floor)
  {
    hide Change, Share, RawBaseFee;
    var b, k := parent.baseFeePerGas.value, DenominatorAt(spec, parent.timestamp);
    var target := GasTarget(parent.gasLimit);
    RawUnwrapped(parent.gasUsed, parent.gasLimit, b, k);
    if target > 0 {
      ChangeFits(parent.gasUsed, parent.gasLimit, b, k);
      if !StepFits(parent.gasUsed, parent.gasLimit, b, k) {
        WrappedStep(b, k, Change(b, parent.gasUsed - target, target, k));
      }
    }
  }

  /** A block that fills an odd gas limit can exceed the bound: its last unit of gas lies beyond twice
      the target. */
  lemma OddLimitExceedsBound()
    ensures Divisible(3, 3, 8) && StepFits(3, 3, 800, 8) && !WithinLimit(3, 3)
    ensures RawBaseFee(3, 3, 800, 8) == 1000 && Max(1, Share(800, 8)) == 100
  {
  }

  /** Without casts and wrapping, wherever the step fits. */
  lemma RawFitting(gasUsed: U64, gasLimit: U64, b: U64, k: U128)
    requires Divisible(gasUsed, gasLimit, k) && StepFits(gasUsed, gasLimit, b, k)
    ensures var target := GasTarget(gasLimit);
            RawBaseFee(gasUsed, gasLimit, b, k)
            == if gasUsed == target then b
               else if gasUsed > target then b + Max(1, Change(b, gasUsed - target, target, k))
               else b - Change(b, target - gasUsed, target, k)
  {
    hide Change, Share;
    var target := GasTarget(gasLimit);
    if gasUsed < target {
      ChangeFits(gasUsed, gasLimit, b, k);
    }
  }

  lemma RawGrowsWithFee(gasUsed: U64, gasLimit: U64, b1: U64, b2: U64, k: U128)
    requires Divisible(gasUsed, gasLimit, k) && b1 <= b2 && StepFits(gasUsed, gasLimit, b2, k)
    ensures StepFits(gasUsed, gasLimit, b1, k)
    ensures RawBaseFee(gasUsed, gasLimit, b1, k) <= RawBaseFee(gasUsed, gasLimit, b2, k)
  {
    hide Change, Share, RawBaseFee;
    var target := GasTarget(gasLimit);
    if gasUsed > target {
      ChangeGrowsWithFee(b1, b2, gasUsed - target, target, k);
    } else if gasUsed < target {
      ChangeGrowsSlower(b1, b2, target - gasUsed, target, k);
    }
    RawFitting(gasUsed, gasLimit, b1, k);
    RawFitting(gasUsed, gasLimit, b2, k);
  }

  lemma RawGrowsWithGas(u1: U64, u2: U64, gasLimit: U64, b: U64, k: U128)
    requires Divisible(u1, gasLimit, k) && Divisible(u2, gasLimit, k)
    requires u1 <= u2 && StepFits(u2, gasLimit, b, k)
    ensures StepFits(u1, gasLimit, b, k)
    ensures RawBaseFee(u1, gasLimit, b, k) <= RawBaseFee(u2, gasLimit, b, k)
  {
    hide Change, Share, RawBaseFee;
    var target := GasTarget(gasLimit);
    if target < u1 {
      ChangeGrowsWithDistance(b, u1 - target, u2 - target, target, k);
    } else if u2 < target {
      ChangeGrowsWithDistance(b, target - u2, target - u1, target, k);
    }
    RawFitting(u1, gasLimit, b, k);
    RawFitting(u2, gasLimit, b, k);
  }

  /** The next fee is monotone in the parent's fee and in the parent's gas used together, for every gas
      limit, as long as the larger parent's step fits. */
  lemma NextFeeMonotone(spec: ChainSpec, p1: BerachainHeader, p2: BerachainHeader)
    requires p1.timestamp == p2.timestamp && p1.gasLimit == p2.gasLimit
    requires p1.baseFeePerGas.Some? && p2.baseFeePerGas.Some? && p1.baseFeePerGas.value <= p2.baseFeePerGas.value
    requires p1.gasUsed <= p2.gasUsed
    requires DivisibleHeader(spec, p1) && DivisibleHeader(spec, p2)
    requires StepFits(p2.gasUsed, p2.gasLimit, p2.baseFeePerGas.value, DenominatorAt(spec, p2.timestamp))
    ensures NextBlockBaseFee(spec, p1).value <= NextBlockBaseFee(spec, p2).value
  {
    hide Change, Share, RawBaseFee, StepFits;
    var k := DenominatorAt(spec, p1.timestamp);
    RawGrowsWithGas(p1.gasUsed, p2.gasUsed, p1.gasLimit, p2.baseFeePerGas.value, k);
    RawGrowsWithFee(p1.gasUsed, p1.gasLimit, p1.baseFeePerGas.value, p2.baseFeePerGas.value, k);
  }

  /****** Chains ******/

  /** Consecutive headers: time moves forward and each base fee is derived from the parent. */
  ghost predicate IsChain(spec: ChainSpec, chain: seq<BerachainHeader>) {
    && (forall i :: 0 <= i < |chain| ==> chain[i].baseFeePerGas.Some?)
    && (forall i, j :: 0 <= i < j < |chain| ==> chain[i].timestamp < chain[j].timestamp)
    && (forall i :: 0 <= i < |chain| - 1 ==>
          DivisibleHeader(spec, chain[i]) && chain[i + 1].baseFeePerGas == NextBlockBaseFee(spec, chain[i]))
  }

  lemma NextFeeRespectsFloor(spec: ChainSpec, chain: seq<BerachainHeader>, i: nat)
    requires IsChain(spec, chain) && 0 < i < |chain|
    ensures chain[i].baseFeePerGas.value >= FloorAt(spec, chain[i - 1].timestamp)
  {
    hide RawBaseFee, FloorAt, DenominatorAt;
    assert chain[i - 1 + 1].baseFeePerGas == NextBlockBaseFee(spec, chain[i - 1]);
  }

  lemma FloorOfFork(spec: ChainSpec, earlier: U64, t: U64)
    requires Accepted(spec) && earlier <= t
    ensures IsActive(spec, Osaka1, earlier) ==> FloorAt(spec, t) == spec.osaka1MinimumBaseFee
    ensures IsActive(spec, Prague2, earlier) && !IsActive(spec, Osaka1, t) ==> FloorAt(spec, t) == spec.prague2MinimumBaseFee
    ensures IsActive(spec, Prague1, earlier) && !IsActive(spec, Prague2, t) ==> FloorAt(spec, t) == spec.prague1MinimumBaseFee
  {
    hide Lookup;
    AcceptedActivation(spec, t);
    hide Accepted;
  }

  /** The floor a block must respect once some ancestor is in a fork: the floor of the latest
      floor-changing fork active at its parent. */
  lemma FloorHoldsAlongChain(spec: ChainSpec, chain: seq<BerachainHeader>, j: nat, i: nat)
    requires Accepted(spec) && IsChain(spec, chain) && j < i < |chain|
    ensures IsActive(spec, Osaka1, chain[j].timestamp) ==>
              chain[i].baseFeePerGas.value >= spec.osaka1MinimumBaseFee
    ensures IsActive(spec, Prague2, chain[j].timestamp) && !IsActive(spec, Osaka1, chain[i - 1].timestamp) ==>
              chain[i].baseFeePerGas.value >= spec.prague2MinimumBaseFee
    ensures IsActive(spec, Prague1, chain[j].timestamp) && !IsActive(spec, Prague2, chain[i - 1].timestamp) ==>
              chain[i].baseFeePerGas.value >= spec.prague1MinimumBaseFee
  {
    NextFeeRespectsFloor(spec, chain, i);
    assert j < i - 1 ==> chain[j].timestamp < chain[i - 1].timestamp;
    hide Lookup, FloorAt, Accepted, IsActive;
    FloorOfFork(spec, chain[j].timestamp, chain[i - 1].timestamp);
  }

  /****** Empty blocks ******/

  function EmptyStep(floor: U64, k: U128, b: U64): (next: U64)
    requires k > 0
    ensures next >= floor
    ensures b >= floor ==> next <= b
  {
    Max(b - Share(b, k), floor)
  }

  /** Strictly decreases until the fee has settled; a fee below the floor first jumps onto it. */
  function Measure(floor: U64, b: U64): nat {
    if b < floor then floor + 1 else b
  }

  lemma EmptyStepDecreases(floor: U64, k: U128, b: U64)
    requires k > 0 && EmptyStep(floor, k, b) != b
    ensures Measure(floor, EmptyStep(floor, k, b)) < Measure(floor, b)
  {
    hide Change, Share;
  }

  function Iterate(floor: U64, k: U128, b: U64, n: nat): U64
    requires k > 0
    decreases n
  {
    if n == 0 then b else Iterate(floor, k, EmptyStep(floor, k, b), n - 1)
  }

  /** After as many steps as the measure of the start, the fee is at most max(floor, k - 1) and
      never changes again. */
  lemma {:induction false} EmptyStepsSettle(floor: U64, k: U128, b: U64, n: nat)
    requires k > 0 && n >= Measure(floor, b)
    ensures var settled := Iterate(floor, k, b, n);
            EmptyStep(floor, k, settled) == settled && floor <= settled <= Max(floor, k - 1)
    decreases n
  {
    hide Change, Share;
    var next := EmptyStep(floor, k, b);
    if next == b {
      StaysPut(floor, k, b, n);
    } else {
      EmptyStepDecreases(floor, k, b);
      if n > 0 {
        EmptyStepsSettle(floor, k, next, n - 1);
      }
    }
  }

  lemma {:induction false} StaysPut(floor: U64, k: U128, b: U64, n: nat)
    requires k > 0 && EmptyStep(floor, k, b) == b
    ensures Iterate(floor, k, b, n) == b
  {
    if n > 0 {
      StaysPut(floor, k, b, n - 1);
    }
  }

  lemma {:induction false} IterateOnce(floor: U64, k: U128, b: U64, n: nat)
    requires k > 0
    ensures Iterate(floor, k, b, n + 1) == EmptyStep(floor, k, Iterate(floor, k, b, n))
    decreases n
  {
    if n > 0 {
      IterateOnce(floor, k, EmptyStep(floor, k, b), n - 1);
    }
  }

  /** A chain of empty blocks with room for gas under one floor and one denominator. */
  ghost predicate EmptyChain(spec: ChainSpec, chain: seq<BerachainHeader>, floor: U64, k: U128) {
    && IsChain(spec, chain)
    && forall i :: 0 <= i < |chain| ==>
         chain[i].gasUsed == 0 && chain[i].gasLimit >= 2
         && FloorAt(spec, chain[i].timestamp) == floor && DenominatorAt(spec, chain[i].timestamp) == k
  }

  lemma EmptyBlockStep(spec: ChainSpec, parent: BerachainHeader)
    requires parent.baseFeePerGas.Some? && DivisibleHeader(spec, parent)
    requires parent.gasUsed == 0 && parent.gasLimit >= 2
    ensures NextBlockBaseFee(spec, parent)
         == Some(EmptyStep(FloorAt(spec, parent.timestamp), DenominatorAt(spec, parent.timestamp), parent.baseFeePerGas.value))
  {
    hide Change, Share;
    var b, k := parent.baseFeePerGas.value, DenominatorAt(spec, parent.timestamp);
    FullChange(b, GasTarget(parent.gasLimit), k);
  }

  lemma {:induction false} EmptyChainIterates(spec: ChainSpec, chain: seq<BerachainHeader>, floor: U64, k: U128, i: nat)
    requires k > 0 && EmptyChain(spec, chain, floor, k) && i < |chain|
    ensures chain[i].baseFeePerGas.value == Iterate(floor, k, chain[0].baseFeePerGas.value, i)
  {
    if i > 0 {
      EmptyChainIterates(spec, chain, floor, k, i - 1);
      EmptyBlockStep(spec, chain[i - 1]);
      IterateOnce(floor, k, chain[0].baseFeePerGas.value, i - 1);
      assert chain[i - 1 + 1].baseFeePerGas == NextBlockBaseFee(spec, chain[i - 1]);
    }
  }

  /** Along empty blocks the fee settles after a number of blocks known from the first fee: from
      then on every block has the same fee, at most max(floor, denominator - 1). */
  lemma EmptyChainSettles(spec: ChainSpec, chain: seq<BerachainHeader>, floor: U64, k: U128, i: nat, j: nat)
    requires k > 0 && EmptyChain(spec, chain, floor, k)
    requires 0 < |chain| && Measure(floor, chain[0].baseFeePerGas.value) <= i <= j < |chain|
    ensures chain[j].baseFeePerGas == chain[i].baseFeePerGas
    ensures floor <= chain[i].baseFeePerGas.value <= Max(floor, k - 1)
    decreases j
  {
    EmptyChainIterates(spec, chain, floor, k, i);
    EmptyStepsSettle(floor, k, chain[0].baseFeePerGas.value, i);
    if i < j {
      EmptyChainSettles(spec, chain, floor, k, i, j - 1);
      EmptyBlockStep(spec, chain[j - 1]);
      assert chain[j - 1 + 1].baseFeePerGas == NextBlockBaseFee(spec, chain[j - 1]);
    }
  }

  /** Blocks without room for gas are the exception: their fee never decays below where it stands. */
  lemma TinyBlocksNeverDecay(spec: ChainSpec, parent: BerachainHeader)
    requires parent.baseFeePerGas.Some? && DivisibleHeader(spec, parent) && parent.gasLimit < 2
    ensures NextBlockBaseFee(spec, parent) == Some(Max(parent.baseFeePerGas.value, FloorAt(spec, parent.timestamp)))
  {
  }
}
