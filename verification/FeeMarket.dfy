/**
 The fee market (chain/feemarket.go), after the "Specification" section of EIP-1559:
 the base-fee recurrence and the split of what a transaction pays per unit of gas.
 */
module FeeMarket {
  import opened Core

  const BASE_FEE_MAX_CHANGE_DENOMINATOR: int := 8
  const ELASTICITY_MULTIPLIER: int := 2

  datatype FeeError = FeeCapBelowBaseFee | TipExceedsFeeCap

  function GasTarget(gasLimit: uint64): uint64 { gasLimit / ELASTICITY_MULTIPLIER }

  /** The proportional change, with a product that wraps. */
  function Delta(fee: uint64, gap: uint64, target: uint64): uint64
    requires target > 0
  {
    DivFacts(Mul64(fee, gap), target);
    Mul64(fee, gap) / target / BASE_FEE_MAX_CHANGE_DENOMINATOR
  }

  /** The 64-bit computation: products and sums wrap. */
  function ComputeBaseFee(fee: uint64, used: uint64, target: uint64): uint64 {
    if target == 0 || fee == 0 || used == target then fee
    else if used > target then
      var delta := Delta(fee, used - target, target);
      Add64(fee, if delta < 1 then 1 else delta)
    else
      var delta := Delta(fee, target - used, target);
      fee - if delta >= fee then fee - 1 else delta
  }

  function IdealDelta(fee: nat, gap: nat, target: nat): nat
    requires target > 0
  {
    fee * gap / target / 8
  }

  function Gap(used: nat, target: nat): nat { if used > target then used - target else target - used }

  /** The recurrence of EIP-1559 over unbounded integers. */
  function IdealBaseFee(fee: nat, used: nat, target: nat): nat
    requires target > 0
  {
    if used == target then fee
    else if used > target then fee + Max1(IdealDelta(fee, Gap(used, target), target))
    else
      DeltaBound(fee, Gap(used, target), target);
      fee - IdealDelta(fee, Gap(used, target), target)
  }

  /** A change is at most an eighth of the fee while usage is within the target's reach. */
  lemma DeltaBound(fee: nat, gap: nat, target: nat)
    requires target > 0 && gap <= target
    ensures IdealDelta(fee, gap, target) <= fee / 8
    ensures gap == target ==> IdealDelta(fee, gap, target) == fee / 8
  {
    MulMono(fee, gap, target);
    DivMono(fee * gap, fee * target, target);
    MulDiv(fee, target);
  }

  /** The product computed, and on the rising side the sum, fit 64 bits. */
  predicate NoWrap(fee: uint64, used: uint64, target: uint64)
    requires target > 0
  {
    fee * Gap(used, target) < U64 && (used > target ==> fee + Max1(IdealDelta(fee, Gap(used, target), target)) < U64)
  }

  lemma DeltaIsIdeal(fee: uint64, gap: uint64, target: uint64)
    requires target > 0 && fee * gap < U64
    ensures Delta(fee, gap, target) == IdealDelta(fee, gap, target)
  {
    hide Mul64;
    Mul64Exact(fee, gap);
  }

  /** Without wrap-around the code computes the recurrence of EIP-1559. */
  lemma FeeIsIdeal(fee: uint64, used: uint64, target: uint64)
    requires fee > 0 && target > 0 && NoWrap(fee, used, target)
    ensures ComputeBaseFee(fee, used, target) == IdealBaseFee(fee, used, target)
  {
    hide Delta, IdealDelta;
    var gap := Gap(used, target);
    DeltaIsIdeal(fee, gap, target);
    if used < target { DeltaBound(fee, gap, target); }
  }

  /** A product that wraps loses at least two from the change. */
  lemma WrapLoses(fee: uint64, gap: uint64, target: uint64)
    requires 0 < 16 * target <= U64 && fee * gap >= U64
    ensures Delta(fee, gap, target) + 2 <= IdealDelta(fee, gap, target)
  {
    hide Mul64;
    var x, y := fee * gap, Mul64(fee, gap);
    WrappedProduct(fee, gap);
    Sixteen(y, target);
    DivMono(y + 16 * target, x, target);
  }

  lemma WrappedProduct(x: uint64, y: uint64)
    requires x * y >= U64
    ensures Mul64(x, y) + U64 <= x * y
  {
  }

  lemma Sixteen(y: nat, d: nat)
    requires d > 0
    ensures (y + 16 * d) / d == y / d + 16
  {
    var q, a := y / d, (y + 16 * d) / d;
    DivFacts(y, d);
    DivFacts(y + 16 * d, d);
    assert (q + 16) * d == q * d + 16 * d;
    SameQuotient(a, q + 16, d, y + 16 * d - a * d, y - q * d);
  }

  /** For targets up to 2^60 the code computes the recurrence exactly when neither product nor sum wraps. */
  lemma FeeIsIdealExactly(fee: uint64, used: uint64, target: uint64)
    requires fee > 0 && 0 < 16 * target <= U64
    ensures ComputeBaseFee(fee, used, target) == IdealBaseFee(fee, used, target) <==> NoWrap(fee, used, target)
  {
    hide Delta, IdealDelta;
    var gap := Gap(used, target);
    if NoWrap(fee, used, target) {
      FeeIsIdeal(fee, used, target);
    } else if fee * gap >= U64 {
      assert gap != 0 by { NoGapNoProduct(fee, gap); }
      WrapLoses(fee, gap, target);
      if used < target { DeltaBound(fee, gap, target); }
    }
  }

  lemma NoGapNoProduct(fee: nat, gap: nat)
    ensures gap == 0 ==> fee * gap == 0
  {
  }

  function Max1(x: nat): nat { if x > 1 then x else 1 }

  lemma DeltaMonotone(fee: nat, gap: nat, gap': nat, target: nat)
    requires target > 0 && gap <= gap'
    ensures IdealDelta(fee, gap, target) <= IdealDelta(fee, gap', target)
  {
    MulMono(fee, gap, gap');
    DivMono(fee * gap, fee * gap', target);
  }

  /** The most a fee can rise by in a block; under an odd gas limit usage can exceed twice the target by one. */
  function MaxRise(fee: nat, gasLimit: uint64): nat {
    var target := GasTarget(gasLimit);
    Max1(if gasLimit % 2 == 0 || target == 0 then fee / 8 else fee * (target + 1) / target / 8)
  }

  /** A positive fee stays positive, falls by at most an eighth and rises by at most the limit's share, or by one. */
  lemma FeeStep(fee: uint64, used: uint64, gasLimit: uint64)
    requires fee > 0 && GasTarget(gasLimit) > 0 && used <= gasLimit && NoWrap(fee, used, GasTarget(gasLimit))
    ensures var next, target := ComputeBaseFee(fee, used, GasTarget(gasLimit)), GasTarget(gasLimit);
            && next >= 1 && fee - fee / 8 <= next <= fee + MaxRise(fee, gasLimit)
            && (used > target ==> next > fee) && (used == target ==> next == fee) && (used < target ==> next <= fee)
            && (used == gasLimit ==> next == fee + MaxRise(fee, gasLimit))
  {
    hide ComputeBaseFee, NoWrap;
    var target := GasTarget(gasLimit);
    FeeIsIdeal(fee, used, target);
    if used <= target {
      DeltaBound(fee, target - used, target);
    } else {
      DeltaMonotone(fee, used - target, gasLimit - target, target);
      if gasLimit % 2 == 0 { DeltaBound(fee, target, target); }
    }
  }

  /** More gas used never means a lower next fee. */
  lemma FeeMonotone(fee: uint64, used: uint64, more: uint64, target: uint64)
    requires fee > 0 && target > 0 && used <= more && NoWrap(fee, used, target) && NoWrap(fee, more, target)
    ensures ComputeBaseFee(fee, used, target) <= ComputeBaseFee(fee, more, target)
  {
    hide IdealDelta, ComputeBaseFee, NoWrap;
    FeeIsIdeal(fee, used, target);
    FeeIsIdeal(fee, more, target);
    if used > target {
      DeltaMonotone(fee, used - target, more - target, target);
    } else if more < target {
      DeltaMonotone(fee, target - more, target - used, target);
    }
  }

  /** After an empty block the fee loses exactly an eighth: it falls while at least 8, then stays. */
  lemma FeeAfterEmpty(fee: uint64, target: uint64)
    requires fee > 0 && target > 0 && fee * target < U64
    ensures var next := ComputeBaseFee(fee, 0, target);
            next == fee - fee / 8 && (next < fee <==> fee >= 8)
  {
    hide IdealDelta, ComputeBaseFee;
    FeeIsIdeal(fee, 0, target);
    DeltaBound(fee, target, target);
  }

  // Along a chain of headers

  datatype Usage = Usage(baseFee: uint64, gasUsed: uint64)

  /** Every header's fee is the one its parent's fee and usage dictate. */
  ghost predicate FeesFollow(hs: seq<Usage>, gasLimit: uint64) {
    && (forall i | 0 <= i < |hs| :: hs[i].gasUsed <= gasLimit)
    && (forall i | 0 < i < |hs| ::
          hs[i].baseFee == ComputeBaseFee(hs[i - 1].baseFee, hs[i - 1].gasUsed, GasTarget(gasLimit)))
  }

  /** The fee after this header is computed without wrap-around. */
  predicate StepFits(u: Usage, gasLimit: uint64) {
    GasTarget(gasLimit) > 0 ==> NoWrap(u.baseFee, u.gasUsed, GasTarget(gasLimit))
  }

  ghost predicate FeesFit(hs: seq<Usage>, gasLimit: uint64) {
    forall i | 0 <= i < |hs| - 1 :: StepFits(hs[i], gasLimit)
  }

  /** Along any chain a positive genesis fee stays positive, falling by at most an eighth and rising by at most `MaxRise`. */
  lemma {:induction false} FeesAlongChain(hs: seq<Usage>, gasLimit: uint64, i: nat)
    requires FeesFollow(hs, gasLimit) && FeesFit(hs, gasLimit)
    requires i < |hs| && hs[0].baseFee > 0
    ensures hs[i].baseFee >= 1
    ensures i > 0 ==> var fee := hs[i - 1].baseFee; fee - fee / 8 <= hs[i].baseFee <= fee + MaxRise(fee, gasLimit)
  {
    hide NoWrap, ComputeBaseFee;
    if i > 0 {
      var u := hs[i - 1];
      FeesAlongChain(hs, gasLimit, i - 1);
      assert StepFits(u, gasLimit);
      if GasTarget(gasLimit) > 0 { FeeStep(u.baseFee, u.gasUsed, gasLimit); }
      NoTargetNoChange(u, gasLimit);
    }
  }

  lemma NoTargetNoChange(u: Usage, gasLimit: uint64)
    ensures GasTarget(gasLimit) == 0 ==> ComputeBaseFee(u.baseFee, u.gasUsed, GasTarget(gasLimit)) == u.baseFee
  {
    hide Delta;
  }

  /** Over a stretch of empty blocks the fee never rises, and it is below 8 once it has stopped falling. */
  lemma {:induction false} FeesOverEmptyBlocks(hs: seq<Usage>, gasLimit: uint64, i: nat, j: nat)
    requires FeesFollow(hs, gasLimit) && GasTarget(gasLimit) > 0 && i <= j < |hs| && hs[i].baseFee > 0
    requires forall k | i <= k < j :: hs[k].gasUsed == 0 && StepFits(hs[k], gasLimit)
    ensures 1 <= hs[j].baseFee && hs[j].baseFee + (if hs[j].baseFee >= 8 then j - i else 0) <= hs[i].baseFee
    ensures hs[i].baseFee < 8 ==> hs[j].baseFee == hs[i].baseFee
    ensures j - i >= hs[i].baseFee ==> hs[j].baseFee < 8
    decreases j - i
  {
    hide ComputeBaseFee, GasTarget;
    if i < j {
      FeesOverEmptyBlocks(hs, gasLimit, i, j - 1);
      assert StepFits(hs[j - 1], gasLimit);
      FeeAfterEmpty(hs[j - 1].baseFee, GasTarget(gasLimit));
    }
  }

  // What a transaction pays

  function ValidateFeeCapTip(feeCap: uint64, tipCap: uint64): Option<FeeError> {
    if tipCap > feeCap then Some(TipExceedsFeeCap) else None
  }

  /** The price per unit of gas and the part of it that is the priority fee. */
  function EffectiveGasPrice(baseFee: uint64, feeCap: uint64, tipCap: uint64): (r: Result<(uint64, uint64), FeeError>)
    ensures r.Ok? <==> baseFee <= feeCap
    ensures r.Ok? ==> var (price, tip) := r.value;
                      && price == baseFee + tip && price <= feeCap && tip <= tipCap
                      && (tip == tipCap || price == feeCap)
  {
    if feeCap < baseFee then Err(FeeCapBelowBaseFee) else
    var headroom := feeCap - baseFee;
    var tip := if tipCap > headroom then headroom else tipCap;
    Ok((baseFee + tip, tip))
  }
}
