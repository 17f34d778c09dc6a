/** Fee ratios and the limits placed on them. */
module Fees {
  import opened Numbers
  import opened Errors

  datatype Fee = Fee(numerator: u64, denominator: u64) {
    predicate AtMostOne() {
      numerator <= denominator
    }

    /** The ratio the fee stands for: a fee with a zero denominator is no fee. */
    ghost function Rate(): real {
      if denominator == 0 then 0.0 else numerator as real / denominator as real
    }

    /** The part of `amount` taken as a fee; the product of two u64 values fits u128. */
    function Apply(amount: u64): (taken: nat)
      ensures AtMostOne() ==> taken <= amount
    {
      if denominator == 0 then 0
      else
        ProductFits128(amount, numerator);
        assert AtMostOne() ==> amount * numerator / denominator <= amount by {
          if AtMostOne() {
            MulMono(amount, amount, numerator, denominator);
            FloorLe(amount * numerator, denominator, amount);
          }
        }
        amount * numerator / denominator
    }
  }

  /** The fee taken is the exact share, rounded down. */
  lemma FeeIsFloor(fee: Fee, amount: u64)
    ensures fee.denominator == 0 ==> fee.Apply(amount) == 0
    ensures fee.denominator > 0 ==>
      var taken := fee.Apply(amount);
      taken * fee.denominator <= amount * fee.numerator < taken * fee.denominator + fee.denominator
  {
    if fee.denominator > 0 {
      MulNonNeg(amount, fee.numerator);
      FloorBounds(amount * fee.numerator, fee.denominator);
    }
  }

  datatype FeeType =
    | SolReferral(percent: u8)
    | StakeReferral(percent: u8)
    | Epoch(fee: Fee)
    | StakeWithdrawal(fee: Fee)
    | SolDeposit(fee: Fee)
    | StakeDeposit(fee: Fee)
    | SolWithdrawal(fee: Fee)
  {
    function CheckTooHigh(): Result<()> {
      var tooHigh :=
        if SolReferral? || StakeReferral? then percent > 100
        else fee.numerator > fee.denominator;
      if tooHigh then Err(FeeTooHigh) else Ok(())
    }

    predicate CanOnlyChangeNextEpoch() {
      StakeWithdrawal? || SolWithdrawal? || Epoch?
    }
  }

  const MAX_WITHDRAWAL_FEE_INCREASE := Fee(3, 2)
  const WITHDRAWAL_BASELINE_FEE := Fee(1, 1000)

  /** The fee an increase is measured against: the current one, or the baseline if that is zero. */
  function CapBase(current: Fee): (base: Fee)
    ensures base.numerator > 0 && base.denominator > 0
  {
    if current.denominator == 0 || current.numerator == 0 then WITHDRAWAL_BASELINE_FEE else current
  }

  /** Rust's order on `Option<u128>`: an overflowed side is smaller than every number. */
  predicate OptionLess(x: Option<nat>, y: Option<nat>) {
    match (x, y)
    case (None, Some(_)) => true
    case (Some(a), Some(b)) => a < b
    case _ => false
  }

  function AllowedSide(proposed: Fee, current: Fee): nat {
    CapBase(current).numerator * proposed.denominator * MAX_WITHDRAWAL_FEE_INCREASE.numerator
  }

  function ProposedSide(proposed: Fee, current: Fee): nat {
    proposed.numerator * CapBase(current).denominator * MAX_WITHDRAWAL_FEE_INCREASE.denominator
  }

  function CheckWithdrawal(proposed: Fee, current: Fee): Result<()> {
    if OptionLess(Checked128(AllowedSide(proposed, current)), Checked128(ProposedSide(proposed, current)))
    then Err(FeeIncreaseTooHigh)
    else Ok(())
  }

  /** What the limit is for: the new ratio is at most 3/2 of the current one, or of 1/1000 if there is no
      fee now. */
  ghost predicate WithinCap(proposed: Fee, current: Fee) {
    if current.numerator == 0 || current.denominator == 0 then proposed.Rate() <= 0.0015
    else proposed.Rate() <= 1.5 * current.Rate()
  }

  lemma CapBaseRate(current: Fee)
    ensures CapBase(current).Rate()
         == if current.numerator == 0 || current.denominator == 0 then 0.001 else current.Rate()
  {
    assert WITHDRAWAL_BASELINE_FEE.Rate() == 0.001;
  }

  /** The cross-multiplied comparison is the comparison of ratios. */
  lemma CapIsCrossMultiplication(proposed: Fee, current: Fee)
    requires proposed.AtMostOne()
    ensures WithinCap(proposed, current) <==> ProposedSide(proposed, current) <= AllowedSide(proposed, current)
  {
    var base := CapBase(current);
    CapBaseRate(current);
    if proposed.denominator == 0 {
      assert ProposedSide(proposed, current) == 0;
      assert AllowedSide(proposed, current) == 0;
      RatioPositive(base.numerator, base.denominator);
    } else {
      RatioLe(proposed.numerator, proposed.denominator, 3 * base.numerator, 2 * base.denominator);
      RatioScale(base.numerator, base.denominator);
      assert ProposedSide(proposed, current) == proposed.numerator * (2 * base.denominator);
      assert AllowedSide(proposed, current) == (3 * base.numerator) * proposed.denominator;
    }
  }

  lemma RatioPositive(a: nat, b: nat)
    requires b > 0
    ensures a as real / b as real >= 0.0
  {
  }

  lemma RatioLe(a: nat, b: nat, c: nat, d: nat)
    requires b > 0 && d > 0
    ensures a as real / b as real <= c as real / d as real <==> a * d <= c * b
  {
    var x, y := a as real / b as real, c as real / d as real;
    assert x * b as real == a as real;
    assert y * d as real == c as real;
    var bd := b as real * d as real;
    assert bd > 0.0;
    assert x * bd == a as real * d as real == (a * d) as real;
    assert y * bd == c as real * b as real == (c * b) as real;
    if x <= y {
      RealMulMono(x, y, bd);
    } else {
      RealMulStrict(y, x, bd);
    }
  }

  lemma RealMulMono(x: real, y: real, z: real)
    requires x <= y && z >= 0.0
    ensures x * z <= y * z
  {
  }

  lemma RealMulStrict(x: real, y: real, z: real)
    requires x < y && z > 0.0
    ensures x * z < y * z
  {
  }

  lemma RatioScale(a: nat, b: nat)
    requires b > 0
    ensures 1.5 * (a as real / b as real) == (3 * a) as real / (2 * b) as real
  {
    var x := a as real / b as real;
    assert x * b as real == a as real;
    assert (3 * a) as real == 3.0 * a as real;
    assert (2 * b) as real == 2.0 * b as real;
    assert (1.5 * x) * (2.0 * b as real) == 3.0 * (x * b as real);
  }

  /** The limit does not hold of every accepted proposal: an overflow on the proposed side makes the
      comparison pass, so a fee of about nothing may be followed by one of 100%. */
  lemma CapMissedOnOverflow()
    ensures
      var current, proposed := Fee(1, U64_MAX), Fee(U64_MAX, U64_MAX);
      && proposed.AtMostOne()
      && CheckWithdrawal(proposed, current).Ok?
      && !WithinCap(proposed, current)
  {
    var current, proposed := Fee(1, U64_MAX), Fee(U64_MAX, U64_MAX);
    CapIsCrossMultiplication(proposed, current);
  }

  /** Exactly when the program's check agrees with the limit, for every proposal. */
  lemma CheckWithdrawalExact(proposed: Fee, current: Fee)
    requires proposed.AtMostOne()
    ensures ProposedSide(proposed, current) > U128_MAX ==> CheckWithdrawal(proposed, current).Ok?
    ensures ProposedSide(proposed, current) <= U128_MAX ==>
      (CheckWithdrawal(proposed, current).Ok?
       <==> WithinCap(proposed, current) && AllowedSide(proposed, current) <= U128_MAX)
  {
    CapIsCrossMultiplication(proposed, current);
  }

  /** Components below 2^63 keep the proposal's side within 128 bits. */
  lemma SmallProposedSide(proposed: Fee, current: Fee)
    requires proposed.numerator < 0x8000_0000_0000_0000 && current.denominator < 0x8000_0000_0000_0000
    ensures ProposedSide(proposed, current) <= U128_MAX
  {
    MulMono(proposed.numerator, 0x8000_0000_0000_0000, CapBase(current).denominator, 0x8000_0000_0000_0000);
  }

  /** Components below 2^63 rule out both overflows. */
  lemma SmallComponentsNeverOverflow(proposed: Fee, current: Fee)
    requires proposed.AtMostOne() && proposed.denominator < 0x8000_0000_0000_0000
    requires current.numerator < 0x8000_0000_0000_0000 && current.denominator < 0x8000_0000_0000_0000
    ensures ProposedSide(proposed, current) <= U128_MAX
    ensures AllowedSide(proposed, current) <= U128_MAX
    ensures CheckWithdrawal(proposed, current).Ok? <==> WithinCap(proposed, current)
  {
    var base := CapBase(current);
    SmallProposedSide(proposed, current);
    MulMono(base.numerator, 0x8000_0000_0000_0000, proposed.denominator, 0x8000_0000_0000_0000);
    CheckWithdrawalExact(proposed, current);
  }

  /** One accepted change multiplies the fee, or the baseline if that is larger, by at most 3/2. */
  lemma CapBoundsGrowth(proposed: Fee, current: Fee)
    requires WithinCap(proposed, current)
    ensures proposed.Rate() <= 1.5 * RealMax(current.Rate(), 0.001)
  {
  }

  function RealMax(x: real, y: real): real {
    if x < y then y else x
  }
}
