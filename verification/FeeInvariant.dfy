/** Fees stay at most 100% in every run, so deposits always split exactly; and the withdrawal fees
    grow by at most half per epoch. */
module FeeInvariant {
  import opened Numbers
  import opened Errors
  import opened Fees
  import opened Pricing
  import opened PoolState
  import opened Steps
  import opened Effects

  ghost predicate OptionAtMostOne(f: Option<Fee>) {
    f.Some? ==> f.value.AtMostOne()
  }

  ghost predicate FeesInv(p: StakePool) {
    && p.epochFee.AtMostOne() && OptionAtMostOne(p.nextEpochFee)
    && p.stakeDepositFee.AtMostOne() && p.solDepositFee.AtMostOne()
    && p.stakeWithdrawalFee.AtMostOne() && OptionAtMostOne(p.nextStakeWithdrawalFee)
    && p.solWithdrawalFee.AtMostOne() && OptionAtMostOne(p.nextSolWithdrawalFee)
    && p.stakeReferralFee <= 100 && p.solReferralFee <= 100
  }

  /** The fields only `set_fee` and an epoch promotion write. */
  ghost predicate SameFees(p: StakePool, q: StakePool) {
    && q.epochFee == p.epochFee && q.nextEpochFee == p.nextEpochFee
    && q.stakeDepositFee == p.stakeDepositFee && q.solDepositFee == p.solDepositFee
    && q.stakeWithdrawalFee == p.stakeWithdrawalFee && q.nextStakeWithdrawalFee == p.nextStakeWithdrawalFee
    && q.solWithdrawalFee == p.solWithdrawalFee && q.nextSolWithdrawalFee == p.nextSolWithdrawalFee
    && q.stakeReferralFee == p.stakeReferralFee && q.solReferralFee == p.solReferralFee
    && q.lastUpdateEpoch == p.lastUpdateEpoch
  }

  lemma OthersKeepFees(s: State, a: Action)
    requires !a.DoSetFee? && !a.DoUpdatePool?
    ensures SameFees(s.pool, Next(s, a).pool)
  {
    if Trades(a) {
      TradeEffect(s, a);
    } else if !a.DoBurnByHolder? {
      OtherEffect(s, a);
    } else if Apply(s, a).Ok? {
      BurnEffect(s, a.tokens);
    }
  }

  lemma NextKeepsFeesInv(s: State, a: Action)
    requires FeesInv(s.pool)
    ensures FeesInv(Next(s, a).pool)
  {
    if a.DoSetFee? {
      SetFeeKeepsFeesInv(s, a.fee);
    } else if !a.DoUpdatePool? {
      OthersKeepFees(s, a);
    }
  }

  lemma SetFeeKeepsFeesInv(s: State, f: FeeType)
    requires FeesInv(s.pool)
    ensures SetFee(s, f).Ok? ==> FeesInv(SetFee(s, f).value.pool)
  {
  }

  /** What the program's comparison lets through: proposals within the limit, short of an overflow on
      the allowed side, and every proposal that overflows its own side. */
  ghost predicate PassesCap(proposed: Fee, current: Fee) {
    || ProposedSide(proposed, current) > U128_MAX
    || (WithinCap(proposed, current) && AllowedSide(proposed, current) <= U128_MAX)
  }

  /** Exactly which fees can be set: at most 100%, not while the pool is stale if they wait for the
      next epoch, and for withdrawal fees what the comparison lets through. */
  lemma SetFeeAcceptsExactly(s: State, f: FeeType)
    ensures SetFee(s, f).Ok? <==>
      && (f.SolReferral? || f.StakeReferral? ==> f.percent <= 100)
      && (!f.SolReferral? && !f.StakeReferral? ==> f.fee.AtMostOne())
      && (f.StakeWithdrawal? || f.SolWithdrawal? || f.Epoch? ==> Current(s))
      && (f.StakeWithdrawal? ==> PassesCap(f.fee, s.pool.stakeWithdrawalFee))
      && (f.SolWithdrawal? ==> PassesCap(f.fee, s.pool.solWithdrawalFee))
  {
    match f
    case StakeWithdrawal(fee) =>
      if fee.AtMostOne() {
        CheckWithdrawalExact(fee, s.pool.stakeWithdrawalFee);
      }
    case SolWithdrawal(fee) =>
      if fee.AtMostOne() {
        CheckWithdrawalExact(fee, s.pool.solWithdrawalFee);
      }
    case _ =>
  }

  // ----- Exact splits -----

  /** With a fee of at most the tokens minted, the three shares add up to them and no check fires. */
  lemma SplitIsExact(minted: u64, fee: u64, percent: u8)
    requires fee <= minted && percent <= 100
    ensures
      var split := SplitDeposit(minted, fee, percent);
      && (split.Ok? <==> fee < minted)
      && (split.Err? ==> split.error == DepositTooSmall)
      && (split.Ok? ==>
            && split.value.user + split.value.manager + split.value.referral == minted
            && split.value.manager + split.value.referral == fee
            && split.value.referral * 100 <= fee * percent < split.value.referral * 100 + 100)
  {
    MulMono(fee, fee, percent, 100);
    FloorLe(fee * percent, 100, fee);
    FloorBounds(fee * percent, 100);
  }

  /** A SOL deposit that can be priced fails only for being too small. */
  lemma DepositSolNeverMiscalculates(p: StakePool, lamports: u64)
    requires FeesInv(p) && TokensForDeposit(p.totalLamports, p.poolTokenSupply, lamports).Some?
    ensures
      var minted := TokensForDeposit(p.totalLamports, p.poolTokenSupply, lamports).value;
      var r := DepositSolTokens(p, lamports);
      && (r.Ok? ==>
            && r.value.0 == minted && r.value.1.user == minted - p.solDepositFee.Apply(minted)
            && r.value.1.user + r.value.1.manager + r.value.1.referral == minted)
      && (r.Err? ==> r.error == DepositTooSmall && p.solDepositFee.Apply(minted) == minted)
  {
    var minted := TokensForDeposit(p.totalLamports, p.poolTokenSupply, lamports).value;
    SplitIsExact(minted, p.solDepositFee.Apply(minted), p.solReferralFee);
  }

  lemma TokensMonotone(total: u64, supply: u64, more: u64, less: u64)
    requires less <= more && TokensForDeposit(total, supply, more).Some?
    ensures TokensForDeposit(total, supply, less).Some?
    ensures TokensForDeposit(total, supply, less).value <= TokensForDeposit(total, supply, more).value
  {
    if total > 0 && supply > 0 {
      MulMono(less, more, supply, supply);
      FloorMono(less * supply, more * supply, total);
    }
  }

  lemma DepositStakeFeeWithin(p: StakePool, fromStake: u64, fromSol: u64)
    requires FeesInv(p) && fromStake + fromSol <= U64_MAX
    ensures DepositStakeFee(p, fromStake, fromSol).Ok?
    ensures DepositStakeFee(p, fromStake, fromSol).value <= fromStake + fromSol
  {
    var stakeFee, solFee := p.stakeDepositFee.Apply(fromStake), p.solDepositFee.Apply(fromSol);
    assert stakeFee <= fromStake && solFee <= fromSol;
  }

  /** The same for a stake deposit, whose fee is charged in two parts. */
  lemma DepositStakeNeverMiscalculates(p: StakePool, lamports: u64, stake: u64)
    requires FeesInv(p) && stake <= lamports
    requires TokensForDeposit(p.totalLamports, p.poolTokenSupply, lamports).Some?
    ensures
      var minted := TokensForDeposit(p.totalLamports, p.poolTokenSupply, lamports).value;
      var r := DepositStakeTokens(p, lamports, stake);
      && (r.Ok? ==> r.value.0 == minted
                    && r.value.1.user + r.value.1.manager + r.value.1.referral == minted)
      && (r.Err? ==> r.error == DepositTooSmall)
  {
    TokensMonotone(p.totalLamports, p.poolTokenSupply, lamports, stake);
    var minted := TokensForDeposit(p.totalLamports, p.poolTokenSupply, lamports).value;
    var fromStake := TokensForDeposit(p.totalLamports, p.poolTokenSupply, stake).value;
    DepositStakeFeeWithin(p, fromStake, minted - fromStake);
    SplitIsExact(minted, DepositStakeFee(p, fromStake, minted - fromStake).value, p.stakeReferralFee);
  }

  // ----- Growth of the withdrawal fees -----

  /** `x` times `(3/2)^k`. */
  function Grown(x: real, k: nat): real {
    if k == 0 then x else 1.5 * Grown(x, k - 1)
  }

  /** Any pending withdrawal fee was checked against the fee it will replace. */
  ghost predicate PendingCapped(p: StakePool) {
    && (p.nextStakeWithdrawalFee.Some? ==> WithinCap(p.nextStakeWithdrawalFee.value, p.stakeWithdrawalFee))
    && (p.nextSolWithdrawalFee.Some? ==> WithinCap(p.nextSolWithdrawalFee.value, p.solWithdrawalFee))
  }

  /** The proposal's side of the limit does not overflow, so the program's check is the limit itself. */
  ghost predicate CapSound(s: State, a: Action) {
    && (a.DoSetFee? && a.fee.StakeWithdrawal? ==> ProposedSide(a.fee.fee, s.pool.stakeWithdrawalFee) <= U128_MAX)
    && (a.DoSetFee? && a.fee.SolWithdrawal? ==> ProposedSide(a.fee.fee, s.pool.solWithdrawalFee) <= U128_MAX)
  }

  lemma NextKeepsPendingCapped(s: State, a: Action)
    requires PendingCapped(s.pool) && CapSound(s, a)
    ensures PendingCapped(Next(s, a).pool)
  {
    if a.DoSetFee? && Apply(s, a).Ok? {
      match a.fee
      case StakeWithdrawal(fee) => CheckWithdrawalExact(fee, s.pool.stakeWithdrawalFee);
      case SolWithdrawal(fee) => CheckWithdrawalExact(fee, s.pool.solWithdrawalFee);
      case _ =>
    } else if !a.DoUpdatePool? && !a.DoSetFee? {
      OthersKeepFees(s, a);
    }
  }

  /** The larger of a fee and the baseline of 1/1000. */
  ghost function Level(f: Fee): (x: real)
    ensures f.Rate() <= x
  {
    RealMax(f.Rate(), 0.001)
  }

  /** The step promotes pending fees. */
  ghost predicate Promotes(s: State, a: Action) {
    Next(s, a).pool.lastUpdateEpoch != s.pool.lastUpdateEpoch
  }

  lemma LevelPositive(f: Fee)
    ensures Level(f) > 0.0
  {
  }

  lemma PromotionBoundsLevels(s: State, feeAccountValid: bool, end: StakePool)
    requires PendingCapped(s.pool) && UpdateStakePool(s, feeAccountValid).Ok?
    requires end == UpdateStakePool(s, feeAccountValid).value.pool
    ensures
      var factor := if end.lastUpdateEpoch != s.pool.lastUpdateEpoch then 1.5 else 1.0;
      && Level(end.stakeWithdrawalFee) <= factor * Level(s.pool.stakeWithdrawalFee)
      && Level(end.solWithdrawalFee) <= factor * Level(s.pool.solWithdrawalFee)
  {
    var p := s.pool;
    LevelPositive(p.stakeWithdrawalFee);
    LevelPositive(p.solWithdrawalFee);
    if p.nextStakeWithdrawalFee.Some? {
      CapBoundsGrowth(p.nextStakeWithdrawalFee.value, p.stakeWithdrawalFee);
    }
    if p.nextSolWithdrawalFee.Some? {
      CapBoundsGrowth(p.nextSolWithdrawalFee.value, p.solWithdrawalFee);
    }
  }

  /** Fees change only in a promotion, and then by at most half. */
  lemma NextBoundsLevels(s: State, a: Action, end: StakePool, promoted: bool)
    requires PendingCapped(s.pool) && end == Next(s, a).pool && promoted == Promotes(s, a)
    ensures
      var factor := if promoted then 1.5 else 1.0;
      && Level(end.stakeWithdrawalFee) <= factor * Level(s.pool.stakeWithdrawalFee)
      && Level(end.solWithdrawalFee) <= factor * Level(s.pool.solWithdrawalFee)
  {
    LevelPositive(s.pool.stakeWithdrawalFee);
    LevelPositive(s.pool.solWithdrawalFee);
    if a.DoUpdatePool? && Apply(s, a).Ok? {
      PromotionBoundsLevels(s, a.feeAccountValid, end);
    } else if !a.DoSetFee? && !a.DoUpdatePool? {
      OthersKeepFees(s, a);
    }
  }

  /** How often a run promotes pending fees. */
  ghost function Promotions(s: State, actions: seq<Action>): nat {
    if |actions| == 0 then 0
    else
      var before := actions[..|actions| - 1];
      Promotions(s, before) + (if Promotes(Run(s, before), actions[|actions| - 1]) then 1 else 0)
  }

  ghost predicate AllCapSound(s: State, actions: seq<Action>) {
    forall i :: 0 <= i < |actions| ==> CapSound(Run(s, actions[..i]), actions[i])
  }

  lemma AllCapSoundPrefix(s: State, actions: seq<Action>)
    requires |actions| > 0 && AllCapSound(s, actions)
    ensures AllCapSound(s, actions[..|actions| - 1])
    ensures CapSound(Run(s, actions[..|actions| - 1]), actions[|actions| - 1])
  {
    var before := actions[..|actions| - 1];
    forall i | 0 <= i < |before|
      ensures CapSound(Run(s, before[..i]), before[i])
    {
      assert before[..i] == actions[..i];
    }
  }

  /** The withdrawal fees of `end` are within `k` promotions of those of `start`. */
  ghost predicate WithinPromotions(start: StakePool, end: StakePool, k: nat) {
    && Level(end.stakeWithdrawalFee) <= Grown(Level(start.stakeWithdrawalFee), k)
    && Level(end.solWithdrawalFee) <= Grown(Level(start.solWithdrawalFee), k)
  }

  lemma NextWithinPromotions(start: StakePool, mid: State, a: Action, k: nat, end: StakePool, promoted: bool)
    requires PendingCapped(mid.pool) && WithinPromotions(start, mid.pool, k)
    requires end == Next(mid, a).pool && promoted == Promotes(mid, a)
    ensures WithinPromotions(start, end, k + if promoted then 1 else 0)
  {
    NextBoundsLevels(mid, a, end, promoted);
    GrownStep(start, mid.pool, end, k, promoted);
  }

  lemma GrownStep(start: StakePool, mid: StakePool, end: StakePool, k: nat, promoted: bool)
    requires WithinPromotions(start, mid, k)
    requires Level(end.stakeWithdrawalFee) <= (if promoted then 1.5 else 1.0) * Level(mid.stakeWithdrawalFee)
    requires Level(end.solWithdrawalFee) <= (if promoted then 1.5 else 1.0) * Level(mid.solWithdrawalFee)
    ensures WithinPromotions(start, end, k + if promoted then 1 else 0)
  {
  }

  /** After `k` promotions each withdrawal fee is at most `(3/2)^k` times where it started, or times
      the baseline of 1/1000 if that is larger. */
  lemma {:induction false} WithdrawalFeeGrowth(s: State, actions: seq<Action>)
    requires PendingCapped(s.pool) && AllCapSound(s, actions)
    ensures PendingCapped(Run(s, actions).pool)
    ensures WithinPromotions(s.pool, Run(s, actions).pool, Promotions(s, actions))
  {
    if |actions| > 0 {
      var before, last := actions[..|actions| - 1], actions[|actions| - 1];
      AllCapSoundPrefix(s, actions);
      WithdrawalFeeGrowth(s, before);
      ExtendGrowth(s.pool, Run(s, before), last, Promotions(s, before), Run(s, actions), Promotions(s, actions));
    }
  }

  /** One more step of a run. */
  lemma ExtendGrowth(start: StakePool, mid: State, a: Action, k: nat, end: State, k': nat)
    requires PendingCapped(mid.pool) && CapSound(mid, a) && WithinPromotions(start, mid.pool, k)
    requires end == Next(mid, a) && k' == k + if Promotes(mid, a) then 1 else 0
    ensures PendingCapped(end.pool)
    ensures WithinPromotions(start, end.pool, k')
  {
    NextKeepsPendingCapped(mid, a);
    NextWithinPromotions(start, mid, a, k, end.pool, Promotes(mid, a));
  }

  // ----- Small fees never overflow -----

  /** Components below 2^63. */
  predicate Small(f: Fee) {
    f.numerator < 0x8000_0000_0000_0000 && f.denominator < 0x8000_0000_0000_0000
  }

  ghost predicate OptionSmall(f: Option<Fee>) {
    f.Some? ==> Small(f.value)
  }

  ghost predicate SmallFees(p: StakePool) {
    && Small(p.stakeWithdrawalFee) && OptionSmall(p.nextStakeWithdrawalFee)
    && Small(p.solWithdrawalFee) && OptionSmall(p.nextSolWithdrawalFee)
  }

  /** Every withdrawal fee proposed in the run has small components. */
  ghost predicate SmallProposals(actions: seq<Action>) {
    forall i :: 0 <= i < |actions| ==> SmallProposal(actions[i])
  }

  ghost predicate SmallProposal(a: Action) {
    a.DoSetFee? && (a.fee.StakeWithdrawal? || a.fee.SolWithdrawal?) ==> Small(a.fee.fee)
  }

  lemma SmallIsCapSound(s: State, a: Action)
    requires SmallFees(s.pool) && SmallProposal(a)
    ensures CapSound(s, a)
  {
    if a.DoSetFee? && a.fee.StakeWithdrawal? {
      SmallProposedSide(a.fee.fee, s.pool.stakeWithdrawalFee);
    } else if a.DoSetFee? && a.fee.SolWithdrawal? {
      SmallProposedSide(a.fee.fee, s.pool.solWithdrawalFee);
    }
  }

  lemma NextKeepsSmallFees(s: State, a: Action)
    requires SmallFees(s.pool) && SmallProposal(a)
    ensures SmallFees(Next(s, a).pool)
  {
    if !a.DoSetFee? && !a.DoUpdatePool? {
      OthersKeepFees(s, a);
    }
  }

  lemma {:induction false} SmallFeesOverRuns(s: State, actions: seq<Action>)
    requires SmallFees(s.pool) && SmallProposals(actions)
    ensures SmallFees(Run(s, actions).pool) && AllCapSound(s, actions)
  {
    if |actions| > 0 {
      var before, last := actions[..|actions| - 1], actions[|actions| - 1];
      SmallFeesOverRuns(s, before);
      NextKeepsSmallFees(Run(s, before), last);
      SmallIsCapSound(Run(s, before), last);
      forall i | 0 <= i < |actions|
        ensures CapSound(Run(s, actions[..i]), actions[i])
      {
        if i < |before| {
          assert actions[..i] == before[..i];
          assert CapSound(Run(s, before[..i]), before[i]);
        }
      }
    }
  }

  /** The bound on fee growth from conditions that can be read off the calls: components below 2^63. */
  lemma SmallFeesGrowth(s: State, actions: seq<Action>)
    requires PendingCapped(s.pool) && SmallFees(s.pool) && SmallProposals(actions)
    ensures WithinPromotions(s.pool, Run(s, actions).pool, Promotions(s, actions))
  {
    SmallFeesOverRuns(s, actions);
    WithdrawalFeeGrowth(s, actions);
  }
}
