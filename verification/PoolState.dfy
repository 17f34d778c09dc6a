/** The pool, its validator list and the part of the ledger the pool program works on. */
module PoolState {
  import opened Numbers
  import opened Fees
  import opened Records

  const MINIMUM_ACTIVE_STAKE: u64 := 1_000_000_000
  const MINIMUM_RESERVE_LAMPORTS: u64 := 1_000_000_000

  /** The deactivation epoch of a stake that is not being deactivated. */
  const EPOCH_MAX: u64 := U64_MAX

  datatype StakePool = StakePool(
    totalLamports: u64,
    poolTokenSupply: u64,
    lastUpdateEpoch: u64,
    epochFee: Fee,
    nextEpochFee: Option<Fee>,
    preferredDeposit: Option<Pubkey>,
    preferredWithdraw: Option<Pubkey>,
    stakeDepositFee: Fee,
    stakeWithdrawalFee: Fee,
    nextStakeWithdrawalFee: Option<Fee>,
    stakeReferralFee: u8,
    solDepositFee: Fee,
    solReferralFee: u8,
    solWithdrawalFee: Fee,
    nextSolWithdrawalFee: Option<Fee>,
    lastEpochPoolTokenSupply: u64,
    lastEpochTotalLamports: u64
  )

  /** A stake account under the pool's authority. */
  datatype StakeAccount =
    | Initialized(lamports: u64, rent: u64)
    | Delegated(lamports: u64, rent: u64, stake: u64, activationEpoch: u64, deactivationEpoch: u64)

  datatype TransientKey = TransientKey(vote: Pubkey, seed: u64)

  /** The transient account a record points at. */
  function KeyOf(r: ValidatorStakeInfo): TransientKey {
    TransientKey(r.voteAccountAddress, r.transientSeedSuffixStart)
  }

  /** Accounts at derived addresses are found by what the address is derived from. */
  datatype Ledger = Ledger(
    reserve: u64,
    reserveRent: u64,
    stakeRent: u64,
    validatorStake: map<Pubkey, StakeAccount>,
    transientStake: map<TransientKey, StakeAccount>,
    mintSupply: u64,
    epoch: u64
  )

  datatype State = State(
    pool: StakePool,
    validators: seq<ValidatorStakeInfo>,
    maxValidators: u32,
    ledger: Ledger
  )

  function MinimumStakeLamports(rent: u64): u64 {
    SaturatingAdd(rent, MINIMUM_ACTIVE_STAKE)
  }

  function MinimumReserveLamports(rent: u64): u64 {
    SaturatingAdd(rent, MINIMUM_RESERVE_LAMPORTS)
  }

  /** The number of records that fit a list account of `length` bytes, after the 5-byte header. */
  function CalculateMaxValidators(length: u64): nat {
    SaturatingSub(length, 5 + 4) / RECORD_LEN
  }

  /** The staleness test most instructions start with. */
  predicate Current(s: State) {
    s.pool.lastUpdateEpoch >= s.ledger.epoch
  }

  // ----- Searching the list -----

  function FindFrom(v: seq<ValidatorStakeInfo>, vote: Pubkey, i: nat): (r: Option<nat>)
    requires i <= |v|
    ensures r.Some? ==> i <= r.value < |v| && v[r.value].voteAccountAddress == vote
    ensures
      var end := if r.Some? then r.value else |v|;
      forall j :: i <= j < end ==> v[j].voteAccountAddress != vote
    decreases |v| - i
  {
    if i == |v| then None
    else if v[i].voteAccountAddress == vote then Some(i)
    else FindFrom(v, vote, i + 1)
  }

  /** The first record with this vote address. */
  function FindVote(v: seq<ValidatorStakeInfo>, vote: Pubkey): (r: Option<nat>)
    ensures r.Some? ==> r.value < |v| && v[r.value].voteAccountAddress == vote
    ensures
      var end := if r.Some? then r.value else |v|;
      forall j :: 0 <= j < end ==> v[j].voteAccountAddress != vote
  {
    FindFrom(v, vote, 0)
  }

  predicate HasActiveStake(v: seq<ValidatorStakeInfo>) {
    exists i :: 0 <= i < |v| && v[i].activeStakeLamports != 0
  }

  predicate HasTransientStake(v: seq<ValidatorStakeInfo>) {
    exists i :: 0 <= i < |v| && v[i].transientStakeLamports != 0
  }

  // ----- Sums over the list -----

  function StakeLamports(r: ValidatorStakeInfo): nat {
    r.activeStakeLamports + r.transientStakeLamports
  }

  function StakeSum(v: seq<ValidatorStakeInfo>): nat {
    if |v| == 0 then 0 else StakeSum(v[..|v| - 1]) + StakeLamports(v[|v| - 1])
  }

  lemma {:induction false} StakeSumUpdate(v: seq<ValidatorStakeInfo>, i: nat, r: ValidatorStakeInfo)
    requires i < |v|
    ensures StakeSum(v[i := r]) == StakeSum(v) - StakeLamports(v[i]) + StakeLamports(r)
  {
    var v' := v[i := r];
    if i == |v| - 1 {
      assert v'[..i] == v[..i];
    } else {
      assert v'[..|v| - 1] == v[..|v| - 1][i := r];
      StakeSumUpdate(v[..|v| - 1], i, r);
    }
  }

  lemma StakeSumAppend(v: seq<ValidatorStakeInfo>, r: ValidatorStakeInfo)
    ensures StakeSum(v + [r]) == StakeSum(v) + StakeLamports(r)
  {
    assert (v + [r])[..|v|] == v;
  }

  lemma {:induction false} StakeSumZero(v: seq<ValidatorStakeInfo>)
    requires !HasActiveStake(v) && !HasTransientStake(v)
    ensures StakeSum(v) == 0
  {
    if |v| > 0 {
      var front, last := v[..|v| - 1], v[|v| - 1];
      assert forall i :: 0 <= i < |front| ==> front[i] == v[i];
      assert last.activeStakeLamports == 0 && last.transientStakeLamports == 0;
      StakeSumZero(front);
    }
  }
}
