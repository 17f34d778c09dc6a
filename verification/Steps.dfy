/** The instructions of the pool program, as functions from state to state. An instruction that
    reports an error changes nothing, because its transaction is rolled back. */
module Steps {
  import opened Numbers
  import opened Errors
  import opened Fees
  import opened Pricing
  import opened Records
  import opened BigVecs
  import opened PoolState

  /** A `None` from checked arithmetic is reported as a calculation failure. */
  function Known<T>(o: Option<T>): Result<T> {
    if o.Some? then Ok(o.value) else Err(CalculationFailure)
  }

  /** A balance in another program's hands that would leave u64 fails there. */
  function Balance(x: int): Result<u64> {
    if 0 <= x <= U64_MAX then Ok(x) else Err(Foreign)
  }

  function WithRecord(s: State, i: nat, r: ValidatorStakeInfo): State
    requires i < |s.validators|
  {
    s.(validators := s.validators[i := r])
  }

  // ----- Initialize -----

  /** The arguments of the instruction and the accounts it is given. */
  datatype Setup = Setup(
    epochFee: Fee,
    withdrawalFee: Fee,
    depositFee: Fee,
    referralFee: u8,
    maxValidators: u32,
    listLength: u64,
    reserve: u64,
    reserveRent: u64,
    stakeRent: u64,
    mintSupply: u64,
    epoch: u64
  )

  /** Addresses derived from a pool that does not exist yet hold no stake accounts. */
  function Initialize(p: Setup): Result<State> {
    var _ :- Need(CalculateMaxValidators(p.listLength) == p.maxValidators && p.maxValidators != 0,
            UnexpectedValidatorListAccountSize);
    var _ :- Need(p.epochFee.AtMostOne() && p.withdrawalFee.AtMostOne() && p.depositFee.AtMostOne()
                 && p.referralFee <= 100,
            FeeTooHigh);
    var _ :- Need(p.mintSupply == 0, NonZeroPoolTokenSupply);
    var total :- Known(Checked64(p.reserve - MinimumReserveLamports(p.reserveRent)));
    var pool := StakePool(
                  total, total, p.epoch, p.epochFee, None, None, None, p.depositFee, p.withdrawalFee, None,
                  p.referralFee, p.depositFee, p.referralFee, p.withdrawalFee, None, 0, 0);
    Ok(State(pool, [], p.maxValidators,
             Ledger(p.reserve, p.reserveRent, p.stakeRent, map[], map[], total, p.epoch)))
  }

  // ----- Managing validators -----

  /** `prior` lamports may already lie at the address of the new stake account. */
  function AddValidator(s: State, vote: Pubkey, prior: u64): Result<State> {
    var _ :- Need(Current(s), StakeListAndPoolOutOfDate);
    var _ :- Need(s.maxValidators != |s.validators|, AccountDataTooSmall);
    var _ :- Need(FindVote(s.validators, vote).None?, ValidatorAlreadyAdded);
    var _ :- Need(vote !in s.ledger.validatorStake, Foreign);
    var required :- Balance(MINIMUM_ACTIVE_STAKE + s.ledger.stakeRent);
    var lamports: u64 := Max(required, prior);
    var account := Delegated(lamports, s.ledger.stakeRent, lamports - s.ledger.stakeRent, s.ledger.epoch, EPOCH_MAX);
    var record := ValidatorStakeInfo(0, 0, s.ledger.epoch, 0, 0, Active, vote);
    Ok(s.(validators := s.validators + [record],
          ledger := s.ledger.(validatorStake := s.ledger.validatorStake[vote := account])))
  }

  /** The state of a validator's stake account, which must be delegated. */
  function DelegatedStake(l: Ledger, vote: Pubkey): (r: Result<StakeAccount>)
    ensures r.Ok? <==> vote in l.validatorStake && l.validatorStake[vote].Delegated?
    ensures r.Ok? ==> r.value == l.validatorStake[vote]
  {
    if vote in l.validatorStake && l.validatorStake[vote].Delegated? then Ok(l.validatorStake[vote])
    else Err(WrongStakeState)
  }

  function RemovalStatus(l: Ledger, r: ValidatorStakeInfo): Result<StakeStatus> {
    var key := TransientKey(r.voteAccountAddress, r.transientSeedSuffixStart);
    if r.transientStakeLamports == 0 then Ok(ReadyForRemoval)
    else if key !in l.transientStake || l.transientStake[key].Initialized? then Ok(ReadyForRemoval)
    else if l.transientStake[key].deactivationEpoch == EPOCH_MAX then Err(WrongStakeState)
    else Ok(DeactivatingTransient)
  }

  function Unprefer(preferred: Option<Pubkey>, vote: Pubkey): Option<Pubkey> {
    if preferred == Some(vote) then None else preferred
  }

  function RemoveValidator(s: State, vote: Pubkey): Result<State> {
    var _ :- Need(Current(s), StakeListAndPoolOutOfDate);
    var account :- DelegatedStake(s.ledger, vote);
    var found := FindVote(s.validators, vote);
    var _ :- Need(found.Some?, ValidatorNotFound);
    var _ :- Need(account.lamports == MinimumStakeLamports(account.rent), StakeLamportsNotEqualToMinimum);
    var _ :- Need(account.stake == MINIMUM_ACTIVE_STAKE, StakeLamportsNotEqualToMinimum);
    var record := s.validators[found.value];
    var status :- RemovalStatus(s.ledger, record);
    Ok(WithRecord(s, found.value, record.(status := status)).(
         ledger := s.ledger.(validatorStake := s.ledger.validatorStake - {vote}),
         pool := s.pool.(preferredDeposit := Unprefer(s.pool.preferredDeposit, vote),
                         preferredWithdraw := Unprefer(s.pool.preferredWithdraw, vote))))
  }

  datatype Parts = Parts(rest: StakeAccount, split: StakeAccount)

  /** Splits `lamports` off a validator's account into a new transient one and deactivates it. */
  function SplitOff(l: Ledger, account: StakeAccount, lamports: u64, key: TransientKey, prior: u64): (r: Result<Parts>)
    requires account.Delegated?
  {
    var _ :- Need(lamports > l.stakeRent, AccountNotRentExempt);
    var _ :- Need(lamports <= account.lamports, InsufficientFunds);
    var required := MinimumStakeLamports(account.rent);
    var _ :- Need(account.lamports - lamports >= required || account.lamports >= required, CalculationFailure);
    var _ :- Need(account.lamports - lamports >= required, InsufficientFunds);
    var _ :- Need(key !in l.transientStake, Foreign);
    var _ :- Need(lamports <= account.stake && account.deactivationEpoch == EPOCH_MAX, Foreign);
    var held :- Balance(lamports + prior);
    Ok(Parts(account.(lamports := account.lamports - lamports, stake := account.stake - lamports),
             Delegated(held, l.stakeRent, lamports - SaturatingSub(l.stakeRent, prior),
                       account.activationEpoch, l.epoch)))
  }

  function DecreaseValidatorStake(s: State, vote: Pubkey, lamports: u64, seed: u64, prior: u64): Result<State> {
    var _ :- Need(Current(s), StakeListAndPoolOutOfDate);
    var account :- DelegatedStake(s.ledger, vote);
    var found := FindVote(s.validators, vote);
    var _ :- Need(found.Some?, ValidatorNotFound);
    var record := s.validators[found.value];
    var _ :- Need(record.transientStakeLamports == 0, TransientAccountInUse);
    var key := TransientKey(vote, seed);
    var parts :- SplitOff(s.ledger, account, lamports, key, prior);
    var active :- Known(Checked64(record.activeStakeLamports - lamports));
    Ok(WithRecord(s, found.value, record.(activeStakeLamports := active, transientStakeLamports := lamports,
                                          transientSeedSuffixStart := seed)).(
         ledger := s.ledger.(validatorStake := s.ledger.validatorStake[vote := parts.rest],
                             transientStake := s.ledger.transientStake[key := parts.split])))
  }

  function IncreaseValidatorStake(s: State, vote: Pubkey, lamports: u64, seed: u64, prior: u64): Result<State> {
    var _ :- Need(Current(s), StakeListAndPoolOutOfDate);
    var found := FindVote(s.validators, vote);
    var _ :- Need(found.Some?, ValidatorNotFound);
    var record := s.validators[found.value];
    var _ :- Need(record.transientStakeLamports == 0, TransientAccountInUse);
    var _ :- DelegatedStake(s.ledger, vote);
    var _ :- Need(record.status == Active, ValidatorNotFound);
    var _ :- Need(lamports >= MINIMUM_ACTIVE_STAKE, AccountNotRentExempt);
    var total := SaturatingAdd(lamports, s.ledger.stakeRent);
    var _ :- Need(SaturatingSub(s.ledger.reserve, total) > s.ledger.stakeRent, InsufficientFunds);
    var key := TransientKey(vote, seed);
    var _ :- Need(key !in s.ledger.transientStake, Foreign);
    var held :- Balance(total + prior);
    var account := Delegated(held, s.ledger.stakeRent, held - s.ledger.stakeRent, s.ledger.epoch, EPOCH_MAX);
    Ok(WithRecord(s, found.value, record.(transientStakeLamports := total, transientSeedSuffixStart := seed)).(
         ledger := s.ledger.(reserve := s.ledger.reserve - total,
                             transientStake := s.ledger.transientStake[key := account])))
  }

  datatype PreferredType = PreferredDeposit | PreferredWithdraw

  function SetPreferredValidator(s: State, kind: PreferredType, vote: Option<Pubkey>): Result<State> {
    var _ :- Need(vote.Some? ==> FindVote(s.validators, vote.value).Some?, ValidatorNotFound);
    var _ :- Need(vote.Some? ==> s.validators[FindVote(s.validators, vote.value).value].status == Active,
            InvalidPreferredValidator);
    Ok(s.(pool := if kind.PreferredDeposit? then s.pool.(preferredDeposit := vote)
                  else s.pool.(preferredWithdraw := vote)))
  }

  // ----- Refreshing the list -----

  datatype Address =
    | ValidatorStakeAddress(vote: Pubkey)
    | TransientStakeAddress(vote: Pubkey, seed: u64)
    | OtherAddress(key: Pubkey)

  /** What looking at one of a record's two accounts yields. */
  datatype Look = Look(ledger: Ledger, status: StakeStatus, lamports: u64)

  function AfterTransientGone(status: StakeStatus): StakeStatus {
    if status == DeactivatingTransient then ReadyForRemoval else status
  }

  /** The transient account is merged into the reserve. */
  function MergeIntoReserve(l: Ledger, key: TransientKey, status: StakeStatus): Result<Look>
    requires key in l.transientStake
  {
    var reserve :- Balance(l.reserve + l.transientStake[key].lamports);
    Ok(Look(l.(reserve := reserve, transientStake := l.transientStake - {key}), AfterTransientGone(status), 0))
  }

  /** Two fully active stakes are merged and the lamports that are not staked go to the reserve. */
  function MergeIntoValidator(l: Ledger, key: TransientKey, status: StakeStatus): Result<Look>
    requires key in l.transientStake && l.transientStake[key].Delegated?
    requires key.vote in l.validatorStake && l.validatorStake[key.vote].Delegated?
  {
    var t, v := l.transientStake[key], l.validatorStake[key.vote];
    var _ :- Need(t.deactivationEpoch == EPOCH_MAX && v.deactivationEpoch == EPOCH_MAX, Foreign);
    var additional := SaturatingSub(t.lamports, t.stake);
    var lamports :- Balance(v.lamports + t.lamports);
    var stake :- Balance(v.stake + t.stake);
    var reserve :- Balance(l.reserve + additional);
    Ok(Look(l.(reserve := reserve, transientStake := l.transientStake - {key},
               validatorStake := l.validatorStake[key.vote := v.(lamports := lamports - additional, stake := stake)]),
            status, 0))
  }

  function LookAtTransient(l: Ledger, r: ValidatorStakeInfo, noMerge: bool): Result<Look> {
    var key := TransientKey(r.voteAccountAddress, r.transientSeedSuffixStart);
    if key !in l.transientStake then Ok(Look(l, r.status, 0))
    else
      match l.transientStake[key]
      case Initialized(lamports, _) =>
        if noMerge then Ok(Look(l, r.status, lamports)) else MergeIntoReserve(l, key, r.status)
      case Delegated(_, rent, stake, activation, deactivation) =>
        var counted := Ok(Look(l, r.status, SaturatingAdd(rent, stake)));
        if noMerge then counted
        else if deactivation < l.epoch then MergeIntoReserve(l, key, r.status)
        else if activation < l.epoch then
          if key.vote in l.validatorStake && l.validatorStake[key.vote].Delegated?
             && l.validatorStake[key.vote].activationEpoch < l.epoch
          then MergeIntoValidator(l, key, r.status)
          else counted
        else counted
  }

  function LookAtValidator(l: Ledger, vote: Pubkey, status: StakeStatus): Result<Look> {
    if vote !in l.validatorStake then Ok(Look(l, status, 0))
    else
      match l.validatorStake[vote]
      case Delegated(_, _, stake, _, _) =>
        if status == Active then
          var active :- Known(Checked64(stake - MINIMUM_ACTIVE_STAKE));
          Ok(Look(l, status, active))
        else Ok(Look(l, status, 0))
      case Initialized(lamports, _) =>
        var reserve :- Balance(l.reserve + lamports);
        Ok(Look(l.(reserve := reserve, validatorStake := l.validatorStake - {vote}), ReadyForRemoval, 0))
  }

  datatype Refreshed = Refreshed(ledger: Ledger, record: ValidatorStakeInfo)

  function RefreshRecord(l: Ledger, r: ValidatorStakeInfo, noMerge: bool): Result<Refreshed> {
    var transient :- LookAtTransient(l, r, noMerge);
    var active :- LookAtValidator(transient.ledger, r.voteAccountAddress, transient.status);
    Ok(Refreshed(active.ledger, r.(activeStakeLamports := active.lamports, transientStakeLamports := transient.lamports,
                                   lastUpdateEpoch := l.epoch, status := active.status)))
  }

  datatype Listed = Listed(ledger: Ledger, validators: seq<ValidatorStakeInfo>)

  predicate PairMatches(r: ValidatorStakeInfo, accounts: seq<Address>, k: nat)
    requires 2 * k + 1 < |accounts|
  {
    && accounts[2 * k] == ValidatorStakeAddress(r.voteAccountAddress)
    && accounts[2 * k + 1] == TransientStakeAddress(r.voteAccountAddress, r.transientSeedSuffixStart)
  }

  /** The records from `start + k` on, each paired with two of the accounts passed in. */
  function RefreshFrom(l: Ledger, v: seq<ValidatorStakeInfo>, start: nat, accounts: seq<Address>,
                       noMerge: bool, k: nat): Result<Listed>
    requires start + |accounts| / 2 <= |v| && k <= |accounts| / 2
    decreases |accounts| / 2 - k
  {
    if k == |accounts| / 2 then Ok(Listed(l, v))
    else if !PairMatches(v[start + k], accounts, k) then RefreshFrom(l, v, start, accounts, noMerge, k + 1)
    else
      var one :- RefreshRecord(l, v[start + k], noMerge);
      RefreshFrom(one.ledger, v[start + k := one.record], start, accounts, noMerge, k + 1)
  }

  /** One turn of the loop, where the accounts match. */
  lemma RefreshFromMatch(l: Ledger, v: seq<ValidatorStakeInfo>, start: nat, accounts: seq<Address>, noMerge: bool,
                         k: nat, one: Refreshed)
    requires start + |accounts| / 2 <= |v| && k < |accounts| / 2 && PairMatches(v[start + k], accounts, k)
    requires RefreshRecord(l, v[start + k], noMerge) == Ok(one)
    ensures RefreshFrom(l, v, start, accounts, noMerge, k)
         == RefreshFrom(one.ledger, v[start + k := one.record], start, accounts, noMerge, k + 1)
  {
  }

  function UpdateValidatorList(s: State, start: u32, accounts: seq<Address>, noMerge: bool): Result<State> {
    var _ :- Need(|accounts| % 2 == 0, UnexpectedValidatorListAccountSize);
    var _ :- Need(start + |accounts| / 2 <= |s.validators|, AccountDataTooSmall);
    var all :- RefreshFrom(s.ledger, s.validators, start, accounts, noMerge, 0);
    Ok(s.(ledger := all.ledger, validators := all.validators))
  }

  // ----- Updating the pool -----

  /** The reserve above its minimum plus the first `n` records, all of which must be fresh. */
  function FreshTotal(base: u64, v: seq<ValidatorStakeInfo>, epoch: u64, n: nat): Result<u64>
    requires n <= |v|
  {
    if n == 0 then Ok(base)
    else
      var before :- FreshTotal(base, v, epoch, n - 1);
      var _ :- Need(v[n - 1].lastUpdateEpoch >= epoch, StakeListOutOfDate);
      Known(Checked64(before + StakeLamports(v[n - 1])))
  }

  /** A pending fee becomes the current one and is no longer pending; without one the fee stays. */
  predicate Promoted(fee: Fee, pending: Option<Fee>, fee': Fee, pending': Option<Fee>) {
    pending' == None && (pending == Some(fee') || (pending == None && fee' == fee))
  }

  /** Pending fees take effect on the first pool update of an epoch; a later one changes nothing. */
  function Promote(pool: StakePool, epoch: u64): (r: StakePool)
    ensures pool.lastUpdateEpoch >= epoch ==> r == pool
    ensures pool.lastUpdateEpoch < epoch ==>
      && r.lastUpdateEpoch == epoch
      && Promoted(pool.epochFee, pool.nextEpochFee, r.epochFee, r.nextEpochFee)
      && Promoted(pool.stakeWithdrawalFee, pool.nextStakeWithdrawalFee, r.stakeWithdrawalFee, r.nextStakeWithdrawalFee)
      && Promoted(pool.solWithdrawalFee, pool.nextSolWithdrawalFee, r.solWithdrawalFee, r.nextSolWithdrawalFee)
      && r.lastEpochTotalLamports == pool.totalLamports && r.lastEpochPoolTokenSupply == pool.poolTokenSupply
    ensures r.stakeDepositFee == pool.stakeDepositFee && r.solDepositFee == pool.solDepositFee
    ensures r.totalLamports == pool.totalLamports && r.poolTokenSupply == pool.poolTokenSupply
  {
    if pool.lastUpdateEpoch < epoch then
      pool.(epochFee := if pool.nextEpochFee.Some? then pool.nextEpochFee.value else pool.epochFee,
            nextEpochFee := None,
            stakeWithdrawalFee := if pool.nextStakeWithdrawalFee.Some? then pool.nextStakeWithdrawalFee.value
                                  else pool.stakeWithdrawalFee,
            nextStakeWithdrawalFee := None,
            solWithdrawalFee := if pool.nextSolWithdrawalFee.Some? then pool.nextSolWithdrawalFee.value
                                else pool.solWithdrawalFee,
            nextSolWithdrawalFee := None,
            lastUpdateEpoch := epoch,
            lastEpochTotalLamports := pool.totalLamports,
            lastEpochPoolTokenSupply := pool.poolTokenSupply)
    else pool
  }

  function EpochFeeOf(pool: StakePool, total: u64, feeAccountValid: bool): Result<u64> {
    if feeAccountValid then
      Known(EpochFeeTokens(pool.totalLamports, pool.poolTokenSupply, pool.epochFee,
                           SaturatingSub(total, pool.totalLamports)))
    else Ok(0)
  }

  function UpdateStakePool(s: State, feeAccountValid: bool): Result<State> {
    var base :- Known(Checked64(s.ledger.reserve - MinimumReserveLamports(s.ledger.reserveRent)));
    var total :- FreshTotal(base, s.validators, s.ledger.epoch, |s.validators|);
    var fee :- EpochFeeOf(s.pool, total, feeAccountValid);
    var mint :- Balance(s.ledger.mintSupply + fee);
    Ok(s.(pool := Promote(s.pool, s.ledger.epoch).(totalLamports := total, poolTokenSupply := mint),
          ledger := s.ledger.(mintSupply := mint)))
  }

  function CleanupRemoved(s: State): Result<State> {
    Ok(s.(validators := Filter(NotRemoved, s.validators)))
  }

  // ----- Deposits -----

  datatype DepositSplit = DepositSplit(user: u64, manager: u64, referral: u64)

  function SplitDeposit(minted: u64, fee: u64, referralPercent: u8): (r: Result<DepositSplit>)
    ensures r.Ok? ==> r.value.user + r.value.manager + r.value.referral == minted
  {
    var user :- Known(Checked64(minted - fee));
    var referral :- Known(ReferralTokens(referralPercent, fee));
    var manager :- Known(Checked64(fee - referral));
    var _ :- Need(SaturatingAdd(SaturatingAdd(user, manager), referral) == minted, CalculationFailure);
    var _ :- Need(user != 0, DepositTooSmall);
    Ok(DepositSplit(user, manager, referral))
  }

  /** Minted tokens and lamports enter the books together. */
  function Credit(s: State, minted: u64, lamports: u64): Result<State> {
    var mint :- Balance(s.ledger.mintSupply + minted);
    var supply :- Known(Checked64(s.pool.poolTokenSupply + minted));
    var total :- Known(Checked64(s.pool.totalLamports + lamports));
    Ok(s.(pool := s.pool.(poolTokenSupply := supply, totalLamports := total),
          ledger := s.ledger.(mintSupply := mint)))
  }

  function DepositSolTokens(p: StakePool, lamports: u64): (r: Result<(u64, DepositSplit)>)
    ensures r.Ok? ==> r.value.1.user + r.value.1.manager + r.value.1.referral == r.value.0
  {
    var minted :- Known(TokensForDeposit(p.totalLamports, p.poolTokenSupply, lamports));
    var fee :- Known(Checked64(p.solDepositFee.Apply(minted)));
    var split :- SplitDeposit(minted, fee, p.solReferralFee);
    Ok((minted, split))
  }

  function DepositSol(s: State, lamports: u64): Result<State> {
    var _ :- Need(Current(s), StakeListAndPoolOutOfDate);
    var priced :- DepositSolTokens(s.pool, lamports);
    var reserve :- Balance(s.ledger.reserve + lamports);
    var credited :- Credit(s, priced.0, lamports);
    Ok(credited.(ledger := credited.ledger.(reserve := reserve)))
  }

  function DepositStakeFee(p: StakePool, fromStake: u64, fromSol: u64): Result<u64> {
    var stakeFee :- Known(Checked64(p.stakeDepositFee.Apply(fromStake)));
    var solFee :- Known(Checked64(p.solDepositFee.Apply(fromSol)));
    Known(Checked64(stakeFee as int + solFee as int))
  }

  function DepositStakeTokens(p: StakePool, lamports: u64, stake: u64): (r: Result<(u64, DepositSplit)>)
    ensures r.Ok? ==> r.value.1.user + r.value.1.manager + r.value.1.referral == r.value.0
  {
    var minted :- Known(TokensForDeposit(p.totalLamports, p.poolTokenSupply, lamports));
    var fromStake :- Known(TokensForDeposit(p.totalLamports, p.poolTokenSupply, stake));
    var fromSol :- Known(Checked64(minted as int - fromStake as int));
    var fee :- DepositStakeFee(p, fromStake, fromSol);
    var split :- SplitDeposit(minted, fee, p.stakeReferralFee);
    Ok((minted, split))
  }

  /** A delegated account and the record it belongs to. */
  datatype Target = Target(account: StakeAccount, index: nat)

  function DepositTarget(s: State, vote: Pubkey): (r: Result<Target>)
    ensures r.Ok? ==>
      && DelegatedStake(s.ledger, vote) == Ok(r.value.account)
      && FindVote(s.validators, vote) == Some(r.value.index) && s.validators[r.value.index].status == Active
  {
    var account :- DelegatedStake(s.ledger, vote);
    var _ :- Need(s.pool.preferredDeposit == None || s.pool.preferredDeposit == Some(vote),
            IncorrectDepositVoteAddress);
    var found := FindVote(s.validators, vote);
    var _ :- Need(found.Some? && s.validators[found.value].status == Active, ValidatorNotFound);
    Ok(Target(account, found.value))
  }

  datatype Joined = Joined(state: State, stake: u64)

  /** A stake account of `lamports`, of which `stake` are delegated, is merged into a validator's
      account; what is not delegated goes on to the reserve, and tokens are minted for all of it. */
  function JoinStake(s: State, vote: Pubkey, account: StakeAccount, lamports: u64, stake: u64): Result<Joined>
    requires account.Delegated?
  {
    var _ :- Balance(account.lamports + lamports);
    var postStake :- Balance(account.stake + stake);
    var sol :- Known(Checked64(lamports - stake));
    var priced :- DepositStakeTokens(s.pool, lamports, stake);
    var reserve :- Balance(s.ledger.reserve + sol);
    var credited :- Credit(s, priced.0, lamports);
    var post := account.(lamports := account.lamports + stake, stake := postStake);
    Ok(Joined(credited.(ledger := credited.ledger.(reserve := reserve,
                                                   validatorStake := s.ledger.validatorStake[vote := post])),
              postStake))
  }

  function DepositStake(s: State, vote: Pubkey, lamports: u64, stake: u64): Result<State> {
    var _ :- Need(Current(s), StakeListAndPoolOutOfDate);
    var target :- DepositTarget(s, vote);
    var joined :- JoinStake(s, vote, target.account, lamports, stake);
    var active :- Known(Checked64(joined.stake - MINIMUM_ACTIVE_STAKE));
    Ok(WithRecord(joined.state, target.index, s.validators[target.index].(activeStakeLamports := active)))
  }

  // ----- Withdrawals -----

  /** Tokens burnt, tokens passed on to the manager, lamports paid out. */
  datatype Withdrawal = Withdrawal(burnt: u64, fee: u64, lamports: u64)

  /** Tokens that redeem for at least a lamport. */
  predicate Redeemable(p: StakePool, burnt: u64) {
    var lamports := LamportsForTokens(p.totalLamports, p.poolTokenSupply, burnt);
    lamports.Some? && lamports.value > 0
  }

  /** `exempt` covers a manager withdrawing its own tokens and an unusable fee account. */
  function PriceWithdrawal(p: StakePool, fee: Fee, tokens: u64, exempt: bool): (r: Result<Withdrawal>)
    ensures
      var kept := if exempt then 0 else fee.Apply(tokens);
      r.Ok? <==> kept <= tokens && Redeemable(p, tokens - kept)
    ensures r.Ok? ==>
      && r.value.burnt + r.value.fee == tokens && r.value.lamports > 0
      && r.value.fee == (if exempt then 0 else fee.Apply(tokens))
      && LamportsForTokens(p.totalLamports, p.poolTokenSupply, r.value.burnt) == Some(r.value.lamports)
  {
    var feeTokens :- if exempt then Ok(0) else Known(Checked64(fee.Apply(tokens)));
    var burnt :- Known(Checked64(tokens - feeTokens));
    var lamports :- Known(LamportsForTokens(p.totalLamports, p.poolTokenSupply, burnt));
    var _ :- Need(lamports != 0, WithdrawalTooSmall);
    Ok(Withdrawal(burnt, feeTokens, lamports))
  }

  function Debit(s: State, w: Withdrawal): Result<State> {
    var mint :- Balance(s.ledger.mintSupply - w.burnt);
    var supply :- Known(Checked64(s.pool.poolTokenSupply - w.burnt));
    var total :- Known(Checked64(s.pool.totalLamports - w.lamports));
    Ok(s.(pool := s.pool.(poolTokenSupply := supply, totalLamports := total),
          ledger := s.ledger.(mintSupply := mint)))
  }

  function WithdrawSol(s: State, tokens: u64, exempt: bool): Result<State> {
    var _ :- Need(Current(s), StakeListAndPoolOutOfDate);
    var w :- PriceWithdrawal(s.pool, s.pool.solWithdrawalFee, tokens, exempt);
    var reserve := SaturatingSub(s.ledger.reserve, w.lamports);
    var _ :- Need(reserve >= MinimumReserveLamports(s.ledger.reserveRent), SolWithdrawalTooLarge);
    var debited :- Debit(s, w);
    var left :- Balance(s.ledger.reserve - w.lamports);
    Ok(debited.(ledger := debited.ledger.(reserve := left)))
  }

  datatype Source = FromReserve | FromAccount(address: Address)

  function WithdrawFromReserve(s: State, w: Withdrawal): Result<State> {
    var _ :- Need(!HasTransientStake(s.validators) && !HasActiveStake(s.validators), StakeLamportsNotEqualToMinimum);
    var _ :- Need(s.ledger.reserve >= MinimumReserveLamports(s.ledger.reserveRent), StakeLamportsNotEqualToMinimum);
    var debited :- Debit(s, w);
    var left :- Balance(s.ledger.reserve - w.lamports);
    Ok(debited.(ledger := debited.ledger.(reserve := left)))
  }

  /** A preferred validator's active stake is used up before any other. */
  function CheckPreferred(s: State, vote: Pubkey): Result<()> {
    if s.pool.preferredWithdraw.None? then Ok(())
    else
      var preferred := s.pool.preferredWithdraw.value;
      var found := FindVote(s.validators, preferred);
      var _ :- Need(found.Some?, ValidatorNotFound);
      var _ :- Need(preferred == vote || s.validators[found.value].activeStakeLamports == 0,
              IncorrectWithdrawVoteAddress);
      Ok(())
  }

  /** The delegated stake account at an address, if there is one. */
  function AccountAt(l: Ledger, a: Address): (r: Result<StakeAccount>)
    ensures r.Ok? ==> r.value.Delegated? && !a.OtherAddress?
    ensures r.Ok? && a.ValidatorStakeAddress? ==> a.vote in l.validatorStake && r.value == l.validatorStake[a.vote]
    ensures r.Ok? && a.TransientStakeAddress? ==>
      TransientKey(a.vote, a.seed) in l.transientStake && r.value == l.transientStake[TransientKey(a.vote, a.seed)]
  {
    match a
    case ValidatorStakeAddress(vote) => DelegatedStake(l, vote)
    case TransientStakeAddress(vote, seed) =>
      var key := TransientKey(vote, seed);
      if key in l.transientStake && l.transientStake[key].Delegated? then Ok(l.transientStake[key])
      else Err(WrongStakeState)
    case OtherAddress(_) => Err(WrongStakeState)
  }

  /** Active stake is withdrawn before transient stake, and the minimum stays behind. */
  function WithdrawTarget(s: State, a: Address, lamports: u64): (r: Result<Target>)
    ensures r.Ok? ==>
      && AccountAt(s.ledger, a) == Ok(r.value.account) && lamports + MINIMUM_ACTIVE_STAKE <= r.value.account.stake
      && FindVote(s.validators, a.vote) == Some(r.value.index) && s.validators[r.value.index].status == Active
      && (HasActiveStake(s.validators) <==> a.ValidatorStakeAddress?)
      && (a.TransientStakeAddress? ==> a.seed == s.validators[r.value.index].transientSeedSuffixStart)
  {
    var account :- AccountAt(s.ledger, a);
    var _ :- CheckPreferred(s, a.vote);
    var found := FindVote(s.validators, a.vote);
    var _ :- Need(found.Some?, ValidatorNotFound);
    var record := s.validators[found.value];
    var _ :- Need(a == if HasActiveStake(s.validators) then ValidatorStakeAddress(a.vote)
                 else TransientStakeAddress(a.vote, record.transientSeedSuffixStart),
            InvalidStakeAccountAddress);
    var _ :- Need(record.status == Active, ValidatorNotFound);
    var _ :- Need(SaturatingSub(account.stake, lamports) >= MINIMUM_ACTIVE_STAKE, StakeLamportsNotEqualToMinimum);
    Ok(Target(account, found.value))
  }

  /** Lamports leave a validator's account, and the record that shows them. */
  function ActiveTaken(s: State, i: nat, vote: Pubkey, rest: StakeAccount, lamports: u64): Result<State>
    requires i < |s.validators|
  {
    var active :- Known(Checked64(s.validators[i].activeStakeLamports - lamports));
    Ok(WithRecord(s, i, s.validators[i].(activeStakeLamports := active)).(
         ledger := s.ledger.(validatorStake := s.ledger.validatorStake[vote := rest])))
  }

  /** Lamports leave a transient account, and the record that shows them. */
  function TransientTaken(s: State, i: nat, key: TransientKey, rest: StakeAccount, lamports: u64): Result<State>
    requires i < |s.validators|
  {
    var transient :- Known(Checked64(s.validators[i].transientStakeLamports - lamports));
    Ok(WithRecord(s, i, s.validators[i].(transientStakeLamports := transient)).(
         ledger := s.ledger.(transientStake := s.ledger.transientStake[key := rest])))
  }

  function WithdrawFromAccount(s: State, w: Withdrawal, a: Address): Result<State> {
    var target :- WithdrawTarget(s, a, w.lamports);
    var account, i := target.account, target.index;
    var left :- Balance(account.lamports - w.lamports);
    var rest := account.(lamports := left, stake := account.stake - w.lamports);
    var debited :- Debit(s, w);
    if a.ValidatorStakeAddress? then ActiveTaken(debited, i, a.vote, rest, w.lamports)
    else TransientTaken(debited, i, TransientKey(a.vote, a.seed), rest, w.lamports)
  }

  function WithdrawStake(s: State, source: Source, tokens: u64, exempt: bool): Result<State> {
    var _ :- Need(Current(s), StakeListAndPoolOutOfDate);
    var w :- PriceWithdrawal(s.pool, s.pool.stakeWithdrawalFee, tokens, exempt);
    match source
    case FromReserve => WithdrawFromReserve(s, w)
    case FromAccount(a) => WithdrawFromAccount(s, w, a)
  }

  // ----- Fees -----

  function UpdateFee(p: StakePool, f: FeeType): Result<StakePool> {
    match f
    case SolReferral(percent) => Ok(p.(solReferralFee := percent))
    case StakeReferral(percent) => Ok(p.(stakeReferralFee := percent))
    case Epoch(fee) => Ok(p.(nextEpochFee := Some(fee)))
    case StakeWithdrawal(fee) =>
      var _ :- CheckWithdrawal(fee, p.stakeWithdrawalFee);
      Ok(p.(nextStakeWithdrawalFee := Some(fee)))
    case SolWithdrawal(fee) =>
      var _ :- CheckWithdrawal(fee, p.solWithdrawalFee);
      Ok(p.(nextSolWithdrawalFee := Some(fee)))
    case SolDeposit(fee) => Ok(p.(solDepositFee := fee))
    case StakeDeposit(fee) => Ok(p.(stakeDepositFee := fee))
  }

  function SetFee(s: State, f: FeeType): Result<State> {
    var _ :- Need(f.CanOnlyChangeNextEpoch() ==> Current(s), StakeListAndPoolOutOfDate);
    var _ :- f.CheckTooHigh();
    var pool :- UpdateFee(s.pool, f);
    Ok(s.(pool := pool))
  }

  // ----- The environment -----

  /** Over an epoch boundary a delegated stake gains or loses the same amount of lamports and stake. */
  predicate CarriedOver(before: StakeAccount, after: StakeAccount) {
    if before.Initialized? then after == before
    else
      && after.Delegated? && after.rent == before.rent
      && after.activationEpoch == before.activationEpoch && after.deactivationEpoch == before.deactivationEpoch
      && after.lamports - after.stake == before.lamports - before.stake
  }

  predicate AllCarriedOver<K>(before: map<K, StakeAccount>, after: map<K, StakeAccount>) {
    before.Keys == after.Keys && forall k :: k in before ==> CarriedOver(before[k], after[k])
  }

  function AdvanceEpoch(s: State, epoch: u64, validatorStake: map<Pubkey, StakeAccount>,
                        transientStake: map<TransientKey, StakeAccount>): Result<State> {
    var _ :- Need(s.ledger.epoch < epoch, Environment);
    var _ :- Need(AllCarriedOver(s.ledger.validatorStake, validatorStake), Environment);
    var _ :- Need(AllCarriedOver(s.ledger.transientStake, transientStake), Environment);
    Ok(s.(ledger := s.ledger.(epoch := epoch, validatorStake := validatorStake, transientStake := transientStake)))
  }

  function DonateToReserve(s: State, lamports: u64): Result<State> {
    var reserve :- Balance(s.ledger.reserve + lamports);
    Ok(s.(ledger := s.ledger.(reserve := reserve)))
  }

  function DonateToValidator(s: State, vote: Pubkey, lamports: u64): Result<State> {
    var _ :- Need(vote in s.ledger.validatorStake, Environment);
    var account := s.ledger.validatorStake[vote];
    var held :- Balance(account.lamports + lamports);
    Ok(s.(ledger := s.ledger.(validatorStake := s.ledger.validatorStake[vote := account.(lamports := held)])))
  }

  function DonateToTransient(s: State, key: TransientKey, lamports: u64): Result<State> {
    var _ :- Need(key in s.ledger.transientStake, Environment);
    var account := s.ledger.transientStake[key];
    var held :- Balance(account.lamports + lamports);
    Ok(s.(ledger := s.ledger.(transientStake := s.ledger.transientStake[key := account.(lamports := held)])))
  }

  function BurnByHolder(s: State, tokens: u64): Result<State> {
    var mint :- Balance(s.ledger.mintSupply - tokens);
    Ok(s.(ledger := s.ledger.(mintSupply := mint)))
  }

  // ----- Runs -----

  datatype Action =
    | DoAddValidator(vote: Pubkey, prior: u64)
    | DoRemoveValidator(vote: Pubkey)
    | DoDecrease(vote: Pubkey, lamports: u64, seed: u64, prior: u64)
    | DoIncrease(vote: Pubkey, lamports: u64, seed: u64, prior: u64)
    | DoSetPreferred(kind: PreferredType, preferred: Option<Pubkey>)
    | DoUpdateList(start: u32, accounts: seq<Address>, noMerge: bool)
    | DoUpdatePool(feeAccountValid: bool)
    | DoCleanup
    | DoDepositStake(vote: Pubkey, lamports: u64, stake: u64)
    | DoDepositSol(lamports: u64)
    | DoWithdrawStake(source: Source, tokens: u64, exempt: bool)
    | DoWithdrawSol(tokens: u64, exempt: bool)
    | DoSetFee(fee: FeeType)
    | DoAdvanceEpoch(epoch: u64, validatorStake: map<Pubkey, StakeAccount>,
                     transientStake: map<TransientKey, StakeAccount>)
    | DoDonateToReserve(lamports: u64)
    | DoDonateToValidator(vote: Pubkey, lamports: u64)
    | DoDonateToTransient(key: TransientKey, lamports: u64)
    | DoBurnByHolder(tokens: u64)

  /** The moves of the environment; all other actions are instructions of the program. */
  predicate IsEnvironment(a: Action) {
    || a.DoAdvanceEpoch? || a.DoBurnByHolder?
    || a.DoDonateToReserve? || a.DoDonateToValidator? || a.DoDonateToTransient?
  }

  function Apply(s: State, a: Action): Result<State> {
    match a
    case DoAddValidator(vote, prior) => AddValidator(s, vote, prior)
    case DoRemoveValidator(vote) => RemoveValidator(s, vote)
    case DoDecrease(vote, lamports, seed, prior) => DecreaseValidatorStake(s, vote, lamports, seed, prior)
    case DoIncrease(vote, lamports, seed, prior) => IncreaseValidatorStake(s, vote, lamports, seed, prior)
    case DoSetPreferred(kind, preferred) => SetPreferredValidator(s, kind, preferred)
    case DoUpdateList(start, accounts, noMerge) => UpdateValidatorList(s, start, accounts, noMerge)
    case DoUpdatePool(feeAccountValid) => UpdateStakePool(s, feeAccountValid)
    case DoCleanup => CleanupRemoved(s)
    case DoDepositStake(vote, lamports, stake) => DepositStake(s, vote, lamports, stake)
    case DoDepositSol(lamports) => DepositSol(s, lamports)
    case DoWithdrawStake(source, tokens, exempt) => WithdrawStake(s, source, tokens, exempt)
    case DoWithdrawSol(tokens, exempt) => WithdrawSol(s, tokens, exempt)
    case DoSetFee(fee) => SetFee(s, fee)
    case DoAdvanceEpoch(epoch, v, t) => AdvanceEpoch(s, epoch, v, t)
    case DoDonateToReserve(lamports) => DonateToReserve(s, lamports)
    case DoDonateToValidator(vote, lamports) => DonateToValidator(s, vote, lamports)
    case DoDonateToTransient(key, lamports) => DonateToTransient(s, key, lamports)
    case DoBurnByHolder(tokens) => BurnByHolder(s, tokens)
  }

  /** One transaction: a failed one leaves the state as it was. */
  function Next(s: State, a: Action): State {
    if Apply(s, a).Ok? then Apply(s, a).value else s
  }

  function Run(s: State, actions: seq<Action>): State {
    if |actions| == 0 then s else Next(Run(s, actions[..|actions| - 1]), actions[|actions| - 1])
  }

  lemma RunStep(s: State, actions: seq<Action>, i: nat)
    requires i < |actions|
    ensures Run(s, actions[..i + 1]) == Next(Run(s, actions[..i]), actions[i])
  {
    assert actions[..i + 1][..i] == actions[..i];
  }

  lemma OneStep(s: State, a: Action)
    ensures Run(s, [a]) == Next(s, a)
  {
    assert [a][..0] == [] && [a][..1] == [a];
    RunStep(s, [a], 0);
  }

  lemma TwoSteps(s: State, a: Action, b: Action)
    ensures Run(s, [a, b]) == Next(Next(s, a), b)
  {
    assert [a, b][..1] == [a] && [a, b][..2] == [a, b];
    OneStep(s, a);
    RunStep(s, [a, b], 1);
  }
}
