/** Exactly when the instructions that manage validators and fees are accepted, and exactly what they
    leave behind. */
module Outcomes {
  import opened Numbers
  import opened Errors
  import opened Fees
  import opened Records
  import opened BigVecs
  import opened PoolState
  import opened Steps

  /** Record `i` is the first of the list with this vote address. */
  ghost predicate IsFirst(v: seq<ValidatorStakeInfo>, vote: Pubkey, i: nat) {
    && i < |v| && v[i].voteAccountAddress == vote
    && forall j :: 0 <= j < i ==> v[j].voteAccountAddress != vote
  }

  ghost predicate Unlisted(v: seq<ValidatorStakeInfo>, vote: Pubkey) {
    forall j :: 0 <= j < |v| ==> v[j].voteAccountAddress != vote
  }

  /** The search by vote address finds that record, and nothing if there is none. */
  lemma FoundExactly(v: seq<ValidatorStakeInfo>, vote: Pubkey)
    ensures forall i: nat :: FindVote(v, vote) == Some(i) <==> IsFirst(v, vote, i)
    ensures FindVote(v, vote) == None <==> Unlisted(v, vote)
  {
  }

  ghost predicate IsDelegated<K>(accounts: map<K, StakeAccount>, k: K) {
    k in accounts && accounts[k].Delegated?
  }

  // ----- Creating a pool -----

  /** A new pool books the reserve above its minimum, one token for each lamport, and starts with an
      empty list; deposits and withdrawals of stake and of SOL start with the same fees. */
  ghost predicate Created(p: Setup, s: State) {
    var minimum := p.reserveRent + MINIMUM_RESERVE_LAMPORTS;
    && 9 + 73 * p.maxValidators <= p.listLength < 9 + 73 * (p.maxValidators + 1) && p.maxValidators > 0
    && p.epochFee.AtMostOne() && p.withdrawalFee.AtMostOne() && p.depositFee.AtMostOne() && p.referralFee <= 100
    && p.mintSupply == 0 && p.reserve >= (if minimum > U64_MAX then U64_MAX else minimum)
    && s.pool.totalLamports == s.pool.poolTokenSupply == s.ledger.mintSupply
       == p.reserve - (if minimum > U64_MAX then U64_MAX else minimum)
    && s.pool.lastUpdateEpoch == s.ledger.epoch == p.epoch
    && s.pool.epochFee == p.epochFee
    && s.pool.stakeDepositFee == s.pool.solDepositFee == p.depositFee
    && s.pool.stakeWithdrawalFee == s.pool.solWithdrawalFee == p.withdrawalFee
    && s.pool.stakeReferralFee == s.pool.solReferralFee == p.referralFee
    && s.pool.nextEpochFee == s.pool.nextStakeWithdrawalFee == s.pool.nextSolWithdrawalFee == None
    && s.pool.preferredDeposit == s.pool.preferredWithdraw == None
    && s.pool.lastEpochPoolTokenSupply == s.pool.lastEpochTotalLamports == 0
    && s.validators == [] && s.maxValidators == p.maxValidators
    && s.ledger.reserve == p.reserve && s.ledger.reserveRent == p.reserveRent && s.ledger.stakeRent == p.stakeRent
    && s.ledger.validatorStake == map[] && s.ledger.transientStake == map[]
  }

  lemma InitializeExactly(p: Setup, s: State)
    ensures Initialize(p) == Ok(s) <==> Created(p, s)
  {
    FloorBounds(SaturatingSub(p.listLength, 9), RECORD_LEN);
    if p.listLength >= 9 && 73 * p.maxValidators <= p.listLength - 9 < 73 * p.maxValidators + 73 {
      FloorIs(p.listLength - 9, 73, p.maxValidators);
    }
  }

  // ----- Validators -----

  /** A new validator's account holds the minimum, or what was sent ahead if that is more, all of it
      staked but the rent; its record shows nothing yet. */
  ghost predicate Added(s: State, vote: Pubkey, prior: u64, s': State) {
    var l, l' := s.ledger, s'.ledger;
    && Current(s) && |s.validators| != s.maxValidators && Unlisted(s.validators, vote)
    && vote !in l.validatorStake && l.stakeRent + MINIMUM_ACTIVE_STAKE <= U64_MAX
    && |s'.validators| == |s.validators| + 1 && s'.validators[..|s.validators|] == s.validators
    && NewRecord(s'.validators[|s.validators|], vote, l.epoch)
    && vote in l'.validatorStake && l'.validatorStake == l.validatorStake[vote := l'.validatorStake[vote]]
    && NewAccount(l'.validatorStake[vote], l, prior)
    && s'.pool == s.pool && s'.maxValidators == s.maxValidators
    && l' == l.(validatorStake := l'.validatorStake)
  }

  ghost predicate NewRecord(r: ValidatorStakeInfo, vote: Pubkey, epoch: u64) {
    && r.voteAccountAddress == vote && r.status == Active && r.lastUpdateEpoch == epoch
    && r.activeStakeLamports == r.transientStakeLamports == 0
    && r.transientSeedSuffixStart == r.transientSeedSuffixEnd == 0
  }

  ghost predicate NewAccount(a: StakeAccount, l: Ledger, prior: u64) {
    && a.Delegated? && a.rent == l.stakeRent && a.stake + a.rent == a.lamports
    && prior <= a.lamports && a.stake >= MINIMUM_ACTIVE_STAKE
    && (a.lamports == prior || a.stake == MINIMUM_ACTIVE_STAKE)
    && a.activationEpoch == l.epoch && a.deactivationEpoch == EPOCH_MAX
  }

  lemma AddExactly(s: State, vote: Pubkey, prior: u64, s': State)
    ensures AddValidator(s, vote, prior) == Ok(s') <==> Added(s, vote, prior, s')
  {
    FoundExactly(s.validators, vote);
    if Added(s, vote, prior, s') {
      assert s'.validators == s.validators + [s'.validators[|s.validators|]];
    }
  }

  /** A validator can be removed once its stake is down to the minimum and no transient stake is being
      activated; it waits for transient stake that is being deactivated. */
  ghost predicate Removed(s: State, vote: Pubkey, i: nat, s': State)
    requires i < |s.validators|
  {
    var l, r := s.ledger, s.validators[i];
    && Current(s) && IsDelegated(l.validatorStake, vote)
    && l.validatorStake[vote].stake == MINIMUM_ACTIVE_STAKE
    && l.validatorStake[vote].lamports == SaturatingAdd(l.validatorStake[vote].rent, MINIMUM_ACTIVE_STAKE)
    && var waits := r.transientStakeLamports > 0 && IsDelegated(l.transientStake, KeyOf(r));
    && (waits ==> l.transientStake[KeyOf(r)].deactivationEpoch != EPOCH_MAX)
    && s'.validators == s.validators[i := r.(status := if waits then DeactivatingTransient else ReadyForRemoval)]
    && s'.maxValidators == s.maxValidators
    && s'.ledger == l.(validatorStake := l.validatorStake - {vote})
    && s'.pool == s.pool.(preferredDeposit := s'.pool.preferredDeposit, preferredWithdraw := s'.pool.preferredWithdraw)
    && s'.pool.preferredDeposit == (if s.pool.preferredDeposit == Some(vote) then None else s.pool.preferredDeposit)
    && s'.pool.preferredWithdraw == (if s.pool.preferredWithdraw == Some(vote) then None else s.pool.preferredWithdraw)
  }

  lemma RemoveExactly(s: State, vote: Pubkey, s': State)
    ensures RemoveValidator(s, vote) == Ok(s') <==>
      exists i: nat :: IsFirst(s.validators, vote, i) && Removed(s, vote, i, s')
  {
    FoundExactly(s.validators, vote);
    var found := FindVote(s.validators, vote);
    if found.Some? {
      assert IsFirst(s.validators, vote, found.value);
      RemoveAt(s, vote, found.value, s');
    }
  }

  lemma RemoveAt(s: State, vote: Pubkey, i: nat, s': State)
    requires FindVote(s.validators, vote) == Some(i)
    ensures RemoveValidator(s, vote) == Ok(s') <==> Removed(s, vote, i, s')
  {
  }

  /** Exactly one preference is set, to nothing or to an active validator of the list. */
  ghost predicate Preferred(s: State, kind: PreferredType, vote: Option<Pubkey>, s': State) {
    && (vote.Some? ==>
          exists i: nat :: IsFirst(s.validators, vote.value, i) && s.validators[i].status == Active)
    && s'.ledger == s.ledger && s'.validators == s.validators && s'.maxValidators == s.maxValidators
    && s'.pool == s.pool.(preferredDeposit := s'.pool.preferredDeposit, preferredWithdraw := s'.pool.preferredWithdraw)
    && s'.pool.preferredDeposit == (if kind == PreferredDeposit then vote else s.pool.preferredDeposit)
    && s'.pool.preferredWithdraw == (if kind == PreferredWithdraw then vote else s.pool.preferredWithdraw)
  }

  lemma SetPreferredExactly(s: State, kind: PreferredType, vote: Option<Pubkey>, s': State)
    ensures SetPreferredValidator(s, kind, vote) == Ok(s') <==> Preferred(s, kind, vote, s')
  {
    if vote.Some? {
      FoundExactly(s.validators, vote.value);
      var found := FindVote(s.validators, vote.value);
      if found.Some? {
        assert IsFirst(s.validators, vote.value, found.value);
      }
    }
  }

  // ----- Moving stake -----

  /** The stake of one validator and one transient account, and the record of both, are all that differ. */
  ghost predicate MovesStake(s: State, vote: Pubkey, seed: u64, i: nat, s': State)
    requires i < |s.validators|
  {
    var l, l', key := s.ledger, s'.ledger, TransientKey(vote, seed);
    && |s'.validators| == |s.validators| && s'.validators == s.validators[i := s'.validators[i]]
    && s'.pool == s.pool && s'.maxValidators == s.maxValidators
    && vote in l.validatorStake && vote in l'.validatorStake && key in l'.transientStake && key !in l.transientStake
    && l'.validatorStake == l.validatorStake[vote := l'.validatorStake[vote]]
    && l'.transientStake == l.transientStake[key := l'.transientStake[key]]
    && l' == l.(validatorStake := l'.validatorStake, transientStake := l'.transientStake, reserve := l'.reserve)
  }

  /** A decrease splits lamports off a validator's account into a new transient one, all of them staked
      but what the rent still lacks, and deactivates them at once; the rest stays delegated. */
  ghost predicate Decreased(s: State, vote: Pubkey, lamports: u64, seed: u64, prior: u64, i: nat, s': State)
    requires i < |s.validators|
  {
    var l, l', key, r := s.ledger, s'.ledger, TransientKey(vote, seed), s.validators[i];
    && Current(s) && r.transientStakeLamports == 0 && l.stakeRent < lamports <= r.activeStakeLamports
    && MovesStake(s, vote, seed, i, s') && l'.reserve == l.reserve
    && l.validatorStake[vote].Delegated? && l'.validatorStake[vote].Delegated? && l'.transientStake[key].Delegated?
    && var v, v', t := l.validatorStake[vote], l'.validatorStake[vote], l'.transientStake[key];
    && v.deactivationEpoch == EPOCH_MAX && lamports <= v.stake
    && lamports + SaturatingAdd(v.rent, MINIMUM_ACTIVE_STAKE) <= v.lamports
    && v'.lamports + lamports == v.lamports && v'.stake + lamports == v.stake && v'.rent == v.rent
    && v'.activationEpoch == v.activationEpoch && v'.deactivationEpoch == EPOCH_MAX
    && t.lamports == lamports + prior && t.rent == l.stakeRent
    && t.stake == lamports - (if prior >= l.stakeRent then 0 else l.stakeRent - prior)
    && t.activationEpoch == v.activationEpoch && t.deactivationEpoch == l.epoch
    && s'.validators[i] == r.(activeStakeLamports := r.activeStakeLamports - lamports,
                              transientStakeLamports := lamports, transientSeedSuffixStart := seed)
  }

  lemma DecreaseAt(s: State, vote: Pubkey, lamports: u64, seed: u64, prior: u64, i: nat, s': State)
    requires FindVote(s.validators, vote) == Some(i)
    ensures DecreaseValidatorStake(s, vote, lamports, seed, prior) == Ok(s')
       <==> Decreased(s, vote, lamports, seed, prior, i, s')
  {
  }

  lemma DecreaseExactly(s: State, vote: Pubkey, lamports: u64, seed: u64, prior: u64, s': State)
    ensures DecreaseValidatorStake(s, vote, lamports, seed, prior) == Ok(s') <==>
      exists i: nat :: IsFirst(s.validators, vote, i) && Decreased(s, vote, lamports, seed, prior, i, s')
  {
    FoundExactly(s.validators, vote);
    var found := FindVote(s.validators, vote);
    if found.Some? {
      assert IsFirst(s.validators, vote, found.value);
      DecreaseAt(s, vote, lamports, seed, prior, found.value, s');
    }
  }

  /** An increase moves lamports and a rent from the reserve, which must keep more than a rent, to a new
      transient account of an active validator; all of it but the rent is delegated from this epoch on. */
  ghost predicate Increased(s: State, vote: Pubkey, lamports: u64, seed: u64, prior: u64, i: nat, s': State)
    requires i < |s.validators|
  {
    var l, l', key, r := s.ledger, s'.ledger, TransientKey(vote, seed), s.validators[i];
    && Current(s) && r.transientStakeLamports == 0 && r.status == Active
    && MovesStake(s, vote, seed, i, s') && l'.validatorStake[vote] == l.validatorStake[vote]
    && l.validatorStake[vote].Delegated? && l'.transientStake[key].Delegated?
    && lamports >= MINIMUM_ACTIVE_STAKE && lamports + 2 * l.stakeRent < l.reserve
    && l'.reserve + lamports + l.stakeRent == l.reserve
    && var t := l'.transientStake[key];
    && t.lamports == lamports + l.stakeRent + prior && t.rent == l.stakeRent && t.stake == lamports + prior
    && t.activationEpoch == l.epoch && t.deactivationEpoch == EPOCH_MAX
    && s'.validators[i] == r.(transientStakeLamports := lamports + l.stakeRent, transientSeedSuffixStart := seed)
  }

  lemma IncreaseAt(s: State, vote: Pubkey, lamports: u64, seed: u64, prior: u64, i: nat, s': State)
    requires FindVote(s.validators, vote) == Some(i)
    ensures IncreaseValidatorStake(s, vote, lamports, seed, prior) == Ok(s')
       <==> Increased(s, vote, lamports, seed, prior, i, s')
  {
    if vote in s.ledger.validatorStake {
      var same := s.ledger.validatorStake[vote := s.ledger.validatorStake[vote]];
      assert same == s.ledger.validatorStake;
    }
    if Increased(s, vote, lamports, seed, prior, i, s') {
      assert s'.ledger.validatorStake == s.ledger.validatorStake;
    }
  }

  lemma IncreaseExactly(s: State, vote: Pubkey, lamports: u64, seed: u64, prior: u64, s': State)
    ensures IncreaseValidatorStake(s, vote, lamports, seed, prior) == Ok(s') <==>
      exists i: nat :: IsFirst(s.validators, vote, i) && Increased(s, vote, lamports, seed, prior, i, s')
  {
    FoundExactly(s.validators, vote);
    var found := FindVote(s.validators, vote);
    if found.Some? {
      assert IsFirst(s.validators, vote, found.value);
      IncreaseAt(s, vote, lamports, seed, prior, found.value, s');
    }
  }

  /** A cleanup keeps exactly the records that are not ready for removal, in their order, and nothing
      else changes. */
  lemma CleanupExactly(s: State, s': State)
    ensures CleanupRemoved(s) == Ok(s') <==>
      && s'.pool == s.pool && s'.ledger == s.ledger && s'.maxValidators == s.maxValidators
      && s'.validators == Kept(s.validators)
  {
    KeptIsFiltered(s.validators);
  }

  /** The records that stay, first to last. */
  function Kept(v: seq<ValidatorStakeInfo>): seq<ValidatorStakeInfo> {
    if |v| == 0 then []
    else (if v[0].status == ReadyForRemoval then [] else [v[0]]) + Kept(v[1..])
  }

  lemma {:induction false} KeptIsFiltered(v: seq<ValidatorStakeInfo>)
    ensures Kept(v) == Filter(NotRemoved, v)
  {
    if |v| > 1 {
      var front, last := v[..|v| - 1], v[|v| - 1];
      KeptIsFiltered(front);
      KeptIsFiltered(v[1..]);
      KeptIsFiltered(v[1..][..|v| - 2]);
      assert front[1..] == v[1..][..|v| - 2];
      assert v[1..][|v| - 2] == last;
    } else if |v| == 1 {
      assert v[1..] == [] && v[..0] == [];
    }
  }

  // ----- Stale pools -----

  /** The instructions that work only on a pool updated this epoch. */
  predicate NeedsCurrent(a: Action) {
    || a.DoAddValidator? || a.DoRemoveValidator? || a.DoDecrease? || a.DoIncrease?
    || a.DoDepositStake? || a.DoDepositSol? || a.DoWithdrawStake? || a.DoWithdrawSol?
    || (a.DoSetFee? && (a.fee.StakeWithdrawal? || a.fee.SolWithdrawal? || a.fee.Epoch?))
  }

  /** Each of them refuses a stale pool, and says so. */
  lemma StaleIsRefused(s: State, a: Action)
    requires NeedsCurrent(a) && s.pool.lastUpdateEpoch < s.ledger.epoch
    ensures Apply(s, a) == Err(StakeListAndPoolOutOfDate)
  {
  }

  // ----- Fees -----

  /** Where a fee lands: deposit and referral fees at once, epoch and withdrawal fees as pending, and
      everything else of the pool stays as it is. */
  lemma SetFeeLands(s: State, f: FeeType)
    requires SetFee(s, f).Ok?
    ensures
      var s', p := SetFee(s, f).value, s.pool;
      && s'.ledger == s.ledger && s'.validators == s.validators && s'.maxValidators == s.maxValidators
      && s'.pool.epochFee == p.epochFee && s'.pool.stakeWithdrawalFee == p.stakeWithdrawalFee
      && s'.pool.solWithdrawalFee == p.solWithdrawalFee
      && s'.pool.nextEpochFee == (if f.Epoch? then Some(f.fee) else p.nextEpochFee)
      && s'.pool.nextStakeWithdrawalFee == (if f.StakeWithdrawal? then Some(f.fee) else p.nextStakeWithdrawalFee)
      && s'.pool.nextSolWithdrawalFee == (if f.SolWithdrawal? then Some(f.fee) else p.nextSolWithdrawalFee)
      && s'.pool.stakeDepositFee == (if f.StakeDeposit? then f.fee else p.stakeDepositFee)
      && s'.pool.solDepositFee == (if f.SolDeposit? then f.fee else p.solDepositFee)
      && s'.pool.stakeReferralFee == (if f.StakeReferral? then f.percent else p.stakeReferralFee)
      && s'.pool.solReferralFee == (if f.SolReferral? then f.percent else p.solReferralFee)
      && s'.pool == p.(nextEpochFee := s'.pool.nextEpochFee, nextStakeWithdrawalFee := s'.pool.nextStakeWithdrawalFee,
                       nextSolWithdrawalFee := s'.pool.nextSolWithdrawalFee, stakeDepositFee := s'.pool.stakeDepositFee,
                       solDepositFee := s'.pool.solDepositFee, stakeReferralFee := s'.pool.stakeReferralFee,
                       solReferralFee := s'.pool.solReferralFee)
  {
  }
}
