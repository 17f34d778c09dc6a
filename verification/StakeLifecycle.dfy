/** Where stake ends up that the staker moves: a decrease ends in the reserve, an increase in the
    validator's account, both with the first merging refresh of a later epoch. */
module StakeLifecycle {
  import opened Numbers
  import opened Records
  import opened PoolState
  import opened Steps
  import opened ListInvariant
  import opened Solvency
  import opened SolvencySteps
  import opened Outcomes
  import opened Refreshes

  /** A decrease deactivates what it splits off in the current epoch. */
  lemma DecreaseDeactivates(s: State, vote: Pubkey, lamports: u64, seed: u64, prior: u64)
    requires DecreaseValidatorStake(s, vote, lamports, seed, prior).Ok?
    ensures
      var l, key := DecreaseValidatorStake(s, vote, lamports, seed, prior).value.ledger, TransientKey(vote, seed);
      && IsDelegated(l.transientStake, key) && l.transientStake[key].deactivationEpoch == s.ledger.epoch
      && l.transientStake[key].lamports == lamports + prior
  {
    var s' := DecreaseValidatorStake(s, vote, lamports, seed, prior).value;
    DecreaseAt(s, vote, lamports, seed, prior, FindVote(s.validators, vote).value, s');
  }

  /** An increase delegates what it moves from the current epoch on. */
  lemma IncreaseActivates(s: State, vote: Pubkey, lamports: u64, seed: u64, prior: u64)
    requires IncreaseValidatorStake(s, vote, lamports, seed, prior).Ok?
    ensures
      var l, key := IncreaseValidatorStake(s, vote, lamports, seed, prior).value.ledger, TransientKey(vote, seed);
      && IsDelegated(l.transientStake, key) && l.transientStake[key].activationEpoch == s.ledger.epoch
      && l.transientStake[key].deactivationEpoch == EPOCH_MAX && l.transientStake[key].stake == lamports + prior
      && IsDelegated(l.validatorStake, vote)
  {
    var s' := IncreaseValidatorStake(s, vote, lamports, seed, prior).value;
    IncreaseAt(s, vote, lamports, seed, prior, FindVote(s.validators, vote).value, s');
  }

  /** Once the epoch is over, whatever rewards or losses it brought, refreshing the record of a decrease
      sends all lamports of the split account to the reserve and leaves the validator's account alone. */
  lemma DecreaseEndsInReserve(s: State, vote: Pubkey, lamports: u64, seed: u64, prior: u64, a: Action, m: Mode)
    requires ListInv(s) && LedgerInv(s, m) && Admits(m, s, DoDecrease(vote, lamports, seed, prior))
    requires DecreaseValidatorStake(s, vote, lamports, seed, prior).Ok? && a.DoAdvanceEpoch?
    requires Apply(DecreaseValidatorStake(s, vote, lamports, seed, prior).value, a).Ok?
    requires Admits(m, DecreaseValidatorStake(s, vote, lamports, seed, prior).value, a)
    ensures FindVote(s.validators, vote).Some?
    ensures
      var s', i := Apply(DecreaseValidatorStake(s, vote, lamports, seed, prior).value, a).value,
                   FindVote(s.validators, vote).value;
      var key := TransientKey(vote, seed);
      && |s'.validators| == |s.validators| && KeyOf(s'.validators[i]) == key && key in s'.ledger.transientStake
      && (RefreshRecord(s'.ledger, s'.validators[i], false).Ok? ==>
            var l := RefreshRecord(s'.ledger, s'.validators[i], false).value.ledger;
            && l.reserve == s'.ledger.reserve + s'.ledger.transientStake[key].lamports
            && l.validatorStake == s'.ledger.validatorStake && key !in l.transientStake)
  {
    var split, i := DecreaseValidatorStake(s, vote, lamports, seed, prior).value, FindVote(s.validators, vote).value;
    var s' := Apply(split, a).value;
    DecreaseDeactivates(s, vote, lamports, seed, prior);
    DecreaseAt(s, vote, lamports, seed, prior, i, split);
    DecreaseSolvent(s, vote, lamports, seed, prior, m);
    DecreaseKeepsListInv(s, vote, lamports, seed, prior);
    EpochCarriesOver(split, a, i, TransientKey(vote, seed), m);
    if RefreshRecord(s'.ledger, s'.validators[i], false).Ok? {
      MergeDestinations(s'.ledger, s'.validators[i], m);
    }
  }

  /** And refreshing the record of an increase makes its stake, rewards included, the validator's, and
      sends the rest of the lamports to the reserve. */
  lemma IncreaseEndsInValidator(s: State, vote: Pubkey, lamports: u64, seed: u64, prior: u64, a: Action, m: Mode)
    requires ListInv(s) && LedgerInv(s, m) && Admits(m, s, DoIncrease(vote, lamports, seed, prior))
    requires IncreaseValidatorStake(s, vote, lamports, seed, prior).Ok? && a.DoAdvanceEpoch?
    requires Apply(IncreaseValidatorStake(s, vote, lamports, seed, prior).value, a).Ok?
    requires Admits(m, IncreaseValidatorStake(s, vote, lamports, seed, prior).value, a)
    ensures FindVote(s.validators, vote).Some?
    ensures
      var s', i := Apply(IncreaseValidatorStake(s, vote, lamports, seed, prior).value, a).value,
                   FindVote(s.validators, vote).value;
      var key := TransientKey(vote, seed);
      && |s'.validators| == |s.validators| && KeyOf(s'.validators[i]) == key
      && key in s'.ledger.transientStake && vote in s'.ledger.validatorStake
      && (RefreshRecord(s'.ledger, s'.validators[i], false).Ok? ==>
            var l, t := RefreshRecord(s'.ledger, s'.validators[i], false).value.ledger, s'.ledger.transientStake[key];
            && vote in l.validatorStake
            && l.validatorStake[vote].stake == s'.ledger.validatorStake[vote].stake + t.stake
            && l.reserve == s'.ledger.reserve + t.lamports - t.stake && key !in l.transientStake)
  {
    var moved, i := IncreaseValidatorStake(s, vote, lamports, seed, prior).value, FindVote(s.validators, vote).value;
    var s' := Apply(moved, a).value;
    IncreaseActivates(s, vote, lamports, seed, prior);
    IncreaseAt(s, vote, lamports, seed, prior, i, moved);
    IncreaseSolvent(s, vote, lamports, seed, prior, m);
    IncreaseKeepsListInv(s, vote, lamports, seed, prior);
    EpochCarriesOver(moved, a, i, TransientKey(vote, seed), m);
    if RefreshRecord(s'.ledger, s'.validators[i], false).Ok? {
      MergeDestinations(s'.ledger, s'.validators[i], m);
    }
  }

  /** What a new epoch leaves of a record and its accounts. */
  lemma EpochCarriesOver(s: State, a: Action, i: nat, key: TransientKey, m: Mode)
    requires ListInv(s) && LedgerInv(s, m) && Admits(m, s, a) && a.DoAdvanceEpoch? && Apply(s, a).Ok?
    requires i < |s.validators| && IsDelegated(s.ledger.transientStake, key)
    ensures
      var s' := Apply(s, a).value;
      && s'.validators == s.validators && s.ledger.epoch < s'.ledger.epoch && s'.ledger.reserve == s.ledger.reserve
      && AccountsOk(s'.ledger, m) && RecordOk(s.validators[i], s'.ledger, m)
      && IsDelegated(s'.ledger.transientStake, key)
      && s'.ledger.transientStake[key].activationEpoch == s.ledger.transientStake[key].activationEpoch
      && s'.ledger.transientStake[key].deactivationEpoch == s.ledger.transientStake[key].deactivationEpoch
      && s'.ledger.validatorStake.Keys == s.ledger.validatorStake.Keys
      && (forall v :: v in s'.ledger.validatorStake ==>
            IsDelegated(s'.ledger.validatorStake, v) && s'.ledger.validatorStake[v].activationEpoch < s'.ledger.epoch)
  {
    AdvanceEpochSolvent(s, a, m);
    assert RecordOk(Apply(s, a).value.validators[i], Apply(s, a).value.ledger, m);
  }
}
