/** Every step keeps the pool solvent. */
module SolvencySteps {
  import opened Numbers
  import opened Fees
  import opened Pricing
  import opened Records
  import opened BigVecs
  import opened PoolState
  import opened Steps
  import opened Effects
  import opened ListInvariant
  import opened Solvency

  /** An instruction that passes the staleness test works on a record refreshed this epoch. */
  lemma CurrentMeansFresh(s: State, i: nat)
    requires FreshEnough(s) && Current(s) && i < |s.validators|
    ensures s.validators[i].lastUpdateEpoch == s.ledger.epoch == s.pool.lastUpdateEpoch
  {
  }

  /** Without lamports sent ahead, a fresh record that shows no transient stake has no transient account. */
  lemma NoHiddenTransient(s: State, i: nat, m: Mode)
    requires ListInv(s) && LedgerInv(s, m) && Current(s) && m.pristine && i < |s.validators|
    requires s.validators[i].transientStakeLamports == 0
    ensures forall k: TransientKey :: k in s.ledger.transientStake ==> k.vote != s.validators[i].voteAccountAddress
  {
    CurrentMeansFresh(s, i);
    assert RecordOk(s.validators[i], s.ledger, m);
    forall k: TransientKey | k in s.ledger.transientStake
      ensures k.vote != s.validators[i].voteAccountAddress
    {
      if k.vote == s.validators[i].voteAccountAddress {
        TrackedOnlyByOwn(s.validators, s.ledger, i, k);
        assert false;
      }
    }
  }

  lemma AddSolvent(s: State, vote: Pubkey, prior: u64, m: Mode)
    requires ListInv(s) && LedgerInv(s, m) && AddValidator(s, vote, prior).Ok?
    requires Admits(m, s, DoAddValidator(vote, prior))
    ensures LedgerInv(AddValidator(s, vote, prior).value, m)
  {
    var s' := AddValidator(s, vote, prior).value;
    var r := s'.validators[|s.validators|];
    StakeSumAppend(s.validators, r);
    forall i | 0 <= i < |s.validators|
      ensures RecordOk(s.validators[i], s'.ledger, m)
    {
      assert RecordOk(s.validators[i], s.ledger, m);
    }
    if m.pristine {
      forall k | k in s.ledger.transientStake
        ensures TrackedBy(s'.validators, k) && k.vote != vote
      {
        var q :| q in s.validators && KeyOf(q) == k && q.status != ReadyForRemoval;
        assert q in s'.validators;
      }
    }
    assert RecordOk(r, s'.ledger, m);
  }

  lemma RemoveSolvent(s: State, vote: Pubkey, m: Mode)
    requires ListInv(s) && LedgerInv(s, m) && RemoveValidator(s, vote).Ok?
    requires Admits(m, s, DoRemoveValidator(vote))
    ensures LedgerInv(RemoveValidator(s, vote).value, m)
  {
    var s' := RemoveValidator(s, vote).value;
    var i := FindVote(s.validators, vote).value;
    var r := s.validators[i];
    CurrentMeansFresh(s, i);
    assert RecordOk(r, s.ledger, m);
    if m.pristine {
      if r.transientStakeLamports == 0 {
        NoHiddenTransient(s, i, m);
      }
      forall k: TransientKey | k in s'.ledger.transientStake && k.vote == vote
        ensures k == KeyOf(s'.validators[i]) && s'.validators[i].status != ReadyForRemoval
      {
        TrackedOnlyByOwn(s.validators, s.ledger, i, k);
      }
    }
    OneValidatorStep(s, s', i, m);
  }

  lemma DecreaseSolvent(s: State, vote: Pubkey, lamports: u64, seed: u64, prior: u64, m: Mode)
    requires ListInv(s) && LedgerInv(s, m) && DecreaseValidatorStake(s, vote, lamports, seed, prior).Ok?
    requires Admits(m, s, DoDecrease(vote, lamports, seed, prior))
    ensures LedgerInv(DecreaseValidatorStake(s, vote, lamports, seed, prior).value, m)
  {
    var s' := DecreaseValidatorStake(s, vote, lamports, seed, prior).value;
    var i := FindVote(s.validators, vote).value;
    CurrentMeansFresh(s, i);
    assert RecordOk(s.validators[i], s.ledger, m);
    if m.pristine {
      NoHiddenTransient(s, i, m);
    }
    DecreaseCovered(s, vote, lamports, seed, prior, i, m);
    OneValidatorStep(s, s', i, m);
  }

  /** The record a decrease leaves, and the two accounts behind it. */
  lemma DecreaseCovered(s: State, vote: Pubkey, lamports: u64, seed: u64, prior: u64, i: nat, m: Mode)
    requires AccountsOk(s.ledger, m) && DecreaseValidatorStake(s, vote, lamports, seed, prior).Ok?
    requires Admits(m, s, DoDecrease(vote, lamports, seed, prior))
    requires FindVote(s.validators, vote) == Some(i) && s.validators[i].lastUpdateEpoch >= s.ledger.epoch
    requires RecordOk(s.validators[i], s.ledger, m)
    ensures
      var s' := DecreaseValidatorStake(s, vote, lamports, seed, prior).value;
      |s'.validators| == |s.validators| && AccountsOk(s'.ledger, m) && RecordOk(s'.validators[i], s'.ledger, m)
  {
  }

  lemma IncreaseSolvent(s: State, vote: Pubkey, lamports: u64, seed: u64, prior: u64, m: Mode)
    requires ListInv(s) && LedgerInv(s, m) && IncreaseValidatorStake(s, vote, lamports, seed, prior).Ok?
    requires Admits(m, s, DoIncrease(vote, lamports, seed, prior))
    ensures LedgerInv(IncreaseValidatorStake(s, vote, lamports, seed, prior).value, m)
  {
    var s' := IncreaseValidatorStake(s, vote, lamports, seed, prior).value;
    var i := FindVote(s.validators, vote).value;
    CurrentMeansFresh(s, i);
    assert RecordOk(s.validators[i], s.ledger, m);
    if m.pristine {
      NoHiddenTransient(s, i, m);
    }
    OneValidatorStep(s, s', i, m);
  }

  lemma DepositStakeSolvent(s: State, vote: Pubkey, lamports: u64, stake: u64, m: Mode)
    requires ListInv(s) && LedgerInv(s, m) && DepositStake(s, vote, lamports, stake).Ok?
    ensures LedgerInv(DepositStake(s, vote, lamports, stake).value, m)
  {
    var i := FindVote(s.validators, vote).value;
    CurrentMeansFresh(s, i);
    assert RecordOk(s.validators[i], s.ledger, m);
    DepositedCovered(s, vote, lamports, stake, i, m);
    DepositJoins(s, vote, lamports, stake, i);
    JoinedSolvent(s, DepositStake(s, vote, lamports, stake).value, i, m);
  }

  /** A deposit leaves other validators alone, and its own transient account; what it adds to the reserve
      and to the validator's account is what it adds to the books, and the record shows the account. */
  ghost predicate Joins(s: State, s': State, i: nat)
    requires i < |s.validators|
  {
    var vote := s.validators[i].voteAccountAddress;
    && |s'.validators| == |s.validators| && s'.validators == s.validators[i := s'.validators[i]]
    && KeyOf(s'.validators[i]) == KeyOf(s.validators[i]) && s'.validators[i].status == s.validators[i].status == Active
    && SameElsewhere(s.ledger, s'.ledger, vote) && s'.ledger.transientStake == s.ledger.transientStake
    && s'.pool.lastUpdateEpoch == s.pool.lastUpdateEpoch && Current(s)
    && s'.validators[i].transientStakeLamports == s.validators[i].transientStakeLamports
    && vote in s.ledger.validatorStake && s.ledger.validatorStake[vote].Delegated?
    && s'.pool.totalLamports - s.pool.totalLamports
       == (s'.ledger.reserve - s.ledger.reserve)
        + (s'.validators[i].activeStakeLamports + MINIMUM_ACTIVE_STAKE - s.ledger.validatorStake[vote].stake)
  }

  lemma DepositJoins(s: State, vote: Pubkey, lamports: u64, stake: u64, i: nat)
    requires DepositStake(s, vote, lamports, stake).Ok? && FindVote(s.validators, vote) == Some(i)
    ensures Joins(s, DepositStake(s, vote, lamports, stake).value, i)
  {
  }

  lemma JoinedSolvent(s: State, s': State, i: nat, m: Mode)
    requires ListInv(s) && LedgerInv(s, m) && i < |s.validators| && Joins(s, s', i)
    requires AccountsOk(s'.ledger, m) && RecordOk(s'.validators[i], s'.ledger, m)
    ensures LedgerInv(s', m)
  {
    CurrentMeansFresh(s, i);
    assert RecordOk(s.validators[i], s.ledger, m);
    OwnTransients(s, i, m);
    OneValidatorStep(s, s', i, m);
  }

  /** The record a stake deposit leaves, and the account it went into. */
  lemma DepositedCovered(s: State, vote: Pubkey, lamports: u64, stake: u64, i: nat, m: Mode)
    requires AccountsOk(s.ledger, m) && DepositStake(s, vote, lamports, stake).Ok?
    requires FindVote(s.validators, vote) == Some(i) && s.validators[i].lastUpdateEpoch >= s.ledger.epoch
    requires RecordOk(s.validators[i], s.ledger, m)
    ensures
      var s' := DepositStake(s, vote, lamports, stake).value;
      |s'.validators| == |s.validators| && AccountsOk(s'.ledger, m) && RecordOk(s'.validators[i], s'.ledger, m)
  {
  }

  /** The transient accounts of a record that stays are those it points at. */
  lemma OwnTransients(s: State, i: nat, m: Mode)
    requires ListInv(s) && LedgerInv(s, m) && i < |s.validators|
    ensures m.pristine ==> forall k: TransientKey ::
      k in s.ledger.transientStake && k.vote == s.validators[i].voteAccountAddress ==>
        k == KeyOf(s.validators[i]) && s.validators[i].status != ReadyForRemoval
  {
    if m.pristine {
      forall k: TransientKey | k in s.ledger.transientStake && k.vote == s.validators[i].voteAccountAddress
        ensures k == KeyOf(s.validators[i]) && s.validators[i].status != ReadyForRemoval
      {
        TrackedOnlyByOwn(s.validators, s.ledger, i, k);
      }
    }
  }

  lemma WithdrawActiveSolvent(s: State, w: Withdrawal, a: Address, m: Mode)
    requires ListInv(s) && LedgerInv(s, m) && Current(s) && WithdrawFromAccount(s, w, a).Ok?
    requires HasActiveStake(s.validators)
    ensures LedgerInv(WithdrawFromAccount(s, w, a).value, m)
  {
    var s' := WithdrawFromAccount(s, w, a).value;
    var i := FindVote(s.validators, a.vote).value;
    CurrentMeansFresh(s, i);
    assert RecordOk(s.validators[i], s.ledger, m);
    OwnTransients(s, i, m);
    WithdrawnCovered(s, w, a, i, m);
    assert s'.ledger.transientStake == s.ledger.transientStake;
    OneValidatorStep(s, s', i, m);
  }

  /** The record a withdrawal leaves, and the account it was taken from. */
  lemma WithdrawnCovered(s: State, w: Withdrawal, a: Address, i: nat, m: Mode)
    requires AccountsOk(s.ledger, m) && WithdrawFromAccount(s, w, a).Ok?
    requires FindVote(s.validators, a.vote) == Some(i) && s.validators[i].lastUpdateEpoch >= s.ledger.epoch
    requires RecordOk(s.validators[i], s.ledger, m)
    ensures
      var s' := WithdrawFromAccount(s, w, a).value;
      |s'.validators| == |s.validators| && AccountsOk(s'.ledger, m) && RecordOk(s'.validators[i], s'.ledger, m)
  {
  }

  lemma WithdrawTransientSolvent(s: State, w: Withdrawal, a: Address, m: Mode)
    requires ListInv(s) && LedgerInv(s, m) && Current(s) && WithdrawFromAccount(s, w, a).Ok?
    requires !HasActiveStake(s.validators)
    ensures LedgerInv(WithdrawFromAccount(s, w, a).value, m)
  {
    var s' := WithdrawFromAccount(s, w, a).value;
    var i := FindVote(s.validators, a.vote).value;
    CurrentMeansFresh(s, i);
    assert RecordOk(s.validators[i], s.ledger, m);
    OwnTransients(s, i, m);
    WithdrawnCovered(s, w, a, i, m);
    assert s'.ledger.validatorStake == s.ledger.validatorStake;
    OneValidatorStep(s, s', i, m);
  }

  /** Steps that move only the reserve, the books and the mint. */
  lemma BooksStep(s: State, s': State, m: Mode)
    requires LedgerInv(s, m)
    requires s'.validators == s.validators && s'.pool.lastUpdateEpoch == s.pool.lastUpdateEpoch
    requires s'.ledger == s.ledger.(reserve := s'.ledger.reserve, mintSupply := s'.ledger.mintSupply)
    requires m.lossFree || Current(s) ==> Slack(s') >= Slack(s)
    requires m.Exact() && Current(s) ==> Slack(s') == Slack(s)
    ensures LedgerInv(s', m)
  {
    forall i | 0 <= i < |s.validators|
      ensures RecordOk(s.validators[i], s'.ledger, m)
    {
      assert RecordOk(s.validators[i], s.ledger, m);
    }
  }

  /** No withdrawal from the reserve compares the balance it leaves with the minimum, and none has
      to: with nothing recorded anywhere else, the reserve covers the whole pool. */
  lemma ReserveWithdrawalKeepsMinimum(s: State, w: Withdrawal, m: Mode)
    requires LedgerInv(s, m) && Current(s) && WithdrawFromReserve(s, w).Ok?
    ensures WithdrawFromReserve(s, w).value.ledger.reserve >= MinimumReserveLamports(s.ledger.reserveRent)
  {
    StakeSumZero(s.validators);
  }

  /** Nor can such a withdrawal fail for want of lamports. */
  lemma ReserveWithdrawalAlwaysFunded(s: State, tokens: u64, exempt: bool, m: Mode)
    requires LedgerInv(s, m) && Current(s)
    requires !HasActiveStake(s.validators) && !HasTransientStake(s.validators)
    requires PriceWithdrawal(s.pool, s.pool.stakeWithdrawalFee, tokens, exempt).Ok?
    requires
      var w := PriceWithdrawal(s.pool, s.pool.stakeWithdrawalFee, tokens, exempt).value;
      w.burnt <= s.pool.poolTokenSupply && w.burnt <= s.ledger.mintSupply
    ensures WithdrawStake(s, FromReserve, tokens, exempt).Ok?
  {
    var w := PriceWithdrawal(s.pool, s.pool.stakeWithdrawalFee, tokens, exempt).value;
    StakeSumZero(s.validators);
    RedemptionWithinTotal(s.pool.totalLamports, s.pool.poolTokenSupply, w.burnt);
  }

  lemma WithdrawStakeSolvent(s: State, source: Source, tokens: u64, exempt: bool, m: Mode)
    requires ListInv(s) && LedgerInv(s, m) && WithdrawStake(s, source, tokens, exempt).Ok?
    ensures LedgerInv(WithdrawStake(s, source, tokens, exempt).value, m)
  {
    var w := PriceWithdrawal(s.pool, s.pool.stakeWithdrawalFee, tokens, exempt).value;
    match source
    case FromReserve => BooksStep(s, WithdrawFromReserve(s, w).value, m);
    case FromAccount(a) =>
      if HasActiveStake(s.validators) {
        WithdrawActiveSolvent(s, w, a, m);
      } else {
        WithdrawTransientSolvent(s, w, a, m);
      }
  }

  lemma WithdrawSolSolvent(s: State, tokens: u64, exempt: bool, m: Mode)
    requires LedgerInv(s, m) && WithdrawSol(s, tokens, exempt).Ok?
    ensures LedgerInv(WithdrawSol(s, tokens, exempt).value, m)
    ensures WithdrawSol(s, tokens, exempt).value.ledger.reserve >= MinimumReserveLamports(s.ledger.reserveRent)
  {
    BooksStep(s, WithdrawSol(s, tokens, exempt).value, m);
  }

  lemma DepositSolSolvent(s: State, lamports: u64, m: Mode)
    requires LedgerInv(s, m) && DepositSol(s, lamports).Ok?
    ensures LedgerInv(DepositSol(s, lamports).value, m)
  {
    BooksStep(s, DepositSol(s, lamports).value, m);
  }

  // ----- Refreshing -----

  /** Looking at the transient account moves value around but loses none of it. */
  lemma TransientLookEffect(l: Ledger, r: ValidatorStakeInfo, noMerge: bool, m: Mode)
    requires AccountsOk(l, m) && RecordOk(r, l, m) && LookAtTransient(l, r, noMerge).Ok?
    ensures
      var look := LookAtTransient(l, r, noMerge).value;
      && AccountsOk(look.ledger, m) && SameElsewhere(l, look.ledger, r.voteAccountAddress)
      && (r.voteAccountAddress in l.validatorStake <==> r.voteAccountAddress in look.ledger.validatorStake)
      && (r.status == Active <==> look.status == Active)
      && (look.status == ReadyForRemoval ==> look.lamports == 0 && KeyOf(r) !in look.ledger.transientStake)
      && (forall k :: k in look.ledger.transientStake ==> k in l.transientStake)
      && (KeyOf(r) in look.ledger.transientStake ==>
            && look.ledger.transientStake[KeyOf(r)] == l.transientStake[KeyOf(r)]
            && look.lamports == l.transientStake[KeyOf(r)].rent + l.transientStake[KeyOf(r)].stake)
      && (KeyOf(r) !in look.ledger.transientStake ==> look.lamports == 0)
  {
  }

  function ValidatorStakeOf(l: Ledger, vote: Pubkey): nat {
    if vote in l.validatorStake && l.validatorStake[vote].Delegated? then l.validatorStake[vote].stake else 0
  }

  lemma TransientLookValue(l: Ledger, r: ValidatorStakeInfo, noMerge: bool, m: Mode)
    requires AccountsOk(l, m) && RecordOk(r, l, m) && LookAtTransient(l, r, noMerge).Ok?
    ensures
      var look := LookAtTransient(l, r, noMerge).value;
      var gained := look.ledger.reserve + ValidatorStakeOf(look.ledger, r.voteAccountAddress) + look.lamports
                  - l.reserve - ValidatorStakeOf(l, r.voteAccountAddress);
      && (KeyOf(r) !in l.transientStake ==> gained == 0)
      && (KeyOf(r) in l.transientStake ==>
            gained >= l.transientStake[KeyOf(r)].rent + l.transientStake[KeyOf(r)].stake)
      && (KeyOf(r) in l.transientStake && m.Exact() ==>
            gained == l.transientStake[KeyOf(r)].rent + l.transientStake[KeyOf(r)].stake)
  {
  }

  lemma RefreshRecordOk(l: Ledger, r: ValidatorStakeInfo, noMerge: bool, m: Mode)
    requires AccountsOk(l, m) && RecordOk(r, l, m) && RefreshRecord(l, r, noMerge).Ok?
    ensures
      var one := RefreshRecord(l, r, noMerge).value;
      && AccountsOk(one.ledger, m) && SameElsewhere(l, one.ledger, r.voteAccountAddress)
      && RecordOk(one.record, one.ledger, m) && KeyOf(one.record) == KeyOf(r)
      && (forall k :: k in one.ledger.transientStake ==> k in l.transientStake)
      && one.ledger == LookAtTransient(l, r, noMerge).value.ledger
  {
    TransientLookEffect(l, r, noMerge, m);
  }

  /** A refresh never lowers what the reserve and the record add up to, where the record was covered. */
  lemma RefreshRecordValue(l: Ledger, r: ValidatorStakeInfo, noMerge: bool, m: Mode)
    requires AccountsOk(l, m) && RecordOk(r, l, m) && RefreshRecord(l, r, noMerge).Ok?
    ensures
      var one := RefreshRecord(l, r, noMerge).value;
      var gained := one.ledger.reserve + StakeLamports(one.record) - l.reserve - StakeLamports(r);
      && (Covered(r, l) ==> gained >= 0)
      && (m.Exact() && Covered(r, l) && CoveredExactly(r, l) ==> gained == 0)
  {
    TransientLookEffect(l, r, noMerge, m);
    TransientLookValue(l, r, noMerge, m);
  }

  lemma RefreshOneSolvent(s: State, i: nat, noMerge: bool, m: Mode)
    requires ListInv(s) && LedgerInv(s, m) && i < |s.validators|
    requires RefreshRecord(s.ledger, s.validators[i], noMerge).Ok?
    ensures
      var one := RefreshRecord(s.ledger, s.validators[i], noMerge).value;
      var s' := WithRecord(s, i, one.record).(ledger := one.ledger);
      ListInv(s') && LedgerInv(s', m)
  {
    var r := s.validators[i];
    var one := RefreshRecord(s.ledger, r, noMerge).value;
    var s' := WithRecord(s, i, one.record).(ledger := one.ledger);
    assert RecordOk(r, s.ledger, m);
    RefreshRecordKeeps(s.ledger, r, noMerge);
    RefreshRecordOk(s.ledger, r, noMerge, m);
    RefreshRecordValue(s.ledger, r, noMerge, m);
    OneRecordKeepsListInv(s, s', i);
    OwnTransients(s, i, m);
    if Current(s) {
      CurrentMeansFresh(s, i);
    }
    OneValidatorStep(s, s', i, m);
  }

  lemma {:induction false} RefreshFromSolvent(s: State, start: nat, accounts: seq<Address>, noMerge: bool, k: nat,
                                              m: Mode)
    requires ListInv(s) && LedgerInv(s, m)
    requires start + |accounts| / 2 <= |s.validators| && k <= |accounts| / 2
    requires RefreshFrom(s.ledger, s.validators, start, accounts, noMerge, k).Ok?
    ensures
      var all := RefreshFrom(s.ledger, s.validators, start, accounts, noMerge, k).value;
      LedgerInv(s.(ledger := all.ledger, validators := all.validators), m)
    decreases |accounts| / 2 - k
  {
    if k < |accounts| / 2 {
      if PairMatches(s.validators[start + k], accounts, k) {
        RefreshOneSolvent(s, start + k, noMerge, m);
        var one := RefreshRecord(s.ledger, s.validators[start + k], noMerge).value;
        RefreshFromSolvent(WithRecord(s, start + k, one.record).(ledger := one.ledger),
                           start, accounts, noMerge, k + 1, m);
      } else {
        RefreshFromSolvent(s, start, accounts, noMerge, k + 1, m);
      }
    }
  }

  // ----- The remaining steps -----

  /** After a pool update the books show exactly what the pool holds. */
  lemma UpdatePoolSolvent(s: State, feeAccountValid: bool, m: Mode)
    requires LedgerInv(s, m) && UpdateStakePool(s, feeAccountValid).Ok?
    ensures LedgerInv(UpdateStakePool(s, feeAccountValid).value, m)
    ensures Slack(UpdateStakePool(s, feeAccountValid).value) == 0
    ensures m.lossFree ==> s.pool.totalLamports <= UpdateStakePool(s, feeAccountValid).value.pool.totalLamports
  {
    var s' := UpdateStakePool(s, feeAccountValid).value;
    var base := s.ledger.reserve - MinimumReserveLamports(s.ledger.reserveRent);
    FreshTotalIsSum(base, s.validators, s.ledger.epoch, |s.validators|);
    assert s.validators[..|s.validators|] == s.validators;
    forall i | 0 <= i < |s.validators|
      ensures RecordOk(s.validators[i], s'.ledger, m)
    {
      assert RecordOk(s.validators[i], s.ledger, m);
    }
  }

  lemma {:induction false} CleanupSum(v: seq<ValidatorStakeInfo>, l: Ledger, m: Mode)
    requires RecordsOk(v, l, m)
    ensures StakeSum(Filter(NotRemoved, v)) == StakeSum(v)
  {
    if |v| > 0 {
      var front, last := v[..|v| - 1], v[|v| - 1];
      assert RecordOk(last, l, m);
      CleanupSum(front, l, m);
      StakeSumAppend(Filter(NotRemoved, front), last);
    }
  }

  lemma CleanupSolvent(s: State, m: Mode)
    requires LedgerInv(s, m)
    ensures LedgerInv(CleanupRemoved(s).value, m)
  {
    var v, kept := s.validators, Filter(NotRemoved, s.validators);
    CleanupSum(v, s.ledger, m);
    FilterSubset(NotRemoved, v);
    forall i | 0 <= i < |kept|
      ensures RecordOk(kept[i], s.ledger, m)
    {
      assert kept[i] in v;
    }
    if m.pristine {
      forall k | k in s.ledger.transientStake
        ensures TrackedBy(kept, k)
      {
        var q :| q in v && KeyOf(q) == k && q.status != ReadyForRemoval;
        FilterKeeps(NotRemoved, v, q);
      }
    }
  }

  lemma AdvanceEpochSolvent(s: State, a: Action, m: Mode)
    requires ListInv(s) && LedgerInv(s, m) && a.DoAdvanceEpoch? && Apply(s, a).Ok? && Admits(m, s, a)
    ensures LedgerInv(Apply(s, a).value, m)
  {
    var s' := Apply(s, a).value;
    forall i | 0 <= i < |s.validators|
      ensures RecordOk(s.validators[i], s'.ledger, m)
    {
      assert RecordOk(s.validators[i], s.ledger, m);
      assert s.validators[i].lastUpdateEpoch < s'.ledger.epoch;
    }
  }

  predicate IsDonation(a: Action) {
    a.DoDonateToReserve? || a.DoDonateToValidator? || a.DoDonateToTransient?
  }

  lemma DonationSolvent(s: State, a: Action, m: Mode)
    requires LedgerInv(s, m) && Apply(s, a).Ok? && Admits(m, s, a) && IsDonation(a)
    ensures LedgerInv(Apply(s, a).value, m)
  {
    DonationKeepsAccountsOk(s, a, m);
    forall i | 0 <= i < |s.validators|
      ensures RecordOk(s.validators[i], Apply(s, a).value.ledger, m)
    {
      DonationKeepsRecordOk(s, a, s.validators[i], m);
    }
  }

  lemma DonationKeepsAccountsOk(s: State, a: Action, m: Mode)
    requires AccountsOk(s.ledger, m) && Apply(s, a).Ok? && Admits(m, s, a) && IsDonation(a)
    ensures AccountsOk(Apply(s, a).value.ledger, m)
    ensures Apply(s, a).value.ledger.transientStake.Keys == s.ledger.transientStake.Keys
  {
  }

  lemma DonationKeepsRecordOk(s: State, a: Action, r: ValidatorStakeInfo, m: Mode)
    requires RecordOk(r, s.ledger, m) && Apply(s, a).Ok? && IsDonation(a)
    ensures RecordOk(r, Apply(s, a).value.ledger, m)
  {
  }

  lemma PoolOnlyStep(s: State, s': State, m: Mode)
    requires LedgerInv(s, m) && s'.validators == s.validators && s'.ledger == s.ledger
    requires s'.pool.lastUpdateEpoch == s.pool.lastUpdateEpoch && s'.pool.totalLamports == s.pool.totalLamports
    ensures LedgerInv(s', m)
  {
  }

  lemma ManagementSolvent(s: State, a: Action, m: Mode)
    requires ListInv(s) && LedgerInv(s, m) && Admits(m, s, a) && ManagesValidators(a) && Apply(s, a).Ok?
    ensures LedgerInv(Apply(s, a).value, m)
  {
    match a
    case DoAddValidator(vote, prior) => AddSolvent(s, vote, prior, m);
    case DoRemoveValidator(vote) => RemoveSolvent(s, vote, m);
    case DoDecrease(vote, lamports, seed, prior) => DecreaseSolvent(s, vote, lamports, seed, prior, m);
    case DoIncrease(vote, lamports, seed, prior) => IncreaseSolvent(s, vote, lamports, seed, prior, m);
    case DoSetPreferred(_, _) => PoolOnlyStep(s, Next(s, a), m);
    case DoUpdateList(start, accounts, noMerge) => RefreshFromSolvent(s, start, accounts, noMerge, 0, m);
  }

  lemma TradeSolvent(s: State, a: Action, m: Mode)
    requires ListInv(s) && LedgerInv(s, m) && Trades(a) && Apply(s, a).Ok?
    ensures LedgerInv(Apply(s, a).value, m)
  {
    match a
    case DoDepositStake(vote, lamports, stake) => DepositStakeSolvent(s, vote, lamports, stake, m);
    case DoDepositSol(lamports) => DepositSolSolvent(s, lamports, m);
    case DoWithdrawStake(source, tokens, exempt) => WithdrawStakeSolvent(s, source, tokens, exempt, m);
    case DoWithdrawSol(tokens, exempt) => WithdrawSolSolvent(s, tokens, exempt, m);
  }

  lemma SetFeeSolvent(s: State, f: FeeType, m: Mode)
    requires LedgerInv(s, m) && SetFee(s, f).Ok?
    ensures LedgerInv(SetFee(s, f).value, m)
  {
    SetFeeKeepsBooks(s, f);
    PoolOnlyStep(s, SetFee(s, f).value, m);
  }

  lemma BurnSolvent(s: State, tokens: u64, m: Mode)
    requires LedgerInv(s, m) && BurnByHolder(s, tokens).Ok?
    ensures LedgerInv(BurnByHolder(s, tokens).value, m)
  {
    BooksStep(s, BurnByHolder(s, tokens).value, m);
  }

  lemma EnvironmentSolvent(s: State, a: Action, m: Mode)
    requires ListInv(s) && LedgerInv(s, m) && Admits(m, s, a) && IsEnvironment(a) && Apply(s, a).Ok?
    ensures LedgerInv(Apply(s, a).value, m)
  {
    match a
    case DoAdvanceEpoch(_, _, _) => AdvanceEpochSolvent(s, a, m);
    case DoBurnByHolder(tokens) => BurnSolvent(s, tokens, m);
    case _ => DonationSolvent(s, a, m);
  }

  lemma ApplyKeepsLedgerInv(s: State, a: Action, m: Mode)
    requires ListInv(s) && LedgerInv(s, m) && Admits(m, s, a) && Apply(s, a).Ok?
    ensures LedgerInv(Apply(s, a).value, m)
  {
    if ManagesValidators(a) {
      ManagementSolvent(s, a, m);
    } else if Trades(a) {
      TradeSolvent(s, a, m);
    } else if IsEnvironment(a) {
      EnvironmentSolvent(s, a, m);
    } else {
      match a
      case DoUpdatePool(feeAccountValid) => UpdatePoolSolvent(s, feeAccountValid, m);
      case DoCleanup => CleanupSolvent(s, m);
      case DoSetFee(fee) => SetFeeSolvent(s, fee, m);
    }
  }

  /** Every step the mode admits keeps the pool solvent. */
  lemma NextKeepsLedgerInv(s: State, a: Action, m: Mode)
    requires ListInv(s) && LedgerInv(s, m) && Admits(m, s, a)
    ensures LedgerInv(Next(s, a), m)
  {
    if Apply(s, a).Ok? {
      ApplyKeepsLedgerInv(s, a, m);
    }
  }
}
