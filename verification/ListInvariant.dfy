/** What every step keeps of the validator list: distinct vote addresses, room for every record,
    preferred validators that are active, and records at least as fresh as the pool. */
module ListInvariant {
  import opened Numbers
  import opened Errors
  import opened Fees
  import opened Records
  import opened BigVecs
  import opened PoolState
  import opened Steps

  ghost predicate DistinctVotes(v: seq<ValidatorStakeInfo>) {
    forall i, j :: 0 <= i < j < |v| ==> v[i].voteAccountAddress != v[j].voteAccountAddress
  }

  ghost predicate IsActive(v: seq<ValidatorStakeInfo>, vote: Pubkey) {
    exists r :: r in v && r.voteAccountAddress == vote && r.status == Active
  }

  /** A preferred validator, if there is one, is an active record of the list. */
  ghost predicate Preferable(v: seq<ValidatorStakeInfo>, preferred: Option<Pubkey>) {
    preferred.Some? ==> IsActive(v, preferred.value)
  }

  /** Every record was refreshed no earlier than the pool and no later than now. */
  ghost predicate FreshEnough(s: State) {
    && s.pool.lastUpdateEpoch <= s.ledger.epoch
    && forall i :: 0 <= i < |s.validators| ==>
         s.pool.lastUpdateEpoch <= s.validators[i].lastUpdateEpoch <= s.ledger.epoch
  }

  /** No validator account was destaked by a cluster restart. */
  ghost predicate AllDelegated(l: Ledger) {
    forall k :: k in l.validatorStake ==> l.validatorStake[k].Delegated?
  }

  ghost predicate ListInv(s: State) {
    && |s.validators| <= s.maxValidators
    && DistinctVotes(s.validators)
    && FreshEnough(s)
    && Preferable(s.validators, s.pool.preferredDeposit)
    && Preferable(s.validators, s.pool.preferredWithdraw)
    && AllDelegated(s.ledger)
  }

  /** Record by record, only what a refresh may change has changed. */
  ghost predicate Updates(v: seq<ValidatorStakeInfo>, v': seq<ValidatorStakeInfo>) {
    && |v'| == |v|
    && forall i :: 0 <= i < |v| ==>
         && v'[i].voteAccountAddress == v[i].voteAccountAddress
         && v'[i].transientSeedSuffixStart == v[i].transientSeedSuffixStart
         && (v[i].status == Active ==> v'[i].status == Active)
  }

  lemma UpdatesKeepActive(v: seq<ValidatorStakeInfo>, v': seq<ValidatorStakeInfo>, vote: Pubkey)
    requires |v'| == |v| && IsActive(v, vote)
    requires forall i :: 0 <= i < |v| ==>
      v'[i].voteAccountAddress == v[i].voteAccountAddress && (v[i].status == Active ==> v'[i].status == Active)
    ensures IsActive(v', vote)
  {
    var r :| r in v && r.voteAccountAddress == vote && r.status == Active;
    var i :| 0 <= i < |v| && v[i] == r;
    assert v'[i] in v';
  }

  lemma {:induction false} FilterKeeps<T>(p: T -> bool, s: seq<T>, x: T)
    requires x in s && p(x)
    ensures x in Filter(p, s)
  {
    if x != s[|s| - 1] {
      assert x in s[..|s| - 1];
      FilterKeeps(p, s[..|s| - 1], x);
    }
  }

  lemma {:induction false} FilterSatisfies(v: seq<ValidatorStakeInfo>)
    ensures forall q :: 0 <= q < |Filter(NotRemoved, v)| ==> NotRemoved(Filter(NotRemoved, v)[q])
  {
    if |v| > 0 {
      FilterSatisfies(v[..|v| - 1]);
    }
  }

  lemma {:induction false} FilterDistinct(v: seq<ValidatorStakeInfo>)
    requires DistinctVotes(v)
    ensures DistinctVotes(Filter(NotRemoved, v))
  {
    if |v| > 0 {
      var front, last := v[..|v| - 1], v[|v| - 1];
      FilterDistinct(front);
      FilterSubset(NotRemoved, front);
      var kept := Filter(NotRemoved, front);
      forall i | 0 <= i < |kept|
        ensures kept[i].voteAccountAddress != last.voteAccountAddress
      {
        assert kept[i] in front;
        var j :| 0 <= j < |front| && front[j] == kept[i];
        assert v[j] == kept[i];
      }
    }
  }

  // ----- Refreshing records -----

  lemma RefreshRecordKeeps(l: Ledger, r: ValidatorStakeInfo, noMerge: bool)
    requires AllDelegated(l)
    requires RefreshRecord(l, r, noMerge).Ok?
    ensures
      var one := RefreshRecord(l, r, noMerge).value;
      && AllDelegated(one.ledger) && one.ledger.epoch == l.epoch
      && one.record.voteAccountAddress == r.voteAccountAddress
      && one.record.transientSeedSuffixStart == r.transientSeedSuffixStart
      && (r.status == Active ==> one.record.status == Active)
      && one.record.lastUpdateEpoch == l.epoch
  {
    var look := LookAtTransient(l, r, noMerge).value;
    assert AllDelegated(look.ledger);
  }

  lemma {:induction false} RefreshFromKeeps(l: Ledger, v: seq<ValidatorStakeInfo>, start: nat, accounts: seq<Address>,
                                            noMerge: bool, k: nat)
    requires start + |accounts| / 2 <= |v| && k <= |accounts| / 2
    requires AllDelegated(l)
    requires RefreshFrom(l, v, start, accounts, noMerge, k).Ok?
    ensures
      var all := RefreshFrom(l, v, start, accounts, noMerge, k).value;
      && AllDelegated(all.ledger) && all.ledger.epoch == l.epoch
      && Updates(v, all.validators)
      && forall i :: 0 <= i < |v| ==>
           all.validators[i] == v[i] || all.validators[i].lastUpdateEpoch == l.epoch
    decreases |accounts| / 2 - k
  {
    if k < |accounts| / 2 {
      if PairMatches(v[start + k], accounts, k) {
        RefreshRecordKeeps(l, v[start + k], noMerge);
        var one := RefreshRecord(l, v[start + k], noMerge).value;
        RefreshFromKeeps(one.ledger, v[start + k := one.record], start, accounts, noMerge, k + 1);
      } else {
        RefreshFromKeeps(l, v, start, accounts, noMerge, k + 1);
      }
    }
  }

  // ----- Every step -----

  /** For steps that rewrite at most the record at `i`, keep its vote address and make it no staler. */
  lemma OneRecordKeepsListInv(s: State, s': State, i: nat)
    requires ListInv(s) && i < |s.validators| && |s'.validators| == |s.validators|
    requires s'.validators == s.validators[i := s'.validators[i]]
    requires s'.validators[i].voteAccountAddress == s.validators[i].voteAccountAddress
    requires s.validators[i].lastUpdateEpoch <= s'.validators[i].lastUpdateEpoch <= s.ledger.epoch
    requires s.validators[i].status == Active ==> s'.validators[i].status == Active
    requires s'.pool.lastUpdateEpoch == s.pool.lastUpdateEpoch && s'.ledger.epoch == s.ledger.epoch
    requires s'.maxValidators == s.maxValidators
    requires s'.pool.preferredDeposit == s.pool.preferredDeposit
    requires s'.pool.preferredWithdraw == s.pool.preferredWithdraw
    requires AllDelegated(s'.ledger)
    ensures ListInv(s')
  {
    if s.pool.preferredDeposit.Some? {
      UpdatesKeepActive(s.validators, s'.validators, s.pool.preferredDeposit.value);
    }
    if s.pool.preferredWithdraw.Some? {
      UpdatesKeepActive(s.validators, s'.validators, s.pool.preferredWithdraw.value);
    }
  }

  lemma AddKeepsListInv(s: State, vote: Pubkey, prior: u64)
    requires ListInv(s) && AddValidator(s, vote, prior).Ok?
    ensures ListInv(AddValidator(s, vote, prior).value)
  {
    var s' := AddValidator(s, vote, prior).value;
    assert forall r :: r in s.validators ==> r in s'.validators;
  }

  lemma RemoveKeepsListInv(s: State, vote: Pubkey)
    requires ListInv(s) && RemoveValidator(s, vote).Ok?
    ensures ListInv(RemoveValidator(s, vote).value)
  {
    var s' := RemoveValidator(s, vote).value;
    RemoveKeepsPreferred(s, s', s.pool.preferredDeposit, vote);
    RemoveKeepsPreferred(s, s', s.pool.preferredWithdraw, vote);
  }

  lemma RemoveKeepsPreferred(s: State, s': State, preferred: Option<Pubkey>, vote: Pubkey)
    requires |s'.validators| == |s.validators| && Preferable(s.validators, preferred)
    requires forall i :: 0 <= i < |s.validators| && s.validators[i].voteAccountAddress != vote ==>
      s'.validators[i] == s.validators[i]
    ensures Preferable(s'.validators, Unprefer(preferred, vote))
  {
    if Unprefer(preferred, vote).Some? {
      var r :| r in s.validators && r.voteAccountAddress == preferred.value && r.status == Active;
      var i :| 0 <= i < |s.validators| && s.validators[i] == r;
      assert s'.validators[i] in s'.validators;
    }
  }

  lemma SetPreferredKeepsListInv(s: State, kind: PreferredType, vote: Option<Pubkey>)
    requires ListInv(s) && SetPreferredValidator(s, kind, vote).Ok?
    ensures ListInv(SetPreferredValidator(s, kind, vote).value)
  {
    if vote.Some? {
      assert s.validators[FindVote(s.validators, vote.value).value] in s.validators;
    }
  }

  lemma UpdateListKeepsListInv(s: State, start: u32, accounts: seq<Address>, noMerge: bool)
    requires ListInv(s) && UpdateValidatorList(s, start, accounts, noMerge).Ok?
    ensures ListInv(UpdateValidatorList(s, start, accounts, noMerge).value)
  {
    var s' := UpdateValidatorList(s, start, accounts, noMerge).value;
    RefreshFromKeeps(s.ledger, s.validators, start, accounts, noMerge, 0);
    if s.pool.preferredDeposit.Some? {
      UpdatesKeepActive(s.validators, s'.validators, s.pool.preferredDeposit.value);
    }
    if s.pool.preferredWithdraw.Some? {
      UpdatesKeepActive(s.validators, s'.validators, s.pool.preferredWithdraw.value);
    }
  }

  /** A pool update only succeeds when every record is fresh, and then counts each one. */
  lemma {:induction false} FreshTotalIsSum(base: u64, v: seq<ValidatorStakeInfo>, epoch: u64, n: nat)
    requires n <= |v| && FreshTotal(base, v, epoch, n).Ok?
    ensures forall i :: 0 <= i < n ==> v[i].lastUpdateEpoch >= epoch
    ensures FreshTotal(base, v, epoch, n).value == base + StakeSum(v[..n])
  {
    if n > 0 {
      FreshTotalIsSum(base, v, epoch, n - 1);
      assert v[..n][..n - 1] == v[..n - 1];
    }
  }

  /** The pool update does not fail on fresh records whose total fits. */
  lemma {:induction false} FreshTotalSucceeds(base: u64, v: seq<ValidatorStakeInfo>, epoch: u64, n: nat)
    requires n <= |v| && base + StakeSum(v[..n]) <= U64_MAX
    requires forall j :: 0 <= j < n ==> v[j].lastUpdateEpoch >= epoch
    ensures FreshTotal(base, v, epoch, n) == Ok(base + StakeSum(v[..n]))
  {
    if n > 0 {
      assert v[..n][..n - 1] == v[..n - 1];
      FreshTotalSucceeds(base, v, epoch, n - 1);
    }
  }

  lemma UpdatePoolKeepsListInv(s: State, feeAccountValid: bool)
    requires ListInv(s) && UpdateStakePool(s, feeAccountValid).Ok?
    ensures ListInv(UpdateStakePool(s, feeAccountValid).value)
  {
    var base := s.ledger.reserve - MinimumReserveLamports(s.ledger.reserveRent);
    FreshTotalIsSum(base, s.validators, s.ledger.epoch, |s.validators|);
  }

  lemma CleanupKeepsListInv(s: State)
    requires ListInv(s)
    ensures ListInv(CleanupRemoved(s).value)
  {
    var v := s.validators;
    var kept := Filter(NotRemoved, v);
    FilterDistinct(v);
    FilterSubset(NotRemoved, v);
    forall i | 0 <= i < |kept|
      ensures s.pool.lastUpdateEpoch <= kept[i].lastUpdateEpoch <= s.ledger.epoch
    {
      assert kept[i] in v;
    }
    CleanupKeepsPreferred(v, s.pool.preferredDeposit);
    CleanupKeepsPreferred(v, s.pool.preferredWithdraw);
  }

  lemma CleanupKeepsPreferred(v: seq<ValidatorStakeInfo>, preferred: Option<Pubkey>)
    requires Preferable(v, preferred)
    ensures Preferable(Filter(NotRemoved, v), preferred)
  {
    if preferred.Some? {
      var r :| r in v && r.voteAccountAddress == preferred.value && r.status == Active;
      FilterKeeps(NotRemoved, v, r);
    }
  }

  lemma DecreaseKeepsListInv(s: State, vote: Pubkey, lamports: u64, seed: u64, prior: u64)
    requires ListInv(s) && DecreaseValidatorStake(s, vote, lamports, seed, prior).Ok?
    ensures ListInv(DecreaseValidatorStake(s, vote, lamports, seed, prior).value)
  {
    var s' := DecreaseValidatorStake(s, vote, lamports, seed, prior).value;
    OneRecordKeepsListInv(s, s', FindVote(s.validators, vote).value);
  }

  lemma IncreaseKeepsListInv(s: State, vote: Pubkey, lamports: u64, seed: u64, prior: u64)
    requires ListInv(s) && IncreaseValidatorStake(s, vote, lamports, seed, prior).Ok?
    ensures ListInv(IncreaseValidatorStake(s, vote, lamports, seed, prior).value)
  {
    var s' := IncreaseValidatorStake(s, vote, lamports, seed, prior).value;
    OneRecordKeepsListInv(s, s', FindVote(s.validators, vote).value);
  }

  lemma DepositStakeKeepsListInv(s: State, vote: Pubkey, lamports: u64, stake: u64)
    requires ListInv(s) && DepositStake(s, vote, lamports, stake).Ok?
    ensures ListInv(DepositStake(s, vote, lamports, stake).value)
  {
    var s' := DepositStake(s, vote, lamports, stake).value;
    OneRecordKeepsListInv(s, s', FindVote(s.validators, vote).value);
  }

  lemma WithdrawStakeKeepsListInv(s: State, source: Source, tokens: u64, exempt: bool)
    requires ListInv(s) && WithdrawStake(s, source, tokens, exempt).Ok?
    ensures ListInv(WithdrawStake(s, source, tokens, exempt).value)
  {
    if source.FromAccount? {
      var s' := WithdrawStake(s, source, tokens, exempt).value;
      var i := FindVote(s.validators, source.address.vote).value;
      OneRecordKeepsListInv(s, s', i);
    }
  }

  /** The instructions that manage validators. */
  predicate ManagesValidators(a: Action) {
    a.DoAddValidator? || a.DoRemoveValidator? || a.DoDecrease? || a.DoIncrease? || a.DoSetPreferred? || a.DoUpdateList?
  }

  lemma ManagementKeepsListInv(s: State, a: Action)
    requires ListInv(s) && ManagesValidators(a) && Apply(s, a).Ok?
    ensures ListInv(Apply(s, a).value)
  {
    match a
    case DoAddValidator(vote, prior) => AddKeepsListInv(s, vote, prior);
    case DoRemoveValidator(vote) => RemoveKeepsListInv(s, vote);
    case DoDecrease(vote, lamports, seed, prior) => DecreaseKeepsListInv(s, vote, lamports, seed, prior);
    case DoIncrease(vote, lamports, seed, prior) => IncreaseKeepsListInv(s, vote, lamports, seed, prior);
    case DoSetPreferred(kind, preferred) => SetPreferredKeepsListInv(s, kind, preferred);
    case DoUpdateList(start, accounts, noMerge) => UpdateListKeepsListInv(s, start, accounts, noMerge);
  }

  /** For steps that leave the list and the preferred validators alone. */
  lemma SameListKeepsListInv(s: State, s': State)
    requires ListInv(s) && s'.validators == s.validators && s'.maxValidators == s.maxValidators
    requires s'.pool.lastUpdateEpoch == s.pool.lastUpdateEpoch && s'.ledger.epoch >= s.ledger.epoch
    requires s'.pool.preferredDeposit == s.pool.preferredDeposit
    requires s'.pool.preferredWithdraw == s.pool.preferredWithdraw
    requires AllDelegated(s'.ledger)
    ensures ListInv(s')
  {
  }

  lemma DepositSolKeepsListInv(s: State, lamports: u64)
    requires ListInv(s) && DepositSol(s, lamports).Ok?
    ensures ListInv(DepositSol(s, lamports).value)
  {
    SameListKeepsListInv(s, DepositSol(s, lamports).value);
  }

  lemma WithdrawSolKeepsListInv(s: State, tokens: u64, exempt: bool)
    requires ListInv(s) && WithdrawSol(s, tokens, exempt).Ok?
    ensures ListInv(WithdrawSol(s, tokens, exempt).value)
  {
    SameListKeepsListInv(s, WithdrawSol(s, tokens, exempt).value);
  }

  lemma SetFeeKeepsListInv(s: State, f: FeeType)
    requires ListInv(s) && SetFee(s, f).Ok?
    ensures ListInv(SetFee(s, f).value)
  {
    SameListKeepsListInv(s, SetFee(s, f).value);
  }

  lemma EnvironmentKeepsListInv(s: State, a: Action)
    requires ListInv(s) && IsEnvironment(a) && Apply(s, a).Ok?
    ensures ListInv(Apply(s, a).value)
  {
    SameListKeepsListInv(s, Apply(s, a).value);
  }

  /** Every step of every kind keeps the list well formed. */
  lemma NextKeepsListInv(s: State, a: Action)
    requires ListInv(s)
    ensures ListInv(Next(s, a))
  {
    if Apply(s, a).Ok? {
      match a
      case DoUpdatePool(feeAccountValid) => UpdatePoolKeepsListInv(s, feeAccountValid);
      case DoCleanup => CleanupKeepsListInv(s);
      case DoDepositStake(vote, lamports, stake) => DepositStakeKeepsListInv(s, vote, lamports, stake);
      case DoDepositSol(lamports) => DepositSolKeepsListInv(s, lamports);
      case DoWithdrawStake(source, tokens, exempt) => WithdrawStakeKeepsListInv(s, source, tokens, exempt);
      case DoWithdrawSol(tokens, exempt) => WithdrawSolKeepsListInv(s, tokens, exempt);
      case DoSetFee(fee) => SetFeeKeepsListInv(s, fee);
      case _ =>
        if ManagesValidators(a) {
          ManagementKeepsListInv(s, a);
        } else {
          EnvironmentKeepsListInv(s, a);
        }
    }
  }
}
