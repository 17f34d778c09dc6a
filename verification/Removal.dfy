/** A validator on its way out leaves the list: the removal started by one instruction is finished by
    the list update and the cleanup of a later epoch. */
module Removal {
  import opened Numbers
  import opened Records
  import opened BigVecs
  import opened PoolState
  import opened Steps
  import opened ListInvariant
  import opened Solvency
  import opened SolvencySteps
  import opened BatchRefresh

  /** The record waits for a transient account whose deactivation is over. */
  ghost predicate Departing(r: ValidatorStakeInfo, l: Ledger) {
    && r.status == DeactivatingTransient && KeyOf(r) in l.transientStake
    && l.transientStake[KeyOf(r)].Delegated? && l.transientStake[KeyOf(r)].deactivationEpoch < l.epoch
  }

  /** In every state of every run, a record that is deactivating has its account, and departs as soon
      as the epoch its deactivation began in is over. */
  lemma DeactivatingDeparts(s: State, i: nat, m: Mode)
    requires LedgerInv(s, m) && i < |s.validators| && s.validators[i].status == DeactivatingTransient
    ensures KeyOf(s.validators[i]) in s.ledger.transientStake
    ensures
      var account := s.ledger.transientStake[KeyOf(s.validators[i])];
      account.Delegated? && (Departing(s.validators[i], s.ledger) <==> account.deactivationEpoch != s.ledger.epoch)
  {
    assert RecordOk(s.validators[i], s.ledger, m);
  }

  /** Refreshing a departing record sends all its lamports to the reserve and makes it removable. */
  lemma RefreshDeparting(l: Ledger, r: ValidatorStakeInfo, m: Mode)
    requires AccountsOk(l, m) && RecordOk(r, l, m) && Departing(r, l)
    requires RefreshRecord(l, r, false).Ok?
    ensures
      var one := RefreshRecord(l, r, false).value;
      && one.record.status == ReadyForRemoval && StakeLamports(one.record) == 0
      && one.ledger.reserve == l.reserve + l.transientStake[KeyOf(r)].lamports
  {
  }

  /** Refreshing one record leaves another one departing. */
  lemma DepartingElsewhere(s: State, j: nat, i: nat, m: Mode)
    requires ListInv(s) && LedgerInv(s, m) && i < |s.validators| && j < |s.validators| && i != j
    requires Departing(s.validators[i], s.ledger) && RefreshRecord(s.ledger, s.validators[j], false).Ok?
    ensures Departing(s.validators[i], RefreshRecord(s.ledger, s.validators[j], false).value.ledger)
  {
    assert RecordOk(s.validators[j], s.ledger, m);
    RefreshRecordOk(s.ledger, s.validators[j], false, m);
  }

  lemma StillLinedUp(v: seq<ValidatorStakeInfo>, accounts: seq<Address>, start: nat, j: nat, r: ValidatorStakeInfo)
    requires start <= j < |v| && LinedUp(v, accounts, start, j)
    ensures LinedUp(v[j := r], accounts, start, j + 1)
  {
    var v' := v[j := r];
    forall q | j < q < start + |accounts| / 2
      ensures MatchesAt(v', accounts, start, q)
    {
      assert MatchesAt(v, accounts, start, q);
    }
  }

  lemma {:induction false} UpdateDeparting(s: State, start: nat, accounts: seq<Address>, k: nat, i: nat, m: Mode)
    requires ListInv(s) && LedgerInv(s, m)
    requires LinedUp(s.validators, accounts, start, start + k) && k <= |accounts| / 2
    requires start + k <= i < start + |accounts| / 2 && Departing(s.validators[i], s.ledger)
    requires RefreshFrom(s.ledger, s.validators, start, accounts, false, k).Ok?
    ensures
      var v := RefreshFrom(s.ledger, s.validators, start, accounts, false, k).value.validators;
      |v| == |s.validators| && v[i].status == ReadyForRemoval
    decreases |accounts| / 2 - k
  {
    var j := start + k;
    assert MatchesAt(s.validators, accounts, start, j);
    RefreshOneSolvent(s, j, false, m);
    var one := RefreshRecord(s.ledger, s.validators[j], false).value;
    var s' := WithRecord(s, j, one.record).(ledger := one.ledger);
    StillLinedUp(s.validators, accounts, start, j, one.record);
    if j == i {
      assert RecordOk(s.validators[j], s.ledger, m);
      RefreshDeparting(s.ledger, s.validators[i], m);
      RefreshFromFreshens(one.ledger, s'.validators, start, accounts, false, k + 1);
    } else {
      DepartingElsewhere(s, j, i, m);
      UpdateDeparting(s', start, accounts, k + 1, i, m);
    }
  }

  lemma CleanedUp(v: seq<ValidatorStakeInfo>, i: nat)
    requires DistinctVotes(v) && i < |v| && v[i].status == ReadyForRemoval
    ensures FindVote(Filter(NotRemoved, v), v[i].voteAccountAddress).None?
  {
    var kept := Filter(NotRemoved, v);
    FilterSubset(NotRemoved, v);
    FilterSatisfies(v);
    forall q | 0 <= q < |kept|
      ensures kept[q].voteAccountAddress != v[i].voteAccountAddress
    {
      var j :| 0 <= j < |v| && v[j] == kept[q];
      assert NotRemoved(kept[q]) && j != i;
    }
  }

  /** A merging list update that covers a departing record, followed by a cleanup, takes the validator
      off the list, so that it can be added again. */
  lemma RemovalCompletes(s: State, start: u32, accounts: seq<Address>, i: nat, m: Mode)
    requires ListInv(s) && LedgerInv(s, m) && LinedUp(s.validators, accounts, start, start)
    requires start <= i < start + |accounts| / 2 && Departing(s.validators[i], s.ledger)
    requires UpdateValidatorList(s, start, accounts, false).Ok?
    ensures
      var updated := UpdateValidatorList(s, start, accounts, false).value;
      FindVote(CleanupRemoved(updated).value.validators, s.validators[i].voteAccountAddress).None?
  {
    var updated := UpdateValidatorList(s, start, accounts, false).value;
    UpdateDeparting(s, start, accounts, 0, i, m);
    UpdateListKeepsListInv(s, start, accounts, false);
    RefreshFromKeeps(s.ledger, s.validators, start, accounts, false, 0);
    CleanedUp(updated.validators, i);
  }
}
