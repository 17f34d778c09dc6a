/** Merging transient accounts while refreshing the list does not change what the pool is worth. */
module MergeNeutral {
  import opened Numbers
  import opened Records
  import opened PoolState
  import opened Steps
  import opened ListInvariant
  import opened Solvency

  /** The transient account is deactivated, or active along with the validator's account. */
  predicate Mergeable(l: Ledger, r: ValidatorStakeInfo)
    requires KeyOf(r) in l.transientStake && l.transientStake[KeyOf(r)].Delegated?
  {
    var t, vote := l.transientStake[KeyOf(r)], r.voteAccountAddress;
    || t.deactivationEpoch < l.epoch
    || (t.activationEpoch < l.epoch && vote in l.validatorStake && l.validatorStake[vote].Delegated?
        && l.validatorStake[vote].activationEpoch < l.epoch)
  }

  /** Lamports in a merged transient account that neither rent nor delegation explains. */
  function MergedSurplus(l: Ledger, r: ValidatorStakeInfo): int {
    if KeyOf(r) in l.transientStake && l.transientStake[KeyOf(r)].Delegated? && Mergeable(l, r)
    then l.transientStake[KeyOf(r)].lamports - l.transientStake[KeyOf(r)].rent - l.transientStake[KeyOf(r)].stake
    else 0
  }

  /** The surplus in the accounts merged from pair `k` on. */
  function SurplusFrom(l: Ledger, v: seq<ValidatorStakeInfo>, start: nat, accounts: seq<Address>, k: nat): int
    requires start + |accounts| / 2 <= |v| && k <= |accounts| / 2
    decreases |accounts| / 2 - k
  {
    if k == |accounts| / 2 then 0
    else
      (if PairMatches(v[start + k], accounts, k) then MergedSurplus(l, v[start + k]) else 0)
      + SurplusFrom(l, v, start, accounts, k + 1)
  }

  function Worth(l: Ledger, v: seq<ValidatorStakeInfo>): int {
    l.reserve + StakeSum(v)
  }

  /** Two ledgers that hold the same accounts for a record. */
  ghost predicate AgreeAt(l: Ledger, l': Ledger, r: ValidatorStakeInfo) {
    && l.epoch == l'.epoch
    && (r.voteAccountAddress in l.validatorStake <==> r.voteAccountAddress in l'.validatorStake)
    && (r.voteAccountAddress in l.validatorStake ==>
          l.validatorStake[r.voteAccountAddress] == l'.validatorStake[r.voteAccountAddress])
    && (KeyOf(r) in l.transientStake <==> KeyOf(r) in l'.transientStake)
    && (KeyOf(r) in l.transientStake ==> l.transientStake[KeyOf(r)] == l'.transientStake[KeyOf(r)])
  }

  /** The records still to be refreshed, from `from` up to `to`. */
  ghost predicate Pending(l: Ledger, l': Ledger, v: seq<ValidatorStakeInfo>, from: nat, to: nat) {
    to <= |v| && forall j :: from <= j < to ==> AgreeAt(l, l', v[j]) && Refreshable(l, v[j])
  }

  ghost predicate Refreshable(l: Ledger, r: ValidatorStakeInfo) {
    && r.status == Active && r.voteAccountAddress in l.validatorStake
    && l.validatorStake[r.voteAccountAddress].Delegated?
    && (KeyOf(r) in l.transientStake ==> AccountOk(l.transientStake[KeyOf(r)]))
  }

  lemma {:induction false} SurplusAgrees(l: Ledger, l': Ledger, v: seq<ValidatorStakeInfo>, v': seq<ValidatorStakeInfo>,
                                         start: nat, accounts: seq<Address>, k: nat)
    requires |v| == |v'| && start + |accounts| / 2 <= |v| && k <= |accounts| / 2
    requires forall j :: start + k <= j < |v| ==> v'[j] == v[j]
    requires Pending(l, l', v, start + k, start + |accounts| / 2)
    ensures SurplusFrom(l, v, start, accounts, k) == SurplusFrom(l', v', start, accounts, k)
    decreases |accounts| / 2 - k
  {
    if k < |accounts| / 2 {
      assert AgreeAt(l, l', v[start + k]);
      SurplusAgrees(l, l', v, v', start, accounts, k + 1);
    }
  }

  /** One record, refreshed with and without merging. */
  lemma RecordNeutral(l: Ledger, l': Ledger, r: ValidatorStakeInfo)
    requires Refreshable(l, r) && AgreeAt(l, l', r)
    requires RefreshRecord(l, r, false).Ok? && RefreshRecord(l', r, true).Ok?
    ensures
      var merged, counted := RefreshRecord(l, r, false).value, RefreshRecord(l', r, true).value;
      && merged.ledger.reserve - l.reserve + StakeLamports(merged.record)
         == StakeLamports(counted.record) + MergedSurplus(l, r)
      && counted.ledger == l' && merged.record.voteAccountAddress == r.voteAccountAddress
      && counted.record.voteAccountAddress == r.voteAccountAddress
      && SameElsewhere(l, merged.ledger, r.voteAccountAddress)
  {
  }

  /** Refreshing one record leaves the accounts of the others alone. */
  lemma PendingAfter(l: Ledger, l': Ledger, v: seq<ValidatorStakeInfo>, i: nat, to: nat, l2: Ledger,
                     r: ValidatorStakeInfo)
    requires DistinctVotes(v) && i < to && Pending(l, l', v, i, to)
    requires SameElsewhere(l, l2, v[i].voteAccountAddress)
    ensures Pending(l2, l', v[i := r], i + 1, to) && Pending(l2, l, v[i := r], i + 1, to)
  {
    forall j | i + 1 <= j < to
      ensures AgreeAt(l2, l', v[j]) && AgreeAt(l2, l, v[j]) && Refreshable(l2, v[j])
    {
      assert AgreeAt(l, l', v[j]) && Refreshable(l, v[j]);
      assert v[j].voteAccountAddress != v[i].voteAccountAddress;
    }
  }

  lemma NeutralStep(l: Ledger, v: seq<ValidatorStakeInfo>, l': Ledger, v': seq<ValidatorStakeInfo>,
                    start: nat, accounts: seq<Address>, k: nat)
    requires |v| == |v'| && start + |accounts| / 2 <= |v| && k < |accounts| / 2
    requires v'[start + k] == v[start + k]
    requires DistinctVotes(v) && Pending(l, l', v, start + k, start + |accounts| / 2)
    requires RefreshRecord(l, v[start + k], false).Ok? && RefreshRecord(l', v[start + k], true).Ok?
    ensures
      var i, to := start + k, start + |accounts| / 2;
      var merged, counted := RefreshRecord(l, v[i], false).value, RefreshRecord(l', v[i], true).value;
      var w, w' := v[i := merged.record], v'[i := counted.record];
      && counted.ledger == l' && DistinctVotes(w)
      && Pending(merged.ledger, l', w, i + 1, to)
      && Worth(merged.ledger, w) - Worth(l', w') == Worth(l, v) - Worth(l', v') + MergedSurplus(l, v[i])
      && SurplusFrom(merged.ledger, w, start, accounts, k + 1) == SurplusFrom(l, v, start, accounts, k + 1)
  {
    var i := start + k;
    assert AgreeAt(l, l', v[i]) && Refreshable(l, v[i]);
    RecordNeutral(l, l', v[i]);
    var merged, counted := RefreshRecord(l, v[i], false).value, RefreshRecord(l', v[i], true).value;
    PendingAfter(l, l', v, i, start + |accounts| / 2, merged.ledger, merged.record);
    SurplusAgrees(merged.ledger, l, v[i := merged.record], v, start, accounts, k + 1);
    WorthUpdate(l, v, merged.ledger, i, merged.record);
    WorthUpdate(l', v', l', i, counted.record);
  }

  lemma WorthUpdate(l: Ledger, v: seq<ValidatorStakeInfo>, l2: Ledger, i: nat, r: ValidatorStakeInfo)
    requires i < |v|
    ensures Worth(l2, v[i := r]) == Worth(l, v) + l2.reserve - l.reserve + StakeLamports(r) - StakeLamports(v[i])
  {
    StakeSumUpdate(v, i, r);
  }

  /** What is left of the two refreshes, `l, v` merging and `l', v'` only counting, adds the surplus to
      the difference in worth. */
  ghost predicate DiffersBySurplus(l: Ledger, v: seq<ValidatorStakeInfo>, l': Ledger, v': seq<ValidatorStakeInfo>,
                                   start: nat, accounts: seq<Address>, k: nat)
    requires |v| == |v'| && start + |accounts| / 2 <= |v| && k <= |accounts| / 2
    requires RefreshFrom(l, v, start, accounts, false, k).Ok? && RefreshFrom(l', v', start, accounts, true, k).Ok?
  {
    var merged := RefreshFrom(l, v, start, accounts, false, k).value;
    var counted := RefreshFrom(l', v', start, accounts, true, k).value;
    Worth(merged.ledger, merged.validators) - Worth(counted.ledger, counted.validators)
    == Worth(l, v) - Worth(l', v') + SurplusFrom(l, v, start, accounts, k)
  }

  /** One turn of both loops, where the accounts match. */
  lemma NeutralTurn(l: Ledger, v: seq<ValidatorStakeInfo>, l': Ledger, v': seq<ValidatorStakeInfo>,
                    start: nat, accounts: seq<Address>, k: nat)
    requires |v| == |v'| && start + |accounts| / 2 <= |v| && k < |accounts| / 2
    requires v'[start + k] == v[start + k] && PairMatches(v[start + k], accounts, k)
    requires DistinctVotes(v) && Pending(l, l', v, start + k, start + |accounts| / 2)
    requires RefreshFrom(l, v, start, accounts, false, k).Ok? && RefreshFrom(l', v', start, accounts, true, k).Ok?
    ensures RefreshRecord(l, v[start + k], false).Ok? && RefreshRecord(l', v[start + k], true).Ok?
    ensures
      var i := start + k;
      var merged, counted := RefreshRecord(l, v[i], false).value, RefreshRecord(l', v[i], true).value;
      var w, w' := v[i := merged.record], v'[i := counted.record];
      && DistinctVotes(w) && Pending(merged.ledger, l', w, i + 1, start + |accounts| / 2)
      && RefreshFrom(merged.ledger, w, start, accounts, false, k + 1).Ok?
      && RefreshFrom(l', w', start, accounts, true, k + 1).Ok?
      && (DiffersBySurplus(merged.ledger, w, l', w', start, accounts, k + 1) ==>
            DiffersBySurplus(l, v, l', v', start, accounts, k))
  {
    var i := start + k;
    var merged, counted := RefreshRecord(l, v[i], false).value, RefreshRecord(l', v[i], true).value;
    NeutralStep(l, v, l', v', start, accounts, k);
    RefreshFromMatch(l, v, start, accounts, false, k, merged);
    RefreshFromMatch(l', v', start, accounts, true, k, counted);
  }

  /** Two refreshes of the same records side by side. */
  lemma {:induction false} NeutralFrom(l: Ledger, v: seq<ValidatorStakeInfo>, l': Ledger, v': seq<ValidatorStakeInfo>,
                                       start: nat, accounts: seq<Address>, k: nat)
    requires |v| == |v'| && start + |accounts| / 2 <= |v| && k <= |accounts| / 2
    requires forall j :: start + k <= j < |v| ==> v'[j] == v[j]
    requires DistinctVotes(v) && Pending(l, l', v, start + k, start + |accounts| / 2)
    requires RefreshFrom(l, v, start, accounts, false, k).Ok? && RefreshFrom(l', v', start, accounts, true, k).Ok?
    ensures DiffersBySurplus(l, v, l', v', start, accounts, k)
    decreases |accounts| / 2 - k
  {
    if k < |accounts| / 2 {
      var i := start + k;
      if PairMatches(v[i], accounts, k) {
        NeutralTurn(l, v, l', v', start, accounts, k);
        var merged, counted := RefreshRecord(l, v[i], false).value, RefreshRecord(l', v[i], true).value;
        NeutralFrom(merged.ledger, v[i := merged.record], l', v'[i := counted.record], start, accounts, k + 1);
      } else {
        NeutralFrom(l, v, l', v', start, accounts, k + 1);
      }
    }
  }

  /** For active records, refreshing with and without merging gives pools whose worth differs by
      exactly the surplus lamports in the merged transient accounts. */
  lemma MergingIsValueNeutral(s: State, start: u32, accounts: seq<Address>, m: Mode)
    requires ListInv(s) && LedgerInv(s, m)
    requires UpdateValidatorList(s, start, accounts, false).Ok? && UpdateValidatorList(s, start, accounts, true).Ok?
    requires forall j :: start <= j < start + |accounts| / 2 ==> s.validators[j].status == Active
    ensures
      var merged := UpdateValidatorList(s, start, accounts, false).value;
      var counted := UpdateValidatorList(s, start, accounts, true).value;
      Slack(merged) - Slack(counted) == SurplusFrom(s.ledger, s.validators, start, accounts, 0)
  {
    forall j | start <= j < start + |accounts| / 2
      ensures AgreeAt(s.ledger, s.ledger, s.validators[j]) && Refreshable(s.ledger, s.validators[j])
    {
      assert RecordOk(s.validators[j], s.ledger, m);
    }
    NeutralFrom(s.ledger, s.validators, s.ledger, s.validators, start, accounts, 0);
    KeepsRents(s.ledger, s.validators, start, accounts, false, 0);
    KeepsRents(s.ledger, s.validators, start, accounts, true, 0);
  }

  lemma {:induction false} KeepsRents(l: Ledger, v: seq<ValidatorStakeInfo>, start: nat, accounts: seq<Address>,
                                      noMerge: bool, k: nat)
    requires start + |accounts| / 2 <= |v| && k <= |accounts| / 2
    requires RefreshFrom(l, v, start, accounts, noMerge, k).Ok?
    ensures RefreshFrom(l, v, start, accounts, noMerge, k).value.ledger.reserveRent == l.reserveRent
    decreases |accounts| / 2 - k
  {
    if k < |accounts| / 2 {
      if PairMatches(v[start + k], accounts, k) {
        var one := RefreshRecord(l, v[start + k], noMerge).value;
        KeepsRents(one.ledger, v[start + k := one.record], start, accounts, noMerge, k + 1);
      } else {
        KeepsRents(l, v, start, accounts, noMerge, k + 1);
      }
    }
  }

  /** So the totals two pool updates would then write differ by the same surplus. */
  lemma MergedTotals(s: State, start: u32, accounts: seq<Address>, m: Mode, feeValid: bool)
    requires ListInv(s) && LedgerInv(s, m)
    requires UpdateValidatorList(s, start, accounts, false).Ok? && UpdateValidatorList(s, start, accounts, true).Ok?
    requires forall j :: start <= j < start + |accounts| / 2 ==> s.validators[j].status == Active
    requires UpdateStakePool(UpdateValidatorList(s, start, accounts, false).value, feeValid).Ok?
    requires UpdateStakePool(UpdateValidatorList(s, start, accounts, true).value, feeValid).Ok?
    ensures
      var merged := UpdateStakePool(UpdateValidatorList(s, start, accounts, false).value, feeValid).value;
      var counted := UpdateStakePool(UpdateValidatorList(s, start, accounts, true).value, feeValid).value;
      merged.pool.totalLamports == counted.pool.totalLamports + SurplusFrom(s.ledger, s.validators, start, accounts, 0)
  {
    MergingIsValueNeutral(s, start, accounts, m);
    UpdatedTotal(UpdateValidatorList(s, start, accounts, false).value, feeValid);
    UpdatedTotal(UpdateValidatorList(s, start, accounts, true).value, feeValid);
  }

  lemma UpdatedTotal(s: State, feeValid: bool)
    requires UpdateStakePool(s, feeValid).Ok?
    ensures UpdateStakePool(s, feeValid).value.pool.totalLamports == s.pool.totalLamports + Slack(s)
  {
    var base := s.ledger.reserve - MinimumReserveLamports(s.ledger.reserveRent);
    FreshTotalIsSum(base, s.validators, s.ledger.epoch, |s.validators|);
    assert s.validators[..|s.validators|] == s.validators;
  }
}
