/** What the pool owes its token holders is covered by what it holds, over every run. */
module Solvency {
  import opened Records
  import opened PoolState
  import opened Steps
  import opened ListInvariant

  /** What is known of the environment of a run: `lossFree` when no stake account ever loses stake,
      `pristine` when nobody sends lamports to a derived address before its account is created, and
      `undonated` when nobody sends lamports to an existing account of the pool. */
  datatype Mode = Mode(lossFree: bool, pristine: bool, undonated: bool) {
    predicate Exact() {
      pristine && undonated
    }
  }

  /** The reserve above its minimum plus all recorded stake, less what the pool has on its books. */
  function Slack(s: State): int {
    s.ledger.reserve - MinimumReserveLamports(s.ledger.reserveRent) + StakeSum(s.validators) - s.pool.totalLamports
  }

  /** Recorded amounts are at most what the accounts hold. */
  ghost predicate Covered(r: ValidatorStakeInfo, l: Ledger) {
    && (r.status == Active ==>
          && r.voteAccountAddress in l.validatorStake && l.validatorStake[r.voteAccountAddress].Delegated?
          && r.activeStakeLamports + MINIMUM_ACTIVE_STAKE <= l.validatorStake[r.voteAccountAddress].stake)
    && (r.transientStakeLamports > 0 ==>
          && KeyOf(r) in l.transientStake && l.transientStake[KeyOf(r)].Delegated?
          && r.transientStakeLamports <= l.transientStake[KeyOf(r)].rent + l.transientStake[KeyOf(r)].stake)
  }

  /** Recorded amounts are exactly what the accounts hold. */
  ghost predicate CoveredExactly(r: ValidatorStakeInfo, l: Ledger) {
    && (r.status == Active && r.voteAccountAddress in l.validatorStake
        && l.validatorStake[r.voteAccountAddress].Delegated? ==>
          r.activeStakeLamports + MINIMUM_ACTIVE_STAKE == l.validatorStake[r.voteAccountAddress].stake)
    && (KeyOf(r) in l.transientStake && l.transientStake[KeyOf(r)].Delegated? ==>
          r.transientStakeLamports == l.transientStake[KeyOf(r)].rent + l.transientStake[KeyOf(r)].stake)
  }

  ghost predicate RecordOk(r: ValidatorStakeInfo, l: Ledger, m: Mode) {
    && (r.status == Active <==> r.voteAccountAddress in l.validatorStake)
    && (r.status != Active ==> r.activeStakeLamports == 0)
    && (r.status == DeactivatingTransient ==>
          KeyOf(r) in l.transientStake && l.transientStake[KeyOf(r)].Delegated?
          && l.transientStake[KeyOf(r)].deactivationEpoch <= l.epoch)
    && (r.status == ReadyForRemoval ==> r.transientStakeLamports == 0 && KeyOf(r) !in l.transientStake)
    && (m.lossFree || r.lastUpdateEpoch >= l.epoch ==> Covered(r, l))
    && (m.pristine && r.lastUpdateEpoch >= l.epoch ==> CoveredExactly(r, l))
  }

  ghost predicate AccountOk(a: StakeAccount) {
    a.Delegated? && a.rent + a.stake <= a.lamports
  }

  ghost predicate AccountsOk(l: Ledger, m: Mode) {
    && (forall k :: k in l.validatorStake ==> AccountOk(l.validatorStake[k]))
    && (forall k :: k in l.validatorStake ==>
          l.validatorStake[k].activationEpoch <= l.epoch && l.validatorStake[k].deactivationEpoch == EPOCH_MAX)
    && (forall k :: k in l.transientStake ==> AccountOk(l.transientStake[k]))
    && (forall k :: k in l.transientStake ==>
          l.transientStake[k].deactivationEpoch == EPOCH_MAX || l.transientStake[k].deactivationEpoch <= l.epoch)
    && (forall k :: k in l.transientStake ==> l.transientStake[k].rent == l.stakeRent)
    && (m.pristine ==> l.stakeRent > 0)
    && (m.Exact() ==> forall k :: k in l.transientStake ==>
          l.transientStake[k].lamports == l.transientStake[k].rent + l.transientStake[k].stake)
  }

  ghost predicate RecordsOk(v: seq<ValidatorStakeInfo>, l: Ledger, m: Mode) {
    forall i :: 0 <= i < |v| ==> RecordOk(v[i], l, m)
  }

  /** Some record that is not about to be removed points at this transient account. */
  ghost predicate TrackedBy(v: seq<ValidatorStakeInfo>, k: TransientKey) {
    exists r :: r in v && KeyOf(r) == k && r.status != ReadyForRemoval
  }

  ghost predicate Tracked(v: seq<ValidatorStakeInfo>, l: Ledger) {
    forall k :: k in l.transientStake ==> TrackedBy(v, k)
  }

  ghost predicate Solvent(s: State, m: Mode) {
    && (m.lossFree || Current(s) ==> Slack(s) >= 0)
    && (m.Exact() && Current(s) ==> Slack(s) == 0)
  }

  ghost predicate LedgerInv(s: State, m: Mode) {
    && AccountsOk(s.ledger, m)
    && RecordsOk(s.validators, s.ledger, m)
    && (m.pristine ==> Tracked(s.validators, s.ledger))
    && Solvent(s, m)
  }

  /** The steps a mode admits. */
  ghost predicate Admits(m: Mode, s: State, a: Action) {
    && (m.lossFree && a.DoAdvanceEpoch? ==>
          NoLoss(s.ledger.validatorStake, a.validatorStake) && NoLoss(s.ledger.transientStake, a.transientStake))
    && (m.pristine && (a.DoAddValidator? || a.DoDecrease? || a.DoIncrease?) ==> a.prior == 0)
    && (m.undonated ==> !a.DoDonateToReserve? && !a.DoDonateToValidator? && !a.DoDonateToTransient?)
    && (!m.pristine && a.DoRemoveValidator? ==> CleanRemoval(s, a.vote))
  }

  /** The record to be removed does not show an empty transient account that in fact exists. */
  ghost predicate CleanRemoval(s: State, vote: Pubkey) {
    var found := FindVote(s.validators, vote);
    found.Some? && s.validators[found.value].transientStakeLamports == 0 ==>
      KeyOf(s.validators[found.value]) !in s.ledger.transientStake
  }

  ghost predicate NoLoss<K(!new)>(before: map<K, StakeAccount>, after: map<K, StakeAccount>) {
    forall k :: k in before && k in after && before[k].Delegated? && after[k].Delegated? ==>
      before[k].stake <= after[k].stake
  }

  // ----- One record and its accounts change -----

  /** The two ledgers differ only in accounts of this validator (and in balances no record depends on). */
  ghost predicate SameElsewhere(l: Ledger, l': Ledger, vote: Pubkey) {
    && l'.epoch == l.epoch && l'.stakeRent == l.stakeRent && l'.reserveRent == l.reserveRent
    && (forall k :: k != vote ==> (k in l.validatorStake <==> k in l'.validatorStake))
    && (forall k :: k != vote && k in l.validatorStake && k in l'.validatorStake ==>
          l'.validatorStake[k] == l.validatorStake[k])
    && (forall k: TransientKey :: k.vote != vote ==> (k in l.transientStake <==> k in l'.transientStake))
    && (forall k: TransientKey :: k.vote != vote && k in l.transientStake && k in l'.transientStake ==>
          l'.transientStake[k] == l.transientStake[k])
  }

  lemma ReplaceKeepsRecordsOk(v: seq<ValidatorStakeInfo>, l: Ledger, i: nat, r: ValidatorStakeInfo, l': Ledger, m: Mode)
    requires i < |v| && DistinctVotes(v) && RecordsOk(v, l, m)
    requires r.voteAccountAddress == v[i].voteAccountAddress
    requires SameElsewhere(l, l', r.voteAccountAddress)
    requires RecordOk(r, l', m)
    ensures RecordsOk(v[i := r], l', m)
  {
    forall j | 0 <= j < |v| && j != i
      ensures RecordOk(v[j], l', m)
    {
      assert v[j].voteAccountAddress != r.voteAccountAddress;
      assert RecordOk(v[j], l, m);
    }
  }

  /** Transient accounts of other validators stay tracked; this one's accounts must be accounted for. */
  lemma ReplaceKeepsTracked(v: seq<ValidatorStakeInfo>, l: Ledger, i: nat, r: ValidatorStakeInfo, l': Ledger)
    requires i < |v| && Tracked(v, l)
    requires r.voteAccountAddress == v[i].voteAccountAddress
    requires SameElsewhere(l, l', r.voteAccountAddress)
    requires forall k: TransientKey :: k in l'.transientStake && k.vote == r.voteAccountAddress ==>
      k == KeyOf(r) && r.status != ReadyForRemoval
    ensures Tracked(v[i := r], l')
  {
    var v' := v[i := r];
    forall k | k in l'.transientStake
      ensures TrackedBy(v', k)
    {
      if k.vote == r.voteAccountAddress {
        assert v'[i] == r;
      } else {
        var q :| q in v && KeyOf(q) == k && q.status != ReadyForRemoval;
        var j :| 0 <= j < |v| && v[j] == q;
        assert v'[j] == q;
      }
    }
  }

  /** With distinct votes the only account a validator's records can track is the one record's. */
  lemma TrackedOnlyByOwn(v: seq<ValidatorStakeInfo>, l: Ledger, i: nat, k: TransientKey)
    requires i < |v| && DistinctVotes(v) && Tracked(v, l)
    requires k in l.transientStake && k.vote == v[i].voteAccountAddress
    ensures k == KeyOf(v[i]) && v[i].status != ReadyForRemoval
  {
    var q :| q in v && KeyOf(q) == k && q.status != ReadyForRemoval;
    var j :| 0 <= j < |v| && v[j] == q;
    assert j == i;
  }

  /** The common shape of every step that works on one validator. */
  lemma OneValidatorStep(s: State, s': State, i: nat, m: Mode)
    requires ListInv(s) && LedgerInv(s, m) && i < |s.validators|
    requires |s'.validators| == |s.validators| && s'.validators == s.validators[i := s'.validators[i]]
    requires s'.validators[i].voteAccountAddress == s.validators[i].voteAccountAddress
    requires SameElsewhere(s.ledger, s'.ledger, s.validators[i].voteAccountAddress)
    requires AccountsOk(s'.ledger, m)
    requires RecordOk(s'.validators[i], s'.ledger, m)
    requires s'.pool.lastUpdateEpoch == s.pool.lastUpdateEpoch
    requires m.pristine ==> forall k: TransientKey ::
      k in s'.ledger.transientStake && k.vote == s.validators[i].voteAccountAddress ==>
        k == KeyOf(s'.validators[i]) && s'.validators[i].status != ReadyForRemoval
    requires
      var gained := (s'.ledger.reserve + StakeLamports(s'.validators[i]) - s'.pool.totalLamports)
                  - (s.ledger.reserve + StakeLamports(s.validators[i]) - s.pool.totalLamports);
      (m.lossFree || Current(s) ==> gained >= 0) && (m.Exact() && Current(s) ==> gained == 0)
    ensures LedgerInv(s', m)
  {
    var r := s'.validators[i];
    ReplaceKeepsRecordsOk(s.validators, s.ledger, i, r, s'.ledger, m);
    if m.pristine {
      ReplaceKeepsTracked(s.validators, s.ledger, i, r, s'.ledger);
    }
    StakeSumUpdate(s.validators, i, r);
  }
}
