/** Where everything goes when a record is refreshed, and what a list update makes of each record. */
module Refreshes {
  import opened Numbers
  import opened Errors
  import opened Records
  import opened PoolState
  import opened Steps
  import opened ListInvariant
  import opened Solvency
  import opened SolvencySteps

  // ----- The transient account -----

  /** Both stakes have been active since before this epoch, so the transient one is to be merged into
      the validator's. */
  predicate MergesIntoValidator(l: Ledger, r: ValidatorStakeInfo)
    requires KeyOf(r) in l.transientStake && l.transientStake[KeyOf(r)].Delegated?
  {
    var t, vote := l.transientStake[KeyOf(r)], r.voteAccountAddress;
    && t.deactivationEpoch >= l.epoch && t.activationEpoch < l.epoch
    && vote in l.validatorStake && l.validatorStake[vote].Delegated?
    && l.validatorStake[vote].activationEpoch < l.epoch
  }

  /** The account is closed and all its lamports are in the reserve; a record that waited for it can go. */
  ghost predicate PaidIntoReserve(l: Ledger, r: ValidatorStakeInfo, look: Look)
    requires KeyOf(r) in l.transientStake
  {
    && look.ledger == l.(reserve := look.ledger.reserve, transientStake := l.transientStake - {KeyOf(r)})
    && look.ledger.reserve == l.reserve + l.transientStake[KeyOf(r)].lamports
    && look.status == (if r.status == DeactivatingTransient then ReadyForRemoval else r.status)
    && look.lamports == 0
  }

  /** The account is closed and its stake is the validator's; lamports it held beyond its stake are in the
      reserve. */
  ghost predicate JoinedToValidator(l: Ledger, r: ValidatorStakeInfo, look: Look)
    requires KeyOf(r) in l.transientStake && l.transientStake[KeyOf(r)].Delegated? && MergesIntoValidator(l, r)
  {
    var t, v, l', vote := l.transientStake[KeyOf(r)], l.validatorStake[r.voteAccountAddress], look.ledger,
                          r.voteAccountAddress;
    var surplus := if t.lamports > t.stake then t.lamports - t.stake else 0;
    && t.deactivationEpoch == v.deactivationEpoch == EPOCH_MAX
    && v.lamports + t.lamports <= U64_MAX && v.stake + t.stake <= U64_MAX
    && vote in l'.validatorStake && l'.validatorStake == l.validatorStake[vote := l'.validatorStake[vote]]
    && l'.validatorStake[vote] == v.(lamports := l'.validatorStake[vote].lamports, stake := v.stake + t.stake)
    && l'.validatorStake[vote].lamports == v.lamports + t.lamports - surplus
    && l'.reserve == l.reserve + surplus && l'.transientStake == l.transientStake - {KeyOf(r)}
    && l' == l.(reserve := l'.reserve, validatorStake := l'.validatorStake, transientStake := l'.transientStake)
    && look.status == r.status && look.lamports == 0
  }

  /** Nothing moves, and the record shows the account. */
  ghost predicate Counted(l: Ledger, r: ValidatorStakeInfo, look: Look)
    requires KeyOf(r) in l.transientStake
  {
    var t := l.transientStake[KeyOf(r)];
    && look.ledger == l && look.status == r.status
    && look.lamports == (if t.Delegated? then SaturatingAdd(t.rent, t.stake) else t.lamports)
  }

  /** What becomes of the transient account: without merging it is counted; with merging it goes to the
      reserve once it is no longer delegated, to the validator once both stakes are active, and is
      counted in between. */
  ghost predicate TransientSeen(l: Ledger, r: ValidatorStakeInfo, noMerge: bool, look: Look) {
    if KeyOf(r) !in l.transientStake then look == Look(l, r.status, 0)
    else
      var t := l.transientStake[KeyOf(r)];
      if noMerge then Counted(l, r, look)
      else if t.Initialized? || t.deactivationEpoch < l.epoch then PaidIntoReserve(l, r, look)
      else if MergesIntoValidator(l, r) then JoinedToValidator(l, r, look)
      else Counted(l, r, look)
  }

  lemma TransientLookExactly(l: Ledger, r: ValidatorStakeInfo, noMerge: bool, look: Look)
    ensures LookAtTransient(l, r, noMerge) == Ok(look) <==> TransientSeen(l, r, noMerge, look)
  {
  }

  // ----- The validator's account -----

  /** What the record then shows of the validator's account: what lies above the minimum, for an active
      validator. An account destaked by a cluster restart goes to the reserve. */
  ghost predicate ValidatorSeen(l: Ledger, vote: Pubkey, status: StakeStatus, look: Look) {
    if vote !in l.validatorStake then look == Look(l, status, 0)
    else
      var v := l.validatorStake[vote];
      if v.Initialized? then
        && look.ledger == l.(reserve := look.ledger.reserve, validatorStake := l.validatorStake - {vote})
        && look.ledger.reserve == l.reserve + v.lamports && look.status == ReadyForRemoval && look.lamports == 0
      else
        && look.ledger == l && look.status == status
        && (if status == Active then look.lamports + MINIMUM_ACTIVE_STAKE == v.stake else look.lamports == 0)
  }

  lemma ValidatorLookExactly(l: Ledger, vote: Pubkey, status: StakeStatus, look: Look)
    ensures LookAtValidator(l, vote, status) == Ok(look) <==> ValidatorSeen(l, vote, status, look)
  {
  }

  // ----- The record -----

  /** A refresh looks at the transient account and then at the validator's, and the record shows what it
      has seen, as of this epoch. */
  ghost predicate RecordRefreshed(l: Ledger, r: ValidatorStakeInfo, noMerge: bool, t: Look, v: Look, one: Refreshed) {
    && TransientSeen(l, r, noMerge, t) && ValidatorSeen(t.ledger, r.voteAccountAddress, t.status, v)
    && one.ledger == v.ledger
    && one.record == r.(activeStakeLamports := v.lamports, transientStakeLamports := t.lamports,
                        lastUpdateEpoch := l.epoch, status := v.status)
  }

  lemma RefreshExactly(l: Ledger, r: ValidatorStakeInfo, noMerge: bool, one: Refreshed)
    ensures RefreshRecord(l, r, noMerge) == Ok(one) <==>
      exists t: Look, v: Look :: RecordRefreshed(l, r, noMerge, t, v, one)
  {
    if RefreshRecord(l, r, noMerge) == Ok(one) {
      var t := LookAtTransient(l, r, noMerge).value;
      var v := LookAtValidator(t.ledger, r.voteAccountAddress, t.status).value;
      TransientLookExactly(l, r, noMerge, t);
      ValidatorLookExactly(t.ledger, r.voteAccountAddress, t.status, v);
      assert RecordRefreshed(l, r, noMerge, t, v, one);
    }
    if t: Look, v: Look :| RecordRefreshed(l, r, noMerge, t, v, one) {
      TransientLookExactly(l, r, noMerge, t);
      ValidatorLookExactly(t.ledger, r.voteAccountAddress, t.status, v);
    }
  }

  /** Where a merging refresh puts everything, in every reachable state. */
  lemma MergeDestinations(l: Ledger, r: ValidatorStakeInfo, m: Mode)
    requires AccountsOk(l, m) && RecordOk(r, l, m) && RefreshRecord(l, r, false).Ok?
    requires KeyOf(r) in l.transientStake
    ensures
      var one, t, vote := RefreshRecord(l, r, false).value, l.transientStake[KeyOf(r)], r.voteAccountAddress;
      var l' := one.ledger;
      if t.deactivationEpoch < l.epoch then
        && l'.reserve == l.reserve + t.lamports && l'.validatorStake == l.validatorStake
        && l'.transientStake == l.transientStake - {KeyOf(r)} && one.record.transientStakeLamports == 0
      else if MergesIntoValidator(l, r) then
        && vote in l'.validatorStake
        && l'.validatorStake[vote].stake == l.validatorStake[vote].stake + t.stake
        && l'.validatorStake[vote].lamports == l.validatorStake[vote].lamports + t.stake
        && l'.reserve == l.reserve + t.lamports - t.stake
        && l'.transientStake == l.transientStake - {KeyOf(r)} && one.record.transientStakeLamports == 0
        && one.record.activeStakeLamports == l.validatorStake[vote].stake + t.stake - MINIMUM_ACTIVE_STAKE
      else l' == l && one.record.transientStakeLamports == t.rent + t.stake
  {
    assert AccountOk(l.transientStake[KeyOf(r)]);
    var look := LookAtTransient(l, r, false).value;
    TransientLookExactly(l, r, false, look);
    ValidatorLookExactly(look.ledger, r.voteAccountAddress, look.status,
                         LookAtValidator(look.ledger, r.voteAccountAddress, look.status).value);
  }

  // ----- The list -----

  /** Records outside the range asked for, and those whose accounts do not match, stay as they are. */
  lemma {:induction false} MismatchedUntouched(l: Ledger, v: seq<ValidatorStakeInfo>, start: nat,
                                               accounts: seq<Address>, noMerge: bool, k: nat, i: nat)
    requires start + |accounts| / 2 <= |v| && k <= |accounts| / 2 && i < |v|
    requires RefreshFrom(l, v, start, accounts, noMerge, k).Ok?
    requires
      || i < start + k || i >= start + |accounts| / 2
      || accounts[2 * (i - start)] != ValidatorStakeAddress(v[i].voteAccountAddress)
      || accounts[2 * (i - start) + 1]
         != TransientStakeAddress(v[i].voteAccountAddress, v[i].transientSeedSuffixStart)
    ensures |RefreshFrom(l, v, start, accounts, noMerge, k).value.validators| == |v|
    ensures RefreshFrom(l, v, start, accounts, noMerge, k).value.validators[i] == v[i]
    decreases |accounts| / 2 - k
  {
    if k < |accounts| / 2 {
      if PairMatches(v[start + k], accounts, k) {
        var one := RefreshRecord(l, v[start + k], noMerge).value;
        MismatchedUntouched(one.ledger, v[start + k := one.record], start, accounts, noMerge, k + 1, i);
      } else {
        MismatchedUntouched(l, v, start, accounts, noMerge, k + 1, i);
      }
    }
  }

  /** A refresh depends on the record's own accounts and the clock alone, but for a reserve that may
      overflow. */
  lemma RefreshIsLocal(l: Ledger, l': Ledger, r: ValidatorStakeInfo, noMerge: bool, other: Pubkey)
    requires SameElsewhere(l, l', other) && r.voteAccountAddress != other && l.reserve <= l'.reserve
    requires RefreshRecord(l', r, noMerge).Ok?
    ensures RefreshRecord(l, r, noMerge).Ok?
    ensures RefreshRecord(l', r, noMerge).value.record == RefreshRecord(l, r, noMerge).value.record
  {
    TransientIsLocal(l, l', r, noMerge, other);
  }

  lemma TransientIsLocal(l: Ledger, l': Ledger, r: ValidatorStakeInfo, noMerge: bool, other: Pubkey)
    requires SameElsewhere(l, l', other) && r.voteAccountAddress != other && l.reserve <= l'.reserve
    requires LookAtTransient(l', r, noMerge).Ok?
    ensures LookAtTransient(l, r, noMerge).Ok?
    ensures
      var a, b := LookAtTransient(l, r, noMerge).value, LookAtTransient(l', r, noMerge).value;
      var vote := r.voteAccountAddress;
      && a.status == b.status && a.lamports == b.lamports && a.ledger.reserve <= b.ledger.reserve
      && (vote in a.ledger.validatorStake <==> vote in b.ledger.validatorStake)
      && (vote in a.ledger.validatorStake ==> a.ledger.validatorStake[vote] == b.ledger.validatorStake[vote])
  {
  }

  lemma RefreshFillsReserve(l: Ledger, r: ValidatorStakeInfo, noMerge: bool)
    requires RefreshRecord(l, r, noMerge).Ok?
    ensures l.reserve <= RefreshRecord(l, r, noMerge).value.ledger.reserve
  {
  }

  /** From turn `k` on, the list update makes of record `i` what refreshing it alone would. */
  ghost predicate RefreshedAlone(s: State, start: nat, accounts: seq<Address>, noMerge: bool, k: nat, i: nat)
    requires start + |accounts| / 2 <= |s.validators| && k <= |accounts| / 2 && i < |s.validators|
    requires RefreshFrom(s.ledger, s.validators, start, accounts, noMerge, k).Ok?
  {
    var v := RefreshFrom(s.ledger, s.validators, start, accounts, noMerge, k).value.validators;
    && RefreshRecord(s.ledger, s.validators[i], noMerge).Ok?
    && |v| == |s.validators| && v[i] == RefreshRecord(s.ledger, s.validators[i], noMerge).value.record
  }

  /** The turn of the record itself. */
  lemma OwnTurn(s: State, start: nat, accounts: seq<Address>, noMerge: bool, k: nat)
    requires start + |accounts| / 2 <= |s.validators| && k < |accounts| / 2
    requires PairMatches(s.validators[start + k], accounts, k)
    requires RefreshFrom(s.ledger, s.validators, start, accounts, noMerge, k).Ok?
    ensures RefreshedAlone(s, start, accounts, noMerge, k, start + k)
  {
    var i := start + k;
    var one := RefreshRecord(s.ledger, s.validators[i], noMerge).value;
    RefreshFromMatch(s.ledger, s.validators, start, accounts, noMerge, k, one);
    MismatchedUntouched(one.ledger, s.validators[i := one.record], start, accounts, noMerge, k + 1, i);
  }

  /** The turn of another record leaves an invariant state and the rest of the loop. */
  lemma OthersTurn(s: State, start: nat, accounts: seq<Address>, noMerge: bool, k: nat, one: Refreshed, s': State,
                   m: Mode)
    requires ListInv(s) && LedgerInv(s, m) && start + |accounts| / 2 <= |s.validators| && k < |accounts| / 2
    requires PairMatches(s.validators[start + k], accounts, k)
    requires RefreshRecord(s.ledger, s.validators[start + k], noMerge) == Ok(one)
    requires s' == WithRecord(s, start + k, one.record).(ledger := one.ledger)
    ensures ListInv(s') && LedgerInv(s', m)
    ensures RefreshFrom(s.ledger, s.validators, start, accounts, noMerge, k)
         == RefreshFrom(s'.ledger, s'.validators, start, accounts, noMerge, k + 1)
  {
    RefreshFromMatch(s.ledger, s.validators, start, accounts, noMerge, k, one);
    RefreshOneSolvent(s, start + k, noMerge, m);
  }

  /** And it changes nothing about what becomes of this one. */
  lemma AloneBefore(s: State, start: nat, accounts: seq<Address>, noMerge: bool, k: nat, i: nat, one: Refreshed,
                    s': State, m: Mode)
    requires ListInv(s) && LedgerInv(s, m) && start + |accounts| / 2 <= |s.validators| && k < |accounts| / 2
    requires i < |s.validators| && i != start + k
    requires RefreshRecord(s.ledger, s.validators[start + k], noMerge) == Ok(one)
    requires s' == WithRecord(s, start + k, one.record).(ledger := one.ledger)
    requires RefreshFrom(s.ledger, s.validators, start, accounts, noMerge, k).Ok?
    requires RefreshFrom(s.ledger, s.validators, start, accounts, noMerge, k)
          == RefreshFrom(s'.ledger, s'.validators, start, accounts, noMerge, k + 1)
    requires RefreshedAlone(s', start, accounts, noMerge, k + 1, i)
    ensures RefreshedAlone(s, start, accounts, noMerge, k, i)
  {
    assert s'.validators[i] == s.validators[i];
    UndoOther(s, start + k, i, noMerge, m);
  }

  /** Any turn but the record's own: the state it leaves, from which the rest of the loop goes on. */
  lemma AnyTurn(s: State, start: nat, accounts: seq<Address>, noMerge: bool, k: nat, i: nat, m: Mode)
    returns (s': State)
    requires ListInv(s) && LedgerInv(s, m) && start + |accounts| / 2 <= |s.validators| && k < |accounts| / 2
    requires i < |s.validators| && i != start + k
    requires RefreshFrom(s.ledger, s.validators, start, accounts, noMerge, k).Ok?
    ensures ListInv(s') && LedgerInv(s', m) && |s'.validators| == |s.validators|
    ensures s'.validators[i] == s.validators[i]
    ensures RefreshFrom(s'.ledger, s'.validators, start, accounts, noMerge, k + 1).Ok?
    ensures RefreshedAlone(s', start, accounts, noMerge, k + 1, i) ==>
      RefreshedAlone(s, start, accounts, noMerge, k, i)
  {
    var j := start + k;
    if PairMatches(s.validators[j], accounts, k) {
      var one := RefreshRecord(s.ledger, s.validators[j], noMerge).value;
      s' := WithRecord(s, j, one.record).(ledger := one.ledger);
      OthersTurn(s, start, accounts, noMerge, k, one, s', m);
      if RefreshedAlone(s', start, accounts, noMerge, k + 1, i) {
        AloneBefore(s, start, accounts, noMerge, k, i, one, s', m);
      }
    } else {
      s' := s;
    }
  }

  /** What a list update makes of each record whose accounts match: what refreshing it alone would, whatever
      happens to the others. */
  lemma {:induction false} MatchedRefreshed(s: State, start: nat, accounts: seq<Address>, noMerge: bool, k: nat,
                                            i: nat, m: Mode)
    requires ListInv(s) && LedgerInv(s, m)
    requires start + |accounts| / 2 <= |s.validators| && k <= |accounts| / 2
    requires start + k <= i < start + |accounts| / 2 && PairMatches(s.validators[i], accounts, i - start)
    requires RefreshFrom(s.ledger, s.validators, start, accounts, noMerge, k).Ok?
    ensures RefreshedAlone(s, start, accounts, noMerge, k, i)
    decreases |accounts| / 2 - k
  {
    if start + k == i {
      OwnTurn(s, start, accounts, noMerge, k);
    } else {
      var s' := AnyTurn(s, start, accounts, noMerge, k, i, m);
      MatchedRefreshed(s', start, accounts, noMerge, k + 1, i, m);
    }
  }

  /** Refreshing one record does not change what a refresh makes of another. */
  lemma UndoOther(s: State, j: nat, i: nat, noMerge: bool, m: Mode)
    requires ListInv(s) && LedgerInv(s, m) && j < |s.validators| && i < |s.validators| && i != j
    requires RefreshRecord(s.ledger, s.validators[j], noMerge).Ok?
    requires
      var l' := RefreshRecord(s.ledger, s.validators[j], noMerge).value.ledger;
      RefreshRecord(l', s.validators[i], noMerge).Ok?
    ensures RefreshRecord(s.ledger, s.validators[i], noMerge).Ok?
    ensures
      var l' := RefreshRecord(s.ledger, s.validators[j], noMerge).value.ledger;
      RefreshRecord(l', s.validators[i], noMerge).value.record
      == RefreshRecord(s.ledger, s.validators[i], noMerge).value.record
  {
    assert RecordOk(s.validators[j], s.ledger, m);
    RefreshRecordOk(s.ledger, s.validators[j], noMerge, m);
    RefreshFillsReserve(s.ledger, s.validators[j], noMerge);
    RefreshIsLocal(s.ledger, RefreshRecord(s.ledger, s.validators[j], noMerge).value.ledger, s.validators[i], noMerge,
                   s.validators[j].voteAccountAddress);
  }

  /** The list update was given the accounts of record `i`. */
  predicate Asked(s: State, start: u32, accounts: seq<Address>, i: nat)
    requires i < |s.validators|
  {
    && start <= i < start + |accounts| / 2
    && accounts[2 * (i - start)] == ValidatorStakeAddress(s.validators[i].voteAccountAddress)
    && accounts[2 * (i - start) + 1]
       == TransientStakeAddress(s.validators[i].voteAccountAddress, s.validators[i].transientSeedSuffixStart)
  }

  /** A list update wants whole pairs within the list; it refreshes the records it was given the accounts
      of, leaves all others alone, and touches nothing of the pool. */
  lemma UpdateListRecords(s: State, start: u32, accounts: seq<Address>, noMerge: bool, i: nat, m: Mode)
    requires ListInv(s) && LedgerInv(s, m) && UpdateValidatorList(s, start, accounts, noMerge).Ok?
    requires i < |s.validators|
    ensures |accounts| % 2 == 0 && start + |accounts| / 2 <= |s.validators|
    ensures Asked(s, start, accounts, i) ==> RefreshRecord(s.ledger, s.validators[i], noMerge).Ok?
    ensures
      var s' := UpdateValidatorList(s, start, accounts, noMerge).value;
      && s'.pool == s.pool && s'.maxValidators == s.maxValidators && |s'.validators| == |s.validators|
      && s'.validators[i] == (if Asked(s, start, accounts, i)
                              then RefreshRecord(s.ledger, s.validators[i], noMerge).value.record
                              else s.validators[i])
  {
    if Asked(s, start, accounts, i) {
      MatchedRefreshed(s, start, accounts, noMerge, 0, i, m);
    } else {
      MismatchedUntouched(s.ledger, s.validators, start, accounts, noMerge, 0, i);
    }
  }
}
