/** The client side of an epoch update: list-update instructions in chunks of five. */
module BatchRefresh {
  import opened Numbers
  import opened Errors
  import opened Records
  import opened PoolState
  import opened Steps
  import opened BigVecs
  import opened ListInvariant
  import opened Solvency
  import opened SolvencySteps
  import opened Holdings
  import opened Refreshes

  const MAX_VALIDATORS_TO_UPDATE: nat := 5

  /** What follows the list updates. */
  datatype FinalInstruction = UpdateStakePoolBalance | CleanupRemovedValidatorEntries

  datatype ListInstruction = ListInstruction(start: u32, accounts: seq<Address>, noMerge: bool)

  /** The two accounts of a vote address found in the list; none if it is not there. */
  function PairFor(v: seq<ValidatorStakeInfo>, vote: Pubkey): seq<Address> {
    match FindVote(v, vote)
    case None => []
    case Some(i) => [ValidatorStakeAddress(vote), TransientStakeAddress(vote, v[i].transientSeedSuffixStart)]
  }

  function PairsFor(v: seq<ValidatorStakeInfo>, votes: seq<Pubkey>): seq<Address> {
    if |votes| == 0 then [] else PairFor(v, votes[0]) + PairsFor(v, votes[1..])
  }

  /** The pair for record `i` names that record's two accounts. */
  ghost predicate MatchesAt(v: seq<ValidatorStakeInfo>, accounts: seq<Address>, start: nat, i: nat)
    requires start <= i < start + |accounts| / 2 <= |v|
  {
    PairMatches(v[i], accounts, i - start)
  }

  ghost predicate LinedUp(v: seq<ValidatorStakeInfo>, accounts: seq<Address>, start: nat, from: nat) {
    && start + |accounts| / 2 <= |v|
    && forall i :: start <= i && from <= i < start + |accounts| / 2 ==> MatchesAt(v, accounts, start, i)
  }

  /** For votes of the list itself the pairs line up with its records. */
  lemma {:induction false} PairsLineUp(v: seq<ValidatorStakeInfo>, votes: seq<Pubkey>, start: nat)
    requires DistinctVotes(v) && start + |votes| <= |v|
    requires forall j :: 0 <= j < |votes| ==> votes[j] == v[start + j].voteAccountAddress
    ensures |PairsFor(v, votes)| == 2 * |votes|
    ensures LinedUp(v, PairsFor(v, votes), start, start)
  {
    if |votes| > 0 {
      PairsLineUp(v, votes[1..], start + 1);
      assert FindVote(v, votes[0]) == Some(start);
      var rest, all := PairsFor(v, votes[1..]), PairsFor(v, votes);
      assert all == PairFor(v, votes[0]) + rest;
      forall i | start <= i < start + |votes|
        ensures MatchesAt(v, all, start, i)
      {
        if i > start {
          assert MatchesAt(v, rest, start + 1, i);
          MatchesShifted(v, PairFor(v, votes[0]), rest, start, i);
        }
      }
    }
  }

  lemma MatchesShifted(v: seq<ValidatorStakeInfo>, first: seq<Address>, rest: seq<Address>, start: nat, i: nat)
    requires |first| == 2 && start < i < start + 1 + |rest| / 2 <= |v|
    requires MatchesAt(v, rest, start + 1, i)
    ensures MatchesAt(v, first + rest, start, i)
  {
    var j := i - start;
    assert (first + rest)[2 * j] == rest[2 * (j - 1)] && (first + rest)[2 * j + 1] == rest[2 * (j - 1) + 1];
  }

  /** The end of chunk `k`. */
  function ChunkEnd(n: nat, k: nat): nat {
    if MAX_VALIDATORS_TO_UPDATE * (k + 1) <= n then MAX_VALIDATORS_TO_UPDATE * (k + 1) else n
  }

  function Votes(v: seq<ValidatorStakeInfo>): (r: seq<Pubkey>)
    ensures |r| == |v| && forall i :: 0 <= i < |v| ==> r[i] == v[i].voteAccountAddress
  {
    seq(|v|, i requires 0 <= i < |v| => v[i].voteAccountAddress)
  }

  /** What instruction `k` of a batch must be. */
  ghost predicate IsChunk(v: seq<ValidatorStakeInfo>, ix: ListInstruction, k: nat) {
    && ix.start == MAX_VALIDATORS_TO_UPDATE * k < |v|
    && ix.accounts == PairsFor(v, Votes(v)[MAX_VALIDATORS_TO_UPDATE * k..ChunkEnd(|v|, k)])
  }

  /** The whole list, in chunks of five. */
  ghost predicate IsBatch(v: seq<ValidatorStakeInfo>, ixs: seq<ListInstruction>) {
    && MAX_VALIDATORS_TO_UPDATE * |ixs| >= |v|
    && forall k :: 0 <= k < |ixs| ==> IsChunk(v, ixs[k], k)
  }

  /** Builds the instructions of an epoch update. */
  method UpdateStakePoolInstructions(v: seq<ValidatorStakeInfo>, noMerge: bool)
    returns (ixs: seq<ListInstruction>, finals: seq<FinalInstruction>)
    requires |v| + MAX_VALIDATORS_TO_UPDATE <= U32_MAX
    ensures IsBatch(v, ixs)
    ensures forall k :: 0 <= k < |ixs| ==> ixs[k].noMerge == noMerge
    ensures finals == [UpdateStakePoolBalance, CleanupRemovedValidatorEntries]
  {
    var voteAccounts := Votes(v);
    ixs := [];
    var startIndex: u32 := 0;
    while startIndex < |voteAccounts|
      invariant startIndex == MAX_VALIDATORS_TO_UPDATE * |ixs|
      invariant startIndex <= |v| + MAX_VALIDATORS_TO_UPDATE
      invariant forall k :: 0 <= k < |ixs| ==> IsChunk(v, ixs[k], k) && ixs[k].noMerge == noMerge
    {
      var end := if startIndex + MAX_VALIDATORS_TO_UPDATE <= |voteAccounts|
                 then startIndex + MAX_VALIDATORS_TO_UPDATE else |voteAccounts|;
      ixs := ixs + [ListInstruction(startIndex, PairsFor(v, voteAccounts[startIndex..end]), noMerge)];
      startIndex := startIndex + MAX_VALIDATORS_TO_UPDATE;
    }
    finals := [UpdateStakePoolBalance, CleanupRemovedValidatorEntries];
  }

  ghost predicate Covers(ix: ListInstruction, i: nat) {
    ix.start <= i < ix.start + |ix.accounts| / 2
  }

  /** Every index is covered by exactly one instruction, and none reaches past the list. */
  lemma BatchCoversOnce(v: seq<ValidatorStakeInfo>, ixs: seq<ListInstruction>, i: nat)
    requires DistinctVotes(v) && IsBatch(v, ixs) && i < |v|
    ensures i / MAX_VALIDATORS_TO_UPDATE < |ixs|
    ensures forall k :: 0 <= k < |ixs| ==> (Covers(ixs[k], i) <==> k == i / MAX_VALIDATORS_TO_UPDATE)
    ensures forall k :: 0 <= k < |ixs| ==> ixs[k].start + |ixs[k].accounts| / 2 <= |v|
  {
    forall k | 0 <= k < |ixs|
      ensures ixs[k].start + |ixs[k].accounts| / 2 == ChunkEnd(|v|, k)
    {
      ChunkLinesUp(v, ixs[k], k);
    }
  }

  lemma ChunkLinesUp(v: seq<ValidatorStakeInfo>, ix: ListInstruction, k: nat)
    requires DistinctVotes(v) && IsChunk(v, ix, k)
    ensures |ix.accounts| % 2 == 0 && ix.start + |ix.accounts| / 2 == ChunkEnd(|v|, k) <= |v|
    ensures LinedUp(v, ix.accounts, ix.start, ix.start)
  {
    var votes := Votes(v)[MAX_VALIDATORS_TO_UPDATE * k..ChunkEnd(|v|, k)];
    PairsLineUp(v, votes, ix.start);
  }

  // ----- Running a batch -----

  /** Matching pairs refresh exactly their records. */
  lemma {:induction false} RefreshFromFreshens(l: Ledger, v: seq<ValidatorStakeInfo>, start: nat,
                                               accounts: seq<Address>, noMerge: bool, k: nat)
    requires LinedUp(v, accounts, start, start + k) && k <= |accounts| / 2 && AllDelegated(l)
    requires RefreshFrom(l, v, start, accounts, noMerge, k).Ok?
    ensures
      var all := RefreshFrom(l, v, start, accounts, noMerge, k).value;
      && |all.validators| == |v|
      && (forall i :: start + k <= i < start + |accounts| / 2 ==> all.validators[i].lastUpdateEpoch == l.epoch)
      && (forall i :: 0 <= i < start + k ==> all.validators[i] == v[i])
    decreases |accounts| / 2 - k
  {
    if k < |accounts| / 2 {
      assert MatchesAt(v, accounts, start, start + k);
      var one := RefreshRecord(l, v[start + k], noMerge).value;
      RefreshRecordKeeps(l, v[start + k], noMerge);
      var v' := v[start + k := one.record];
      assert forall i :: start + k < i < start + |accounts| / 2 ==>
        MatchesAt(v, accounts, start, i) == MatchesAt(v', accounts, start, i);
      RefreshFromFreshens(one.ledger, v', start, accounts, noMerge, k + 1);
      var all := RefreshFrom(l, v, start, accounts, noMerge, k).value;
      assert all.validators[start + k] == v'[start + k];
    }
  }

  /** The instructions in the given order, each of which must succeed. */
  function RunInOrder(s: State, ixs: seq<ListInstruction>, order: seq<nat>): Result<State>
    requires forall i :: 0 <= i < |order| ==> order[i] < |ixs|
  {
    if |order| == 0 then Ok(s)
    else
      var before :- RunInOrder(s, ixs, order[..|order| - 1]);
      var ix := ixs[order[|order| - 1]];
      UpdateValidatorList(before, ix.start, ix.accounts, ix.noMerge)
  }

  /** What has been refreshed so far. */
  ghost predicate FreshSoFar(s: State, ixs: seq<ListInstruction>, order: seq<nat>)
    requires forall i :: 0 <= i < |order| ==> order[i] < |ixs|
  {
    forall i, k :: 0 <= i < |s.validators| && k in order && Covers(ixs[k], i) ==>
      s.validators[i].lastUpdateEpoch == s.ledger.epoch
  }

  lemma {:induction false} OrderFreshens(s: State, ixs: seq<ListInstruction>, order: seq<nat>)
    requires ListInv(s) && IsBatch(s.validators, ixs)
    requires forall i :: 0 <= i < |order| ==> order[i] < |ixs|
    requires RunInOrder(s, ixs, order).Ok?
    ensures
      var end := RunInOrder(s, ixs, order).value;
      && ListInv(end) && Updates(s.validators, end.validators) && end.ledger.epoch == s.ledger.epoch
      && FreshSoFar(end, ixs, order)
  {
    if |order| > 0 {
      var before, last := order[..|order| - 1], order[|order| - 1];
      OrderFreshens(s, ixs, before);
      var mid := RunInOrder(s, ixs, before).value;
      ChunkLinesUp(s.validators, ixs[last], last);
      UpdateFreshens(s, mid, ixs[last]);
      var end := RunInOrder(s, ixs, order).value;
      forall i, k | 0 <= i < |end.validators| && k in order && Covers(ixs[k], i)
        ensures end.validators[i].lastUpdateEpoch == end.ledger.epoch
      {
        if k != last {
          assert k in before;
        }
      }
    }
  }

  /** One instruction of the batch, wherever in the order it runs. */
  lemma UpdateFreshens(s: State, mid: State, ix: ListInstruction)
    requires ListInv(mid) && Updates(s.validators, mid.validators)
    requires LinedUp(s.validators, ix.accounts, ix.start, ix.start)
    requires UpdateValidatorList(mid, ix.start, ix.accounts, ix.noMerge).Ok?
    ensures
      var end := UpdateValidatorList(mid, ix.start, ix.accounts, ix.noMerge).value;
      && ListInv(end) && Updates(s.validators, end.validators) && end.ledger.epoch == mid.ledger.epoch
      && (forall i :: 0 <= i < |mid.validators| && Covers(ix, i) ==>
            end.validators[i].lastUpdateEpoch == mid.ledger.epoch)
      && (forall i :: 0 <= i < |mid.validators| && mid.validators[i].lastUpdateEpoch == mid.ledger.epoch ==>
            end.validators[i].lastUpdateEpoch == mid.ledger.epoch)
  {
    var end := UpdateValidatorList(mid, ix.start, ix.accounts, ix.noMerge).value;
    UpdateListKeepsListInv(mid, ix.start, ix.accounts, ix.noMerge);
    RefreshFromKeeps(mid.ledger, mid.validators, ix.start, ix.accounts, ix.noMerge, 0);
    forall i | ix.start <= i < ix.start + |ix.accounts| / 2
      ensures MatchesAt(mid.validators, ix.accounts, ix.start, i)
    {
      assert MatchesAt(s.validators, ix.accounts, ix.start, i);
    }
    RefreshFromFreshens(mid.ledger, mid.validators, ix.start, ix.accounts, ix.noMerge, 0);
  }

  lemma {:induction false} FreshListHasTotal(base: u64, v: seq<ValidatorStakeInfo>, epoch: u64, n: nat)
    requires n <= |v| && forall i :: 0 <= i < n ==> v[i].lastUpdateEpoch >= epoch
    ensures FreshTotal(base, v, epoch, n) != Err(StakeListOutOfDate)
  {
    if n > 0 {
      FreshListHasTotal(base, v, epoch, n - 1);
    }
  }

  /** Run in any order, any number of times but each at least once, the instructions of a batch refresh
      every record, so the pool update that follows never reports a stale list. */
  lemma BatchMakesPoolUpdatable(s: State, ixs: seq<ListInstruction>, order: seq<nat>, feeAccountValid: bool)
    requires ListInv(s) && IsBatch(s.validators, ixs)
    requires forall i :: 0 <= i < |order| ==> order[i] < |ixs|
    requires forall k :: 0 <= k < |ixs| ==> k in order
    requires RunInOrder(s, ixs, order).Ok?
    ensures
      var end := RunInOrder(s, ixs, order).value;
      && (forall i :: 0 <= i < |end.validators| ==> end.validators[i].lastUpdateEpoch == end.ledger.epoch)
      && UpdateStakePool(end, feeAccountValid) != Err(StakeListOutOfDate)
  {
    var end := RunInOrder(s, ixs, order).value;
    OrderFreshens(s, ixs, order);
    forall i | 0 <= i < |end.validators|
      ensures end.validators[i].lastUpdateEpoch == end.ledger.epoch
    {
      BatchCoversOnce(s.validators, ixs, i);
      var k := i / MAX_VALIDATORS_TO_UPDATE;
      assert k in order && Covers(ixs[k], i);
    }
    var base := Checked64(end.ledger.reserve - MinimumReserveLamports(end.ledger.reserveRent));
    if base.Some? {
      FreshListHasTotal(base.value, end.validators, end.ledger.epoch, |end.validators|);
    }
  }

  // ----- An epoch update never gets stuck -----

  /** Counting without merging moves no lamports, so nothing can go wrong where no stake was lost. */
  lemma NoMergeRefreshes(l: Ledger, r: ValidatorStakeInfo, m: Mode)
    requires m.lossFree && AccountsOk(l, m) && RecordOk(r, l, m)
    ensures RefreshRecord(l, r, true).Ok?
  {
  }

  lemma {:induction false} NoMergeFromSucceeds(s: State, start: nat, accounts: seq<Address>, k: nat, m: Mode)
    requires m.lossFree && ListInv(s) && LedgerInv(s, m)
    requires start + |accounts| / 2 <= |s.validators| && k <= |accounts| / 2
    ensures RefreshFrom(s.ledger, s.validators, start, accounts, true, k).Ok?
    decreases |accounts| / 2 - k
  {
    if k < |accounts| / 2 {
      var i := start + k;
      if PairMatches(s.validators[i], accounts, k) {
        assert RecordOk(s.validators[i], s.ledger, m);
        NoMergeRefreshes(s.ledger, s.validators[i], m);
        RefreshOneSolvent(s, i, true, m);
        var one := RefreshRecord(s.ledger, s.validators[i], true).value;
        NoMergeFromSucceeds(WithRecord(s, i, one.record).(ledger := one.ledger), start, accounts, k + 1, m);
      } else {
        NoMergeFromSucceeds(s, start, accounts, k + 1, m);
      }
    }
  }

  /** The list updates of a batch keep the pool solvent, in any order. */
  lemma {:induction false} OrderSolvent(s: State, ixs: seq<ListInstruction>, order: seq<nat>, m: Mode)
    requires ListInv(s) && LedgerInv(s, m) && IsBatch(s.validators, ixs)
    requires forall i :: 0 <= i < |order| ==> order[i] < |ixs|
    requires RunInOrder(s, ixs, order).Ok?
    ensures LedgerInv(RunInOrder(s, ixs, order).value, m)
  {
    if |order| > 0 {
      var before, ix := order[..|order| - 1], ixs[order[|order| - 1]];
      OrderSolvent(s, ixs, before, m);
      OrderFreshens(s, ixs, before);
      RefreshFromSolvent(RunInOrder(s, ixs, before).value, ix.start, ix.accounts, ix.noMerge, 0, m);
    }
  }

  /** Where no stake was lost, a batch without merging always succeeds, in any order. */
  lemma {:induction false} NoMergeBatchSucceeds(s: State, ixs: seq<ListInstruction>, order: seq<nat>, m: Mode)
    requires m.lossFree && ListInv(s) && LedgerInv(s, m) && IsBatch(s.validators, ixs)
    requires forall k :: 0 <= k < |ixs| ==> ixs[k].noMerge
    requires forall i :: 0 <= i < |order| ==> order[i] < |ixs|
    ensures RunInOrder(s, ixs, order).Ok?
  {
    if |order| > 0 {
      var before, last := order[..|order| - 1], order[|order| - 1];
      NoMergeBatchSucceeds(s, ixs, before, m);
      OrderFreshens(s, ixs, before);
      var mid := RunInOrder(s, ixs, before).value;
      ChunkLinesUp(s.validators, ixs[last], last);
      OrderSolvent(s, ixs, before, m);
      NoMergeFromSucceeds(mid, ixs[last].start, ixs[last].accounts, 0, m);
    }
  }

  // ----- Merging -----

  /** The transient stake is being deactivated in this very epoch and is to be merged all the same. */
  predicate Stuck(l: Ledger, r: ValidatorStakeInfo) {
    && KeyOf(r) in l.transientStake && l.transientStake[KeyOf(r)].Delegated?
    && MergesIntoValidator(l, r) && l.transientStake[KeyOf(r)].deactivationEpoch == l.epoch
  }

  /** The balances a merge leads to fit 64 bits. */
  predicate Mergeable(l: Ledger, r: ValidatorStakeInfo) {
    KeyOf(r) in l.transientStake && l.transientStake[KeyOf(r)].Delegated? ==>
      var t := l.transientStake[KeyOf(r)];
      && (t.deactivationEpoch < l.epoch ==> l.reserve + t.lamports <= U64_MAX)
      && (MergesIntoValidator(l, r) ==>
            var v := l.validatorStake[r.voteAccountAddress];
            && v.lamports + t.lamports <= U64_MAX && v.stake + t.stake <= U64_MAX
            && l.reserve + SaturatingSub(t.lamports, t.stake) <= U64_MAX)
  }

  /** Exactly when a merging refresh succeeds where no stake was lost. */
  lemma MergeRefreshesExactly(l: Ledger, r: ValidatorStakeInfo, m: Mode)
    requires m.lossFree && AccountsOk(l, m) && RecordOk(r, l, m) && l.epoch < EPOCH_MAX
    ensures RefreshRecord(l, r, false).Ok? <==> !Stuck(l, r) && Mergeable(l, r)
  {
  }

  /** No transient account was deactivated in the current epoch. */
  ghost predicate NoneDeactivatedNow(l: Ledger) {
    l.epoch < EPOCH_MAX && forall k :: k in l.transientStake && l.transientStake[k].Delegated? ==>
      l.transientStake[k].deactivationEpoch != l.epoch
  }

  /** So it is whenever an epoch has just begun. */
  lemma NoneDeactivatedYet(s: State, a: Action, m: Mode)
    requires LedgerInv(s, m) && a.DoAdvanceEpoch? && Apply(s, a).Ok? && a.epoch < EPOCH_MAX
    ensures NoneDeactivatedNow(Apply(s, a).value.ledger)
  {
  }

  /** All the pool's lamports together fit 64 bits, so any balance it can come to does. */
  lemma HeldMeansMergeable(l: Ledger, r: ValidatorStakeInfo, m: Mode)
    requires AccountsOk(l, m) && Held(l) <= U64_MAX
    ensures Mergeable(l, r)
  {
    var key, vote := KeyOf(r), r.voteAccountAddress;
    if key in l.transientStake {
      LamportsLess(l.transientStake.Keys, l.transientStake, key);
      assert AccountOk(l.transientStake[key]);
      if vote in l.validatorStake {
        LamportsLess(l.validatorStake.Keys, l.validatorStake, vote);
        assert AccountOk(l.validatorStake[vote]);
      }
    }
  }

  /** What makes merging safe survives a refresh. */
  lemma StillMerging(l: Ledger, r: ValidatorStakeInfo, noMerge: bool, m: Mode)
    requires AccountsOk(l, m) && RecordOk(r, l, m) && RefreshRecord(l, r, noMerge).Ok? && NoneDeactivatedNow(l)
    ensures
      var l' := RefreshRecord(l, r, noMerge).value.ledger;
      NoneDeactivatedNow(l') && Held(l') == Held(l)
  {
    TransientLookEffect(l, r, noMerge, m);
    TransientLookConserves(l, r, noMerge);
    var look := LookAtTransient(l, r, noMerge).value;
    ValidatorLookConserves(look.ledger, r.voteAccountAddress, look.status);
    RefreshRecordOk(l, r, noMerge, m);
  }

  /** Refreshing cannot fail. */
  ghost predicate Unhindered(l: Ledger, m: Mode) {
    m.lossFree && NoneDeactivatedNow(l) && Held(l) <= U64_MAX
  }

  lemma {:induction false} UnhinderedFromSucceeds(s: State, start: nat, accounts: seq<Address>, noMerge: bool, k: nat,
                                                  m: Mode)
    requires ListInv(s) && LedgerInv(s, m) && Unhindered(s.ledger, m)
    requires start + |accounts| / 2 <= |s.validators| && k <= |accounts| / 2
    ensures RefreshFrom(s.ledger, s.validators, start, accounts, noMerge, k).Ok?
    ensures Unhindered(RefreshFrom(s.ledger, s.validators, start, accounts, noMerge, k).value.ledger, m)
    decreases |accounts| / 2 - k
  {
    if k < |accounts| / 2 {
      var i := start + k;
      if PairMatches(s.validators[i], accounts, k) {
        UnhinderedStep(s, i, noMerge, m);
        var one := RefreshRecord(s.ledger, s.validators[i], noMerge).value;
        RefreshFromMatch(s.ledger, s.validators, start, accounts, noMerge, k, one);
        UnhinderedFromSucceeds(WithRecord(s, i, one.record).(ledger := one.ledger), start, accounts, noMerge, k + 1, m);
      } else {
        UnhinderedFromSucceeds(s, start, accounts, noMerge, k + 1, m);
      }
    }
  }

  lemma UnhinderedStep(s: State, i: nat, noMerge: bool, m: Mode)
    requires ListInv(s) && LedgerInv(s, m) && Unhindered(s.ledger, m) && i < |s.validators|
    ensures RefreshRecord(s.ledger, s.validators[i], noMerge).Ok?
    ensures
      var one := RefreshRecord(s.ledger, s.validators[i], noMerge).value;
      var s' := WithRecord(s, i, one.record).(ledger := one.ledger);
      ListInv(s') && LedgerInv(s', m) && Unhindered(s'.ledger, m)
  {
    assert RecordOk(s.validators[i], s.ledger, m);
    UnhinderedRefreshes(s.ledger, s.validators[i], noMerge, m);
    RefreshOneSolvent(s, i, noMerge, m);
  }

  lemma UnhinderedRefreshes(l: Ledger, r: ValidatorStakeInfo, noMerge: bool, m: Mode)
    requires AccountsOk(l, m) && RecordOk(r, l, m) && Unhindered(l, m)
    ensures RefreshRecord(l, r, noMerge).Ok? && Unhindered(RefreshRecord(l, r, noMerge).value.ledger, m)
  {
    if noMerge {
      NoMergeRefreshes(l, r, m);
    } else {
      HeldMeansMergeable(l, r, m);
      MergeRefreshesExactly(l, r, m);
    }
    StillMerging(l, r, noMerge, m);
  }

  /** Where no stake was lost and nothing was deactivated in the current epoch, a batch always succeeds,
      merging or not, in any order. */
  lemma {:induction false} BatchSucceeds(s: State, ixs: seq<ListInstruction>, order: seq<nat>, m: Mode)
    requires ListInv(s) && LedgerInv(s, m) && IsBatch(s.validators, ixs) && Unhindered(s.ledger, m)
    requires forall i :: 0 <= i < |order| ==> order[i] < |ixs|
    ensures RunInOrder(s, ixs, order).Ok? && Unhindered(RunInOrder(s, ixs, order).value.ledger, m)
  {
    if |order| > 0 {
      var before, last := order[..|order| - 1], order[|order| - 1];
      BatchSucceeds(s, ixs, before, m);
      OrderFreshens(s, ixs, before);
      OrderSolvent(s, ixs, before, m);
      ChunkLinesUp(s.validators, ixs[last], last);
      UnhinderedFromSucceeds(RunInOrder(s, ixs, before).value, ixs[last].start, ixs[last].accounts,
                             ixs[last].noMerge, 0, m);
    }
  }

  function RunFinals(s: State, finals: seq<FinalInstruction>, feeAccountValid: bool): Result<State> {
    if |finals| == 0 then Ok(s)
    else
      var before :- RunFinals(s, finals[..|finals| - 1], feeAccountValid);
      match finals[|finals| - 1]
      case UpdateStakePoolBalance => UpdateStakePool(before, feeAccountValid)
      case CleanupRemovedValidatorEntries => CleanupRemoved(before)
  }

  lemma FinalsInOrder(s: State, feeAccountValid: bool)
    ensures RunFinals(s, [UpdateStakePoolBalance, CleanupRemovedValidatorEntries], feeAccountValid)
         == (var updated :- UpdateStakePool(s, feeAccountValid); CleanupRemoved(updated))
  {
    var both := [UpdateStakePoolBalance, CleanupRemovedValidatorEntries];
    assert both[..1] == [UpdateStakePoolBalance] && both[..1][..0] == [];
    assert RunFinals(s, both[..1][..0], feeAccountValid) == Ok(s);
    assert RunFinals(s, both[..1], feeAccountValid) == UpdateStakePool(s, feeAccountValid);
  }

  /** The whole epoch update, its list updates in any order: it is never stopped by a stale record, and
      if it goes through it leaves a current pool whose books are exact and a list without validators
      waiting to be removed. */
  lemma EpochUpdateCompletes(s: State, ixs: seq<ListInstruction>, order: seq<nat>, feeAccountValid: bool, m: Mode)
    requires ListInv(s) && LedgerInv(s, m) && IsBatch(s.validators, ixs)
    requires forall i :: 0 <= i < |order| ==> order[i] < |ixs|
    requires forall k :: 0 <= k < |ixs| ==> k in order
    requires RunInOrder(s, ixs, order).Ok?
    ensures
      var done := RunFinals(RunInOrder(s, ixs, order).value,
                            [UpdateStakePoolBalance, CleanupRemovedValidatorEntries], feeAccountValid);
      && done != Err(StakeListOutOfDate)
      && (done.Ok? ==>
            && Current(done.value) && Slack(done.value) == 0
            && forall i :: 0 <= i < |done.value.validators| ==> NotRemoved(done.value.validators[i]))
  {
    var end := RunInOrder(s, ixs, order).value;
    BatchMakesPoolUpdatable(s, ixs, order, feeAccountValid);
    OrderSolvent(s, ixs, order, m);
    FinalsInOrder(end, feeAccountValid);
    var updated := UpdateStakePool(end, feeAccountValid);
    if updated.Ok? {
      UpdatePoolSolvent(end, feeAccountValid, m);
      CleanupSum(updated.value.validators, updated.value.ledger, m);
      FilterSatisfies(updated.value.validators);
    }
  }
}
