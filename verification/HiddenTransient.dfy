/** A run that leaves the pool insolvent: lamports sent ahead to a transient address let a withdrawal
    bring the record to zero while the account lives on, and the removal then drops it. */
module HiddenTransient {
  import opened Numbers
  import opened Errors
  import opened Fees
  import opened Records
  import opened BigVecs
  import opened PoolState
  import opened Steps
  import opened ListInvariant
  import opened Solvency
  import opened SolvencySteps
  import opened Runs

  const RENT: u64 := 2_000_000
  const SOL: u64 := 1_000_000_000

  function ExampleSetup(): Setup {
    Setup(Fee(0, 0), Fee(0, 0), Fee(0, 0), 0, 1, 82, 6 * SOL + RENT, RENT, RENT, 0, 10)
  }

  function ExampleRun(vote: Pubkey): seq<Action> {
    [DoAddValidator(vote, 0),
     DoIncrease(vote, SOL, 1, SOL + RENT),
     DoWithdrawStake(FromAccount(TransientStakeAddress(vote, 1)), SOL + RENT, true),
     DoRemoveValidator(vote),
     DoUpdateList(0, [ValidatorStakeAddress(vote), TransientStakeAddress(vote, 1)], true),
     DoUpdatePool(true),
     DoCleanup]
  }

  function Account(lamports: u64, stake: u64): StakeAccount {
    Delegated(lamports, RENT, stake, 10, EPOCH_MAX)
  }

  /** One validator with one record, its accounts, and books that show `total` against `supply`. */
  ghost predicate Looks(s: State, vote: Pubkey, total: u64, supply: u64, reserve: u64, record: ValidatorStakeInfo,
                        validator: Option<StakeAccount>, transient: Option<StakeAccount>) {
    && s.pool.totalLamports == total && s.pool.poolTokenSupply == s.ledger.mintSupply == supply
    && s.pool.lastUpdateEpoch == s.ledger.epoch == 10
    && s.pool.preferredWithdraw == None && s.pool.epochFee == Fee(0, 0)
    && s.ledger.reserve == reserve && s.ledger.reserveRent == s.ledger.stakeRent == RENT
    && s.validators == [record] && record.voteAccountAddress == vote
    && s.ledger.validatorStake == (if validator.None? then map[] else map[vote := validator.value])
    && s.ledger.transientStake == (if transient.None? then map[] else map[TransientKey(vote, 1) := transient.value])
  }

  lemma Adding(vote: Pubkey)
    ensures Initialize(ExampleSetup()).Ok?
    ensures Looks(Next(Initialize(ExampleSetup()).value, ExampleRun(vote)[0]), vote, 5 * SOL, 5 * SOL, 6 * SOL + RENT,
                  ValidatorStakeInfo(0, 0, 10, 0, 0, Active, vote), Some(Account(SOL + RENT, SOL)), None)
  {
  }

  lemma Increasing(s: State, vote: Pubkey)
    requires Looks(s, vote, 5 * SOL, 5 * SOL, 6 * SOL + RENT, ValidatorStakeInfo(0, 0, 10, 0, 0, Active, vote),
                   Some(Account(SOL + RENT, SOL)), None)
    ensures Looks(Next(s, ExampleRun(vote)[1]), vote, 5 * SOL, 5 * SOL, 5 * SOL,
                  ValidatorStakeInfo(0, SOL + RENT, 10, 1, 0, Active, vote),
                  Some(Account(SOL + RENT, SOL)), Some(Account(2 * SOL + 2 * RENT, 2 * SOL + RENT)))
  {
  }

  lemma Withdrawing(s: State, vote: Pubkey)
    requires Looks(s, vote, 5 * SOL, 5 * SOL, 5 * SOL, ValidatorStakeInfo(0, SOL + RENT, 10, 1, 0, Active, vote),
                   Some(Account(SOL + RENT, SOL)), Some(Account(2 * SOL + 2 * RENT, 2 * SOL + RENT)))
    ensures Looks(Next(s, ExampleRun(vote)[2]), vote, 4 * SOL - RENT, 4 * SOL - RENT, 5 * SOL,
                  ValidatorStakeInfo(0, 0, 10, 1, 0, Active, vote),
                  Some(Account(SOL + RENT, SOL)), Some(Account(SOL + RENT, SOL)))
  {
  }

  lemma Removing(s: State, vote: Pubkey)
    requires Looks(s, vote, 4 * SOL - RENT, 4 * SOL - RENT, 5 * SOL, ValidatorStakeInfo(0, 0, 10, 1, 0, Active, vote),
                   Some(Account(SOL + RENT, SOL)), Some(Account(SOL + RENT, SOL)))
    ensures Looks(Next(s, ExampleRun(vote)[3]), vote, 4 * SOL - RENT, 4 * SOL - RENT, 5 * SOL,
                  ValidatorStakeInfo(0, 0, 10, 1, 0, ReadyForRemoval, vote), None, Some(Account(SOL + RENT, SOL)))
    ensures !CleanRemoval(s, vote)
  {
  }

  lemma Counting(s: State, vote: Pubkey)
    requires Looks(s, vote, 4 * SOL - RENT, 4 * SOL - RENT, 5 * SOL,
                   ValidatorStakeInfo(0, 0, 10, 1, 0, ReadyForRemoval, vote), None, Some(Account(SOL + RENT, SOL)))
    ensures Looks(Next(s, ExampleRun(vote)[4]), vote, 4 * SOL - RENT, 4 * SOL - RENT, 5 * SOL,
                  ValidatorStakeInfo(0, SOL + RENT, 10, 1, 0, ReadyForRemoval, vote),
                  None, Some(Account(SOL + RENT, SOL)))
  {
    var accounts := ExampleRun(vote)[4].accounts;
    assert PairMatches(s.validators[0], accounts, 0);
    var one := RefreshRecord(s.ledger, s.validators[0], true).value;
    assert RefreshFrom(one.ledger, [one.record], 0, accounts, true, 1) == Ok(Listed(one.ledger, [one.record]));
    assert s.validators[0 := one.record] == [one.record];
  }

  lemma Booking(s: State, vote: Pubkey)
    requires Looks(s, vote, 4 * SOL - RENT, 4 * SOL - RENT, 5 * SOL,
                   ValidatorStakeInfo(0, SOL + RENT, 10, 1, 0, ReadyForRemoval, vote),
                   None, Some(Account(SOL + RENT, SOL)))
    ensures Looks(Next(s, ExampleRun(vote)[5]), vote, 5 * SOL, 4 * SOL - RENT, 5 * SOL,
                  ValidatorStakeInfo(0, SOL + RENT, 10, 1, 0, ReadyForRemoval, vote),
                  None, Some(Account(SOL + RENT, SOL)))
  {
    assert FreshTotal(4 * SOL - RENT, s.validators, 10, 0) == Ok(4 * SOL - RENT);
    assert FreshTotal(4 * SOL - RENT, s.validators, 10, 1) == Ok(5 * SOL);
  }

  lemma Dropping(s: State, vote: Pubkey)
    requires Looks(s, vote, 5 * SOL, 4 * SOL - RENT, 5 * SOL,
                   ValidatorStakeInfo(0, SOL + RENT, 10, 1, 0, ReadyForRemoval, vote),
                   None, Some(Account(SOL + RENT, SOL)))
    ensures Current(Next(s, DoCleanup)) && Slack(Next(s, DoCleanup)) == -(SOL + RENT)
  {
    assert s.validators[..0] == [];
    assert Filter(NotRemoved, s.validators) == [];
  }

  /** Solvency does not hold of every run: this one, in which no stake is lost, ends with a current
      pool that owes more than it has recorded. */
  lemma HiddenTransientBreaksSolvency(vote: Pubkey)
    ensures Initialize(ExampleSetup()).Ok?
    ensures
      var s := Run(Initialize(ExampleSetup()).value, ExampleRun(vote));
      Current(s) && Slack(s) < 0
  {
    Adding(vote);
    var s0, actions := Initialize(ExampleSetup()).value, ExampleRun(vote);
    assert actions[..0] == [] && actions[..7] == actions;
    RunStep(s0, actions, 0);
    RunStep(s0, actions, 1);
    Increasing(Run(s0, actions[..1]), vote);
    RunStep(s0, actions, 2);
    Withdrawing(Run(s0, actions[..2]), vote);
    RunStep(s0, actions, 3);
    Removing(Run(s0, actions[..3]), vote);
    RunStep(s0, actions, 4);
    Counting(Run(s0, actions[..4]), vote);
    RunStep(s0, actions, 5);
    Booking(Run(s0, actions[..5]), vote);
    RunStep(s0, actions, 6);
    Dropping(Run(s0, actions[..6]), vote);
  }

  // ----- Exactly when a removal is safe -----

  /** The record of the validator and the address its transient account would be at. */
  function RecordOf(s: State, vote: Pubkey): ValidatorStakeInfo
    requires FindVote(s.validators, vote).Some?
  {
    s.validators[FindVote(s.validators, vote).value]
  }

  /** The rent and stake in the transient account the record points at. */
  function HiddenWorth(s: State, vote: Pubkey): nat {
    if FindVote(s.validators, vote).None? then 0
    else
      var key := KeyOf(RecordOf(s, vote));
      if key in s.ledger.transientStake && s.ledger.transientStake[key].Delegated?
      then s.ledger.transientStake[key].rent + s.ledger.transientStake[key].stake else 0
  }

  /** The lamports the reserve lacks to its minimum. */
  function Shortfall(s: State): u64 {
    SaturatingSub(MinimumReserveLamports(s.ledger.reserveRent), s.ledger.reserve)
  }

  /** The list update that counts the account a record points at, without merging it. */
  function CountOne(r: ValidatorStakeInfo, i: u32): Action {
    DoUpdateList(i, [ValidatorStakeAddress(r.voteAccountAddress),
                     TransientStakeAddress(r.voteAccountAddress, r.transientSeedSuffixStart)], true)
  }

  /** What shows that a removal was not safe: the hidden account is counted, booked, and its record
      dropped. A reserve below its minimum must be filled up first, or nothing can be booked. */
  function Exposing(s: State, vote: Pubkey): seq<Action>
    requires FindVote(s.validators, vote).Some? && FindVote(s.validators, vote).value <= U32_MAX
  {
    var i := FindVote(s.validators, vote).value;
    (if Shortfall(s) == 0 then [] else [DoDonateToReserve(Shortfall(s))])
    + [CountOne(s.validators[i], i), DoUpdatePool(false), DoCleanup]
  }

  /** The sum without one record, in a list whose other records hold nothing when they are removed. */
  lemma {:induction false} CleanupSumExcept(v: seq<ValidatorStakeInfo>, i: nat)
    requires i < |v| && v[i].status == ReadyForRemoval
    requires forall j :: 0 <= j < |v| && j != i && v[j].status == ReadyForRemoval ==> StakeLamports(v[j]) == 0
    ensures StakeSum(Filter(NotRemoved, v)) == StakeSum(v) - StakeLamports(v[i])
  {
    var front, last := v[..|v| - 1], v[|v| - 1];
    if i < |front| {
      CleanupSumExcept(front, i);
    } else {
      CleanupSumNone(front);
    }
    StakeSumAppend(Filter(NotRemoved, front), last);
  }

  lemma {:induction false} CleanupSumNone(v: seq<ValidatorStakeInfo>)
    requires forall j :: 0 <= j < |v| && v[j].status == ReadyForRemoval ==> StakeLamports(v[j]) == 0
    ensures StakeSum(Filter(NotRemoved, v)) == StakeSum(v)
  {
    if |v| > 0 {
      CleanupSumNone(v[..|v| - 1]);
      StakeSumAppend(Filter(NotRemoved, v[..|v| - 1]), v[|v| - 1]);
    }
  }

  /** A state in which only the record at `i` is about to be removed with something left in it. */
  ghost predicate Dropped(s: State, i: nat) {
    && i < |s.validators| && s.validators[i].status == ReadyForRemoval
    && (forall j :: 0 <= j < |s.validators| ==> s.validators[j].lastUpdateEpoch >= s.ledger.epoch)
    && (forall j :: 0 <= j < |s.validators| && j != i && s.validators[j].status == ReadyForRemoval ==>
          StakeLamports(s.validators[j]) == 0)
  }

  /** After the removal the record shows nothing, and its account is still there. */
  lemma RemovingHidden(s: State, vote: Pubkey, m: Mode)
    requires ListInv(s) && LedgerInv(s, m) && RemoveValidator(s, vote).Ok? && !CleanRemoval(s, vote)
    ensures
      var s', i := RemoveValidator(s, vote).value, FindVote(s.validators, vote).value;
      && Dropped(s', i) && StakeLamports(s'.validators[i]) == 0
      && s'.validators[i].voteAccountAddress == vote && KeyOf(s'.validators[i]) == KeyOf(s.validators[i])
      && StakeSum(s'.validators) == StakeSum(s.validators)
      && vote !in s'.ledger.validatorStake && s'.ledger.transientStake == s.ledger.transientStake
      && s'.ledger.reserve == s.ledger.reserve && s'.ledger.reserveRent == s.ledger.reserveRent
  {
    var s', i := RemoveValidator(s, vote).value, FindVote(s.validators, vote).value;
    forall j | 0 <= j < |s.validators|
      ensures s.validators[j].lastUpdateEpoch == s.ledger.epoch && RecordOk(s.validators[j], s.ledger, m)
    {
      CurrentMeansFresh(s, j);
    }
    StakeSumUpdate(s.validators, i, s'.validators[i]);
  }

  /** Counting the hidden account, without merging it. */
  lemma CountingHidden(s: State, i: u32, m: Mode)
    requires Dropped(s, i) && StakeLamports(s.validators[i]) == 0 && AccountsOk(s.ledger, m)
    requires s.validators[i].voteAccountAddress !in s.ledger.validatorStake
    requires KeyOf(s.validators[i]) in s.ledger.transientStake
    ensures
      var r, s' := s.validators[i], Next(s, CountOne(s.validators[i], i));
      var account := s.ledger.transientStake[KeyOf(r)];
      && s'.ledger == s.ledger && Dropped(s', i)
      && StakeLamports(s'.validators[i]) == account.rent + account.stake
      && StakeSum(s'.validators) == StakeSum(s.validators) + account.rent + account.stake
  {
    var r, accounts := s.validators[i], CountOne(s.validators[i], i).accounts;
    assert PairMatches(r, accounts, 0);
    assert AccountOk(s.ledger.transientStake[KeyOf(r)]);
    var one := RefreshRecord(s.ledger, r, true).value;
    var v' := s.validators[i := one.record];
    assert RefreshFrom(one.ledger, v', i, accounts, true, 1) == Ok(Listed(one.ledger, v'));
    assert RefreshFrom(s.ledger, s.validators, i, accounts, true, 0) == Ok(Listed(s.ledger, v'));
    StakeSumUpdate(s.validators, i, one.record);
  }

  /** Booking what has been counted, and dropping the record. */
  lemma BookingHidden(s: State, i: nat)
    requires Dropped(s, i) && s.ledger.reserve >= MinimumReserveLamports(s.ledger.reserveRent)
    requires s.ledger.reserve - MinimumReserveLamports(s.ledger.reserveRent) + StakeSum(s.validators) <= U64_MAX
    ensures
      var s' := Next(Next(s, DoUpdatePool(false)), DoCleanup);
      Current(s') && Slack(s') + StakeLamports(s.validators[i]) == 0
  {
    BookingEverything(s);
    var booked := UpdateStakePool(s, false).value;
    assert Next(s, DoUpdatePool(false)) == booked;
    DroppingHidden(booked, i);
  }

  /** Dropping a record takes what it shows off the pool's assets, not off its books. */
  lemma DroppingHidden(s: State, i: nat)
    requires i < |s.validators| && s.validators[i].status == ReadyForRemoval
    requires forall j :: 0 <= j < |s.validators| && j != i && s.validators[j].status == ReadyForRemoval ==>
      StakeLamports(s.validators[j]) == 0
    ensures Slack(Next(s, DoCleanup)) + StakeLamports(s.validators[i]) == Slack(s)
    ensures Current(Next(s, DoCleanup)) <==> Current(s)
  {
    CleanupSumExcept(s.validators, i);
  }

  lemma BookingEverything(s: State)
    requires s.ledger.reserve >= MinimumReserveLamports(s.ledger.reserveRent)
    requires s.ledger.reserve - MinimumReserveLamports(s.ledger.reserveRent) + StakeSum(s.validators) <= U64_MAX
    requires forall j :: 0 <= j < |s.validators| ==> s.validators[j].lastUpdateEpoch >= s.ledger.epoch
    ensures UpdateStakePool(s, false).Ok?
    ensures
      var s' := UpdateStakePool(s, false).value;
      Current(s') && Slack(s') == 0 && s'.validators == s.validators
  {
    var base := s.ledger.reserve - MinimumReserveLamports(s.ledger.reserveRent);
    assert s.validators[..|s.validators|] == s.validators;
    FreshTotalSucceeds(base, s.validators, s.ledger.epoch, |s.validators|);
  }

  lemma ThreeSteps(s: State, first: seq<Action>, a: Action, b: Action, c: Action)
    ensures Run(s, first + [a, b, c]) == Next(Next(Next(Run(s, first), a), b), c)
  {
    var actions, n := first + [a, b, c], |first|;
    assert actions[..n] == first && actions[..n + 3] == actions;
    RunStep(s, actions, n);
    RunStep(s, actions, n + 1);
    RunStep(s, actions, n + 2);
  }

  lemma FillingUp(s: State, gift: u64)
    requires s.ledger.reserve + gift <= U64_MAX
    ensures Run(s, if gift == 0 then [] else [DoDonateToReserve(gift)])
         == s.(ledger := s.ledger.(reserve := s.ledger.reserve + gift))
  {
    if gift > 0 {
      OneStep(s, DoDonateToReserve(gift));
    }
  }

  /** What the pool would book, with the hidden account and a reserve at its minimum or above, fits. */
  ghost predicate Bookable(s: State, vote: Pubkey) {
    s.ledger.reserve + Shortfall(s) - MinimumReserveLamports(s.ledger.reserveRent) + StakeSum(s.validators)
    + HiddenWorth(s, vote) <= U64_MAX
  }

  /** Every removal that hides a transient account can be followed by steps anybody may take, after
      which the pool is current and owes more than it has: by what was hidden. */
  lemma HiddenRemovalBreaksSolvency(s: State, vote: Pubkey, m: Mode)
    requires ListInv(s) && LedgerInv(s, m) && RemoveValidator(s, vote).Ok?
    requires !CleanRemoval(s, vote) && Bookable(s, vote)
    ensures FindVote(s.validators, vote).Some? && FindVote(s.validators, vote).value <= U32_MAX
    ensures
      var end := Run(RemoveValidator(s, vote).value, Exposing(s, vote));
      Current(end) && Slack(end) + HiddenWorth(s, vote) == 0
    ensures s.ledger.stakeRent > 0 ==> HiddenWorth(s, vote) > 0
  {
    var s', i := RemoveValidator(s, vote).value, FindVote(s.validators, vote).value;
    var gift := Shortfall(s);
    RemovingHidden(s, vote, m);
    FillingUp(s', gift);
    var filled := s'.(ledger := s'.ledger.(reserve := s'.ledger.reserve + gift));
    CountingHidden(filled, i, m);
    BookingHidden(Next(filled, CountOne(filled.validators[i], i)), i);
    ThreeSteps(s', if gift == 0 then [] else [DoDonateToReserve(gift)],
               CountOne(s.validators[i], i), DoUpdatePool(false), DoCleanup);
  }

  lemma ExposingAdmitted(s: State, s': State, vote: Pubkey, m: Mode)
    requires FindVote(s.validators, vote).Some? && FindVote(s.validators, vote).value <= U32_MAX
    requires m.undonated ==> Shortfall(s) == 0
    ensures AllAdmitted(s', Exposing(s, vote), m)
  {
    var actions := Exposing(s, vote);
    forall i | 0 <= i < |actions|
      ensures Admits(m, Run(s', actions[..i]), actions[i])
    {
      assert actions[i].DoDonateToReserve? ==> Shortfall(s) != 0;
    }
  }

  /** No continuation that the mode admits leaves a current pool owing more than it has. */
  ghost predicate Safe(s: State, m: Mode) {
    forall actions :: AllAdmitted(s, actions, m) ==> SolventWhenCurrent(Run(s, actions))
  }

  lemma InvariantIsSafe(s: State, m: Mode)
    requires ListInv(s) && LedgerInv(s, m)
    ensures Safe(s, m)
  {
    forall actions | AllAdmitted(s, actions, m)
      ensures SolventWhenCurrent(Run(s, actions))
    {
      LedgerOverRuns(s, actions, m);
    }
  }

  lemma ExposedIsUnsafe(s: State, actions: seq<Action>, m: Mode)
    requires AllAdmitted(s, actions, m) && !SolventWhenCurrent(Run(s, actions))
    ensures !Safe(s, m)
  {
  }

  /** Exactly when a removal is safe: when the record does not hide a transient account. */
  lemma RemovalSafeExactly(s: State, vote: Pubkey, m: Mode)
    requires ListInv(s) && LedgerInv(s, m) && RemoveValidator(s, vote).Ok?
    requires Bookable(s, vote) && s.ledger.stakeRent > 0 && (m.undonated ==> Shortfall(s) == 0)
    ensures Safe(RemoveValidator(s, vote).value, m) <==> CleanRemoval(s, vote)
  {
    var s' := RemoveValidator(s, vote).value;
    if CleanRemoval(s, vote) {
      RemoveSolvent(s, vote, m);
      RemoveKeepsListInv(s, vote);
      InvariantIsSafe(s', m);
    } else {
      HiddenRemovalBreaksSolvency(s, vote, m);
      ExposingAdmitted(s, s', vote, m);
      ExposedIsUnsafe(s', Exposing(s, vote), m);
    }
  }

  ghost predicate SolventWhenCurrent(s: State) {
    Current(s) ==> Slack(s) >= 0
  }
}
