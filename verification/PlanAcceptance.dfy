/** When the program accepts the withdrawals of a plan. The planner passes over accounts at or below its
    minimum balance, but the program wants active stake used up before transient stake and both before
    the reserve, so a plan can ask for something whose turn has not come. */
module PlanAcceptance {
  import opened Numbers
  import opened Errors
  import opened Fees
  import opened Pricing
  import opened Records
  import opened PoolState
  import opened Steps
  import opened ListInvariant
  import opened Solvency
  import opened SolvencySteps
  import opened SupplyInvariant
  import opened Runs
  import opened WithdrawPlanner
  import opened HiddenTransient

  /** The lamports the client lists for a source: what the record shows, and for a transient account
      only what lies above the minimum that must stay in it. */
  function Listed(s: State, source: Source, minBalance: u64): u64 {
    match source
    case FromReserve => SaturatingSub(s.ledger.reserve, MinimumReserveLamports(s.ledger.reserveRent))
    case FromAccount(OtherAddress(_)) => 0
    case FromAccount(ValidatorStakeAddress(vote)) =>
      var found := FindVote(s.validators, vote);
      if found.None? then 0 else s.validators[found.value].activeStakeLamports
    case FromAccount(TransientStakeAddress(vote, seed)) =>
      var found := FindVote(s.validators, vote);
      if found.None? || s.validators[found.value].transientSeedSuffixStart != seed then 0
      else SaturatingSub(s.validators[found.value].transientStakeLamports, minBalance)
  }

  /** The source's turn has come: active stake is taken first, a preferred validator's before any other,
      then transient stake of validators that stay, and the reserve last. */
  predicate InTurn(s: State, source: Source) {
    match source
    case FromReserve => !HasActiveStake(s.validators) && !HasTransientStake(s.validators)
    case FromAccount(OtherAddress(_)) => false
    case FromAccount(ValidatorStakeAddress(vote)) => CheckPreferred(s, vote).Ok?
    case FromAccount(TransientStakeAddress(vote, _)) =>
      var found := FindVote(s.validators, vote);
      !HasActiveStake(s.validators) && found.Some? && s.validators[found.value].status == Active
  }

  /** What is known of a pool in which a plan is carried out. */
  ghost predicate Sound(s: State, m: Mode) {
    ListInv(s) && LedgerInv(s, m) && Current(s) && SupplyInv(s, false)
  }

  /** The withdrawal has a price and burns tokens that exist. */
  ghost predicate PricedAt(s: State, tokens: u64, exempt: bool, w: Withdrawal) {
    && PriceWithdrawal(s.pool, s.pool.stakeWithdrawalFee, tokens, exempt) == Ok(w)
    && w.burnt <= s.ledger.mintSupply
  }

  /** The books can always be debited for tokens that exist. */
  lemma DebitSucceeds(s: State, tokens: u64, exempt: bool, w: Withdrawal)
    requires SupplyInv(s, false) && PricedAt(s, tokens, exempt, w)
    ensures Debit(s, w).Ok?
  {
    RedemptionWithinTotal(s.pool.totalLamports, s.pool.poolTokenSupply, w.burnt);
  }

  lemma ActiveAccepted(s: State, vote: Pubkey, w: Withdrawal, i: nat, m: Mode)
    requires ListInv(s) && LedgerInv(s, m) && Current(s) && Debit(s, w).Ok?
    requires FindVote(s.validators, vote) == Some(i) && 0 < w.lamports <= s.validators[i].activeStakeLamports
    ensures WithdrawFromAccount(s, w, ValidatorStakeAddress(vote)).Ok? <==> CheckPreferred(s, vote).Ok?
  {
    CurrentMeansFresh(s, i);
    assert RecordOk(s.validators[i], s.ledger, m);
    assert HasActiveStake(s.validators);
  }

  lemma TransientAccepted(s: State, vote: Pubkey, w: Withdrawal, i: nat, m: Mode)
    requires ListInv(s) && LedgerInv(s, m) && Current(s) && Debit(s, w).Ok?
    requires FindVote(s.validators, vote) == Some(i) && 0 < w.lamports
    requires w.lamports + s.ledger.stakeRent + MINIMUM_ACTIVE_STAKE <= s.validators[i].transientStakeLamports
    ensures WithdrawFromAccount(s, w, TransientStakeAddress(vote, s.validators[i].transientSeedSuffixStart)).Ok?
       <==> !HasActiveStake(s.validators) && s.validators[i].status == Active
  {
    CurrentMeansFresh(s, i);
    assert RecordOk(s.validators[i], s.ledger, m);
    if !HasActiveStake(s.validators) {
      NoPreferenceLeft(s, vote);
    }
  }

  /** Without active stake no preferred validator stands in the way. */
  lemma NoPreferenceLeft(s: State, vote: Pubkey)
    requires ListInv(s) && !HasActiveStake(s.validators)
    ensures CheckPreferred(s, vote).Ok?
  {
    if s.pool.preferredWithdraw.Some? {
      var r :| r in s.validators && r.voteAccountAddress == s.pool.preferredWithdraw.value && r.status == Active;
      assert FindVote(s.validators, s.pool.preferredWithdraw.value).Some?;
    }
  }

  lemma ReserveAccepted(s: State, w: Withdrawal, m: Mode)
    requires LedgerInv(s, m) && Current(s) && Debit(s, w).Ok?
    ensures WithdrawFromReserve(s, w).Ok? <==> InTurn(s, FromReserve)
  {
    if InTurn(s, FromReserve) {
      StakeSumZero(s.validators);
    }
  }

  /** A withdrawal within what the client lists is accepted exactly when its turn has come. */
  lemma AcceptedExactly(s: State, source: Source, tokens: u64, exempt: bool, w: Withdrawal, m: Mode)
    requires Sound(s, m) && PricedAt(s, tokens, exempt, w)
    requires w.lamports <= Listed(s, source, MinimumStakeLamports(s.ledger.stakeRent))
    ensures WithdrawStake(s, source, tokens, exempt).Ok? <==> InTurn(s, source)
  {
    DebitSucceeds(s, tokens, exempt, w);
    match source
    case FromReserve => ReserveAccepted(s, w, m);
    case FromAccount(ValidatorStakeAddress(vote)) =>
      ActiveAccepted(s, vote, w, FindVote(s.validators, vote).value, m);
    case FromAccount(TransientStakeAddress(vote, seed)) =>
      TransientAccepted(s, vote, w, FindVote(s.validators, vote).value, m);
  }

  // ----- While a plan runs -----

  lemma RequestsAdmitted(s: State, plan: seq<WithdrawAccount>, exempt: bool, k: nat, m: Mode)
    requires k <= |plan|
    ensures AllAdmitted(s, Requests(plan, exempt)[..k], m) && Unburnt(Requests(plan, exempt)[..k])
  {
  }

  /** What no withdrawal touches, and how many tokens it burns at most. */
  ghost predicate KeepsClock(s: State, s': State, tokens: u64) {
    && (Current(s') <==> Current(s)) && s'.ledger.stakeRent == s.ledger.stakeRent
    && s.ledger.mintSupply <= s'.ledger.mintSupply + tokens
  }

  lemma AccountWithdrawalKeepsClock(s: State, w: Withdrawal, a: Address)
    requires WithdrawFromAccount(s, w, a).Ok?
    ensures KeepsClock(s, WithdrawFromAccount(s, w, a).value, w.burnt)
  {
  }

  lemma WithdrawalKeepsClock(s: State, source: Source, tokens: u64, exempt: bool, s': State)
    requires s' == Next(s, DoWithdrawStake(source, tokens, exempt))
    ensures KeepsClock(s, s', tokens)
  {
    if WithdrawStake(s, source, tokens, exempt).Ok? {
      var w := PriceWithdrawal(s.pool, s.pool.stakeWithdrawalFee, tokens, exempt).value;
      match source
      case FromReserve =>
      case FromAccount(a) => AccountWithdrawalKeepsClock(s, w, a);
    }
  }

  /** The pool is as current as before, and only the tokens of the first `k` entries have gone. */
  ghost predicate ClockKept(s: State, plan: seq<WithdrawAccount>, exempt: bool, k: nat)
    requires k <= |plan|
  {
    var t := After(s, plan, exempt, k);
    && Current(t) && t.ledger.stakeRent == s.ledger.stakeRent
    && s.ledger.mintSupply <= t.ledger.mintSupply + PlannedTokens(plan[..k])
  }

  ghost function ClockSeries(s: State, plan: seq<WithdrawAccount>, exempt: bool): (r: seq<bool>)
    ensures |r| == |plan| + 1 && forall k :: 0 <= k <= |plan| ==> r[k] == ClockKept(s, plan, exempt, k)
  {
    seq(|plan| + 1, k requires 0 <= k <= |plan| => ClockKept(s, plan, exempt, k))
  }

  lemma ClockStep(s: State, plan: seq<WithdrawAccount>, exempt: bool, k: nat)
    requires k < |plan| && ClockSeries(s, plan, exempt)[k]
    ensures ClockSeries(s, plan, exempt)[k + 1]
  {
    AfterStep(s, plan, exempt, k);
    WithdrawalKeepsClock(After(s, plan, exempt, k), plan[k].source, plan[k].poolAmount, exempt,
                         After(s, plan, exempt, k + 1));
    assert plan[..k + 1][..k] == plan[..k];
  }

  lemma ClockStart(s: State, plan: seq<WithdrawAccount>, exempt: bool)
    requires Current(s)
    ensures ClockSeries(s, plan, exempt)[0]
  {
    NothingDone(s, plan, exempt);
  }

  lemma ClockAfter(s: State, plan: seq<WithdrawAccount>, exempt: bool, k: nat)
    requires k <= |plan| && Current(s)
    ensures ClockSeries(s, plan, exempt)[k]
  {
    var series := ClockSeries(s, plan, exempt);
    ClockStart(s, plan, exempt);
    forall j | 0 <= j < k && series[j]
      ensures series[j + 1]
    {
      ClockStep(s, plan, exempt, j);
    }
    HoldsUpTo(series, k);
  }

  /** What a plan leaves as it was: the pool is current, and only its own tokens have gone. */
  lemma CurrentAfter(s: State, plan: seq<WithdrawAccount>, exempt: bool, k: nat)
    requires k <= |plan| && Current(s)
    ensures ClockKept(s, plan, exempt, k)
  {
    ClockAfter(s, plan, exempt, k);
  }

  lemma SoundAfter(s: State, plan: seq<WithdrawAccount>, exempt: bool, k: nat, m: Mode)
    requires k <= |plan| && Sound(s, m)
    ensures Sound(After(s, plan, exempt, k), m)
  {
    var actions := Requests(plan, exempt)[..k];
    RequestsAdmitted(s, plan, exempt, k, m);
    ListOverRuns(s, actions);
    LedgerOverRuns(s, actions, m);
    SupplyOverRuns(s, actions, false);
    CurrentAfter(s, plan, exempt, k);
  }

  /** Record by record, `v'` differs from `v` at most in lamports. */
  ghost predicate SameAddresses(v: seq<ValidatorStakeInfo>, v': seq<ValidatorStakeInfo>) {
    && |v'| == |v|
    && forall i :: 0 <= i < |v| ==>
         && v'[i].voteAccountAddress == v[i].voteAccountAddress
         && v'[i].transientSeedSuffixStart == v[i].transientSeedSuffixStart
  }

  lemma FoundWhereItWas(v: seq<ValidatorStakeInfo>, v': seq<ValidatorStakeInfo>, vote: Pubkey)
    requires SameAddresses(v, v')
    ensures FindVote(v', vote) == FindVote(v, vote)
  {
  }

  /** Record `i` is the one an address is derived from. */
  predicate BelongsTo(v: seq<ValidatorStakeInfo>, a: Address, i: nat) {
    !a.OtherAddress? && FindVote(v, a.vote) == Some(i)
  }

  /** Of everything that is listed, at most the amount behind this address has changed. */
  ghost predicate OneAmountChanged(s: State, s': State, a: Address) {
    && s'.ledger.reserve == s.ledger.reserve && s'.ledger.reserveRent == s.ledger.reserveRent
    && SameAddresses(s.validators, s'.validators)
    && (forall i :: 0 <= i < |s.validators| ==>
          || (a.ValidatorStakeAddress? && BelongsTo(s.validators, a, i))
          || s'.validators[i].activeStakeLamports == s.validators[i].activeStakeLamports)
    && (forall i :: 0 <= i < |s.validators| ==>
          || (a.TransientStakeAddress? && BelongsTo(s.validators, a, i)
              && a.seed == s.validators[i].transientSeedSuffixStart)
          || s'.validators[i].transientStakeLamports == s.validators[i].transientStakeLamports)
  }

  lemma WithdrawalChangesOneAmount(s: State, a: Address, w: Withdrawal)
    requires WithdrawFromAccount(s, w, a).Ok?
    ensures OneAmountChanged(s, WithdrawFromAccount(s, w, a).value, a)
  {
  }

  lemma AmountUntouched(s: State, s': State, a: Address, other: Source, minBalance: u64)
    requires other != FromAccount(a) && OneAmountChanged(s, s', a)
    ensures Listed(s', other, minBalance) == Listed(s, other, minBalance)
  {
    if other.FromAccount? && !other.address.OtherAddress? {
      FoundWhereItWas(s.validators, s'.validators, other.address.vote);
    }
  }

  lemma AccountWithdrawalUntouched(s: State, a: Address, w: Withdrawal, other: Source, minBalance: u64)
    requires other != FromAccount(a) && WithdrawFromAccount(s, w, a).Ok?
    ensures Listed(WithdrawFromAccount(s, w, a).value, other, minBalance) == Listed(s, other, minBalance)
  {
    WithdrawalChangesOneAmount(s, a, w);
    AmountUntouched(s, WithdrawFromAccount(s, w, a).value, a, other, minBalance);
  }

  lemma ReserveWithdrawalUntouched(s: State, w: Withdrawal, other: Source, minBalance: u64)
    requires other != FromReserve && WithdrawFromReserve(s, w).Ok?
    ensures Listed(WithdrawFromReserve(s, w).value, other, minBalance) == Listed(s, other, minBalance)
  {
  }

  /** A withdrawal leaves what is listed for every other source alone. */
  lemma ListedUntouched(s: State, source: Source, tokens: u64, exempt: bool, other: Source, minBalance: u64,
                        s': State)
    requires other != source && s' == Next(s, DoWithdrawStake(source, tokens, exempt))
    ensures Listed(s', other, minBalance) == Listed(s, other, minBalance)
  {
    if WithdrawStake(s, source, tokens, exempt).Ok? {
      var w := PriceWithdrawal(s.pool, s.pool.stakeWithdrawalFee, tokens, exempt).value;
      match source
      case FromReserve => ReserveWithdrawalUntouched(s, w, other, minBalance);
      case FromAccount(a) => AccountWithdrawalUntouched(s, a, w, other, minBalance);
    }
  }

  lemma {:induction false} ListedAfter(s: State, plan: seq<WithdrawAccount>, exempt: bool, k: nat, other: Source,
                                       minBalance: u64)
    requires k <= |plan| && forall j :: 0 <= j < k ==> plan[j].source != other
    ensures Listed(After(s, plan, exempt, k), other, minBalance) == Listed(s, other, minBalance)
  {
    if k == 0 {
      NothingDone(s, plan, exempt);
    } else {
      ListedAfter(s, plan, exempt, k - 1, other, minBalance);
      AfterStep(s, plan, exempt, k - 1);
      ListedUntouched(After(s, plan, exempt, k - 1), plan[k - 1].source, plan[k - 1].poolAmount, exempt, other,
                      minBalance, After(s, plan, exempt, k));
    }
  }

  /** The client's listings are those of this state, one for each source. */
  ghost predicate ListsState(s: State, accounts: seq<Listing>, minBalance: u64) {
    && DistinctSources(accounts)
    && forall i :: 0 <= i < |accounts| ==> accounts[i].lamports == Listed(s, accounts[i].source, minBalance)
  }

  lemma {:induction false} PlannedGrows(plan: seq<WithdrawAccount>, k: nat)
    requires k <= |plan|
    ensures PlannedTokens(plan[..k]) <= PlannedTokens(plan)
  {
    if k == |plan| {
      assert plan[..k] == plan;
    } else {
      var front := plan[..|plan| - 1];
      assert front[..k] == plan[..k];
      PlannedGrows(front, k);
    }
  }

  /** Nothing the plan did before touched what is listed for entry `k`. */
  lemma StillListed(s: State, accounts: seq<Listing>, minBalance: u64, skipFee: bool,
                    plan: seq<WithdrawAccount>, picks: seq<nat>, k: nat)
    requires Draws(s.pool, accounts, minBalance, skipFee, plan, picks) && k < |plan|
    requires ListsState(s, accounts, minBalance)
    ensures Listed(After(s, plan, skipFee, k), plan[k].source, minBalance) == accounts[picks[k]].lamports
  {
    SourcesPicked(s.pool, accounts, minBalance, skipFee, plan, picks);
    assert plan[k].source == accounts[picks[k]].source;
    ListedAfter(s, plan, skipFee, k, plan[k].source, minBalance);
  }

  lemma TokensStillThere(s: State, plan: seq<WithdrawAccount>, exempt: bool, k: nat)
    requires k < |plan| && Current(s) && PlannedTokens(plan) <= s.ledger.mintSupply
    ensures plan[k].poolAmount <= After(s, plan, exempt, k).ledger.mintSupply
  {
    CurrentAfter(s, plan, exempt, k);
    PlannedGrows(plan, k + 1);
    assert plan[..k + 1][..k] == plan[..k];
  }

  /** Exactly when the program accepts entry `k` of a plan made for the state `s`, whose tokens exist:
      when the tokens still redeem for something and the turn of the entry's source has come. */
  lemma PlanAcceptedExactly(s: State, accounts: seq<Listing>, skipFee: bool, plan: seq<WithdrawAccount>,
                            picks: seq<nat>, k: nat, m: Mode)
    requires Sound(s, m) && s.pool.totalLamports > 0 && s.pool.poolTokenSupply > 0
    requires s.pool.stakeWithdrawalFee.AtMostOne()
    requires ListsState(s, accounts, MinimumStakeLamports(s.ledger.stakeRent))
    requires Draws(s.pool, accounts, MinimumStakeLamports(s.ledger.stakeRent), skipFee, plan, picks)
    requires PlannedTokens(plan) <= s.ledger.mintSupply && k < |plan|
    ensures
      var t, entry := After(s, plan, skipFee, k), plan[k];
      WithdrawStake(t, entry.source, entry.poolAmount, skipFee).Ok? <==>
        && PriceWithdrawal(t.pool, t.pool.stakeWithdrawalFee, entry.poolAmount, skipFee).Ok?
        && InTurn(t, entry.source)
  {
    var minBalance := MinimumStakeLamports(s.ledger.stakeRent);
    var t, entry := After(s, plan, skipFee, k), plan[k];
    SoundAfter(s, plan, skipFee, k, m);
    CurrentAfter(s, plan, skipFee, k);
    StillListed(s, accounts, minBalance, skipFee, plan, picks, k);
    TokensStillThere(s, plan, skipFee, k);
    RunNoDearer(s, plan, skipFee, k);
    assert WithinListing(s.pool, accounts[picks[k]], minBalance, skipFee, entry);
    EntryWithinListing(s.pool, t.pool, accounts[picks[k]], minBalance, skipFee, entry);
    EntryAccepted(t, entry, skipFee, accounts[picks[k]].lamports, m);
  }

  lemma EntryAccepted(t: State, entry: WithdrawAccount, skipFee: bool, listed: u64, m: Mode)
    requires Sound(t, m) && entry.poolAmount <= t.ledger.mintSupply
    requires Listed(t, entry.source, MinimumStakeLamports(t.ledger.stakeRent)) == listed
    requires
      var priced := PriceWithdrawal(t.pool, t.pool.stakeWithdrawalFee, entry.poolAmount, skipFee);
      priced.Ok? && priced.value.burnt <= t.pool.poolTokenSupply ==> priced.value.lamports <= listed
    ensures WithdrawStake(t, entry.source, entry.poolAmount, skipFee).Ok? <==>
      && PriceWithdrawal(t.pool, t.pool.stakeWithdrawalFee, entry.poolAmount, skipFee).Ok?
      && InTurn(t, entry.source)
  {
    var priced := PriceWithdrawal(t.pool, t.pool.stakeWithdrawalFee, entry.poolAmount, skipFee);
    if priced.Ok? {
      AcceptedExactly(t, entry.source, entry.poolAmount, skipFee, priced.value, m);
    }
  }

  // ----- Plans that are refused -----

  /** An active stake the planner passed over is still there while the plan runs. */
  lemma PassedOverStays(s: State, plan: seq<WithdrawAccount>, exempt: bool, k: nat, vote: Pubkey)
    requires k <= |plan| && FindVote(s.validators, vote).Some?
    requires s.validators[FindVote(s.validators, vote).value].activeStakeLamports > 0
    requires forall j :: 0 <= j < k ==> plan[j].source != FromAccount(ValidatorStakeAddress(vote))
    ensures HasActiveStake(After(s, plan, exempt, k).validators)
  {
    ListedAfter(s, plan, exempt, k, FromAccount(ValidatorStakeAddress(vote)), 0);
    var t := After(s, plan, exempt, k);
    assert t.validators[FindVote(t.validators, vote).value].activeStakeLamports > 0;
  }

  /** Plans do not always go through: once the planner has passed over a little active stake, every entry
      that draws on a transient account or on the reserve is refused. */
  lemma PassedOverBlocks(s: State, accounts: seq<Listing>, minBalance: u64, skipFee: bool,
                         plan: seq<WithdrawAccount>, picks: seq<nat>, i: nat, k: nat)
    requires Draws(s.pool, accounts, minBalance, skipFee, plan, picks) && ListsState(s, accounts, minBalance)
    requires i < |accounts| && 0 < accounts[i].lamports <= minBalance
    requires accounts[i].source.FromAccount? && accounts[i].source.address.ValidatorStakeAddress?
    requires k < |plan|
    requires plan[k].source.FromReserve? || plan[k].source.address.TransientStakeAddress?
    ensures WithdrawStake(After(s, plan, skipFee, k), plan[k].source, plan[k].poolAmount, skipFee).Err?
  {
    forall j | 0 <= j < |plan|
      ensures plan[j].source != accounts[i].source
    {
      assert WithinListing(s.pool, accounts[picks[j]], minBalance, skipFee, plan[j]);
    }
    PassedOverStays(s, plan, skipFee, k, accounts[i].source.address.vote);
  }

  /** A pool with one validator whose active stake is a single lamport. */
  function ExampleActions(vote: Pubkey): seq<Action> {
    [DoAddValidator(vote, 0), DoDepositStake(vote, 1, 1)]
  }

  /** What the client lists for it, and the plan it makes for two tokens. */
  function ExampleListings(vote: Pubkey): seq<Listing> {
    [Listing(FromAccount(ValidatorStakeAddress(vote)), 1), Listing(FromAccount(TransientStakeAddress(vote, 0)), 0),
     Listing(FromReserve, 5 * SOL)]
  }

  const EXAMPLE_PLAN: seq<WithdrawAccount> := [WithdrawAccount(FromReserve, 2)]

  lemma ExampleState(vote: Pubkey)
    ensures Initialize(ExampleSetup()).Ok?
    ensures
      var s := Run(Initialize(ExampleSetup()).value, ExampleActions(vote));
      Looks(s, vote, 5 * SOL + 1, 5 * SOL + 1, 6 * SOL + RENT, ValidatorStakeInfo(1, 0, 10, 0, 0, Active, vote),
            Some(Account(SOL + RENT + 1, SOL + 1)), None)
  {
    Adding(vote);
    var s0, actions := Initialize(ExampleSetup()).value, ExampleActions(vote);
    assert actions[..0] == [] && actions[..2] == actions;
    RunStep(s0, actions, 0);
    RunStep(s0, actions, 1);
    Depositing(Run(s0, actions[..1]), vote);
  }

  lemma Depositing(s: State, vote: Pubkey)
    requires Looks(s, vote, 5 * SOL, 5 * SOL, 6 * SOL + RENT, ValidatorStakeInfo(0, 0, 10, 0, 0, Active, vote),
                   Some(Account(SOL + RENT, SOL)), None)
    requires s.pool.stakeDepositFee == s.pool.solDepositFee == Fee(0, 0) && s.pool.preferredDeposit == None
    ensures Looks(Next(s, DoDepositStake(vote, 1, 1)), vote, 5 * SOL + 1, 5 * SOL + 1, 6 * SOL + RENT,
                  ValidatorStakeInfo(1, 0, 10, 0, 0, Active, vote), Some(Account(SOL + RENT + 1, SOL + 1)), None)
  {
  }

  /** A reachable pool and a plan the client makes for it that the program refuses. */
  lemma RefusedPlan(vote: Pubkey)
    ensures Initialize(ExampleSetup()).Ok?
    ensures
      var s := Run(Initialize(ExampleSetup()).value, ExampleActions(vote));
      && ListsState(s, ExampleListings(vote), SOL + RENT)
      && PlannedTokens(EXAMPLE_PLAN) == 2
      && Draws(s.pool, ExampleListings(vote), SOL + RENT, true, EXAMPLE_PLAN, [2])
      && Greedy(s.pool, ExampleListings(vote), SOL + RENT, true, EXAMPLE_PLAN, [2])
      && WithdrawStake(s, FromReserve, 2, true).Err?
  {
    ExampleState(vote);
    var s := Run(Initialize(ExampleSetup()).value, ExampleActions(vote));
    ExampleIsListed(s, vote);
    ExampleIsPlanned(s, vote);
    assert HasActiveStake(s.validators) by {
      assert s.validators[0].activeStakeLamports == 1;
    }
  }

  lemma ExampleIsListed(s: State, vote: Pubkey)
    requires s.validators == [ValidatorStakeInfo(1, 0, 10, 0, 0, Active, vote)]
    requires s.ledger.reserve == 6 * SOL + RENT && s.ledger.reserveRent == RENT
    ensures ListsState(s, ExampleListings(vote), SOL + RENT)
  {
    assert FindVote(s.validators, vote) == Some(0);
  }

  lemma ExampleIsPlanned(s: State, vote: Pubkey)
    requires s.pool.totalLamports == s.pool.poolTokenSupply == 5 * SOL + 1
    ensures PlannedTokens(EXAMPLE_PLAN) == 2
    ensures Draws(s.pool, ExampleListings(vote), SOL + RENT, true, EXAMPLE_PLAN, [2])
    ensures Greedy(s.pool, ExampleListings(vote), SOL + RENT, true, EXAMPLE_PLAN, [2])
  {
    assert EXAMPLE_PLAN[..0] == [];
    var listings := ExampleListings(vote);
    assert Offered(s.pool, listings, SOL + RENT, true, 0) == Some(0);
    assert Offered(s.pool, listings, SOL + RENT, true, 1) == Some(0);
    assert WithinListing(s.pool, listings[2], SOL + RENT, true, EXAMPLE_PLAN[0]);
  }
}
