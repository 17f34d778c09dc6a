/** The value of a pool token over whole runs. */
module ExchangeRate {
  import opened Numbers
  import opened Errors
  import opened Fees
  import opened Pricing
  import opened Records
  import opened PoolState
  import opened Steps
  import opened Effects
  import opened ListInvariant
  import opened Solvency
  import opened SolvencySteps
  import opened FeeInvariant
  import opened SupplyInvariant
  import opened Runs

  /** The step is a withdrawal that goes through. */
  predicate Withdraws(s: State, a: Action) {
    (a.DoWithdrawStake? || a.DoWithdrawSol?) && Apply(s, a).Ok?
  }

  predicate MovesBooks(a: Action) {
    Trades(a) || a.DoUpdatePool?
  }

  ghost predicate SameBooks(p: StakePool, q: StakePool) {
    q.totalLamports == p.totalLamports && q.poolTokenSupply == p.poolTokenSupply
  }

  lemma OthersKeepBooks(s: State, a: Action)
    requires !MovesBooks(a)
    ensures SameBooks(s.pool, Next(s, a).pool)
  {
    if LeavesBooks(a) {
      OtherEffect(s, a);
    } else if Apply(s, a).Ok? {
      match a
      case DoSetFee(fee) => SetFeeKeepsBooks(s, fee);
      case DoBurnByHolder(tokens) => BurnEffect(s, tokens);
    }
  }

  /** What a deposit does to the books. */
  ghost predicate Deposited(p: StakePool, q: StakePool, lamports: u64) {
    && TokensForDeposit(p.totalLamports, p.poolTokenSupply, lamports).Some?
    && q.totalLamports == p.totalLamports + lamports
    && q.poolTokenSupply == p.poolTokenSupply + TokensForDeposit(p.totalLamports, p.poolTokenSupply, lamports).value
  }

  /** What a withdrawal does to the books. */
  ghost predicate Withdrawn(p: StakePool, q: StakePool) {
    && q.poolTokenSupply <= p.poolTokenSupply && q.totalLamports < p.totalLamports
    && LamportsForTokens(p.totalLamports, p.poolTokenSupply, p.poolTokenSupply - q.poolTokenSupply)
       == Some(p.totalLamports - q.totalLamports)
  }

  lemma DepositSolBooks(s: State, lamports: u64)
    requires DepositSol(s, lamports).Ok?
    ensures Deposited(s.pool, DepositSol(s, lamports).value.pool, lamports)
  {
  }

  lemma DepositStakeBooks(s: State, vote: Pubkey, lamports: u64, stake: u64)
    requires DepositStake(s, vote, lamports, stake).Ok?
    ensures Deposited(s.pool, DepositStake(s, vote, lamports, stake).value.pool, lamports)
  {
    assert DepositStakeTokens(s.pool, lamports, stake).Ok?;
  }

  lemma WithdrawSolBooks(s: State, tokens: u64, exempt: bool)
    requires WithdrawSol(s, tokens, exempt).Ok?
    ensures Withdrawn(s.pool, WithdrawSol(s, tokens, exempt).value.pool)
  {
  }

  lemma WithdrawStakeBooks(s: State, source: Source, tokens: u64, exempt: bool)
    requires WithdrawStake(s, source, tokens, exempt).Ok?
    ensures Withdrawn(s.pool, WithdrawStake(s, source, tokens, exempt).value.pool)
  {
    var w := PriceWithdrawal(s.pool, s.pool.stakeWithdrawalFee, tokens, exempt).value;
    match source
    case FromReserve =>
    case FromAccount(a) => assert Debit(s, w).Ok?;
  }

  /** What the books of every reachable state satisfy. */
  ghost predicate SoundBooks(s: State) {
    FeesInv(s.pool) && SupplyInv(s, false)
  }

  /** The step is not a pool update that books a loss. */
  ghost predicate BooksNoLoss(s: State, a: Action) {
    a.DoUpdatePool? ==> s.pool.totalLamports <= Next(s, a).pool.totalLamports
  }

  lemma UpdatePoolKeepsRate(s: State, feeAccountValid: bool)
    requires SoundBooks(s) && UpdateStakePool(s, feeAccountValid).Ok? && s.pool.poolTokenSupply > 0
    requires s.pool.totalLamports <= UpdateStakePool(s, feeAccountValid).value.pool.totalLamports
    ensures
      var q := UpdateStakePool(s, feeAccountValid).value.pool;
      RateKept(s.pool.totalLamports, s.pool.poolTokenSupply, q.totalLamports, q.poolTokenSupply)
  {
    var q := UpdateStakePool(s, feeAccountValid).value.pool;
    var fee := EpochFeeOf(s.pool, q.totalLamports, feeAccountValid).value;
    EpochUpdateKeepsRate(s.pool.totalLamports, s.pool.poolTokenSupply, s.pool.epochFee, q.totalLamports, fee,
                         s.pool.poolTokenSupply - s.ledger.mintSupply);
  }

  /** Apart from a pool update that books a loss, only a withdrawal can lower the value of a token, and
      then by less than one lamport spread over the tokens that remain. */
  lemma StepRate(s: State, a: Action)
    requires SoundBooks(s) && s.pool.poolTokenSupply > 0 && BooksNoLoss(s, a)
    ensures
      var p, q := s.pool, Next(s, a).pool;
      if Withdraws(s, a) then
        p.totalLamports * q.poolTokenSupply < q.totalLamports * p.poolTokenSupply + p.poolTokenSupply
      else RateKept(p.totalLamports, p.poolTokenSupply, q.totalLamports, q.poolTokenSupply)
  {
    if !MovesBooks(a) {
      OthersKeepBooks(s, a);
    } else if Apply(s, a).Ok? {
      match a
      case DoDepositSol(lamports) =>
        DepositSolBooks(s, lamports);
        DepositedRate(s.pool, Next(s, a).pool, lamports);
      case DoDepositStake(vote, lamports, stake) =>
        DepositStakeBooks(s, vote, lamports, stake);
        DepositedRate(s.pool, Next(s, a).pool, lamports);
      case DoUpdatePool(feeAccountValid) => UpdatePoolKeepsRate(s, feeAccountValid);
      case DoWithdrawSol(tokens, exempt) =>
        WithdrawSolBooks(s, tokens, exempt);
        WithdrawnRate(s.pool, Next(s, a).pool);
      case DoWithdrawStake(source, tokens, exempt) =>
        WithdrawStakeBooks(s, source, tokens, exempt);
        WithdrawnRate(s.pool, Next(s, a).pool);
    }
  }

  lemma DepositedRate(p: StakePool, q: StakePool, lamports: u64)
    requires Deposited(p, q, lamports) && p.poolTokenSupply > 0
    ensures RateKept(p.totalLamports, p.poolTokenSupply, q.totalLamports, q.poolTokenSupply)
  {
    DepositKeepsRate(p.totalLamports, p.poolTokenSupply, lamports);
  }

  lemma WithdrawnRate(p: StakePool, q: StakePool)
    requires Withdrawn(p, q)
    ensures p.totalLamports * q.poolTokenSupply < q.totalLamports * p.poolTokenSupply + p.poolTokenSupply
  {
    WithdrawalBoundsRate(p.totalLamports, p.poolTokenSupply, p.poolTokenSupply - q.poolTokenSupply);
  }

  // ----- As ratios, over runs -----

  ghost function Rate(s: State): real
    requires s.pool.poolTokenSupply > 0
  {
    s.pool.totalLamports as real / s.pool.poolTokenSupply as real
  }

  /** The withdrawals of a run that go through. */
  function Withdrawals(s: State, actions: seq<Action>): nat {
    if |actions| == 0 then 0
    else
      var before := actions[..|actions| - 1];
      Withdrawals(s, before) + (if Withdraws(Run(s, before), actions[|actions| - 1]) then 1 else 0)
  }

  /** At every point of the run at least `floor` tokens are outstanding. */
  ghost predicate SupplyStays(s: State, actions: seq<Action>, floor: nat) {
    forall i :: 0 <= i <= |actions| ==> Run(s, actions[..i]).pool.poolTokenSupply >= floor
  }

  lemma RatioDrop(t: nat, s: nat, t': nat, s': nat, floor: nat, drops: bool)
    requires s > 0 && s' >= floor > 0
    requires t * s' <= t' * s + (if drops then s else 0)
    ensures t' as real / s' as real >= t as real / s as real - (if drops then 1.0 / floor as real else 0.0)
  {
    if drops {
      assert t * s' <= (t' + 1) * s;
      RatioLe(t, s, t' + 1, s');
      RatioLe(1, s', 1, floor);
      RatioAdd(t', 1, s');
    } else {
      RatioLe(t, s, t', s');
    }
  }

  lemma RatioAdd(a: nat, b: nat, c: nat)
    requires c > 0
    ensures (a + b) as real / c as real == a as real / c as real + b as real / c as real
  {
    assert (a + b) as real == a as real + b as real;
  }

  lemma SupplyStaysPrefix(s: State, actions: seq<Action>, floor: nat)
    requires |actions| > 0 && SupplyStays(s, actions, floor)
    ensures SupplyStays(s, actions[..|actions| - 1], floor)
    ensures Run(s, actions[..|actions| - 1]).pool.poolTokenSupply >= floor
    ensures Run(s, actions).pool.poolTokenSupply >= floor
  {
    var before := actions[..|actions| - 1];
    assert actions[..|actions|] == actions;
    forall i | 0 <= i <= |before|
      ensures Run(s, before[..i]).pool.poolTokenSupply >= floor
    {
      assert before[..i] == actions[..i];
    }
  }

  /** No pool update of the run books a loss. */
  ghost predicate NoLossBooked(s: State, actions: seq<Action>) {
    forall i :: 0 <= i < |actions| ==> BooksNoLoss(Run(s, actions[..i]), actions[i])
  }

  lemma NoLossBookedPrefix(s: State, actions: seq<Action>)
    requires |actions| > 0 && NoLossBooked(s, actions)
    ensures NoLossBooked(s, actions[..|actions| - 1])
    ensures BooksNoLoss(Run(s, actions[..|actions| - 1]), actions[|actions| - 1])
  {
    var before := actions[..|actions| - 1];
    forall i | 0 <= i < |before|
      ensures BooksNoLoss(Run(s, before[..i]), before[i])
    {
      assert before[..i] == actions[..i];
    }
  }

  /** Where no stake account loses stake, no pool update books a loss. */
  lemma {:induction false} LossFreeRunsBookNoLoss(s: State, actions: seq<Action>, m: Mode)
    requires m.lossFree && ListInv(s) && LedgerInv(s, m) && AllAdmitted(s, actions, m)
    ensures NoLossBooked(s, actions)
  {
    if |actions| > 0 {
      var before, last := actions[..|actions| - 1], actions[|actions| - 1];
      AllAdmittedPrefix(s, actions, m);
      LossFreeRunsBookNoLoss(s, before, m);
      LedgerOverRuns(s, before, m);
      NextBooksNoLoss(Run(s, before), last, m);
      forall i | 0 <= i < |actions|
        ensures BooksNoLoss(Run(s, actions[..i]), actions[i])
      {
        if i < |before| {
          assert actions[..i] == before[..i];
          assert BooksNoLoss(Run(s, before[..i]), before[i]);
        }
      }
    }
  }

  lemma NextBooksNoLoss(s: State, a: Action, m: Mode)
    requires m.lossFree && LedgerInv(s, m)
    ensures BooksNoLoss(s, a)
  {
    if a.DoUpdatePool? && Apply(s, a).Ok? {
      UpdatePoolSolvent(s, a.feeAccountValid, m);
    }
  }

  /** `k` times one lamport spread over `floor` tokens. */
  function Drops(k: nat, floor: nat): (x: real)
    requires floor > 0
    ensures x == k as real / floor as real
  {
    if k == 0 then 0.0
    else
      RatioAdd(k - 1, 1, floor);
      Drops(k - 1, floor) + 1.0 / floor as real
  }

  lemma StepRatio(s: State, a: Action, floor: nat)
    requires SoundBooks(s) && BooksNoLoss(s, a)
    requires floor > 0 && s.pool.poolTokenSupply >= floor && Next(s, a).pool.poolTokenSupply >= floor
    ensures Rate(Next(s, a)) >= Rate(s) - (if Withdraws(s, a) then 1.0 / floor as real else 0.0)
  {
    var p, q := s.pool, Next(s, a).pool;
    StepRate(s, a);
    RatioDrop(p.totalLamports, p.poolTokenSupply, q.totalLamports, q.poolTokenSupply, floor, Withdraws(s, a));
  }

  /** In a run whose pool updates book no loss and whose supply never falls below `floor`, `k`
      withdrawals together lower the value of a pool token by at most `k / floor`, and nothing else
      lowers it at all. */
  lemma {:induction false} RateOverRuns(s: State, actions: seq<Action>, floor: nat)
    requires SoundBooks(s) && NoLossBooked(s, actions)
    requires floor > 0 && SupplyStays(s, actions, floor)
    ensures s.pool.poolTokenSupply > 0 && Run(s, actions).pool.poolTokenSupply > 0
    ensures Rate(Run(s, actions)) >= Rate(s) - Drops(Withdrawals(s, actions), floor)
  {
    assert Run(s, actions[..0]) == s;
    if |actions| > 0 {
      var before, last := actions[..|actions| - 1], actions[|actions| - 1];
      NoLossBookedPrefix(s, actions);
      SupplyStaysPrefix(s, actions, floor);
      RateOverRuns(s, before, floor);
      FeesOverRuns(s, before);
      SupplyOverRuns(s, before, false);
      var mid := Run(s, before);
      assert Run(s, actions) == Next(mid, last);
      StepRatio(mid, last, floor);
      ChainDrops(Rate(s), Rate(mid), Rate(Next(mid, last)), Withdrawals(s, before), floor, Withdraws(mid, last));
    }
  }

  /** From creation on, at one token per lamport, `k` withdrawals of a run without losses leave a token
      worth at least `1 - k / floor` lamports. */
  lemma RateFromCreation(p: Setup, s: State, actions: seq<Action>, m: Mode, floor: nat)
    requires Initialize(p) == Ok(s) && (m.pristine ==> p.stakeRent > 0) && m.lossFree
    requires AllAdmitted(s, actions, m) && floor > 0 && SupplyStays(s, actions, floor)
    ensures Run(s, actions).pool.poolTokenSupply > 0
    ensures Rate(Run(s, actions)) >= 1.0 - Drops(Withdrawals(s, actions), floor)
  {
    InitialInvariants(p, m);
    LossFreeRunsBookNoLoss(s, actions, m);
    RateOverRuns(s, actions, floor);
    InitialRate(p, s);
  }

  lemma InitialRate(p: Setup, s: State)
    requires Initialize(p) == Ok(s) && s.pool.poolTokenSupply > 0
    ensures Rate(s) == 1.0
  {
    WholeRatio(s.pool.totalLamports);
  }

  lemma WholeRatio(x: nat)
    requires x > 0
    ensures x as real / x as real == 1.0
  {
  }

  lemma ChainDrops(start: real, mid: real, end: real, k: nat, floor: nat, drops: bool)
    requires floor > 0
    requires mid >= start - Drops(k, floor)
    requires end >= mid - (if drops then 1.0 / floor as real else 0.0)
    ensures end >= start - Drops(k + (if drops then 1 else 0), floor)
  {
  }
}
