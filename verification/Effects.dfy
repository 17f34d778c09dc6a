/** What each step does to the pool's fields and to the mint, apart from what it does to stake. */
module Effects {
  import opened Numbers
  import opened Fees
  import opened Records
  import opened PoolState
  import opened Steps

  /** The tokens the pool has on record beyond those that exist. */
  function Drift(s: State): int {
    s.pool.poolTokenSupply - s.ledger.mintSupply
  }

  /** Deposits and withdrawals, which move lamports and tokens in the books. */
  predicate Trades(a: Action) {
    a.DoDepositStake? || a.DoDepositSol? || a.DoWithdrawStake? || a.DoWithdrawSol?
  }

  /** Only the books have changed, and the mint along with them. */
  ghost predicate Traded(s: State, s': State) {
    && s'.pool == s.pool.(totalLamports := s'.pool.totalLamports, poolTokenSupply := s'.pool.poolTokenSupply)
    && Drift(s') == Drift(s)
  }

  /** Of the pool at most the preferred validators have changed, and the mint not at all. */
  ghost predicate Untraded(s: State, s': State) {
    && s'.pool == s.pool.(preferredDeposit := s'.pool.preferredDeposit, preferredWithdraw := s'.pool.preferredWithdraw)
    && s'.ledger.mintSupply == s.ledger.mintSupply
  }

  // ----- Trades -----

  lemma DepositSolTrades(s: State, lamports: u64)
    requires DepositSol(s, lamports).Ok?
    ensures Traded(s, DepositSol(s, lamports).value)
  {
  }

  lemma DepositStakeTrades(s: State, vote: Pubkey, lamports: u64, stake: u64)
    requires DepositStake(s, vote, lamports, stake).Ok?
    ensures Traded(s, DepositStake(s, vote, lamports, stake).value)
  {
  }

  lemma WithdrawSolTrades(s: State, tokens: u64, exempt: bool)
    requires WithdrawSol(s, tokens, exempt).Ok?
    ensures Traded(s, WithdrawSol(s, tokens, exempt).value)
  {
  }

  lemma WithdrawFromAccountTrades(s: State, w: Withdrawal, a: Address)
    requires WithdrawFromAccount(s, w, a).Ok?
    ensures Traded(s, WithdrawFromAccount(s, w, a).value)
  {
  }

  lemma WithdrawStakeTrades(s: State, source: Source, tokens: u64, exempt: bool)
    requires WithdrawStake(s, source, tokens, exempt).Ok?
    ensures Traded(s, WithdrawStake(s, source, tokens, exempt).value)
  {
    if source.FromAccount? {
      var w := PriceWithdrawal(s.pool, s.pool.stakeWithdrawalFee, tokens, exempt).value;
      WithdrawFromAccountTrades(s, w, source.address);
    }
  }

  lemma TradeEffect(s: State, a: Action)
    requires Trades(a)
    ensures Traded(s, Next(s, a))
  {
    if Apply(s, a).Ok? {
      match a
      case DoDepositStake(vote, lamports, stake) => DepositStakeTrades(s, vote, lamports, stake);
      case DoDepositSol(lamports) => DepositSolTrades(s, lamports);
      case DoWithdrawStake(source, tokens, exempt) => WithdrawStakeTrades(s, source, tokens, exempt);
      case DoWithdrawSol(tokens, exempt) => WithdrawSolTrades(s, tokens, exempt);
    }
  }

  // ----- Everything else -----

  lemma AddUntraded(s: State, vote: Pubkey, prior: u64)
    requires AddValidator(s, vote, prior).Ok?
    ensures Untraded(s, AddValidator(s, vote, prior).value)
  {
  }

  lemma RemoveUntraded(s: State, vote: Pubkey)
    requires RemoveValidator(s, vote).Ok?
    ensures Untraded(s, RemoveValidator(s, vote).value)
  {
  }

  lemma DecreaseUntraded(s: State, vote: Pubkey, lamports: u64, seed: u64, prior: u64)
    requires DecreaseValidatorStake(s, vote, lamports, seed, prior).Ok?
    ensures Untraded(s, DecreaseValidatorStake(s, vote, lamports, seed, prior).value)
  {
  }

  lemma IncreaseUntraded(s: State, vote: Pubkey, lamports: u64, seed: u64, prior: u64)
    requires IncreaseValidatorStake(s, vote, lamports, seed, prior).Ok?
    ensures Untraded(s, IncreaseValidatorStake(s, vote, lamports, seed, prior).value)
  {
  }

  lemma {:induction false} RefreshFromKeepsMint(l: Ledger, v: seq<ValidatorStakeInfo>, start: nat,
                                                accounts: seq<Address>, noMerge: bool, k: nat)
    requires start + |accounts| / 2 <= |v| && k <= |accounts| / 2
    requires RefreshFrom(l, v, start, accounts, noMerge, k).Ok?
    ensures RefreshFrom(l, v, start, accounts, noMerge, k).value.ledger.mintSupply == l.mintSupply
    decreases |accounts| / 2 - k
  {
    if k < |accounts| / 2 {
      if PairMatches(v[start + k], accounts, k) {
        var one := RefreshRecord(l, v[start + k], noMerge).value;
        RefreshFromKeepsMint(one.ledger, v[start + k := one.record], start, accounts, noMerge, k + 1);
      } else {
        RefreshFromKeepsMint(l, v, start, accounts, noMerge, k + 1);
      }
    }
  }

  /** The moves of the environment that leave the mint alone. */
  predicate MovesLamports(a: Action) {
    a.DoAdvanceEpoch? || a.DoDonateToReserve? || a.DoDonateToValidator? || a.DoDonateToTransient?
  }

  lemma EnvironmentUntraded(s: State, a: Action)
    requires MovesLamports(a) && Apply(s, a).Ok?
    ensures Apply(s, a).value.pool == s.pool && Apply(s, a).value.ledger.mintSupply == s.ledger.mintSupply
  {
  }

  /** The actions that do none of trading, setting fees, updating the pool and burning. */
  predicate LeavesBooks(a: Action) {
    !Trades(a) && !a.DoSetFee? && !a.DoUpdatePool? && !a.DoBurnByHolder?
  }

  lemma OtherEffect(s: State, a: Action)
    requires LeavesBooks(a)
    ensures Untraded(s, Next(s, a))
  {
    if Apply(s, a).Ok? {
      match a
      case DoAddValidator(vote, prior) => AddUntraded(s, vote, prior);
      case DoRemoveValidator(vote) => RemoveUntraded(s, vote);
      case DoDecrease(vote, lamports, seed, prior) => DecreaseUntraded(s, vote, lamports, seed, prior);
      case DoIncrease(vote, lamports, seed, prior) => IncreaseUntraded(s, vote, lamports, seed, prior);
      case DoSetPreferred(_, _) =>
      case DoUpdateList(start, accounts, noMerge) =>
        RefreshFromKeepsMint(s.ledger, s.validators, start, accounts, noMerge, 0);
      case DoCleanup =>
      case _ => EnvironmentUntraded(s, a);
    }
  }

  /** The books stay as they are when fees are set. */
  lemma SetFeeKeepsBooks(s: State, f: FeeType)
    requires SetFee(s, f).Ok?
    ensures
      var s' := SetFee(s, f).value;
      && s'.ledger == s.ledger && s'.pool.totalLamports == s.pool.totalLamports
      && s'.pool.poolTokenSupply == s.pool.poolTokenSupply && s'.pool.lastUpdateEpoch == s.pool.lastUpdateEpoch
  {
  }

  lemma BurnEffect(s: State, tokens: u64)
    requires BurnByHolder(s, tokens).Ok?
    ensures
      var s' := BurnByHolder(s, tokens).value;
      s'.pool == s.pool && s'.ledger.mintSupply == s.ledger.mintSupply - tokens
  {
  }
}
