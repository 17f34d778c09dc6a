/** The client's greedy choice of accounts to withdraw stake from, and what the program then takes. */
module WithdrawPlanner {
  import opened Numbers
  import opened Fees
  import opened Pricing
  import opened PoolState
  import opened Steps

  /** An account the client may withdraw from, with the lamports it lists for it. */
  datatype Listing = Listing(source: Source, lamports: u64)

  datatype WithdrawAccount = WithdrawAccount(source: Source, poolAmount: u64)

  datatype Plan = Planned(from: seq<WithdrawAccount>) | NotEnoughStake | Panicked

  /** Tokens grossed up so that the fee is covered; `None` where the client panics, on overflow or on
      a fee of 100% (a fee without denominator counts as one here). */
  function GrossUp(tokens: u64, fee: Fee): Option<u64> {
    if tokens * fee.denominator > U64_MAX || fee.numerator >= fee.denominator then None
    else Checked64(tokens * fee.denominator / (fee.denominator - fee.numerator))
  }

  /** The tokens a withdrawal that empties the listing may cost. */
  function Available(pool: StakePool, lamports: u64, skipFee: bool): Option<u64> {
    var withoutFee := TokensForDeposit(pool.totalLamports, pool.poolTokenSupply, lamports);
    if withoutFee.None? || skipFee then withoutFee else GrossUp(withoutFee.value, pool.stakeWithdrawalFee)
  }

  function PlannedTokens(plan: seq<WithdrawAccount>): nat {
    if |plan| == 0 then 0 else PlannedTokens(plan[..|plan| - 1]) + plan[|plan| - 1].poolAmount
  }

  /** What the first `n` listings above the minimum balance offer altogether. */
  function Offered(pool: StakePool, accounts: seq<Listing>, minBalance: u64, skipFee: bool, n: nat): Option<nat>
    requires n <= |accounts|
  {
    if n == 0 then Some(0)
    else
      var before := Offered(pool, accounts, minBalance, skipFee, n - 1);
      if before.None? || accounts[n - 1].lamports <= minBalance then before
      else
        var one := Available(pool, accounts[n - 1].lamports, skipFee);
        if one.None? then None else Some(before.value + one.value)
  }

  /** Entry `k` of a plan draws on listing `picks[k]`, which is above the minimum balance, and within
      what that listing offers. */
  ghost predicate Draws(pool: StakePool, accounts: seq<Listing>, minBalance: u64, skipFee: bool,
                        plan: seq<WithdrawAccount>, picks: seq<nat>) {
    && |picks| == |plan|
    && (forall k :: 0 <= k < |picks| ==> picks[k] < |accounts|)
    && (forall j, k :: 0 <= j < k < |picks| ==> picks[j] < picks[k])
    && forall k :: 0 <= k < |plan| ==> WithinListing(pool, accounts[picks[k]], minBalance, skipFee, plan[k])
  }

  ghost predicate WithinListing(pool: StakePool, listing: Listing, minBalance: u64, skipFee: bool,
                                entry: WithdrawAccount) {
    && entry.source == listing.source && listing.lamports > minBalance
    && Available(pool, listing.lamports, skipFee).Some?
    && entry.poolAmount <= Available(pool, listing.lamports, skipFee).value
  }

  ghost predicate AllBelow(picks: seq<nat>, i: nat) {
    forall k :: 0 <= k < |picks| ==> picks[k] < i
  }

  /** All entries but the last take everything that the eligible listings before the last one offer. */
  ghost predicate Greedy(pool: StakePool, accounts: seq<Listing>, minBalance: u64, skipFee: bool,
                         plan: seq<WithdrawAccount>, picks: seq<nat>)
    requires |picks| == |plan|
  {
    |plan| > 0 ==>
      var last := |plan| - 1;
      && picks[last] < |accounts| && accounts[picks[last]].lamports > minBalance
      && Offered(pool, accounts, minBalance, skipFee, picks[last]) == Some(PlannedTokens(plan[..last]))
  }

  /** The plan takes everything that the first `i` listings offer. */
  ghost predicate UsesUp(pool: StakePool, accounts: seq<Listing>, minBalance: u64, skipFee: bool,
                         plan: seq<WithdrawAccount>, picks: seq<nat>, i: nat) {
    && i <= |accounts| && AllBelow(picks, i) && Draws(pool, accounts, minBalance, skipFee, plan, picks)
    && Offered(pool, accounts, minBalance, skipFee, i) == Some(PlannedTokens(plan))
    && (plan == [] ==> NoneEligible(accounts, minBalance, i))
  }

  lemma SkipListing(pool: StakePool, accounts: seq<Listing>, minBalance: u64, skipFee: bool,
                    plan: seq<WithdrawAccount>, picks: seq<nat>, i: nat)
    requires UsesUp(pool, accounts, minBalance, skipFee, plan, picks, i)
    requires i < |accounts| && accounts[i].lamports <= minBalance
    ensures UsesUp(pool, accounts, minBalance, skipFee, plan, picks, i + 1)
  {
  }

  /** Listing `i` extends a plan that has used up everything before it and is not complete. */
  lemma DrawOnListing(pool: StakePool, accounts: seq<Listing>, minBalance: u64, skipFee: bool, poolAmount: u64,
                      plan: seq<WithdrawAccount>, picks: seq<nat>, i: nat, entry: WithdrawAccount)
    requires UsesUp(pool, accounts, minBalance, skipFee, plan, picks, i) && Incomplete(plan, poolAmount)
    requires i < |accounts| && WithinListing(pool, accounts[i], minBalance, skipFee, entry)
    ensures Draws(pool, accounts, minBalance, skipFee, plan + [entry], picks + [i])
    ensures Greedy(pool, accounts, minBalance, skipFee, plan + [entry], picks + [i])
    ensures StopsInTime(accounts, minBalance, plan + [entry], poolAmount)
    ensures PlannedTokens(plan + [entry]) == PlannedTokens(plan) + entry.poolAmount
    ensures entry.poolAmount == Available(pool, accounts[i].lamports, skipFee).value ==>
      UsesUp(pool, accounts, minBalance, skipFee, plan + [entry], picks + [i], i + 1)
  {
    assert (plan + [entry])[..|plan|] == plan;
  }

  /** The client panics at listing `i`, having come to it. */
  lemma PanicAt(pool: StakePool, accounts: seq<Listing>, minBalance: u64, skipFee: bool, poolAmount: u64,
                plan: seq<WithdrawAccount>, picks: seq<nat>, i: nat)
    requires UsesUp(pool, accounts, minBalance, skipFee, plan, picks, i) && Incomplete(plan, poolAmount)
    requires i < |accounts| && accounts[i].lamports > minBalance
    requires Available(pool, accounts[i].lamports, skipFee).None?
    ensures Unplannable(pool, accounts, minBalance, skipFee, poolAmount)
  {
    assert Reaches(pool, accounts, minBalance, skipFee, poolAmount, i);
  }

  /** Tokens are still wanting, or no account has been drawn on. */
  predicate Incomplete(plan: seq<WithdrawAccount>, poolAmount: u64) {
    PlannedTokens(plan) < poolAmount || plan == []
  }

  predicate NoneEligible(accounts: seq<Listing>, minBalance: u64, n: nat)
    requires n <= |accounts|
  {
    forall i :: 0 <= i < n ==> accounts[i].lamports <= minBalance
  }

  /** Before listing `i` the plan is not complete: too little is offered, or nothing was asked at all. */
  ghost predicate Reaches(pool: StakePool, accounts: seq<Listing>, minBalance: u64, skipFee: bool, poolAmount: u64,
                          i: nat)
    requires i <= |accounts|
  {
    var offered := Offered(pool, accounts, minBalance, skipFee, i);
    offered.Some? && (offered.value < poolAmount || NoneEligible(accounts, minBalance, i))
  }

  /** Where the client panics: on a withdrawal fee above 100%, or when it comes to a listing it cannot
      price. */
  ghost predicate Unplannable(pool: StakePool, accounts: seq<Listing>, minBalance: u64, skipFee: bool,
                              poolAmount: u64) {
    || !pool.stakeWithdrawalFee.AtMostOne()
    || exists i :: 0 <= i < |accounts| && accounts[i].lamports > minBalance
                   && Available(pool, accounts[i].lamports, skipFee).None?
                   && Reaches(pool, accounts, minBalance, skipFee, poolAmount, i)
  }

  /** The plan stops as soon as the tokens asked for are reached, and is empty only for want of accounts. */
  ghost predicate StopsInTime(accounts: seq<Listing>, minBalance: u64, plan: seq<WithdrawAccount>, poolAmount: u64) {
    && (|plan| > 1 ==> PlannedTokens(plan[..|plan| - 1]) < poolAmount)
    && (|plan| == 0 ==> NoneEligible(accounts, minBalance, |accounts|))
  }

  /** Every plan asks for exactly the tokens requested, drawing on distinct listings in order and on
      none beyond what it offers; the eligible listings before the last one drawn on are used up and not
      yet enough; and there is no plan only if all of them together offer too little. */
  method PrepareWithdrawAccounts(pool: StakePool, accounts: seq<Listing>, minBalance: u64, poolAmount: u64,
                                 skipFee: bool)
    returns (r: Plan, ghost picks: seq<nat>)
    ensures r.Planned? ==>
      && PlannedTokens(r.from) == poolAmount
      && Draws(pool, accounts, minBalance, skipFee, r.from, picks)
      && Greedy(pool, accounts, minBalance, skipFee, r.from, picks)
      && StopsInTime(accounts, minBalance, r.from, poolAmount)
    ensures r.NotEnoughStake? ==>
      var offered := Offered(pool, accounts, minBalance, skipFee, |accounts|);
      offered.Some? && offered.value < poolAmount
    ensures r.Panicked? ==> Unplannable(pool, accounts, minBalance, skipFee, poolAmount)
    ensures !pool.stakeWithdrawalFee.AtMostOne() ==> r.Panicked?
  {
    picks := [];
    var withdrawFrom: seq<WithdrawAccount> := [];
    var remaining: u64 := poolAmount;
    if pool.stakeWithdrawalFee.denominator < pool.stakeWithdrawalFee.numerator {
      return Panicked, picks;
    }
    var i: nat := 0;
    while i < |accounts|
      invariant UsesUp(pool, accounts, minBalance, skipFee, withdrawFrom, picks, i)
      invariant remaining == poolAmount - PlannedTokens(withdrawFrom)
      invariant Incomplete(withdrawFrom, poolAmount)
    {
      if accounts[i].lamports <= minBalance {
        SkipListing(pool, accounts, minBalance, skipFee, withdrawFrom, picks, i);
      } else {
        var available := Available(pool, accounts[i].lamports, skipFee);
        if available.None? {
          PanicAt(pool, accounts, minBalance, skipFee, poolAmount, withdrawFrom, picks, i);
          return Panicked, picks;
        }
        var amount := if available.value < remaining then available.value else remaining;
        var entry := WithdrawAccount(accounts[i].source, amount);
        DrawOnListing(pool, accounts, minBalance, skipFee, poolAmount, withdrawFrom, picks, i, entry);
        withdrawFrom := withdrawFrom + [entry];
        picks := picks + [i];
        remaining := remaining - amount;
        if remaining == 0 {
          return Planned(withdrawFrom), picks;
        }
        assert amount == available.value;
      }
      i := i + 1;
    }
    if remaining > 0 {
      return NotEnoughStake, picks;
    }
    return Planned(withdrawFrom), picks;
  }

  // ----- What the client offers -----

  /** Where the client cannot gross tokens up: the product overflows, or the fee takes everything. */
  lemma GrossUpRefusedExactly(tokens: u64, fee: Fee)
    ensures GrossUp(tokens, fee).None? <==> tokens * fee.denominator > U64_MAX || fee.numerator >= fee.denominator
  {
    if fee.numerator < fee.denominator {
      MulNonNeg(tokens, fee.denominator);
      QuotientWithin(tokens * fee.denominator, fee.denominator - fee.numerator);
    }
  }

  lemma QuotientWithin(a: nat, b: nat)
    requires b > 0
    ensures 0 <= a / b <= a
  {
    MulMono(a, a, 1, b);
    FloorLe(a, b, a);
  }

  /** The fee is undone exactly: grossed up, tokens are again what is left of them after the fee, and no
      larger amount leaves as little. */
  lemma GrossUpUndoesFee(tokens: u64, fee: Fee)
    requires GrossUp(tokens, fee).Some?
    ensures
      var gross := GrossUp(tokens, fee).value;
      gross - fee.Apply(gross) == tokens && (gross + 1) - (gross + 1) * fee.numerator / fee.denominator > tokens
  {
    var gross := GrossUp(tokens, fee).value;
    MulNonNeg(tokens, fee.denominator);
    FloorBounds(tokens * fee.denominator, fee.denominator - fee.numerator);
    FeeInversion(gross, tokens, fee.numerator, fee.denominator);
    KeptAfterFee(gross, tokens, fee.numerator, fee.denominator);
    KeptAfterOneMore(gross, tokens, fee.numerator, fee.denominator);
  }

  /** A listing offers exactly the tokens that are, after the fee, what a deposit of its lamports would
      mint: no more, and no less. */
  lemma AvailableExactly(pool: StakePool, lamports: u64, skipFee: bool)
    ensures
      var minted := TokensForDeposit(pool.totalLamports, pool.poolTokenSupply, lamports);
      var available, fee := Available(pool, lamports, skipFee), pool.stakeWithdrawalFee;
      && (available.None? <==>
            || minted.None?
            || (!skipFee && (fee.numerator >= fee.denominator || minted.value * fee.denominator > U64_MAX)))
      && (available.Some? ==>
            available.value - (if skipFee then 0 else fee.Apply(available.value)) == minted.value)
  {
    var minted := TokensForDeposit(pool.totalLamports, pool.poolTokenSupply, lamports);
    if minted.Some? {
      GrossUpRefusedExactly(minted.value, pool.stakeWithdrawalFee);
      if GrossUp(minted.value, pool.stakeWithdrawalFee).Some? {
        GrossUpUndoesFee(minted.value, pool.stakeWithdrawalFee);
      }
    }
  }

  lemma KeptAfterFee(gross: nat, tokens: nat, numerator: nat, denominator: nat)
    requires numerator < denominator
    requires tokens * denominator < gross * (denominator - numerator) + (denominator - numerator)
    ensures gross - gross * numerator / denominator >= tokens
  {
    MulNonNeg(gross, numerator);
    FloorBounds(gross * numerator, denominator);
    KeptAtLeast(gross, tokens, numerator, denominator, gross * numerator / denominator);
  }

  lemma KeptAtLeast(gross: nat, tokens: nat, numerator: nat, denominator: nat, fee: nat)
    requires numerator < denominator && fee * denominator <= gross * numerator
    requires tokens * denominator < gross * (denominator - numerator) + (denominator - numerator)
    ensures gross - fee >= tokens
  {
    assert (gross - fee + 1) * denominator
        == gross * (denominator - numerator) + gross * numerator - fee * denominator + denominator;
    CancelLt(tokens, gross - fee + 1, denominator);
  }

  lemma KeptAfterOneMore(gross: nat, tokens: nat, numerator: nat, denominator: nat)
    requires numerator < denominator
    requires tokens * denominator < gross * (denominator - numerator) + (denominator - numerator)
    ensures (gross + 1) - (gross + 1) * numerator / denominator > tokens
  {
    MulNonNeg(gross + 1, numerator);
    FloorBounds((gross + 1) * numerator, denominator);
    MoreThan(gross + 1, tokens, numerator, denominator, (gross + 1) * numerator / denominator);
  }

  lemma MoreThan(gross: nat, tokens: nat, numerator: nat, denominator: nat, fee: nat)
    requires numerator < denominator && fee * denominator <= gross * numerator && gross > 0
    requires tokens * denominator < (gross - 1) * (denominator - numerator) + (denominator - numerator)
    ensures gross - fee > tokens
  {
    assert (gross - 1) * (denominator - numerator) + (denominator - numerator) == gross * (denominator - numerator);
    assert (gross - fee) * denominator == gross * (denominator - numerator) + gross * numerator - fee * denominator;
    CancelLt(tokens, gross - fee, denominator);
  }

  // ----- Running a plan -----

  /** The books after one withdrawal of the plan; a failed one leaves them alone. */
  function Settle(pool: StakePool, tokens: u64, exempt: bool): (r: (StakePool, u64))
    ensures r.0.stakeWithdrawalFee == pool.stakeWithdrawalFee
  {
    var priced := PriceWithdrawal(pool, pool.stakeWithdrawalFee, tokens, exempt);
    if priced.Err? || priced.value.burnt > pool.poolTokenSupply || priced.value.lamports > pool.totalLamports
    then (pool, 0)
    else (pool.(totalLamports := pool.totalLamports - priced.value.lamports,
                poolTokenSupply := pool.poolTokenSupply - priced.value.burnt), priced.value.lamports)
  }

  /** The instructions that carry a plan out. */
  function Requests(plan: seq<WithdrawAccount>, exempt: bool): (r: seq<Action>)
    ensures |r| == |plan|
    ensures forall k :: 0 <= k < |plan| ==> r[k] == DoWithdrawStake(plan[k].source, plan[k].poolAmount, exempt)
  {
    seq(|plan|, k requires 0 <= k < |plan| => DoWithdrawStake(plan[k].source, plan[k].poolAmount, exempt))
  }

  /** The state the program reaches with the first `k` withdrawals of a plan; refused ones change
      nothing. */
  function After(s: State, plan: seq<WithdrawAccount>, exempt: bool, k: nat): State
    requires k <= |plan|
  {
    Run(s, Requests(plan, exempt)[..k])
  }

  lemma AfterStep(s: State, plan: seq<WithdrawAccount>, exempt: bool, k: nat)
    requires k < |plan|
    ensures After(s, plan, exempt, k + 1)
         == Next(After(s, plan, exempt, k), DoWithdrawStake(plan[k].source, plan[k].poolAmount, exempt))
  {
    RunStep(s, Requests(plan, exempt), k);
  }

  /** The lamports in an account a withdrawal can come from. */
  function BalanceOf(l: Ledger, source: Source): nat {
    match source
    case FromReserve => l.reserve
    case FromAccount(a) => if AccountAt(l, a).Ok? then AccountAt(l, a).value.lamports else 0
  }

  /** The program takes a withdrawal off the books, and out of the account, exactly as `Settle` does. */
  lemma SettleIsTheProgram(s: State, source: Source, tokens: u64, exempt: bool)
    requires WithdrawStake(s, source, tokens, exempt).Ok?
    ensures
      var s', settled := WithdrawStake(s, source, tokens, exempt).value, Settle(s.pool, tokens, exempt);
      && s'.pool == settled.0
      && BalanceOf(s'.ledger, source) == BalanceOf(s.ledger, source) - settled.1
  {
    var w := PriceWithdrawal(s.pool, s.pool.stakeWithdrawalFee, tokens, exempt).value;
    if source.FromAccount? {
      AccountShrinks(s, w, source.address);
    }
  }

  lemma AccountShrinks(s: State, w: Withdrawal, a: Address)
    requires WithdrawFromAccount(s, w, a).Ok?
    ensures
      var s' := WithdrawFromAccount(s, w, a).value;
      && Debit(s, w).Ok? && s'.pool == Debit(s, w).value.pool
      && AccountAt(s.ledger, a).Ok? && AccountAt(s'.ledger, a).Ok?
      && AccountAt(s'.ledger, a).value.lamports == AccountAt(s.ledger, a).value.lamports - w.lamports
  {
  }

  /** Undoing the fee overshoots by less than a token: what is left to burn fits the listing. */
  lemma BurntWithinListing(pool: StakePool, listing: Listing, minBalance: u64, skipFee: bool, entry: WithdrawAccount)
    requires pool.stakeWithdrawalFee.AtMostOne() && WithinListing(pool, listing, minBalance, skipFee, entry)
    ensures
      var fee := if skipFee then 0 else pool.stakeWithdrawalFee.Apply(entry.poolAmount);
      entry.poolAmount - fee <= TokensForDeposit(pool.totalLamports, pool.poolTokenSupply, listing.lamports).value
  {
    if !skipFee {
      var fee := pool.stakeWithdrawalFee;
      FeeInversion(entry.poolAmount,
                   TokensForDeposit(pool.totalLamports, pool.poolTokenSupply, listing.lamports).value,
                   fee.numerator, fee.denominator);
    }
  }

  lemma FeeInversion(amount: nat, offered: nat, numerator: nat, denominator: nat)
    requires numerator < denominator
    requires amount <= offered * denominator / (denominator - numerator)
    ensures amount - amount * numerator / denominator <= offered
  {
    var kept := denominator - numerator;
    MulNonNeg(offered, denominator);
    FloorBounds(offered * denominator, kept);
    MulMono(amount, offered * denominator / kept, kept, kept);
    MulNonNeg(amount, numerator);
    FloorBounds(amount * numerator, denominator);
    InvertedShare(amount, offered, numerator, denominator, amount * numerator / denominator);
  }

  lemma InvertedShare(amount: nat, offered: nat, numerator: nat, denominator: nat, fee: nat)
    requires numerator < denominator
    requires amount * (denominator - numerator) <= offered * denominator
    requires amount * numerator < fee * denominator + denominator
    ensures amount - fee <= offered
  {
    assert (amount - fee) * denominator == amount * (denominator - numerator) + amount * numerator - fee * denominator;
    assert (offered + 1) * denominator == offered * denominator + denominator;
    CancelLt(amount - fee, offered + 1, denominator);
  }

  /** The exchange rate the plan was made at is never exceeded while it runs. */
  ghost predicate NoDearer(pool: StakePool, now: StakePool) {
    now.totalLamports * pool.poolTokenSupply <= pool.totalLamports * now.poolTokenSupply
  }

  lemma SettleNoDearer(pool: StakePool, now: StakePool, tokens: u64, exempt: bool)
    requires NoDearer(pool, now)
    ensures NoDearer(pool, Settle(now, tokens, exempt).0)
  {
    var next := Settle(now, tokens, exempt).0;
    if next != now {
      var burnt := PriceWithdrawal(now, now.stakeWithdrawalFee, tokens, exempt).value.burnt;
      WithdrawalBoundsRate(now.totalLamports, now.poolTokenSupply, burnt);
      RedemptionBounds(now.totalLamports, now.poolTokenSupply, burnt);
      ChainRates(next.totalLamports, next.poolTokenSupply, now.totalLamports, now.poolTokenSupply,
                 pool.totalLamports, pool.poolTokenSupply);
    }
  }

  lemma StepNoDearer(pool: StakePool, before: State, entry: WithdrawAccount, exempt: bool, after: State)
    requires NoDearer(pool, before.pool)
    requires after == Next(before, DoWithdrawStake(entry.source, entry.poolAmount, exempt))
    ensures NoDearer(pool, after.pool) && after.pool.stakeWithdrawalFee == before.pool.stakeWithdrawalFee
  {
    if WithdrawStake(before, entry.source, entry.poolAmount, exempt).Ok? {
      SettleIsTheProgram(before, entry.source, entry.poolAmount, exempt);
      SettleNoDearer(pool, before.pool, entry.poolAmount, exempt);
    }
  }

  lemma {:induction false} RunNoDearer(s: State, plan: seq<WithdrawAccount>, exempt: bool, k: nat)
    requires k <= |plan|
    ensures NoDearer(s.pool, After(s, plan, exempt, k).pool)
    ensures After(s, plan, exempt, k).pool.stakeWithdrawalFee == s.pool.stakeWithdrawalFee
  {
    if k > 0 {
      RunNoDearer(s, plan, exempt, k - 1);
      AfterStep(s, plan, exempt, k - 1);
      StepNoDearer(s.pool, After(s, plan, exempt, k - 1), plan[k - 1], exempt, After(s, plan, exempt, k));
    } else {
      NothingDone(s, plan, exempt);
    }
  }

  /** At a rate no dearer than the plan's, tokens within a listing redeem for at most its lamports. */
  lemma RedeemsWithin(pool: StakePool, now: StakePool, lamports: u64, burnt: u64)
    requires pool.totalLamports > 0 && pool.poolTokenSupply > 0 && NoDearer(pool, now)
    requires TokensForDeposit(pool.totalLamports, pool.poolTokenSupply, lamports).Some?
    requires burnt <= TokensForDeposit(pool.totalLamports, pool.poolTokenSupply, lamports).value
    requires burnt <= now.poolTokenSupply
    ensures LamportsForTokens(now.totalLamports, now.poolTokenSupply, burnt).Some?
    ensures LamportsForTokens(now.totalLamports, now.poolTokenSupply, burnt).value <= lamports
  {
    var t, s := pool.totalLamports, pool.poolTokenSupply;
    FloorBounds(lamports * s, t);
    MulMono(burnt, lamports * s / t, t, t);
    TwiceScaled(burnt, lamports, t, s, now.totalLamports, now.poolTokenSupply);
    RedemptionAtMost(now.totalLamports, now.poolTokenSupply, burnt, lamports);
  }

  lemma TwiceScaled(burnt: nat, lamports: nat, t: nat, s: nat, t': nat, s': nat)
    requires s > 0 && burnt * t <= lamports * s && t' * s <= t * s'
    ensures burnt * t' <= lamports * s'
  {
    MulMono(t' * s, t * s', burnt, burnt);
    MulMono(burnt * t, lamports * s, s', s');
    assert (t' * s) * burnt == (burnt * t') * s;
    assert (t * s') * burnt == (burnt * t) * s';
    assert (lamports * s) * s' == (lamports * s') * s;
    CancelLe(burnt * t', lamports * s', s);
  }

  /** In a state no dearer than the one a plan was made in, an entry redeems for at most what is listed. */
  lemma EntryWithinListing(pool: StakePool, now: StakePool, listing: Listing, minBalance: u64, skipFee: bool,
                           entry: WithdrawAccount)
    requires pool.totalLamports > 0 && pool.poolTokenSupply > 0 && pool.stakeWithdrawalFee.AtMostOne()
    requires WithinListing(pool, listing, minBalance, skipFee, entry)
    requires NoDearer(pool, now) && now.stakeWithdrawalFee == pool.stakeWithdrawalFee
    ensures
      var priced := PriceWithdrawal(now, now.stakeWithdrawalFee, entry.poolAmount, skipFee);
      priced.Ok? && priced.value.burnt <= now.poolTokenSupply ==> priced.value.lamports <= listing.lamports
  {
    var priced := PriceWithdrawal(now, now.stakeWithdrawalFee, entry.poolAmount, skipFee);
    BurntWithinListing(pool, listing, minBalance, skipFee, entry);
    if priced.Ok? && priced.value.burnt <= now.poolTokenSupply {
      RedeemsWithin(pool, now, listing.lamports, priced.value.burnt);
    }
  }

  /** When the program runs a plan in order, no withdrawal takes more lamports out of its account than
      were listed for it. */
  lemma PlanNeverOverdraws(s: State, accounts: seq<Listing>, minBalance: u64, skipFee: bool,
                           plan: seq<WithdrawAccount>, picks: seq<nat>, k: nat)
    requires s.pool.totalLamports > 0 && s.pool.poolTokenSupply > 0 && s.pool.stakeWithdrawalFee.AtMostOne()
    requires Draws(s.pool, accounts, minBalance, skipFee, plan, picks) && k < |plan|
    ensures BalanceOf(After(s, plan, skipFee, k).ledger, plan[k].source)
         <= BalanceOf(After(s, plan, skipFee, k + 1).ledger, plan[k].source) + accounts[picks[k]].lamports
  {
    var before, entry := After(s, plan, skipFee, k), plan[k];
    RunNoDearer(s, plan, skipFee, k);
    AfterStep(s, plan, skipFee, k);
    assert WithinListing(s.pool, accounts[picks[k]], minBalance, skipFee, entry);
    EntryWithinListing(s.pool, before.pool, accounts[picks[k]], minBalance, skipFee, entry);
    if WithdrawStake(before, entry.source, entry.poolAmount, skipFee).Ok? {
      SettleIsTheProgram(before, entry.source, entry.poolAmount, skipFee);
    }
  }

  /** A withdrawal leaves every account but its own alone. */
  lemma OthersUntouched(s: State, source: Source, tokens: u64, exempt: bool, other: Source)
    requires other != source
    ensures BalanceOf(Next(s, DoWithdrawStake(source, tokens, exempt)).ledger, other) == BalanceOf(s.ledger, other)
  {
    if WithdrawStake(s, source, tokens, exempt).Ok? {
      AcceptedUntouched(s, source, tokens, exempt, other);
    }
  }

  lemma AcceptedUntouched(s: State, source: Source, tokens: u64, exempt: bool, other: Source)
    requires WithdrawStake(s, source, tokens, exempt).Ok? && other != source
    ensures BalanceOf(WithdrawStake(s, source, tokens, exempt).value.ledger, other) == BalanceOf(s.ledger, other)
  {
    var w := PriceWithdrawal(s.pool, s.pool.stakeWithdrawalFee, tokens, exempt).value;
    match source
    case FromReserve =>
    case FromAccount(a) => OtherAccountsUntouched(s, w, a, other);
  }

  lemma OtherAccountsUntouched(s: State, w: Withdrawal, a: Address, other: Source)
    requires WithdrawFromAccount(s, w, a).Ok? && other != FromAccount(a)
    ensures BalanceOf(WithdrawFromAccount(s, w, a).value.ledger, other) == BalanceOf(s.ledger, other)
  {
  }

  ghost predicate DistinctSources(accounts: seq<Listing>) {
    forall i, j :: 0 <= i < j < |accounts| ==> accounts[i].source != accounts[j].source
  }

  lemma NothingDone(s: State, plan: seq<WithdrawAccount>, exempt: bool)
    ensures After(s, plan, exempt, 0) == s
  {
    assert Requests(plan, exempt)[..0] == [];
  }

  /** Over the whole plan, no account loses more lamports than were listed for it. */
  lemma PlanWithinListings(s: State, accounts: seq<Listing>, minBalance: u64, skipFee: bool,
                           plan: seq<WithdrawAccount>, picks: seq<nat>, k: nat)
    requires s.pool.totalLamports > 0 && s.pool.poolTokenSupply > 0 && s.pool.stakeWithdrawalFee.AtMostOne()
    requires Draws(s.pool, accounts, minBalance, skipFee, plan, picks) && DistinctSources(accounts)
    requires k < |plan|
    ensures BalanceOf(s.ledger, plan[k].source)
         <= BalanceOf(After(s, plan, skipFee, |plan|).ledger, plan[k].source) + accounts[picks[k]].lamports
  {
    NothingDone(s, plan, skipFee);
    SourcesPicked(s.pool, accounts, minBalance, skipFee, plan, picks);
    UntouchedBetween(s, plan, skipFee, 0, k, plan[k].source);
    PlanNeverOverdraws(s, accounts, minBalance, skipFee, plan, picks, k);
    UntouchedBetween(s, plan, skipFee, k + 1, |plan|, plan[k].source);
  }

  /** An account the plan does not draw on loses nothing. */
  lemma PlanLeavesOthers(s: State, plan: seq<WithdrawAccount>, exempt: bool, other: Source)
    requires forall k :: 0 <= k < |plan| ==> plan[k].source != other
    ensures BalanceOf(After(s, plan, exempt, |plan|).ledger, other) == BalanceOf(s.ledger, other)
  {
    NothingDone(s, plan, exempt);
    UntouchedBetween(s, plan, exempt, 0, |plan|, other);
  }

  /** Different entries, and listings not drawn on, have different sources. */
  lemma SourcesPicked(pool: StakePool, accounts: seq<Listing>, minBalance: u64, skipFee: bool,
                      plan: seq<WithdrawAccount>, picks: seq<nat>)
    requires Draws(pool, accounts, minBalance, skipFee, plan, picks) && DistinctSources(accounts)
    ensures forall k, i :: 0 <= k < |plan| && 0 <= i < |accounts| ==>
      (plan[k].source == accounts[i].source <==> picks[k] == i)
  {
    forall k, i | 0 <= k < |plan| && 0 <= i < |accounts|
      ensures plan[k].source == accounts[i].source <==> picks[k] == i
    {
      assert WithinListing(pool, accounts[picks[k]], minBalance, skipFee, plan[k]);
    }
  }

  lemma UntouchedBetween(s: State, plan: seq<WithdrawAccount>, exempt: bool, start: nat, end: nat, other: Source)
    requires start <= end <= |plan| && forall j :: start <= j < end ==> plan[j].source != other
    ensures BalanceOf(After(s, plan, exempt, end).ledger, other)
         == BalanceOf(After(s, plan, exempt, start).ledger, other)
  {
    var balances := seq(|plan| + 1, k requires 0 <= k <= |plan| => BalanceOf(After(s, plan, exempt, k).ledger, other));
    forall j | start <= j < end
      ensures balances[j + 1] == balances[j]
    {
      StepUntouched(s, plan, exempt, j, other);
    }
    ConstantBetween(balances, start, end);
  }

  lemma {:induction false} HoldsUpTo(x: seq<bool>, k: nat)
    requires k < |x| && x[0] && forall j :: 0 <= j < k && x[j] ==> x[j + 1]
    ensures x[k]
  {
    if k > 0 {
      HoldsUpTo(x, k - 1);
      assert x[k - 1 + 1];
    }
  }

  lemma {:induction false} ConstantBetween(x: seq<nat>, start: nat, end: nat)
    requires start <= end < |x| && forall j :: start <= j < end ==> x[j + 1] == x[j]
    ensures x[end] == x[start]
    decreases end
  {
    if start < end {
      ConstantBetween(x, start, end - 1);
      assert x[end - 1 + 1] == x[end - 1];
    }
  }

  lemma StepUntouched(s: State, plan: seq<WithdrawAccount>, exempt: bool, k: nat, other: Source)
    requires k < |plan| && other != plan[k].source
    ensures BalanceOf(After(s, plan, exempt, k + 1).ledger, other) == BalanceOf(After(s, plan, exempt, k).ledger, other)
  {
    AfterStep(s, plan, exempt, k);
    OthersUntouched(After(s, plan, exempt, k), plan[k].source, plan[k].poolAmount, exempt, other);
  }
}
