/** Whether a whole plan goes through, told from the state it is made in: the books are settled and the
    listed amounts used up on paper, without running the program. */
module PlanOutcome {
  import opened Numbers
  import opened Errors
  import opened Records
  import opened PoolState
  import opened Steps
  import opened ListInvariant
  import opened Solvency
  import opened WithdrawPlanner
  import opened PlanAcceptance

  /** The books once the first `k` entries are settled. */
  function Books(pool: StakePool, plan: seq<WithdrawAccount>, exempt: bool, k: nat): StakePool
    requires k <= |plan|
  {
    if k == 0 then pool else Settle(Books(pool, plan, exempt, k - 1), plan[k - 1].poolAmount, exempt).0
  }

  /** The lamports entry `k` is settled for. */
  function Taken(pool: StakePool, plan: seq<WithdrawAccount>, exempt: bool, k: nat): u64
    requires k < |plan|
  {
    Settle(Books(pool, plan, exempt, k), plan[k].poolAmount, exempt).1
  }

  /** What the first `k` entries take from a source. */
  function TakenFrom(pool: StakePool, plan: seq<WithdrawAccount>, exempt: bool, k: nat, source: Source): nat
    requires k <= |plan|
  {
    if k == 0 then 0
    else
      TakenFrom(pool, plan, exempt, k - 1, source)
      + (if plan[k - 1].source == source then Taken(pool, plan, exempt, k - 1) else 0)
  }

  function ActiveSource(r: ValidatorStakeInfo): Source {
    FromAccount(ValidatorStakeAddress(r.voteAccountAddress))
  }

  function TransientSource(r: ValidatorStakeInfo): Source {
    FromAccount(TransientStakeAddress(r.voteAccountAddress, r.transientSeedSuffixStart))
  }

  /** The first `k` entries use up all active stake the record shows. */
  predicate ActiveUsed(s: State, plan: seq<WithdrawAccount>, exempt: bool, k: nat, i: nat)
    requires k <= |plan| && i < |s.validators|
  {
    TakenFrom(s.pool, plan, exempt, k, ActiveSource(s.validators[i])) == s.validators[i].activeStakeLamports
  }

  predicate TransientUsed(s: State, plan: seq<WithdrawAccount>, exempt: bool, k: nat, i: nat)
    requires k <= |plan| && i < |s.validators|
  {
    TakenFrom(s.pool, plan, exempt, k, TransientSource(s.validators[i])) == s.validators[i].transientStakeLamports
  }

  /** On paper, the turn of entry `k` has come once the entries before it are settled. */
  predicate ComesInTurn(s: State, plan: seq<WithdrawAccount>, exempt: bool, k: nat)
    requires k < |plan|
  {
    var allActive := forall i :: 0 <= i < |s.validators| ==> ActiveUsed(s, plan, exempt, k, i);
    match plan[k].source
    case FromReserve => allActive && forall i :: 0 <= i < |s.validators| ==> TransientUsed(s, plan, exempt, k, i)
    case FromAccount(OtherAddress(_)) => false
    case FromAccount(ValidatorStakeAddress(vote)) =>
      s.pool.preferredWithdraw.None? ||
      var preferred := s.pool.preferredWithdraw.value;
      var found := FindVote(s.validators, preferred);
      found.Some? && (preferred == vote || ActiveUsed(s, plan, exempt, k, found.value))
    case FromAccount(TransientStakeAddress(vote, _)) =>
      var found := FindVote(s.validators, vote);
      allActive && found.Some? && s.validators[found.value].status == Active
  }

  /** On paper, entry `k` redeems for something and comes in turn. */
  predicate Due(s: State, plan: seq<WithdrawAccount>, exempt: bool, k: nat)
    requires k < |plan|
  {
    var books := Books(s.pool, plan, exempt, k);
    && PriceWithdrawal(books, books.stakeWithdrawalFee, plan[k].poolAmount, exempt).Ok?
    && ComesInTurn(s, plan, exempt, k)
  }

  /** The program accepts entry `k` when it comes to it. */
  predicate Accepted(s: State, plan: seq<WithdrawAccount>, exempt: bool, k: nat)
    requires k < |plan|
  {
    WithdrawStake(After(s, plan, exempt, k), plan[k].source, plan[k].poolAmount, exempt).Ok?
  }

  // ----- The paper agrees with the program -----

  /** The record shows what is left on paper. */
  ghost predicate RecordPredicted(s: State, plan: seq<WithdrawAccount>, exempt: bool, k: nat, r: ValidatorStakeInfo,
                                  r': ValidatorStakeInfo)
    requires k <= |plan|
  {
    && r'.voteAccountAddress == r.voteAccountAddress
    && r'.transientSeedSuffixStart == r.transientSeedSuffixStart && r'.status == r.status
    && r'.activeStakeLamports + TakenFrom(s.pool, plan, exempt, k, ActiveSource(r)) == r.activeStakeLamports
    && r'.transientStakeLamports + TakenFrom(s.pool, plan, exempt, k, TransientSource(r)) == r.transientStakeLamports
  }

  /** The state agrees with the paper after `k` entries. */
  ghost predicate Predicted(s: State, plan: seq<WithdrawAccount>, exempt: bool, k: nat, t: State)
    requires k <= |plan|
  {
    && t.pool == Books(s.pool, plan, exempt, k) && t.pool.preferredWithdraw == s.pool.preferredWithdraw
    && |t.validators| == |s.validators|
    && forall i :: 0 <= i < |s.validators| ==>
         RecordPredicted(s, plan, exempt, k, s.validators[i], t.validators[i])
  }

  /** What an accepted withdrawal takes off a record. */
  ghost predicate Shrunk(r: ValidatorStakeInfo, source: Source, lamports: u64, r': ValidatorStakeInfo) {
    && r'.voteAccountAddress == r.voteAccountAddress
    && r'.transientSeedSuffixStart == r.transientSeedSuffixStart && r'.status == r.status
    && r'.activeStakeLamports == r.activeStakeLamports - (if source == ActiveSource(r) then lamports else 0)
    && r'.transientStakeLamports == r.transientStakeLamports - (if source == TransientSource(r) then lamports else 0)
  }

  lemma AccountWithdrawalShrinks(s: State, a: Address, w: Withdrawal, i: nat)
    requires WithdrawFromAccount(s, w, a).Ok? && DistinctVotes(s.validators) && i < |s.validators|
    ensures
      var s' := WithdrawFromAccount(s, w, a).value;
      |s'.validators| == |s.validators| && Shrunk(s.validators[i], FromAccount(a), w.lamports, s'.validators[i])
  {
  }

  lemma WithdrawalShrinks(s: State, source: Source, tokens: u64, exempt: bool, i: nat)
    requires WithdrawStake(s, source, tokens, exempt).Ok? && DistinctVotes(s.validators) && i < |s.validators|
    ensures
      var s' := WithdrawStake(s, source, tokens, exempt).value;
      && |s'.validators| == |s.validators|
      && Shrunk(s.validators[i], source, Settle(s.pool, tokens, exempt).1, s'.validators[i])
  {
    SettleIsTheProgram(s, source, tokens, exempt);
    var w := PriceWithdrawal(s.pool, s.pool.stakeWithdrawalFee, tokens, exempt).value;
    match source
    case FromReserve =>
    case FromAccount(a) => AccountWithdrawalShrinks(s, a, w, i);
  }

  lemma PredictedStep(s: State, plan: seq<WithdrawAccount>, exempt: bool, k: nat, t: State, t': State)
    requires k < |plan| && Predicted(s, plan, exempt, k, t) && DistinctVotes(t.validators)
    requires WithdrawStake(t, plan[k].source, plan[k].poolAmount, exempt) == Ok(t')
    ensures Predicted(s, plan, exempt, k + 1, t')
  {
    SettleIsTheProgram(t, plan[k].source, plan[k].poolAmount, exempt);
    WithdrawalKeepsList(t, plan[k].source, plan[k].poolAmount, exempt);
    forall i | 0 <= i < |s.validators|
      ensures RecordPredicted(s, plan, exempt, k + 1, s.validators[i], t'.validators[i])
    {
      assert RecordPredicted(s, plan, exempt, k, s.validators[i], t.validators[i]);
      WithdrawalShrinks(t, plan[k].source, plan[k].poolAmount, exempt, i);
    }
  }

  lemma WithdrawalKeepsList(s: State, source: Source, tokens: u64, exempt: bool)
    requires WithdrawStake(s, source, tokens, exempt).Ok?
    ensures |WithdrawStake(s, source, tokens, exempt).value.validators| == |s.validators|
    ensures Settle(s.pool, tokens, exempt).0.preferredWithdraw == s.pool.preferredWithdraw
  {
  }

  ghost predicate All(x: seq<bool>, k: nat)
    requires k <= |x|
  {
    forall j :: 0 <= j < k ==> x[j]
  }

  function Accepts(s: State, plan: seq<WithdrawAccount>, exempt: bool): (r: seq<bool>)
    ensures |r| == |plan| && forall k :: 0 <= k < |plan| ==> r[k] == Accepted(s, plan, exempt, k)
  {
    seq(|plan|, k requires 0 <= k < |plan| => Accepted(s, plan, exempt, k))
  }

  /** Whether the program, after `k` entries, is where the paper says. */
  ghost predicate Agrees(s: State, plan: seq<WithdrawAccount>, exempt: bool, k: nat)
    requires k <= |plan|
  {
    Predicted(s, plan, exempt, k, After(s, plan, exempt, k))
  }

  ghost function Agreement(s: State, plan: seq<WithdrawAccount>, exempt: bool): (r: seq<bool>)
    ensures |r| == |plan| + 1 && forall k :: 0 <= k <= |plan| ==> r[k] == Agrees(s, plan, exempt, k)
  {
    seq(|plan| + 1, k requires 0 <= k <= |plan| => Agrees(s, plan, exempt, k))
  }

  lemma PaperStep(s: State, plan: seq<WithdrawAccount>, exempt: bool, k: nat, m: Mode)
    requires k < |plan| && Sound(s, m) && Accepts(s, plan, exempt)[k] && Agreement(s, plan, exempt)[k]
    ensures Agreement(s, plan, exempt)[k + 1]
  {
    SoundAfter(s, plan, exempt, k, m);
    AfterStep(s, plan, exempt, k);
    PredictedStep(s, plan, exempt, k, After(s, plan, exempt, k), After(s, plan, exempt, k + 1));
  }

  lemma PaperStart(s: State, plan: seq<WithdrawAccount>, exempt: bool)
    ensures Agreement(s, plan, exempt)[0]
  {
    NothingDone(s, plan, exempt);
  }

  /** If the program accepts the first `k` entries, it is where the paper says. */
  lemma PaperAgrees(s: State, plan: seq<WithdrawAccount>, exempt: bool, k: nat, m: Mode)
    requires k <= |plan| && Sound(s, m) && All(Accepts(s, plan, exempt), k)
    ensures Agreement(s, plan, exempt)[k]
  {
    var agreement := Agreement(s, plan, exempt);
    PaperStart(s, plan, exempt);
    forall j | 0 <= j < k && agreement[j]
      ensures agreement[j + 1]
    {
      PaperStep(s, plan, exempt, j, m);
    }
    HoldsUpTo(agreement, k);
  }

  lemma TurnAgrees(s: State, plan: seq<WithdrawAccount>, exempt: bool, k: nat, t: State)
    requires k < |plan| && Predicted(s, plan, exempt, k, t)
    ensures InTurn(t, plan[k].source) <==> ComesInTurn(s, plan, exempt, k)
  {
    forall i | 0 <= i < |s.validators|
      ensures ActiveUsed(s, plan, exempt, k, i) <==> t.validators[i].activeStakeLamports == 0
      ensures TransientUsed(s, plan, exempt, k, i) <==> t.validators[i].transientStakeLamports == 0
      ensures t.validators[i].voteAccountAddress == s.validators[i].voteAccountAddress
      ensures t.validators[i].transientSeedSuffixStart == s.validators[i].transientSeedSuffixStart
      ensures t.validators[i].status == s.validators[i].status
    {
      assert RecordPredicted(s, plan, exempt, k, s.validators[i], t.validators[i]);
    }
    if plan[k].source.FromAccount? && plan[k].source.address.TransientStakeAddress? {
      FoundWhereItWas(s.validators, t.validators, plan[k].source.address.vote);
    } else if s.pool.preferredWithdraw.Some? {
      FoundWhereItWas(s.validators, t.validators, s.pool.preferredWithdraw.value);
    }
  }

  /** A plan is made for this state, for tokens that exist. */
  ghost predicate MadeFor(s: State, accounts: seq<Listing>, skipFee: bool, plan: seq<WithdrawAccount>,
                          picks: seq<nat>, m: Mode) {
    && Sound(s, m) && s.pool.totalLamports > 0 && s.pool.poolTokenSupply > 0
    && s.pool.stakeWithdrawalFee.AtMostOne()
    && ListsState(s, accounts, MinimumStakeLamports(s.ledger.stakeRent))
    && Draws(s.pool, accounts, MinimumStakeLamports(s.ledger.stakeRent), skipFee, plan, picks)
    && PlannedTokens(plan) <= s.ledger.mintSupply
  }

  /** As long as every entry before it was accepted, the paper decides entry `k`. */
  lemma DueExactly(s: State, accounts: seq<Listing>, skipFee: bool, plan: seq<WithdrawAccount>, picks: seq<nat>,
                   k: nat, m: Mode)
    requires MadeFor(s, accounts, skipFee, plan, picks, m) && k < |plan|
    requires All(Accepts(s, plan, skipFee), k)
    ensures Accepted(s, plan, skipFee, k) <==> Due(s, plan, skipFee, k)
  {
    PlanAcceptedExactly(s, accounts, skipFee, plan, picks, k, m);
    PaperAgrees(s, plan, skipFee, k, m);
    TurnAgrees(s, plan, skipFee, k, After(s, plan, skipFee, k));
  }

  /** Two series that agree as long as the first has held so far hold throughout together. */
  lemma {:induction false} HoldTogether(x: seq<bool>, y: seq<bool>, k: nat)
    requires k <= |x| == |y| && forall j :: 0 <= j < |x| && All(x, j) ==> x[j] == y[j]
    ensures All(x, k) <==> All(y, k)
  {
    if k > 0 {
      HoldTogether(x, y, k - 1);
      assert All(x, k) <==> All(x, k - 1) && x[k - 1];
      assert All(y, k) <==> All(y, k - 1) && y[k - 1];
    }
  }

  function Dues(s: State, plan: seq<WithdrawAccount>, exempt: bool): (r: seq<bool>)
    ensures |r| == |plan| && forall k :: 0 <= k < |plan| ==> r[k] == Due(s, plan, exempt, k)
  {
    seq(|plan|, k requires 0 <= k < |plan| => Due(s, plan, exempt, k))
  }

  /** Exactly which plans go through as a whole, which is what the client needs, since it sends the
      withdrawals in one transaction: those whose every entry is due on paper. */
  lemma WholePlanExactly(s: State, accounts: seq<Listing>, skipFee: bool, plan: seq<WithdrawAccount>,
                         picks: seq<nat>, m: Mode)
    requires MadeFor(s, accounts, skipFee, plan, picks, m)
    ensures All(Accepts(s, plan, skipFee), |plan|) <==> All(Dues(s, plan, skipFee), |plan|)
  {
    var accepts, dues := Accepts(s, plan, skipFee), Dues(s, plan, skipFee);
    forall k | 0 <= k < |plan| && All(accepts, k)
      ensures accepts[k] == dues[k]
    {
      DueExactly(s, accounts, skipFee, plan, picks, k, m);
    }
    HoldTogether(accepts, dues, |plan|);
  }
}
