/** The invariants over whole runs, from the creation of a pool on. */
module Runs {
  import opened Numbers
  import opened Errors
  import opened PoolState
  import opened Steps
  import opened ListInvariant
  import opened Solvency
  import opened SolvencySteps
  import opened Holdings
  import opened FeeInvariant
  import opened SupplyInvariant

  ghost predicate AllAdmitted(s: State, actions: seq<Action>, m: Mode) {
    forall i :: 0 <= i < |actions| ==> Admits(m, Run(s, actions[..i]), actions[i])
  }

  lemma AllAdmittedPrefix(s: State, actions: seq<Action>, m: Mode)
    requires |actions| > 0 && AllAdmitted(s, actions, m)
    ensures AllAdmitted(s, actions[..|actions| - 1], m)
    ensures Admits(m, Run(s, actions[..|actions| - 1]), actions[|actions| - 1])
  {
    var before := actions[..|actions| - 1];
    forall i | 0 <= i < |before|
      ensures Admits(m, Run(s, before[..i]), before[i])
    {
      assert before[..i] == actions[..i];
    }
  }

  lemma InitialInvariants(p: Setup, m: Mode)
    requires Initialize(p).Ok? && (m.pristine ==> p.stakeRent > 0)
    ensures
      var s := Initialize(p).value;
      ListInv(s) && LedgerInv(s, m) && FeesInv(s.pool) && PendingCapped(s.pool) && SupplyInv(s, true)
  {
  }

  /** Vote addresses stay distinct, no run outgrows the list, preferred validators are active, and
      records are never staler than the pool, whatever anybody does. */
  lemma {:induction false} ListOverRuns(s: State, actions: seq<Action>)
    requires ListInv(s)
    ensures ListInv(Run(s, actions))
  {
    if |actions| > 0 {
      ListOverRuns(s, actions[..|actions| - 1]);
      NextKeepsListInv(Run(s, actions[..|actions| - 1]), actions[|actions| - 1]);
    }
  }

  lemma {:induction false} FeesOverRuns(s: State, actions: seq<Action>)
    requires FeesInv(s.pool)
    ensures FeesInv(Run(s, actions).pool)
  {
    if |actions| > 0 {
      FeesOverRuns(s, actions[..|actions| - 1]);
      NextKeepsFeesInv(Run(s, actions[..|actions| - 1]), actions[|actions| - 1]);
    }
  }

  /** No holder burns tokens behind the pool's back. */
  ghost predicate Unburnt(actions: seq<Action>) {
    forall i :: 0 <= i < |actions| ==> !actions[i].DoBurnByHolder?
  }

  lemma {:induction false} SupplyOverRuns(s: State, actions: seq<Action>, unburnt: bool)
    requires SupplyInv(s, unburnt) && (unburnt ==> Unburnt(actions))
    ensures SupplyInv(Run(s, actions), unburnt)
  {
    if |actions| > 0 {
      SupplyOverRuns(s, actions[..|actions| - 1], unburnt);
      NextKeepsSupplyInv(Run(s, actions[..|actions| - 1]), actions[|actions| - 1], unburnt);
    }
  }

  lemma {:induction false} LedgerOverRuns(s: State, actions: seq<Action>, m: Mode)
    requires ListInv(s) && LedgerInv(s, m) && AllAdmitted(s, actions, m)
    ensures LedgerInv(Run(s, actions), m)
  {
    if |actions| > 0 {
      var before := actions[..|actions| - 1];
      AllAdmittedPrefix(s, actions, m);
      LedgerOverRuns(s, before, m);
      ListOverRuns(s, before);
      NextKeepsLedgerInv(Run(s, before), actions[|actions| - 1], m);
    }
  }

  /** Whenever the pool is current (or, without losses, at any time) what it owes is covered by the
      reserve above its minimum and the recorded stake, exactly so if nobody gave lamports away; and
      the lamports behind those records are really in the pool's accounts. */
  ghost predicate Backed(s: State, m: Mode) {
    var assets := s.ledger.reserve - MinimumReserveLamports(s.ledger.reserveRent) + StakeSum(s.validators);
    && (m.lossFree || Current(s) ==> s.pool.totalLamports <= assets)
    && (m.Exact() && Current(s) ==> s.pool.totalLamports == assets)
    && (m.lossFree || Current(s) ==>
          s.pool.totalLamports + MinimumReserveLamports(s.ledger.reserveRent)
          + MINIMUM_ACTIVE_STAKE * ActiveCount(s.validators) <= Held(s.ledger))
  }

  /** Solvency over every run, from the creation of the pool on. */
  lemma SolventOverRuns(p: Setup, actions: seq<Action>, m: Mode)
    requires Initialize(p).Ok? && (m.pristine ==> p.stakeRent > 0)
    requires AllAdmitted(Initialize(p).value, actions, m)
    ensures Backed(Run(Initialize(p).value, actions), m)
  {
    var s0 := Initialize(p).value;
    InitialInvariants(p, m);
    ListOverRuns(s0, actions);
    LedgerOverRuns(s0, actions, m);
    var s := Run(s0, actions);
    if m.lossFree || Current(s) {
      BooksAreBacked(s, m);
    }
  }

  /** At any point of any run, an instruction that passes the staleness test sees only records
      refreshed this epoch. */
  lemma CurrentPoolsAreFresh(p: Setup, actions: seq<Action>)
    requires Initialize(p).Ok?
    ensures
      var s := Run(Initialize(p).value, actions);
      Current(s) ==> forall i :: 0 <= i < |s.validators| ==> s.validators[i].lastUpdateEpoch == s.ledger.epoch
  {
    InitialInvariants(p, Mode(false, false, false));
    ListOverRuns(Initialize(p).value, actions);
  }

  /** At any point of any run, taking stake out of the reserve leaves it its minimum. */
  lemma ReserveKeepsMinimum(p: Setup, actions: seq<Action>, m: Mode, tokens: u64, exempt: bool)
    requires Initialize(p).Ok? && (m.pristine ==> p.stakeRent > 0)
    requires AllAdmitted(Initialize(p).value, actions, m)
    requires WithdrawStake(Run(Initialize(p).value, actions), FromReserve, tokens, exempt).Ok?
    ensures
      var s := Run(Initialize(p).value, actions);
      WithdrawStake(s, FromReserve, tokens, exempt).value.ledger.reserve
      >= MinimumReserveLamports(s.ledger.reserveRent)
  {
    var s := Run(Initialize(p).value, actions);
    InitialInvariants(p, m);
    LedgerOverRuns(Initialize(p).value, actions, m);
    var w := PriceWithdrawal(s.pool, s.pool.stakeWithdrawalFee, tokens, exempt).value;
    ReserveWithdrawalKeepsMinimum(s, w, m);
  }

  /** Promotions happen at most once per epoch, so fees are bounded by the epochs that have passed. */
  lemma {:induction false} PromotionsWithinEpochs(s: State, actions: seq<Action>)
    requires ListInv(s)
    ensures s.pool.lastUpdateEpoch + Promotions(s, actions) <= Run(s, actions).pool.lastUpdateEpoch
  {
    if |actions| > 0 {
      var before, last := actions[..|actions| - 1], actions[|actions| - 1];
      PromotionsWithinEpochs(s, before);
      if !last.DoSetFee? && !last.DoUpdatePool? {
        OthersKeepFees(Run(s, before), last);
      }
    }
  }

  /** A withdrawal fee is at most `max(initial, 1/1000)` times 3/2 for every epoch that has passed, if
      all fees proposed have components below 2^63. */
  lemma FeeGrowthByEpochs(s: State, actions: seq<Action>)
    requires ListInv(s) && PendingCapped(s.pool) && SmallFees(s.pool) && SmallProposals(actions)
    ensures s.pool.lastUpdateEpoch <= Run(s, actions).pool.lastUpdateEpoch
    ensures WithinPromotions(s.pool, Run(s, actions).pool,
                             Run(s, actions).pool.lastUpdateEpoch - s.pool.lastUpdateEpoch)
  {
    var end, k := Run(s, actions).pool, Promotions(s, actions);
    PromotionsWithinEpochs(s, actions);
    SmallFeesGrowth(s, actions);
    MorePromotions(s.pool, end, k, end.lastUpdateEpoch - s.pool.lastUpdateEpoch);
  }

  lemma InitialSmallFees(p: Setup)
    requires Initialize(p).Ok? && Small(p.withdrawalFee)
    ensures ListInv(Initialize(p).value) && PendingCapped(Initialize(p).value.pool)
    ensures SmallFees(Initialize(p).value.pool)
  {
  }

  /** From creation on this takes no more than a small fee to start with. */
  lemma FeeGrowthFromCreation(p: Setup, s: State, actions: seq<Action>)
    requires Initialize(p) == Ok(s) && Small(p.withdrawalFee) && SmallProposals(actions)
    ensures s.pool.lastUpdateEpoch <= Run(s, actions).pool.lastUpdateEpoch
    ensures WithinPromotions(s.pool, Run(s, actions).pool,
                             Run(s, actions).pool.lastUpdateEpoch - s.pool.lastUpdateEpoch)
  {
    InitialSmallFees(p);
    FeeGrowthByEpochs(s, actions);
  }

  lemma MorePromotions(start: StakePool, end: StakePool, k: nat, n: nat)
    requires k <= n && WithinPromotions(start, end, k)
    ensures WithinPromotions(start, end, n)
  {
    LevelPositive(start.stakeWithdrawalFee);
    LevelPositive(start.solWithdrawalFee);
    GrownGrows(Level(start.stakeWithdrawalFee), k, n);
    GrownGrows(Level(start.solWithdrawalFee), k, n);
  }

  lemma {:induction false} GrownGrows(x: real, k: nat, n: nat)
    requires k <= n && x > 0.0
    ensures 0.0 < Grown(x, k) <= Grown(x, n)
    decreases n
  {
    if k < n {
      GrownGrows(x, k, n - 1);
    } else if k > 0 {
      GrownGrows(x, k - 1, n - 1);
    }
  }
}
