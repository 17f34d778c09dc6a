/** The pool's record of its token supply against the mint's own. */
module SupplyInvariant {
  import opened Errors
  import opened PoolState
  import opened Steps
  import opened Effects

  /** What one step leaves of the tokens on record that no longer exist. */
  function DriftAfter(s: State, a: Action, drift: int): (r: int)
    ensures drift >= 0 ==> r >= 0
  {
    if Apply(s, a).Err? then drift
    else
      match a
      case DoUpdatePool(_) => 0
      case DoBurnByHolder(tokens) => drift + tokens
      case _ => drift
  }

  /** A pool update brings the record and the mint together, a holder's burn takes them apart by the
      tokens burnt, and no other step changes the distance. */
  lemma StepDrift(s: State, a: Action)
    ensures Drift(Next(s, a)) == DriftAfter(s, a, Drift(s))
  {
    if Trades(a) {
      TradeEffect(s, a);
    } else if LeavesBooks(a) {
      OtherEffect(s, a);
    } else if Apply(s, a).Ok? {
      match a
      case DoSetFee(fee) => SetFeeKeepsBooks(s, fee);
      case DoBurnByHolder(tokens) => BurnEffect(s, tokens);
      case DoUpdatePool(feeAccountValid) => UpdatePoolRestoresSupply(s, feeAccountValid);
    }
  }

  /** The tokens holders have burnt on their own since the last pool update of the run. */
  function BurntSince(s: State, actions: seq<Action>): (tokens: nat) {
    if |actions| == 0 then 0
    else
      var before := actions[..|actions| - 1];
      DriftAfter(Run(s, before), actions[|actions| - 1], BurntSince(s, before))
  }

  /** The pool never believes in fewer tokens than exist; it believes in the right number if no
      holder has burnt tokens on their own. */
  ghost predicate SupplyInv(s: State, unburnt: bool) {
    && s.ledger.mintSupply <= s.pool.poolTokenSupply
    && (unburnt ==> s.ledger.mintSupply == s.pool.poolTokenSupply)
  }

  lemma NextKeepsSupplyInv(s: State, a: Action, unburnt: bool)
    requires SupplyInv(s, unburnt) && (unburnt ==> !a.DoBurnByHolder?)
    ensures SupplyInv(Next(s, a), unburnt)
  {
    StepDrift(s, a);
  }

  /** A pool update reads the supply from the mint, so the two agree again afterwards. */
  lemma UpdatePoolRestoresSupply(s: State, feeAccountValid: bool)
    requires UpdateStakePool(s, feeAccountValid).Ok?
    ensures SupplyInv(UpdateStakePool(s, feeAccountValid).value, true)
  {
  }

  /** A second pool update right after the first mints nothing and changes nothing. */
  lemma UpdatePoolIdempotent(s: State, first: bool, second: bool)
    requires UpdateStakePool(s, first).Ok? && s.pool.lastUpdateEpoch <= s.ledger.epoch
    ensures
      var once := UpdateStakePool(s, first).value;
      UpdateStakePool(once, second) == Ok(once)
  {
  }

  /** Over every run that starts in agreement, the record exceeds the mint by exactly what holders have
      burnt since the last pool update. */
  lemma {:induction false} DriftOverRuns(s: State, actions: seq<Action>)
    requires Drift(s) == 0
    ensures Drift(Run(s, actions)) == BurntSince(s, actions)
  {
    if |actions| > 0 {
      DriftOverRuns(s, actions[..|actions| - 1]);
      StepDrift(Run(s, actions[..|actions| - 1]), actions[|actions| - 1]);
    }
  }

  /** So in every run from creation the record agrees with the mint if and only if nothing was burnt
      since the last pool update. */
  lemma SupplyAgreesExactly(p: Setup, s: State, actions: seq<Action>)
    requires Initialize(p) == Ok(s)
    ensures
      var end := Run(s, actions);
      end.pool.poolTokenSupply == end.ledger.mintSupply <==> BurntSince(s, actions) == 0
  {
    DriftOverRuns(s, actions);
  }

  /** Agreement is lost in every pool that has tokens, as soon as one of them is burnt. */
  lemma BurningLosesAgreement(p: Setup, s: State)
    requires Initialize(p) == Ok(s) && s.pool.poolTokenSupply > 0
    ensures
      var end := Run(s, [DoBurnByHolder(1)]);
      end.pool.poolTokenSupply == end.ledger.mintSupply + 1
  {
    OneStep(s, DoBurnByHolder(1));
    BurnEffect(s, 1);
  }

  // ----- A pool that holds lamports but has no tokens -----

  /** Burning every token and updating the pool leaves the lamports without an owner. */
  lemma EmptiedPool(p: Setup, s: State)
    requires Initialize(p) == Ok(s) && s.pool.totalLamports > 0
    ensures
      var end := Run(s, [DoBurnByHolder(s.pool.poolTokenSupply), DoUpdatePool(false)]);
      end.pool.poolTokenSupply == 0 && end.pool.totalLamports == s.pool.totalLamports
  {
    var burn := DoBurnByHolder(s.pool.poolTokenSupply);
    TwoSteps(s, burn, DoUpdatePool(false));
    BurningAll(s);
    UpdatingEmptyPool(Next(s, burn));
  }

  lemma BurningAll(s: State)
    requires s.pool.poolTokenSupply == s.ledger.mintSupply
    ensures Next(s, DoBurnByHolder(s.pool.poolTokenSupply)) == s.(ledger := s.ledger.(mintSupply := 0))
  {
  }

  lemma UpdatingEmptyPool(s: State)
    requires s.validators == [] && s.ledger.mintSupply == 0
    requires s.ledger.reserve - MinimumReserveLamports(s.ledger.reserveRent) == s.pool.totalLamports
    ensures UpdateStakePool(s, false).Ok?
    ensures
      var s' := UpdateStakePool(s, false).value;
      s'.pool.poolTokenSupply == 0 && s'.pool.totalLamports == s.pool.totalLamports
  {
  }
}
