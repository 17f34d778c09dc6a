/** The invariants of whole runs, of the program that edits bytes. */
module ByteRuns {
  import opened Numbers
  import opened Errors
  import opened PoolState
  import opened Steps
  import opened ListInvariant
  import opened Solvency
  import opened FeeInvariant
  import opened SupplyInvariant
  import opened Runs
  import opened ExchangeRate
  import opened Processors

  /** Creates a pool over the bytes of a list account and runs it through any instructions, epochs,
      donations and burns: it ends where the run of the state functions ends, so its list is well
      formed, its fees are bounded and grow slowly, its supply is not below the mint's and, in the steps
      the mode admits, the pool is solvent and its tokens keep their value. */
  method RunPool(p: Setup, bytes: array<u8>, actions: seq<Action>, ghost m: Mode) returns (r: Result<Processor>)
    requires p.listLength >= 5 ==> bytes.Length == p.listLength - 5
    requires m.pristine ==> p.stakeRent > 0
    modifies bytes
    ensures r.Ok? <==> Steps.Initialize(p).Ok?
    ensures r.Ok? ==> r.value.Valid() && r.value.Abs() == Run(Steps.Initialize(p).value, actions)
    ensures r.Ok? ==>
      ListInv(r.value.Abs()) && FeesInv(r.value.Abs().pool) && SupplyInv(r.value.Abs(), Unburnt(actions))
    ensures r.Ok? && AllAdmitted(Steps.Initialize(p).value, actions, m) ==> Backed(r.value.Abs(), m)
    ensures r.Ok? && Small(p.withdrawalFee) && SmallProposals(actions) ==>
      GrownWithin(Steps.Initialize(p).value.pool, r.value.Abs().pool)
    ensures r.Ok? && m.lossFree && AllAdmitted(Steps.Initialize(p).value, actions, m) ==>
      forall floor: nat :: floor > 0 && SupplyStays(Steps.Initialize(p).value, actions, floor) ==>
        WorthAtLeast(r.value.Abs(), Withdrawals(Steps.Initialize(p).value, actions), floor)
  {
    r := Processors.Initialize(p, bytes);
    if r.Ok? {
      Replay(r.value, actions);
      InvariantsFromCreation(p, actions, m);
      GrowthFromCreation(p, Steps.Initialize(p).value, actions);
      WorthFromCreation(p, Steps.Initialize(p).value, actions, m);
    }
  }

  /** Each withdrawal fee has grown by at most half for every epoch in between. */
  ghost predicate GrownWithin(start: StakePool, end: StakePool) {
    && start.lastUpdateEpoch <= end.lastUpdateEpoch
    && WithinPromotions(start, end, end.lastUpdateEpoch - start.lastUpdateEpoch)
  }

  /** A token is worth at least a lamport less `k / floor`. */
  ghost predicate WorthAtLeast(s: State, k: nat, floor: nat) {
    floor > 0 && s.pool.poolTokenSupply > 0 && Rate(s) >= 1.0 - Drops(k, floor)
  }

  lemma GrowthFromCreation(p: Setup, s: State, actions: seq<Action>)
    requires Steps.Initialize(p) == Ok(s)
    ensures Small(p.withdrawalFee) && SmallProposals(actions) ==> GrownWithin(s.pool, Run(s, actions).pool)
  {
    if Small(p.withdrawalFee) && SmallProposals(actions) {
      FeeGrowthFromCreation(p, s, actions);
    }
  }

  lemma WorthFromCreation(p: Setup, s: State, actions: seq<Action>, m: Mode)
    requires Steps.Initialize(p) == Ok(s) && (m.pristine ==> p.stakeRent > 0)
    ensures m.lossFree && AllAdmitted(s, actions, m) ==>
      forall floor: nat :: floor > 0 && SupplyStays(s, actions, floor) ==>
        WorthAtLeast(Run(s, actions), Withdrawals(s, actions), floor)
  {
    if m.lossFree && AllAdmitted(s, actions, m) {
      forall floor: nat | floor > 0 && SupplyStays(s, actions, floor)
        ensures WorthAtLeast(Run(s, actions), Withdrawals(s, actions), floor)
      {
        RateFromCreation(p, s, actions, m, floor);
      }
    }
  }

  /** What holds at the end of any run from creation. */
  lemma InvariantsFromCreation(p: Setup, actions: seq<Action>, m: Mode)
    requires Steps.Initialize(p).Ok? && (m.pristine ==> p.stakeRent > 0)
    ensures
      var s := Run(Steps.Initialize(p).value, actions);
      ListInv(s) && FeesInv(s.pool) && SupplyInv(s, Unburnt(actions))
    ensures AllAdmitted(Steps.Initialize(p).value, actions, m) ==> Backed(Run(Steps.Initialize(p).value, actions), m)
  {
    var s := Steps.Initialize(p).value;
    InitialInvariants(p, m);
    ListOverRuns(s, actions);
    FeesOverRuns(s, actions);
    SupplyOverRuns(s, actions, Unburnt(actions));
    if AllAdmitted(s, actions, m) {
      SolventOverRuns(p, actions, m);
    }
  }
}
