/** Exactly when deposits, withdrawals and pool updates are accepted, and exactly what they mint, burn,
    charge and move. */
module TradeOutcomes {
  import opened Numbers
  import opened Errors
  import opened Fees
  import opened Pricing
  import opened Records
  import opened PoolState
  import opened Steps
  import opened ListInvariant
  import opened FeeInvariant
  import opened Outcomes

  // ----- Prices -----

  /** What a deposit mints: one to one into a pool without lamports or tokens, else its share of the supply,
      rounded down. */
  ghost predicate Mints(p: StakePool, lamports: u64, minted: int) {
    if p.totalLamports == 0 || p.poolTokenSupply == 0 then minted == lamports
    else minted * p.totalLamports <= lamports * p.poolTokenSupply < minted * p.totalLamports + p.totalLamports
  }

  lemma MintsExactly(p: StakePool, lamports: u64, minted: u64)
    ensures TokensForDeposit(p.totalLamports, p.poolTokenSupply, lamports) == Some(minted)
       <==> Mints(p, lamports, minted)
  {
    DepositIsFloor(p.totalLamports, p.poolTokenSupply, lamports);
    if p.totalLamports > 0 && p.poolTokenSupply > 0 {
      MulNonNeg(lamports, p.poolTokenSupply);
      if Mints(p, lamports, minted) {
        FloorIs(lamports * p.poolTokenSupply, p.totalLamports, minted);
      }
    }
  }

  /** What burnt tokens pay: their share of the total, rounded up, if it is worth a lamport at all. */
  ghost predicate Pays(p: StakePool, burnt: u64, paid: int) {
    && 0 < p.poolTokenSupply <= burnt * p.totalLamports
    && burnt * p.totalLamports <= paid * p.poolTokenSupply < burnt * p.totalLamports + p.poolTokenSupply
  }

  lemma PaysExactly(p: StakePool, burnt: u64, paid: u64)
    ensures LamportsForTokens(p.totalLamports, p.poolTokenSupply, burnt) == Some(paid) && paid > 0
       <==> Pays(p, burnt, paid)
  {
    RedemptionIsCeiling(p.totalLamports, p.poolTokenSupply, burnt);
    MulNonNeg(burnt, p.totalLamports);
    if Pays(p, burnt, paid) {
      CeilIs(burnt * p.totalLamports, p.poolTokenSupply, paid);
    }
  }

  lemma CeilIs(a: nat, b: nat, q: nat)
    requires 0 < b <= a <= q * b < a + b
    ensures CeilDiv(a, b) == q && q > 0
  {
    CeilLeast(a, b, q);
    CeilBounds(a, b);
    assert (CeilDiv(a, b) + 1) * b == CeilDiv(a, b) * b + b;
    CancelLt(q, CeilDiv(a, b) + 1, b);
  }

  /** The tokens a withdrawal passes on to the manager. */
  function Charged(fee: Fee, tokens: u64, exempt: bool): nat {
    if exempt then 0 else fee.Apply(tokens)
  }

  lemma PriceExactly(p: StakePool, fee: Fee, tokens: u64, exempt: bool, paid: u64)
    requires Charged(fee, tokens, exempt) <= tokens
    ensures
      var burnt := tokens - Charged(fee, tokens, exempt);
      PriceWithdrawal(p, fee, tokens, exempt) == Ok(Withdrawal(burnt, Charged(fee, tokens, exempt), paid))
      <==> Pays(p, burnt, paid)
  {
    PaysExactly(p, tokens - Charged(fee, tokens, exempt), paid);
  }

  // ----- Deposits -----

  /** Books, mint and reserve are all that differ. */
  ghost predicate MovesBooksOnly(s: State, s': State) {
    && s'.validators == s.validators && s'.maxValidators == s.maxValidators
    && s'.pool == s.pool.(totalLamports := s'.pool.totalLamports, poolTokenSupply := s'.pool.poolTokenSupply)
    && s'.ledger == s.ledger.(reserve := s'.ledger.reserve, mintSupply := s'.ledger.mintSupply)
  }

  /** A SOL deposit puts its lamports into the reserve and on the books and mints their price, if the fee
      leaves the depositor anything. */
  ghost predicate SolDeposited(s: State, lamports: u64, s': State) {
    var minted := s'.pool.poolTokenSupply - s.pool.poolTokenSupply;
    && Current(s) && MovesBooksOnly(s, s')
    && minted >= 0 && Mints(s.pool, lamports, minted) && s.pool.solDepositFee.Apply(minted) < minted
    && s'.pool.totalLamports == s.pool.totalLamports + lamports
    && s'.ledger.reserve == s.ledger.reserve + lamports
    && s'.ledger.mintSupply == s.ledger.mintSupply + minted
  }

  lemma DepositSolExactly(s: State, lamports: u64, s': State)
    requires FeesInv(s.pool)
    ensures DepositSol(s, lamports) == Ok(s') <==> SolDeposited(s, lamports, s')
  {
    var priced := TokensForDeposit(s.pool.totalLamports, s.pool.poolTokenSupply, lamports);
    if priced.Some? {
      SplitIsExact(priced.value, s.pool.solDepositFee.Apply(priced.value), s.pool.solReferralFee);
      MintsExactly(s.pool, lamports, priced.value);
    }
    if SolDeposited(s, lamports, s') {
      MintsExactly(s.pool, lamports, s'.pool.poolTokenSupply - s.pool.poolTokenSupply);
    }
  }

  // ----- Withdrawals -----

  /** A SOL withdrawal charges the SOL withdrawal fee, burns the rest, and pays its price out of the
      reserve, which keeps its minimum. */
  ghost predicate SolWithdrawn(s: State, tokens: u64, exempt: bool, s': State) {
    var charged := Charged(s.pool.solWithdrawalFee, tokens, exempt);
    var paid := s.pool.totalLamports - s'.pool.totalLamports;
    && Current(s) && MovesBooksOnly(s, s') && charged <= tokens && paid >= 0 && Pays(s.pool, tokens - charged, paid)
    && s'.pool.poolTokenSupply == s.pool.poolTokenSupply - (tokens - charged)
    && s'.ledger.mintSupply == s.ledger.mintSupply - (tokens - charged)
    && s'.ledger.reserve == s.ledger.reserve - paid
    && s'.ledger.reserve >= SaturatingAdd(s.ledger.reserveRent, MINIMUM_RESERVE_LAMPORTS)
  }

  lemma WithdrawSolExactly(s: State, tokens: u64, exempt: bool, s': State)
    ensures WithdrawSol(s, tokens, exempt) == Ok(s') <==> SolWithdrawn(s, tokens, exempt, s')
  {
    var priced := PriceWithdrawal(s.pool, s.pool.solWithdrawalFee, tokens, exempt);
    if priced.Ok? {
      PriceExactly(s.pool, s.pool.solWithdrawalFee, tokens, exempt, priced.value.lamports);
    }
    if SolWithdrawn(s, tokens, exempt, s') {
      PriceExactly(s.pool, s.pool.solWithdrawalFee, tokens, exempt, s.pool.totalLamports - s'.pool.totalLamports);
    }
  }

  /** Taking stake from the reserve charges the stake withdrawal fee; no record may show any stake. */
  ghost predicate ReserveWithdrawn(s: State, tokens: u64, exempt: bool, s': State) {
    var charged := Charged(s.pool.stakeWithdrawalFee, tokens, exempt);
    var paid := s.pool.totalLamports - s'.pool.totalLamports;
    && Current(s) && MovesBooksOnly(s, s') && charged <= tokens && paid >= 0 && Pays(s.pool, tokens - charged, paid)
    && (forall i :: 0 <= i < |s.validators| ==>
          s.validators[i].activeStakeLamports == s.validators[i].transientStakeLamports == 0)
    && s.ledger.reserve >= SaturatingAdd(s.ledger.reserveRent, MINIMUM_RESERVE_LAMPORTS)
    && s'.pool.poolTokenSupply == s.pool.poolTokenSupply - (tokens - charged)
    && s'.ledger.mintSupply == s.ledger.mintSupply - (tokens - charged)
    && s'.ledger.reserve == s.ledger.reserve - paid
  }

  lemma WithdrawReserveExactly(s: State, tokens: u64, exempt: bool, s': State)
    ensures WithdrawStake(s, FromReserve, tokens, exempt) == Ok(s') <==> ReserveWithdrawn(s, tokens, exempt, s')
  {
    var priced := PriceWithdrawal(s.pool, s.pool.stakeWithdrawalFee, tokens, exempt);
    if priced.Ok? {
      PriceExactly(s.pool, s.pool.stakeWithdrawalFee, tokens, exempt, priced.value.lamports);
    }
    if ReserveWithdrawn(s, tokens, exempt, s') {
      PriceExactly(s.pool, s.pool.stakeWithdrawalFee, tokens, exempt, s.pool.totalLamports - s'.pool.totalLamports);
    }
  }

  // ----- Trading with one validator's account -----

  /** Books, mint and reserve, one record and the account behind it are all that differ. */
  ghost predicate MovesOneRecord(s: State, i: nat, s': State)
    requires i < |s.validators|
  {
    && |s'.validators| == |s.validators| && s'.validators == s.validators[i := s'.validators[i]]
    && s'.maxValidators == s.maxValidators
    && s'.pool == s.pool.(totalLamports := s'.pool.totalLamports, poolTokenSupply := s'.pool.poolTokenSupply)
    && s'.ledger == s.ledger.(reserve := s'.ledger.reserve, mintSupply := s'.ledger.mintSupply,
                              validatorStake := s'.ledger.validatorStake,
                              transientStake := s'.ledger.transientStake)
  }

  /** The fee on a stake deposit: the stake fee on what the stake mints and the SOL fee on the rest. */
  ghost predicate StakeDepositFee(p: StakePool, stake: u64, minted: nat, fromStake: u64, fee: int) {
    && Mints(p, stake, fromStake) && fromStake <= minted <= U64_MAX
    && fee == p.stakeDepositFee.Apply(fromStake) + p.solDepositFee.Apply(minted - fromStake)
  }

  /** A stake deposit joins the active record's account and what is not delegated goes to the reserve;
      all of it goes on the books. A preferred validator admits no other. */
  ghost predicate StakeJoined(s: State, vote: Pubkey, lamports: u64, stake: u64, i: nat, s': State)
    requires i < |s.validators|
  {
    var l, l', r := s.ledger, s'.ledger, s.validators[i];
    && Current(s) && (s.pool.preferredDeposit == None || s.pool.preferredDeposit == Some(vote)) && r.status == Active
    && stake <= lamports && MovesOneRecord(s, i, s')
    && IsDelegated(l.validatorStake, vote) && l'.transientStake == l.transientStake
    && var v := l.validatorStake[vote];
    && v.lamports + lamports <= U64_MAX && MINIMUM_ACTIVE_STAKE <= v.stake + stake <= U64_MAX
    && l'.validatorStake == l.validatorStake[vote := v.(lamports := v.lamports + stake, stake := v.stake + stake)]
    && s'.pool.totalLamports == s.pool.totalLamports + lamports
    && l'.reserve == l.reserve + (lamports - stake)
    && l'.mintSupply - l.mintSupply == s'.pool.poolTokenSupply - s.pool.poolTokenSupply
    && s'.validators[i] == r.(activeStakeLamports := v.stake + stake - MINIMUM_ACTIVE_STAKE)
  }

  /** A stake deposit, and what it mints: the price of all its lamports, if the fee leaves the depositor
      anything. */
  ghost predicate StakeDeposited(s: State, vote: Pubkey, lamports: u64, stake: u64, i: nat, fromStake: u64, fee: nat,
                                 s': State)
    requires i < |s.validators|
  {
    var minted := s'.pool.poolTokenSupply - s.pool.poolTokenSupply;
    && StakeJoined(s, vote, lamports, stake, i, s')
    && minted >= 0 && Mints(s.pool, lamports, minted) && StakeDepositFee(s.pool, stake, minted, fromStake, fee)
    && fee < minted
  }

  /** The tokens of a stake deposit, and who gets them. */
  lemma StakeDepositShares(p: StakePool, lamports: u64, stake: u64)
    requires FeesInv(p) && stake <= lamports
    requires TokensForDeposit(p.totalLamports, p.poolTokenSupply, lamports).Some?
    ensures TokensForDeposit(p.totalLamports, p.poolTokenSupply, stake).Some?
    ensures
      var minted := TokensForDeposit(p.totalLamports, p.poolTokenSupply, lamports).value;
      var fromStake := TokensForDeposit(p.totalLamports, p.poolTokenSupply, stake).value;
      var r := DepositStakeTokens(p, lamports, stake);
      && fromStake <= minted
      && var fee := p.stakeDepositFee.Apply(fromStake) + p.solDepositFee.Apply(minted - fromStake);
      && (r.Ok? <==> fee < minted)
      && (r.Ok? ==>
            && r.value.0 == minted && r.value.1.user == minted - fee
            && r.value.1.manager + r.value.1.referral == fee
            && r.value.1.referral * 100 <= fee * p.stakeReferralFee < r.value.1.referral * 100 + 100)
  {
    TokensMonotone(p.totalLamports, p.poolTokenSupply, lamports, stake);
    var minted := TokensForDeposit(p.totalLamports, p.poolTokenSupply, lamports).value;
    var fromStake := TokensForDeposit(p.totalLamports, p.poolTokenSupply, stake).value;
    DepositStakeFeeWithin(p, fromStake, minted - fromStake);
    SplitIsExact(minted, DepositStakeFee(p, fromStake, minted - fromStake).value, p.stakeReferralFee);
  }

  /** The tokens of a SOL deposit, and who gets them. */
  lemma SolDepositShares(p: StakePool, lamports: u64)
    requires FeesInv(p) && TokensForDeposit(p.totalLamports, p.poolTokenSupply, lamports).Some?
    ensures
      var minted := TokensForDeposit(p.totalLamports, p.poolTokenSupply, lamports).value;
      var r, fee := DepositSolTokens(p, lamports), p.solDepositFee.Apply(minted);
      && (r.Ok? <==> fee < minted)
      && (r.Ok? ==>
            && r.value.0 == minted && r.value.1.user == minted - fee
            && r.value.1.manager + r.value.1.referral == fee
            && r.value.1.referral * 100 <= fee * p.solReferralFee < r.value.1.referral * 100 + 100)
  {
    var minted := TokensForDeposit(p.totalLamports, p.poolTokenSupply, lamports).value;
    SplitIsExact(minted, p.solDepositFee.Apply(minted), p.solReferralFee);
  }

  /** The split of the tokens has a fee, and leaves the depositor something. */
  lemma StakeDepositPriced(p: StakePool, lamports: u64, stake: u64, minted: u64, fromStake: u64, fee: nat)
    requires FeesInv(p) && stake <= lamports
    requires Mints(p, lamports, minted) && StakeDepositFee(p, stake, minted, fromStake, fee)
    ensures TokensForDeposit(p.totalLamports, p.poolTokenSupply, lamports) == Some(minted)
    ensures DepositStakeTokens(p, lamports, stake).Ok? <==> fee < minted
    ensures DepositStakeTokens(p, lamports, stake).Ok? ==> DepositStakeTokens(p, lamports, stake).value.0 == minted
  {
    MintsExactly(p, lamports, minted);
    MintsExactly(p, stake, fromStake);
    StakeDepositShares(p, lamports, stake);
  }

  /** Tokens that can be priced at all have such a split. */
  lemma StakeDepositHasFee(p: StakePool, lamports: u64, stake: u64) returns (minted: u64, fromStake: u64, fee: nat)
    requires FeesInv(p) && stake <= lamports && DepositStakeTokens(p, lamports, stake).Ok?
    ensures Mints(p, lamports, minted) && StakeDepositFee(p, stake, minted, fromStake, fee)
  {
    StakeDepositShares(p, lamports, stake);
    minted := TokensForDeposit(p.totalLamports, p.poolTokenSupply, lamports).value;
    fromStake := TokensForDeposit(p.totalLamports, p.poolTokenSupply, stake).value;
    fee := p.stakeDepositFee.Apply(fromStake) + p.solDepositFee.Apply(minted - fromStake);
    MintsExactly(p, lamports, minted);
    MintsExactly(p, stake, fromStake);
  }

  /** The deposit with its price given. */
  lemma DepositStakePriced(s: State, vote: Pubkey, lamports: u64, stake: u64, i: nat, minted: u64, s': State)
    requires FindVote(s.validators, vote) == Some(i)
    requires DepositStakeTokens(s.pool, lamports, stake).Ok?
    requires DepositStakeTokens(s.pool, lamports, stake).value.0 == minted
    ensures DepositStake(s, vote, lamports, stake) == Ok(s') <==>
      StakeJoined(s, vote, lamports, stake, i, s') && s'.pool.poolTokenSupply == s.pool.poolTokenSupply + minted
  {
    if DepositStake(s, vote, lamports, stake) == Ok(s') {
      DepositStakeJoins(s, vote, lamports, stake, i, minted, s');
    }
  }

  lemma DepositStakeJoins(s: State, vote: Pubkey, lamports: u64, stake: u64, i: nat, minted: u64, s': State)
    requires FindVote(s.validators, vote) == Some(i)
    requires DepositStakeTokens(s.pool, lamports, stake).Ok?
    requires DepositStakeTokens(s.pool, lamports, stake).value.0 == minted
    requires DepositStake(s, vote, lamports, stake) == Ok(s')
    ensures StakeJoined(s, vote, lamports, stake, i, s') && s'.pool.poolTokenSupply == s.pool.poolTokenSupply + minted
  {
  }

  lemma DepositStakeGives(s: State, vote: Pubkey, lamports: u64, stake: u64, i: nat, s': State)
    returns (fromStake: u64, fee: nat)
    requires FeesInv(s.pool) && FindVote(s.validators, vote) == Some(i)
    requires DepositStake(s, vote, lamports, stake) == Ok(s')
    ensures StakeDeposited(s, vote, lamports, stake, i, fromStake, fee, s')
  {
    var minted;
    minted, fromStake, fee := StakeDepositHasFee(s.pool, lamports, stake);
    StakeDepositPriced(s.pool, lamports, stake, minted, fromStake, fee);
    DepositStakeJoins(s, vote, lamports, stake, i, minted, s');
  }

  lemma DepositStakeTakes(s: State, vote: Pubkey, lamports: u64, stake: u64, i: nat, fromStake: u64, fee: nat,
                          s': State)
    requires FeesInv(s.pool) && FindVote(s.validators, vote) == Some(i)
    requires StakeDeposited(s, vote, lamports, stake, i, fromStake, fee, s')
    ensures DepositStake(s, vote, lamports, stake) == Ok(s')
  {
    var minted := s'.pool.poolTokenSupply - s.pool.poolTokenSupply;
    StakeDepositPriced(s.pool, lamports, stake, minted, fromStake, fee);
    DepositStakePriced(s, vote, lamports, stake, i, minted, s');
  }

  lemma DepositStakeExactly(s: State, vote: Pubkey, lamports: u64, stake: u64, s': State)
    requires FeesInv(s.pool)
    ensures DepositStake(s, vote, lamports, stake) == Ok(s') <==>
      exists i: nat, fromStake: u64, fee: nat ::
        IsFirst(s.validators, vote, i) && StakeDeposited(s, vote, lamports, stake, i, fromStake, fee, s')
  {
    FoundExactly(s.validators, vote);
    if DepositStake(s, vote, lamports, stake) == Ok(s') {
      var i := FindVote(s.validators, vote).value;
      var fromStake, fee := DepositStakeGives(s, vote, lamports, stake, i, s');
      assert IsFirst(s.validators, vote, i);
    }
    if i: nat, fromStake: u64, fee: nat :|
      IsFirst(s.validators, vote, i) && StakeDeposited(s, vote, lamports, stake, i, fromStake, fee, s') {
      DepositStakeTakes(s, vote, lamports, stake, i, fromStake, fee, s');
    }
  }

  /** A withdrawal from the account of an active validator. While any record shows active stake it must be
      a validator's account, the preferred one's as long as that shows any; afterwards the transient
      account of the record. The minimum stays behind, and record and account shrink by what is paid. */
  ghost predicate AccountWithdrawn(s: State, a: Address, tokens: u64, exempt: bool, i: nat, s': State)
    requires i < |s.validators| && !a.OtherAddress?
  {
    var charged := Charged(s.pool.stakeWithdrawalFee, tokens, exempt);
    var paid := s.pool.totalLamports - s'.pool.totalLamports;
    && Current(s) && MovesOneRecord(s, i, s') && s.validators[i].status == Active
    && charged <= tokens && paid >= 0 && Pays(s.pool, tokens - charged, paid)
    && s'.pool.poolTokenSupply == s.pool.poolTokenSupply - (tokens - charged)
    && s'.ledger.mintSupply == s.ledger.mintSupply - (tokens - charged)
    && s'.ledger.reserve == s.ledger.reserve
    && PreferenceServed(s, a.vote)
    && (if a.ValidatorStakeAddress? then ActiveShrinks(s, a.vote, paid, i, s') else TransientShrinks(s, a, paid, i, s'))
  }

  /** No other validator is preferred that still shows active stake. */
  ghost predicate PreferenceServed(s: State, vote: Pubkey) {
    s.pool.preferredWithdraw.Some? && s.pool.preferredWithdraw != Some(vote) ==>
      exists k: nat :: IsFirst(s.validators, s.pool.preferredWithdraw.value, k)
                       && s.validators[k].activeStakeLamports == 0
  }

  ghost predicate ShowsActive(v: seq<ValidatorStakeInfo>) {
    exists k :: 0 <= k < |v| && v[k].activeStakeLamports > 0
  }

  ghost predicate ActiveShrinks(s: State, vote: Pubkey, paid: nat, i: nat, s': State)
    requires i < |s.validators|
  {
    var l, r := s.ledger, s.validators[i];
    && ShowsActive(s.validators) && paid <= r.activeStakeLamports && IsDelegated(l.validatorStake, vote)
    && var v := l.validatorStake[vote];
    && paid + MINIMUM_ACTIVE_STAKE <= v.stake && paid <= v.lamports
    && |s'.validators| == |s.validators|
    && s'.validators[i] == r.(activeStakeLamports := r.activeStakeLamports - paid)
    && s'.ledger.validatorStake == l.validatorStake[vote := v.(lamports := v.lamports - paid, stake := v.stake - paid)]
    && s'.ledger.transientStake == l.transientStake
  }

  ghost predicate TransientShrinks(s: State, a: Address, paid: nat, i: nat, s': State)
    requires i < |s.validators| && a.TransientStakeAddress?
  {
    var l, r, key := s.ledger, s.validators[i], TransientKey(a.vote, a.seed);
    && !ShowsActive(s.validators) && a.seed == r.transientSeedSuffixStart
    && paid <= r.transientStakeLamports && IsDelegated(l.transientStake, key)
    && var t := l.transientStake[key];
    && paid + MINIMUM_ACTIVE_STAKE <= t.stake && paid <= t.lamports
    && |s'.validators| == |s.validators|
    && s'.validators[i] == r.(transientStakeLamports := r.transientStakeLamports - paid)
    && s'.ledger.transientStake == l.transientStake[key := t.(lamports := t.lamports - paid, stake := t.stake - paid)]
    && s'.ledger.validatorStake == l.validatorStake
  }

  lemma PreferenceExactly(s: State, vote: Pubkey)
    requires FindVote(s.validators, vote).Some?
    ensures CheckPreferred(s, vote).Ok? <==> PreferenceServed(s, vote)
  {
    if s.pool.preferredWithdraw.Some? {
      var preferred := s.pool.preferredWithdraw.value;
      FoundExactly(s.validators, preferred);
      var found := FindVote(s.validators, preferred);
      if found.Some? {
        assert IsFirst(s.validators, preferred, found.value);
      }
    }
  }

  /** The withdrawal with its price given. */
  lemma WithdrawAccountPriced(s: State, a: Address, w: Withdrawal, i: nat, s': State)
    requires !a.OtherAddress? && FindVote(s.validators, a.vote) == Some(i)
    ensures WithdrawFromAccount(s, w, a) == Ok(s') <==>
      && MovesOneRecord(s, i, s') && s.validators[i].status == Active && CheckPreferred(s, a.vote).Ok?
      && s'.pool.poolTokenSupply == s.pool.poolTokenSupply - w.burnt
      && s'.pool.totalLamports == s.pool.totalLamports - w.lamports
      && s'.ledger.mintSupply == s.ledger.mintSupply - w.burnt && s'.ledger.reserve == s.ledger.reserve
      && (if a.ValidatorStakeAddress? then ActiveShrinks(s, a.vote, w.lamports, i, s')
          else TransientShrinks(s, a, w.lamports, i, s'))
  {
    assert HasActiveStake(s.validators) <==> ShowsActive(s.validators);
  }

  lemma WithdrawAccountGives(s: State, a: Address, tokens: u64, exempt: bool, i: nat, s': State)
    requires !a.OtherAddress? && FindVote(s.validators, a.vote) == Some(i)
    requires WithdrawStake(s, FromAccount(a), tokens, exempt) == Ok(s')
    ensures AccountWithdrawn(s, a, tokens, exempt, i, s')
  {
    var w := PriceWithdrawal(s.pool, s.pool.stakeWithdrawalFee, tokens, exempt).value;
    PreferenceExactly(s, a.vote);
    PriceExactly(s.pool, s.pool.stakeWithdrawalFee, tokens, exempt, w.lamports);
    WithdrawAccountPriced(s, a, w, i, s');
  }

  lemma WithdrawAccountTakes(s: State, a: Address, tokens: u64, exempt: bool, i: nat, s': State)
    requires !a.OtherAddress? && FindVote(s.validators, a.vote) == Some(i)
    requires AccountWithdrawn(s, a, tokens, exempt, i, s')
    ensures WithdrawStake(s, FromAccount(a), tokens, exempt) == Ok(s')
  {
    var charged := Charged(s.pool.stakeWithdrawalFee, tokens, exempt);
    var paid := s.pool.totalLamports - s'.pool.totalLamports;
    PreferenceExactly(s, a.vote);
    PriceExactly(s.pool, s.pool.stakeWithdrawalFee, tokens, exempt, paid);
    WithdrawAccountPriced(s, a, Withdrawal(tokens - charged, charged, paid), i, s');
  }

  lemma WithdrawAccountExactly(s: State, a: Address, tokens: u64, exempt: bool, s': State)
    ensures WithdrawStake(s, FromAccount(a), tokens, exempt) == Ok(s') <==>
      !a.OtherAddress? && exists i: nat ::
        IsFirst(s.validators, a.vote, i) && AccountWithdrawn(s, a, tokens, exempt, i, s')
  {
    if !a.OtherAddress? {
      FoundExactly(s.validators, a.vote);
      var found := FindVote(s.validators, a.vote);
      if found.Some? {
        assert IsFirst(s.validators, a.vote, found.value);
        if WithdrawStake(s, FromAccount(a), tokens, exempt) == Ok(s') {
          WithdrawAccountGives(s, a, tokens, exempt, found.value, s');
        } else if AccountWithdrawn(s, a, tokens, exempt, found.value, s') {
          WithdrawAccountTakes(s, a, tokens, exempt, found.value, s');
        }
      }
    }
  }

  // ----- Pool updates -----

  /** What the manager is minted: nothing without a usable account or a reward; else tokens that are worth
      the fee on the reward out of the new total, rounded down, and the reward itself where no ratio
      exists. */
  ghost predicate MintsEpochFee(p: StakePool, total: u64, valid: bool, minted: int) {
    var reward := if total > p.totalLamports then total - p.totalLamports else 0;
    var taken := p.epochFee.Apply(reward);
    if !valid || reward == 0 then minted == 0
    else if p.poolTokenSupply == 0 || total == taken then minted == reward
    else
      && taken < total
      && minted * (total - taken) <= p.poolTokenSupply * taken < (minted + 1) * (total - taken)
  }

  lemma EpochFeeExactly(p: StakePool, total: u64, valid: bool, minted: u64)
    ensures EpochFeeOf(p, total, valid) == Ok(minted) <==> MintsEpochFee(p, total, valid, minted)
  {
    var reward: u64 := if total > p.totalLamports then total - p.totalLamports else 0;
    var taken := p.epochFee.Apply(reward);
    if EpochFeeTokens(p.totalLamports, p.poolTokenSupply, p.epochFee, reward).Some? {
      EpochFeeIsFloor(p.totalLamports, p.poolTokenSupply, p.epochFee, reward);
    }
    if valid && reward > 0 && p.poolTokenSupply > 0 && taken < total {
      ProductFits128(p.poolTokenSupply, taken);
      assert (minted + 1) * (total - taken) == minted * (total - taken) + (total - taken);
      if MintsEpochFee(p, total, valid, minted) {
        FloorIs(p.poolTokenSupply * taken, total - taken, minted);
      }
      if EpochFeeOf(p, total, valid) == Ok(minted) {
        FloorBounds(p.poolTokenSupply * taken, total - taken);
      }
    }
  }

  /** The fees after a pool update: in a new epoch each pending fee takes the place of the current one. */
  ghost predicate FeesPromoted(p: StakePool, epoch: u64, p': StakePool) {
    var first := p.lastUpdateEpoch < epoch;
    && p'.epochFee == (if first && p.nextEpochFee.Some? then p.nextEpochFee.value else p.epochFee)
    && p'.stakeWithdrawalFee
       == (if first && p.nextStakeWithdrawalFee.Some? then p.nextStakeWithdrawalFee.value else p.stakeWithdrawalFee)
    && p'.solWithdrawalFee
       == (if first && p.nextSolWithdrawalFee.Some? then p.nextSolWithdrawalFee.value else p.solWithdrawalFee)
    && p'.nextEpochFee == (if first then None else p.nextEpochFee)
    && p'.nextStakeWithdrawalFee == (if first then None else p.nextStakeWithdrawalFee)
    && p'.nextSolWithdrawalFee == (if first then None else p.nextSolWithdrawalFee)
    && p'.lastUpdateEpoch == (if first then epoch else p.lastUpdateEpoch)
    && p'.lastEpochTotalLamports == (if first then p.totalLamports else p.lastEpochTotalLamports)
    && p'.lastEpochPoolTokenSupply == (if first then p.poolTokenSupply else p.lastEpochPoolTokenSupply)
    && p'.preferredDeposit == p.preferredDeposit && p'.preferredWithdraw == p.preferredWithdraw
    && p'.stakeDepositFee == p.stakeDepositFee && p'.solDepositFee == p.solDepositFee
    && p'.stakeReferralFee == p.stakeReferralFee && p'.solReferralFee == p.solReferralFee
  }

  /** A pool update needs fresh records; it books what the reserve holds above its minimum and what the
      records show, pays the manager, takes the supply from the mint and promotes pending fees. */
  ghost predicate PoolUpdated(s: State, valid: bool, s': State) {
    var l, minimum := s.ledger, SaturatingAdd(s.ledger.reserveRent, MINIMUM_RESERVE_LAMPORTS);
    && l.reserve >= minimum
    && (forall i :: 0 <= i < |s.validators| ==> s.validators[i].lastUpdateEpoch >= l.epoch)
    && s'.pool.totalLamports == l.reserve - minimum + StakeSum(s.validators)
    && MintsEpochFee(s.pool, s'.pool.totalLamports, valid, s'.ledger.mintSupply - l.mintSupply)
    && s'.ledger.mintSupply >= l.mintSupply && s'.pool.poolTokenSupply == s'.ledger.mintSupply
    && FeesPromoted(s.pool, l.epoch, s'.pool)
    && s'.validators == s.validators && s'.maxValidators == s.maxValidators
    && s'.ledger == l.(mintSupply := s'.ledger.mintSupply)
  }

  lemma UpdatePoolGives(s: State, valid: bool, s': State)
    requires UpdateStakePool(s, valid) == Ok(s')
    ensures PoolUpdated(s, valid, s')
  {
    var l, minimum := s.ledger, MinimumReserveLamports(s.ledger.reserveRent);
    assert s.validators[..|s.validators|] == s.validators;
    FreshTotalIsSum(l.reserve - minimum, s.validators, l.epoch, |s.validators|);
    EpochFeeExactly(s.pool, s'.pool.totalLamports, valid, s'.ledger.mintSupply - l.mintSupply);
  }

  lemma UpdatePoolTakes(s: State, valid: bool, s': State)
    requires PoolUpdated(s, valid, s')
    ensures UpdateStakePool(s, valid) == Ok(s')
  {
    var l, minimum := s.ledger, MinimumReserveLamports(s.ledger.reserveRent);
    assert s.validators[..|s.validators|] == s.validators;
    FreshTotalSucceeds(l.reserve - minimum, s.validators, l.epoch, |s.validators|);
    EpochFeeExactly(s.pool, s'.pool.totalLamports, valid, s'.ledger.mintSupply - l.mintSupply);
  }

  lemma UpdatePoolExactly(s: State, valid: bool, s': State)
    ensures UpdateStakePool(s, valid) == Ok(s') <==> PoolUpdated(s, valid, s')
  {
    if UpdateStakePool(s, valid) == Ok(s') {
      UpdatePoolGives(s, valid, s');
    } else if PoolUpdated(s, valid, s') {
      UpdatePoolTakes(s, valid, s');
    }
  }
}
