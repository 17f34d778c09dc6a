/** The pool program as it runs: instructions that assign the pool's fields, move lamports on the
    ledger and edit the validator list in place, byte by byte. Each is proved against the state
    function of the same name. */
module Processors {
  import opened Numbers
  import opened Errors
  import opened Fees
  import opened Pricing
  import opened Records
  import opened BigVecs
  import opened PoolState
  import S = Steps
  import opened Steps

  /** The instruction reports what the state function says and, on success, reaches its state. */
  ghost predicate Matches(r: Result<()>, spec: Result<State>, now: State) {
    if spec.Ok? then r.Ok? && now == spec.value else r == Err(spec.error)
  }

  class Processor {
    var pool: StakePool
    var ledger: Ledger
    const list: BigVec
    const maxValidators: u32

    /** The list account holds records and has room for as many as the header allows. */
    ghost predicate Valid()
      reads this, list, list.data
    {
      list.Valid() && |list.items| <= maxValidators && Offset(maxValidators) <= list.data.Length
    }

    ghost function Abs(): State
      requires Valid()
      reads this, list, list.data
    {
      State(pool, list.items, maxValidators, ledger)
    }

    constructor (pool: StakePool, ledger: Ledger, list: BigVec, maxValidators: u32)
      requires list.Valid() && |list.items| <= maxValidators && Offset(maxValidators) <= list.data.Length
      ensures Valid() && Abs() == State(pool, list.items, maxValidators, ledger)
      ensures this.list == list
    {
      this.pool, this.ledger, this.list, this.maxValidators := pool, ledger, list, maxValidators;
    }

    // ----- Searching the byte store -----

    method FindIndex(vote: Pubkey) returns (found: Option<nat>)
      requires Valid()
      ensures found == FindVote(list.items, vote)
    {
      found := list.Find(vote, MemcmpPubkey);
      forall i | 0 <= i < |list.items|
        ensures MemcmpPubkey(Slot(list.data[..], i), vote) <==> list.items[i].voteAccountAddress == vote
      {
        DecodeEncode(list.items[i]);
        RawComparisonsAgree(Slot(list.data[..], i), vote, 0);
      }
    }

    /** The scan for a record whose active lamports are not zero. */
    method HasActive() returns (yes: bool)
      requires Valid()
      ensures yes <==> HasActiveStake(list.items)
    {
      var found := list.Find(U64Bytes(0), ActiveLamportsNotEqual);
      yes := found.Some?;
      forall i | 0 <= i < |list.items|
        ensures ActiveLamportsNotEqual(Slot(list.data[..], i), U64Bytes(0))
           <==> list.items[i].activeStakeLamports != 0
      {
        DecodeEncode(list.items[i]);
        RawComparisonsAgree(Slot(list.data[..], i), list.items[i].voteAccountAddress, 0);
      }
    }

    /** The scan for a record whose transient lamports are not zero. */
    method HasTransient() returns (yes: bool)
      requires Valid()
      ensures yes <==> HasTransientStake(list.items)
    {
      var found := list.Find(U64Bytes(0), TransientLamportsNotEqual);
      yes := found.Some?;
      forall i | 0 <= i < |list.items|
        ensures TransientLamportsNotEqual(Slot(list.data[..], i), U64Bytes(0))
           <==> list.items[i].transientStakeLamports != 0
      {
        DecodeEncode(list.items[i]);
        RawComparisonsAgree(Slot(list.data[..], i), list.items[i].voteAccountAddress, 0);
      }
    }

    /** Assigns, field by field, what an increase or a decrease changes in a record. */
    method WriteSplit(i: nat, active: u64, transient: u64, seed: u64)
      requires Valid() && i < |list.items|
      modifies list, list.data
      ensures Valid()
      ensures list.items == old(list.items[i := list.items[i].(
                                       activeStakeLamports := active, transientStakeLamports := transient,
                                       transientSeedSuffixStart := seed)])
    {
      ghost var v := list.items;
      list.SetActiveStakeLamports(i, active);
      assert list.items == v[i := v[i].(activeStakeLamports := active)];
      list.SetTransientStakeLamports(i, transient);
      list.SetTransientSeedSuffixStart(i, seed);
    }

    // ----- Managing validators -----

    /** The size check at initialization leaves room for every push the length check lets through. */
    method AddValidator(vote: Pubkey, prior: u64) returns (r: Result<()>)
      requires Valid()
      modifies this, list, list.data
      ensures Valid() && Matches(r, S.AddValidator(old(Abs()), vote, prior), Abs())
    {
      if pool.lastUpdateEpoch < ledger.epoch {
        return Err(StakeListAndPoolOutOfDate);
      }
      var len := list.Len();
      if maxValidators == len {
        return Err(AccountDataTooSmall);
      }
      var found := FindIndex(vote);
      if found.Some? {
        return Err(ValidatorAlreadyAdded);
      }
      if vote in ledger.validatorStake {
        return Err(Foreign);
      }
      var required :- Balance(MINIMUM_ACTIVE_STAKE + ledger.stakeRent);
      var lamports: u64 := Max(required, prior);
      var account := Delegated(lamports, ledger.stakeRent, lamports - ledger.stakeRent, ledger.epoch, EPOCH_MAX);
      ledger := ledger.(validatorStake := ledger.validatorStake[vote := account]);
      r := list.Push(ValidatorStakeInfo(0, 0, ledger.epoch, 0, 0, Active, vote));
    }

    method RemoveValidator(vote: Pubkey) returns (r: Result<()>)
      requires Valid()
      modifies this, list, list.data
      ensures Valid() && Matches(r, S.RemoveValidator(old(Abs()), vote), Abs())
    {
      if pool.lastUpdateEpoch < ledger.epoch {
        return Err(StakeListAndPoolOutOfDate);
      }
      var account :- DelegatedStake(ledger, vote);
      var found := FindIndex(vote);
      if found.None? {
        return Err(ValidatorNotFound);
      }
      var record := list.Get(found.value);
      if account.lamports != MinimumStakeLamports(account.rent) || account.stake != MINIMUM_ACTIVE_STAKE {
        return Err(StakeLamportsNotEqualToMinimum);
      }
      var status :- RemovalStatus(ledger, record);
      ledger := ledger.(validatorStake := ledger.validatorStake - {vote});
      list.SetStatus(found.value, status);
      if pool.preferredDeposit == Some(vote) {
        pool := pool.(preferredDeposit := None);
      }
      if pool.preferredWithdraw == Some(vote) {
        pool := pool.(preferredWithdraw := None);
      }
      return Ok(());
    }

    /** The checks in front of a decrease, in the order the program makes them. */
    method CheckedSplit(account: StakeAccount, lamports: u64, key: TransientKey, prior: u64) returns (r: Result<Parts>)
      requires account.Delegated?
      ensures r == SplitOff(ledger, account, lamports, key, prior)
    {
      if lamports <= ledger.stakeRent {
        return Err(AccountNotRentExempt);
      }
      if account.lamports < lamports {
        return Err(InsufficientFunds);
      }
      var required := MinimumStakeLamports(account.rent);
      if account.lamports - lamports < required {
        if account.lamports < required {
          return Err(CalculationFailure);
        }
        return Err(InsufficientFunds);
      }
      if key in ledger.transientStake || account.stake < lamports || account.deactivationEpoch != EPOCH_MAX {
        return Err(Foreign);
      }
      var held :- Balance(lamports + prior);
      var split := Delegated(held, ledger.stakeRent, lamports - SaturatingSub(ledger.stakeRent, prior),
                             account.activationEpoch, ledger.epoch);
      return Ok(Parts(account.(lamports := account.lamports - lamports, stake := account.stake - lamports), split));
    }

    method DecreaseValidatorStake(vote: Pubkey, lamports: u64, seed: u64, prior: u64) returns (r: Result<()>)
      requires Valid()
      modifies this, list, list.data
      ensures Valid() && Matches(r, S.DecreaseValidatorStake(old(Abs()), vote, lamports, seed, prior), Abs())
    {
      if pool.lastUpdateEpoch < ledger.epoch {
        return Err(StakeListAndPoolOutOfDate);
      }
      var account :- DelegatedStake(ledger, vote);
      var found := FindIndex(vote);
      if found.None? {
        return Err(ValidatorNotFound);
      }
      var i := found.value;
      var record := list.Get(i);
      if record.transientStakeLamports > 0 {
        return Err(TransientAccountInUse);
      }
      var key := TransientKey(vote, seed);
      var parts :- CheckedSplit(account, lamports, key, prior);
      ledger := ledger.(validatorStake := ledger.validatorStake[vote := parts.rest],
                        transientStake := ledger.transientStake[key := parts.split]);
      var active :- Known(Checked64(record.activeStakeLamports - lamports));
      WriteSplit(i, active, lamports, seed);
      return Ok(());
    }

    method IncreaseValidatorStake(vote: Pubkey, lamports: u64, seed: u64, prior: u64) returns (r: Result<()>)
      requires Valid()
      modifies this, list, list.data
      ensures Valid() && Matches(r, S.IncreaseValidatorStake(old(Abs()), vote, lamports, seed, prior), Abs())
    {
      if pool.lastUpdateEpoch < ledger.epoch {
        return Err(StakeListAndPoolOutOfDate);
      }
      var found := FindIndex(vote);
      if found.None? {
        return Err(ValidatorNotFound);
      }
      var i := found.value;
      var record := list.Get(i);
      if record.transientStakeLamports > 0 {
        return Err(TransientAccountInUse);
      }
      var _ :- DelegatedStake(ledger, vote);
      if record.status != Active {
        return Err(ValidatorNotFound);
      }
      if lamports < MINIMUM_ACTIVE_STAKE {
        return Err(AccountNotRentExempt);
      }
      var total := SaturatingAdd(lamports, ledger.stakeRent);
      if SaturatingSub(ledger.reserve, total) <= ledger.stakeRent {
        return Err(InsufficientFunds);
      }
      var key := TransientKey(vote, seed);
      if key in ledger.transientStake {
        return Err(Foreign);
      }
      var held :- Balance(total + prior);
      var account := Delegated(held, ledger.stakeRent, held - ledger.stakeRent, ledger.epoch, EPOCH_MAX);
      ledger := ledger.(reserve := ledger.reserve - total, transientStake := ledger.transientStake[key := account]);
      WriteSplit(i, record.activeStakeLamports, total, seed);
      return Ok(());
    }

    method SetPreferredValidator(kind: PreferredType, vote: Option<Pubkey>) returns (r: Result<()>)
      requires Valid()
      modifies this
      ensures Valid() && Matches(r, S.SetPreferredValidator(old(Abs()), kind, vote), Abs())
    {
      if vote.Some? {
        var found := FindIndex(vote.value);
        if found.None? {
          return Err(ValidatorNotFound);
        }
        var record := list.Get(found.value);
        if record.status != Active {
          return Err(InvalidPreferredValidator);
        }
      }
      if kind == PreferredDeposit {
        pool := pool.(preferredDeposit := vote);
      } else {
        pool := pool.(preferredWithdraw := vote);
      }
      return Ok(());
    }

    // ----- Refreshing the list -----

    /** Merges or counts a record's transient account. */
    method RefreshTransient(record: ValidatorStakeInfo, noMerge: bool)
      returns (r: Result<()>, transientStakeLamports: u64, status: StakeStatus)
      requires Valid()
      modifies this
      ensures Valid() && pool == old(pool)
      ensures
        var spec := LookAtTransient(old(ledger), record, noMerge);
        if spec.Ok? then r.Ok? && spec.value == Look(ledger, status, transientStakeLamports) else r == Err(spec.error)
    {
      transientStakeLamports, status := 0, record.status;
      var key := TransientKey(record.voteAccountAddress, record.transientSeedSuffixStart);
      if key !in ledger.transientStake {
        return Ok(()), transientStakeLamports, status;
      }
      var transient := ledger.transientStake[key];
      if transient.Initialized? {
        if noMerge {
          transientStakeLamports := transient.lamports;
        } else {
          var merged := MergeIntoReserve(ledger, key, status);
          if merged.Err? {
            return Err(merged.error), transientStakeLamports, status;
          }
          ledger := merged.value.ledger;
          if status == DeactivatingTransient {
            status := ReadyForRemoval;
          }
        }
      } else {
        var accountStake := SaturatingAdd(transient.rent, transient.stake);
        if noMerge {
          transientStakeLamports := accountStake;
        } else if transient.deactivationEpoch < ledger.epoch {
          var merged := MergeIntoReserve(ledger, key, status);
          if merged.Err? {
            return Err(merged.error), transientStakeLamports, status;
          }
          ledger := merged.value.ledger;
          if status == DeactivatingTransient {
            status := ReadyForRemoval;
          }
        } else if transient.activationEpoch < ledger.epoch {
          if key.vote in ledger.validatorStake && ledger.validatorStake[key.vote].Delegated?
             && ledger.validatorStake[key.vote].activationEpoch < ledger.epoch {
            var merged := MergeIntoValidator(ledger, key, status);
            if merged.Err? {
              return Err(merged.error), transientStakeLamports, status;
            }
            ledger := merged.value.ledger;
          } else {
            transientStakeLamports := accountStake;
          }
        } else {
          transientStakeLamports := accountStake;
        }
      }
      return Ok(()), transientStakeLamports, status;
    }

    /** One turn of the refresh loop: settles the two accounts, then assigns the record's fields. */
    method RefreshSlot(i: nat, noMerge: bool) returns (r: Result<()>)
      requires Valid() && i < |list.items|
      modifies this, list, list.data
      ensures Valid() && pool == old(pool)
      ensures
        var v := old(list.items);
        var spec := RefreshRecord(old(ledger), v[i], noMerge);
        if spec.Ok? then r.Ok? && ledger == spec.value.ledger && list.items == v[i := spec.value.record]
        else r == Err(spec.error)
    {
      var record := list.Get(i);
      ghost var v := list.items;
      var epoch := ledger.epoch;
      var looked, transient, status := RefreshTransient(record, noMerge);
      if looked.Err? {
        return looked;
      }
      var active :- LookAtValidator(ledger, record.voteAccountAddress, status);
      ledger := active.ledger;
      WriteRefreshed(i, active.status, epoch, active.lamports, transient);
      assert list.items[i] == v[i].(activeStakeLamports := active.lamports, transientStakeLamports := transient,
                                         lastUpdateEpoch := epoch, status := active.status);
      return Ok(());
    }

    /** Assigns, field by field, what a refresh changes in a record. */
    method WriteRefreshed(i: nat, status: StakeStatus, epoch: u64, active: u64, transient: u64)
      requires Valid() && i < |list.items|
      modifies list, list.data
      ensures Valid()
      ensures list.items == old(list.items[i := list.items[i].(
                                       activeStakeLamports := active, transientStakeLamports := transient,
                                       lastUpdateEpoch := epoch, status := status)])
    {
      ghost var v := list.items;
      list.SetStatus(i, status);
      list.SetLastUpdateEpoch(i, epoch);
      assert list.items == v[i := v[i].(status := status, lastUpdateEpoch := epoch)];
      list.SetActiveStakeLamports(i, active);
      list.SetTransientStakeLamports(i, transient);
    }

    /** The loop over record and account pairs; pairs whose addresses do not match are skipped. */
    method UpdateValidatorList(start: u32, accounts: seq<Address>, noMerge: bool) returns (r: Result<()>)
      requires Valid()
      modifies this, list, list.data
      ensures Valid() && Matches(r, S.UpdateValidatorList(old(Abs()), start, accounts, noMerge), Abs())
    {
      if |accounts| % 2 != 0 {
        return Err(UnexpectedValidatorListAccountSize);
      }
      var slice :- list.MutRecords(start, |accounts| / 2);
      var k: nat := 0;
      ghost var v0, l0 := list.items, ledger;
      while k < |slice|
        invariant Valid() && k <= |slice| && pool == old(pool)
        invariant |list.items| == |v0|
        invariant RefreshFrom(l0, v0, start, accounts, noMerge, 0)
               == RefreshFrom(ledger, list.items, start, accounts, noMerge, k)
      {
        var record := list.Get(slice[k]);
        if PairMatches(record, accounts, k) {
          var refreshed := RefreshSlot(slice[k], noMerge);
          if refreshed.Err? {
            return refreshed;
          }
        }
        k := k + 1;
      }
      return Ok(());
    }

    // ----- Updating the pool -----

    /** The loop over the iterator: every record must be fresh, and each adds its stake. */
    method TotalLamports() returns (r: Result<u64>)
      requires Valid()
      ensures
        var base := Checked64(ledger.reserve - MinimumReserveLamports(ledger.reserveRent));
        r == if base.None? then Err(CalculationFailure)
             else FreshTotal(base.value, list.items, ledger.epoch, |list.items|)
    {
      var base :- Known(Checked64(ledger.reserve - MinimumReserveLamports(ledger.reserveRent)));
      var total: u64 := base;
      var len := list.Len();
      var current: nat := 0;
      ghost var v := list.items;
      while current != len
        invariant current <= len
        invariant FreshTotal(base, v, ledger.epoch, current) == Ok(total)
        decreases len - current
      {
        var record := list.Get(current);
        if record.lastUpdateEpoch < ledger.epoch {
          FreshTotalStops(base, v, ledger.epoch, current + 1, |v|);
          return Err(StakeListOutOfDate);
        }
        var sum := total as int + record.activeStakeLamports as int + record.transientStakeLamports as int;
        if sum > U64_MAX {
          FreshTotalStops(base, v, ledger.epoch, current + 1, |v|);
          return Err(CalculationFailure);
        }
        total := sum;
        current := current + 1;
      }
      return Ok(total);
    }

    method UpdateStakePool(feeAccountValid: bool) returns (r: Result<()>)
      requires Valid()
      modifies this
      ensures Valid() && Matches(r, S.UpdateStakePool(old(Abs()), feeAccountValid), Abs())
    {
      var total :- TotalLamports();
      var fee: u64 := 0;
      if feeAccountValid {
        fee :- Known(EpochFeeTokens(pool.totalLamports, pool.poolTokenSupply, pool.epochFee,
                                    SaturatingSub(total, pool.totalLamports)));
      }
      var mint :- Balance(ledger.mintSupply + fee);
      ledger := ledger.(mintSupply := mint);
      if pool.lastUpdateEpoch < ledger.epoch {
        PromoteFees();
      }
      pool := pool.(totalLamports := total, poolTokenSupply := ledger.mintSupply);
      return Ok(());
    }

    /** Pending fees take effect and the figures of the last epoch are kept. */
    method PromoteFees()
      requires Valid() && pool.lastUpdateEpoch < ledger.epoch
      modifies this`pool
      ensures Valid() && pool == Promote(old(pool), ledger.epoch)
    {
      ghost var before := pool;
      if pool.nextEpochFee.Some? {
        pool := pool.(epochFee := pool.nextEpochFee.value, nextEpochFee := None);
      }
      if pool.nextStakeWithdrawalFee.Some? {
        pool := pool.(stakeWithdrawalFee := pool.nextStakeWithdrawalFee.value, nextStakeWithdrawalFee := None);
      }
      if pool.nextSolWithdrawalFee.Some? {
        pool := pool.(solWithdrawalFee := pool.nextSolWithdrawalFee.value, nextSolWithdrawalFee := None);
      }
      pool := pool.(lastUpdateEpoch := ledger.epoch, lastEpochTotalLamports := pool.totalLamports,
                    lastEpochPoolTokenSupply := pool.poolTokenSupply);
    }

    /** The records ready for removal are squeezed out of the byte store. */
    method CleanupRemoved() returns (r: Result<()>)
      requires Valid()
      modifies list, list.data
      ensures Valid() && Matches(r, S.CleanupRemoved(old(Abs())), Abs())
    {
      list.RetainNotRemoved();
      return Ok(());
    }

    // ----- Deposits -----

    /** Mints the three shares of a deposit and enters it in the books. */
    method MintAndBook(minted: u64, split: DepositSplit, lamports: u64) returns (r: Result<()>)
      requires Valid() && split.user + split.manager + split.referral == minted
      modifies this
      ensures Valid() && Matches(r, Credit(old(Abs()), minted, lamports), Abs())
    {
      var user :- Balance(ledger.mintSupply + split.user);
      ledger := ledger.(mintSupply := user);
      if split.manager > 0 {
        var manager :- Balance(ledger.mintSupply + split.manager);
        ledger := ledger.(mintSupply := manager);
      }
      if split.referral > 0 {
        var referral :- Balance(ledger.mintSupply + split.referral);
        ledger := ledger.(mintSupply := referral);
      }
      var supply :- Known(Checked64(pool.poolTokenSupply + minted));
      var total :- Known(Checked64(pool.totalLamports + lamports));
      pool := pool.(poolTokenSupply := supply, totalLamports := total);
      return Ok(());
    }

    method DepositSol(lamports: u64) returns (r: Result<()>)
      requires Valid()
      modifies this
      ensures Valid() && Matches(r, S.DepositSol(old(Abs()), lamports), Abs())
    {
      if pool.lastUpdateEpoch < ledger.epoch {
        return Err(StakeListAndPoolOutOfDate);
      }
      var priced :- DepositSolTokens(pool, lamports);
      var reserve :- Balance(ledger.reserve + lamports);
      ledger := ledger.(reserve := reserve);
      r := MintAndBook(priced.0, priced.1, lamports);
    }

    /** The checks on the validator a stake deposit goes to. */
    method CheckedDepositTarget(vote: Pubkey) returns (r: Result<Target>)
      requires Valid()
      ensures r == DepositTarget(Abs(), vote)
    {
      var account :- DelegatedStake(ledger, vote);
      if pool.preferredDeposit.Some? && pool.preferredDeposit != Some(vote) {
        return Err(IncorrectDepositVoteAddress);
      }
      var found := FindIndex(vote);
      if found.None? {
        return Err(ValidatorNotFound);
      }
      var record := list.Get(found.value);
      if record.status != Active {
        return Err(ValidatorNotFound);
      }
      return Ok(Target(account, found.value));
    }

    /** Merges a deposited stake account and mints for it. */
    method MergeDeposit(vote: Pubkey, account: StakeAccount, lamports: u64, stake: u64) returns (r: Result<u64>)
      requires Valid() && account.Delegated?
      modifies this
      ensures Valid()
      ensures
        var spec := JoinStake(old(Abs()), vote, account, lamports, stake);
        if spec.Ok? then r == Ok(spec.value.stake) && Abs() == spec.value.state else r == Err(spec.error)
    {
      var _ :- Balance(account.lamports + lamports);
      var postStake :- Balance(account.stake + stake);
      var sol :- Known(Checked64(lamports - stake));
      var priced :- DepositStakeTokens(pool, lamports, stake);
      var reserve :- Balance(ledger.reserve + sol);
      var post := account.(lamports := account.lamports + stake, stake := postStake);
      ledger := ledger.(reserve := reserve, validatorStake := ledger.validatorStake[vote := post]);
      var booked := MintAndBook(priced.0, priced.1, lamports);
      if booked.Err? {
        return Err(booked.error);
      }
      return Ok(postStake);
    }

    method DepositStake(vote: Pubkey, lamports: u64, stake: u64) returns (r: Result<()>)
      requires Valid()
      modifies this, list, list.data
      ensures Valid() && Matches(r, S.DepositStake(old(Abs()), vote, lamports, stake), Abs())
    {
      if pool.lastUpdateEpoch < ledger.epoch {
        return Err(StakeListAndPoolOutOfDate);
      }
      var target :- CheckedDepositTarget(vote);
      var postStake :- MergeDeposit(vote, target.account, lamports, stake);
      var active :- Known(Checked64(postStake - MINIMUM_ACTIVE_STAKE));
      list.SetActiveStakeLamports(target.index, active);
      return Ok(());
    }

    // ----- Withdrawals -----

    /** Burns the tokens and takes the withdrawal off the books. */
    method BurnAndBook(w: Withdrawal) returns (r: Result<()>)
      requires Valid()
      modifies this
      ensures Valid() && Matches(r, Debit(old(Abs()), w), Abs())
    {
      var mint :- Balance(ledger.mintSupply - w.burnt);
      ledger := ledger.(mintSupply := mint);
      var supply :- Known(Checked64(pool.poolTokenSupply - w.burnt));
      var total :- Known(Checked64(pool.totalLamports - w.lamports));
      pool := pool.(poolTokenSupply := supply, totalLamports := total);
      return Ok(());
    }

    method WithdrawSol(tokens: u64, exempt: bool) returns (r: Result<()>)
      requires Valid()
      modifies this
      ensures Valid() && Matches(r, S.WithdrawSol(old(Abs()), tokens, exempt), Abs())
    {
      if pool.lastUpdateEpoch < ledger.epoch {
        return Err(StakeListAndPoolOutOfDate);
      }
      var w :- PriceWithdrawal(pool, pool.solWithdrawalFee, tokens, exempt);
      if SaturatingSub(ledger.reserve, w.lamports) < MinimumReserveLamports(ledger.reserveRent) {
        return Err(SolWithdrawalTooLarge);
      }
      var booked := BurnAndBook(w);
      if booked.Err? {
        return booked;
      }
      var left :- Balance(ledger.reserve - w.lamports);
      ledger := ledger.(reserve := left);
      return Ok(());
    }

    /** The reserve pays out only when no record shows any stake. */
    method WithdrawFromReserve(w: Withdrawal) returns (r: Result<()>)
      requires Valid()
      modifies this
      ensures Valid() && Matches(r, S.WithdrawFromReserve(old(Abs()), w), Abs())
    {
      var hasActive := HasActive();
      var hasTransient := HasTransient();
      if hasTransient || hasActive {
        return Err(StakeLamportsNotEqualToMinimum);
      }
      if ledger.reserve < MinimumReserveLamports(ledger.reserveRent) {
        return Err(StakeLamportsNotEqualToMinimum);
      }
      var booked := BurnAndBook(w);
      if booked.Err? {
        return booked;
      }
      var left :- Balance(ledger.reserve - w.lamports);
      ledger := ledger.(reserve := left);
      return Ok(());
    }

    method PreferredAllows(vote: Pubkey) returns (r: Result<()>)
      requires Valid()
      ensures r == CheckPreferred(Abs(), vote)
    {
      if pool.preferredWithdraw.Some? {
        var found := FindIndex(pool.preferredWithdraw.value);
        if found.None? {
          return Err(ValidatorNotFound);
        }
        var record := list.Get(found.value);
        if pool.preferredWithdraw.value != vote && record.activeStakeLamports > 0 {
          return Err(IncorrectWithdrawVoteAddress);
        }
      }
      return Ok(());
    }

    /** The checks on the account a withdrawal comes from. */
    method CheckedWithdrawTarget(a: Address, lamports: u64) returns (r: Result<Target>)
      requires Valid()
      ensures r == WithdrawTarget(Abs(), a, lamports)
    {
      var hasActive := HasActive();
      var account :- AccountAt(ledger, a);
      var allowed := PreferredAllows(a.vote);
      if allowed.Err? {
        return Err(allowed.error);
      }
      var found := FindIndex(a.vote);
      if found.None? {
        return Err(ValidatorNotFound);
      }
      var record := list.Get(found.value);
      if hasActive {
        if !a.ValidatorStakeAddress? {
          return Err(InvalidStakeAccountAddress);
        }
      } else if a != TransientStakeAddress(a.vote, record.transientSeedSuffixStart) {
        return Err(InvalidStakeAccountAddress);
      }
      if record.status != Active {
        return Err(ValidatorNotFound);
      }
      if SaturatingSub(account.stake, lamports) < MINIMUM_ACTIVE_STAKE {
        return Err(StakeLamportsNotEqualToMinimum);
      }
      return Ok(Target(account, found.value));
    }

    /** Writes back a validator's account and takes the lamports off its record. */
    method TakeActive(i: nat, vote: Pubkey, rest: StakeAccount, lamports: u64) returns (r: Result<()>)
      requires Valid() && i < |list.items|
      modifies this, list, list.data
      ensures Valid() && Matches(r, ActiveTaken(old(Abs()), i, vote, rest, lamports), Abs())
    {
      var record := list.Get(i);
      ledger := ledger.(validatorStake := ledger.validatorStake[vote := rest]);
      var active :- Known(Checked64(record.activeStakeLamports - lamports));
      list.SetActiveStakeLamports(i, active);
      return Ok(());
    }

    /** The same for a transient account. */
    method TakeTransient(i: nat, key: TransientKey, rest: StakeAccount, lamports: u64) returns (r: Result<()>)
      requires Valid() && i < |list.items|
      modifies this, list, list.data
      ensures Valid() && Matches(r, TransientTaken(old(Abs()), i, key, rest, lamports), Abs())
    {
      var record := list.Get(i);
      ledger := ledger.(transientStake := ledger.transientStake[key := rest]);
      var transient :- Known(Checked64(record.transientStakeLamports - lamports));
      list.SetTransientStakeLamports(i, transient);
      return Ok(());
    }

    /** The record and its account shrink together. */
    method WithdrawFromAccount(w: Withdrawal, a: Address) returns (r: Result<()>)
      requires Valid()
      modifies this, list, list.data
      ensures Valid() && Matches(r, S.WithdrawFromAccount(old(Abs()), w, a), Abs())
    {
      var target :- CheckedWithdrawTarget(a, w.lamports);
      var account, i := target.account, target.index;
      var left :- Balance(account.lamports - w.lamports);
      var rest := account.(lamports := left, stake := account.stake - w.lamports);
      var booked := BurnAndBook(w);
      if booked.Err? {
        return booked;
      }
      if a.ValidatorStakeAddress? {
        r := TakeActive(i, a.vote, rest, w.lamports);
      } else {
        r := TakeTransient(i, TransientKey(a.vote, a.seed), rest, w.lamports);
      }
    }

    method WithdrawStake(source: Source, tokens: u64, exempt: bool) returns (r: Result<()>)
      requires Valid()
      modifies this, list, list.data
      ensures Valid() && Matches(r, S.WithdrawStake(old(Abs()), source, tokens, exempt), Abs())
    {
      if pool.lastUpdateEpoch < ledger.epoch {
        return Err(StakeListAndPoolOutOfDate);
      }
      var w :- PriceWithdrawal(pool, pool.stakeWithdrawalFee, tokens, exempt);
      match source
      case FromReserve => r := WithdrawFromReserve(w);
      case FromAccount(a) => r := WithdrawFromAccount(w, a);
    }

    // ----- Fees -----

    method SetFee(f: FeeType) returns (r: Result<()>)
      requires Valid()
      modifies this
      ensures Valid() && Matches(r, S.SetFee(old(Abs()), f), Abs())
    {
      if f.CanOnlyChangeNextEpoch() && pool.lastUpdateEpoch < ledger.epoch {
        return Err(StakeListAndPoolOutOfDate);
      }
      var _ :- f.CheckTooHigh();
      match f {
        case SolReferral(percent) => pool := pool.(solReferralFee := percent);
        case StakeReferral(percent) => pool := pool.(stakeReferralFee := percent);
        case Epoch(fee) => pool := pool.(nextEpochFee := Some(fee));
        case StakeWithdrawal(fee) =>
          var _ :- CheckWithdrawal(fee, pool.stakeWithdrawalFee);
          pool := pool.(nextStakeWithdrawalFee := Some(fee));
        case SolWithdrawal(fee) =>
          var _ :- CheckWithdrawal(fee, pool.solWithdrawalFee);
          pool := pool.(nextSolWithdrawalFee := Some(fee));
        case SolDeposit(fee) => pool := pool.(solDepositFee := fee);
        case StakeDeposit(fee) => pool := pool.(stakeDepositFee := fee);
      }
      return Ok(());
    }

    // ----- Transactions -----

    method Dispatch(a: Action) returns (r: Result<()>)
      requires Valid() && !IsEnvironment(a)
      modifies this, list, list.data
      ensures Valid() && Matches(r, Apply(old(Abs()), a), Abs())
    {
      match a {
        case DoAddValidator(vote, prior) => r := AddValidator(vote, prior);
        case DoRemoveValidator(vote) => r := RemoveValidator(vote);
        case DoDecrease(vote, lamports, seed, prior) => r := DecreaseValidatorStake(vote, lamports, seed, prior);
        case DoIncrease(vote, lamports, seed, prior) => r := IncreaseValidatorStake(vote, lamports, seed, prior);
        case DoSetPreferred(kind, preferred) => r := SetPreferredValidator(kind, preferred);
        case DoUpdateList(start, accounts, noMerge) => r := UpdateValidatorList(start, accounts, noMerge);
        case DoUpdatePool(feeAccountValid) => r := UpdateStakePool(feeAccountValid);
        case DoCleanup => r := CleanupRemoved();
        case DoDepositStake(vote, lamports, stake) => r := DepositStake(vote, lamports, stake);
        case DoDepositSol(lamports) => r := DepositSol(lamports);
        case DoWithdrawStake(source, tokens, exempt) => r := WithdrawStake(source, tokens, exempt);
        case DoWithdrawSol(tokens, exempt) => r := WithdrawSol(tokens, exempt);
        case DoSetFee(fee) => r := SetFee(fee);
      }
    }

    /** One transaction: if the instruction fails, everything it wrote is undone. */
    method Execute(a: Action) returns (r: Result<()>)
      requires Valid() && !IsEnvironment(a)
      modifies this, list, list.data
      ensures Valid() && Abs() == Next(old(Abs()), a)
      ensures r.Ok? <==> Apply(old(Abs()), a).Ok?
      ensures r.Err? ==> list.data[..] == old(list.data[..])
    {
      var savedPool, savedLedger, savedBytes := pool, ledger, list.data[..];
      ghost var savedItems := list.items;
      r := Dispatch(a);
      if r.Err? {
        pool, ledger := savedPool, savedLedger;
        list.Restore(savedBytes, savedItems);
      }
    }

    /** A move of the environment, which touches no account the program writes its state to. */
    method Observe(a: Action)
      requires Valid() && IsEnvironment(a)
      modifies this`ledger
      ensures Valid() && Abs() == Next(old(Abs()), a)
    {
      var moved := Apply(State(pool, [], maxValidators, ledger), a);
      if moved.Ok? {
        ledger := moved.value.ledger;
      }
    }
  }

  /** A whole run over the bytes, of instructions and moves of the environment in any order, reaches the
      state the run of state functions reaches. */
  method Replay(p: Processor, actions: seq<Action>)
    requires p.Valid()
    modifies p, p.list, p.list.data
    ensures p.Valid() && p.Abs() == Run(old(p.Abs()), actions)
  {
    var i := 0;
    ghost var start := p.Abs();
    while i < |actions|
      invariant 0 <= i <= |actions|
      invariant p.Valid() && p.Abs() == Run(start, actions[..i])
    {
      if IsEnvironment(actions[i]) {
        p.Observe(actions[i]);
      } else {
        var _ := p.Execute(actions[i]);
      }
      i := i + 1;
      assert actions[..i][..i - 1] == actions[..i - 1];
    }
    assert actions[..i] == actions;
  }

  /** The size check at initialization admits exactly the number of records that fit. */
  lemma RoomForAllValidators(listLength: u64, maxValidators: u32)
    requires CalculateMaxValidators(listLength) == maxValidators && maxValidators != 0
    ensures 5 + Offset(maxValidators) <= listLength < 5 + Offset(maxValidators + 1)
  {
    FloorBounds(SaturatingSub(listLength, 9), RECORD_LEN);
  }

  /** Creates the pool over the bytes of the list account that follow its header. */
  method Initialize(p: Setup, bytes: array<u8>) returns (r: Result<Processor>)
    requires p.listLength >= 5 ==> bytes.Length == p.listLength - 5
    modifies bytes
    ensures
      var spec := S.Initialize(p);
      && (spec.Err? ==> r == Err(spec.error))
      && (spec.Ok? ==> r.Ok? && fresh(r.value) && r.value.Valid() && r.value.Abs() == spec.value)
    ensures r.Ok? ==> fresh(r.value.list) && r.value.list.data == bytes
  {
    if CalculateMaxValidators(p.listLength) != p.maxValidators || p.maxValidators == 0 {
      return Err(UnexpectedValidatorListAccountSize);
    }
    RoomForAllValidators(p.listLength, p.maxValidators);
    if p.epochFee.numerator > p.epochFee.denominator || p.withdrawalFee.numerator > p.withdrawalFee.denominator
       || p.depositFee.numerator > p.depositFee.denominator || p.referralFee > 100 {
      return Err(FeeTooHigh);
    }
    if p.mintSupply != 0 {
      return Err(NonZeroPoolTokenSupply);
    }
    var total :- Known(Checked64(p.reserve - MinimumReserveLamports(p.reserveRent)));
    bytes[0], bytes[1], bytes[2], bytes[3] := 0, 0, 0, 0;
    EmptyVector(bytes[..]);
    var list := new BigVec(bytes, []);
    var pool := StakePool(
      total, total, p.epoch, p.epochFee, None, None, None, p.depositFee, p.withdrawalFee, None,
      p.referralFee, p.depositFee, p.referralFee, p.withdrawalFee, None, 0, 0);
    var ledger := Ledger(p.reserve, p.reserveRent, p.stakeRent, map[], map[], total, p.epoch);
    var processor := new Processor(pool, ledger, list, p.maxValidators);
    return Ok(processor);
  }

  lemma EmptyVector(b: seq<u8>)
    requires |b| >= VEC_SIZE_BYTES && b[0] == b[1] == b[2] == b[3] == 0
    ensures Represents(b, [])
  {
    U32Zero();
    assert b[..VEC_SIZE_BYTES] == [0, 0, 0, 0];
  }

  /** Once the total of a prefix fails, so does every longer one, for the same reason. */
  lemma {:induction false} FreshTotalStops(base: u64, v: seq<ValidatorStakeInfo>, epoch: u64, n: nat, m: nat)
    requires n <= m <= |v| && FreshTotal(base, v, epoch, n).Err?
    ensures FreshTotal(base, v, epoch, m) == FreshTotal(base, v, epoch, n)
  {
    if n < m {
      FreshTotalStops(base, v, epoch, n, m - 1);
    }
  }
}
