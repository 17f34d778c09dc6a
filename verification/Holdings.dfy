/** The lamports in the pool's accounts: what a list update conserves, and what stands behind the books. */
module Holdings {
  import opened Records
  import opened PoolState
  import opened Steps
  import opened ListInvariant
  import opened Solvency
  import opened SolvencySteps

  /** The lamports in the accounts with these keys. */
  ghost function LamportsOver<K(!new)>(keys: set<K>, m: map<K, StakeAccount>): nat
    requires keys <= m.Keys
  {
    if keys == {} then 0
    else
      var k :| k in keys;
      m[k].lamports + LamportsOver(keys - {k}, m)
  }

  /** All lamports in a set of accounts. */
  ghost function LamportsIn<K(!new)>(m: map<K, StakeAccount>): nat {
    LamportsOver(m.Keys, m)
  }

  lemma Picked<K(!new)>(keys: set<K>, m: map<K, StakeAccount>) returns (c: K)
    requires keys <= m.Keys && keys != {}
    ensures c in keys && LamportsOver(keys, m) == m[c].lamports + LamportsOver(keys - {c}, m)
  {
    c :| c in keys && LamportsOver(keys, m) == m[c].lamports + LamportsOver(keys - {c}, m);
  }

  lemma {:induction false} LamportsLess<K(!new)>(keys: set<K>, m: map<K, StakeAccount>, k: K)
    requires keys <= m.Keys && k in keys
    ensures LamportsOver(keys, m) == m[k].lamports + LamportsOver(keys - {k}, m)
    decreases |keys|
  {
    var c := Picked(keys, m);
    if c != k {
      LamportsLess(keys - {c}, m, k);
      LamportsLess(keys - {k}, m, c);
      assert keys - {c} - {k} == keys - {k} - {c};
    }
  }

  lemma {:induction false} LamportsAgree<K(!new)>(keys: set<K>, m: map<K, StakeAccount>, m': map<K, StakeAccount>)
    requires keys <= m.Keys && keys <= m'.Keys
    requires forall k :: k in keys ==> m'[k] == m[k]
    ensures LamportsOver(keys, m) == LamportsOver(keys, m')
    decreases |keys|
  {
    if keys != {} {
      var c := Picked(keys, m);
      LamportsAgree(keys - {c}, m, m');
      LamportsLess(keys, m', c);
    }
  }

  lemma LamportsWithout<K(!new)>(m: map<K, StakeAccount>, k: K)
    ensures LamportsIn(m) == LamportsIn(m - {k}) + (if k in m then m[k].lamports else 0)
  {
    var m' := m - {k};
    assert m'.Keys == m.Keys - {k};
    if k in m {
      LamportsLess(m.Keys, m, k);
    } else {
      assert m' == m;
    }
    LamportsAgree(m'.Keys, m, m');
  }

  lemma LamportsUpdated<K(!new)>(m: map<K, StakeAccount>, k: K, a: StakeAccount)
    requires k in m
    ensures LamportsIn(m[k := a]) == LamportsIn(m) - m[k].lamports + a.lamports
  {
    var m' := m[k := a];
    assert m'.Keys == m.Keys;
    LamportsLess(m.Keys, m, k);
    LamportsLess(m.Keys, m', k);
    LamportsAgree(m.Keys - {k}, m, m');
  }

  ghost function Held(l: Ledger): nat {
    l.reserve + LamportsIn(l.validatorStake) + LamportsIn(l.transientStake)
  }

  // ----- Conservation -----

  lemma MergeIntoReserveConserves(l: Ledger, key: TransientKey, status: StakeStatus)
    requires key in l.transientStake && MergeIntoReserve(l, key, status).Ok?
    ensures Held(MergeIntoReserve(l, key, status).value.ledger) == Held(l)
  {
    LamportsWithout(l.transientStake, key);
  }

  lemma MergeIntoValidatorConserves(l: Ledger, key: TransientKey, status: StakeStatus)
    requires key in l.transientStake && l.transientStake[key].Delegated?
    requires key.vote in l.validatorStake && l.validatorStake[key.vote].Delegated?
    requires MergeIntoValidator(l, key, status).Ok?
    ensures Held(MergeIntoValidator(l, key, status).value.ledger) == Held(l)
  {
    var look := MergeIntoValidator(l, key, status).value;
    LamportsWithout(l.transientStake, key);
    LamportsUpdated(l.validatorStake, key.vote, look.ledger.validatorStake[key.vote]);
  }

  lemma TransientLookConserves(l: Ledger, r: ValidatorStakeInfo, noMerge: bool)
    requires LookAtTransient(l, r, noMerge).Ok?
    ensures Held(LookAtTransient(l, r, noMerge).value.ledger) == Held(l)
  {
    var look, key := LookAtTransient(l, r, noMerge), KeyOf(r);
    if key in l.transientStake {
      if look == MergeIntoReserve(l, key, r.status) {
        MergeIntoReserveConserves(l, key, r.status);
      } else if look.value.ledger != l {
        MergeIntoValidatorConserves(l, key, r.status);
      }
    }
  }

  lemma ValidatorLookConserves(l: Ledger, vote: Pubkey, status: StakeStatus)
    requires LookAtValidator(l, vote, status).Ok?
    ensures Held(LookAtValidator(l, vote, status).value.ledger) == Held(l)
  {
    if vote in l.validatorStake {
      LamportsWithout(l.validatorStake, vote);
    }
  }

  /** A list update creates and destroys no lamports, on any branch and for any accounts. */
  lemma {:induction false} ListUpdateConserves(l: Ledger, v: seq<ValidatorStakeInfo>, start: nat,
                                               accounts: seq<Address>, noMerge: bool, k: nat)
    requires start + |accounts| / 2 <= |v| && k <= |accounts| / 2
    requires RefreshFrom(l, v, start, accounts, noMerge, k).Ok?
    ensures Held(RefreshFrom(l, v, start, accounts, noMerge, k).value.ledger) == Held(l)
    decreases |accounts| / 2 - k
  {
    if k < |accounts| / 2 {
      var r := v[start + k];
      if PairMatches(r, accounts, k) {
        TransientLookConserves(l, r, noMerge);
        var look := LookAtTransient(l, r, noMerge).value;
        ValidatorLookConserves(look.ledger, r.voteAccountAddress, look.status);
        var one := RefreshRecord(l, r, noMerge).value;
        ListUpdateConserves(one.ledger, v[start + k := one.record], start, accounts, noMerge, k + 1);
      } else {
        ListUpdateConserves(l, v, start, accounts, noMerge, k + 1);
      }
    }
  }

  // ----- What stands behind the books -----

  ghost predicate HeldBy(r: ValidatorStakeInfo, vs: map<Pubkey, StakeAccount>, ts: map<TransientKey, StakeAccount>) {
    && (r.status == Active ==>
          && r.voteAccountAddress in vs
          && r.activeStakeLamports + MINIMUM_ACTIVE_STAKE <= vs[r.voteAccountAddress].lamports)
    && (r.status != Active ==> r.activeStakeLamports == 0)
    && (r.transientStakeLamports > 0 ==>
          KeyOf(r) in ts && r.transientStakeLamports <= ts[KeyOf(r)].lamports)
  }

  function ActiveCount(v: seq<ValidatorStakeInfo>): nat {
    if |v| == 0 then 0
    else ActiveCount(v[..|v| - 1]) + (if v[|v| - 1].status == Active then 1 else 0)
  }

  /** Distinct records are backed by distinct accounts, so their stake adds up. */
  lemma {:induction false} RecordedWithinHeld(v: seq<ValidatorStakeInfo>, vs: map<Pubkey, StakeAccount>,
                                              ts: map<TransientKey, StakeAccount>)
    requires DistinctVotes(v)
    requires forall i :: 0 <= i < |v| ==> HeldBy(v[i], vs, ts)
    ensures StakeSum(v) + MINIMUM_ACTIVE_STAKE * ActiveCount(v) <= LamportsIn(vs) + LamportsIn(ts)
  {
    if |v| > 0 {
      var front, last := v[..|v| - 1], v[|v| - 1];
      var vs' := vs - {last.voteAccountAddress};
      var ts' := ts - {KeyOf(last)};
      forall i | 0 <= i < |front|
        ensures HeldBy(front[i], vs', ts')
      {
        assert HeldBy(v[i], vs, ts);
        assert v[i].voteAccountAddress != last.voteAccountAddress;
      }
      RecordedWithinHeld(front, vs', ts');
      assert HeldBy(last, vs, ts);
      LamportsWithout(vs, last.voteAccountAddress);
      LamportsWithout(ts, KeyOf(last));
    }
  }

  /** Everything the pool owes, the reserve's minimum and the minimum stake of every active validator
      are really there, in accounts the pool controls. */
  lemma BooksAreBacked(s: State, m: Mode)
    requires ListInv(s) && LedgerInv(s, m) && (m.lossFree || Current(s))
    ensures s.pool.totalLamports + MinimumReserveLamports(s.ledger.reserveRent)
         + MINIMUM_ACTIVE_STAKE * ActiveCount(s.validators) <= Held(s.ledger)
  {
    forall i | 0 <= i < |s.validators|
      ensures HeldBy(s.validators[i], s.ledger.validatorStake, s.ledger.transientStake)
    {
      assert RecordOk(s.validators[i], s.ledger, m);
      if Current(s) {
        CurrentMeansFresh(s, i);
      }
    }
    RecordedWithinHeld(s.validators, s.ledger.validatorStake, s.ledger.transientStake);
  }
}
