/** What pool tokens cost and what they redeem for. */
module Pricing {
  import opened Numbers
  import opened Fees

  /** Pool tokens minted for a deposit, rounded down. */
  function TokensForDeposit(total: u64, supply: u64, lamports: u64): Option<u64> {
    if total == 0 || supply == 0 then Some(lamports)
    else
      ProductFits128(lamports, supply);
      Checked64(lamports * supply / total)
  }

  /** Lamports paid for burnt pool tokens, rounded up. */
  function LamportsForTokens(total: u64, supply: u64, tokens: u64): Option<u64> {
    ProductFits128(tokens, total);
    var numerator := tokens * total;
    if numerator < supply || supply == 0 then Some(0)
    else Checked64(CeilDiv(numerator, supply))
  }

  /** Pool tokens minted to the manager for an epoch's reward. */
  function EpochFeeTokens(total: u64, supply: u64, fee: Fee, reward: u64): Option<u64> {
    if reward == 0 then Some(0)
    else
      var newTotal := total + reward;
      var feeLamports := fee.Apply(reward);
      if newTotal == feeLamports || supply == 0 then Some(reward)
      else
        var product := Checked128(supply * feeLamports);
        if product.None? || newTotal < feeLamports then None
        else Checked64(product.value / (newTotal - feeLamports))
  }

  function ReferralTokens(percent: u8, depositFee: u64): Option<u64> {
    Checked64(depositFee * percent / 100)
  }

  // ----- What each price is -----

  /** The deposit price is the exact quotient rounded down, refused only where that leaves 64 bits; a pool
      without lamports or without tokens mints one to one. */
  lemma DepositIsFloor(total: u64, supply: u64, lamports: u64)
    ensures
      var minted := TokensForDeposit(total, supply, lamports);
      if total == 0 || supply == 0 then minted == Some(lamports)
      else
        && (minted.Some? ==> minted.value * total <= lamports * supply < minted.value * total + total)
        && (minted.None? <==> lamports * supply >= (U64_MAX + 1) * total)
  {
    if total > 0 && supply > 0 {
      MulNonNeg(lamports, supply);
      CheckedFloor(lamports * supply, total);
    }
  }

  /** A quotient rounded down, which leaves 64 bits exactly when the dividend reaches 2^64 divisors. */
  lemma CheckedFloor(a: nat, b: nat)
    requires b > 0
    ensures
      var q := Checked64(a / b);
      && (q.Some? ==> q.value * b <= a < q.value * b + b)
      && (q.None? <==> a >= (U64_MAX + 1) * b)
  {
    FloorBounds(a, b);
    if a >= (U64_MAX + 1) * b {
      FloorGreatest(a, b, U64_MAX + 1);
    } else if a / b > U64_MAX {
      MulMono(U64_MAX + 1, a / b, b, b);
    }
  }

  /** The redemption price is the exact quotient rounded up, nothing below one lamport's worth of it,
      and refused only where it leaves 64 bits. */
  lemma RedemptionIsCeiling(total: u64, supply: u64, tokens: u64)
    ensures
      var paid := LamportsForTokens(total, supply, tokens);
      if supply == 0 || tokens * total < supply then paid == Some(0)
      else
        && (paid.Some? ==> tokens * total <= paid.value * supply < tokens * total + supply)
        && (paid.None? <==> tokens * total > U64_MAX * supply)
  {
    MulNonNeg(tokens, total);
    if supply > 0 && tokens * total >= supply {
      CeilBounds(tokens * total, supply);
      if tokens * total <= U64_MAX * supply {
        CeilLeast(tokens * total, supply, U64_MAX);
      } else if CeilDiv(tokens * total, supply) <= U64_MAX {
        MulMono(CeilDiv(tokens * total, supply), U64_MAX, supply, supply);
      }
    }
  }

  /** The epoch fee in tokens: `supply * taken / (new total - taken)` rounded down, where `taken` is the
      fee on the reward; the whole reward where no ratio exists. */
  lemma EpochFeeIsFloor(total: u64, supply: u64, fee: Fee, reward: u64)
    requires EpochFeeTokens(total, supply, fee, reward).Some?
    ensures
      var minted, taken := EpochFeeTokens(total, supply, fee, reward).value, fee.Apply(reward);
      if reward == 0 then minted == 0
      else if supply == 0 || total + reward == taken then minted == reward
      else
        && taken < total + reward
        && minted * (total + reward - taken) <= supply * taken < (minted + 1) * (total + reward - taken)
  {
    var minted, taken := EpochFeeTokens(total, supply, fee, reward).value, fee.Apply(reward);
    if reward > 0 && supply > 0 && total + reward != taken {
      MulNonNeg(supply, taken);
      FloorBounds(supply * taken, total + reward - taken);
      assert (minted + 1) * (total + reward - taken) == minted * (total + reward - taken) + (total + reward - taken);
    }
  }

  /** With a fee of at most 100% there is none only where that quotient leaves 64 bits. */
  lemma EpochFeeRefusedExactly(total: u64, supply: u64, fee: Fee, reward: u64)
    requires fee.AtMostOne()
    ensures
      var taken := fee.Apply(reward);
      EpochFeeTokens(total, supply, fee, reward).None? <==>
        && reward > 0 && supply > 0 && total + reward != taken
        && supply * taken >= (U64_MAX + 1) * (total + reward - taken)
  {
    var taken := fee.Apply(reward);
    ProductFits128(supply, taken);
    if total + reward != taken {
      CheckedFloor(supply * taken, total + reward - taken);
    }
  }

  /** The referrer's part of a deposit fee is its percentage rounded down. */
  lemma ReferralIsFloor(percent: u8, depositFee: u64)
    ensures
      var part := ReferralTokens(percent, depositFee);
      && (part.Some? ==> part.value * 100 <= depositFee * percent < part.value * 100 + 100)
      && (part.None? <==> depositFee * percent >= (U64_MAX + 1) * 100)
  {
    MulNonNeg(depositFee, percent);
    CheckedFloor(depositFee * percent, 100);
  }

  // ----- Deposits and withdrawals against the exchange rate -----

  /** `total/supply` does not fall, cross-multiplied so that no division is needed. */
  ghost predicate RateKept(total: nat, supply: nat, total': nat, supply': nat) {
    total * supply' <= total' * supply
  }

  /** A deposit never lowers the value of a pool token. */
  lemma DepositKeepsRate(total: u64, supply: u64, lamports: u64)
    requires supply > 0
    requires TokensForDeposit(total, supply, lamports).Some?
    ensures RateKept(total, supply, total + lamports, supply + TokensForDeposit(total, supply, lamports).value)
  {
    var minted := TokensForDeposit(total, supply, lamports).value;
    if total > 0 {
      FloorBounds(lamports * supply, total);
      assert total * (supply + minted) == total * supply + minted * total;
      assert (total + lamports) * supply == total * supply + lamports * supply;
    } else {
      MulNonNeg(lamports, supply);
    }
  }

  /** What a redemption pays: at least the tokens' exact worth, unless it pays nothing,
      and less than one lamport above it. */
  lemma RedemptionBounds(total: u64, supply: u64, tokens: u64)
    requires LamportsForTokens(total, supply, tokens).Some?
    ensures
      var paid := LamportsForTokens(total, supply, tokens).value;
      supply == 0 || paid * supply < tokens * total + supply
    ensures
      var paid := LamportsForTokens(total, supply, tokens).value;
      paid > 0 ==> supply > 0 && tokens * total <= paid * supply
    ensures
      var paid := LamportsForTokens(total, supply, tokens).value;
      supply == 0 || tokens * total <= paid * supply + supply
  {
    MulNonNeg(tokens, total);
    if supply > 0 {
      CeilBounds(tokens * total, supply);
    }
  }

  /** A redemption takes less than one lamport more than the burnt tokens' share. */
  lemma WithdrawalBoundsRate(total: u64, supply: u64, tokens: u64)
    requires tokens <= supply
    requires LamportsForTokens(total, supply, tokens).Some?
    requires 0 < LamportsForTokens(total, supply, tokens).value <= total
    ensures
      var paid := LamportsForTokens(total, supply, tokens).value;
      && total * (supply - tokens) < (total - paid) * supply + supply
      && RateKept(total - paid, supply - tokens, total, supply)
  {
    var paid := LamportsForTokens(total, supply, tokens).value;
    RedemptionBounds(total, supply, tokens);
    assert total * (supply - tokens) == total * supply - tokens * total;
    assert (total - paid) * supply == total * supply - paid * supply;
  }

  /** No redemption of at most the whole supply pays more than the pool holds. */
  lemma RedemptionWithinTotal(total: u64, supply: u64, tokens: u64)
    requires tokens <= supply
    ensures LamportsForTokens(total, supply, tokens).Some?
    ensures LamportsForTokens(total, supply, tokens).value <= total
  {
    if supply > 0 {
      MulMono(tokens, supply, total, total);
      assert supply * total == total * supply;
      CeilLeast(tokens * total, supply, total);
    }
  }

  /** Burning the whole supply pays out exactly the whole pool. */
  lemma WholeSupplyRedeemsTotal(total: u64, supply: u64)
    requires supply > 0
    ensures LamportsForTokens(total, supply, supply) == Some(total)
  {
    RedemptionWithinTotal(total, supply, supply);
    RedemptionBounds(total, supply, supply);
    var paid := LamportsForTokens(total, supply, supply).value;
    if total > 0 {
      MulMono(1, total, supply, supply);
      assert supply * total == total * supply >= supply;
      CeilBounds(supply * total, supply);
      CancelLe(total, paid, supply);
    }
  }

  /** A redemption pays at most `k` when the tokens' exact worth is at most `k`. */
  lemma RedemptionAtMost(total: u64, supply: u64, tokens: u64, k: nat)
    requires tokens <= supply
    requires tokens * total <= k * supply
    ensures LamportsForTokens(total, supply, tokens).Some?
    ensures LamportsForTokens(total, supply, tokens).value <= k
  {
    RedemptionWithinTotal(total, supply, tokens);
    MulNonNeg(tokens, total);
    if supply > 0 {
      CeilLeast(tokens * total, supply, k);
    }
  }

  /** The minted tokens' share of the pool after the deposit is at most the deposit. */
  lemma DepositShare(total: u64, supply: u64, lamports: u64)
    requires supply > 0
    requires TokensForDeposit(total, supply, lamports).Some?
    ensures
      var minted := TokensForDeposit(total, supply, lamports).value;
      minted * (total + lamports) <= lamports * (supply + minted)
  {
    var minted := TokensForDeposit(total, supply, lamports).value;
    assert minted * (total + lamports) == minted * total + minted * lamports;
    assert lamports * (supply + minted) == lamports * supply + minted * lamports;
    MulNonNeg(lamports, supply);
    if total > 0 {
      FloorBounds(lamports * supply, total);
    }
  }

  /** Redeeming the tokens of a deposit straight away never returns more than was deposited,
      except into a pool that holds lamports but has no tokens outstanding. */
  lemma DepositThenRedeem(total: u64, supply: u64, lamports: u64)
    requires TokensForDeposit(total, supply, lamports).Some?
    requires total + lamports <= U64_MAX
    requires supply + TokensForDeposit(total, supply, lamports).value <= U64_MAX
    ensures
      var minted := TokensForDeposit(total, supply, lamports).value;
      var redeemed := LamportsForTokens(total + lamports, supply + minted, minted);
      && redeemed.Some?
      && (redeemed.value <= lamports <==> !(supply == 0 && total > 0 && lamports > 0))
  {
    var minted := TokensForDeposit(total, supply, lamports).value;
    if supply > 0 {
      DepositShare(total, supply, lamports);
      RedemptionAtMost(total + lamports, supply + minted, minted, lamports);
    } else if lamports > 0 {
      WholeSupplyRedeemsTotal(total + lamports, lamports);
    } else {
      RedemptionWithinTotal(total, 0, 0);
    }
  }

  // ----- Redeeming in parts -----

  function Sum(burns: seq<u64>): nat {
    if |burns| == 0 then 0 else burns[0] + Sum(burns[1..])
  }

  /** What one redemption pays and burns; one for more tokens than there are, or for tokens worth less
      than a lamport, is refused. */
  function Redeem(total: u64, supply: u64, tokens: u64): (r: (u64, u64))
    ensures r.0 <= total && r.1 <= tokens && r.1 <= supply && (r.0 == 0 ==> r.1 == 0)
    ensures r.0 > 0 ==> r.1 == tokens && LamportsForTokens(total, supply, tokens) == Some(r.0)
  {
    if tokens > supply then (0, 0)
    else
      RedemptionWithinTotal(total, supply, tokens);
      var paid := LamportsForTokens(total, supply, tokens).value;
      (paid, if paid == 0 then 0 else tokens)
  }

  /** What redemptions of these amounts, one after the other, pay altogether. */
  function PaidOut(total: u64, supply: u64, burns: seq<u64>): nat {
    if |burns| == 0 then 0
    else
      var (paid, burnt) := Redeem(total, supply, burns[0]);
      paid + PaidOut(total - paid, supply - burnt, burns[1..])
  }

  /** One redemption at a rate no higher than `t/s`. */
  lemma PartAtRate(total: u64, supply: u64, tokens: u64, t: nat, s: nat)
    requires s > 0 && RateKept(total, supply, t, s)
    ensures
      var (paid, burnt) := Redeem(total, supply, tokens);
      (paid - 1) * s < tokens * t && RateKept(total - paid, supply - burnt, t, s)
  {
    var (paid, burnt) := Redeem(total, supply, tokens);
    MulNonNeg(tokens, t);
    if paid > 0 {
      RedemptionBounds(total, supply, tokens);
      assert (paid - 1) * supply == paid * supply - supply;
      ScaleDown(paid - 1, tokens, total, supply, t, s);
      WithdrawalBoundsRate(total, supply, tokens);
      ChainRates(total - paid, supply - tokens, total, supply, t, s);
    } else {
      assert (paid - 1) * s == 0 - s;
    }
  }

  lemma ScaleDown(x: nat, tokens: nat, total: nat, supply: nat, t: nat, s: nat)
    requires x * supply < tokens * total && total * s <= t * supply && supply > 0 && s > 0
    ensures x * s < tokens * t
  {
    MulMono(total * s, t * supply, tokens, tokens);
    assert (x * supply) * s < (tokens * total) * s by {
      CancelLtBack(x * supply, tokens * total, s);
    }
    assert (tokens * total) * s == (total * s) * tokens;
    assert (t * supply) * tokens == (tokens * t) * supply;
    assert (x * supply) * s == (x * s) * supply;
    CancelLt(x * s, tokens * t, supply);
  }

  lemma CancelLtBack(a: int, b: int, c: int)
    requires a < b && c > 0
    ensures a * c < b * c
  {
    MulLeft(a + 1, b, c);
    assert (a + 1) * c == a * c + c;
  }

  /** `a/b <= c/d` and `c/d <= e/f` give `a/b <= e/f`. */
  lemma ChainRates(a: nat, b: nat, c: nat, d: nat, e: nat, f: nat)
    requires d > 0 && a * d <= c * b && c * f <= e * d
    ensures a * f <= e * b
  {
    MulMono(a * d, c * b, f, f);
    MulMono(c * f, e * d, b, b);
    assert (a * d) * f == (a * f) * d;
    assert (c * b) * f == (c * f) * b;
    assert (e * d) * b == (e * b) * d;
    CancelLe(a * f, e * b, d);
  }

  /** Together, `k` redemptions pay less than `k` lamports more than the tokens are worth. */
  lemma {:induction false} PartsAtRate(total: u64, supply: u64, burns: seq<u64>, t: nat, s: nat)
    requires s > 0 && RateKept(total, supply, t, s)
    ensures (PaidOut(total, supply, burns) - |burns|) * s <= Sum(burns) * t
    ensures |burns| > 0 ==> (PaidOut(total, supply, burns) - |burns|) * s < Sum(burns) * t
  {
    if |burns| > 0 {
      var (paid, burnt) := Redeem(total, supply, burns[0]);
      var rest := PaidOut(total - paid, supply - burnt, burns[1..]);
      PartAtRate(total, supply, burns[0], t, s);
      PartsAtRate(total - paid, supply - burnt, burns[1..], t, s);
      AddParts(paid - 1, rest - (|burns| - 1), burns[0], Sum(burns[1..]), s, t);
      assert PaidOut(total, supply, burns) - |burns| == (paid - 1) + (rest - (|burns| - 1));
    }
  }

  lemma AddParts(x: int, y: int, a: nat, b: nat, s: nat, t: nat)
    requires x * s < a * t && y * s <= b * t
    ensures (x + y) * s < (a + b) * t
  {
    assert (x + y) * s == x * s + y * s;
    assert (a + b) * t == a * t + b * t;
  }

  /** Redeeming the tokens of a deposit in `k` parts never returns more than was deposited and `k - 1`
      lamports, except into a pool that holds lamports but has no tokens outstanding. */
  lemma DepositThenRedeemInParts(total: u64, supply: u64, lamports: u64, burns: seq<u64>)
    requires TokensForDeposit(total, supply, lamports).Some?
    requires total + lamports <= U64_MAX
    requires supply + TokensForDeposit(total, supply, lamports).value <= U64_MAX
    requires !(supply == 0 && total > 0 && lamports > 0)
    requires |burns| > 0 && Sum(burns) <= TokensForDeposit(total, supply, lamports).value
    ensures
      var minted := TokensForDeposit(total, supply, lamports).value;
      PaidOut(total + lamports, supply + minted, burns) <= lamports + |burns| - 1
  {
    var minted := TokensForDeposit(total, supply, lamports).value;
    var t, s := total + lamports, supply + minted;
    if s == 0 {
      NothingToRedeem(t, burns);
    } else {
      if supply > 0 {
        DepositShare(total, supply, lamports);
      }
      assert minted * t <= lamports * s;
      PartsAtRate(t, s, burns, t, s);
      MulMono(Sum(burns), minted, t, t);
      CancelLt(PaidOut(t, s, burns) - |burns|, lamports, s);
    }
  }

  lemma {:induction false} NothingToRedeem(total: u64, burns: seq<u64>)
    ensures PaidOut(total, 0, burns) == 0
  {
    if |burns| > 0 {
      NothingToRedeem(total, burns[1..]);
    }
  }

  /** The bound is reached: three lamports deposited come back as four when redeemed one token at a time. */
  lemma PartsProfit()
    ensures TokensForDeposit(3, 2, 3) == Some(2)
    ensures PaidOut(3 + 3, 2 + 2, [1, 1]) == 4 == 3 + |[1, 1]| - 1
  {
    assert [1, 1][1..] == [1];
    assert PaidOut(4, 3, [1]) == 2;
  }

  // ----- The epoch fee -----

  /** The dilution formula: the minted tokens' share of the new total is at most the fee. */
  lemma EpochFeeShare(total: u64, supply: u64, fee: Fee, reward: u64)
    requires supply > 0 && fee.AtMostOne()
    requires EpochFeeTokens(total, supply, fee, reward).Some?
    ensures
      var minted := EpochFeeTokens(total, supply, fee, reward).value;
      minted * (total + reward) <= fee.Apply(reward) * (supply + minted)
  {
    var minted := EpochFeeTokens(total, supply, fee, reward).value;
    var newTotal, taken := total + reward, fee.Apply(reward);
    if reward == 0 {
      MulNonNeg(taken, supply);
    } else if newTotal == taken {
      assert taken * (supply + minted) == taken * supply + minted * newTotal;
      MulNonNeg(taken, supply);
    } else {
      FloorBounds(supply * taken, newTotal - taken);
      assert minted * newTotal == minted * (newTotal - taken) + minted * taken;
      assert taken * (supply + minted) == supply * taken + minted * taken;
    }
  }

  /** The manager's tokens redeem for at most the fee, so existing holders keep the rest. */
  lemma EpochFeeNeverOverpaid(total: u64, supply: u64, fee: Fee, reward: u64)
    requires supply > 0 && fee.AtMostOne()
    requires EpochFeeTokens(total, supply, fee, reward).Some?
    requires total + reward <= U64_MAX
    requires supply + EpochFeeTokens(total, supply, fee, reward).value <= U64_MAX
    ensures
      var minted := EpochFeeTokens(total, supply, fee, reward).value;
      var redeemed := LamportsForTokens(total + reward, supply + minted, minted);
      && redeemed.Some?
      && redeemed.value <= fee.Apply(reward)
      && (total + reward - fee.Apply(reward)) * (supply + minted) <= (total + reward) * supply
  {
    var minted := EpochFeeTokens(total, supply, fee, reward).value;
    var newTotal, taken := total + reward, fee.Apply(reward);
    EpochFeeShare(total, supply, fee, reward);
    RedemptionAtMost(newTotal, supply + minted, minted, taken);
    HoldersShare(newTotal, supply, minted, taken);
  }

  lemma HoldersShare(newTotal: nat, supply: nat, minted: nat, taken: nat)
    requires minted * newTotal <= taken * (supply + minted)
    ensures (newTotal - taken) * (supply + minted) <= newTotal * supply
  {
    assert (newTotal - taken) * (supply + minted)
        == newTotal * supply + minted * newTotal - taken * (supply + minted);
  }

  /** With one token per lamport the manager loses at most `2 + reward / total` lamports to rounding. */
  lemma EpochFeeShortfall(total: u64, fee: Fee, reward: u64)
    requires total > 0 && fee.AtMostOne()
    requires EpochFeeTokens(total, total, fee, reward).Some?
    requires total + reward <= U64_MAX
    requires total + EpochFeeTokens(total, total, fee, reward).value <= U64_MAX
    ensures
      var minted := EpochFeeTokens(total, total, fee, reward).value;
      var redeemed := LamportsForTokens(total + reward, total + minted, minted);
      redeemed.Some? && fee.Apply(reward) - redeemed.value <= 2 + reward / total
  {
    var minted := EpochFeeTokens(total, total, fee, reward).value;
    var redeemed := RedemptionLower(total + reward, total + minted, minted);
    if reward > 0 {
      MintedBound(total, fee, reward);
      ShortfallArithmetic(total, minted, total + reward, fee.Apply(reward), redeemed);
    }
  }

  lemma RedemptionLower(total: u64, supply: u64, tokens: u64) returns (redeemed: u64)
    requires 0 < supply && tokens <= supply
    ensures LamportsForTokens(total, supply, tokens) == Some(redeemed)
    ensures tokens * total <= redeemed * supply + supply
  {
    RedemptionWithinTotal(total, supply, tokens);
    RedemptionBounds(total, supply, tokens);
    redeemed := LamportsForTokens(total, supply, tokens).value;
  }

  lemma MintedBound(total: u64, fee: Fee, reward: u64)
    requires total > 0 && reward > 0 && fee.AtMostOne()
    requires EpochFeeTokens(total, total, fee, reward).Some?
    ensures
      var minted := EpochFeeTokens(total, total, fee, reward).value;
      var kept := total + reward - fee.Apply(reward);
      total * fee.Apply(reward) < minted * kept + kept
  {
    FloorBounds(total * fee.Apply(reward), total + reward - fee.Apply(reward));
  }

  lemma ShortfallArithmetic(total: nat, minted: nat, newTotal: nat, taken: nat, redeemed: nat)
    requires 0 < total <= newTotal && taken <= newTotal - total
    requires total * taken < minted * (newTotal - taken) + (newTotal - taken)
    requires minted * newTotal <= redeemed * (total + minted) + (total + minted)
    ensures taken - redeemed <= 2 + (newTotal - total) / total
  {
    ShortfallProduct(total, minted, newTotal, taken, redeemed);
    QuotientBound(taken - redeemed - 2, total, total + minted, newTotal - total);
  }

  lemma QuotientBound(k: int, low: nat, high: nat, a: nat)
    requires 0 < low <= high && k * high <= a
    ensures k <= a / low
  {
    if k > 0 {
      MulMono(k, k, low, high);
      FloorGreatest(a, low, k);
    }
  }

  lemma ShortfallProduct(total: nat, minted: nat, newTotal: nat, taken: nat, redeemed: nat)
    requires total <= newTotal && taken <= newTotal - total
    requires total * taken < minted * (newTotal - taken) + (newTotal - taken)
    requires minted * newTotal <= redeemed * (total + minted) + (total + minted)
    ensures (taken - redeemed - 2) * (total + minted) <= newTotal - total
  {
    assert taken * (total + minted) == total * taken + minted * taken;
    assert minted * newTotal == minted * (newTotal - taken) + minted * taken;
    assert (taken - redeemed - 2) * (total + minted)
        == taken * (total + minted) - redeemed * (total + minted) - 2 * (total + minted);
  }

  /** A pool update without loss never lowers the value of a pool token, whatever fee it mints;
      `burnt` is what holders have burnt on their own since the supply was last read. */
  lemma EpochUpdateKeepsRate(total: u64, supply: u64, fee: Fee, newTotal: u64, minted: nat, burnt: nat)
    requires supply > 0 && fee.AtMostOne() && total <= newTotal
    requires burnt <= supply
    requires minted == 0 || EpochFeeTokens(total, supply, fee, newTotal - total) == Some(minted)
    ensures RateKept(total, supply, newTotal, supply - burnt + minted)
  {
    MulMono(total, newTotal, supply - burnt, supply);
    if minted > 0 {
      var taken := fee.Apply(newTotal - total);
      EpochFeeShare(total, supply, fee, newTotal - total);
      assert newTotal * (supply + minted) == newTotal * supply + minted * newTotal;
      assert (newTotal - taken) * (supply + minted)
          == newTotal * supply + minted * newTotal - taken * (supply + minted);
      MulMono(total, newTotal - taken, supply - burnt + minted, supply + minted);
    }
  }
}
