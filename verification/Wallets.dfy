/** Who holds how much of one asset: account balances, the fees the asset has accumulated, and the
    market-fee rewards that are vesting. */
module Wallets {
  import opened Common
  import opened Prices
  import opened LimitOrders

  type Balances = map<nat, nat>

  function BalanceOf(b: Balances, who: nat): nat { if who in b then b[who] else 0 }

  function Credit(b: Balances, who: nat, amount: nat): Balances {
    if amount == 0 then b else b[who := BalanceOf(b, who) + amount]
  }

  ghost function Sum(b: Balances): nat
    decreases |b|
  {
    if b == map[] then 0 else
      var k :| k in b;
      b[k] + Sum(b - {k})
  }

  lemma {:induction false} SumWithout(b: Balances, k: nat)
    requires k in b
    ensures Sum(b) == b[k] + Sum(b - {k})
    decreases |b|
  {
    var j :| j in b && Sum(b) == b[j] + Sum(b - {j});
    if j != k {
      SumWithout(b - {j}, k);
      SumWithout(b - {k}, j);
      assert b - {j} - {k} == b - {k} - {j};
    }
  }

  lemma SumUpdated(b: Balances, who: nat, value: nat)
    ensures Sum(b[who := value]) == Sum(b) - BalanceOf(b, who) + value
  {
    var u := b[who := value];
    SumWithout(u, who);
    assert u - {who} == b - {who};
    if who in b { SumWithout(b, who); } else { assert b - {who} == b; }
  }

  lemma BalanceIsPart(b: Balances, who: nat)
    ensures BalanceOf(b, who) <= Sum(b)
  {
    if who in b { SumWithout(b, who); }
  }

  lemma SumCredited(b: Balances, who: nat, amount: nat)
    ensures Sum(Credit(b, who, amount)) == Sum(b) + amount
  {
    SumUpdated(b, who, BalanceOf(b, who) + amount);
  }

  /** The share of a seller's market fees that goes to whoever registered and referred the seller. */
  datatype Referral = Referral(registrar: nat, referrer: nat, referrerPercent: nat,
                               sharingAllowed: bool, registrarAuthorized: bool, referrerAuthorized: bool)

  datatype FeeOptions = FeeOptions(charges: bool, feePercent: nat, maxFee: nat, rewardPercent: nat)

  datatype Wallet = Wallet(balances: Balances, vesting: Balances, accumulated: nat,
                           options: FeeOptions, referrals: map<nat, Referral>)

  /** What the asset's options and the accounts' referral shares are validated to be. */
  predicate ValidWallet(w: Wallet) {
    && w.options.feePercent <= FULL_PERCENT
    && w.options.rewardPercent < FULL_PERCENT
    && forall k :: k in w.referrals ==> w.referrals[k].referrerPercent <= FULL_PERCENT
  }

  ghost function Total(w: Wallet): nat { Sum(w.balances) + Sum(w.vesting) + w.accumulated }

  function Percent(value: nat, percent: nat): nat { value * percent / FULL_PERCENT }

  lemma PercentBound(value: nat, percent: nat)
    requires percent <= FULL_PERCENT
    ensures Percent(value, percent) <= value
    ensures 0 < value && percent < FULL_PERCENT ==> Percent(value, percent) < value
  {
    MulMono(percent, FULL_PERCENT, value);
    DivLeast(value * percent, FULL_PERCENT, value + 1);
    DivLeast(value * percent, FULL_PERCENT, value);
    if 0 < value && percent < FULL_PERCENT {
      MulMono(percent + 1, FULL_PERCENT, value);
    }
  }

  function MarketFee(o: FeeOptions, amount: nat): nat {
    if !o.charges || o.feePercent == 0 then 0
    else
      var fee := Percent(amount, o.feePercent);
      if fee > o.maxFee then o.maxFee else fee
  }

  function Pay(w: Wallet, who: nat, amount: nat): Wallet {
    w.(balances := Credit(w.balances, who, amount))
  }

  predicate Has(w: Wallet, who: nat, amount: nat) { amount <= BalanceOf(w.balances, who) }

  function Take(w: Wallet, who: nat, amount: nat): Wallet
    requires Has(w, who, amount)
  {
    w.(balances := w.balances[who := BalanceOf(w.balances, who) - amount])
  }

  /** The reward taken out of a fee for the seller's registrar, and the part of it for the referrer. */
  function Rewards(w: Wallet, seller: nat, fee: nat): (nat, nat)
    requires ValidWallet(w)
  {
    if seller !in w.referrals || !w.referrals[seller].sharingAllowed || w.options.rewardPercent == 0 then (0, 0)
    else
      var r := w.referrals[seller];
      var reward := Percent(fee, w.options.rewardPercent);
      if reward == 0 || !r.registrarAuthorized then (0, 0)
      else if r.referrer == r.registrar then (reward, 0)
      else
        var cut := Percent(reward, r.referrerPercent);
        if cut > 0 && r.referrerAuthorized then (reward, cut) else (reward, 0)
  }

  /** `pay_market_fees` and `pay_order`: a seller receives an amount less the market fee, which goes to
      the asset's accumulated fees except for the vesting rewards. */
  function Receive(w: Wallet, seller: nat, amount: nat): Wallet
    requires ValidWallet(w)
  {
    var fee := MarketFee(w.options, amount);
    FeeBounds(w, seller, amount);
    var (reward, cut) := Rewards(w, seller, fee);
    var paid := Pay(w, seller, amount - fee);
    if reward == 0 then paid.(accumulated := w.accumulated + fee)
    else
      var r := w.referrals[seller];
      paid.(vesting := Credit(Credit(w.vesting, r.referrer, cut), r.registrar, reward - cut),
            accumulated := w.accumulated + (fee - reward))
  }

  /** The form of `pay_market_fees` that shares no rewards. */
  function ReceiveUnshared(w: Wallet, who: nat, amount: nat): Wallet
    requires ValidWallet(w)
  {
    FeeBounds(w, who, amount);
    var fee := MarketFee(w.options, amount);
    Pay(w, who, amount - fee).(accumulated := w.accumulated + fee)
  }

  lemma ReceiveUnsharedTotal(w: Wallet, who: nat, amount: nat)
    requires ValidWallet(w)
    ensures Total(ReceiveUnshared(w, who, amount)) == Total(w) + amount
    ensures ValidWallet(ReceiveUnshared(w, who, amount))
  {
    FeeBounds(w, who, amount);
    SumCredited(w.balances, who, amount - MarketFee(w.options, amount));
  }

  /** The asserts of the source: a fee is at most the amount, a reward is less than its fee, and the
      referrer's cut is at most the reward. */
  lemma FeeBounds(w: Wallet, seller: nat, amount: nat)
    requires ValidWallet(w)
    ensures var fee := MarketFee(w.options, amount);
            var (reward, cut) := Rewards(w, seller, fee);
            && fee <= amount
            && (0 < reward ==> reward < fee && seller in w.referrals)
            && cut <= reward
  {
    PercentBound(amount, w.options.feePercent);
    var fee := MarketFee(w.options, amount);
    PercentBound(fee, w.options.rewardPercent);
    if seller in w.referrals {
      PercentBound(Percent(fee, w.options.rewardPercent), w.referrals[seller].referrerPercent);
    }
  }

  /** A market fee is the configured share, rounded down, up to the maximum; so is the reward of the fee, if
      it may be paid. */
  lemma FeeIsShare(w: Wallet, seller: nat, amount: nat)
    requires ValidWallet(w)
    ensures var o, fee := w.options, MarketFee(w.options, amount);
            var (reward, cut) := Rewards(w, seller, fee);
            && fee * FULL_PERCENT <= amount * o.feePercent
            && (o.charges && fee < o.maxFee ==> amount * o.feePercent < (fee + 1) * FULL_PERCENT)
            && reward * FULL_PERCENT <= fee * o.rewardPercent
            && (seller in w.referrals &&
                w.referrals[seller].sharingAllowed && w.referrals[seller].registrarAuthorized ==>
                  fee * o.rewardPercent < (reward + 1) * FULL_PERCENT)
            && (0 < reward ==>
                  var r := w.referrals[seller];
                  && cut * FULL_PERCENT <= reward * r.referrerPercent
                  && (r.referrer != r.registrar && r.referrerAuthorized ==>
                        reward * r.referrerPercent < (cut + 1) * FULL_PERCENT))
  {
    var o, fee := w.options, MarketFee(w.options, amount);
    Adjoint(amount, o.feePercent, FULL_PERCENT, Percent(amount, o.feePercent));
    Adjoint(amount, o.feePercent, FULL_PERCENT, Percent(amount, o.feePercent) + 1);
    Adjoint(fee, o.rewardPercent, FULL_PERCENT, Percent(fee, o.rewardPercent));
    Adjoint(fee, o.rewardPercent, FULL_PERCENT, Percent(fee, o.rewardPercent) + 1);
    MulMono(o.maxFee, Percent(amount, o.feePercent) + o.maxFee, FULL_PERCENT);
    CutIsShare(w, seller, fee);
  }

  lemma CutIsShare(w: Wallet, seller: nat, fee: nat)
    requires ValidWallet(w)
    ensures var (reward, cut) := Rewards(w, seller, fee);
            0 < reward ==>
              && seller in w.referrals
              && var r := w.referrals[seller];
                 && cut * FULL_PERCENT <= reward * r.referrerPercent
                 && (r.referrer != r.registrar && r.referrerAuthorized ==>
                       reward * r.referrerPercent < (cut + 1) * FULL_PERCENT)
  {
    var (reward, cut) := Rewards(w, seller, fee);
    if 0 < reward {
      var percent := w.referrals[seller].referrerPercent;
      hide Percent;
      PercentIs(reward, percent);
    }
  }

  lemma PercentIs(value: nat, percent: nat)
    ensures Percent(value, percent) * FULL_PERCENT <= value * percent < (Percent(value, percent) + 1) * FULL_PERCENT
  {
    DivBounds(value * percent, FULL_PERCENT);
  }

  /** Who has what after an amount is received: the seller all but the fee, the registrar and the referrer
      their rewards, and nobody else anything. */
  lemma ReceiveGives(w: Wallet, seller: nat, amount: nat, who: nat)
    requires ValidWallet(w)
    ensures var fee := MarketFee(w.options, amount);
            var (reward, cut) := Rewards(w, seller, fee);
            var v := Receive(w, seller, amount);
            && fee <= amount
            && BalanceOf(v.balances, who) == BalanceOf(w.balances, who) + (if who == seller then amount - fee else 0)
            && (reward == 0 ==> BalanceOf(v.vesting, who) == BalanceOf(w.vesting, who))
            && (reward > 0 ==>
                  && seller in w.referrals
                  && BalanceOf(v.vesting, who) == BalanceOf(w.vesting, who)
                       + (if who == w.referrals[seller].registrar then reward - cut else 0)
                       + (if who == w.referrals[seller].referrer then cut else 0))
            && (reward > 0 && w.referrals[seller].referrer == w.referrals[seller].registrar ==> cut == 0)
  {
    FeeBounds(w, seller, amount);
  }

  lemma PayTotal(w: Wallet, who: nat, amount: nat)
    ensures Total(Pay(w, who, amount)) == Total(w) + amount
    ensures ValidWallet(Pay(w, who, amount)) == ValidWallet(w)
  {
    SumCredited(w.balances, who, amount);
  }

  lemma TakeTotal(w: Wallet, who: nat, amount: nat)
    requires Has(w, who, amount)
    ensures Total(Take(w, who, amount)) + amount == Total(w)
    ensures ValidWallet(Take(w, who, amount)) == ValidWallet(w)
  {
    SumUpdated(w.balances, who, BalanceOf(w.balances, who) - amount);
  }

  /** Fees and rewards only change hands: all that is received is held by someone afterwards. */
  lemma ReceiveTotal(w: Wallet, seller: nat, amount: nat)
    requires ValidWallet(w)
    ensures Total(Receive(w, seller, amount)) == Total(w) + amount
    ensures ValidWallet(Receive(w, seller, amount))
  {
    FeeBounds(w, seller, amount);
    var fee := MarketFee(w.options, amount);
    var (reward, cut) := Rewards(w, seller, fee);
    SumCredited(w.balances, seller, amount - fee);
    if reward != 0 {
      var r := w.referrals[seller];
      SumCredited(w.vesting, r.referrer, cut);
      SumCredited(Credit(w.vesting, r.referrer, cut), r.registrar, reward - cut);
    }
  }
}
