/** What a new bid trades with, one trade at a time: always the best counterparty there is.

    The market matches a new bid in three passes.  Here the same is said of a single trade, without passes:
    an ask comes first when it is better than the squeeze price or there is nothing to margin call, and the
    least collateralised position in margin call territory comes first otherwise.
 */
module BestExecution {
  import opened Common
  import opened Prices
  import opened LimitOrders
  import opened DebtToCover
  import opened Books
  import opened Wallets
  import opened Positions

  /** The part of a market that a trade changes. */
  datatype Moment = Moment(bids: Side, asks: Side, calls: Calls, supply: nat, debt: Wallet, collateral: Wallet)

  ghost predicate ValidWallets(s: Moment) { ValidWallet(s.debt) && ValidWallet(s.collateral) }

  /** There is an ask the order crosses, above the squeeze price of an active feed. */
  predicate HasBetterAsk(asks: Side, o: LimitOrder, f: Feed) {
    asks != [] && Crosses(o, asks[0]) && Less(Squeeze(f), asks[0].price)
  }

  /** The order is good enough for a margin call and a position waits for one. */
  predicate MayCall(calls: Calls, o: LimitOrder, feed: Option<Feed>) {
    feed.Some? && Eligible(o, feed.value) && !NoneCallable(calls, feed.value)
  }

  predicate CallIsNext(s: Moment, o: LimitOrder, feed: Option<Feed>) {
    MayCall(s.calls, o, feed) && !HasBetterAsk(s.asks, o, feed.value)
  }

  predicate AskIsNext(s: Moment, o: LimitOrder, feed: Option<Feed>) {
    s.asks != [] && Crosses(o, s.asks[0]) && (MayCall(s.calls, o, feed) ==> HasBetterAsk(s.asks, o, feed.value))
  }

  /** The front bid has traded with the front ask. */
  ghost function AfterAsk(s: Moment): Moment
    requires s.bids != [] && s.asks != [] && ValidWallets(s)
  {
    var m, taker, maker := MatchFronts(s.bids, s.asks), s.bids[0].seller, s.asks[0].seller;
    Moment(m.own, m.other, s.calls, s.supply,
           Receive(Pay(s.debt, taker, m.takerRefund), maker, m.takerPays),
           Pay(Receive(s.collateral, taker, m.takerReceives), maker, m.makerRefund))
  }

  /** Who has what after a trade with an ask: the buyer of each asset what it bought less the market fee, and
      each seller what was too small to be sold. */
  lemma AskGives(s: Moment, who: nat)
    requires s.bids != [] && s.asks != [] && ValidWallets(s)
    ensures var m, t, taker, maker := MatchFronts(s.bids, s.asks), AfterAsk(s), s.bids[0].seller, s.asks[0].seller;
            && BalanceOf(t.debt.balances, who) == BalanceOf(s.debt.balances, who)
                 + (if who == taker then m.takerRefund else 0)
                 + (if who == maker then m.takerPays - MarketFee(s.debt.options, m.takerPays) else 0)
            && BalanceOf(t.collateral.balances, who) == BalanceOf(s.collateral.balances, who)
                 + (if who == taker then m.takerReceives - MarketFee(s.collateral.options, m.takerReceives) else 0)
                 + (if who == maker then m.makerRefund else 0)
  {
    hide MatchFronts, MarketFee, Rewards;
    var m, taker, maker := MatchFronts(s.bids, s.asks), s.bids[0].seller, s.asks[0].seller;
    ReceiveGives(Pay(s.debt, taker, m.takerRefund), maker, m.takerPays, who);
    ReceiveGives(s.collateral, taker, m.takerReceives, who);
  }

  /** A deal that the front bid and position `i` can honour. */
  predicate Affordable(s: Moment, i: nat, d: Deal) {
    && s.bids != [] && i < |s.calls|
    && d.takerPays <= s.bids[0].forSale && d.takerPays <= s.calls[i].debt && d.takerPays <= s.supply
    && d.takerReceives <= s.calls[i].collateral
  }

  /** The front bid has traded with a margin call on position `i`. */
  ghost function AfterCall(s: Moment, i: nat, d: Deal, cullIfSmall: bool): Moment
    requires Affordable(s, i, d) && ValidWallets(s)
  {
    var left, seller := Fill(s.bids[0], d.takerPays, cullIfSmall), s.bids[0].seller;
    Moment(Replaced(s.bids, left), s.asks, FillCall(s.calls, i, d.takerReceives, d.takerPays),
           s.supply - d.takerPays, Pay(s.debt, seller, RefundOf(left)),
           Pay(Receive(s.collateral, seller, d.takerReceives), s.calls[i].borrower,
               Freed(s.calls[i], d.takerReceives, d.takerPays)))
  }

  /** Who has what after a margin call: the bidder the collateral less the market fee, and what was too small to be
      sold; the borrower of a closed position the collateral that is left. */
  lemma CallGives(s: Moment, i: nat, d: Deal, cullIfSmall: bool, who: nat)
    requires Affordable(s, i, d) && ValidWallets(s)
    ensures var t, c, seller := AfterCall(s, i, d, cullIfSmall), s.calls[i], s.bids[0].seller;
            && BalanceOf(t.debt.balances, who) == BalanceOf(s.debt.balances, who)
                 + (if who == seller then RefundOf(Fill(s.bids[0], d.takerPays, cullIfSmall)) else 0)
            && BalanceOf(t.collateral.balances, who) == BalanceOf(s.collateral.balances, who)
                 + (if who == seller then d.takerReceives - MarketFee(s.collateral.options, d.takerReceives) else 0)
                 + (if who == c.borrower && d.takerPays == c.debt then c.collateral - d.takerReceives else 0)
  {
    hide MarketFee, Rewards, Fill;
    ReceiveGives(s.collateral, s.bids[0].seller, d.takerReceives, who);
  }

  /** `t` follows from `s` by a margin call, of the right size and at the squeeze price, on the least
      collateralised position. */
  ghost predicate CallsPosition(s: Moment, t: Moment, f: Feed, i: nat, toBuy: nat, d: Deal) {
    && Affordable(s, i, d) && ValidWallets(s) && IsLeast(s.calls, i) && Callable(s.calls[i], f)
    && IsCallSize(s.calls[i], Squeeze(f), f, toBuy)
    && CallDeal(s.bids[0].forSale, toBuy, Squeeze(f)) == Some(d)
    && t == AfterCall(s, i, d, d.takerIsSmaller)
  }

  ghost predicate CallsLeast(s: Moment, t: Moment, f: Feed) {
    exists i: nat, toBuy: nat, d: Deal :: CallsPosition(s, t, f, i, toBuy, d)
  }

  /** `t` follows from `s` by one trade of the order `o`, with the best counterparty. */
  ghost predicate Trades(s: Moment, t: Moment, o: LimitOrder, feed: Option<Feed>) {
    && s.bids != [] && ValidWallets(s) && s.bids[0] == o.(forSale := s.bids[0].forSale)
    && if AskIsNext(s, o, feed) then t == AfterAsk(s)
       else CallIsNext(s, o, feed) && CallsLeast(s, t, feed.value)
  }

  ghost predicate TradesAt(run: seq<Moment>, k: int, o: LimitOrder, feed: Option<Feed>)
    requires 0 <= k < |run| - 1
  {
    Trades(run[k], run[k + 1], o, feed)
  }

  /** All the trades of an order, from the first moment to the last. */
  ghost predicate IsRun(run: seq<Moment>, o: LimitOrder, feed: Option<Feed>) {
    run != [] && forall k :: 0 <= k < |run| - 1 ==> TradesAt(run, k, o, feed)
  }

  function Last(run: seq<Moment>): Moment
    requires run != []
  {
    run[|run| - 1]
  }

  /** The run reached `t` from `s`. */
  ghost predicate Reaches(run: seq<Moment>, s: Moment, t: Moment, o: LimitOrder, feed: Option<Feed>) {
    run != [] && IsRun(run, o, feed) && run[0] == s && Last(run) == t
  }

  lemma AskTrades(s: Moment, o: LimitOrder, feed: Option<Feed>)
    requires s.bids != [] && ValidWallets(s) && s.bids[0] == o.(forSale := s.bids[0].forSale)
    requires AskIsNext(s, o, feed)
    ensures Trades(s, AfterAsk(s), o, feed)
  {}

  lemma CallTrades(s: Moment, o: LimitOrder, f: Feed, i: nat, toBuy: nat, d: Deal)
    requires Affordable(s, i, d) && ValidWallets(s) && s.bids[0] == o.(forSale := s.bids[0].forSale)
    requires Eligible(o, f) && !HasBetterAsk(s.asks, o, f) && IsLeast(s.calls, i) && Callable(s.calls[i], f)
    requires IsCallSize(s.calls[i], Squeeze(f), f, toBuy)
    requires CallDeal(s.bids[0].forSale, toBuy, Squeeze(f)) == Some(d)
    ensures Trades(s, AfterCall(s, i, d, d.takerIsSmaller), o, Some(f))
  {
    hide IsCallSize, CallDeal, IsLeast, Eligible;
    assert CallsPosition(s, AfterCall(s, i, d, d.takerIsSmaller), f, i, toBuy, d);
    assert CallsLeast(s, AfterCall(s, i, d, d.takerIsSmaller), f);
  }

  lemma Start(s: Moment, o: LimitOrder, feed: Option<Feed>)
    ensures Reaches([s], s, s, o, feed)
  {}

  lemma OneMore(run: seq<Moment>, s: Moment, t: Moment, u: Moment, o: LimitOrder, feed: Option<Feed>)
    requires Reaches(run, s, t, o, feed) && Trades(t, u, o, feed)
    ensures Reaches(run + [u], s, u, o, feed)
  {
    hide Trades;
    var more := run + [u];
    forall k | 0 <= k < |more| - 1 ensures TradesAt(more, k, o, feed) {
      if k < |run| - 1 {
        assert TradesAt(run, k, o, feed);
        assert more[k] == run[k] && more[k + 1] == run[k + 1];
      }
    }
  }

  /** The price of the next trade. */
  function NextPrice(s: Moment, o: LimitOrder, feed: Option<Feed>): Price
    requires AskIsNext(s, o, feed) || CallIsNext(s, o, feed)
  {
    if AskIsNext(s, o, feed) then s.asks[0].price else Squeeze(feed.value)
  }

  /** The asks a trade leaves: the front one smaller or gone, or all of them as they were. */
  predicate Shrinks(before: Side, after: Side) {
    || after == before
    || (before != [] && after == before[1..])
    || (before != [] && after != [] && after[0].price == before[0].price && after[1..] == before[1..])
  }

  lemma TradeShrinks(s: Moment, t: Moment, o: LimitOrder, feed: Option<Feed>)
    requires Trades(s, t, o, feed)
    ensures Shrinks(s.asks, t.asks)
    ensures AskIsNext(s, o, feed) ==> t.calls == s.calls
    ensures !AskIsNext(s, o, feed) ==> t.asks == s.asks && CallIsNext(s, o, feed)
  {
    hide DealOf, Crosses, Less, IsCallSize, CallDeal, NoneCallable, IsLeast, Receive, Pay;
    if AskIsNext(s, o, feed) && DealOf(s.bids[0], s.asks[0]).Some? {
      DealIsFair(s.bids[0], s.asks[0]);
      var d := DealOf(s.bids[0], s.asks[0]).value;
      FillShape(s.asks[0], d.takerReceives);
    }
  }

  lemma FillShape(o: LimitOrder, pays: nat)
    requires pays <= o.forSale
    ensures Fill(o, pays, true).Stays? ==> Fill(o, pays, true).order.price == o.price
  {}

  lemma ShrinksKeeps(before: Side, after: Side)
    requires Shrinks(before, after) && Sorted(before)
    ensures Sorted(after)
    ensures after != [] ==> before != [] && AtMost(after[0].price, before[0].price)
    ensures forall a :: a in before && a != before[0] ==> a in after
  {
    hide AtMost;
    if before != [] { AtMostReflexive(before[0].price); }
    forall i, j | 0 <= i < j < |after| ensures AtMost(after[j].price, after[i].price) {
      if before != [] && after == before[1..] {
        assert after[i] == before[i + 1] && after[j] == before[j + 1];
      } else if after != before {
        assert after[j] == after[1..][j - 1] == before[1..][j - 1] == before[j];
        assert i > 0 ==> after[i] == after[1..][i - 1] == before[1..][i - 1] == before[i];
      }
    }
    forall a | a in before && a != before[0] ensures a in after {
      var j :| 0 <= j < |before| && before[j] == a;
      assert before[1..][j - 1] == a;
      if after != before && after != before[1..] { assert after[1..][j - 1] == a; }
    }
  }

  /** The asks stay in order during a run. */
  lemma {:induction false} AsksStaySorted(run: seq<Moment>, o: LimitOrder, feed: Option<Feed>, k: nat)
    requires IsRun(run, o, feed) && Sorted(run[0].asks) && k < |run|
    ensures Sorted(run[k].asks)
  {
    hide Trades, Sorted, Shrinks;
    if k > 0 {
      AsksStaySorted(run, o, feed, k - 1);
      assert TradesAt(run, k - 1, o, feed);
      TradeShrinks(run[k - 1], run[k], o, feed);
      ShrinksKeeps(run[k - 1].asks, run[k].asks);
    }
  }

  /** A trade follows at a price no better than the one before it. */
  lemma NextIsNoBetter(s: Moment, t: Moment, o: LimitOrder, feed: Option<Feed>)
    requires Trades(s, t, o, feed) && Sorted(s.asks) && (AskIsNext(t, o, feed) || CallIsNext(t, o, feed))
    ensures AtMost(NextPrice(t, o, feed), NextPrice(s, o, feed))
  {
    hide Trades, NoneCallable, Crosses, Eligible, Squeeze, Sorted, Less, Shrinks;
    TradeShrinks(s, t, o, feed);
    ShrinksKeeps(s.asks, t.asks);
    if AskIsNext(s, o, feed) {
      if !AskIsNext(t, o, feed) { LessIsAtMost(Squeeze(feed.value), s.asks[0].price); }
    } else if !AskIsNext(t, o, feed) {
      AtMostReflexive(Squeeze(feed.value));
    }
  }

  /** The trades of an order never get better: at every moment it traded at the best price there was. */
  lemma {:induction false} NeverImproves(run: seq<Moment>, o: LimitOrder, feed: Option<Feed>, j: nat, k: nat)
    requires IsRun(run, o, feed) && Sorted(run[0].asks) && j <= k < |run| - 1
    ensures AskIsNext(run[j], o, feed) || CallIsNext(run[j], o, feed)
    ensures AskIsNext(run[k], o, feed) || CallIsNext(run[k], o, feed)
    ensures AtMost(NextPrice(run[k], o, feed), NextPrice(run[j], o, feed))
  {
    hide AtMost, Sorted, AskIsNext, CallIsNext, NextPrice, CallsLeast;
    assert TradesAt(run, j, o, feed) && TradesAt(run, k, o, feed);
    if j == k {
      AtMostReflexive(NextPrice(run[j], o, feed));
    } else {
      NeverImproves(run, o, feed, j, k - 1);
      AsksStaySorted(run, o, feed, k - 1);
      assert TradesAt(run, k - 1, o, feed);
      NextIsNoBetter(run[k - 1], run[k], o, feed);
      AtMostTransitive(NextPrice(run[k], o, feed), NextPrice(run[k - 1], o, feed), NextPrice(run[j], o, feed));
    }
  }

  /** No margin call is made while a crossing ask is better, and an ask that is no better than a margin call
      is not touched while a position waits for one. */
  ghost predicate Fair(s: Moment, t: Moment, o: LimitOrder, feed: Option<Feed>) {
    && (t.calls != s.calls ==> feed.Some? && Eligible(o, feed.value) && !HasBetterAsk(t.asks, o, feed.value))
    && (MayCall(t.calls, o, feed) ==>
          forall a :: a in s.asks && !Less(Squeeze(feed.value), a.price) ==> a in t.asks)
  }

  lemma {:induction false} RunIsFair(run: seq<Moment>, o: LimitOrder, feed: Option<Feed>, k: nat)
    requires IsRun(run, o, feed) && Sorted(run[0].asks) && k < |run|
    ensures Fair(run[0], run[k], o, feed)
  {
    hide Trades, NoneCallable, Eligible, Squeeze, Sorted, Less, Shrinks, Crosses;
    if k > 0 {
      var s, t := run[k - 1], run[k];
      RunIsFair(run, o, feed, k - 1);
      AsksStaySorted(run, o, feed, k - 1);
      assert TradesAt(run, k - 1, o, feed);
      TradeShrinks(s, t, o, feed);
      ShrinksKeeps(s.asks, t.asks);
      if t.calls != run[0].calls && AskIsNext(s, o, feed) && t.asks != [] {
        NoBetterAsk(s.asks[0], t.asks[0], feed.value);
      }
    }
  }

  lemma ReachesFairly(run: seq<Moment>, s: Moment, t: Moment, o: LimitOrder, feed: Option<Feed>)
    requires Reaches(run, s, t, o, feed) && Sorted(s.asks)
    ensures Fair(s, t, o, feed)
  {
    hide IsRun, Fair, Sorted;
    RunIsFair(run, o, feed, |run| - 1);
  }

  lemma NoBetterAsk(before: LimitOrder, after: LimitOrder, f: Feed)
    requires AtMost(after.price, before.price) && !Less(Squeeze(f), before.price)
    ensures !Less(Squeeze(f), after.price)
  {
    AtMostTransitive(after.price, before.price, Squeeze(f));
  }

  /** The seller has paid for the order `o`, and it has its place among the bids. */
  ghost function AfterPlacing(s: Moment, o: LimitOrder): Moment
    requires Has(s.debt, o.seller, o.forSale)
  {
    s.(bids := Insert(s.bids, o), debt := Take(s.debt, o.seller, o.forSale))
  }

  /** The order, now too small to be sold at its own price, has been taken back. */
  ghost predicate TakenBack(s: Moment, t: Moment, o: LimitOrder) {
    && s.bids != [] && s.bids[0] == o.(forSale := s.bids[0].forSale) && s.bids[0].ToReceive() == 0
    && t == s.(bids := s.bids[1..], debt := Pay(s.debt, o.seller, s.bids[0].forSale))
  }

  /** From `s` to `t` the new order `o` was placed, traded with the best counterparty each time, or with none
      when it is not at the front of its side, and what is left of it was taken back if too small. */
  ghost predicate Offered(s: Moment, t: Moment, o: LimitOrder, feed: Option<Feed>, run: seq<Moment>) {
    && Has(s.debt, o.seller, o.forSale) && run != []
    && Reaches(run, AfterPlacing(s, o), Last(run), o, feed)
    && (s.bids != [] && !Less(s.bids[0].price, o.price) ==> |run| == 1)
    && (t == Last(run) || TakenBack(Last(run), t, o))
    && Fair(s, t, o, feed)
  }

  lemma OfferedBy(s: Moment, t: Moment, o: LimitOrder, feed: Option<Feed>, run: seq<Moment>)
    requires Has(s.debt, o.seller, o.forSale) && run != [] && (s.bids == [] || Less(s.bids[0].price, o.price))
    requires Reaches(run, AfterPlacing(s, o), Last(run), o, feed) && Fair(AfterPlacing(s, o), Last(run), o, feed)
    requires t == Last(run) || TakenBack(Last(run), t, o)
    ensures Offered(s, t, o, feed, run)
  {
    hide IsRun, Has, Take, Insert;
  }

  /** An order behind the front of its side waits. */
  lemma OfferedBehind(s: Moment, o: LimitOrder, feed: Option<Feed>)
    requires Has(s.debt, o.seller, o.forSale) && s.bids != [] && !Less(s.bids[0].price, o.price)
    ensures Offered(s, AfterPlacing(s, o), o, feed, [AfterPlacing(s, o)])
  {
    hide IsRun, Has, Take, Insert;
    Start(AfterPlacing(s, o), o, feed);
  }

  // Margin calls against resting bids

  /** The lower of the squeeze price and the inverse of the best bid. */
  function Lowest(bids: Side, f: Feed): Price {
    if bids != [] && Less(bids[0].price.Invert(), Squeeze(f)) then bids[0].price.Invert() else Squeeze(f)
  }

  /** It is one of the two, and no higher than either. */
  lemma LowestIs(bids: Side, f: Feed)
    ensures AtMost(Lowest(bids, f), Squeeze(f)) && (bids != [] ==> AtMost(Lowest(bids, f), bids[0].price.Invert()))
    ensures Lowest(bids, f) == Squeeze(f) || (bids != [] && Lowest(bids, f) == bids[0].price.Invert())
  {}

  /** `t` follows from `s` by a margin call, of the right size, on the least collateralised position against the
      best bid and at its price.  The bid is good enough, and no position sets off a black swan. */
  ghost predicate CallsFrontBid(s: Moment, t: Moment, f: Feed, i: nat, toBuy: nat, d: Deal) {
    && Affordable(s, i, d) && ValidWallets(s) && IsLeast(s.calls, i) && Callable(s.calls[i], f)
    && Eligible(s.bids[0], f) && AllAbove(s.calls, Lowest(s.bids, f))
    && IsCallSize(s.calls[i], s.bids[0].price.Invert(), f, toBuy)
    && CallDeal(s.bids[0].forSale, toBuy, s.bids[0].price.Invert()) == Some(d)
    && t == AfterCall(s, i, d, true)
  }

  ghost predicate CallsFront(s: Moment, t: Moment, f: Feed) {
    exists i: nat, toBuy: nat, d: Deal :: CallsFrontBid(s, t, f, i, toBuy, d)
  }

  ghost predicate CallsFrontAt(run: seq<Moment>, k: int, f: Feed)
    requires 0 <= k < |run| - 1
  {
    CallsFront(run[k], run[k + 1], f)
  }

  /** A run of margin calls from `s`, one after the other. */
  ghost predicate CallsReach(run: seq<Moment>, s: Moment, feed: Option<Feed>) {
    && run != [] && run[0] == s && (|run| > 1 ==> feed.Some?)
    && forall k :: 0 <= k < |run| - 1 ==> CallsFrontAt(run, k, feed.value)
  }

  lemma StartCalls(s: Moment, feed: Option<Feed>)
    ensures CallsReach([s], s, feed)
  {}

  lemma OneMoreCall(run: seq<Moment>, s: Moment, t: Moment, f: Feed)
    requires CallsReach(run, s, Some(f)) && CallsFront(Last(run), t, f)
    ensures CallsReach(run + [t], s, Some(f))
  {
    hide CallsFront;
    var more := run + [t];
    forall k | 0 <= k < |more| - 1 ensures CallsFrontAt(more, k, f) {
      if k < |run| - 1 {
        assert CallsFrontAt(run, k, f);
        assert more[k] == run[k] && more[k + 1] == run[k + 1];
      }
    }
  }
}
