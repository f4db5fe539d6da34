/** One market-issued asset traded against its backing asset: the order book, the debt positions, the
    feed, global settlement and revival.

    `bids` sell the market-issued asset, `asks` sell the backing asset.  The prices of bids are in
    debt / collateral; all other prices are in collateral / debt.
 */
module Markets {
  import opened Common
  import opened Prices
  import opened LimitOrders
  import opened DebtToCover
  import opened Books
  import opened Wallets
  import opened Positions
  import opened BestExecution
  import opened Settlement

  /** All fields of a market, as an undo session would save and restore them. */
  datatype Snapshot = Snapshot(bids: Side, asks: Side, calls: Calls, feed: Option<Feed>, supply: nat,
                               swan: Option<Swan>, fund: nat, collateralBids: Bids,
                               debtWallet: Wallet, collateralWallet: Wallet, nextId: nat)

  datatype SwanCheck = NoSwan | SwanSettled | SwanForbidden

  datatype CallResult = NotCalled | Called | CallForbidden

  class Market {
    var bids: Side
    var asks: Side
    var calls: Calls
    var feed: Option<Feed>
    var supply: nat
    var swan: Option<Swan>
    var fund: nat
    var collateralBids: Bids
    var debtWallet: Wallet
    var collateralWallet: Wallet
    var nextId: nat

    /** The lifecycle invariant: the supply is the sum of all debts until a global settlement; after it
        there are no positions and the fund backs the supply. */
    ghost predicate Lifecycle()
      reads this
    {
      match swan
      case None => supply == SumDebt(calls) && fund == 0 && collateralBids == []
      case Some(s) => calls == [] && Backed(s, supply, fund) && SortedBids(collateralBids)
    }

    ghost predicate Sound()
      reads this
    {
      && AtRest(bids, asks) && AllOpen(calls)
      && ValidWallet(debtWallet) && ValidWallet(collateralWallet)
      && Lifecycle() && NetDebt() == 0
    }

    /** Margin calls are settled: see `Calm` and `Quiet`. */
    ghost predicate Steady()
      reads this
    {
      swan.None? && feed.Some? ==> Calm(calls, feed.value) && Quiet(bids, calls, feed.value)
    }

    ghost predicate Valid()
      reads this
    {
      Sound() && Steady()
    }

    /** All holdings of the market-issued asset minus its supply. */
    ghost function NetDebt(): int
      reads this
    {
      Total(debtWallet) + SumForSale(bids) - supply
    }

    /** All holdings of the backing asset. */
    ghost function NetCollateral(): int
      reads this
    {
      Total(collateralWallet) + SumForSale(asks) + SumCollateral(calls) + fund + SumBids(collateralBids)
    }

    /** What every operation keeps: the sum of all holdings minus the supply, for both assets. */
    twostate predicate Conserves()
      reads this
    {
      NetDebt() == old(NetDebt()) && NetCollateral() == old(NetCollateral())
    }

    function State(): Snapshot
      reads this
    {
      Snapshot(bids, asks, calls, feed, supply, swan, fund, collateralBids, debtWallet, collateralWallet, nextId)
    }

    /** The part of the market that a trade changes. */
    function Now(): Moment
      reads this
    {
      Moment(bids, asks, calls, supply, debtWallet, collateralWallet)
    }

    /** The feed, as long as it allows margin calls. */
    function ActiveFeed(): Option<Feed>
      reads this
    {
      if swan.None? then feed else None
    }

    constructor (debtWallet: Wallet, collateralWallet: Wallet)
      requires ValidWallet(debtWallet) && ValidWallet(collateralWallet) && Total(debtWallet) == 0
      ensures Valid() && supply == 0 && swan.None? && calls == [] && bids == [] && asks == []
      ensures this.debtWallet == debtWallet && this.collateralWallet == collateralWallet
    {
      bids, asks, calls, feed, supply, swan, fund, collateralBids := [], [], [], None, 0, None, 0, [];
      this.debtWallet, this.collateralWallet, nextId := debtWallet, collateralWallet, 0;
    }

    /** What the undo session of a rejected operation does. */
    method Restore(s: Snapshot)
      modifies this
      ensures State() == s
    {
      bids, asks, calls, feed, supply, swan := s.bids, s.asks, s.calls, s.feed, s.supply, s.swan;
      fund, collateralBids, debtWallet, collateralWallet := s.fund, s.collateralBids, s.debtWallet, s.collateralWallet;
      nextId := s.nextId;
    }

    /** Matches the front bid, as taker, with the front ask. */
    method MatchBid() returns (m: Matched)
      requires Matching(bids, asks) && asks != [] && Crosses(bids[0], asks[0])
      requires ValidWallet(debtWallet) && ValidWallet(collateralWallet)
      modifies this`bids, this`asks, this`debtWallet, this`collateralWallet
      ensures m == MatchFronts(old(bids), old(asks)) && Now() == AfterAsk(old(Now()))
      ensures ValidWallet(debtWallet) && ValidWallet(collateralWallet)
      ensures Conserves()
    {
      m := MatchFronts(bids, asks);
      var taker, maker := bids[0].seller, asks[0].seller;
      MatchFrontsKeeps(bids, asks);
      TradeTotals(collateralWallet, taker, m.takerReceives, maker, m.makerRefund);
      RefundTradeTotals(debtWallet, taker, m.takerRefund, maker, m.takerPays);
      collateralWallet := Pay(Receive(collateralWallet, taker, m.takerReceives), maker, m.makerRefund);
      debtWallet := Receive(Pay(debtWallet, taker, m.takerRefund), maker, m.takerPays);
      bids, asks := m.own, m.other;
    }

    /** Matches the front ask, as taker, with the front bid. */
    method MatchAsk() returns (m: Matched)
      requires Matching(asks, bids) && bids != [] && Crosses(asks[0], bids[0])
      requires ValidWallet(debtWallet) && ValidWallet(collateralWallet)
      modifies this`bids, this`asks, this`debtWallet, this`collateralWallet
      ensures m == MatchFronts(old(asks), old(bids)) && asks == m.own && bids == m.other
      ensures debtWallet == Pay(Receive(old(debtWallet), old(asks[0].seller), m.takerReceives),
                                old(bids[0].seller), m.makerRefund)
      ensures collateralWallet == Receive(Pay(old(collateralWallet), old(asks[0].seller), m.takerRefund),
                                          old(bids[0].seller), m.takerPays)
      ensures ValidWallet(debtWallet) && ValidWallet(collateralWallet)
      ensures Conserves()
    {
      m := MatchFronts(asks, bids);
      var taker, maker := asks[0].seller, bids[0].seller;
      MatchFrontsKeeps(asks, bids);
      TradeTotals(debtWallet, taker, m.takerReceives, maker, m.makerRefund);
      RefundTradeTotals(collateralWallet, taker, m.takerRefund, maker, m.takerPays);
      debtWallet := Pay(Receive(debtWallet, taker, m.takerReceives), maker, m.makerRefund);
      collateralWallet := Receive(Pay(collateralWallet, taker, m.takerRefund), maker, m.takerPays);
      asks, bids := m.own, m.other;
    }

    /** Fills the front bid and position `i` against each other; the debt bought back is destroyed. */
    method ExecuteCall(i: nat, d: Deal, cullIfSmall: bool)
      requires Affordable(Now(), i, d) && ValidWallet(debtWallet) && ValidWallet(collateralWallet)
      modifies this`bids, this`calls, this`supply, this`debtWallet, this`collateralWallet
      ensures Now() == AfterCall(old(Now()), i, d, cullIfSmall)
      ensures ValidWallet(debtWallet) && ValidWallet(collateralWallet)
      ensures Conserves()
    {
      var left := Fill(bids[0], d.takerPays, cullIfSmall);
      var freed := Freed(calls[i], d.takerReceives, d.takerPays);
      SumReplaced(bids, left, d.takerPays, cullIfSmall);
      FillCallSums(calls, i, d.takerReceives, d.takerPays);
      PayTotal(debtWallet, bids[0].seller, RefundOf(left));
      TradeTotals(collateralWallet, bids[0].seller, d.takerReceives, calls[i].borrower, freed);
      debtWallet := Pay(debtWallet, bids[0].seller, RefundOf(left));
      collateralWallet := Pay(Receive(collateralWallet, bids[0].seller, d.takerReceives), calls[i].borrower, freed);
      bids := Replaced(bids, left);
      calls := FillCall(calls, i, d.takerReceives, d.takerPays);
      supply := supply - d.takerPays;
    }

    /** Matches a new ask at the front of its side with the bids it crosses. */
    method MatchNewAsk(o: LimitOrder) returns (gone: bool, ghost paid: nat, ghost received: nat, ghost refund: nat)
      requires Matching(asks, bids) && asks[0] == o && o.forSale == o.price.base
      requires ValidWallet(debtWallet) && ValidWallet(collateralWallet) && Steady()
      modifies this`bids, this`asks, this`debtWallet, this`collateralWallet
      ensures ValidWallet(debtWallet) && ValidWallet(collateralWallet) && Conserves() && Steady()
      ensures gone ==> AtRest(asks, bids) && Executed(o.price, paid, received, refund) && paid + refund == o.forSale
      ensures !gone ==>
                && Matching(asks, bids) && AtLimit(o.price, paid, received) && paid < o.forSale
                && asks[0] == o.(forSale := o.forSale - paid)
                && (bids == [] || !Crosses(asks[0], bids[0]) || asks[0].ToReceive() == 0)
    {
      hide MulDown, MulUp, Crosses, AtMost, MatchFronts, AtRest, Total, SumForSale, Receive, Pay, Quiet, Calm;
      hide Executed, AtLimit;
      ExecutesNothing(o.price);
      gone, paid, received, refund := false, 0, 0, 0;
      var finished := false;
      while !finished && bids != [] && Crosses(asks[0], bids[0])
        invariant ValidWallet(debtWallet) && ValidWallet(collateralWallet) && Conserves() && Steady()
        invariant gone ==> finished && AtRest(asks, bids)
        invariant gone ==> Executed(o.price, paid, received, refund) && paid + refund == o.forSale
        invariant !gone ==>
                    && Matching(asks, bids) && AtLimit(o.price, paid, received) && paid < o.forSale
                    && asks[0] == o.(forSale := o.forSale - paid)
                    && (finished ==> asks[0].ToReceive() == 0)
        decreases if finished then 0 else 1, |bids|
      {
        MatchFrontsKeeps(asks, bids);
        MatchedAtLimit(asks, bids);
        ghost var before := bids;
        var m := MatchAsk();
        QuietAfterMatch(before, bids, calls, feed);
        finished := m.bits != 2;
        gone := finished && m.takerPays > 0;
        Accumulate(o.price, paid, received, m.takerPays, m.takerReceives, m.takerRefund);
        paid, received, refund := paid + m.takerPays, received + m.takerReceives, m.takerRefund;
      }
    }

    /** A new order of a seller of the backing asset, and all that it is matched with. */
    method OfferAsk(seller: nat, amount: pos, minToReceive: pos)
      returns (ok: bool, filled: bool, ghost paid: nat, ghost received: nat, ghost refund: nat)
      requires Valid()
      modifies this
      ensures ok == old(Has(collateralWallet, seller, amount))
      ensures !ok ==> State() == old(State())
      ensures ok ==> Valid() && Conserves()
      ensures ok ==> Executed(Price(amount, minToReceive), paid, received, refund)
      ensures ok && filled ==> paid + refund == amount
      ensures ok && !filled ==>
                && refund == 0 && paid < amount
                && LimitOrder(old(nextId), seller, amount - paid, Price(amount, minToReceive)) in asks
      ensures calls == old(calls) && supply == old(supply) && swan == old(swan) && feed == old(feed)
    {
      hide MulDown, MulUp, Crosses, AtMost, Less, Insert, Sorted, NoDust, NoCross, Total, SumForSale, Receive, Pay;
      hide Quiet, Calm, Executed, AtLimit, Take, SumDebt, SumCollateral, SumBids, Backed, ValidWallet;
      if !Has(collateralWallet, seller, amount) { return false, false, 0, 0, 0; }
      TakeTotal(collateralWallet, seller, amount);
      collateralWallet := Take(collateralWallet, seller, amount);
      var o := LimitOrder(nextId, seller, amount, Price(amount, minToReceive));
      nextId := nextId + 1;
      InsertMembers(asks, o);
      InsertKeepsOrder(asks, o);
      NewOrderIsNotDust(o);
      ExecutesNothing(o.price);
      RestIsSymmetric(bids, asks);
      if asks != [] && !Less(asks[0].price, o.price) {
        BehindTheFront(asks, bids, o);
        asks := Insert(asks, o);
        RestIsSymmetric(asks, bids);
        return true, false, 0, 0, 0;
      }
      NewFront(asks, bids, o);
      asks := Insert(asks, o);
      var gone;
      gone, paid, received, refund := MatchNewAsk(o);
      ok, filled := true, gone;
      if !gone {
        filled, refund := CullFrontAsk();
        ExecutedAtLimit(o.price, paid, received, refund);
      }
      RestIsSymmetric(asks, bids);
    }

    /** `limit_order_create` for a seller of the backing asset; an order that must be filled at once is undone if it
        is not. */
    method CreateAsk(seller: nat, amount: pos, minToReceive: pos, fillOrKill: bool)
      returns (ok: bool, filled: bool, ghost paid: nat, ghost received: nat, ghost refund: nat)
      requires Valid()
      modifies this
      ensures ok ==> old(Has(collateralWallet, seller, amount)) && (fillOrKill ==> filled)
      ensures !ok ==> State() == old(State()) && (old(Has(collateralWallet, seller, amount)) ==> fillOrKill)
      ensures ok ==> Valid() && Conserves()
      ensures ok ==> Executed(Price(amount, minToReceive), paid, received, refund)
      ensures ok && filled ==> paid + refund == amount
      ensures ok && !filled ==>
                && refund == 0 && paid < amount
                && LimitOrder(old(nextId), seller, amount - paid, Price(amount, minToReceive)) in asks
      ensures calls == old(calls) && supply == old(supply) && swan == old(swan) && feed == old(feed)
    {
      hide Executed, Has;
      var saved := State();
      ok, filled, paid, received, refund := OfferAsk(seller, amount, minToReceive);
      if ok && fillOrKill && !filled {
        Restore(saved);
        ok := false;
      }
    }

    /** The check deferred until a new order is no longer matched: it goes if it is too small to be sold
        at its own price. */
    method CullFrontAsk() returns (culled: bool, refund: nat)
      requires Matching(asks, bids)
      requires bids == [] || !Crosses(asks[0], bids[0]) || asks[0].ToReceive() == 0
      requires ValidWallet(collateralWallet)
      modifies this`asks, this`collateralWallet
      ensures AtRest(asks, bids) && ValidWallet(collateralWallet) && Conserves()
      ensures culled <==> old(asks[0].ToReceive()) == 0
      ensures ToQuote(refund, old(asks[0].price)) == 0
      ensures culled ==> asks == old(asks[1..]) && refund == old(asks[0].forSale)
      ensures culled ==> collateralWallet == Pay(old(collateralWallet), old(asks[0].seller), refund)
      ensures !culled ==> asks == old(asks) && refund == 0 && collateralWallet == old(collateralWallet)
    {
      if asks[0].ToReceive() == 0 {
        culled, refund := true, asks[0].forSale;
        PayTotal(collateralWallet, asks[0].seller, refund);
        collateralWallet := Pay(collateralWallet, asks[0].seller, refund);
        asks := asks[1..];
      } else {
        culled, refund := false, 0;
        Adjoint(0, asks[0].price.quote, asks[0].price.base, 1);
        MatchingDone(asks, bids);
      }
    }

    /** Matches a new bid at the front of its side, which has already paid `paid0` for `received0`, with
        the asks it crosses; with `floor`, only with asks above that price. */
    method MatchNewBid(o: LimitOrder, floor: Option<Price>, ghost paid0: nat, ghost received0: nat,
                       ghost run0: seq<Moment>)
      returns (finished: bool, gone: bool, ghost paid: nat, ghost received: nat, ghost refund: nat,
               ghost run: seq<Moment>)
      requires Matching(bids, asks) && Resting(bids, o, paid0, received0)
      requires run0 != [] && Reaches(run0, run0[0], Now(), o, ActiveFeed())
      requires if floor.Some? then ActiveFeed().Some? && floor.value == Squeeze(feed.value)
               else !MayCall(calls, o, ActiveFeed())
      requires ValidWallet(debtWallet) && ValidWallet(collateralWallet)
      modifies this`bids, this`asks, this`debtWallet, this`collateralWallet
      ensures ValidWallet(debtWallet) && ValidWallet(collateralWallet) && Conserves()
      ensures Reaches(run, run0[0], Now(), o, ActiveFeed())
      ensures gone ==>
                && finished && bids == old(bids[1..]) && AtRest(bids, asks)
                && Executed(o.price, paid, received, refund) && paid + refund == o.forSale
      ensures !gone ==>
                && Matching(bids, asks) && Resting(bids, o, paid, received) && bids[1..] == old(bids[1..])
                && (finished ==> bids[0].ToReceive() == 0)
                && (!finished ==> || asks == [] || !Crosses(o, asks[0])
                                  || (floor.Some? && !Less(floor.value, asks[0].price)))
    {
      hide MulDown, MulUp, Crosses, AtMost, Less, MatchFronts, AtRest, Total, SumForSale, Receive, Pay;
      hide Executed, AtLimit, Reaches, Trades, MayCall, Squeeze;
      finished, gone, paid, received, refund, run := false, false, paid0, received0, 0, run0;
      while !finished && asks != [] && Crosses(o, asks[0])
            && (floor.Some? ==> Less(floor.value, asks[0].price))
        invariant ValidWallet(debtWallet) && ValidWallet(collateralWallet) && Conserves()
        invariant Reaches(run, run0[0], Now(), o, ActiveFeed())
        invariant gone ==> finished && bids == old(bids[1..]) && AtRest(bids, asks)
        invariant gone ==> Executed(o.price, paid, received, refund) && paid + refund == o.forSale
        invariant !gone ==>
                    && Matching(bids, asks) && Resting(bids, o, paid, received) && bids[1..] == old(bids[1..])
                    && (finished ==> bids[0].ToReceive() == 0)
        decreases if finished then 0 else 1, |asks|
      {
        SamePriceCrosses(o, bids[0], asks[0]);
        MatchFrontsKeeps(bids, asks);
        MatchedAtLimit(bids, asks);
        ghost var before := Now();
        var m := MatchBid();
        AskTrades(before, o, ActiveFeed());
        OneMore(run, run0[0], before, Now(), o, ActiveFeed());
        run := run + [Now()];
        finished := m.bits != 2;
        gone := finished && m.takerPays > 0;
        Accumulate(o.price, paid, received, m.takerPays, m.takerReceives, m.takerRefund);
        paid, received, refund := paid + m.takerPays, received + m.takerReceives, m.takerRefund;
      }
    }

    /** Matches a new bid with the positions in margin call territory, the least collateralised first,
        at the squeeze price. */
    method CallForNewBid(o: LimitOrder, f: Feed, ghost paid0: nat, ghost received0: nat, ghost run0: seq<Moment>)
      returns (finished: bool, gone: bool, ghost paid: nat, ghost received: nat, ghost refund: nat,
               ghost run: seq<Moment>)
      requires Matching(bids, asks) && Resting(bids, o, paid0, received0) && Eligible(o, f)
      requires run0 != [] && Reaches(run0, run0[0], Now(), o, Some(f)) && !HasBetterAsk(asks, o, f)
      requires AllOpen(calls) && Calm(calls, f) && supply == SumDebt(calls)
      requires ValidWallet(debtWallet) && ValidWallet(collateralWallet)
      modifies this`bids, this`calls, this`supply, this`debtWallet, this`collateralWallet
      ensures ValidWallet(debtWallet) && ValidWallet(collateralWallet) && Conserves()
      ensures AllOpen(calls) && Calm(calls, f) && supply == SumDebt(calls)
      ensures Reaches(run, run0[0], Now(), o, Some(f))
      ensures old(NoneCallable(calls, f)) ==> NoneCallable(calls, f)
      ensures gone ==>
                && finished && bids == old(bids[1..]) && AtRest(bids, asks)
                && Executed(o.price, paid, received, refund) && paid + refund == o.forSale
      ensures !gone ==>
                && Matching(bids, asks) && Resting(bids, o, paid, received) && bids[1..] == old(bids[1..])
                && (finished ==> bids[0].ToReceive() == 0)
                && (!finished ==> NoneCallable(calls, f))
    {
      hide Reaches, HasBetterAsk;
      finished, gone, paid, received, refund, run := false, false, paid0, received0, 0, run0;
      while !finished
        invariant Reaches(run, run0[0], Now(), o, Some(f))
        invariant ValidWallet(debtWallet) && ValidWallet(collateralWallet) && Conserves()
        invariant AllOpen(calls) && Calm(calls, f) && supply == SumDebt(calls)
        invariant old(NoneCallable(calls, f)) ==> NoneCallable(calls, f)
        invariant gone ==>
                    && finished && bids == old(bids[1..])
                    && Executed(o.price, paid, received, refund) && paid + refund == o.forSale
        invariant !gone ==>
                    && Matching(bids, asks) && Resting(bids, o, paid, received) && bids[1..] == old(bids[1..])
                    && (finished ==> bids[0].ToReceive() == 0)
        decreases if finished then 0 else 1, SumDebt(calls)
      {
        if calls == [] { break; }
        ghost var k := LeastExists(calls);
        var i :| 0 <= i < |calls| && IsLeast(calls, i);
        if !Callable(calls[i], f) {
          LeastNotCallable(calls, i, f);
          break;
        }
        ghost var before := Now();
        finished, gone, paid, received, refund := CallOnce(o, f, i, paid, received);
        if Now() != before {
          OneMore(run, run0[0], before, Now(), o, Some(f));
          run := run + [Now()];
        }
      }
    }

    /** One match of a new bid with position `i`. */
    method CallOnce(o: LimitOrder, f: Feed, i: nat, ghost paid0: nat, ghost received0: nat)
      returns (finished: bool, gone: bool, ghost paid: nat, ghost received: nat, ghost refund: nat)
      requires Matching(bids, asks) && Resting(bids, o, paid0, received0) && Eligible(o, f)
      requires IsLeast(calls, i) && !HasBetterAsk(asks, o, f)
      requires AllOpen(calls) && Calm(calls, f) && supply == SumDebt(calls)
      requires i < |calls| && Callable(calls[i], f)
      requires ValidWallet(debtWallet) && ValidWallet(collateralWallet)
      modifies this`bids, this`calls, this`supply, this`debtWallet, this`collateralWallet
      ensures ValidWallet(debtWallet) && ValidWallet(collateralWallet) && Conserves()
      ensures AllOpen(calls) && Calm(calls, f) && supply == SumDebt(calls)
      ensures gone ==>
                && finished && bids == old(bids[1..])
                && Executed(o.price, paid, received, refund) && paid + refund == o.forSale
      ensures !gone ==>
                && Matching(bids, asks) && Resting(bids, o, paid, received) && bids[1..] == old(bids[1..])
                && (finished ==> bids[0].ToReceive() == 0)
      ensures !finished ==> SumDebt(calls) < old(SumDebt(calls))
      ensures Trades(old(Now()), Now(), o, Some(f)) ||
                (Now() == old(Now()) && finished && !gone && paid == paid0 && received == received0)
    {
      hide MulDown, MulUp, Crosses, AtMost, Less, AtRest, Total, SumForSale, Receive, Pay;
      hide Executed, AtLimit, IsAbove, Scaled, SumCollateral, CallDeal;
      hide IsCallSize, IsLeast, HasBetterAsk, Trades, Calm, Callable, Squeeze, FillCall;
      var c := calls[i];
      CalmAt(calls, f, i);
      var toBuy := ToBuy(c, Squeeze(f), f);
      CallMatch(bids[0], c, toBuy, f);
      match CallDeal(bids[0].forSale, toBuy, Squeeze(f)) {
        case None =>
          finished, gone, paid, received, refund := true, false, paid0, received0, 0;
        case Some(d) =>
          var r := Fill(bids[0], d.takerPays, d.takerIsSmaller);
          SumWithoutCall(calls, i);
          FillCallSums(calls, i, d.takerReceives, d.takerPays);
          FillKeepsOpen(calls, i, d.takerReceives, d.takerPays);
          FillKeepsCalm(calls, i, d.takerReceives, d.takerPays, f);
          MatchingAfterCall(bids, asks, r);
          CallTrades(Now(), o, f, i, toBuy, d);
          ExecuteCall(i, d, d.takerIsSmaller);
          gone := r.Gone?;
          finished := gone;
          Accumulate(o.price, paid0, received0, d.takerPays, d.takerReceives, RefundOf(r));
          paid, received, refund := paid0 + d.takerPays, received0 + d.takerReceives, RefundOf(r);
      }
    }

    /** The first two passes, for a bid good enough for a margin call: asks better than the squeeze price, then
        margin calls. */
    method MatchBetterAndCalls(o: LimitOrder, f: Feed)
      returns (finished: bool, gone: bool, ghost paid: nat, ghost received: nat, ghost refund: nat,
               ghost run: seq<Moment>)
      requires Matching(bids, asks) && Resting(bids, o, 0, 0) && Eligible(o, f) && ActiveFeed() == Some(f)
      requires AllOpen(calls) && Calm(calls, f) && supply == SumDebt(calls)
      requires ValidWallet(debtWallet) && ValidWallet(collateralWallet)
      modifies this`bids, this`asks, this`calls, this`supply, this`debtWallet, this`collateralWallet
      ensures ValidWallet(debtWallet) && ValidWallet(collateralWallet) && Conserves()
      ensures AllOpen(calls) && Calm(calls, f) && supply == SumDebt(calls)
      ensures run != [] && Reaches(run, old(Now()), Now(), o, Some(f))
      ensures old(NoneCallable(calls, f)) ==> NoneCallable(calls, f)
      ensures gone ==>
                && finished && bids == old(bids[1..]) && AtRest(bids, asks)
                && Executed(o.price, paid, received, refund) && paid + refund == o.forSale
      ensures !gone ==>
                && Matching(bids, asks) && Resting(bids, o, paid, received) && bids[1..] == old(bids[1..])
                && (finished ==> bids[0].ToReceive() == 0)
                && (!finished ==> NoneCallable(calls, f))
    {
      hide MulDown, MulUp, Crosses, AtMost, Less, AtRest, Total, SumForSale, Executed, AtLimit;
      hide IsAbove, Scaled, SumCollateral, SumDebt, AllOpen, Calm, NoneCallable, IsRun, ValidWallet, Eligible, Squeeze;
      Start(Now(), o, Some(f));
      finished, gone, paid, received, refund, run := MatchNewBid(o, Some(Squeeze(f)), 0, 0, [Now()]);
      if !finished {
        finished, gone, paid, received, refund, run := CallForNewBid(o, f, paid, received, run);
      }
    }

    /** The three passes over the opposite side: asks better than the squeeze price, margin calls, and
        the remaining asks. */
    method RunNewBid(o: LimitOrder)
      returns (gone: bool, ghost paid: nat, ghost received: nat, ghost refund: nat, ghost run: seq<Moment>)
      requires Matching(bids, asks) && Resting(bids, o, 0, 0)
      requires AllOpen(calls) && Lifecycle()
      requires ValidWallet(debtWallet) && ValidWallet(collateralWallet)
      requires swan.None? && feed.Some? ==> Calm(calls, feed.value) && Quiet(bids[1..], calls, feed.value)
      modifies this`bids, this`asks, this`calls, this`supply, this`debtWallet, this`collateralWallet
      ensures ValidWallet(debtWallet) && ValidWallet(collateralWallet) && Conserves()
      ensures AllOpen(calls) && Lifecycle()
      ensures Reaches(run, old(Now()), Now(), o, ActiveFeed()) && Fair(old(Now()), Now(), o, ActiveFeed())
      ensures swan.None? && feed.Some? ==> Calm(calls, feed.value) && Quiet(old(bids[1..]), calls, feed.value)
      ensures gone ==>
                && bids == old(bids[1..]) && AtRest(bids, asks)
                && Executed(o.price, paid, received, refund) && paid + refund == o.forSale
      ensures !gone ==>
                && Matching(bids, asks) && Resting(bids, o, paid, received) && bids[1..] == old(bids[1..])
                && (asks == [] || !Crosses(bids[0], asks[0]) || bids[0].ToReceive() == 0)
                && (swan.None? && feed.Some? && 0 < bids[0].ToReceive() ==> Quiet(bids, calls, feed.value))
    {
      hide MulDown, MulUp, Crosses, AtMost, Less, AtRest, Total, SumForSale, Executed, AtLimit;
      hide IsAbove, Scaled, SumCollateral, SumDebt, AllOpen, Calm, NoneCallable;
      hide IsRun, Fair, Trades, Sorted, ValidWallet, SumBids, SortedBids, Callable, Backed;
      SortedAsks(bids, asks);
      ghost var before := Now();
      var finished := false;
      gone, paid, received, refund, run := false, 0, 0, 0, [Now()];
      Start(Now(), o, ActiveFeed());
      if swan.None? && feed.Some? && Eligible(o, feed.value) {
        finished, gone, paid, received, refund, run := MatchBetterAndCalls(o, feed.value);
      }
      if !finished {
        finished, gone, paid, received, refund, run := MatchNewBid(o, None, paid, received, run);
      }
      ReachesFairly(run, before, Now(), o, ActiveFeed());
      if !gone && asks != [] { SamePriceCrosses(o, bids[0], asks[0]); }
    }

    /** Matches a new bid at the front of its side and takes back what is left of it if that is too small. */
    method ApplyBid(o: LimitOrder)
      returns (filled: bool, ghost paid: nat, ghost received: nat, ghost refund: nat, ghost run: seq<Moment>)
      requires Matching(bids, asks) && Resting(bids, o, 0, 0)
      requires AllOpen(calls) && Lifecycle()
      requires ValidWallet(debtWallet) && ValidWallet(collateralWallet)
      requires swan.None? && feed.Some? ==> Calm(calls, feed.value) && Quiet(bids[1..], calls, feed.value)
      modifies this`bids, this`asks, this`calls, this`supply, this`debtWallet, this`collateralWallet
      ensures ValidWallet(debtWallet) && ValidWallet(collateralWallet) && Conserves()
      ensures AtRest(bids, asks) && AllOpen(calls) && Lifecycle() && Steady()
      ensures Executed(o.price, paid, received, refund)
      ensures filled ==> paid + refund == o.forSale
      ensures !filled ==> refund == 0 && paid < o.forSale && o.(forSale := o.forSale - paid) in bids
      ensures run != [] && Reaches(run, old(Now()), Last(run), o, ActiveFeed())
      ensures Fair(old(Now()), Last(run), o, ActiveFeed())
      ensures Now() == Last(run) || TakenBack(Last(run), Now(), o)
    {
      hide MulDown, MulUp, Crosses, AtMost, Less, AtRest, Total, SumForSale, SumDebt, SumCollateral, SumBids, AllOpen;
      hide Executed, AtLimit, ValidWallet, Calm, NoneCallable, Fair, IsRun, Eligible, SortedBids;
      var gone;
      gone, paid, received, refund, run := RunNewBid(o);
      filled := gone;
      if !gone {
        filled, refund := CullFrontBid();
        ExecutedAtLimit(o.price, paid, received, refund);
      }
    }

    /** A new order of a seller of the market-issued asset, and all that it is matched with. */
    method OfferBid(seller: nat, amount: pos, minToReceive: pos)
      returns (ok: bool, filled: bool, ghost paid: nat, ghost received: nat, ghost refund: nat,
               ghost run: seq<Moment>)
      requires Valid()
      modifies this
      ensures ok == old(Has(debtWallet, seller, amount))
      ensures !ok ==> State() == old(State())
      ensures ok ==> Valid() && Conserves()
      ensures ok ==> Executed(Price(amount, minToReceive), paid, received, refund)
      ensures ok && filled ==> paid + refund == amount
      ensures ok && !filled ==>
                && refund == 0 && paid < amount
                && LimitOrder(old(nextId), seller, amount - paid, Price(amount, minToReceive)) in bids
      ensures swan == old(swan) && feed == old(feed)
      ensures ok ==> Offered(old(Now()), Now(), LimitOrder(old(nextId), seller, amount, Price(amount, minToReceive)),
                             ActiveFeed(), run)
    {
      hide MulDown, MulUp, Crosses, AtMost, Less, Insert, Sorted, NoDust, NoCross, Total, SumForSale, Receive, Pay;
      hide Offered, Fair, IsRun, Has, AllOpen, SortedBids, TakenBack;
      hide Executed, AtLimit, Take, SumDebt, SumCollateral, SumBids, Backed, ValidWallet, Calm, NoneCallable, Scaled;
      if !Has(debtWallet, seller, amount) { return false, false, 0, 0, 0, []; }
      ghost var before := Now();
      TakeTotal(debtWallet, seller, amount);
      debtWallet := Take(debtWallet, seller, amount);
      var o := LimitOrder(nextId, seller, amount, Price(amount, minToReceive));
      nextId := nextId + 1;
      InsertMembers(bids, o);
      InsertKeepsOrder(bids, o);
      NewOrderIsNotDust(o);
      ExecutesNothing(o.price);
      if bids != [] && !Less(bids[0].price, o.price) {
        BehindTheFront(bids, asks, o);
        bids := Insert(bids, o);
        OfferedBehind(before, o, ActiveFeed());
        return true, false, 0, 0, 0, [Now()];
      }
      NewFront(bids, asks, o);
      bids := Insert(bids, o);
      ok := true;
      filled, paid, received, refund, run := ApplyBid(o);
      OfferedBy(before, Now(), o, ActiveFeed(), run);
    }

    /** `limit_order_create` for a seller of the market-issued asset; an order that must be filled at once is undone
        if it is not. */
    method CreateBid(seller: nat, amount: pos, minToReceive: pos, fillOrKill: bool)
      returns (ok: bool, filled: bool, ghost paid: nat, ghost received: nat, ghost refund: nat,
               ghost run: seq<Moment>)
      requires Valid()
      modifies this
      ensures ok ==> old(Has(debtWallet, seller, amount)) && (fillOrKill ==> filled)
      ensures !ok ==> State() == old(State()) && (old(Has(debtWallet, seller, amount)) ==> fillOrKill)
      ensures ok ==> Valid() && Conserves()
      ensures ok ==> Executed(Price(amount, minToReceive), paid, received, refund)
      ensures ok && filled ==> paid + refund == amount
      ensures ok && !filled ==>
                && refund == 0 && paid < amount
                && LimitOrder(old(nextId), seller, amount - paid, Price(amount, minToReceive)) in bids
      ensures swan == old(swan) && feed == old(feed)
      ensures ok ==> Offered(old(Now()), Now(), LimitOrder(old(nextId), seller, amount, Price(amount, minToReceive)),
                             ActiveFeed(), run)
    {
      hide Executed, Has;
      var saved := State();
      ok, filled, paid, received, refund, run := OfferBid(seller, amount, minToReceive);
      if ok && fillOrKill && !filled {
        Restore(saved);
        ok := false;
      }
    }

    /** As `CullFrontAsk`, for the other side. */
    method CullFrontBid() returns (culled: bool, refund: nat)
      requires Matching(bids, asks)
      requires asks == [] || !Crosses(bids[0], asks[0]) || bids[0].ToReceive() == 0
      requires ValidWallet(debtWallet)
      modifies this`bids, this`debtWallet
      ensures AtRest(bids, asks) && ValidWallet(debtWallet) && Conserves()
      ensures culled <==> old(bids[0].ToReceive()) == 0
      ensures ToQuote(refund, old(bids[0].price)) == 0
      ensures culled ==> bids == old(bids[1..]) && refund == old(bids[0].forSale)
      ensures culled ==> debtWallet == Pay(old(debtWallet), old(bids[0].seller), refund)
      ensures !culled ==> bids == old(bids) && refund == 0 && debtWallet == old(debtWallet)
    {
      if bids[0].ToReceive() == 0 {
        culled, refund := true, bids[0].forSale;
        PayTotal(debtWallet, bids[0].seller, refund);
        debtWallet := Pay(debtWallet, bids[0].seller, refund);
        bids := bids[1..];
      } else {
        culled, refund := false, 0;
        Adjoint(0, bids[0].price.quote, bids[0].price.base, 1);
        MatchingDone(bids, asks);
      }
    }

    /** `cancel_limit_order` for bid `i`, apart from its deferred fee. */
    method CancelLimitBid(i: nat)
      requires Valid() && i < |bids|
      modifies this`bids, this`debtWallet
      ensures Valid() && Conserves() && bids == Without(old(bids), i)
      ensures debtWallet == Pay(old(debtWallet), old(bids[i].seller), old(bids[i].forSale))
    {
      hide AtRest, Total, SumForSale, Pay, Quiet, Calm, AllOpen, SumDebt;
      SumWithoutOrder(bids, i);
      WithoutOrderAtRest(bids, asks, i);
      PayTotal(debtWallet, bids[i].seller, bids[i].forSale);
      QuietAfterMatch(bids, Without(bids, i), calls, feed);
      debtWallet := Pay(debtWallet, bids[i].seller, bids[i].forSale);
      bids := Without(bids, i);
    }

    /** The same for ask `i`. */
    method CancelLimitAsk(i: nat)
      requires Valid() && i < |asks|
      modifies this`asks, this`collateralWallet
      ensures Valid() && Conserves() && asks == Without(old(asks), i)
      ensures collateralWallet == Pay(old(collateralWallet), old(asks[i].seller), old(asks[i].forSale))
    {
      hide AtRest, Total, SumForSale, Pay, Quiet, Calm, AllOpen, SumDebt;
      SumWithoutOrder(asks, i);
      RestIsSymmetric(bids, asks);
      WithoutOrderAtRest(asks, bids, i);
      RestIsSymmetric(bids, Without(asks, i));
      PayTotal(collateralWallet, asks[i].seller, asks[i].forSale);
      collateralWallet := Pay(collateralWallet, asks[i].seller, asks[i].forSale);
      asks := Without(asks, i);
    }

    /** `globally_settle_asset`: every position is closed at `p`, its collateral for the debt, rounded up
        and at most all of it, goes to the fund, and the rest back to the borrower. */
    method GloballySettle(p: Price)
      requires Sound() && swan.None? && calls != []
      modifies this`calls, this`supply, this`swan, this`fund, this`collateralWallet
      ensures Sound() && Conserves()
      ensures supply == old(supply) > 0 && fund > 0 && swan == Some(Swan(supply, fund))
      ensures fund == SumDue(old(calls), p) && collateralWallet == RefundAll(old(collateralWallet), old(calls), p)
      ensures AllCover(old(calls), p) ==> supply * p.base <= fund * p.quote
      ensures (fund - |old(calls)|) * p.quote < supply * p.base
    {
      hide AtRest, Total, SumForSale, Pay, SumBids, Backed, Due, ValidWallet, NotMuchMore;
      NothingIsNotMore(p);
      var original := supply;
      var gathered: nat := 0;
      while calls != []
        invariant AllOpen(calls) && ValidWallet(collateralWallet)
        invariant swan.None? && fund == 0
        invariant supply == SumDebt(calls) <= original
        invariant calls == old(calls) || 0 < gathered
        invariant AllCover(old(calls), p) ==>
                    AllCover(calls, p) && (original - supply) * p.base <= gathered * p.quote
        invariant |calls| <= |old(calls)|
        invariant NotMuchMore(gathered, |old(calls)| - |calls|, original - supply, p)
        invariant Total(collateralWallet) + SumCollateral(calls) + gathered
               == old(Total(collateralWallet) + SumCollateral(calls))
        invariant gathered + SumDue(calls, p) == SumDue(old(calls), p)
        invariant RefundAll(collateralWallet, calls, p) == RefundAll(old(collateralWallet), old(calls), p)
      {
        var c := calls[0];
        var pays := Due(c, p);
        SettleOne(c, p, original - supply, gathered);
        SettleLittleMore(c, p, original - supply, gathered, |old(calls)| - |calls|);
        PayTotal(collateralWallet, c.borrower, c.collateral - pays);
        gathered := gathered + pays;
        collateralWallet := Pay(collateralWallet, c.borrower, c.collateral - pays);
        supply := supply - c.debt;
        calls := calls[1..];
      }
      BackedAtSettlement(original, gathered);
      NotMuchMoreMeans(gathered, |old(calls)|, original, p);
      swan, fund, supply := Some(Swan(original, gathered)), gathered, original;
    }

    /** `check_for_blackswan`: the asset is settled when the least collateralised position is not above
        the lowest of the squeeze price and the best bid. */
    method CheckForBlackSwan(enable: bool) returns (r: SwanCheck)
      requires Sound()
      modifies this`calls, this`supply, this`swan, this`fund, this`collateralWallet
      ensures Sound() && Conserves()
      ensures r.SwanForbidden? ==> !enable
      ensures !enable ==> swan == old(swan)
      ensures r.NoSwan? || r.SwanForbidden? || old(swan.Some?) ==> State() == old(State())
      ensures r.SwanSettled? <==> swan.Some?
      ensures swan.Some? ==> supply == old(supply)
      ensures r.NoSwan? && feed.Some? ==> AllAbove(calls, Lowest(bids, feed.value))
      ensures swan.Some? && old(swan.None?) ==>
                && old(feed.Some? && !AllAbove(calls, Lowest(bids, feed.value)))
                && SwanAfter(old(Now()))
    {
      hide MulDown, MulUp, AtRest, Total, SumForSale, SumDebt, SumCollateral, SumBids, Backed, AtMost;
      if swan.Some? { return SwanSettled; }
      if feed.None? || calls == [] { return NoSwan; }
      var f := feed.value;
      ghost var k := LeastExists(calls);
      var i :| 0 <= i < |calls| && IsLeast(calls, i);
      var least := calls[i];
      if IsAbove(least.collateral, least.debt, Lowest(bids, f)) {
        LeastIsAbove(calls, i, Lowest(bids, f));
        return NoSwan;
      }
      if !enable { return SwanForbidden; }
      ghost var before := Now();
      var swanPrice := Price(least.collateral, least.debt);
      LeastCovers(calls, i);
      if AtMost(f.price, swanPrice) {
        CoversLower(calls, swanPrice, f.price);
        AtMostReflexive(f.price);
        GloballySettle(f.price);
        assert SettledAt(before.calls, before.collateral, f.price, f, supply, fund, collateralWallet);
      } else {
        NotAtMost(f.price, swanPrice);
        GloballySettle(swanPrice);
        assert SettledAt(before.calls, before.collateral, swanPrice, f, supply, fund, collateralWallet);
      }
      r := SwanSettled;
    }

    /** Margin calls position `i` against the best bid at the bid's price. */
    method CallFrontBid(i: nat, f: Feed)
      requires Sound() && swan.None? && bids != [] && i < |calls| && Callable(calls[i], f)
      requires IsAbove(calls[i].collateral, calls[i].debt, bids[0].price.Invert())
      modifies this`bids, this`calls, this`supply, this`debtWallet, this`collateralWallet
      ensures Sound() && Conserves() && supply < old(supply)
      ensures IsLeast(old(calls), i) && Eligible(old(bids[0]), f) && AllAbove(old(calls), Lowest(old(bids), f)) ==>
                CallsFront(old(Now()), Now(), f)
    {
      hide MulDown, MulUp, Total, SumForSale, Receive, Pay, Crosses, Sorted, NoCross, AtMost, SumBids;
      hide IsAbove, Scaled, SumCollateral, CallDeal;
      var c, at := calls[i], bids[0].price.Invert();
      // the debt costs no more than the collateral: the source's second black swan test never fires
      assert ToBase(c.debt, at) <= c.collateral by { CoversDebtDown(c, at); }
      var toBuy := ToBuy(c, at, f);
      MakerDeal(bids[0], c, toBuy);
      var d := CallDeal(bids[0].forSale, toBuy, at).value;
      var r := Fill(bids[0], d.takerPays, true);
      SumWithoutCall(calls, i);
      FillCallSums(calls, i, d.takerReceives, d.takerPays);
      FillKeepsOpen(calls, i, d.takerReceives, d.takerPays);
      RestIsSymmetric(bids, asks);
      ReplacedAtRest(asks, bids, r);
      RestIsSymmetric(asks, Replaced(bids, r));
      ghost var before := Now();
      ExecuteCall(i, d, true);
      assert IsLeast(before.calls, i) && Eligible(before.bids[0], f) && AllAbove(before.calls, Lowest(before.bids, f))
             ==> CallsFrontBid(before, Now(), f, i, toBuy, d);
    }

    /** No position is callable or sets off a black swan. */
    ghost predicate NothingToCall()
      reads this
    {
      swan.None? && feed.Some? && NoneCallable(calls, feed.value) && AllAbove(calls, Lowest(bids, feed.value))
    }

    /** `check_call_orders`: from the least collateralised position up and from the best bid down, margin
        calls are matched with bids until no position is callable or no bid is good enough, or a black
        swan settles the asset. */
    method CheckCallOrders(enableBlackSwan: bool) returns (r: CallResult, ghost run: seq<Moment>)
      requires Sound()
      modifies this`bids, this`calls, this`supply, this`swan, this`fund, this`debtWallet, this`collateralWallet
      ensures r.CallForbidden? ==> !enableBlackSwan
      ensures !enableBlackSwan ==> swan == old(swan)
      ensures !r.CallForbidden? ==> Valid() && Conserves()
      ensures !r.CallForbidden? && old(swan.Some?) ==> r.NotCalled? && State() == old(State())
      ensures r.NotCalled? && swan.None? ==> State() == old(State())
      ensures old(NothingToCall()) ==> State() == old(State())
      ensures enableBlackSwan && old(swan.None? && feed.Some? && !AllAbove(calls, Lowest(bids, feed.value))) ==>
                swan.Some?
      ensures CallsReach(run, old(Now()), feed)
      ensures !r.CallForbidden? ==> (r.Called? <==> 1 < |run|)
      ensures swan == old(swan) ==> Now() == Last(run)
      ensures swan != old(swan) ==> SwanAfter(Last(run))
    {
      hide MulDown, MulUp, AtRest, Total, SumForSale, SumBids, SumCollateral, SumDebt, AllOpen, ValidWallet, Backed;
      hide Lowest, Less, AtMost, IsAbove, NoBetter, CallsReach, CallsFront;
      r, run := NotCalled, [Now()];
      StartCalls(Now(), feed);
      var s := CheckForBlackSwan(enableBlackSwan);
      if s.SwanForbidden? { return CallForbidden, run; }
      if s.SwanSettled? || feed.None? { return; }
      while true
        invariant Sound() && Conserves() && feed == old(feed) && feed.Some? && old(swan.None?)
        invariant r.NotCalled? ==> State() == old(State())
        invariant old(NothingToCall()) ==> r.NotCalled?
        invariant !r.CallForbidden? && swan.None?
        invariant run != [] && CallsReach(run, old(Now()), feed) && Last(run) == Now() && (r.Called? <==> 1 < |run|)
        decreases supply
      {
        s := CheckForBlackSwan(enableBlackSwan);
        if s.SwanForbidden? { return CallForbidden, run; }
        if s.SwanSettled? { return; }
        var f := feed.value;
        if calls == [] { return; }
        if bids == [] || !Eligible(bids[0], f) {
          SettledCalls(bids, calls, f);
          return;
        }
        ghost var k := LeastExists(calls);
        var i :| 0 <= i < |calls| && IsLeast(calls, i);
        if !Callable(calls[i], f) {
          LeastNotCallable(calls, i, f);
          return;
        }
        EligibleIsLowest(bids, calls, f, i);
        CallFrontBid(i, f);
        OneMoreCall(run, old(Now()), Now(), f);
        r, run := Called, run + [Now()];
      }
    }

    /** A black swan has settled the asset at the moment `s`: the least collateralised position was not above the
        lower of the squeeze price and the best bid. */
    ghost predicate SwanAfter(s: Moment)
      reads this
    {
      && feed.Some? && !AllAbove(s.calls, Lowest(s.bids, feed.value))
      && bids == s.bids && asks == s.asks && supply == s.supply && debtWallet == s.debt
      && exists p :: SettledAt(s.calls, s.collateral, p, feed.value, supply, fund, collateralWallet)
    }

    /** The positions after account `who` adjusts its own, at `i` or new when `i` is none; `None` when the
        source rejects the adjustment. */
    static function Adjusted(s: Calls, i: Option<nat>, id: nat, who: nat, deltaCollateral: int, deltaDebt: int,
                             target: Option<pos>): Option<Calls>
      requires i.Some? ==> i.value < |s|
    {
      match i
      case None =>
        if deltaCollateral <= 0 || deltaDebt <= 0 then None
        else Some(s + [CallOrder(id, who, deltaCollateral, deltaDebt, target)])
      case Some(k) =>
        var collateral, debt := s[k].collateral + deltaCollateral, s[k].debt + deltaDebt;
        if debt == 0 then
          if collateral != 0 then None else Some(s[..k] + s[k + 1..])
        else if collateral <= 0 || debt <= 0 then None
        else Some(s[k := CallOrder(s[k].id, who, collateral, debt, target)])
    }

    /** From `s` to `t` account `who` has moved collateral and debt into its position, or out of it. */
    static ghost predicate IsAdjusted(s: Moment, t: Moment, id: nat, who: nat, deltaCollateral: int, deltaDebt: int,
                                      target: Option<pos>) {
      && t.bids == s.bids && t.asks == s.asks && t.supply == s.supply + deltaDebt
      && (deltaDebt < 0 ==> Has(s.debt, who, -deltaDebt))
      && t.debt == Move(s.debt, who, deltaDebt)
      && (deltaCollateral > 0 ==> Has(s.collateral, who, deltaCollateral))
      && t.collateral == Move(s.collateral, who, -deltaCollateral)
      && exists i: Option<nat> :: IsPositionOf(s.calls, who, i)
           && Adjusted(s.calls, i, id, who, deltaCollateral, deltaDebt, target) == Some(t.calls)
    }

    /** The part of `call_order_update` before margin calls are checked.  `improves` tells whether an
        existing position gets a better ratio without more debt. */
    method AdjustPosition(who: nat, deltaCollateral: int, deltaDebt: int, target: Option<pos>)
      returns (ok: bool, closing: bool, id: nat, improves: bool)
      requires Sound() && swan.None?
      modifies this`calls, this`supply, this`debtWallet, this`collateralWallet, this`nextId
      ensures Sound() && Conserves()
      ensures !ok ==> State() == old(State()) && !closing
      ensures ok ==> IsAdjusted(old(Now()), Now(), old(nextId), who, deltaCollateral, deltaDebt, target)
      ensures ok && closing ==> forall c :: c in calls ==> c in old(calls)
      ensures ok && improves ==> deltaDebt <= 0 && Improves(old(calls), calls, who, id)
    {
      hide MulDown, MulUp, AtRest, Total, SumForSale, SumBids, SumCollateral, SumDebt, Callable, IsAbove, Move;
      hide Adjusted, NoBetter, AllOpen, ValidWallet, IsAdjusted, IsPositionOf, Improves, Has, SortedBids;
      ok, closing, id, improves := false, false, 0, false;
      if supply + deltaDebt < 0 { return; }
      if deltaDebt < 0 && !Has(debtWallet, who, -deltaDebt) { return; }
      if deltaCollateral > 0 && !Has(collateralWallet, who, deltaCollateral) { return; }
      var i := FindPosition(calls, who);
      var adjusted := Adjusted(calls, i, nextId, who, deltaCollateral, deltaDebt, target);
      if adjusted.None? { return; }
      closing := |adjusted.value| < |calls|;
      id := if i.Some? then calls[i.value].id else nextId;
      improves := i.Some? && !closing && deltaDebt <= 0 && !NoBetter(adjusted.value[i.value], calls[i.value]);
      AdjustedSums(calls, i, nextId, who, deltaCollateral, deltaDebt, target);
      AdjustedBy(Now(), i, nextId, who, deltaCollateral, deltaDebt, target);
      ImprovesBy(calls, adjusted.value, who, i);
      MoveTotal(debtWallet, who, deltaDebt);
      MoveTotal(collateralWallet, who, -deltaCollateral);
      debtWallet := Move(debtWallet, who, deltaDebt);
      collateralWallet := Move(collateralWallet, who, -deltaCollateral);
      supply := supply + deltaDebt;
      calls := adjusted.value;
      nextId := if i.None? then nextId + 1 else nextId;
      ok := true;
    }

    /** `call_order_update`: borrows, repays, or moves collateral.  A position that would be margin called
        must be closed by the call, and one that could not be called may only improve. */
    method UpdatePosition(who: nat, deltaCollateral: int, deltaDebt: int, target: Option<pos>, maxSupply: nat)
      returns (ok: bool, called: bool, ghost position: Option<nat>, ghost better: bool, ghost run: seq<Moment>)
      requires Valid()
      modifies this
      ensures Valid() && swan == old(swan) && feed == old(feed)
      ensures ok ==> Conserves()
      ensures !ok ==> State() == old(State())
      ensures ok ==> swan.None? && feed.Some? && old(supply) + deltaDebt <= maxSupply
      ensures ok && called ==> position.Some? && forall c :: c in calls ==> c.id != position.value
      ensures ok && position.Some? && !better ==>
                forall c :: c in calls && c.id == position.value ==> !Callable(c, feed.value)
      ensures ok && better ==> deltaDebt <= 0
      ensures ok && better && !called ==> position.Some? && Improves(old(calls), calls, who, position.value)
      ensures ok ==> && run != [] && CallsReach(run, run[0], feed) && Now() == Last(run)
                     && IsAdjusted(old(Now()), run[0], old(nextId), who, deltaCollateral, deltaDebt, target)
                     && (called <==> 1 < |run|)
    {
      hide MulDown, MulUp, AtRest, Total, SumForSale, SumBids, SumCollateral, SumDebt, IsAbove, Adjusted, AllOpen;
      hide ValidWallet, Backed, CallsFrontAt, IsAdjusted;
      var saved := State();
      if swan.Some? || feed.None? || supply + deltaDebt > maxSupply { return false, false, None, false, []; }
      var closing, id, improves;
      ok, closing, id, improves := AdjustPosition(who, deltaCollateral, deltaDebt, target);
      if !ok || closing {
        if closing { FewerCalls(saved.calls, calls, bids, feed.value); }
        StartCalls(Now(), feed);
        return ok, false, None, false, [Now()];
      }
      var r;
      r, run := CheckCallOrders(false);
      if r.CallForbidden? || !Admitted(r, id, improves) {
        Restore(saved);
        return false, false, None, false, [];
      }
      called, position, better := r.Called?, Some(id), improves;
    }

    /** The conditions after the margin calls: a position that was called is gone; one that was not is out
        of margin call territory or better than before with no more debt. */
    predicate Admitted(r: CallResult, id: nat, improves: bool)
      requires feed.Some?
      reads this
    {
      if r.Called? then forall k :: 0 <= k < |calls| ==> calls[k].id != id
      else improves || forall k :: 0 <= k < |calls| && calls[k].id == id ==> !Callable(calls[k], feed.value)
    }

    /** `asset_global_settle`: the issuer settles at a price the least collateralised position can pay,
        rounded down. */
    method IssuerSettle(p: Price) returns (ok: bool)
      requires Valid()
      modifies this`calls, this`supply, this`swan, this`fund, this`collateralWallet
      ensures !ok ==> State() == old(State())
      ensures ok ==> Valid() && Conserves() && supply == old(supply)
      ensures ok ==> swan.Some? && swan.value.supply == supply && swan.value.fund == fund == SumDue(old(calls), p)
      ensures ok ==> collateralWallet == RefundAll(old(collateralWallet), old(calls), p)
      ensures ok == old(swan.None? && supply > 0 &&
                        exists i :: 0 <= i < |calls| && IsLeast(calls, i) &&
                                    ToBase(calls[i].debt, p) <= calls[i].collateral)
    {
      if swan.Some? || supply == 0 || calls == [] { return false; }
      ghost var k := LeastExists(calls);
      if !exists i :: 0 <= i < |calls| && IsLeast(calls, i) && ToBase(calls[i].debt, p) <= calls[i].collateral {
        return false;
      }
      GloballySettle(p);
      ok := true;
    }

    /** `asset_settle` once the asset is globally settled: part of the fund for part of the supply. */
    method Settle(account: nat, amount: pos) returns (ok: bool)
      requires Valid() && swan.Some?
      modifies this`supply, this`fund, this`debtWallet, this`collateralWallet
      ensures ok == old(Has(debtWallet, account, amount) && 0 < SettledAmount(swan.value, supply, fund, amount))
      ensures !ok ==> State() == old(State())
      ensures ok ==> Valid() && Conserves()
      ensures ok ==> var settled := old(SettledAmount(swan.value, supply, fund, amount));
                     var pays := old(SettlePays(swan.value, supply, fund, amount));
                     && fund == old(fund) - settled && supply == old(supply) - pays && pays <= amount
                     && debtWallet == Take(old(debtWallet), account, pays)
                     && collateralWallet == Pay(old(collateralWallet), account, settled)
    {
      hide MulDown, MulUp, AtRest, SumForSale, SumCollateral, SumBids;
      if !Has(debtWallet, account, amount) { return false; }
      var settled := SettledAmount(swan.value, supply, fund, amount);
      if settled == 0 { return false; }
      BalanceIsPart(debtWallet.balances, account);
      SettleKeepsBacking(swan.value, supply, fund, amount);
      var pays := SettlePays(swan.value, supply, fund, amount);
      TakeTotal(debtWallet, account, pays);
      PayTotal(collateralWallet, account, settled);
      debtWallet := Take(debtWallet, account, pays);
      fund := fund - settled;
      collateralWallet := Pay(collateralWallet, account, settled);
      supply := supply - pays;
      ok := true;
    }

    /** Removes the bid at `i` and returns its collateral. */
    method CancelBid(i: nat)
      requires i < |collateralBids| && ValidWallet(collateralWallet)
      modifies this`collateralBids, this`collateralWallet
      ensures collateralBids == old(collateralBids[..i] + collateralBids[i + 1..])
      ensures collateralWallet ==
                Pay(old(collateralWallet), old(collateralBids[i].bidder), old(collateralBids[i].collateral))
      ensures ValidWallet(collateralWallet) && Conserves()
    {
      var b := collateralBids[i];
      SumWithoutBid(collateralBids, i);
      PayTotal(collateralWallet, b.bidder, b.collateral);
      collateralWallet := Pay(collateralWallet, b.bidder, b.collateral);
      collateralBids := collateralBids[..i] + collateralBids[i + 1..];
    }

    /** `bid_collateral`: replaces the bidder's bid on a settled asset, or only cancels it. */
    method PlaceBid(bidder: nat, collateral: nat, debt: nat) returns (ok: bool)
      requires Valid() && (debt > 0 ==> collateral > 0)
      modifies this`collateralBids, this`collateralWallet, this`nextId
      ensures Valid() && Conserves()
      ensures !ok ==> State() == old(State())
      ensures ok == old(swan.Some? && Has(collateralWallet, bidder, collateral) &&
                        (debt > 0 || exists i :: 0 <= i < |collateralBids| && collateralBids[i].bidder == bidder))
      ensures ok ==> exists rest ::
                && IsWithoutBid(old(collateralBids), bidder, rest)
                && collateralBids == if debt == 0 then rest
                                     else InsertBid(rest, CollateralBid(old(nextId), bidder, collateral, debt))
      ensures forall who :: who != bidder ==>
                BalanceOf(collateralWallet.balances, who) == old(BalanceOf(collateralWallet.balances, who))
    {
      hide AtRest, Total, SumForSale, SumCollateral, SumBids, Pay, Take, InsertBid, Backed;
      var mine := exists i :: 0 <= i < |collateralBids| && collateralBids[i].bidder == bidder;
      if swan.None? || !Has(collateralWallet, bidder, collateral) || (debt == 0 && !mine) { return false; }
      if mine {
        var i :| 0 <= i < |collateralBids| && collateralBids[i].bidder == bidder;
        PayGivesBalance(collateralWallet, bidder, collateralBids[i].collateral);
        CancelBid(i);
        WithoutBidSorted(old(collateralBids), i);
      }
      assert IsWithoutBid(old(collateralBids), bidder, collateralBids);
      if debt > 0 {
        var b := CollateralBid(nextId, bidder, collateral, debt);
        TakeTotal(collateralWallet, bidder, collateral);
        TakeFromOne(collateralWallet, bidder, collateral);
        SumInserted(collateralBids, b);
        InsertedSorted(collateralBids, b);
        collateralWallet := Take(collateralWallet, bidder, collateral);
        collateralBids := InsertBid(collateralBids, b);
        nextId := nextId + 1;
      }
      ok := true;
    }

    /** `_cancel_bids_and_revive_mpa` after the fund has gone into positions. */
    method CancelBidsAndRevive()
      requires ValidWallet(collateralWallet) && fund == 0
      modifies this`collateralBids, this`collateralWallet, this`swan
      ensures swan.None? && collateralBids == [] && ValidWallet(collateralWallet) && Conserves()
      ensures collateralWallet == ReturnBids(old(collateralWallet), old(collateralBids))
    {
      while collateralBids != []
        invariant ValidWallet(collateralWallet) && Conserves()
        invariant ReturnBids(collateralWallet, collateralBids) == ReturnBids(old(collateralWallet), old(collateralBids))
      {
        assert collateralBids[..0] + collateralBids[1..] == collateralBids[1..];
        CancelBid(0);
      }
      swan := None;
    }

    /** `execute_bid` for the first bid: it becomes a position with `debt` and its share of the fund. */
    method ExecuteBid(debt: pos, share: nat)
      requires collateralBids != [] && share <= fund
      modifies this`collateralBids, this`calls, this`fund, this`nextId
      ensures var b := old(collateralBids[0]);
              calls == old(calls) + [CallOrder(old(nextId), b.bidder, b.collateral + share, debt, None)]
      ensures collateralBids == old(collateralBids[1..]) && fund == old(fund) - share
      ensures SumDebt(calls) == old(SumDebt(calls)) + debt
      ensures Conserves()
    {
      var b := collateralBids[0];
      var c := CallOrder(nextId, b.bidder, b.collateral + share, debt, None);
      SumAppended(calls, c);
      calls := calls + [c];
      fund := fund - share;
      collateralBids := collateralBids[1..];
      nextId := nextId + 1;
    }

    /** The second loop of `process_bids`: the accepted bids take over the supply and the fund. */
    method ExecuteBids(n: nat)
      requires Sound() && swan.Some? && feed.Some? && n <= |collateralBids|
      requires supply <= Covered(collateralBids, supply, n)
      requires forall k :: 0 <= k < n ==> Acceptable(swan.value, collateralBids[k], supply, feed.value)
      requires forall k :: 0 <= k < n ==> Covered(collateralBids, supply, k) < supply
      modifies this`collateralBids, this`calls, this`fund, this`nextId
      ensures SumDebt(calls) == supply && fund == 0
      ensures AllOpen(calls) && NoneCallable(calls, feed.value)
      ensures |calls| == n && collateralBids == old(collateralBids[n..])
      ensures forall k :: 0 <= k < n ==> calls[k].borrower == old(collateralBids[k].bidder)
      ensures forall k :: 0 <= k < n - 1 ==> TakesShare(calls[k], old(collateralBids[k]), swan.value, supply)
      ensures Conserves()
    {
      hide AtRest, Total, SumForSale, SumCollateral, SumBids, IsAbove, Acceptable, Scaled, TakesShare, FundShare;
      hide DebtInBid, ValidWallet, MulDown, MulUp, SortedBids, AllOpen, NoneCallable, Callable, SumDebt;
      ghost var all := collateralBids;
      var toCover: nat := supply;
      var s, f := swan.value, feed.value;
      NoCallsOpen(f);
      for k := 0 to n
        invariant collateralBids == all[k..] && |calls| == k
        invariant AllOpen(calls) && NoneCallable(calls, f)
        invariant toCover + SumDebt(calls) == supply
        invariant k < n || n == 0 ==> toCover + Covered(all, supply, k) == supply
        invariant k == n ==> toCover == 0 && fund == 0
        invariant toCover * s.fund <= fund * s.supply
        invariant forall j :: 0 <= j < k ==> calls[j].borrower == all[j].bidder
        invariant forall j :: 0 <= j < k && j < n - 1 ==> TakesShare(calls[j], all[j], s, supply)
        invariant Conserves()
      {
        var bid := collateralBids[0];
        assert bid == all[k];
        var debt := DebtInBid(bid, supply);
        var share := FundShare(s, debt);
        AcceptableBid(s, bid, supply, f, nextId);
        if debt >= toCover {
          LastBidIsAcceptable(s, bid, supply, toCover, fund, f);
          debt, share := toCover, fund;
        } else {
          ShareKeepsBacking(s, toCover, fund, debt);
        }
        toCover := toCover - debt;
        AppendedOpen(calls, CallOrder(nextId, bid.bidder, bid.collateral + share, debt, None), f);
        ExecuteBid(debt, share);
      }
    }

    /** `process_bids`: when the best acceptable bids cover the supply, they take it over exactly and the
        asset is revived with every position above maintenance. */
    method ProcessBids() returns (revived: bool)
      requires Valid() && swan.Some?
      modifies this`collateralBids, this`calls, this`fund, this`swan, this`nextId, this`collateralWallet
      ensures Valid() && Conserves()
      ensures revived == old(feed.Some? && exists m :: Covers(swan.value, collateralBids, supply, feed.value, m))
      ensures !revived ==> State() == old(State())
      ensures revived ==> swan.None? && NoneCallable(calls, feed.value) && SumDebt(calls) == old(supply)
      ensures revived ==>
                var n := |calls|;
                && n <= |old(collateralBids)| && Covers(old(swan.value), old(collateralBids), supply, feed.value, n)
                && (forall k :: 0 <= k < n ==> calls[k].borrower == old(collateralBids[k].bidder))
                && (forall k :: 0 <= k < n - 1 ==>
                      TakesShare(calls[k], old(collateralBids[k]), old(swan.value), supply))
                && collateralWallet == ReturnBids(old(collateralWallet), old(collateralBids[n..]))
    {
      hide MulDown, MulUp, AtRest, Total, SumForSale, SumCollateral, SumBids, IsAbove, Acceptable, Scaled, Pay;
      if feed.None? { return false; }
      var n, covered := AcceptedBids(swan.value, collateralBids, supply, feed.value);
      if covered < supply { return false; }
      ExecuteBids(n);
      CancelBidsAndRevive();
      revived := true;
    }

    /** `revive_bitasset`: the issuer takes over all of the supply with all of the fund. */
    method Revive(issuer: nat)
      requires Sound() && swan.Some?
      modifies this`collateralBids, this`calls, this`fund, this`swan, this`nextId, this`collateralWallet
      ensures Sound() && Conserves() && swan.None?
      ensures collateralWallet == ReturnBids(old(collateralWallet), old(collateralBids))
      ensures calls == if supply == 0 then []
                       else [CallOrder(old(nextId), issuer, old(fund), supply, None)]
    {
      hide MulDown, MulUp, AtRest, Total, SumForSale, SumBids;
      if supply > 0 {
        assert 0 < fund by { Positive(supply, swan.value.fund); }
        var c := CallOrder(nextId, issuer, fund, supply, None);
        SumAppended([], c);
        calls := [] + [c];
        fund := 0;
        nextId := nextId + 1;
      } else {
        assert fund == 0;
      }
      CancelBidsAndRevive();
    }

    /** A new median feed: a settled asset whose fund is above maintenance is revived, then margin calls
        are checked. */
    method PublishFeed(issuer: nat, newFeed: Option<Feed>) returns (ghost run: seq<Moment>)
      requires Valid()
      modifies this
      ensures Valid() && Conserves() && feed == newFeed
      ensures newFeed == old(feed) ==> State() == old(State())
      ensures old(swan.Some?) && newFeed.Some? && newFeed != old(feed) &&
              IsRevivable(old(supply), old(fund), newFeed.value) ==>
                (swan.None? <==> StaysRevived(old(supply), old(fund), old(bids), newFeed.value))
      ensures old(swan.Some?) && (newFeed.None? || !IsRevivable(old(supply), old(fund), newFeed.value)) ==>
                swan == old(swan) && fund == old(fund) && supply == old(supply)
      ensures newFeed != old(feed) && (old(swan.None?) || IsRevived(old(supply), old(fund), newFeed)) ==>
                && CallsReach(run, if old(swan.None?) then old(Now())
                                   else old(AfterRevival(Now(), nextId, issuer, fund, collateralBids)), newFeed)
                && (swan.None? ==> Now() == Last(run))
                && (swan.Some? ==> SwanAfter(Last(run)))
    {
      hide MulDown, MulUp, AtRest, Total, SumForSale, SumBids, SumCollateral, CallsReach;
      if newFeed == feed { return []; }
      feed := newFeed;
      if swan.Some? && IsRevived(supply, fund, feed) {
        Revive(issuer);
        StaysRevivedIff(calls, bids, feed.value, old(supply), old(fund));
      }
      var r;
      r, run := CheckCallOrders(true);
    }
  }

  /** The issuer has taken over the supply and the fund, and the bidders have their collateral back. */
  ghost function AfterRevival(s: Moment, id: nat, issuer: nat, fund: nat, bids: Bids): Moment {
    s.(calls := if s.supply == 0 then [] else [CallOrder(id, issuer, fund, s.supply, None)],
       collateral := ReturnBids(s.collateral, bids))
  }

  /** A position of `who` has a better ratio than before. */
  ghost predicate Improves(before: Calls, after: Calls, who: nat, id: nat) {
    exists k :: 0 <= k < |before| && k < |after| && before[k].borrower == who && after[k].id == before[k].id == id
                && !NoBetter(after[k], before[k])
  }

  /** `rest` are the bids `s` without the one of `bidder`, if there is one. */
  ghost predicate IsWithoutBid(s: Bids, bidder: nat, rest: Bids) {
    if exists i :: 0 <= i < |s| && s[i].bidder == bidder
    then exists i :: 0 <= i < |s| && s[i].bidder == bidder && rest == s[..i] + s[i + 1..]
    else rest == s
  }

  ghost predicate IsPositionOf(s: Calls, who: nat, i: Option<nat>) {
    match i
    case None => forall k :: 0 <= k < |s| ==> s[k].borrower != who
    case Some(k) => k < |s| && s[k].borrower == who
  }

  method FindPosition(s: Calls, who: nat) returns (i: Option<nat>)
    ensures IsPositionOf(s, who, i) && (i.Some? ==> i.value < |s| && s[i.value].borrower == who)
  {
    i := None;
    if exists k :: 0 <= k < |s| && s[k].borrower == who {
      var k :| 0 <= k < |s| && s[k].borrower == who;
      i := Some(k);
    }
  }

  lemma ImprovesBy(before: Calls, after: Calls, who: nat, i: Option<nat>)
    requires i.Some? ==> i.value < |before| && before[i.value].borrower == who
    ensures i.Some? && i.value < |after| && after[i.value].id == before[i.value].id &&
            !NoBetter(after[i.value], before[i.value]) ==>
              Improves(before, after, who, before[i.value].id)
  {}

  lemma AdjustedBy(s: Moment, i: Option<nat>, id: nat, who: nat, deltaCollateral: int, deltaDebt: int,
                   target: Option<pos>)
    requires 0 <= s.supply + deltaDebt && (deltaDebt < 0 ==> Has(s.debt, who, -deltaDebt))
    requires deltaCollateral > 0 ==> Has(s.collateral, who, deltaCollateral)
    requires (i.Some? ==> i.value < |s.calls|) && IsPositionOf(s.calls, who, i)
    requires Market.Adjusted(s.calls, i, id, who, deltaCollateral, deltaDebt, target).Some?
    ensures var calls := Market.Adjusted(s.calls, i, id, who, deltaCollateral, deltaDebt, target).value;
            Market.IsAdjusted(s, Moment(s.bids, s.asks, calls, s.supply + deltaDebt, Move(s.debt, who, deltaDebt),
                                        Move(s.collateral, who, -deltaCollateral)),
                              id, who, deltaCollateral, deltaDebt, target)
  {
    hide IsPositionOf;
  }

  /** `adjust_balance` by an amount of either sign. */
  function Move(w: Wallet, who: nat, delta: int): Wallet
    requires delta < 0 ==> Has(w, who, -delta)
  {
    if delta < 0 then Take(w, who, -delta) else Pay(w, who, delta)
  }

  lemma MoveGives(w: Wallet, who: nat, delta: int, other: nat)
    requires delta < 0 ==> Has(w, who, -delta)
    ensures BalanceOf(Move(w, who, delta).balances, other)
         == BalanceOf(w.balances, other) + (if other == who then delta else 0)
  {}

  lemma MoveTotal(w: Wallet, who: nat, delta: int)
    requires delta < 0 ==> Has(w, who, -delta)
    ensures Total(Move(w, who, delta)) == Total(w) + delta
    ensures ValidWallet(Move(w, who, delta)) == ValidWallet(w)
  {
    if delta < 0 { TakeTotal(w, who, -delta); } else { PayTotal(w, who, delta); }
  }

  lemma FewerCalls(before: Calls, after: Calls, bids: Side, f: Feed)
    requires forall c :: c in after ==> c in before
    ensures Calm(before, f) ==> Calm(after, f)
    ensures Quiet(bids, before, f) ==> Quiet(bids, after, f)
  {
    hide IsAbove, Callable;
    forall i | 0 <= i < |after| ensures exists j :: 0 <= j < |before| && before[j] == after[i] {
      assert after[i] in before;
    }
  }

  /** Only the account's own position changes: it has the new collateral, debt and target, and goes with its debt. */
  lemma AdjustedIs(s: Calls, i: Option<nat>, id: nat, who: nat, deltaCollateral: int, deltaDebt: int,
                   target: Option<pos>)
    requires i.Some? ==> i.value < |s|
    ensures var r := Market.Adjusted(s, i, id, who, deltaCollateral, deltaDebt, target);
            var (collateral, debt) := if i.Some? then (s[i.value].collateral + deltaCollateral,
                                                       s[i.value].debt + deltaDebt)
                                      else (deltaCollateral, deltaDebt);
            && (r.Some? <==> (0 < collateral && 0 < debt) || (i.Some? && collateral == 0 && debt == 0))
            && (r.Some? && debt == 0 ==> i.Some? && r.value == Without(s, i.value))
            && (r.Some? && debt > 0 ==>
                  var k := if i.Some? then i.value else |s|;
                  && k < |r.value| && Without(r.value, k) == (if i.Some? then Without(s, k) else s)
                  && r.value[k].borrower == who && r.value[k].id == (if i.Some? then s[k].id else id)
                  && r.value[k].collateral == collateral && r.value[k].debt == debt
                  && r.value[k].targetRatio == target)
  {
    if i.None? && deltaCollateral > 0 && deltaDebt > 0 {
      var t := s + [CallOrder(id, who, deltaCollateral, deltaDebt, target)];
      assert Without(t, |s|) == s;
    }
  }

  lemma AdjustedSums(s: Calls, i: Option<nat>, id: nat, who: nat, deltaCollateral: int, deltaDebt: int,
                     target: Option<pos>)
    requires i.Some? ==> i.value < |s|
    requires AllOpen(s) && Market.Adjusted(s, i, id, who, deltaCollateral, deltaDebt, target).Some?
    ensures var t := Market.Adjusted(s, i, id, who, deltaCollateral, deltaDebt, target).value;
            && AllOpen(t)
            && SumDebt(t) == SumDebt(s) + deltaDebt
            && SumCollateral(t) == SumCollateral(s) + deltaCollateral
            && (|t| == |s| || |t| == |s| + 1 || forall c :: c in t ==> c in s)
            && (i.Some? && |t| >= |s| ==> |t| == |s| && t[i.value].id == s[i.value].id)
  {
    var t := Market.Adjusted(s, i, id, who, deltaCollateral, deltaDebt, target).value;
    match i {
      case None =>
        SumAppended(s, CallOrder(id, who, deltaCollateral, deltaDebt, target));
      case Some(k) =>
        SumWithoutCall(s, k);
        if s[k].debt + deltaDebt != 0 {
          SumWithoutCall(t, k);
          assert t[..k] + t[k + 1..] == s[..k] + s[k + 1..];
        }
    }
  }

  /** What a position pays into the fund when it is settled at `p`. */
  function Due(c: CallOrder, p: Price): nat {
    var due := ToBaseUp(c.debt, p);
    if due > c.collateral then c.collateral else due
  }

  ghost function SumDue(s: Calls, p: Price): nat {
    if s == [] then 0 else Due(s[0], p) + SumDue(s[1..], p)
  }

  /** Every borrower has the rest of its collateral back. */
  ghost function RefundAll(w: Wallet, s: Calls, p: Price): Wallet
    decreases |s|
  {
    if s == [] then w else RefundAll(Pay(w, s[0].borrower, s[0].collateral - Due(s[0], p)), s[1..], p)
  }

  /** What one borrower has back from positions settled at `p`. */
  ghost function RefundsOf(s: Calls, p: Price, who: nat): nat {
    if s == [] then 0
    else (if s[0].borrower == who then s[0].collateral - Due(s[0], p) else 0) + RefundsOf(s[1..], p, who)
  }

  lemma {:induction false} RefundAllGives(w: Wallet, s: Calls, p: Price, who: nat)
    ensures BalanceOf(RefundAll(w, s, p).balances, who) == BalanceOf(w.balances, who) + RefundsOf(s, p, who)
    decreases |s|
  {
    if s != [] { RefundAllGives(Pay(w, s[0].borrower, s[0].collateral - Due(s[0], p)), s[1..], p, who); }
  }

  /** The collateral of every position covers its debt at `p`. */
  ghost predicate AllCover(s: Calls, p: Price) {
    forall i :: 0 <= i < |s| ==> p.base * s[i].debt <= s[i].collateral * p.quote
  }

  /** All positions were settled at `p`, at most the feed, which each can pay; the fund covers the supply at `p`. */
  ghost predicate SettledAt(calls: Calls, before: Wallet, p: Price, f: Feed, supply: nat, fund: nat, after: Wallet) {
    && AllCover(calls, p) && AtMost(p, f.price) && supply * p.base <= fund * p.quote
    && fund == SumDue(calls, p) && after == RefundAll(before, calls, p)
  }

  /** A settled asset is revived when nothing of it is left or its fund is above maintenance. */
  predicate IsRevivable(supply: nat, fund: nat, f: Feed) {
    supply == 0 || IsAbove(fund, supply, Maintenance(f))
  }

  predicate IsRevived(supply: nat, fund: nat, feed: Option<Feed>) {
    feed.Some? && IsRevivable(supply, fund, feed.value)
  }

  /** A revived asset is not settled again by the check that follows: nothing of it is left, or its fund is above the
      lower of the squeeze price and the best bid. */
  predicate StaysRevived(supply: nat, fund: nat, bids: Side, f: Feed) {
    supply == 0 || IsAbove(fund, supply, Lowest(bids, f))
  }

  lemma StaysRevivedIff(calls: Calls, bids: Side, f: Feed, supply: nat, fund: nat)
    requires IsRevivable(supply, fund, f)
    requires if supply == 0 then calls == [] else |calls| == 1 && calls[0].collateral == fund && calls[0].debt == supply
    ensures NoneCallable(calls, f) && (AllAbove(calls, Lowest(bids, f)) <==> StaysRevived(supply, fund, bids, f))
  {}

  /** With a squeeze ratio of at most the maintenance ratio, a revived asset always stays so. */
  lemma RevivedForGood(supply: nat, fund: nat, bids: Side, f: Feed)
    requires IsRevivable(supply, fund, f) && f.mssr <= f.mcr
    ensures StaysRevived(supply, fund, bids, f)
  {
    if supply > 0 {
      var calls := [CallOrder(0, 0, fund, supply, None)];
      StaysRevivedIff(calls, bids, f, supply, fund);
      AboveLowest(bids, calls, f);
    }
  }

  /** With a higher squeeze ratio it may be settled again at once: a fund of 1.6 times the supply, a maintenance ratio
      of 1.5 and a squeeze ratio of 2. */
  lemma MayBeSettledAgain()
    ensures var f := Feed(Price(1, 1), 1500, 2000);
            IsRevivable(100, 160, f) && !StaysRevived(100, 160, [], f)
  {}

  /** The rest of the book is at rest whatever becomes of the order being matched. */
  lemma MatchingAfterCall(x: Side, y: Side, r: Remainder)
    requires Matching(x, y)
    requires r.Stays? ==> r.order.price == x[0].price && 0 < r.order.forSale
    ensures r.Stays? ==> Matching(Replaced(x, r), y) && Replaced(x, r)[1..] == x[1..]
    ensures r.Gone? ==> AtRest(Replaced(x, r), y) && Replaced(x, r) == x[1..]
  {
    ReplacedSorted(x, r);
  }

  lemma SortedAsks(x: Side, y: Side)
    requires Matching(x, y)
    ensures Sorted(y)
  {}

  lemma SamePriceCrosses(x: LimitOrder, y: LimitOrder, other: LimitOrder)
    requires x.price == y.price
    ensures Crosses(x, other) == Crosses(y, other)
  {}

  /** The new order `o` is still at the front after paying `paid` for `received`. */
  ghost predicate Resting(s: Side, o: LimitOrder, paid: nat, received: nat) {
    && s != [] && o.forSale == o.price.base && paid < o.forSale
    && s[0] == o.(forSale := o.forSale - paid) && AtLimit(o.price, paid, received)
  }

  lemma SettleOne(c: CallOrder, p: Price, settled: nat, gathered: nat)
    requires Open(c)
    ensures var pays := Due(c, p);
            && 0 < pays <= c.collateral
            && (p.base * c.debt <= c.collateral * p.quote && settled * p.base <= gathered * p.quote ==>
                  (settled + c.debt) * p.base <= (gathered + pays) * p.quote)
  {
    var due := ToBaseUp(c.debt, p);
    Bounds(c.debt, p.base, p.quote);
    Positive(c.debt, p.base);
    Adjoint(c.debt, p.base, p.quote, c.collateral);
    var pays := Due(c, p);
    assert (settled + c.debt) * p.base == settled * p.base + c.debt * p.base;
    assert (gathered + pays) * p.quote == gathered * p.quote + pays * p.quote;
  }

  /** What `n` positions paid for `settled` is short of one unit each of more than the debt is worth. */
  ghost predicate NotMuchMore(gathered: nat, n: nat, settled: nat, p: Price) {
    (gathered - n) * p.quote <= settled * p.base && (0 < n ==> (gathered - n) * p.quote < settled * p.base)
  }

  lemma NothingIsNotMore(p: Price)
    ensures NotMuchMore(0, 0, 0, p)
  {}

  lemma NotMuchMoreMeans(gathered: nat, n: nat, settled: nat, p: Price)
    requires NotMuchMore(gathered, n, settled, p) && 0 < n
    ensures (gathered - n) * p.quote < settled * p.base
  {}

  /** A position pays all its collateral, or its debt's worth; and never one unit more than that. */
  lemma DueIsWorth(c: CallOrder, p: Price)
    ensures Due(c, p) <= c.collateral
    ensures Due(c, p) < c.collateral ==> c.debt * p.base <= Due(c, p) * p.quote
    ensures (Due(c, p) - 1) * p.quote < c.debt * p.base
  {
    hide MulUp;
    var due: int := ToBaseUp(c.debt, p);
    Adjoint(c.debt, p.base, p.quote, due - 1);
    Adjoint(c.debt, p.base, p.quote, due);
    MulMono(Due(c, p) - 1, due - 1, p.quote);
  }

  lemma SettleLittleMore(c: CallOrder, p: Price, settled: nat, gathered: nat, n: nat)
    requires NotMuchMore(gathered, n, settled, p)
    ensures NotMuchMore(gathered + Due(c, p), n + 1, settled + c.debt, p)
  {
    hide Due;
    DueIsWorth(c, p);
    var pays: int := Due(c, p);
    assert (gathered + pays - (n + 1)) * p.quote == (gathered - n) * p.quote + (pays - 1) * p.quote;
    assert (settled + c.debt) * p.base == settled * p.base + c.debt * p.base;
  }

  lemma BackedAtSettlement(supply: nat, fund: nat)
    ensures 0 < supply && 0 < fund ==> Backed(Swan(supply, fund), supply, fund)
  {}

  lemma LeastIsAbove(s: Calls, i: nat, p: Price)
    requires AllOpen(s) && IsLeast(s, i) && IsAbove(s[i].collateral, s[i].debt, p)
    ensures AllAbove(s, p)
  {
    forall j | 0 <= j < |s| ensures IsAbove(s[j].collateral, s[j].debt, p) { LeastBounds(s[i], s[j], p); }
  }

  lemma LeastCovers(s: Calls, i: nat)
    requires AllOpen(s) && IsLeast(s, i)
    ensures AllCover(s, Price(s[i].collateral, s[i].debt))
  {
    forall j | 0 <= j < |s| ensures s[i].collateral * s[j].debt <= s[j].collateral * s[i].debt {
      assert NoBetter(s[i], s[j]);
    }
  }

  lemma CoversLower(s: Calls, p: Price, q: Price)
    requires AllCover(s, p) && AtMost(q, p)
    ensures AllCover(s, q)
  {
    forall j | 0 <= j < |s| ensures q.base * s[j].debt <= s[j].collateral * q.quote {
      CoverLower(s[j], p, q);
    }
  }

  lemma CoverLower(c: CallOrder, p: Price, q: Price)
    requires p.base * c.debt <= c.collateral * p.quote && AtMost(q, p)
    ensures q.base * c.debt <= c.collateral * q.quote
  {
    MulMono(q.base * p.quote, p.base * q.quote, c.debt);
    MulMono(p.base * c.debt, c.collateral * p.quote, q.quote);
    Regroup(q.base, p.quote, c.debt);
    Regroup(p.base, q.quote, c.debt);
    Regroup(c.collateral, p.quote, q.quote);
    Cancel(q.base * c.debt, c.collateral * q.quote, p.quote);
  }

  lemma NotAtMost(p: Price, q: Price)
    ensures AtMost(p, q) || AtMost(q, p)
  {}

  lemma CoversDebtDown(c: CallOrder, p: Price)
    requires IsAbove(c.collateral, c.debt, p)
    ensures ToBase(c.debt, p) <= c.collateral
  {
    Bounds(c.debt, p.base, p.quote);
    Cancel(ToBase(c.debt, p), c.collateral, p.quote);
  }

  /** A resting bid margin called at its own price always receives something; what is left of the
      smaller side is culled or bought back. */
  lemma MakerDeal(o: LimitOrder, c: CallOrder, toBuy: nat)
    requires 0 < o.ToReceive() && IsAbove(c.collateral, c.debt, o.price.Invert()) && 0 < toBuy <= c.debt
    requires toBuy < c.debt ==> ToBaseUp(toBuy, o.price.Invert()) < c.collateral
    ensures var deal := CallDeal(o.forSale, toBuy, o.price.Invert());
            && deal.Some?
            && var d := deal.value;
               && 0 < d.takerPays <= o.forSale && d.takerPays <= toBuy
               && d.takerReceives <= c.collateral
               && (d.takerPays < c.debt ==> d.takerReceives < c.collateral)
               && (Fill(o, d.takerPays, true).Stays? ==>
                     Fill(o, d.takerPays, true).order.price == o.price &&
                     0 < Fill(o, d.takerPays, true).order.ToReceive())
  {
    Adjoint(0, o.price.quote, o.price.base, 1);
    CallDealIsFair(c, o.forSale, toBuy, o.price.Invert());
  }

  /** With no bid good enough, every position above the lowest price is above the squeeze price. */
  lemma SettledCalls(bids: Side, calls: Calls, f: Feed)
    requires AllAbove(calls, Lowest(bids, f)) && (bids == [] || !Eligible(bids[0], f))
    ensures Calm(calls, f) && Quiet(bids, calls, f)
  {
    if bids != [] && Less(bids[0].price.Invert(), Squeeze(f)) {
      LessIsAtMost(bids[0].price.Invert(), Squeeze(f));
    }
  }

  lemma EligibleIsLowest(bids: Side, calls: Calls, f: Feed, i: nat)
    requires bids != [] && Eligible(bids[0], f) && i < |calls| && AllAbove(calls, Lowest(bids, f))
    ensures IsAbove(calls[i].collateral, calls[i].debt, bids[0].price.Invert())
  {
    var p := bids[0].price.Invert();
    if !Less(p, Squeeze(f)) {
      CoverSame(calls[i], Squeeze(f), p);
    }
  }

  lemma CoverSame(c: CallOrder, p: Price, q: Price)
    requires AtMost(p, q) && AtMost(q, p) && IsAbove(c.collateral, c.debt, p)
    ensures IsAbove(c.collateral, c.debt, q)
  {
    CompareSame(c.collateral, c.debt, p, q);
  }

  lemma {:induction false} SumWithoutBid(s: Bids, i: nat)
    requires i < |s|
    ensures SumBids(s) == s[i].collateral + SumBids(s[..i] + s[i + 1..])
  {
    if i == 0 {
      assert s[..0] + s[1..] == s[1..];
    } else {
      SumWithoutBid(s[1..], i - 1);
      assert (s[..i] + s[i + 1..])[1..] == s[1..][..i - 1] + s[1..][i..];
    }
  }

  lemma WithoutBidSorted(s: Bids, i: nat)
    requires SortedBids(s) && i < |s|
    ensures SortedBids(s[..i] + s[i + 1..])
  {
    hide AtMost, BidPrice;
  }

  lemma PayGivesBalance(w: Wallet, who: nat, amount: nat)
    ensures BalanceOf(Pay(w, who, amount).balances, who) == BalanceOf(w.balances, who) + amount
    ensures forall other :: other != who ==>
              BalanceOf(Pay(w, who, amount).balances, other) == BalanceOf(w.balances, other)
  {}

  lemma TakeFromOne(w: Wallet, who: nat, amount: nat)
    requires Has(w, who, amount)
    ensures forall other :: other != who ==>
              BalanceOf(Take(w, who, amount).balances, other) == BalanceOf(w.balances, other)
  {}

  /** A position has the debt its bid asked for and the matching share of the fund. */
  predicate TakesShare(c: CallOrder, b: CollateralBid, s: Swan, supply: nat) {
    c.debt == DebtInBid(b, supply) && c.collateral == b.collateral + FundShare(s, c.debt)
  }

  lemma AcceptableBid(s: Swan, b: CollateralBid, supply: nat, f: Feed, id: nat)
    requires Acceptable(s, b, supply, f)
    ensures var debt := DebtInBid(b, supply);
            && IsAbove(b.collateral + FundShare(s, debt), debt, Maintenance(f))
            && (0 < supply ==> 0 < debt)
            && TakesShare(CallOrder(id, b.bidder, b.collateral + FundShare(s, debt), debt, None), b, s, supply)
  {}

  lemma AppendedOpen(s: Calls, c: CallOrder, f: Feed)
    requires AllOpen(s) && NoneCallable(s, f) && Open(c) && IsAbove(c.collateral, c.debt, Maintenance(f))
    ensures AllOpen(s + [c]) && NoneCallable(s + [c], f)
  {}

  lemma NoCallsOpen(f: Feed)
    ensures AllOpen([]) && NoneCallable([], f) && SumDebt([]) == 0
  {}

  /** When the squeeze ratio is at most the maintenance ratio, positions above maintenance cannot set off
      a black swan. */
  lemma AboveLowest(bids: Side, calls: Calls, f: Feed)
    requires NoneCallable(calls, f) && f.mssr <= f.mcr
    ensures AllAbove(calls, Lowest(bids, f))
  {
    forall i | 0 <= i < |calls| ensures IsAbove(calls[i].collateral, calls[i].debt, Lowest(bids, f)) {
      assert !Callable(calls[i], f);
      AboveTarget(calls[i].collateral, calls[i].debt, Feed(f.price, f.mssr, f.mssr), f.mcr);
      if Lowest(bids, f) != Squeeze(f) {
        AboveLower(calls[i], Squeeze(f), Lowest(bids, f));
      }
    }
  }

  lemma NewOrderIsNotDust(o: LimitOrder)
    requires o.forSale == o.price.base
    ensures 0 < o.ToReceive()
  {
    Adjoint(o.forSale, o.price.quote, o.price.base, o.price.quote);
  }

  lemma RestIsSymmetric(x: Side, y: Side)
    ensures AtRest(x, y) <==> AtRest(y, x)
  {}

  lemma QuietAfterMatch(before: Side, after: Side, calls: Calls, feed: Option<Feed>)
    requires before != [] && (after == [] || AtMost(after[0].price, before[0].price))
    ensures feed.Some? && Quiet(before, calls, feed.value) ==> Quiet(after, calls, feed.value)
  {
    if feed.Some? && after != [] && Eligible(after[0], feed.value) {
      AtMostTransitive(before[0].price.Invert(), after[0].price.Invert(), Squeeze(feed.value));
    }
  }

  lemma TradeTotals(w: Wallet, taker: nat, received: nat, other: nat, refund: nat)
    requires ValidWallet(w)
    ensures var v := Pay(Receive(w, taker, received), other, refund);
            ValidWallet(v) && Total(v) == Total(w) + received + refund
  {
    ReceiveTotal(w, taker, received);
    PayTotal(Receive(w, taker, received), other, refund);
  }

  lemma RefundTradeTotals(w: Wallet, taker: nat, refund: nat, other: nat, received: nat)
    requires ValidWallet(w)
    ensures var v := Receive(Pay(w, taker, refund), other, received);
            ValidWallet(v) && Total(v) == Total(w) + refund + received
  {
    PayTotal(w, taker, refund);
    ReceiveTotal(Pay(w, taker, refund), other, received);
  }
}
