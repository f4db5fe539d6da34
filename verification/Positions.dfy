/** The debt positions of one market-issued asset and what a fill does to one of them. */
module Positions {
  import opened Common
  import opened Prices
  import opened LimitOrders
  import opened DebtToCover
  import opened Books

  type Calls = seq<CallOrder>

  ghost function SumDebt(s: Calls): nat {
    if s == [] then 0 else s[0].debt + SumDebt(s[1..])
  }

  ghost function SumCollateral(s: Calls): nat {
    if s == [] then 0 else s[0].collateral + SumCollateral(s[1..])
  }

  predicate Open(c: CallOrder) { 0 < c.debt && 0 < c.collateral }

  predicate AllOpen(s: Calls) { forall i :: 0 <= i < |s| ==> Open(s[i]) }

  /** Every position is collateralised above `p`. */
  predicate AllAbove(s: Calls, p: Price) {
    forall i :: 0 <= i < |s| ==> IsAbove(s[i].collateral, s[i].debt, p)
  }

  /** The median feed in collateral / debt, and the two ratios that come with it. */
  datatype Feed = Feed(price: Price, mcr: pos, mssr: pos)

  function Maintenance(f: Feed): Price { Scaled(f.price, f.mcr) }

  /** The worst price a margin call accepts, in collateral / debt. */
  function Squeeze(f: Feed): Price { Scaled(f.price, f.mssr) }

  predicate Callable(c: CallOrder, f: Feed) { !IsAbove(c.collateral, c.debt, Maintenance(f)) }

  /** `c` is collateralised no better than `d`. */
  predicate NoBetter(c: CallOrder, d: CallOrder) { c.collateral * d.debt <= d.collateral * c.debt }

  /** The order of the index by collateralization: the lower ratio first, then the lower id. */
  predicate ComesFirst(c: CallOrder, d: CallOrder) {
    NoBetter(c, d) && (NoBetter(d, c) ==> c.id <= d.id)
  }

  /** Position `i` is first in the index by collateralization. */
  predicate IsLeast(s: Calls, i: int) {
    0 <= i < |s| && forall j :: 0 <= j < |s| ==> ComesFirst(s[i], s[j])
  }

  lemma NoBetterTransitive(c: CallOrder, d: CallOrder, e: CallOrder)
    requires 0 < d.debt && NoBetter(c, d) && NoBetter(d, e)
    ensures NoBetter(c, e)
  {
    MulMono(c.collateral * d.debt, d.collateral * c.debt, e.debt);
    MulMono(d.collateral * e.debt, e.collateral * d.debt, c.debt);
    Regroup(c.collateral, d.debt, e.debt);
    Regroup(d.collateral, c.debt, e.debt);
    Regroup(e.collateral, d.debt, c.debt);
    Cancel(c.collateral * e.debt, e.collateral * c.debt, d.debt);
  }

  /** A price the least collateralised position is above, every position is above. */
  lemma LeastBounds(c: CallOrder, d: CallOrder, p: Price)
    requires 0 < c.debt && 0 < d.debt && NoBetter(c, d) && IsAbove(c.collateral, c.debt, p)
    ensures IsAbove(d.collateral, d.debt, p)
  {
    Cancel(p.base * c.debt, c.collateral * p.quote, d.debt);
    MulMono(c.collateral * d.debt, d.collateral * c.debt, p.quote);
    Regroup(p.base, c.debt, d.debt);
    Regroup(c.collateral, p.quote, d.debt);
    Regroup(d.collateral, c.debt, p.quote);
    Cancel(p.base * d.debt, d.collateral * p.quote, c.debt);
  }

  lemma FirstTransitive(c: CallOrder, d: CallOrder, e: CallOrder)
    requires Open(c) && Open(d) && Open(e) && ComesFirst(c, d) && ComesFirst(d, e)
    ensures ComesFirst(c, e)
  {
    hide NoBetter;
    NoBetterTransitive(c, d, e);
    if NoBetter(e, c) {
      NoBetterTransitive(e, c, d);
      NoBetterTransitive(d, e, c);
    }
  }

  /** A non-empty set of open positions has a first one. */
  lemma {:induction false} LeastExists(s: Calls) returns (i: nat)
    requires s != [] && AllOpen(s)
    ensures IsLeast(s, i)
  {
    hide NoBetter;
    NoBetterTotal(s[|s| - 1], s[|s| - 1]);
    if |s| == 1 {
      i := 0;
    } else {
      var t := s[..|s| - 1];
      var last := s[|s| - 1];
      var k := LeastExists(t);
      NoBetterTotal(s[k], last);
      if ComesFirst(s[k], last) {
        i := k;
        forall j | 0 <= j < |s| ensures ComesFirst(s[i], s[j]) {
          if j < |t| { assert s[j] == t[j]; }
        }
      } else {
        i := |s| - 1;
        forall j | 0 <= j < |s| ensures ComesFirst(s[i], s[j]) {
          if j < |t| { assert s[j] == t[j]; FirstTransitive(last, s[k], s[j]); }
        }
      }
    }
  }

  lemma NoBetterTotal(c: CallOrder, d: CallOrder)
    ensures NoBetter(c, d) || NoBetter(d, c)
    ensures NoBetter(c, c)
  {}

  /** `fill_call_order`: the position pays collateral for debt; once the debt is gone it is removed and
      the collateral that is left goes back to the borrower. */
  function FillCall(s: Calls, i: nat, pays: nat, receives: nat): Calls
    requires i < |s| && pays <= s[i].collateral && receives <= s[i].debt
  {
    if receives == s[i].debt then s[..i] + s[i + 1..]
    else s[i := s[i].(debt := s[i].debt - receives, collateral := s[i].collateral - pays)]
  }

  function Freed(c: CallOrder, pays: nat, receives: nat): nat
    requires pays <= c.collateral && receives <= c.debt
  {
    if receives == c.debt then c.collateral - pays else 0
  }

  lemma {:induction false} SumWithoutCall(s: Calls, i: nat)
    requires i < |s|
    ensures SumDebt(s) == s[i].debt + SumDebt(s[..i] + s[i + 1..])
    ensures SumCollateral(s) == s[i].collateral + SumCollateral(s[..i] + s[i + 1..])
  {
    if i == 0 {
      assert s[..0] + s[1..] == s[1..];
    } else {
      SumWithoutCall(s[1..], i - 1);
      assert (s[..i] + s[i + 1..])[1..] == s[1..][..i - 1] + s[1..][i..];
    }
  }

  lemma FillCallSums(s: Calls, i: nat, pays: nat, receives: nat)
    requires i < |s| && pays <= s[i].collateral && receives <= s[i].debt
    ensures var t := FillCall(s, i, pays, receives);
            && SumDebt(t) + receives == SumDebt(s)
            && SumCollateral(t) + pays + Freed(s[i], pays, receives) == SumCollateral(s)
  {
    SumWithoutCall(s, i);
    if receives != s[i].debt {
      var t := FillCall(s, i, pays, receives);
      SumWithoutCall(t, i);
      assert t[..i] + t[i + 1..] == s[..i] + s[i + 1..];
    }
  }

  /** Only position `i` changes: it goes with its debt, or has that much less of both. */
  lemma FillCallIs(s: Calls, i: nat, pays: nat, receives: nat)
    requires i < |s| && pays <= s[i].collateral && receives <= s[i].debt
    ensures var t := FillCall(s, i, pays, receives);
            if receives == s[i].debt then t == Without(s, i)
            else && |t| == |s| && Without(t, i) == Without(s, i)
                 && t[i].collateral + pays == s[i].collateral && t[i].debt + receives == s[i].debt
                 && t[i].id == s[i].id && t[i].borrower == s[i].borrower && t[i].targetRatio == s[i].targetRatio
  {}

  lemma {:induction false} SumAppended(s: Calls, c: CallOrder)
    ensures SumDebt(s + [c]) == SumDebt(s) + c.debt
    ensures SumCollateral(s + [c]) == SumCollateral(s) + c.collateral
  {
    if s == [] {
      assert [] + [c] == [c];
    } else {
      SumAppended(s[1..], c);
      assert (s + [c])[1..] == s[1..] + [c];
    }
  }

  /** A position above a price has the collateral for all of its debt at that price, rounded up. */
  lemma CoversDebt(c: CallOrder, p: Price)
    requires IsAbove(c.collateral, c.debt, p)
    ensures ToBaseUp(c.debt, p) <= c.collateral
  {
    Adjoint(c.debt, p.base, p.quote, c.collateral);
  }

  /** Paying no more than the debt received is worth at `p` keeps a position above `p`. */
  lemma StaysAbove(c: CallOrder, pays: nat, receives: nat, p: Price)
    requires IsAbove(c.collateral, c.debt, p)
    requires pays <= c.collateral && receives <= c.debt
    requires pays * p.quote <= receives * p.base
    ensures IsAbove(c.collateral - pays, c.debt - receives, p)
  {
    Distribute(c.collateral, pays, p.quote);
    Distribute(c.debt, receives, p.base);
  }

  /** How a limit order that sells `forSale` of the debt asset trades with a margin call that wants to
      buy `toBuy`; `None` when the order would pay something for nothing. */
  function CallDeal(forSale: nat, toBuy: nat, at: Price): Option<Deal> {
    if toBuy > forSale then
      var r := ToBase(forSale, at);
      if r == 0 then None else Some(Deal(ToQuoteUp(r, at), r, true))
    else
      Some(Deal(toBuy, ToBaseUp(toBuy, at), false))
  }

  /** The trade stays within both sides, the position stays solvent at the price of the trade, and
      what the smaller order keeps is worth nothing at that price. */
  lemma CallDealIsFair(c: CallOrder, forSale: nat, toBuy: nat, at: Price)
    requires IsAbove(c.collateral, c.debt, at) && 0 < toBuy <= c.debt && 0 < forSale
    ensures match CallDeal(forSale, toBuy, at)
            case None => ToBase(forSale, at) == 0
            case Some(d) =>
              && 0 < d.takerPays <= forSale && d.takerPays <= toBuy
              && 0 < d.takerReceives <= c.collateral
              && (d.takerIsSmaller ==>
                    && d.takerPays < c.debt && d.takerReceives < c.collateral
                    && d.takerReceives * at.quote <= d.takerPays * at.base
                    && d.takerPays * at.base < d.takerReceives * at.quote + at.base
                    && ToBase(forSale - d.takerPays, at) == 0)
              && (!d.takerIsSmaller ==>
                    && d.takerPays == toBuy && d.takerReceives == ToBaseUp(toBuy, at)
                    && d.takerPays * at.base <= d.takerReceives * at.quote)
  {
    CoversDebt(c, at);
    if toBuy > forSale {
      RoundTrip(forSale, at.base, at.quote);
      var r := ToBase(forSale, at);
      if r > 0 {
        var pays := ToQuoteUp(r, at);
        Adjoint(forSale - pays, at.base, at.quote, 1);
        Positive(r, at.quote);
        SmallerThanPosition(c, pays, r, at);
      }
    } else {
      Monotone(toBuy, c.debt, at.base, at.quote);
      Bounds(toBuy, at.base, at.quote);
      Positive(toBuy, at.base);
    }
  }

  lemma SmallerThanPosition(c: CallOrder, pays: nat, r: nat, at: Price)
    requires IsAbove(c.collateral, c.debt, at) && pays < c.debt
    requires pays * at.base < r * at.quote + at.base
    requires r * at.quote <= pays * at.base
    ensures r < c.collateral
  {
    MulMono(pays, c.debt, at.base);
    Cancel(r, c.collateral, at.quote);
  }

  // Margin calls

  /** A bid, in debt / collateral, that a margin call must accept. */
  predicate Eligible(b: LimitOrder, f: Feed) { AtMost(b.price.Invert(), Squeeze(f)) }

  predicate NoneCallable(s: Calls, f: Feed) { forall i :: 0 <= i < |s| ==> !Callable(s[i], f) }

  /** Every position in margin call territory can pay all its debt at the squeeze price. */
  predicate Calm(s: Calls, f: Feed) {
    forall i :: 0 <= i < |s| && Callable(s[i], f) ==> IsAbove(s[i].collateral, s[i].debt, Squeeze(f))
  }

  /** No margin call waits while the best bid is good enough for it. */
  predicate Quiet(bids: seq<LimitOrder>, s: Calls, f: Feed) {
    bids != [] && Eligible(bids[0], f) ==> NoneCallable(s, f)
  }

  /** The debt a margin call on a position wants to buy back at the price `at`: all of it when no target ratio
      is set, or what is best for the target, which is never below maintenance. */
  ghost predicate IsCallSize(c: CallOrder, at: Price, f: Feed, r: nat) {
    && 0 < r <= c.debt
    && (c.targetRatio.None? ==> r == c.debt)
    && (c.targetRatio.Some? ==>
          var ratio := Ratio(c, f.mcr);
          IsBest(c, r, at, f.price, ratio, Scaled(f.price, ratio)))
  }

  /** A margin call that is served in full closes the position or takes it out of margin call territory. */
  method ToBuy(c: CallOrder, at: Price, f: Feed) returns (r: nat)
    requires Open(c) && Callable(c, f)
    ensures 0 < r <= c.debt && IsCallSize(c, at, f, r)
    ensures r < c.debt ==>
              && ToBaseUp(r, at) < c.collateral
              && !Callable(c.(debt := c.debt - r, collateral := c.collateral - ToBaseUp(r, at)), f)
  {
    hide OneLessIsBad, NoPartIsGood, GaveUp, EstimateFits, EndsAtOnce, Numerator, Denominator;
    var ratio := if c.targetRatio.Some? then Ratio(c, f.mcr) else f.mcr;
    var target := Scaled(f.price, ratio);
    BelowMaintenance(c, f.price, at, f.mcr, ratio, Maintenance(f), target);
    var forward;
    r, forward := MaxDebtToCover(c, at, f.price, f.mcr, Maintenance(f), target);
    if r < c.debt {
      AboveTarget(c.collateral - ToBaseUp(r, at), c.debt - r, f, ratio);
    }
  }

  lemma AboveTarget(collateral: nat, debt: nat, f: Feed, ratio: pos)
    requires f.mcr <= ratio && IsAbove(collateral, debt, Scaled(f.price, ratio))
    ensures IsAbove(collateral, debt, Maintenance(f))
  {
    MulMono(f.mcr, ratio, f.price.base);
    MulMono(f.price.base * f.mcr, f.price.base * ratio, debt);
  }

  /** Filling a position leaves open positions; the others are untouched. */
  lemma FillKeepsOpen(s: Calls, i: nat, pays: nat, receives: nat)
    requires AllOpen(s) && i < |s| && receives <= s[i].debt && pays <= s[i].collateral
    requires receives < s[i].debt ==> pays < s[i].collateral
    ensures AllOpen(FillCall(s, i, pays, receives))
  {}

  /** A margin call at the squeeze price keeps every callable position solvent at that price and makes
      no position callable. */
  lemma FillKeepsCalm(s: Calls, i: nat, pays: nat, receives: nat, f: Feed)
    requires AllOpen(s) && Calm(s, f) && i < |s| && receives <= s[i].debt && pays <= s[i].collateral
    requires Callable(s[i], f)
    requires receives < s[i].debt ==>
               || pays * Squeeze(f).quote <= receives * Squeeze(f).base
               || !Callable(s[i].(debt := s[i].debt - receives, collateral := s[i].collateral - pays), f)
    ensures Calm(FillCall(s, i, pays, receives), f)
  {
    if receives < s[i].debt && pays * Squeeze(f).quote <= receives * Squeeze(f).base {
      StaysAbove(s[i], pays, receives, Squeeze(f));
    }
  }

  lemma CalmAt(s: Calls, f: Feed, i: nat)
    requires Calm(s, f) && i < |s| && Callable(s[i], f)
    ensures IsAbove(s[i].collateral, s[i].debt, Squeeze(f))
  {}

  /** A limit order good enough for a margin call, matched with a position at the squeeze price: it gets
      its limit, what is left of the smaller order is culled, and an order that would pay something for
      nothing asks for nothing at its own price. */
  lemma CallMatch(o: LimitOrder, c: CallOrder, toBuy: nat, f: Feed)
    requires IsAbove(c.collateral, c.debt, Squeeze(f)) && Eligible(o, f)
    requires 0 < o.forSale && 0 < toBuy <= c.debt
    requires toBuy < c.debt ==> ToBaseUp(toBuy, Squeeze(f)) < c.collateral
    ensures match CallDeal(o.forSale, toBuy, Squeeze(f))
            case None => o.ToReceive() == 0
            case Some(d) =>
              && 0 < d.takerPays <= o.forSale && d.takerPays <= toBuy
              && d.takerReceives <= c.collateral
              && (d.takerPays < c.debt ==> d.takerReceives < c.collateral)
              && (d.takerIsSmaller ==> d.takerReceives * Squeeze(f).quote <= d.takerPays * Squeeze(f).base)
              && (!d.takerIsSmaller ==> d.takerPays == toBuy && d.takerReceives == ToBaseUp(toBuy, Squeeze(f)))
              && var r := Fill(o, d.takerPays, d.takerIsSmaller);
                 && (d.takerIsSmaller ==> r.Gone?)
                 && (r.Stays? ==> AtLimit(o.price, d.takerPays, d.takerReceives))
                 && (r.Gone? ==>
                       && Executed(o.price, d.takerPays, d.takerReceives, r.refund)
                       && d.takerPays + r.refund == o.forSale)
  {
    var at := Squeeze(f);
    CallDealIsFair(c, o.forSale, toBuy, at);
    match CallDeal(o.forSale, toBuy, at) {
      case None =>
        DustAtWorse(o.forSale, o.price, at.Invert());
      case Some(d) =>
        TakerGetsItsLimit(d.takerPays, d.takerReceives, at, o.price);
        if d.takerIsSmaller {
          DustAtWorse(o.forSale - d.takerPays, o.price, at.Invert());
        }
        if Fill(o, d.takerPays, d.takerIsSmaller).Gone? {
          GoneIsDust(o, d.takerPays, d.takerIsSmaller);
        }
    }
  }

  /** When the least collateralised position is not in margin call territory, none is. */
  lemma LeastNotCallable(s: Calls, i: nat, f: Feed)
    requires AllOpen(s) && IsLeast(s, i) && !Callable(s[i], f)
    ensures NoneCallable(s, f)
  {
    forall j | 0 <= j < |s| ensures !Callable(s[j], f) {
      LeastBounds(s[i], s[j], Maintenance(f));
    }
  }

  lemma AboveLower(c: CallOrder, p: Price, q: Price)
    requires IsAbove(c.collateral, c.debt, p) && Less(q, p)
    ensures IsAbove(c.collateral, c.debt, q)
  {
    MulMono(q.base * p.quote, p.base * q.quote, c.debt);
    Cancel(p.base * c.debt, c.collateral * p.quote, q.quote);
    Regroup(q.base, p.quote, c.debt);
    Regroup(p.base, q.quote, c.debt);
    Regroup(c.collateral, p.quote, q.quote);
    Cancel(q.base * c.debt, c.collateral * q.quote, p.quote);
  }

  /** Paying no more than the debt received is worth at a price the position is above only improves its ratio: it
      stays above every price it is above. */
  lemma OnlyImproves(c: CallOrder, pays: nat, receives: nat, at: Price, q: Price)
    requires IsAbove(c.collateral, c.debt, at) && IsAbove(c.collateral, c.debt, q)
    requires pays <= c.collateral && 0 < receives <= c.debt && pays * at.quote <= receives * at.base
    ensures IsAbove(c.collateral - pays, c.debt - receives, q)
  {
    hide IsAbove, Less;
    if pays * q.quote <= receives * q.base {
      StaysAbove(c, pays, receives, q);
    } else {
      StaysAbove(c, pays, receives, at);
      LowerPrice(pays, receives, at, q);
      AboveLower(c.(collateral := c.collateral - pays, debt := c.debt - receives), at, q);
    }
  }

  /** A price below the one paid is below every price at or above that. */
  lemma LowerPrice(pays: nat, receives: nat, at: Price, q: Price)
    requires 0 < receives && receives * q.base < pays * q.quote && pays * at.quote <= receives * at.base
    ensures Less(q, at)
  {
    Cancel(receives * q.base, pays * q.quote, at.quote);
    MulMono(pays * at.quote, receives * at.base, q.quote);
    Regroup(pays, q.quote, at.quote);
    Associate(receives, q.base, at.quote);
    Associate(receives, at.base, q.quote);
    LessByFactor(receives, q.base * at.quote, at.base * q.quote);
  }

  lemma Associate(x: int, y: int, z: int)
    ensures x * y * z == x * (y * z)
  {}

  lemma LessByFactor(r: nat, x: int, y: int)
    requires 0 < r && r * x < r * y
    ensures x < y
  {
    Cancel(x, y, r);
  }

  /** So it stays out of margin call territory, or solvent at the squeeze price, and no waiting bid finds a margin
      call. */
  lemma ImprovedKeepsMargin(bids: seq<LimitOrder>, s: Calls, i: nat, pays: nat, receives: nat, at: Price, f: Feed)
    requires i < |s| && IsAbove(s[i].collateral, s[i].debt, at) && pays <= s[i].collateral && 0 < receives <= s[i].debt
    requires receives < s[i].debt ==> pays * at.quote <= receives * at.base
    requires Calm(s, f) && Quiet(bids, s, f)
    ensures Calm(FillCall(s, i, pays, receives), f) && Quiet(bids, FillCall(s, i, pays, receives), f)
  {
    hide IsAbove, Scaled;
    if receives < s[i].debt {
      if !Callable(s[i], f) { OnlyImproves(s[i], pays, receives, at, Maintenance(f)); }
      if IsAbove(s[i].collateral, s[i].debt, Squeeze(f)) { OnlyImproves(s[i], pays, receives, at, Squeeze(f)); }
    }
  }
}
