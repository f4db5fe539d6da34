/** Limit orders, what one match between two of them exchanges, and what is left of each. */
module LimitOrders {
  import opened Common
  import opened Prices

  /** An offer to sell `forSale` at `price.base` of the asset sold for `price.quote` of the other. */
  datatype LimitOrder = LimitOrder(id: nat, seller: nat, forSale: nat, price: Price) {
    /** What the order would receive at its own price. */
    function ToReceive(): nat { ToQuote(forSale, price) }
  }

  /** The two orders sell opposite assets; the price of one is at least the inverse of the other's. */
  predicate Crosses(x: LimitOrder, y: LimitOrder) {
    AtMost(x.price.Invert(), y.price)
  }

  /** The exchange decided by a match: the maker pays what the taker receives and the reverse. */
  datatype Deal = Deal(takerPays: nat, takerReceives: nat, takerIsSmaller: bool)

  /** The match of a taker with a maker at the maker's price; `None` when the taker would pay
      something for nothing. */
  function DealOf(taker: LimitOrder, maker: LimitOrder): Option<Deal> {
    var p := maker.price;
    if taker.forSale <= ToQuote(maker.forSale, p) then
      var r := ToBase(taker.forSale, p);
      if r == 0 then None else Some(Deal(ToQuoteUp(r, p), r, true))
    else
      var c := ToQuote(maker.forSale, p);
      Some(Deal(c, ToBaseUp(c, p), false))
  }

  /** What becomes of an order: it stays with less to sell, or it goes and `refund` is returned. */
  datatype Remainder = Stays(order: LimitOrder) | Gone(refund: nat)

  /** `maybe_cull_small_order`: an order that would receive nothing at its own price is cancelled. */
  function Cull(o: LimitOrder): Remainder {
    if o.ToReceive() == 0 then Gone(o.forSale) else Stays(o)
  }

  /** `fill_limit_order` as far as the order itself is concerned. */
  function Fill(o: LimitOrder, pays: nat, cullIfSmall: bool): Remainder
    requires pays <= o.forSale
  {
    var left := o.(forSale := o.forSale - pays);
    if pays == o.forSale then Gone(0)
    else if cullIfSmall then Cull(left)
    else Stays(left)
  }

  /** The bit field a match returns: 1 for a taker that is gone, 2 for a maker that is gone. */
  function ResultBits(taker: Remainder, maker: Remainder): nat {
    (if taker.Gone? then 1 else 0) + (if maker.Gone? then 2 else 0)
  }

  /** At every price and for every pair of sizes a deal takes no more than either order holds; the
      larger order trades at the match price or better and the smaller one overpays by less than
      one unit; what the smaller order keeps is worth nothing at the match price. */
  lemma DealIsFair(taker: LimitOrder, maker: LimitOrder)
    requires DealOf(taker, maker).Some?
    ensures var p, d := maker.price, DealOf(taker, maker).value;
            && d.takerPays <= taker.forSale
            && d.takerReceives <= maker.forSale
            && (d.takerIsSmaller ==>
                  && 0 < d.takerReceives
                  && d.takerReceives * p.quote <= d.takerPays * p.base < d.takerReceives * p.quote + p.base
                  && ToBase(taker.forSale - d.takerPays, p) == 0)
            && (!d.takerIsSmaller ==>
                  && d.takerPays * p.base <= d.takerReceives * p.quote < d.takerPays * p.base + p.quote
                  && ToQuote(maker.forSale - d.takerReceives, p) == 0)
  {
    var p := maker.price;
    if taker.forSale <= ToQuote(maker.forSale, p) {
      SmallerTaker(taker.forSale, maker.forSale, p);
    } else {
      RoundTrip(maker.forSale, p.quote, p.base);
      Adjoint(maker.forSale - ToBaseUp(ToQuote(maker.forSale, p), p), p.quote, p.base, 1);
    }
  }

  lemma SmallerTaker(t: nat, m: nat, p: Price)
    requires t <= ToQuote(m, p)
    ensures var r := ToBase(t, p);
            var c := ToQuoteUp(r, p);
            && r <= m && c <= t
            && r * p.quote <= c * p.base < r * p.quote + p.base
            && ToBase(t - c, p) == 0
  {
    var r := ToBase(t, p);
    RoundTrip(t, p.base, p.quote);
    Adjoint(t - ToQuoteUp(r, p), p.base, p.quote, 1);
    Bounds(t, p.base, p.quote);
    Adjoint(m, p.quote, p.base, t);
    Cancel(r, m, p.quote);
  }

  /** When the two orders cross, what is left of the smaller one is always culled, so a match always
      removes an order: bit 1 if the taker is the smaller, bit 2 otherwise.  When the taker would
      receive nothing for all it sells, it asks for nothing at its own price either, and the cull
      that follows the matching removes it. */
  lemma MatchRemovesSmaller(taker: LimitOrder, maker: LimitOrder)
    requires Crosses(taker, maker)
    requires 0 < maker.ToReceive()
    ensures var deal := DealOf(taker, maker);
            match deal
            case None => taker.ToReceive() == 0
            case Some(d) =>
              && 0 < d.takerPays <= taker.forSale
              && 0 < d.takerReceives <= maker.forSale
              && var t := Fill(taker, d.takerPays, d.takerIsSmaller);
                 var m := Fill(maker, d.takerReceives, true);
                 && (d.takerIsSmaller ==> t.Gone?)
                 && (!d.takerIsSmaller ==> m.Gone? && (t.Gone? <==> d.takerPays == taker.forSale))
                 && ResultBits(t, m) != 0
  {
    var p := maker.price;
    if DealOf(taker, maker).None? {
      DustAtWorse(taker.forSale, taker.price, p.Invert());
    } else {
      DealIsFair(taker, maker);
      var d := DealOf(taker, maker).value;
      if d.takerIsSmaller {
        DustAtWorse(taker.forSale - d.takerPays, taker.price, p.Invert());
        Positive(d.takerReceives, p.quote);
      } else {
        Positive(d.takerPays, p.base);
      }
    }
  }

  /** A taker that pays `paid` and receives `received` at a price no worse than its own gets its own
      limit price, short of less than one unit of what it pays when it is the smaller side. */
  lemma TakerGetsItsLimit(paid: nat, received: nat, at: Price, limit: Price)
    requires AtMost(limit.Invert(), at)
    ensures paid * at.base <= received * at.quote ==> paid * limit.quote <= received * limit.base
    ensures paid * at.base < received * at.quote + at.base ==>
              paid * limit.quote < received * limit.base + limit.quote
  {
    ScaleDown(paid, received, at, limit);
    if paid > 0 {
      ScaleDown(paid - 1, received, at, limit);
    }
  }

  lemma Positive(x: nat, y: pos)
    requires 0 < x
    ensures 0 < x * y
  {}

  lemma ScaleDown(x: nat, y: nat, at: Price, limit: Price)
    requires limit.quote * at.quote <= at.base * limit.base
    ensures x * at.base <= y * at.quote ==> x * limit.quote <= y * limit.base
    ensures x * at.base < y * at.quote ==> x * limit.quote < y * limit.base
  {
    MulMono(limit.quote * at.quote, at.base * limit.base, x);
    Cancel(x * at.base, y * at.quote, limit.base);
    Cancel(x * limit.quote, y * limit.base, at.quote);
    assert x * limit.quote * at.quote <= x * at.base * limit.base;
    assert y * limit.base * at.quote == y * at.quote * limit.base;
  }
}
