/** The two sides of one market, each ordered from the best price to the worst, older orders first
    among equal prices. */
module Books {
  import opened Common
  import opened Prices
  import opened LimitOrders

  type Side = seq<LimitOrder>

  predicate Sorted(s: Side) {
    forall i, j :: 0 <= i < j < |s| ==> AtMost(s[j].price, s[i].price)
  }

  /** Every order would receive at least one unit at its own price. */
  predicate NoDust(s: Side) {
    forall i :: 0 <= i < |s| ==> 0 < s[i].ToReceive()
  }

  predicate NoCross(x: Side, y: Side) {
    forall i, j :: 0 <= i < |x| && 0 <= j < |y| ==> !Crosses(x[i], y[j])
  }

  /** A book at rest. */
  predicate AtRest(x: Side, y: Side) {
    Sorted(x) && Sorted(y) && NoDust(x) && NoDust(y) && NoCross(x, y)
  }

  /** A book whose front order on side `x` is being matched: everything else is at rest. */
  predicate Matching(x: Side, y: Side) {
    |x| > 0 && 0 < x[0].forSale && Sorted(x) && AtRest(x[1..], y)
  }

  ghost function SumForSale(s: Side): nat {
    if s == [] then 0 else s[0].forSale + SumForSale(s[1..])
  }

  /** The place of a new order on its side. */
  function Insert(s: Side, o: LimitOrder): Side {
    if s == [] || Less(s[0].price, o.price) then [o] + s else [s[0]] + Insert(s[1..], o)
  }

  lemma AtMostTransitive(p: Price, q: Price, r: Price)
    requires AtMost(p, q) && AtMost(q, r)
    ensures AtMost(p, r)
  {
    MulMono(p.base * q.quote, q.base * p.quote, r.quote);
    MulMono(q.base * r.quote, r.base * q.quote, p.quote);
    Regroup(p.base, q.quote, r.quote);
    Regroup(q.base, p.quote, r.quote);
    Regroup(r.base, q.quote, p.quote);
    Cancel(p.base * r.quote, r.base * p.quote, q.quote);
  }

  /** An order at a worse price crosses less. */
  lemma WorseCrossesLess(x: LimitOrder, better: LimitOrder, y: LimitOrder)
    requires AtMost(x.price, better.price)
    requires Crosses(x, y)
    ensures Crosses(better, y)
  {
    AtMostTransitive(better.price.Invert(), x.price.Invert(), y.price);
  }

  lemma CrossesBetter(x: LimitOrder, y: LimitOrder, better: LimitOrder)
    requires AtMost(y.price, better.price)
    requires Crosses(x, y)
    ensures Crosses(x, better)
  {
    AtMostTransitive(x.price.Invert(), y.price, better.price);
  }

  lemma LessIsAtMost(p: Price, q: Price)
    requires Less(p, q)
    ensures AtMost(p, q)
  {}

  lemma {:induction false} InsertMembers(s: Side, o: LimitOrder)
    ensures forall x :: x in Insert(s, o) <==> x in s || x == o
    ensures SumForSale(Insert(s, o)) == SumForSale(s) + o.forSale
  {
    hide Less;
    var r := Insert(s, o);
    if s == [] || Less(s[0].price, o.price) {
      assert r == [o] + s && r[1..] == s;
    } else {
      InsertMembers(s[1..], o);
      assert r == [s[0]] + Insert(s[1..], o) && r[1..] == Insert(s[1..], o);
      assert s == [s[0]] + s[1..];
    }
  }

  lemma SortedCons(o: LimitOrder, s: Side)
    requires Sorted(s) && forall x :: x in s ==> AtMost(x.price, o.price)
    ensures Sorted([o] + s)
  {}

  lemma {:induction false} InsertKeepsOrder(s: Side, o: LimitOrder)
    requires Sorted(s)
    ensures Sorted(Insert(s, o))
    ensures if s == [] || Less(s[0].price, o.price) then Insert(s, o) == [o] + s
            else |Insert(s, o)| > 0 && Insert(s, o)[0] == s[0]
  {
    hide Less;
    if s == [] || Less(s[0].price, o.price) {
      if s != [] { LessIsAtMost(s[0].price, o.price); }
      forall x | x in s ensures AtMost(x.price, o.price) {
        var j :| 0 <= j < |s| && s[j] == x;
        if j > 0 { AtMostTransitive(s[j].price, s[0].price, o.price); }
      }
      SortedCons(o, s);
    } else {
      InsertKeepsOrder(s[1..], o);
      InsertMembers(s[1..], o);
      SortedCons(s[0], Insert(s[1..], o));
    }
  }

  /** An order that does not go to the front of its side leaves the book at rest without matching. */
  lemma BehindTheFront(x: Side, y: Side, o: LimitOrder)
    requires AtRest(x, y) && 0 < o.ToReceive()
    requires x != [] && !Less(x[0].price, o.price)
    ensures AtRest(Insert(x, o), y)
  {
    var r := Insert(x, o);
    InsertKeepsOrder(x, o);
    InsertMembers(x, o);
    forall i | 0 <= i < |r|
      ensures 0 < r[i].ToReceive()
      ensures forall j :: 0 <= j < |y| ==> !Crosses(r[i], y[j])
    {
      if r[i] == o {
        forall j | 0 <= j < |y| ensures !Crosses(o, y[j]) {
          if Crosses(o, y[j]) { WorseCrossesLess(o, x[0], y[j]); }
        }
      } else {
        assert r[i] in r;
        var k :| 0 <= k < |x| && x[k] == r[i];
      }
    }
  }

  /** What one match of the front orders of two sides does. */
  datatype Matched = Matched(own: Side, other: Side, bits: nat,
                             takerPays: nat, takerReceives: nat, takerRefund: nat, makerRefund: nat)

  function Replaced(s: Side, r: Remainder): Side
    requires s != []
  {
    match r
    case Stays(o) => s[0 := o]
    case Gone(_) => s[1..]
  }

  function RefundOf(r: Remainder): nat {
    match r
    case Stays(_) => 0
    case Gone(refund) => refund
  }

  /** `match` of two limit orders; the taker is the front of `own`, the maker the front of `other`. */
  function MatchFronts(own: Side, other: Side): Matched
    requires own != [] && other != []
  {
    match DealOf(own[0], other[0])
    case None => Matched(own, other, 1, 0, 0, 0, 0)
    case Some(d) =>
      DealIsFair(own[0], other[0]);
      var t := Fill(own[0], d.takerPays, d.takerIsSmaller);
      var m := Fill(other[0], d.takerReceives, true);
      Matched(Replaced(own, t), Replaced(other, m), ResultBits(t, m),
              d.takerPays, d.takerReceives, RefundOf(t), RefundOf(m))
  }

  lemma SumReplaced(s: Side, r: Remainder, pays: nat, cullIfSmall: bool)
    requires s != [] && pays <= s[0].forSale && r == Fill(s[0], pays, cullIfSmall)
    ensures SumForSale(Replaced(s, r)) + pays + RefundOf(r) == SumForSale(s)
  {
    if r.Stays? { assert Replaced(s, r)[1..] == s[1..]; }
  }

  /** Changing only the amount of the front order, or dropping it, keeps the order of a side. */
  lemma ReplacedSorted(s: Side, r: Remainder)
    requires s != [] && Sorted(s)
    requires r.Stays? ==> r.order.price == s[0].price
    ensures Sorted(Replaced(s, r))
  {}

  /** A match with a crossing maker always removes an order; it conserves what both sides hold; a
      taker that stays leaves a book in which the maker is gone; and a taker that receives nothing for
      all it sells is dust at its own price. */
  lemma MatchFrontsKeeps(own: Side, other: Side)
    requires Matching(own, other) && other != [] && Crosses(own[0], other[0])
    ensures var m := MatchFronts(own, other);
            && m.bits != 0
            && (m.other != [] ==> AtMost(m.other[0].price, other[0].price))
            && SumForSale(m.own) + m.takerPays + m.takerRefund == SumForSale(own)
            && SumForSale(m.other) + m.takerReceives + m.makerRefund == SumForSale(other)
            && (DealOf(own[0], other[0]).None? ==>
                  m.own == own && m.other == other && own[0].ToReceive() == 0 && m.bits == 1 && m.takerPays == 0)
            && (DealOf(own[0], other[0]).Some? ==>
                  && 0 < m.takerPays && 0 < m.takerReceives
                  && m.takerPays + m.takerRefund <= own[0].forSale
                  && (m.bits == 2 ==>
                        && Matching(m.own, m.other) && m.other == other[1..]
                        && m.own == own[0 := own[0].(forSale := own[0].forSale - m.takerPays)]
                        && m.takerRefund == 0)
                  && (m.bits != 2 ==>
                        && m.own == own[1..] && AtRest(m.own, m.other)
                        && m.takerPays + m.takerRefund == own[0].forSale
                        && ToQuote(m.takerRefund, own[0].price) == 0))
  {
    var m := MatchFronts(own, other);
    AtMostTransitive(other[0].price, other[0].price, other[0].price);
    if DealOf(own[0], other[0]).None? {
      MatchRemovesSmaller(own[0], other[0]);
    } else {
      var d := DealOf(own[0], other[0]).value;
      DealIsFair(own[0], other[0]);
      MatchRemovesSmaller(own[0], other[0]);
      var t := Fill(own[0], d.takerPays, d.takerIsSmaller);
      var k := Fill(other[0], d.takerReceives, true);
      SumReplaced(own, t, d.takerPays, d.takerIsSmaller);
      SumReplaced(other, k, d.takerReceives, true);
      ReplacedSorted(own, t);
      ReplacedSorted(other, k);
      ReplacedAtRest(own[1..], other, k);
      if t.Gone? { GoneIsDust(own[0], d.takerPays, d.takerIsSmaller); }
    }
  }

  lemma GoneIsDust(o: LimitOrder, pays: nat, cullIfSmall: bool)
    requires pays <= o.forSale && Fill(o, pays, cullIfSmall).Gone?
    ensures var refund := Fill(o, pays, cullIfSmall).refund;
            pays + refund == o.forSale && ToQuote(refund, o.price) == 0
  {
    Adjoint(0, o.price.quote, o.price.base, 1);
  }

  ghost predicate AtLimit(limit: Price, paid: nat, received: nat) {
    paid * limit.quote <= received * limit.base
  }

  /** What an order got: all it paid was sold at its limit price, but for less than one unit, and what
      was refunded is worth nothing at that price. */
  ghost predicate Executed(limit: Price, paid: nat, received: nat, refund: nat) {
    && paid * limit.quote < received * limit.base + limit.quote
    && ToQuote(refund, limit) == 0
  }

  lemma ExecutesNothing(limit: Price)
    ensures AtLimit(limit, 0, 0) && Executed(limit, 0, 0, 0)
  {
    Adjoint(0, limit.quote, limit.base, 1);
  }

  lemma Accumulate(limit: Price, paid: nat, received: nat, p: nat, r: nat, refund: nat)
    requires AtLimit(limit, paid, received)
    ensures AtLimit(limit, p, r) ==> AtLimit(limit, paid + p, received + r)
    ensures Executed(limit, p, r, refund) ==> Executed(limit, paid + p, received + r, refund)
  {
    assert (paid + p) * limit.quote == paid * limit.quote + p * limit.quote;
    assert (received + r) * limit.base == received * limit.base + r * limit.base;
  }

  lemma ExecutedAtLimit(limit: Price, paid: nat, received: nat, refund: nat)
    requires AtLimit(limit, paid, received) && ToQuote(refund, limit) == 0
    ensures Executed(limit, paid, received, refund)
  {}

  /** A taker that stays got its limit price or better; one that goes is short of it by less than one
      unit of what it sells. */
  lemma MatchedAtLimit(own: Side, other: Side)
    requires Matching(own, other) && other != [] && Crosses(own[0], other[0])
    ensures var m, limit := MatchFronts(own, other), own[0].price;
            && (m.bits == 2 ==> AtLimit(limit, m.takerPays, m.takerReceives))
            && Executed(limit, m.takerPays, m.takerReceives, m.takerRefund)
  {
    var m := MatchFronts(own, other);
    MatchFrontsKeeps(own, other);
    Adjoint(0, own[0].price.quote, own[0].price.base, 1);
    if DealOf(own[0], other[0]).Some? {
      DealIsFair(own[0], other[0]);
      MatchRemovesSmaller(own[0], other[0]);
      TakerGetsItsLimit(m.takerPays, m.takerReceives, other[0].price, own[0].price);
    }
  }

  lemma ReplacedAtRest(x: Side, other: Side, r: Remainder)
    requires other != [] && AtRest(x, other)
    requires r.Stays? ==> r.order.price == other[0].price && 0 < r.order.ToReceive()
    ensures AtRest(x, Replaced(other, r))
  {
    var y := Replaced(other, r);
    ReplacedSorted(other, r);
    forall i, j | 0 <= i < |x| && 0 <= j < |y| ensures !Crosses(x[i], y[j]) {
      assert y[j].price == (if r.Stays? then other[j].price else other[j + 1].price);
      assert Crosses(x[i], y[j]) == Crosses(x[i], if r.Stays? then other[j] else other[j + 1]);
    }
  }

  /** When the front order no longer crosses and is not dust, or is dropped, the book is at rest. */
  lemma MatchingDone(x: Side, y: Side)
    requires Matching(x, y)
    requires y == [] || !Crosses(x[0], y[0])
    ensures 0 < x[0].ToReceive() ==> AtRest(x, y)
    ensures AtRest(x[1..], y)
  {
    forall j | 0 <= j < |y| ensures !Crosses(x[0], y[j]) {
      if Crosses(x[0], y[j]) && j > 0 { CrossesBetter(x[0], y[j], y[0]); }
    }
    assert forall i :: 0 < i < |x| ==> x[i] == x[1..][i - 1];
  }

  /** A new order at the front of its side, before it is matched. */
  lemma NewFront(x: Side, y: Side, o: LimitOrder)
    requires AtRest(x, y) && 0 < o.forSale && (x == [] || Less(x[0].price, o.price))
    ensures Insert(x, o)[1..] == x && Insert(x, o)[0] == o && Matching(Insert(x, o), y)
  {
    InsertKeepsOrder(x, o);
    assert ([o] + x)[1..] == x;
  }

  /** A new order goes behind all orders at its price or better and before all others. */
  lemma {:induction false} InsertPlace(s: Side, o: LimitOrder) returns (k: nat)
    requires Sorted(s)
    ensures k <= |s| && Insert(s, o) == s[..k] + [o] + s[k..]
    ensures forall i :: 0 <= i < k ==> AtMost(o.price, s[i].price)
    ensures forall i :: k <= i < |s| ==> Less(s[i].price, o.price)
  {
    if s == [] || Less(s[0].price, o.price) {
      k := 0;
      forall i | 0 <= i < |s| ensures Less(s[i].price, o.price) {
        if i > 0 { LessTransitive(s[i].price, s[0].price, o.price); }
      }
    } else {
      var l := InsertPlace(s[1..], o);
      k := l + 1;
      assert s[..k] == [s[0]] + s[1..][..l] && s[k..] == s[1..][l..];
      forall i | 0 <= i < k ensures AtMost(o.price, s[i].price) {
        if i > 0 { assert s[i] == s[1..][i - 1]; }
      }
      forall i | k <= i < |s| ensures Less(s[i].price, o.price) { assert s[i] == s[1..][i - 1]; }
    }
  }

  lemma LessTransitive(p: Price, q: Price, r: Price)
    requires AtMost(p, q) && Less(q, r)
    ensures Less(p, r)
  {
    MulMono(p.base * q.quote, q.base * p.quote, r.quote);
    Cancel(q.base * r.quote, r.base * q.quote, p.quote);
    Regroup(p.base, q.quote, r.quote);
    Regroup(q.base, p.quote, r.quote);
    Regroup(r.base, q.quote, p.quote);
    Cancel(p.base * r.quote, r.base * p.quote, q.quote);
  }

  // Taking one order out of the book

  lemma {:induction false} SumWithoutOrder(s: Side, i: nat)
    requires i < |s|
    ensures SumForSale(s) == s[i].forSale + SumForSale(Without(s, i))
  {
    if i == 0 {
      assert Without(s, 0) == s[1..];
    } else {
      SumWithoutOrder(s[1..], i - 1);
      assert Without(s, i)[1..] == Without(s[1..], i - 1);
    }
  }

  lemma WithoutOrderAtRest(x: Side, y: Side, i: nat)
    requires AtRest(x, y) && i < |x|
    ensures AtRest(Without(x, i), y)
    ensures Without(x, i) != [] ==> AtMost(Without(x, i)[0].price, x[0].price)
  {
    hide AtMost, Crosses;
    var t := Without(x, i);
    forall j | 0 <= j < |t| ensures t[j] == x[if j < i then j else j + 1] {}
    assert Sorted(t);
    if t != [] && i > 0 { AtMostReflexive(x[0].price); }
  }

  lemma AtMostReflexive(p: Price)
    ensures AtMost(p, p)
  {}
}
