/** The fund of a globally settled asset: what settling takes out of it and how collateral bids share
    it when the asset is revived. */
module Settlement {
  import opened Common
  import opened Prices
  import opened LimitOrders
  import opened DebtToCover
  import opened Books
  import opened Wallets
  import opened Positions

  /** The settlement price: the supply and the fund at the time of the global settlement. */
  datatype Swan = Swan(supply: pos, fund: pos)

  /** The fund covers the supply at the settlement price, and goes with the last unit of it. */
  predicate Backed(s: Swan, supply: nat, fund: nat) {
    && supply * s.fund <= fund * s.supply
    && (supply == 0 ==> fund == 0)
  }

  /** What settling `amount` pays from the fund, and how much of `amount` it takes. */
  function SettledAmount(s: Swan, supply: nat, fund: nat, amount: nat): nat {
    if amount == supply then fund else MulDown(amount, s.fund, s.supply)
  }

  function SettlePays(s: Swan, supply: nat, fund: nat, amount: nat): nat {
    var settled := SettledAmount(s, supply, fund, amount);
    if amount != supply && settled != 0 then MulUp(settled, s.supply, s.fund) else amount
  }

  /** Settling never asks the fund for more than it holds, takes no more than was offered, and leaves
      the rest of the supply backed.  It pays the value of the offer, rounded down, and takes what that is
      worth, rounded up. */
  lemma SettleKeepsBacking(s: Swan, supply: nat, fund: nat, amount: nat)
    requires Backed(s, supply, fund) && 0 < amount <= supply
    ensures var settled := SettledAmount(s, supply, fund, amount);
            var pays := SettlePays(s, supply, fund, amount);
            && settled <= fund && pays <= amount
            && (pays == supply <==> amount == supply)
            && Backed(s, supply - pays, fund - settled)
            && (amount < supply ==>
                  && settled * s.supply <= amount * s.fund < settled * s.supply + s.supply
                  && (0 < settled ==> settled * s.supply <= pays * s.fund < settled * s.supply + s.fund))
  {
    if amount != supply {
      var settled := MulDown(amount, s.fund, s.supply);
      var pays := SettlePays(s, supply, fund, amount);
      Bounds(amount, s.fund, s.supply);
      RoundTrip(amount, s.fund, s.supply);
      MulMono(amount, supply, s.fund);
      Cancel(settled, fund, s.supply);
      assert settled * s.supply <= pays * s.fund;
      Distribute(supply, pays, s.fund);
      Distribute(fund, settled, s.supply);
    }
  }

  datatype CollateralBid = CollateralBid(id: nat, bidder: nat, collateral: pos, debt: pos)

  type Bids = seq<CollateralBid>

  ghost function SumBids(s: Bids): nat {
    if s == [] then 0 else s[0].collateral + SumBids(s[1..])
  }

  lemma {:induction false} SumBidsSplit(s: Bids, n: nat)
    requires n <= |s|
    ensures SumBids(s) == SumBids(s[..n]) + SumBids(s[n..])
  {
    if n == 0 {
      assert s[..0] == [] && s[0..] == s;
    } else {
      SumBidsSplit(s[1..], n - 1);
      assert s[..n][1..] == s[1..][..n - 1] && s[n..] == s[1..][n - 1..];
    }
  }

  /** The debt a bid may take over. */
  function DebtInBid(b: CollateralBid, supply: nat): nat {
    if b.debt > supply then supply else b.debt
  }

  /** Its share of the fund, rounded down. */
  function FundShare(s: Swan, debt: nat): nat { MulDown(debt, s.fund, s.supply) }

  /** The position a bid would open is above the maintenance ratio. */
  predicate Acceptable(s: Swan, b: CollateralBid, supply: nat, f: Feed) {
    var debt := DebtInBid(b, supply);
    IsAbove(FundShare(s, debt) + b.collateral, debt, Maintenance(f))
  }

  /** A bid is acceptable exactly when a position with the debt it bid for, up to the supply, and with its collateral
      and that part of the fund, rounded down, is out of margin call territory. */
  lemma AcceptableIff(s: Swan, b: CollateralBid, supply: nat, f: Feed, c: CallOrder)
    requires c.debt <= b.debt && c.debt <= supply && (c.debt == b.debt || c.debt == supply)
    requires b.collateral <= c.collateral
    requires (c.collateral - b.collateral) * s.supply <= c.debt * s.fund
    requires c.debt * s.fund < (c.collateral - b.collateral) * s.supply + s.supply
    ensures Acceptable(s, b, supply, f) <==> !Callable(c, f)
  {
    hide MulDown, IsAbove, Scaled;
    var share := c.collateral - b.collateral;
    Adjoint(c.debt, s.fund, s.supply, share);
    Adjoint(c.debt, s.fund, s.supply, share + 1);
    assert (share + 1) * s.supply == share * s.supply + s.supply;
  }

  /** Taking over part of a backed debt leaves the rest of it backed. */
  lemma ShareKeepsBacking(s: Swan, toCover: nat, fund: nat, debt: nat)
    requires toCover * s.fund <= fund * s.supply && debt <= toCover
    ensures FundShare(s, debt) <= fund
    ensures (toCover - debt) * s.fund <= (fund - FundShare(s, debt)) * s.supply
  {
    var share := FundShare(s, debt);
    Bounds(debt, s.fund, s.supply);
    MulMono(debt, toCover, s.fund);
    Cancel(share, fund, s.supply);
    Distribute(toCover, debt, s.fund);
    Distribute(fund, share, s.supply);
  }

  /** The last bid takes what is left of debt and fund: with less debt than it bid for and at least a
      proportional part of the fund its position is above maintenance too. */
  lemma LastBidIsAcceptable(s: Swan, b: CollateralBid, supply: nat, toCover: nat, fund: nat, f: Feed)
    requires Acceptable(s, b, supply, f) && 0 < toCover <= DebtInBid(b, supply)
    requires toCover * s.fund <= fund * s.supply
    ensures IsAbove(fund + b.collateral, toCover, Maintenance(f))
  {
    var debt := DebtInBid(b, supply);
    var share := FundShare(s, debt);
    var m := Maintenance(f);
    Bounds(debt, s.fund, s.supply);
    // share / debt <= s.fund / s.supply <= fund / toCover
    Compose(share, s.supply, debt, s.fund, toCover, fund);
    MulMono(toCover, debt, b.collateral);
    // m.base / m.quote < (share + collateral) / debt <= (fund + collateral) / toCover
    var x, y := share + b.collateral, fund + b.collateral;
    SplitProducts(share, fund, b.collateral, toCover, debt);
    Compare(m, x, debt, y, toCover);
  }

  lemma SplitProducts(share: int, fund: int, c: int, toCover: int, debt: int)
    ensures (share + c) * toCover == share * toCover + c * toCover
    ensures (fund + c) * debt == fund * debt + c * debt
  {}

  lemma Compose(share: nat, supply: pos, debt: nat, all: pos, toCover: nat, fund: nat)
    requires share * supply <= debt * all && toCover * all <= fund * supply
    ensures share * toCover <= fund * debt
  {
    MulMono(share * supply, debt * all, toCover);
    MulMono(toCover * all, fund * supply, debt);
    Regroup(share, supply, toCover);
    SwapAll(debt, all, toCover);
    Regroup(fund, supply, debt);
    Cancel(share * toCover, fund * debt, supply);
  }

  lemma SwapAll(x: int, y: int, z: int)
    ensures x * y * z == z * y * x
  {}

  lemma Compare(m: Price, x: nat, debt: pos, y: nat, toCover: pos)
    requires m.base * debt < x * m.quote && x * toCover <= y * debt
    ensures m.base * toCover < y * m.quote
  {
    Cancel(m.base * debt, x * m.quote, toCover);
    MulMono(x * toCover, y * debt, m.quote);
    Regroup(m.base, debt, toCover);
    Regroup(x, m.quote, toCover);
    Regroup(y, debt, m.quote);
    Cancel(m.base * toCover, y * m.quote, debt);
  }

  /** The debt that the first `n` bids cover together. */
  ghost function Covered(bids: Bids, supply: nat, n: nat): nat
    requires n <= |bids|
  {
    if n == 0 then 0 else Covered(bids, supply, n - 1) + DebtInBid(bids[n - 1], supply)
  }

  /** The first `n` bids are all acceptable and cover the supply. */
  ghost predicate Covers(s: Swan, bids: Bids, supply: nat, f: Feed, n: nat) {
    && n <= |bids| && supply <= Covered(bids, supply, n)
    && forall k :: 0 <= k < n ==> Acceptable(s, bids[k], supply, f)
  }

  lemma {:induction false} CoveredGrows(bids: Bids, supply: nat, m: nat, n: nat)
    requires m <= n <= |bids|
    ensures Covered(bids, supply, m) <= Covered(bids, supply, n)
  {
    if m < n { CoveredGrows(bids, supply, m, n - 1); }
  }

  /** The first loop of `process_bids`: how many of the best bids are needed and acceptable. */
  method AcceptedBids(s: Swan, bids: Bids, supply: nat, f: Feed) returns (n: nat, covered: nat)
    ensures n <= |bids| && covered == Covered(bids, supply, n)
    ensures forall k :: 0 <= k < n ==> Acceptable(s, bids[k], supply, f)
    ensures forall k :: 0 <= k < n ==> Covered(bids, supply, k) < supply
    ensures supply <= covered <==> exists m :: Covers(s, bids, supply, f, m)
  {
    hide MulDown, IsAbove, DebtInBid, Acceptable, Covers;
    n, covered := 0, 0;
    while covered < supply && n < |bids|
      invariant n <= |bids| && covered == Covered(bids, supply, n)
      invariant forall k :: 0 <= k < n ==> Acceptable(s, bids[k], supply, f) && Covered(bids, supply, k) < supply
    {
      if !Acceptable(s, bids[n], supply, f) { break; }
      covered := covered + DebtInBid(bids[n], supply);
      n := n + 1;
    }
    PrefixCovers(s, bids, supply, f, n);
  }

  /** If the loop stops because a bid is not acceptable or there are no more, no acceptable prefix covers the supply. */
  lemma PrefixCovers(s: Swan, bids: Bids, supply: nat, f: Feed, n: nat)
    requires n <= |bids| && forall k :: 0 <= k < n ==> Acceptable(s, bids[k], supply, f)
    requires supply <= Covered(bids, supply, n) || n == |bids| || !Acceptable(s, bids[n], supply, f)
    ensures supply <= Covered(bids, supply, n) <==> exists m :: Covers(s, bids, supply, f, m)
  {
    hide Acceptable, DebtInBid;
    if supply <= Covered(bids, supply, n) {
      assert Covers(s, bids, supply, f, n);
    } else {
      forall m: nat | m <= |bids| ensures !Covers(s, bids, supply, f, m) {
        if m <= n { CoveredGrows(bids, supply, m, n); }
      }
    }
  }

  /** The collateral a bid adds per debt. */
  function BidPrice(b: CollateralBid): Price { Price(b.collateral, b.debt) }

  /** The place of a new bid: the most collateral per debt first. */
  function InsertBid(bids: Bids, b: CollateralBid): Bids {
    if bids == [] || Less(BidPrice(bids[0]), BidPrice(b)) then [b] + bids
    else [bids[0]] + InsertBid(bids[1..], b)
  }

  lemma {:induction false} SumInserted(bids: Bids, b: CollateralBid)
    ensures SumBids(InsertBid(bids, b)) == SumBids(bids) + b.collateral
  {
    hide Less;
    var r := InsertBid(bids, b);
    if bids == [] || Less(BidPrice(bids[0]), BidPrice(b)) {
      assert r[1..] == bids;
    } else {
      SumInserted(bids[1..], b);
      assert r[1..] == InsertBid(bids[1..], b);
    }
  }

  /** The best bid comes first. */
  predicate SortedBids(s: Bids) {
    forall i, j :: 0 <= i < j < |s| ==> AtMost(BidPrice(s[j]), BidPrice(s[i]))
  }

  /** A new bid goes behind all bids that add as much collateral per debt and before all others. */
  lemma {:induction false} BidPlace(s: Bids, b: CollateralBid) returns (k: nat)
    requires SortedBids(s)
    ensures k <= |s| && InsertBid(s, b) == s[..k] + [b] + s[k..]
    ensures forall i :: 0 <= i < k ==> AtMost(BidPrice(b), BidPrice(s[i]))
    ensures forall i :: k <= i < |s| ==> Less(BidPrice(s[i]), BidPrice(b))
  {
    hide BidPrice;
    if s == [] || Less(BidPrice(s[0]), BidPrice(b)) {
      k := 0;
      forall i | 0 <= i < |s| ensures Less(BidPrice(s[i]), BidPrice(b)) {
        if i > 0 { LessTransitive(BidPrice(s[i]), BidPrice(s[0]), BidPrice(b)); }
      }
    } else {
      var l := BidPlace(s[1..], b);
      k := l + 1;
      assert s[..k] == [s[0]] + s[1..][..l] && s[k..] == s[1..][l..];
      forall i | 0 <= i < k ensures AtMost(BidPrice(b), BidPrice(s[i])) {
        if i > 0 { assert s[i] == s[1..][i - 1]; }
      }
      forall i | k <= i < |s| ensures Less(BidPrice(s[i]), BidPrice(b)) { assert s[i] == s[1..][i - 1]; }
    }
  }

  lemma InsertedSorted(s: Bids, b: CollateralBid)
    requires SortedBids(s)
    ensures SortedBids(InsertBid(s, b))
  {
    hide Less, AtMost, BidPrice, InsertBid;
    var k := BidPlace(s, b);
    var r := s[..k] + [b] + s[k..];
    forall i, j | 0 <= i < j < |r| ensures AtMost(BidPrice(r[j]), BidPrice(r[i])) {
      if i == k { LessIsAtMost(BidPrice(r[j]), BidPrice(b)); }
    }
  }

  /** Every bidder has the collateral of its bid back. */
  ghost function ReturnBids(w: Wallet, s: Bids): Wallet
    decreases |s|
  {
    if s == [] then w else ReturnBids(Pay(w, s[0].bidder, s[0].collateral), s[1..])
  }

  /** What one account has in a list of bids. */
  ghost function BidsOf(s: Bids, who: nat): nat {
    if s == [] then 0 else (if s[0].bidder == who then s[0].collateral else 0) + BidsOf(s[1..], who)
  }

  lemma {:induction false} ReturnBidsGives(w: Wallet, s: Bids, who: nat)
    ensures BalanceOf(ReturnBids(w, s).balances, who) == BalanceOf(w.balances, who) + BidsOf(s, who)
    decreases |s|
  {
    if s != [] { ReturnBidsGives(Pay(w, s[0].bidder, s[0].collateral), s[1..], who); }
  }
}
