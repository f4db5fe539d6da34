/** Forced settlement: holders of a market-issued asset exchange it at the feed price with the least
    collateralised positions, up to a share of the supply in each maintenance interval.

    All prices are in collateral / debt.
 */
module ForcedSettlement {
  import opened Common
  import opened Prices
  import opened LimitOrders
  import opened DebtToCover
  import opened Books
  import opened Positions
  import opened Wallets

  datatype SettleOrder = SettleOrder(id: nat, asset: nat, date: nat, owner: nat, balance: nat)

  // One settlement order against one position

  datatype Terms = Nothing(cancel: bool) | Trade(pays: nat, receives: nat, cull: bool)

  /** What a position of `debt` pays and receives when an order of `balance` settles at most `most`. */
  function TermsOf(balance: nat, most: nat, debt: nat, at: Price): Terms {
    var receives := Min(Min(balance, most), debt);
    var pays := ToBase(receives, at);
    if pays == 0 then
      if receives == debt then Trade(1, receives, false) else Nothing(receives == balance)
    else if receives == debt then
      Trade(ToBaseUp(receives, at), receives, false)
    else
      var charged := ToQuoteUp(pays, at);
      Trade(pays, charged, receives == balance && charged != balance)
  }

  /** A trade never takes more than the position, the order or the limit hold; the position stays above
      the price; and whatever is left of the order or of the limit is worth nothing unless the position
      is closed.  Nothing is traded only when the order or the limit is worth nothing. */
  lemma TermsAreFair(c: CallOrder, balance: nat, most: nat, at: Price)
    requires Open(c) && IsAbove(c.collateral, c.debt, at) && 0 < balance && 0 < most
    ensures match TermsOf(balance, most, c.debt, at)
            case Nothing(cancel) =>
              Min(balance, most) < c.debt && ToBase(Min(balance, most), at) == 0 && cancel == (balance <= most)
            case Trade(pays, receives, cull) =>
              && 0 < pays <= c.collateral && 0 < receives <= c.debt && receives <= Min(balance, most)
              && (receives == c.debt ==> receives * at.base <= pays * at.quote && !cull)
              && (receives < c.debt ==>
                    && pays < c.collateral && IsAbove(c.collateral - pays, c.debt - receives, at)
                    && pays * at.quote <= receives * at.base < pays * at.quote + at.base
                    && ToBase(Min(balance, most) - receives, at) == 0
                    && cull == (receives < balance <= most))
  {
    var receives := Min(Min(balance, most), c.debt);
    var pays := ToBase(receives, at);
    CoversDebt(c, at);
    Bounds(receives, at.base, at.quote);
    Positive(receives, at.base);
    if receives == c.debt {
      Adjoint(receives, at.base, at.quote, 1);
    } else if pays > 0 {
      RoundTrip(receives, at.base, at.quote);
      var charged := ToQuoteUp(pays, at);
      Positive(pays, at.quote);
      Adjoint(receives - charged, at.base, at.quote, 1);
      SmallerThanPosition(c, charged, pays, at);
      StaysAbove(c, pays, charged, at);
    }
  }

  /** After a trade that completes neither side, what remains of the limit buys nothing: the next match
      trades nothing unless it closes a position no larger than what remains. */
  lemma NextMatch(balance: nat, most: nat, debt: nat, nextDebt: nat, at: Price)
    requires 0 < most < balance && 0 < nextDebt
    requires var t := TermsOf(balance, most, debt, at); t.Trade? && t.receives < debt && t.receives < most
    ensures var t := TermsOf(balance, most, debt, at);
            t.receives < most &&
            (TermsOf(balance - t.receives, most - t.receives, nextDebt, at).Nothing? <==> most - t.receives < nextDebt)
  {
    var receives := Min(most, debt);
    RoundTrip(receives, at.base, at.quote);
    var t := TermsOf(balance, most, debt, at);
    Adjoint(most - t.receives, at.base, at.quote, 1);
    var next := Min(most - t.receives, nextDebt);
    Monotone(next, most - t.receives, at.base, at.quote);
  }

  /** So a match may settle something after one that could not use up the limit: filling the least
      collateralised position can leave a small one as the least. */
  lemma NextMatchMaySettle()
    ensures var at := Price(1, 10);
            var s := [CallOrder(0, 0, 10, 52, None), CallOrder(1, 1, 1, 5, None)];
            var t := FillCall(s, 0, 2, 20);
            && TermsOf(100, 25, 52, at) == Trade(2, 20, false) && IsLeast(s, 0) && IsAbove(1, 5, at)
            && TermsOf(80, 5, 5, at) == Trade(1, 5, false) && IsLeast(t, 1)
  {
    var s := [CallOrder(0, 0, 10, 52, None), CallOrder(1, 1, 1, 5, None)];
    var t := FillCall(s, 0, 2, 20);
    assert t == [CallOrder(0, 0, 8, 32, None), CallOrder(1, 1, 1, 5, None)];
  }

  // The assets

  /** `bids` are the limit orders that sell the asset for its backing asset. */
  datatype Bitasset = Bitasset(bids: Side, calls: Calls, supply: nat, settled: nat, swan: bool, feed: Option<Feed>,
                               offset: nat, maxPercent: nat, debtWallet: Wallet, collateralWallet: Wallet)

  function Discounted(p: Price, offset: nat): Price
    requires offset < FULL_PERCENT
  {
    Positive(p.base, FULL_PERCENT - offset);
    Price(p.base * (FULL_PERCENT - offset), p.quote * FULL_PERCENT)
  }

  /** The feed price less the settlement offset. */
  function FillPrice(b: Bitasset): Price
    requires b.feed.Some? && b.offset < FULL_PERCENT
  {
    Discounted(b.feed.value.price, b.offset)
  }

  /** `max_force_settlement_volume`, given the supply plus the volume settled already. */
  function MaxVolume(volume: nat, percent: nat): nat {
    if percent == 0 then 0
    else if percent == FULL_PERCENT then volume
    else volume * percent / FULL_PERCENT
  }

  function Cap(b: Bitasset): nat { MaxVolume(b.supply + b.settled, b.maxPercent) }

  /** The cap is the configured share, rounded down. */
  lemma CapIsShare(b: Bitasset, v: nat)
    ensures v <= Cap(b) <==> v * FULL_PERCENT <= (b.supply + b.settled) * b.maxPercent
  {
    Adjoint(b.supply + b.settled, b.maxPercent, FULL_PERCENT, v);
    Cancel(v, b.supply + b.settled, FULL_PERCENT);
  }

  /** What margin calls leave behind: callable positions can pay all their debt at the squeeze price, and none of them
      waits while the best bid is good enough. */
  predicate Margin(b: Bitasset) {
    !b.swan && b.feed.Some? ==>
      && RATIO_DENOM <= b.feed.value.mcr && RATIO_DENOM <= b.feed.value.mssr
      && Calm(b.calls, b.feed.value) && Quiet(b.bids, b.calls, b.feed.value)
  }

  /** Where margin calls are settled, every position is above the settlement price. */
  lemma MarginIsAbove(b: Bitasset)
    requires Margin(b) && !b.swan && b.feed.Some? && b.offset < FULL_PERCENT
    ensures AllAbove(b.calls, FillPrice(b))
  {
    hide IsAbove, Scaled, Quiet;
    var f := b.feed.value;
    forall i | 0 <= i < |b.calls| ensures IsAbove(b.calls[i].collateral, b.calls[i].debt, FillPrice(b)) {
      var ratio := if Callable(b.calls[i], f) then f.mssr else f.mcr;
      assert IsAbove(b.calls[i].collateral, b.calls[i].debt, Scaled(f.price, ratio));
      AboveFeed(b.calls[i], f.price, ratio);
      AboveDiscounted(b.calls[i], f.price, b.offset);
    }
  }

  lemma AboveFeed(c: CallOrder, p: Price, ratio: pos)
    requires RATIO_DENOM <= ratio && IsAbove(c.collateral, c.debt, Scaled(p, ratio))
    ensures IsAbove(c.collateral, c.debt, p)
  {
    MulMono(RATIO_DENOM, ratio, p.base * c.debt);
    assert p.base * ratio * c.debt == ratio * (p.base * c.debt);
    Cancel(p.base * c.debt, c.collateral * p.quote, RATIO_DENOM);
  }

  lemma AboveDiscounted(c: CallOrder, p: Price, offset: nat)
    requires offset < FULL_PERCENT && IsAbove(c.collateral, c.debt, p)
    ensures IsAbove(c.collateral, c.debt, Discounted(p, offset))
  {
    var percent := FULL_PERCENT - offset;
    MulMono(percent, FULL_PERCENT, p.base * c.debt);
    assert p.base * percent * c.debt == percent * (p.base * c.debt);
    Cancel(p.base * c.debt, c.collateral * p.quote, FULL_PERCENT);
    assert c.collateral * (p.quote * FULL_PERCENT) == c.collateral * p.quote * FULL_PERCENT;
  }

  // The settlement orders

  predicate Before(o: SettleOrder, p: SettleOrder) {
    o.asset < p.asset || (o.asset == p.asset && (o.date < p.date || (o.date == p.date && o.id < p.id)))
  }

  predicate InOrder(s: seq<SettleOrder>) {
    forall i, j :: 0 <= i < j < |s| ==> Before(s[i], s[j])
  }

  /** The first order of asset `a` or a later one. */
  function From(s: seq<SettleOrder>, a: nat): (k: nat)
    ensures k <= |s| && (forall i :: 0 <= i < k ==> s[i].asset < a) && (k < |s| ==> a <= s[k].asset)
  {
    if s == [] || a <= s[0].asset then 0 else 1 + From(s[1..], a)
  }

  /** The amount waiting to be settled in asset `a`. */
  ghost function Pending(s: seq<SettleOrder>, a: nat): nat {
    if s == [] then 0 else (if s[0].asset == a then s[0].balance else 0) + Pending(s[1..], a)
  }

  lemma {:induction false} PendingSplit(s: seq<SettleOrder>, k: nat, a: nat)
    requires k < |s|
    ensures Pending(s, a) == Pending(s[..k] + s[k + 1..], a) + (if s[k].asset == a then s[k].balance else 0)
  {
    if k == 0 {
      assert s[..0] + s[1..] == s[1..];
    } else {
      PendingSplit(s[1..], k - 1, a);
      assert (s[..k] + s[k + 1..])[1..] == s[1..][..k - 1] + s[1..][k..];
    }
  }

  lemma PendingUpdated(s: seq<SettleOrder>, k: nat, balance: nat, a: nat)
    requires k < |s|
    ensures var t := s[k := s[k].(balance := balance)];
            Pending(t, a) + (if s[k].asset == a then s[k].balance else 0)
              == Pending(s, a) + (if s[k].asset == a then balance else 0)
  {
    var t := s[k := s[k].(balance := balance)];
    PendingSplit(s, k, a);
    PendingSplit(t, k, a);
    assert t[..k] + t[k + 1..] == s[..k] + s[k + 1..];
  }

  /** The orders of asset `a`, the first to be served first. */
  ghost function OrdersOf(s: seq<SettleOrder>, a: nat): seq<SettleOrder> {
    if s == [] then [] else (if s[0].asset == a then [s[0]] else []) + OrdersOf(s[1..], a)
  }

  lemma {:induction false} OrdersOfBoth(s: seq<SettleOrder>, t: seq<SettleOrder>, a: nat)
    ensures OrdersOf(s + t, a) == OrdersOf(s, a) + OrdersOf(t, a)
  {
    if s == [] {
      assert s + t == t;
    } else {
      OrdersOfBoth(s[1..], t, a);
      assert (s + t)[1..] == s[1..] + t && (s + t)[0] == s[0];
      var x, y, z := if s[0].asset == a then [s[0]] else [], OrdersOf(s[1..], a), OrdersOf(t, a);
      assert OrdersOf(s + t, a) == x + (y + z);
      assert x + (y + z) == (x + y) + z;
    }
  }

  lemma {:induction false} NoOrdersOf(s: seq<SettleOrder>, a: nat)
    requires forall i :: 0 <= i < |s| ==> s[i].asset != a
    ensures OrdersOf(s, a) == []
  {
    if s != [] { NoOrdersOf(s[1..], a); }
  }

  lemma OneOrder(o: SettleOrder, a: nat)
    ensures OrdersOf([o], a) == if o.asset == a then [o] else []
  {}

  lemma OrdersAround(front: seq<SettleOrder>, o: SettleOrder, rest: seq<SettleOrder>, a: nat)
    ensures OrdersOf(front + [o] + rest, a) == Around(OrdersOf(front, a), o, OrdersOf(rest, a), a)
  {
    hide OrdersOf;
    OneOrder(o, a);
    OrdersOfBoth(front + [o], rest, a);
    OrdersOfBoth(front, [o], a);
  }

  function Around(front: seq<SettleOrder>, o: SettleOrder, rest: seq<SettleOrder>, a: nat): (r: seq<SettleOrder>)
    ensures a != o.asset ==> r == front + rest
    ensures a == o.asset && front == [] ==> r == [o] + rest
  {
    front + (if o.asset == a then [o] else []) + rest
  }

  /** The orders of an asset without order `k` or with another balance of it. */
  lemma OrdersOfAt(s: seq<SettleOrder>, k: nat, a: nat, balance: nat)
    requires k < |s|
    ensures a != s[k].asset ==> OrdersOf(Without(s, k), a) == OrdersOf(s, a)
    ensures a != s[k].asset ==> OrdersOf(WithBalance(s, k, balance), a) == OrdersOf(s, a)
    ensures (forall i :: 0 <= i < k ==> s[i].asset != a) && a == s[k].asset ==>
              && |OrdersOf(s, a)| > 0 && OrdersOf(s, a)[0] == s[k]
              && OrdersOf(Without(s, k), a) == OrdersOf(s, a)[1..]
              && OrdersOf(WithBalance(s, k, balance), a) == [s[k].(balance := balance)] + OrdersOf(s, a)[1..]
  {
    hide OrdersOf;
    var front, o, rest := s[..k], s[k], s[k + 1..];
    assert s == front + [o] + rest;
    assert Without(s, k) == front + rest;
    assert WithBalance(s, k, balance) == front + [o.(balance := balance)] + rest;
    OrdersAround(front, o, rest, a);
    OrdersAround(front, o.(balance := balance), rest, a);
    OrdersOfBoth(front, rest, a);
    if forall i :: 0 <= i < k ==> s[i].asset != a { NoOrdersOf(front, a); }
    hide Around, Without, WithBalance;
  }

  /** The queue `q` has been served from its front: some orders are gone, the next may be smaller, and the others are
      as they were.  Only orders that are due were served, unless the asset is globally settled. */
  ghost predicate Shortened(q: seq<SettleOrder>, q': seq<SettleOrder>, swan: bool, now: nat) {
    && |q'| <= |q|
    && var n := |q| - |q'|;
       && (forall i :: 0 <= i < n ==> swan || q[i].date <= now)
       && (forall i :: 0 < i < |q'| ==> q'[i] == q[n + i])
       && (q' != [] ==>
             && q'[0] == q[n].(balance := q'[0].balance) && q'[0].balance <= q[n].balance
             && (q'[0].balance < q[n].balance ==> swan || q[n].date <= now))
  }

  lemma ShortenedNext(q: seq<SettleOrder>, q1: seq<SettleOrder>, q2: seq<SettleOrder>, swan: bool, now: nat)
    requires Shortened(q, q1, swan, now) && Shortened(q1, q2, swan, now)
    ensures Shortened(q, q2, swan, now)
  {
    var n, m := |q| - |q1|, |q1| - |q2|;
    forall i | 0 <= i < n + m ensures swan || q[i].date <= now {
      if n <= i { assert q1[i - n].date == q[i].date; }
    }
    forall i | 0 < i < |q2| ensures q2[i] == q[n + m + i] { assert q2[i] == q1[m + i]; }
  }

  /** What the owners of `n` served orders have back is, for each of them, worth nothing at the price. */
  ghost predicate DustOnly(w: Wallet, w': Wallet, at: Price, n: int) {
    (Total(w') - Total(w)) * at.base <= n * (at.quote - 1)
  }

  lemma DustOnlyNext(w: Wallet, w1: Wallet, w2: Wallet, at: Price, n: int, m: int)
    requires DustOnly(w, w1, at, n) && DustOnly(w1, w2, at, m)
    ensures DustOnly(w, w2, at, n + m)
  {
    hide Total;
    var x, y: int := Total(w1) - Total(w), Total(w2) - Total(w1);
    assert (x + y) * at.base == x * at.base + y * at.base;
    assert (n + m) * (at.quote - 1) == n * (at.quote - 1) + m * (at.quote - 1);
  }

  /** What service does to an asset and its queue.  Where there is a feed, orders are settled and only what is worth
      nothing is returned; where there is none, or the asset is globally settled, nothing is settled. */
  ghost predicate Served(q: seq<SettleOrder>, b: Bitasset, q': seq<SettleOrder>, b': Bitasset, now: nat) {
    && Shortened(q, q', b.swan, now)
    && (b.swan || b.feed.None? ==> b'.calls == b.calls && b'.supply == b.supply)
    && (!b.swan && b.feed.Some? && b.offset < FULL_PERCENT ==>
          DustOnly(b.debtWallet, b'.debtWallet, FillPrice(b), |q| - |q'|))
  }

  lemma ServedNext(q: seq<SettleOrder>, b: Bitasset, q1: seq<SettleOrder>, b1: Bitasset,
                   q2: seq<SettleOrder>, b2: Bitasset, now: nat)
    requires Served(q, b, q1, b1, now) && Served(q1, b1, q2, b2, now)
    requires b1.swan == b.swan && b1.feed == b.feed && b1.offset == b.offset
    ensures Served(q, b, q2, b2, now)
  {
    hide Shortened, DustOnly, Discounted;
    ShortenedNext(q, q1, q2, b.swan, now);
    if !b.swan && b.feed.Some? && b.offset < FULL_PERCENT {
      DustOnlyNext(b.debtWallet, b1.debtWallet, b2.debtWallet, FillPrice(b), |q| - |q1|, |q1| - |q2|);
    }
  }

  lemma ServedNothing(q: seq<SettleOrder>, b: Bitasset, now: nat)
    ensures Served(q, b, q, b, now)
  {}

  /** Whether order `k` is gone or smaller, the asset has been served. */
  lemma ServedFront(s: seq<SettleOrder>, t: seq<SettleOrder>, b: Bitasset, b': Bitasset, k: nat, now: nat, gone: bool)
    requires k < |s| && (forall i :: 0 <= i < k ==> s[i].asset != s[k].asset) && (b.swan || s[k].date <= now)
    requires if gone then t == Without(s, k)
             else |t| == |s| && t == WithBalance(s, k, t[k].balance) && t[k].balance <= s[k].balance
    requires b.swan || b.feed.None? ==> b'.calls == b.calls && b'.supply == b.supply
    requires !b.swan && b.feed.Some? && b.offset < FULL_PERCENT ==>
               ReturnsDust(b.debtWallet, b'.debtWallet, FillPrice(b), gone)
    ensures Served(OrdersOf(s, s[k].asset), b, OrdersOf(t, s[k].asset), b', now)
  {
    hide OrdersOf, Without, WithBalance, Discounted, Total, DustOnly, ReturnsDust, Shortened;
    var a := s[k].asset;
    var balance := if gone then 0 else t[k].balance;
    OrdersOfAt(s, k, a, balance);
    FrontShortened(OrdersOf(s, a), OrdersOf(t, a), b.swan, now, gone, balance);
    if !b.swan && b.feed.Some? && b.offset < FULL_PERCENT {
      FrontDust(b.debtWallet, b'.debtWallet, FillPrice(b), gone);
    }
  }

  lemma FrontShortened(q: seq<SettleOrder>, q': seq<SettleOrder>, swan: bool, now: nat, gone: bool, balance: nat)
    requires q != [] && (swan || q[0].date <= now)
    requires if gone then q' == q[1..] else q' == [q[0].(balance := balance)] + q[1..] && balance <= q[0].balance
    ensures Shortened(q, q', swan, now)
  {}

  lemma FrontDust(w: Wallet, w': Wallet, at: Price, gone: bool)
    requires ReturnsDust(w, w', at, gone)
    ensures DustOnly(w, w', at, if gone then 1 else 0)
  {
    hide Total;
  }

  /** An order that stays returns nothing to its owner; one that goes, nothing of worth. */
  ghost predicate ReturnsDust(w: Wallet, w': Wallet, at: Price, gone: bool) {
    if gone then (Total(w') - Total(w)) * at.base < at.quote else w' == w
  }

  /** The lifecycle of an asset, and what margin calls leave behind. */
  ghost predicate SoundAsset(b: Bitasset, pending: nat) {
    && ValidWallet(b.debtWallet) && ValidWallet(b.collateralWallet)
    && b.offset < FULL_PERCENT && b.maxPercent <= FULL_PERCENT && AllOpen(b.calls)
    && (if b.swan then b.calls == [] else SumDebt(b.calls) == b.supply)
    && pending + Total(b.debtWallet) + SumForSale(b.bids) == b.supply && Margin(b)
  }

  /** Nothing is created or lost in either asset, and the settings stay. */
  ghost predicate Kept(b: Bitasset, pending: nat, b': Bitasset, pending': nat) {
    && b'.bids == b.bids && b'.swan == b.swan && b'.feed == b.feed
    && b'.offset == b.offset && b'.maxPercent == b.maxPercent
    && pending' + Total(b'.debtWallet) - b'.supply == pending + Total(b.debtWallet) - b.supply
    && SumCollateral(b'.calls) + Total(b'.collateralWallet) == SumCollateral(b.calls) + Total(b.collateralWallet)
  }

  type Assets = map<nat, Bitasset>

  ghost predicate SoundAssets(s: seq<SettleOrder>, m: Assets) {
    && InOrder(s)
    && (forall i :: 0 <= i < |s| ==> 0 < s[i].balance && s[i].asset in m)
    && (forall a :: a in m ==> SoundAsset(m[a], Pending(s, a)))
  }

  /** One asset changed: the others keep their orders. */
  lemma OneAsset(s: seq<SettleOrder>, m: Assets, t: seq<SettleOrder>, b: Bitasset, a: nat)
    requires SoundAssets(s, m) && a in m && InOrder(t)
    requires forall i :: 0 <= i < |t| ==> 0 < t[i].balance && t[i].asset in m
    requires forall c :: c != a ==> Pending(t, c) == Pending(s, c)
    requires SoundAsset(b, Pending(t, a))
    ensures SoundAssets(t, m[a := b])
  {
    forall c | c in m[a := b] ensures SoundAsset(m[a := b][c], Pending(t, c)) {}
  }

  // What a match does to the asset and to the order

  /** The part of the order's balance that leaves it: all of it when the order goes. */
  function Released(o: SettleOrder, t: Terms): nat {
    match t
    case Nothing(cancel) => if cancel then o.balance else 0
    case Trade(_, receives, cull) => if cull then o.balance else receives
  }

  function Settles(t: Terms): nat { if t.Trade? then t.receives else 0 }

  predicate TermsFit(b: Bitasset, i: nat, o: SettleOrder, t: Terms) {
    i < |b.calls| && (t.Trade? ==> t.pays <= b.calls[i].collateral && t.receives <= b.calls[i].debt
                                   && t.receives <= o.balance && t.receives <= b.supply)
  }

  function AfterMatch(b: Bitasset, i: nat, o: SettleOrder, t: Terms): Bitasset
    requires TermsFit(b, i, o, t) && ValidWallet(b.collateralWallet)
  {
    match t
    case Nothing(cancel) => if cancel then b.(debtWallet := Pay(b.debtWallet, o.owner, o.balance)) else b
    case Trade(pays, receives, cull) =>
      var c := b.calls[i];
      var freed := Pay(b.collateralWallet, c.borrower, Freed(c, pays, receives));
      b.(calls := FillCall(b.calls, i, pays, receives), supply := b.supply - receives,
         collateralWallet := ReceiveUnshared(freed, o.owner, pays),
         debtWallet := if cull then Pay(b.debtWallet, o.owner, o.balance - receives) else b.debtWallet)
  }

  /** What account `who` has gained when order `o` was matched with position `c`: the owner of the order the
      collateral less the market fee, and what is returned of the order; the borrower of a closed position the
      collateral that is left; nobody else anything. */
  predicate Gained(b: Bitasset, b': Bitasset, c: CallOrder, o: SettleOrder, t: Terms, who: nat) {
    && BalanceOf(b'.collateralWallet.balances, who) == BalanceOf(b.collateralWallet.balances, who)
         + (if t.Trade? && who == o.owner then t.pays - MarketFee(b.collateralWallet.options, t.pays) else 0)
         + (if t.Trade? && who == c.borrower && t.receives == c.debt then c.collateral - t.pays else 0)
    && BalanceOf(b'.debtWallet.balances, who) == BalanceOf(b.debtWallet.balances, who)
         + (if who != o.owner then 0
            else if t.Trade? then (if t.cull then o.balance - t.receives else 0)
            else if t.cancel then o.balance else 0)
  }

  lemma MatchPays(b: Bitasset, i: nat, o: SettleOrder, t: Terms, who: nat)
    requires TermsFit(b, i, o, t) && ValidWallet(b.collateralWallet)
    ensures Gained(b, AfterMatch(b, i, o, t), b.calls[i], o, t, who)
  {
    hide MarketFee;
  }

  lemma WorthNothing(x: nat, at: Price)
    ensures ToBase(x, at) == 0 <==> x * at.base < at.quote
  {
    Adjoint(x, at.base, at.quote, 1);
  }

  lemma MatchKeeps(b: Bitasset, pending: nat, i: nat, o: SettleOrder, most: nat)
    requires SoundAsset(b, pending) && !b.swan && b.feed.Some? && i < |b.calls|
    requires 0 < o.balance <= pending && 0 < most
    ensures var t := TermsOf(o.balance, most, b.calls[i].debt, FillPrice(b));
            TermsFit(b, i, o, t) && ValidWallet(b.collateralWallet) && Released(o, t) <= o.balance &&
            var b' := AfterMatch(b, i, o, t);
            var p' := pending - Released(o, t);
            && SoundAsset(b', p') && Kept(b, pending, b', p')
            && b'.settled == b.settled && b'.supply + Settles(t) == b.supply
            && (t.Trade? ==> 0 < t.receives <= most)
            && (t.Nothing? && !t.cancel ==> ToBase(most, FillPrice(b)) == 0)
            && ReturnsDust(b.debtWallet, b'.debtWallet, FillPrice(b), Released(o, t) == o.balance)
            && forall who :: Gained(b, b', b.calls[i], o, t, who)
  {
    hide TermsOf, Discounted, ToBase, IsAbove, Total, ReceiveUnshared, Pay, SumDebt, SumCollateral, SumForSale;
    hide Calm, Quiet, Gained;
    var at := FillPrice(b);
    var c := b.calls[i];
    MarginIsAbove(b);
    TermsAreFair(c, o.balance, most, at);
    var t := TermsOf(o.balance, most, c.debt, at);
    match t {
      case Nothing(cancel) =>
        PayTotal(b.debtWallet, o.owner, o.balance);
        WorthNothing(o.balance, at);
      case Trade(pays, receives, cull) =>
        var freed := Freed(c, pays, receives);
        FillCallSums(b.calls, i, pays, receives);
        FillKeepsOpen(b.calls, i, pays, receives);
        ImprovedKeepsMargin(b.bids, b.calls, i, pays, receives, at, b.feed.value);
        PayTotal(b.collateralWallet, c.borrower, freed);
        ReceiveUnsharedTotal(Pay(b.collateralWallet, c.borrower, freed), o.owner, pays);
        PayTotal(b.debtWallet, o.owner, o.balance - receives);
        WorthNothing(o.balance - receives, at);
    }
    forall who ensures Gained(b, AfterMatch(b, i, o, t), c, o, t, who) { MatchPays(b, i, o, t, who); }
  }

  /** An asset with an order waiting has a position: its supply is all debt. */
  lemma PositionExists(b: Bitasset, pending: nat)
    requires SoundAsset(b, pending) && !b.swan && 0 < pending
    ensures b.calls != []
  {}

  /** The asset's volume for this interval is used up, or what is left of it is worth nothing. */
  predicate Exhausted(b: Bitasset)
  {
    b.settled >= Cap(b) ||
    (b.feed.Some? && b.offset < FULL_PERCENT && ToBase(Cap(b) - b.settled, FillPrice(b)) == 0)
  }

  /** Why an order may still be waiting after the settlement loop. */
  predicate MayWait(o: SettleOrder, b: Bitasset, now: nat) {
    !b.swan && (o.date <= now ==> b.feed.Some? && Exhausted(b))
  }

  function WithBalance(s: seq<SettleOrder>, k: nat, balance: nat): seq<SettleOrder>
    requires k < |s|
  {
    s[k := s[k].(balance := balance)]
  }

  /** All assets but `a` and their orders are untouched; nothing is lost in `a`. */
  ghost predicate OneAssetKept(s: seq<SettleOrder>, m: Assets, s': seq<SettleOrder>, m': Assets, a: nat) {
    && a in m && a in m' && m' == m[a := m'[a]]
    && (forall c :: c != a ==> Pending(s', c) == Pending(s, c) && OrdersOf(s', c) == OrdersOf(s, c))
    && Kept(m[a], Pending(s, a), m'[a], Pending(s', a))
  }

  /** The volume counts what was settled, and stays within the cap. */
  predicate WithinCap(b: Bitasset, b': Bitasset) {
    && b'.supply + b'.settled == b.supply + b.settled
    && b.settled <= b'.settled && (b'.settled == b.settled || b'.settled <= Cap(b))
  }

  ghost predicate AllKept(s: seq<SettleOrder>, m: Assets, s': seq<SettleOrder>, m': Assets, now: nat) {
    m'.Keys == m.Keys &&
    forall a :: a in m ==> && Kept(m[a], Pending(s, a), m'[a], Pending(s', a)) && WithinCap(m[a], m'[a])
                           && Served(OrdersOf(s, a), m[a], OrdersOf(s', a), m'[a], now)
  }

  lemma AllKeptNext(s: seq<SettleOrder>, m: Assets, s1: seq<SettleOrder>, m1: Assets,
                    s2: seq<SettleOrder>, m2: Assets, a: nat, now: nat)
    requires AllKept(s, m, s1, m1, now) && OneAssetKept(s1, m1, s2, m2, a) && WithinCap(m1[a], m2[a])
    requires Served(OrdersOf(s1, a), m1[a], OrdersOf(s2, a), m2[a], now)
    ensures AllKept(s, m, s2, m2, now)
  {
    hide Kept, WithinCap, Pending, Served, OrdersOf;
    forall c | c in m ensures && Kept(m[c], Pending(s, c), m2[c], Pending(s2, c)) && WithinCap(m[c], m2[c])
                              && Served(OrdersOf(s, c), m[c], OrdersOf(s2, c), m2[c], now)
    {
      if c == a {
        KeptNext(m[a], Pending(s, a), m1[a], Pending(s1, a), m2[a], Pending(s2, a));
        ServedNext(OrdersOf(s, a), m[a], OrdersOf(s1, a), m1[a], OrdersOf(s2, a), m2[a], now);
      }
    }
  }

  lemma KeptNext(b: Bitasset, p: nat, b1: Bitasset, p1: nat, b2: Bitasset, p2: nat)
    requires Kept(b, p, b1, p1) && WithinCap(b, b1) && Kept(b1, p1, b2, p2) && WithinCap(b1, b2)
    ensures Kept(b, p, b2, p2) && WithinCap(b, b2)
    ensures b1.swan == b.swan && b1.feed == b.feed && b1.offset == b.offset
  {
    hide MaxVolume, Total, SumCollateral;
  }

  lemma LeastOf(b: Bitasset, pending: nat)
    requires SoundAsset(b, pending) && !b.swan && 0 < pending
    ensures exists i :: 0 <= i < |b.calls| && IsLeast(b.calls, i)
  {
    PositionExists(b, pending);
    var i := LeastExists(b.calls);
  }

  /** The result of a match with position `i`. */
  ghost predicate SettledAs(b: Bitasset, i: nat, o: SettleOrder, most: nat, at: Price, b': Bitasset, settled: nat,
                      gone: bool)
  {
    && i < |b.calls| && ValidWallet(b.collateralWallet)
    && var t := TermsOf(o.balance, most, b.calls[i].debt, at);
       && TermsFit(b, i, o, t) && b' == AfterMatch(b, i, o, t)
       && settled == Settles(t) && gone == (Released(o, t) == o.balance)
       && forall who :: Gained(b, b', b.calls[i], o, t, who)
  }

  lemma SettledAsIs(b: Bitasset, i: nat, o: SettleOrder, most: nat, at: Price)
    requires i < |b.calls| && ValidWallet(b.collateralWallet)
    requires TermsFit(b, i, o, TermsOf(o.balance, most, b.calls[i].debt, at))
    ensures var t := TermsOf(o.balance, most, b.calls[i].debt, at);
            SettledAs(b, i, o, most, at, AfterMatch(b, i, o, t), Settles(t), Released(o, t) == o.balance)
  {
    hide TermsOf, Gained, AfterMatch;
    var t := TermsOf(o.balance, most, b.calls[i].debt, at);
    forall who ensures Gained(b, AfterMatch(b, i, o, t), b.calls[i], o, t, who) { MatchPays(b, i, o, t, who); }
  }

  lemma StayInOrder(s: seq<SettleOrder>, k: nat, balance: nat)
    requires InOrder(s) && k < |s|
    ensures InOrder(Without(s, k)) && InOrder(WithBalance(s, k, balance))
  {
    var t, u := Without(s, k), WithBalance(s, k, balance);
    forall i, j | 0 <= i < j < |t| ensures Before(t[i], t[j]) {
      var i', j' := if i < k then i else i + 1, if j < k then j else j + 1;
      assert t[i] == s[i'] && t[j] == s[j'];
    }
    forall i, j | 0 <= i < j < |u| ensures Before(u[i], u[j]) {
      assert Before(s[i], s[j]);
    }
  }

  lemma OrdersAfter(s: seq<SettleOrder>, m: Assets, k: nat, gone: bool, balance: nat)
    requires SoundAssets(s, m) && k < |s| && (gone || 0 < balance <= s[k].balance)
    ensures var t := if gone then Without(s, k) else WithBalance(s, k, balance);
            && InOrder(t) && (forall i :: 0 <= i < |t| ==> 0 < t[i].balance && t[i].asset in m)
            && (forall c :: c != s[k].asset ==> Pending(t, c) == Pending(s, c) && OrdersOf(t, c) == OrdersOf(s, c))
            && Pending(t, s[k].asset) + s[k].balance == Pending(s, s[k].asset) + if gone then 0 else balance
  {
    hide SoundAsset, InOrder, OrdersOf;
    var t := if gone then Without(s, k) else WithBalance(s, k, balance);
    StayInOrder(s, k, balance);
    forall i | 0 <= i < |t| ensures 0 < t[i].balance && t[i].asset in m {
      assert t[i] == s[i] || t[i] == s[k].(balance := balance) || (i + 1 < |s| && t[i] == s[i + 1]);
    }
    forall a ensures Pending(t, a) + (if a == s[k].asset then s[k].balance else 0)
                     == Pending(s, a) + (if a == s[k].asset && !gone then balance else 0)
             ensures a != s[k].asset ==> OrdersOf(t, a) == OrdersOf(s, a)
    {
      OrdersOfAt(s, k, a, balance);
      PendingSplit(s, k, a);
      PendingUpdated(s, k, balance, a);
    }
  }

  function AfterOrders(s: seq<SettleOrder>, k: nat, t: Terms): seq<SettleOrder>
    requires k < |s| && Released(s[k], t) <= s[k].balance
  {
    if Released(s[k], t) == s[k].balance then Without(s, k)
    else WithBalance(s, k, s[k].balance - Settles(t))
  }

  lemma AssetOf(s: seq<SettleOrder>, m: Assets, k: nat)
    requires SoundAssets(s, m) && k < |s|
    ensures var a := s[k].asset;
            && a in m && SoundAsset(m[a], Pending(s, a)) && 0 < s[k].balance <= Pending(s, a)
  {
    PendingSplit(s, k, s[k].asset);
  }

  lemma MatchStep(s: seq<SettleOrder>, m: Assets, k: nat, i: nat, most: nat, at: Price)
    requires SoundAssets(s, m) && k < |s| && 0 < most
    requires var b := m[s[k].asset];
             !b.swan && b.feed.Some? && b.offset < FULL_PERCENT && at == FillPrice(b) && i < |b.calls|
    ensures var o, b := s[k], m[s[k].asset];
            var t := TermsOf(o.balance, most, b.calls[i].debt, at);
            && TermsFit(b, i, o, t) && ValidWallet(b.collateralWallet) && Released(o, t) <= o.balance
            && var b' := AfterMatch(b, i, o, t);
               && SoundAssets(AfterOrders(s, k, t), m[o.asset := b'])
               && OneAssetKept(s, m, AfterOrders(s, k, t), m[o.asset := b'], o.asset)
               && b'.settled == b.settled && b'.supply + Settles(t) == b.supply
               && ReturnsDust(b.debtWallet, b'.debtWallet, at, Released(o, t) == o.balance)
               && Settles(t) <= most && (t.Trade? ==> 0 < Settles(t))
               && (t.Nothing? && !t.cancel ==> ToBase(most, at) == 0)
  {
    hide SoundAssets, SoundAsset, AfterMatch, TermsOf, InOrder, FillPrice, ToBase, Kept, Pending, Without, WithBalance;
    hide IsAbove, ReturnsDust, OrdersOf, Gained;
    AssetOf(s, m, k);
    var o, b := s[k], m[s[k].asset];
    MatchKeeps(b, Pending(s, o.asset), i, o, most);
    var t := TermsOf(o.balance, most, b.calls[i].debt, at);
    OrdersAfter(s, m, k, Released(o, t) == o.balance, o.balance - Settles(t));
    OneAsset(s, m, AfterOrders(s, k, t), AfterMatch(b, i, o, t), o.asset);
  }

  /** What the price and the cap of asset `a` depend on stays. */
  predicate SameTerms(m: Assets, m': Assets, a: nat) {
    && a in m && a in m' && m'[a].swan == m[a].swan && m'[a].feed == m[a].feed && m'[a].offset == m[a].offset
    && m'[a].maxPercent == m[a].maxPercent
  }

  lemma KeptRefl(s: seq<SettleOrder>, m: Assets, a: nat)
    requires a in m
    ensures OneAssetKept(s, m, s, m, a)
  {}

  lemma KeptStep(s: seq<SettleOrder>, m: Assets, s1: seq<SettleOrder>, m1: Assets,
                 s2: seq<SettleOrder>, m2: Assets, a: nat)
    requires OneAssetKept(s, m, s1, m1, a) && OneAssetKept(s1, m1, s2, m2, a)
    ensures OneAssetKept(s, m, s2, m2, a) && SameTerms(m, m2, a)
  {}

  /** Recording the settled volume of asset `a`. */
  lemma Recorded(s: seq<SettleOrder>, m: Assets, s1: seq<SettleOrder>, m1: Assets, a: nat, settled: nat)
    requires SoundAssets(s1, m1) && OneAssetKept(s, m, s1, m1, a)
    ensures var m2 := m1[a := m1[a].(settled := settled)];
            SoundAssets(s1, m2) && OneAssetKept(s, m, s1, m2, a) && SameTerms(m, m2, a)
  {
    OneAsset(s1, m1, s1, m1[a].(settled := settled), a);
  }

  // The outer loop

  ghost predicate PassedOrders(s: seq<SettleOrder>, m: Assets, k: nat, now: nat) {
    k <= |s| && forall i :: 0 <= i < k ==> s[i].asset in m && MayWait(s[i], m[s[i].asset], now)
  }

  /** A due order that cannot be settled further. */
  ghost predicate StuckOrder(s: seq<SettleOrder>, m: Assets, k: nat, now: nat) {
    k < |s| && s[k].date <= now && s[k].asset in m &&
    var b := m[s[k].asset]; !b.swan && b.feed.Some? && Exhausted(b)
  }

  ghost predicate CapReached(s: seq<SettleOrder>, m: Assets, k: nat) {
    k < |s| && s[k].asset in m && var b := m[s[k].asset]; Cap(b) <= b.settled
  }

  /** Everything that holds between two passes: the orders before `k` may wait. */
  ghost predicate Progress(s0: seq<SettleOrder>, m0: Assets, s: seq<SettleOrder>, m: Assets, k: nat, current: nat,
                           now: nat)
  {
    SoundAssets(s, m) && AllKept(s0, m0, s, m, now) && k == From(s, current) && PassedOrders(s, m, k, now)
  }

  lemma Start(s: seq<SettleOrder>, m: Assets, now: nat)
    requires SoundAssets(s, m)
    ensures AllKept(s, m, s, m, now)
    ensures s != [] ==> Progress(s, m, s, m, From(s, s[0].asset), s[0].asset, now)
  {}

  /** The order a pass looks at is the first of its asset. */
  lemma Look(s0: seq<SettleOrder>, m0: Assets, s: seq<SettleOrder>, m: Assets, k: nat, current: nat, now: nat)
    requires Progress(s0, m0, s, m, k, current, now) && k < |s|
    ensures var a := s[k].asset;
            Progress(s0, m0, s, m, k, a, now) && k == From(s, a) && SoundAssets(s, m) && a in m
            && (StuckOrder(s, m, k, now) ==> Exhausted(m[a]) && !m[a].swan && m[a].feed.Some?)
            && (Cap(m[a]) <= m[a].settled ==> Exhausted(m[a]))
            && CapReached(s, m, k) == (Cap(m[a]) <= m[a].settled)
  {
    hide SoundAsset, InOrder, Pending, AllKept, MaxVolume;
    FrontOf(s, s[k].asset, k);
  }

  /** `k` is the first order of its own asset. */
  lemma FrontOf(s: seq<SettleOrder>, a: nat, k: nat)
    requires k < |s| && s[k].asset == a && forall i :: 0 <= i < k ==> s[i].asset < a
    ensures From(s, a) == k
  {}

  lemma Later(s: seq<SettleOrder>, k: nat, i: nat)
    requires InOrder(s) && k < i < |s|
    ensures s[k].asset <= s[i].asset && (s[k].asset == s[i].asset ==> s[k].date <= s[i].date)
  {
    assert Before(s[k], s[i]);
  }

  /** All orders of the asset of order `k` may wait when that order may. */
  lemma SkipAsset(s0: seq<SettleOrder>, m0: Assets, s: seq<SettleOrder>, m: Assets, k: nat, now: nat)
    requires k < |s| && Progress(s0, m0, s, m, k, s[k].asset, now) && s[k].asset in m
    requires var b := m[s[k].asset]; !b.swan && (s[k].date > now || (b.feed.Some? && Exhausted(b)))
    ensures var up := From(s, s[k].asset + 1);
            && k < up
            && (up < |s| ==> From(s, s[up].asset) == up && Progress(s0, m0, s, m, up, s[up].asset, now))
            && (up == |s| ==> Done(s0, m0, s, m, now))
  {
    hide SoundAssets, Exhausted, Pending, AllKept, InOrder;
    InOrderOf(s, m);
    var up := From(s, s[k].asset + 1);
    forall i | 0 <= i < up ensures s[i].asset in m && MayWait(s[i], m[s[i].asset], now) {
      if k < i { Later(s, k, i); }
    }
    if up < |s| { FrontOf(s, s[up].asset, up); }
  }

  ghost predicate Done(s0: seq<SettleOrder>, m0: Assets, s: seq<SettleOrder>, m: Assets, now: nat) {
    SoundAssets(s, m) && AllKept(s0, m0, s, m, now) && PassedOrders(s, m, |s|, now)
  }

  /** Changing the asset of order `k` and that order leaves the passed orders as they were. */
  lemma StillPassed(s: seq<SettleOrder>, m: Assets, s': seq<SettleOrder>, m': Assets, k: nat, now: nat)
    requires PassedOrders(s, m, k, now) && k < |s| && k <= |s'| && s'[..k] == s[..k]
    requires k == From(s, s[k].asset) && s[k].asset in m' && m' == m[s[k].asset := m'[s[k].asset]]
    ensures PassedOrders(s', m', k, now)
  {
    forall i | 0 <= i < k ensures s'[i].asset in m' && MayWait(s'[i], m'[s'[i].asset], now) {
      assert s'[i] == s'[..k][i] == s[..k][i] == s[i];
    }
  }

  lemma FrontStays(s: seq<SettleOrder>, t: seq<SettleOrder>, k: nat)
    requires InOrder(s) && k < |s| && k == From(s, s[k].asset)
    requires t == Without(s, k) || (|t| == |s| && t == WithBalance(s, k, t[k].balance))
    ensures From(t, s[k].asset) == k && t[..k] == s[..k]
    ensures |t| == |s| ==> t[k] == s[k].(balance := t[k].balance)
  {
    var a := s[k].asset;
    assert t[..k] == s[..k];
    forall i | 0 <= i < k ensures t[i].asset < a { assert t[i] == t[..k][i] == s[..k][i]; }
    if k < |t| && |t| < |s| {
      assert t[k] == s[k + 1];
      assert Before(s[k], s[k + 1]);
    }
  }

  lemma AfterCancel(s0: seq<SettleOrder>, m0: Assets, s: seq<SettleOrder>, m: Assets,
                    t: seq<SettleOrder>, n: Assets, k: nat, now: nat)
    requires k < |s| && Progress(s0, m0, s, m, k, s[k].asset, now) && SoundAssets(t, n)
    requires t == Without(s, k) && OneAssetKept(s, m, t, n, s[k].asset)
    requires var a := s[k].asset;
             && n[a].supply == m[a].supply && n[a].settled == m[a].settled && n[a].calls == m[a].calls
             && (m[a].swan || (m[a].feed.None? && s[k].date <= now))
    ensures Progress(s0, m0, t, n, k, s[k].asset, now) && From(t, s[k].asset) == k && |t| < |s|
    ensures n.Keys == m.Keys && forall c :: c in m ==> c in n && Cap(n[c]) == Cap(m[c])
  {
    hide AllKept, SoundAssets, MaxVolume, Exhausted, Pending, Total, SumCollateral, InOrder, Served, OrdersOf;
    InOrderOf(s, m);
    FrontStays(s, t, k);
    StillPassed(s, m, t, n, k, now);
    ServedFront(s, t, m[s[k].asset], n[s[k].asset], k, now, true);
    AllKeptNext(s0, m0, s, m, t, n, s[k].asset, now);
  }

  lemma AfterSettle(s0: seq<SettleOrder>, m0: Assets, s: seq<SettleOrder>, m: Assets,
                    t: seq<SettleOrder>, n: Assets, k: nat, now: nat, gone: bool)
    requires k < |s| && Progress(s0, m0, s, m, k, s[k].asset, now) && SoundAssets(t, n)
    requires var a := s[k].asset;
             && OneAssetKept(s, m, t, n, a) && WithinCap(m[a], n[a])
             && s[k].date <= now && !m[a].swan && m[a].feed.Some? && (!gone ==> Exhausted(n[a]))
             && m[a].offset < FULL_PERCENT && ReturnsDust(m[a].debtWallet, n[a].debtWallet, FillPrice(m[a]), gone)
    requires if gone then t == Without(s, k)
             else |t| == |s| && t == WithBalance(s, k, t[k].balance) && t[k].balance <= s[k].balance
    ensures Progress(s0, m0, t, n, k, s[k].asset, now) && From(t, s[k].asset) == k && k <= |t|
    ensures n.Keys == m.Keys && forall c :: c in m ==> c in n && Cap(n[c]) == Cap(m[c])
    ensures if gone then |t| < |s|
            else |t| == |s| && t[k].asset == s[k].asset && StuckOrder(t, n, k, now)
                 && (CapReached(t, n, k) <==> Cap(n[s[k].asset]) <= n[s[k].asset].settled)
  {
    hide AllKept, SoundAssets, Cap, Exhausted, Pending, Kept, WithinCap, InOrder, Served, OrdersOf, ReturnsDust;
    hide Discounted;
    var a := s[k].asset;
    SameCap(m[a], Pending(s, a), n[a], Pending(t, a));
    InOrderOf(s, m);
    FrontStays(s, t, k);
    StillPassed(s, m, t, n, k, now);
    ServedFront(s, t, m[a], n[a], k, now, gone);
    AllKeptNext(s0, m0, s, m, t, n, a, now);
  }

  lemma AllPassed(s0: seq<SettleOrder>, m0: Assets, s: seq<SettleOrder>, m: Assets, current: nat, now: nat)
    requires Progress(s0, m0, s, m, |s|, current, now)
    ensures Done(s0, m0, s, m, now)
  {}

  lemma DoneMeans(s0: seq<SettleOrder>, m0: Assets, s: seq<SettleOrder>, m: Assets, now: nat)
    requires Done(s0, m0, s, m, now)
    ensures SoundAssets(s, m) && AllKept(s0, m0, s, m, now)
    ensures forall i :: 0 <= i < |s| ==> s[i].asset in m && MayWait(s[i], m[s[i].asset], now)
  {}

  lemma SameCap(b: Bitasset, p: nat, b': Bitasset, p': nat)
    requires Kept(b, p, b', p') && WithinCap(b, b')
    ensures Cap(b') == Cap(b) && b'.swan == b.swan && b'.feed == b.feed
  {
    hide MaxVolume;
  }

  lemma InOrderOf(s: seq<SettleOrder>, m: Assets)
    requires SoundAssets(s, m)
    ensures InOrder(s)
  {}

  /** Where the index by asset, date and id puts a new order. */
  function Place(s: seq<SettleOrder>, o: SettleOrder): (k: nat)
    ensures k <= |s| && (forall i :: 0 <= i < k ==> Before(s[i], o)) && (k < |s| ==> !Before(s[k], o))
  {
    if s == [] || !Before(s[0], o) then 0 else 1 + Place(s[1..], o)
  }

  lemma Placed(s: seq<SettleOrder>, o: SettleOrder)
    requires InOrder(s) && forall i :: 0 <= i < |s| ==> s[i].id < o.id
    ensures InOrder(s[..Place(s, o)] + [o] + s[Place(s, o)..])
  {
    var k := Place(s, o);
    forall i | k <= i < |s| ensures Before(o, s[i]) {
      if k < i { assert Before(s[k], s[i]); }
    }
  }

  function Inserted(s: seq<SettleOrder>, o: SettleOrder): seq<SettleOrder> {
    s[..Place(s, o)] + [o] + s[Place(s, o)..]
  }

  lemma RequestIs(s: seq<SettleOrder>, m: Assets, o: SettleOrder)
    requires SoundAssets(s, m) && o.asset in m && 0 < o.balance && Has(m[o.asset].debtWallet, o.owner, o.balance)
    requires forall i :: 0 <= i < |s| ==> s[i].id < o.id
    ensures var b := m[o.asset].(debtWallet := Take(m[o.asset].debtWallet, o.owner, o.balance));
            && SoundAssets(Inserted(s, o), m[o.asset := b])
            && OneAssetKept(s, m, Inserted(s, o), m[o.asset := b], o.asset)
  {
    hide SoundAsset, Kept, InOrder;
    hide Pending, OrdersOf;
    var b, t := m[o.asset], Inserted(s, o);
    Placed(s, o);
    PlacedMembers(s, o, m);
    hide Place, Inserted;
    forall a ensures Pending(t, a) == Pending(s, a) + if a == o.asset then o.balance else 0
             ensures a != o.asset ==> OrdersOf(t, a) == OrdersOf(s, a)
    {
      PlacedPending(s, o, a);
      PlacedOrders(s, o, a);
    }
    TakenIsSound(b, Pending(s, o.asset), o.owner, o.balance);
    OneAsset(s, m, t, b.(debtWallet := Take(b.debtWallet, o.owner, o.balance)), o.asset);
  }

  lemma CancelIs(s: seq<SettleOrder>, m: Assets, k: nat)
    requires SoundAssets(s, m) && k < |s|
    ensures var o := s[k];
            var b := m[o.asset].(debtWallet := Pay(m[o.asset].debtWallet, o.owner, o.balance));
            && SoundAssets(Without(s, k), m[o.asset := b])
            && OneAssetKept(s, m, Without(s, k), m[o.asset := b], o.asset)
  {
    hide SoundAsset, Kept, InOrder, Pay, OrdersOf;
    var o, b := s[k], m[s[k].asset];
    AssetOf(s, m, k);
    PaidBackIsSound(b, Pending(s, o.asset), o);
    OrdersAfter(s, m, k, true, 0);
    hide Pending, Without;
    OneAsset(s, m, Without(s, k), b.(debtWallet := Pay(b.debtWallet, o.owner, o.balance)), o.asset);
  }

  lemma PaidBackIsSound(b: Bitasset, pending: nat, o: SettleOrder)
    requires SoundAsset(b, pending) && o.balance <= pending
    ensures var b' := b.(debtWallet := Pay(b.debtWallet, o.owner, o.balance));
            SoundAsset(b', pending - o.balance) && Kept(b, pending, b', pending - o.balance)
  {
    PayTotal(b.debtWallet, o.owner, o.balance);
  }

  lemma PlacedPending(s: seq<SettleOrder>, o: SettleOrder, a: nat)
    ensures Pending(Inserted(s, o), a) == Pending(s, a) + if a == o.asset then o.balance else 0
  {
    var k, t := Place(s, o), Inserted(s, o);
    assert t[k] == o && t[..k] == s[..k] && t[k + 1..] == s[k..];
    assert t[..k] + t[k + 1..] == s;
    PendingSplit(t, k, a);
  }

  lemma PlacedOrders(s: seq<SettleOrder>, o: SettleOrder, a: nat)
    ensures a != o.asset ==> OrdersOf(Inserted(s, o), a) == OrdersOf(s, a)
  {
    var k, t := Place(s, o), Inserted(s, o);
    assert t[k] == o && Without(t, k) == s;
    OrdersOfAt(t, k, a, 0);
  }

  lemma PlacedMembers(s: seq<SettleOrder>, o: SettleOrder, m: Assets)
    requires 0 < o.balance && o.asset in m && forall i :: 0 <= i < |s| ==> 0 < s[i].balance && s[i].asset in m
    ensures var t := Inserted(s, o); forall i :: 0 <= i < |t| ==> 0 < t[i].balance && t[i].asset in m
  {
    var k, t := Place(s, o), Inserted(s, o);
    forall i | 0 <= i < |t| ensures 0 < t[i].balance && t[i].asset in m {
      if i < k { assert t[i] == s[i]; } else if i > k { assert t[i] == s[i - 1]; } else { assert t[i] == o; }
    }
  }

  lemma TakenIsSound(b: Bitasset, pending: nat, owner: nat, amount: nat)
    requires SoundAsset(b, pending) && Has(b.debtWallet, owner, amount)
    ensures var b' := b.(debtWallet := Take(b.debtWallet, owner, amount));
            SoundAsset(b', pending + amount) && Kept(b, pending, b', pending + amount)
  {
    TakeTotal(b.debtWallet, owner, amount);
  }

  class SettlementQueue {
    var orders: seq<SettleOrder>
    var assets: Assets
    ghost var peak: map<nat, nat>     // the highest cap of each asset since the last maintenance

    ghost predicate Valid()
      reads this
    {
      SoundAssets(orders, assets)
    }

    /** No asset has settled more since the last maintenance than the highest cap it had since then. */
    ghost predicate WithinPeak()
      reads this
    {
      forall a :: a in assets ==> a in peak && assets[a].settled <= peak[a]
    }

    constructor (assets: Assets)
      requires forall a :: a in assets ==> SoundAsset(assets[a], 0) && assets[a].settled == 0
      ensures Valid() && WithinPeak() && orders == [] && this.assets == assets
    {
      orders := [];
      this.assets := assets;
      peak := map a | a in assets :: 0;
    }

    /** `asset_settle` of an asset that is not globally settled: the amount waits in an order. */
    method Request(id: nat, owner: nat, asset: nat, amount: nat, now: nat, delay: nat) returns (ok: bool)
      requires Valid() && asset in assets && !assets[asset].swan && 0 < amount
      requires forall i :: 0 <= i < |orders| ==> orders[i].id < id
      modifies this`orders, this`assets
      ensures Valid()
      ensures ok <==> old(assets)[asset].feed.Some? && Has(old(assets)[asset].debtWallet, owner, amount)
      ensures !ok ==> orders == old(orders) && assets == old(assets)
      ensures old(WithinPeak()) ==> WithinPeak()
      ensures ok ==>
                && OneAssetKept(old(orders), old(assets), orders, assets, asset)
                && orders == Inserted(old(orders), SettleOrder(id, asset, now + delay, owner, amount))
    {
      hide SoundAssets, OneAssetKept, Inserted;
      var b := assets[asset];
      if b.feed.None? || !Has(b.debtWallet, owner, amount) { return false; }
      var o := SettleOrder(id, asset, now + delay, owner, amount);
      RequestIs(orders, assets, o);
      assets := assets[asset := b.(debtWallet := Take(b.debtWallet, owner, amount))];
      orders := Inserted(orders, o);
      return true;
    }

    /** `cancel_settle_order`. */
    method CancelOrder(k: nat)
      requires Valid() && k < |orders|
      modifies this`orders, this`assets
      ensures Valid() && orders == Without(old(orders), k)
      ensures var o := old(orders[k]); var b := old(assets)[o.asset];
              assets == old(assets)[o.asset := b.(debtWallet := Pay(b.debtWallet, o.owner, o.balance))]
      ensures OneAssetKept(old(orders), old(assets), orders, assets, old(orders[k].asset))
      ensures old(WithinPeak()) ==> WithinPeak()
    {
      hide SoundAssets, OneAssetKept, Without, Pay;
      AssetOf(orders, assets, k);
      CancelIs(orders, assets, k);
      var o := orders[k];
      var b := assets[o.asset];
      assets := assets[o.asset := b.(debtWallet := Pay(b.debtWallet, o.owner, o.balance))];
      orders := Without(orders, k);
    }

    /** `match` with the least collateralised position. */
    method Match(k: nat, at: Price, most: nat) returns (settled: nat, gone: bool)
      requires Valid() && k < |orders| && 0 < most
      requires var b := assets[orders[k].asset]; !b.swan && b.feed.Some? && at == FillPrice(b)
      modifies this`orders, this`assets
      ensures Valid() && OneAssetKept(old(orders), old(assets), orders, assets, old(orders[k].asset))
      ensures var o := old(orders[k]);
              exists i :: 0 <= i && IsLeast(old(assets)[o.asset].calls, i) &&
                SettledAs(old(assets)[o.asset], i, o, most, at, assets[o.asset], settled, gone)
      ensures var a := old(orders[k].asset);
              && assets[a].settled == old(assets)[a].settled
              && assets[a].supply + settled == old(assets)[a].supply
      ensures settled <= most && (settled == 0 && !gone ==> ToBase(most, at) == 0)
      ensures var a := old(orders[k].asset);
              ReturnsDust(old(assets)[a].debtWallet, assets[a].debtWallet, at, gone)
      ensures orders == if gone then Without(old(orders), k)
                        else WithBalance(old(orders), k, old(orders[k].balance) - settled)
    {
      hide SoundAssets, SoundAsset, AfterMatch, TermsOf, InOrder, OneAssetKept, SettledAs, Pending, IsLeast, FillPrice;
      hide ToBase, ReturnsDust, Gained;
      var o := orders[k];
      AssetOf(orders, assets, k);
      var b := assets[o.asset];
      LeastOf(b, Pending(orders, o.asset));
      var i :| 0 <= i < |b.calls| && IsLeast(b.calls, i);
      MatchStep(orders, assets, k, i, most, at);
      var t := TermsOf(o.balance, most, b.calls[i].debt, at);
      var b' := AfterMatch(b, i, o, t);
      settled, gone := Settles(t), Released(o, t) == o.balance;
      orders := AfterOrders(orders, k, t);
      assets := assets[o.asset := b'];
      assert SettledAs(b, i, o, most, at, b', settled, gone) by { SettledAsIs(b, i, o, most, at); }
    }

    /** The inner loop: settles order `k` with one position after the other, up to the cap. */
    method SettleOne(k: nat, cap: nat) returns (gone: bool, finished: bool)
      requires Valid() && k < |orders|
      requires var b := assets[orders[k].asset]; !b.swan && b.feed.Some? && b.settled < cap == Cap(b)
      modifies this`orders, this`assets
      ensures Valid() && OneAssetKept(old(orders), old(assets), orders, assets, old(orders[k].asset))
      ensures var a := old(orders[k].asset); WithinCap(old(assets)[a], assets[a])
      ensures gone ==> orders == Without(old(orders), k)
      ensures !gone ==> && |orders| == |old(orders)| && orders == WithBalance(old(orders), k, orders[k].balance)
                        && orders[k].balance <= old(orders[k].balance)
      ensures var a := old(orders[k].asset);
              && old(assets)[a].offset < FULL_PERCENT
              && ReturnsDust(old(assets)[a].debtWallet, assets[a].debtWallet, FillPrice(old(assets)[a]), gone)
      ensures finished ==> !gone
      ensures !gone ==> var b := assets[old(orders[k].asset)]; Exhausted(b) && (finished || Cap(b) <= b.settled)
    {
      hide SoundAssets, SoundAsset, AfterMatch, TermsOf, InOrder, OneAssetKept, SettledAs, Pending, IsLeast, Discounted,
           ToBase, MaxVolume, Kept, OrdersOf, Total;
      AssetOf(orders, assets, k);
      ghost var s, m := orders, assets;
      var a := orders[k].asset;
      var at := FillPrice(assets[a]);
      var settled := assets[a].settled;
      gone, finished := false, false;
      KeptRefl(orders, assets, a);
      while settled < cap && !gone
        invariant Valid() && OneAssetKept(s, m, orders, assets, a) && SameTerms(m, assets, a)
        invariant assets[a].settled == m[a].settled
        invariant assets[a].supply + settled == m[a].supply + m[a].settled
        invariant m[a].settled <= settled <= cap && !finished
        invariant gone ==> orders == Without(s, k)
        invariant !gone ==> |orders| == |s| && orders == WithBalance(s, k, orders[k].balance)
                            && orders[k].balance <= s[k].balance
        invariant ReturnsDust(m[a].debtWallet, assets[a].debtWallet, at, gone)
        decreases cap - settled
      {
        ghost var s1, m1 := orders, assets;
        var n, g := Match(k, at, cap - settled);
        KeptStep(s, m, s1, m1, orders, assets, a);
        gone := g;
        if n == 0 {
          finished := !gone;
          break;
        }
        settled := settled + n;
      }
      Recorded(s, m, orders, assets, a, settled);
      assets := assets[a := assets[a].(settled := settled)];
    }

    /** The first order of the next asset, if any. */
    method NextAsset(current: nat) returns (found: bool, next: nat)
      ensures found <==> From(orders, current + 1) < |orders|
      ensures found ==> next == orders[From(orders, current + 1)].asset
    {
      var bound := From(orders, current + 1);
      if bound == |orders| { return false, current; }
      return true, orders[bound].asset;
    }

    /** The settlement loop of `clear_expired_orders`.  Each pass removes the order it looks at, moves to a
        later asset, or leaves the order's asset exhausted so that the next pass moves on.  No asset settles
        more than its cap, and an order only stays if it is not due or its asset is exhausted. */
    method ClearExpired(now: nat)
      requires Valid()
      modifies this`orders, this`assets
      ensures Valid() && AllKept(old(orders), old(assets), orders, assets, now)
      ensures forall i :: 0 <= i < |orders| ==> MayWait(orders[i], assets[orders[i].asset], now)
    {
      hide SoundAssets, InOrder, OneAssetKept, Pending, Exhausted, AllKept, WithinCap, Cap, Without, WithBalance,
           Progress, From, StuckOrder, Pay, MayWait, CapReached, Done, WithinPeak, ReturnsDust, FillPrice, IsLeast,
           Margin, Kept, SoundAsset, PassedOrders, SameTerms;
      ghost var s0, m0 := orders, assets;
      Start(orders, assets, now);
      if orders == [] { return; }
      var current, finished := orders[0].asset, false;
      var volumeOf, volume := None, 0;          // the cap is computed once per asset
      var k: nat := From(orders, current);
      while k < |orders|
        invariant Progress(s0, m0, orders, assets, k, current, now)
        invariant k <= |orders| && k == From(orders, current)
        invariant finished ==> k < |orders| && orders[k].asset == current && StuckOrder(orders, assets, k, now)
        invariant volumeOf.Some? ==> volumeOf.value in assets && volume == Cap(assets[volumeOf.value])
        decreases |orders|, |orders| - k, if finished || CapReached(orders, assets, k) then 0 else 1
      {
        ghost var s, m := orders, assets;
        Look(s0, m0, s, m, k, current, now);
        var o := orders[k];
        current := o.asset;
        var b := assets[current];
        if b.swan {
          CancelOrder(k);
          AfterCancel(s0, m0, s, m, orders, assets, k, now);
          k := From(orders, current);
          continue;
        }
        if o.date > now {
          SkipAsset(s0, m0, s, m, k, now);
          var found, next := NextAsset(current);
          if !found { break; }
          current, finished := next, false;
          k := From(orders, current);
          continue;
        }
        if b.feed.None? {
          CancelOrder(k);
          AfterCancel(s0, m0, s, m, orders, assets, k, now);
          k := From(orders, current);
          continue;
        }
        if volumeOf != Some(current) {
          volumeOf, volume := Some(current), Cap(b);
        }
        if b.settled >= volume || finished {
          SkipAsset(s0, m0, s, m, k, now);
          var found, next := NextAsset(current);
          if !found { break; }
          current, finished := next, false;
          k := From(orders, current);
          continue;
        }
        var gone;
        gone, finished := SettleOne(k, volume);
        AfterSettle(s0, m0, s, m, orders, assets, k, now, gone);
        k := From(orders, current);
      }
      if k == |orders| { AllPassed(s0, m0, orders, assets, current, now); }
      DoneMeans(s0, m0, orders, assets, now);
    }

    /** The settlement of one block, within a maintenance interval. */
    method ServeBlock(now: nat)
      requires Valid() && WithinPeak()
      modifies this
      ensures Valid() && WithinPeak() && AllKept(old(orders), old(assets), orders, assets, now)
      ensures peak == Raised(old(peak), old(assets))
      ensures forall i :: 0 <= i < |orders| ==> MayWait(orders[i], assets[orders[i].asset], now)
    {
      hide SoundAssets, Exhausted, Pending, Kept, Cap;
      ClearExpired(now);
      peak := Raised(peak, old(assets));
    }

    /** The reset at maintenance. */
    method Maintain()
      requires Valid()
      modifies this`assets, this`peak
      ensures Valid() && WithinPeak() && assets.Keys == old(assets).Keys
      ensures forall a :: a in assets ==> assets[a] == old(assets)[a].(settled := 0) && peak[a] == 0
    {
      hide SoundAssets;
      var m := assets;
      assets := map a | a in m :: m[a].(settled := 0);
      peak := map a | a in m :: 0;
      ResetIsSound(orders, m, assets);
    }

    /** Any other operation on an asset, such as borrowing or trading: it does not count as settled volume. */
    method Operate(a: nat, b: Bitasset)
      requires Valid() && WithinPeak() && a in assets
      requires SoundAsset(b, Pending(orders, a)) && b.settled == assets[a].settled
      modifies this`assets
      ensures Valid() && WithinPeak() && assets == old(assets)[a := b]
    {
      hide SoundAssets, SoundAsset, Pending;
      OperateIs(orders, assets, b, a);
      assets := assets[a := b];
    }
  }

  ghost function Raised(peak: map<nat, nat>, m: Assets): map<nat, nat> {
    map a | a in m :: Max(if a in peak then peak[a] else 0, Cap(m[a]))
  }

  /** If supply and settled volume together stay within `most` for a whole interval, the settled volume stays within the
      configured share of that. */
  lemma PeakIsShare(peak: map<nat, nat>, m: Assets, a: nat, most: nat)
    requires a in m && m[a].supply + m[a].settled <= most
    requires a in peak && peak[a] * FULL_PERCENT <= most * m[a].maxPercent
    ensures Raised(peak, m)[a] * FULL_PERCENT <= most * m[a].maxPercent
  {
    CapIsShare(m[a], Cap(m[a]));
    MulMono(m[a].supply + m[a].settled, most, m[a].maxPercent);
  }

  lemma OperateIs(s: seq<SettleOrder>, m: Assets, b: Bitasset, a: nat)
    requires SoundAssets(s, m) && a in m && SoundAsset(b, Pending(s, a))
    ensures SoundAssets(s, m[a := b])
  {
    hide SoundAsset, Pending;
    OneAsset(s, m, s, b, a);
  }

  lemma ResetIsSound(s: seq<SettleOrder>, m: Assets, m': Assets)
    requires SoundAssets(s, m) && m' == map a | a in m :: m[a].(settled := 0)
    ensures SoundAssets(s, m')
  {
    hide Pending, InOrder;
    forall a | a in m' ensures SoundAsset(m'[a], Pending(s, a)) { assert SoundAsset(m[a], Pending(s, a)); }
  }
}
