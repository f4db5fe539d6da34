/** Limit orders of all markets with their creation fees.  The fee is deferred until the order is first filled, and
    returned, less a cancellation fee, when the order is cancelled before that.  Every match pays both sides through
    market fees and rewards. */
module DeferredFees {
  import opened Common
  import opened Prices
  import opened LimitOrders
  import opened Wallets

  const CORE: nat := 0

  /** `deferred` is the fee in the core asset; if it was paid in `feeAsset` instead, `paid` is what the seller
      paid there and `deferred` came out of the asset's fee pool. */
  datatype FeeOrder = FeeOrder(order: LimitOrder, sells: nat, wants: nat, deferred: nat, feeAsset: nat, paid: nat) {
    function Seller(): nat { order.seller }

    function ForSale(): nat { order.forSale }

    /** What is left of the order after a fill: the fee is paid with the first one. */
    function After(pays: nat): FeeOrder
      requires pays <= ForSale()
    {
      this.(order := order.(forSale := ForSale() - pays), deferred := 0, paid := 0)
    }
  }

  /** What an order holds of asset `a`. */
  function Part(o: FeeOrder, a: nat): nat {
    (if o.sells == a then o.ForSale() else 0) + (if a == CORE then o.deferred else 0)
    + (if o.feeAsset == a then o.paid else 0)
  }

  ghost function InOrders(s: seq<FeeOrder>, a: nat): nat {
    if s == [] then 0 else Part(s[0], a) + InOrders(s[1..], a)
  }

  /** The core asset account `who` has on sale. */
  function OnSale(o: FeeOrder, who: nat): nat {
    if o.Seller() == who && o.sells == CORE then o.ForSale() else 0
  }

  ghost function CoreOnSale(s: seq<FeeOrder>, who: nat): nat {
    if s == [] then 0 else OnSale(s[0], who) + CoreOnSale(s[1..], who)
  }

  lemma {:induction false} SumsWithout(s: seq<FeeOrder>, k: nat, a: nat, who: nat)
    requires k < |s|
    ensures InOrders(s, a) == Part(s[k], a) + InOrders(Without(s, k), a)
    ensures CoreOnSale(s, who) == OnSale(s[k], who) + CoreOnSale(Without(s, k), who)
  {
    if k == 0 {
      assert Without(s, 0) == s[1..];
    } else {
      SumsWithout(s[1..], k - 1, a, who);
      assert Without(s, k)[1..] == Without(s[1..], k - 1);
    }
  }

  lemma SumsUpdated(s: seq<FeeOrder>, k: nat, o: FeeOrder, a: nat, who: nat)
    requires k < |s|
    ensures InOrders(s[k := o], a) + Part(s[k], a) == InOrders(s, a) + Part(o, a)
    ensures CoreOnSale(s[k := o], who) + OnSale(s[k], who) == CoreOnSale(s, who) + OnSale(o, who)
  {
    SumsWithout(s, k, a, who);
    SumsWithout(s[k := o], k, a, who);
    assert Without(s[k := o], k) == Without(s, k);
  }

  lemma SumsAppended(s: seq<FeeOrder>, o: FeeOrder, a: nat, who: nat)
    ensures InOrders(s + [o], a) == InOrders(s, a) + Part(o, a)
    ensures CoreOnSale(s + [o], who) == CoreOnSale(s, who) + OnSale(o, who)
  {
    SumsWithout(s + [o], |s|, a, who);
    assert Without(s + [o], |s|) == s;
  }

  // The cancellation fee

  /** The fee in the core asset: only an order the chain cancels pays one, and no more than was deferred. */
  function CancelFee(o: FeeOrder, byChain: bool, skipFee: bool, schedule: nat): nat {
    if !byChain || skipFee then 0 else if schedule < o.deferred then schedule else o.deferred
  }

  /** Its share of the fee paid in another asset, rounded up. */
  function PaidShare(o: FeeOrder, fee: nat): nat {
    if fee == 0 || o.paid == 0 || o.deferred == 0 then 0 else MulUp(o.paid, fee, o.deferred)
  }

  /** The cancellation fee is positive, it is no more than was paid, and what the seller gets back is the
      remaining share rounded down. */
  lemma PaidShareBounds(o: FeeOrder, fee: nat)
    requires fee <= o.deferred
    ensures PaidShare(o, fee) <= o.paid
    ensures 0 < fee && 0 < o.paid ==>
              && 0 < PaidShare(o, fee)
              && o.paid - PaidShare(o, fee) == MulDown(o.paid, o.deferred - fee, o.deferred)
  {
    if 0 < fee && 0 < o.paid {
      Complement(o.paid, fee, o.deferred);
      Adjoint(o.paid, fee, o.deferred, 0);
      MulMono(1, fee, o.paid);
    }
  }

  /** A share rounded up and the rest rounded down make the whole. */
  lemma Complement(p: nat, f: nat, d: pos)
    requires f <= d
    ensures MulUp(p, f, d) <= p && p - MulUp(p, f, d) == MulDown(p, d - f, d)
  {
    hide MulUp, MulDown;
    var u: int := MulUp(p, f, d);
    Bounds(p, f, d);
    MulMono(f, d, p);
    Adjoint(p, f, d, p);
    Distribute(d, f, p);
    Distribute(p, u, d);
    Distribute(p, u - 1, d);
    Distribute(u, 1, d);
    Adjoint(p, d - f, d, p - u);
    Adjoint(p, d - f, d, p - u + 1);
  }

  // The ledger

  datatype Ledger = Ledger(
    wallets: map<nat, Wallet>,    // balances, market-fee rewards and accumulated fees of each asset
    pools: Balances,              // fee pool of each asset, in the core asset
    pending: Balances,            // fees paid by each account, to be shared at maintenance
    vested: Balances,
    coreInOrders: Balances,       // `total_core_in_orders` of each account
    orders: seq<FeeOrder>)

  const EmptyWallet := Wallet(map[], map[], 0, FeeOptions(false, 0, 0, 0), map[])

  function Of(l: Ledger, a: nat): Wallet { if a in l.wallets then l.wallets[a] else EmptyWallet }

  function BalanceIn(l: Ledger, a: nat, who: nat): nat { BalanceOf(Of(l, a).balances, who) }

  /** All that is held of asset `a`. */
  ghost function Held(l: Ledger, a: nat): nat {
    Total(Of(l, a)) + InOrders(l.orders, a) + if a == CORE then Sum(l.pools) + Sum(l.pending) + Sum(l.vested) else 0
  }

  ghost predicate ValidWallets(l: Ledger) { forall a :: a in l.wallets ==> ValidWallet(l.wallets[a]) }

  lemma WalletIsValid(l: Ledger, a: nat)
    requires ValidWallets(l)
    ensures ValidWallet(Of(l, a))
  {}

  /** The statistics of every account agree with its orders. */
  ghost predicate Consistent(l: Ledger) {
    && ValidWallets(l) && (forall who :: BalanceOf(l.coreInOrders, who) == CoreOnSale(l.orders, who))
    && (forall i :: 0 <= i < |l.orders| && 0 < l.orders[i].paid ==> l.orders[i].feeAsset != CORE)
  }

  // Postings: each changes what is held of one asset and no orders

  function SetWallet(l: Ledger, a: nat, w: Wallet): Ledger { l.(wallets := l.wallets[a := w]) }

  function Deposit(l: Ledger, a: nat, who: nat, amount: nat): Ledger { SetWallet(l, a, Pay(Of(l, a), who, amount)) }

  /** What a seller receives in a trade, through market fees and rewards. */
  function Proceeds(l: Ledger, a: nat, who: nat, amount: nat): Ledger
    requires ValidWallets(l)
  {
    WalletIsValid(l, a);
    SetWallet(l, a, Receive(Of(l, a), who, amount))
  }

  function Accumulate(l: Ledger, a: nat, amount: nat): Ledger {
    SetWallet(l, a, Of(l, a).(accumulated := Of(l, a).accumulated + amount))
  }

  function Refill(l: Ledger, a: nat, amount: nat): Ledger { l.(pools := Credit(l.pools, a, amount)) }

  /** `account_statistics_object::pay_fee` */
  function PayFee(l: Ledger, who: nat, amount: nat, threshold: nat): Ledger {
    if amount > threshold then l.(pending := Credit(l.pending, who, amount))
    else l.(vested := Credit(l.vested, who, amount))
  }

  function Withdraw(l: Ledger, a: nat, who: nat, amount: nat): Ledger
    requires amount <= BalanceIn(l, a, who)
  {
    SetWallet(l, a, Take(Of(l, a), who, amount))
  }

  function DrawPool(l: Ledger, a: nat, amount: nat): Ledger
    requires amount <= BalanceOf(l.pools, a)
  {
    l.(pools := l.pools[a := BalanceOf(l.pools, a) - amount])
  }

  /** `r` is `l` after a posting of `amount` of asset `a`. */
  ghost predicate Posted(l: Ledger, r: Ledger, a: nat, amount: int) {
    && (forall x :: Held(r, x) == Held(l, x) + if x == a then amount else 0)
    && r.orders == l.orders && r.coreInOrders == l.coreInOrders
    && (ValidWallets(l) ==> ValidWallets(r))
  }

  lemma SetWalletPosts(l: Ledger, a: nat, w: Wallet)
    requires ValidWallet(Of(l, a)) ==> ValidWallet(w)
    ensures Posted(l, SetWallet(l, a, w), a, Total(w) - Total(Of(l, a)))
  {
    hide Total, ValidWallet, InOrders, Sum;
    if ValidWallets(l) { WalletIsValid(l, a); }
  }

  lemma DepositPosts(l: Ledger, a: nat, who: nat, amount: nat)
    ensures Posted(l, Deposit(l, a, who, amount), a, amount)
  {
    hide Posted, Pay;
    PayTotal(Of(l, a), who, amount);
    SetWalletPosts(l, a, Pay(Of(l, a), who, amount));
  }

  lemma ProceedsPosts(l: Ledger, a: nat, who: nat, amount: nat)
    requires ValidWallets(l)
    ensures Posted(l, Proceeds(l, a, who, amount), a, amount)
  {
    hide Posted, Receive;
    WalletIsValid(l, a);
    ReceiveTotal(Of(l, a), who, amount);
    SetWalletPosts(l, a, Receive(Of(l, a), who, amount));
  }

  lemma AccumulatePosts(l: Ledger, a: nat, amount: nat)
    ensures Posted(l, Accumulate(l, a, amount), a, amount)
  {
    hide Posted, Sum;
    var w := Of(l, a).(accumulated := Of(l, a).accumulated + amount);
    assert Total(w) == Total(Of(l, a)) + amount && ValidWallet(w) == ValidWallet(Of(l, a));
    SetWalletPosts(l, a, w);
  }

  lemma WithdrawPosts(l: Ledger, a: nat, who: nat, amount: nat)
    requires amount <= BalanceIn(l, a, who)
    ensures Posted(l, Withdraw(l, a, who, amount), a, -(amount as int))
  {
    hide Posted;
    TakeTotal(Of(l, a), who, amount);
    SetWalletPosts(l, a, Take(Of(l, a), who, amount));
  }

  lemma RefillPosts(l: Ledger, a: nat, amount: nat)
    ensures Posted(l, Refill(l, a, amount), CORE, amount)
  {
    hide Total, InOrders, Sum, Credit, ValidWallet;
    SumCredited(l.pools, a, amount);
  }

  lemma DrawPoolPosts(l: Ledger, a: nat, amount: nat)
    requires amount <= BalanceOf(l.pools, a)
    ensures Posted(l, DrawPool(l, a, amount), CORE, -(amount as int))
  {
    hide Total, InOrders, Sum, ValidWallet;
    SumUpdated(l.pools, a, BalanceOf(l.pools, a) - amount);
  }

  lemma PayFeePosts(l: Ledger, who: nat, amount: nat, threshold: nat)
    ensures Posted(l, PayFee(l, who, amount, threshold), CORE, amount)
  {
    hide Total, InOrders, Sum, Credit, ValidWallet;
    if amount > threshold { SumCredited(l.pending, who, amount); } else { SumCredited(l.vested, who, amount); }
  }

  lemma PostedConsistent(l: Ledger, r: Ledger, a: nat, amount: int)
    requires Posted(l, r, a, amount) && Consistent(l)
    ensures Consistent(r) && r.orders == l.orders
  {
    hide Held, ValidWallets;
  }

  /** What the ledger has for asset `x` and for account `who`. */
  datatype View = View(balance: int, pool: nat, accumulated: nat, pending: nat, vested: nat, options: FeeOptions)

  function ViewOf(l: Ledger, x: nat, who: nat): View {
    View(BalanceIn(l, x, who), BalanceOf(l.pools, x), Of(l, x).accumulated, BalanceOf(l.pending, who),
         BalanceOf(l.vested, who), Of(l, x).options)
  }

  lemma PayFeeView(l: Ledger, a: nat, amount: nat, threshold: nat, x: nat, who: nat)
    ensures var v := ViewOf(l, x, who);
            ViewOf(PayFee(l, a, amount, threshold), x, who) ==
              v.(pending := v.pending + if who == a && amount > threshold then amount else 0,
                 vested := v.vested + if who == a && amount <= threshold then amount else 0)
  {}

  lemma AccumulateView(l: Ledger, a: nat, amount: nat, x: nat, who: nat)
    ensures var v := ViewOf(l, x, who);
            ViewOf(Accumulate(l, a, amount), x, who) ==
              v.(accumulated := v.accumulated + if x == a then amount else 0)
  {}

  lemma DepositView(l: Ledger, a: nat, seller: nat, amount: nat, x: nat, who: nat)
    ensures var v := ViewOf(l, x, who);
            ViewOf(Deposit(l, a, seller, amount), x, who) ==
              v.(balance := v.balance + if x == a && who == seller then amount else 0)
  {}

  lemma RefillView(l: Ledger, a: nat, amount: nat, x: nat, who: nat)
    ensures var v := ViewOf(l, x, who);
            ViewOf(Refill(l, a, amount), x, who) == v.(pool := v.pool + if x == a then amount else 0)
  {}

  lemma ProceedsView(l: Ledger, a: nat, seller: nat, amount: nat, x: nat, who: nat)
    requires ValidWallets(l)
    ensures var v, r := ViewOf(l, x, who), ViewOf(Proceeds(l, a, seller, amount), x, who);
            var paid := if x == a && who == seller then amount - MarketFee(v.options, amount) else 0;
            r == v.(balance := v.balance + paid, accumulated := if x == a then r.accumulated else v.accumulated)
  {
    WalletIsValid(l, a);
    hide MarketFee, Rewards, ValidWallet, ValidWallets;
    ReceiveGives(Of(l, a), seller, amount, who);
  }

  // Changes of the orders

  /** `total_core_in_orders` of the seller of `o` falls by what it sold. */
  function Sold(stats: Balances, o: FeeOrder, amount: nat): Balances {
    var was := BalanceOf(stats, o.Seller());
    if o.sells == CORE && was >= amount then stats[o.Seller() := was - amount] else stats
  }

  /** Order `k` goes. */
  function Drop(l: Ledger, k: nat): Ledger
    requires k < |l.orders|
  {
    l.(orders := Without(l.orders, k), coreInOrders := Sold(l.coreInOrders, l.orders[k], l.orders[k].ForSale()))
  }

  /** Order `k` has sold `pays`. */
  function Replace(l: Ledger, k: nat, pays: nat): Ledger
    requires k < |l.orders| && pays <= l.orders[k].ForSale()
  {
    l.(orders := l.orders[k := l.orders[k].After(pays)], coreInOrders := Sold(l.coreInOrders, l.orders[k], pays))
  }

  lemma DropKeeps(l: Ledger, k: nat)
    requires k < |l.orders| && Consistent(l)
    ensures forall x :: Held(Drop(l, k), x) == Held(l, x) - Part(l.orders[k], x)
    ensures Consistent(Drop(l, k))
    ensures l.orders[k].sells == CORE ==> l.orders[k].ForSale() <= BalanceOf(l.coreInOrders, l.orders[k].Seller())
  {
    var o, r := l.orders[k], Drop(l, k);
    SumsWithout(l.orders, k, 0, o.Seller());
    forall x ensures Held(r, x) == Held(l, x) - Part(o, x) { DropHeld(l, k, x); }
    hide Held, ValidWallets;
    forall who ensures BalanceOf(r.coreInOrders, who) == CoreOnSale(r.orders, who) {
      SumsWithout(l.orders, k, 0, who);
      SoldIs(l.coreInOrders, o, o.ForSale(), who);
    }
    StillConsistent(l, r);
  }

  lemma DropHeld(l: Ledger, k: nat, x: nat)
    requires k < |l.orders|
    ensures Held(Drop(l, k), x) == Held(l, x) - Part(l.orders[k], x)
  {
    hide Total, Sum;
    SumsWithout(l.orders, k, x, 0);
  }

  lemma ReplaceKeeps(l: Ledger, k: nat, pays: nat)
    requires k < |l.orders| && Consistent(l) && pays <= l.orders[k].ForSale()
    ensures var o := l.orders[k];
            forall x :: Held(Replace(l, k, pays), x) == Held(l, x) - Part(o, x) + Part(o.After(pays), x)
    ensures Consistent(Replace(l, k, pays))
  {
    var o, r, rest := l.orders[k], Replace(l, k, pays), l.orders[k].After(pays);
    SumsWithout(l.orders, k, 0, o.Seller());
    forall x ensures Held(r, x) == Held(l, x) - Part(o, x) + Part(rest, x) { ReplaceHeld(l, k, pays, x); }
    hide Held, ValidWallets;
    forall who ensures BalanceOf(r.coreInOrders, who) == CoreOnSale(r.orders, who) {
      SumsUpdated(l.orders, k, rest, 0, who);
      SoldIs(l.coreInOrders, o, pays, who);
    }
    StillConsistent(l, r);
  }

  lemma ReplaceHeld(l: Ledger, k: nat, pays: nat, x: nat)
    requires k < |l.orders| && pays <= l.orders[k].ForSale()
    ensures var o := l.orders[k];
            Held(Replace(l, k, pays), x) == Held(l, x) - Part(o, x) + Part(o.After(pays), x)
  {
    hide Total, Sum;
    SumsUpdated(l.orders, k, l.orders[k].After(pays), x, 0);
  }

  lemma SoldIs(stats: Balances, o: FeeOrder, pays: nat, who: nat)
    requires pays <= o.ForSale() && (o.sells == CORE ==> o.ForSale() <= BalanceOf(stats, o.Seller()))
    ensures BalanceOf(Sold(stats, o, pays), who) == BalanceOf(stats, who) - OnSale(o, who) + OnSale(o.After(pays), who)
  {}

  lemma StillConsistent(l: Ledger, r: Ledger)
    requires Consistent(l) && r.wallets == l.wallets
    requires forall who :: BalanceOf(r.coreInOrders, who) == CoreOnSale(r.orders, who)
    requires forall i :: 0 <= i < |r.orders| && 0 < r.orders[i].paid ==> r.orders[i].feeAsset != CORE
    ensures Consistent(r)
  {}

  function Append(l: Ledger, o: FeeOrder): Ledger {
    l.(orders := l.orders + [o],
       coreInOrders := if o.sells == CORE then Credit(l.coreInOrders, o.Seller(), o.ForSale()) else l.coreInOrders)
  }

  lemma AppendKeeps(l: Ledger, o: FeeOrder)
    requires Consistent(l) && (0 < o.paid ==> o.feeAsset != CORE)
    ensures forall x :: Held(Append(l, o), x) == Held(l, x) + Part(o, x)
    ensures Consistent(Append(l, o))
  {
    hide ValidWallets, Total, Sum;
    forall x ensures Held(Append(l, o), x) == Held(l, x) + Part(o, x) { SumsAppended(l.orders, o, x, 0); }
    forall who ensures CoreOnSale(l.orders + [o], who) == CoreOnSale(l.orders, who) + OnSale(o, who) {
      SumsAppended(l.orders, o, 0, who);
    }
    StillConsistent(l, Append(l, o));
  }

  // Cancelling

  /** The cancellation fee is paid, and the seller has back what was on sale and the rest of the fee; a fee
      paid in another asset goes back in that asset and the core asset back to its pool. */
  function Refunded(l: Ledger, o: FeeOrder, fee: nat, share: nat, threshold: nat): Ledger
    requires fee <= o.deferred && share <= o.paid
  {
    var paid := Accumulate(PayFee(l, o.Seller(), fee, threshold), o.feeAsset, share);
    var sold := Deposit(paid, o.sells, o.Seller(), o.ForSale());
    if o.paid == 0 then Deposit(sold, CORE, o.Seller(), o.deferred - fee)
    else Refill(Deposit(sold, o.feeAsset, o.Seller(), o.paid - share), o.feeAsset, o.deferred - fee)
  }

  /** All that a cancelled order held is posted. */
  lemma RefundedPosts(l: Ledger, o: FeeOrder, fee: nat, share: nat, threshold: nat)
    requires fee <= o.deferred && share <= o.paid && Consistent(l)
    ensures var r := Refunded(l, o, fee, share, threshold);
            && Consistent(r) && r.orders == l.orders && forall x :: Held(r, x) == Held(l, x) + Part(o, x)
  {
    hide Held, Consistent, ValidWallets, PayFee, Accumulate, Deposit, Refill;
    var l1 := PayFee(l, o.Seller(), fee, threshold);
    PayFeePosts(l, o.Seller(), fee, threshold);
    PostedConsistent(l, l1, CORE, fee);
    var l2 := Accumulate(l1, o.feeAsset, share);
    AccumulatePosts(l1, o.feeAsset, share);
    PostedConsistent(l1, l2, o.feeAsset, share);
    var l3 := Deposit(l2, o.sells, o.Seller(), o.ForSale());
    DepositPosts(l2, o.sells, o.Seller(), o.ForSale());
    PostedConsistent(l2, l3, o.sells, o.ForSale());
    if o.paid == 0 {
      DepositPosts(l3, CORE, o.Seller(), o.deferred - fee);
      PostedConsistent(l3, Deposit(l3, CORE, o.Seller(), o.deferred - fee), CORE, o.deferred - fee);
    } else {
      var l4 := Deposit(l3, o.feeAsset, o.Seller(), o.paid - share);
      DepositPosts(l3, o.feeAsset, o.Seller(), o.paid - share);
      PostedConsistent(l3, l4, o.feeAsset, o.paid - share);
      RefillPosts(l4, o.feeAsset, o.deferred - fee);
      PostedConsistent(l4, Refill(l4, o.feeAsset, o.deferred - fee), CORE, o.deferred - fee);
    }
  }

  /** Who has what after a cancellation: the seller what was on sale and the rest of the fee in the asset it was
      paid in; the pool of that asset the core asset that came out of it; and the cancellation fee is the network's,
      in the name of the seller. */
  lemma RefundedGives(l: Ledger, o: FeeOrder, fee: nat, share: nat, threshold: nat, x: nat, who: nat)
    requires fee <= o.deferred && share <= o.paid
    ensures var r := Refunded(l, o, fee, share, threshold);
            && BalanceIn(r, x, who) == BalanceIn(l, x, who)
                 + (if who == o.Seller() && x == o.sells then o.ForSale() else 0)
                 + (if who == o.Seller() && x == CORE && o.paid == 0 then o.deferred - fee else 0)
                 + (if who == o.Seller() && x == o.feeAsset then o.paid - share else 0)
            && BalanceOf(r.pools, x) == BalanceOf(l.pools, x)
                 + (if x == o.feeAsset && 0 < o.paid then o.deferred - fee else 0)
            && Of(r, x).accumulated == Of(l, x).accumulated + (if x == o.feeAsset then share else 0)
            && BalanceOf(r.pending, who) == BalanceOf(l.pending, who)
                 + (if who == o.Seller() && fee > threshold then fee else 0)
            && BalanceOf(r.vested, who) == BalanceOf(l.vested, who)
                 + (if who == o.Seller() && fee <= threshold then fee else 0)
            && Of(r, x).options == Of(l, x).options
  {
    hide PayFee, Accumulate, Deposit, Refill, Of, BalanceIn, BalanceOf;
    var seller := o.Seller();
    var l1 := PayFee(l, seller, fee, threshold);
    PayFeeView(l, seller, fee, threshold, x, who);
    var l2 := Accumulate(l1, o.feeAsset, share);
    AccumulateView(l1, o.feeAsset, share, x, who);
    var l3 := Deposit(l2, o.sells, seller, o.ForSale());
    DepositView(l2, o.sells, seller, o.ForSale(), x, who);
    if o.paid == 0 {
      DepositView(l3, CORE, seller, o.deferred - fee, x, who);
    } else {
      DepositView(l3, o.feeAsset, seller, o.paid - share, x, who);
      RefillView(Deposit(l3, o.feeAsset, seller, o.paid - share), o.feeAsset, o.deferred - fee, x, who);
    }
  }

  /** The seller has what it received and the deferred fee is paid. */
  function Paid(l: Ledger, o: FeeOrder, receives: nat, threshold: nat): Ledger
    requires ValidWallets(l)
  {
    var received := Proceeds(l, o.wants, o.Seller(), receives);
    Accumulate(PayFee(received, o.Seller(), o.deferred, threshold), o.feeAsset, o.paid)
  }

  /** Who has what after a fill: the seller what it received less the market fee, and the deferred fee is the
      network's, in the name of the seller. */
  lemma PaidGives(l: Ledger, o: FeeOrder, receives: nat, threshold: nat, x: nat, who: nat)
    requires ValidWallets(l)
    ensures var r := Paid(l, o, receives, threshold);
            && BalanceIn(r, x, who) == BalanceIn(l, x, who)
                 + (if who == o.Seller() && x == o.wants then receives - MarketFee(Of(l, x).options, receives) else 0)
            && BalanceOf(r.pools, x) == BalanceOf(l.pools, x)
            && (x != o.wants ==> Of(r, x).accumulated == Of(l, x).accumulated + (if x == o.feeAsset then o.paid else 0))
            && BalanceOf(r.pending, who) == BalanceOf(l.pending, who)
                 + (if who == o.Seller() && o.deferred > threshold then o.deferred else 0)
            && BalanceOf(r.vested, who) == BalanceOf(l.vested, who)
                 + (if who == o.Seller() && o.deferred <= threshold then o.deferred else 0)
            && Of(r, x).options == Of(l, x).options
  {
    hide PayFee, Accumulate, Proceeds, Of, BalanceIn, BalanceOf, MarketFee, ValidWallets;
    var l1 := Proceeds(l, o.wants, o.Seller(), receives);
    ProceedsView(l, o.wants, o.Seller(), receives, x, who);
    var l2 := PayFee(l1, o.Seller(), o.deferred, threshold);
    PayFeeView(l1, o.Seller(), o.deferred, threshold, x, who);
    AccumulateView(l2, o.feeAsset, o.paid, x, who);
  }

  lemma PaidPosts(l: Ledger, o: FeeOrder, receives: nat, threshold: nat)
    requires Consistent(l)
    ensures var r := Paid(l, o, receives, threshold);
            && Consistent(r) && r.orders == l.orders
            && forall x :: Held(r, x) == Held(l, x) + Part(o, x) - (if x == o.sells then o.ForSale() else 0)
                                         + (if x == o.wants then receives else 0)
  {
    AreWalletsValid(l);
    hide Held, Consistent, ValidWallets, PayFee, Accumulate, Proceeds, Posted, Part;
    var l1 := Proceeds(l, o.wants, o.Seller(), receives);
    ProceedsPosts(l, o.wants, o.Seller(), receives);
    PostedConsistent(l, l1, o.wants, receives);
    var l2 := PayFee(l1, o.Seller(), o.deferred, threshold);
    PayFeePosts(l1, o.Seller(), o.deferred, threshold);
    PostedConsistent(l1, l2, CORE, o.deferred);
    var l3 := Accumulate(l2, o.feeAsset, o.paid);
    AccumulatePosts(l2, o.feeAsset, o.paid);
    PostedConsistent(l2, l3, o.feeAsset, o.paid);
    PartIs(o);
    forall x ensures Held(l3, x) == Held(l, x) + Part(o, x) - (if x == o.sells then o.ForSale() else 0)
                                    + (if x == o.wants then receives else 0)
    {
      PostedAt(l, l1, o.wants, receives, x);
      PostedAt(l1, l2, CORE, o.deferred, x);
      PostedAt(l2, l3, o.feeAsset, o.paid, x);
    }
  }

  lemma PostedAt(l: Ledger, r: Ledger, a: nat, amount: int, x: nat)
    requires Posted(l, r, a, amount)
    ensures Held(r, x) == Held(l, x) + (if x == a then amount else 0) && r.orders == l.orders
  {}

  lemma PartIs(o: FeeOrder)
    ensures forall x :: Part(o, x) == (if x == o.sells then o.ForSale() else 0) + (if x == CORE then o.deferred else 0)
                                      + (if x == o.feeAsset then o.paid else 0)
  {}

  lemma AreWalletsValid(l: Ledger)
    requires Consistent(l)
    ensures ValidWallets(l)
  {}

  /** Order `k` paid `pays` of what it sells and its seller received `receives` of what it wants. */
  ghost predicate Traded(l: Ledger, r: Ledger, o: FeeOrder, pays: nat, receives: nat) {
    forall x :: Held(r, x) == Held(l, x) - (if x == o.sells then pays else 0) + (if x == o.wants then receives else 0)
  }

  lemma PaidAndDropped(l: Ledger, k: nat, receives: nat, threshold: nat)
    requires Consistent(l) && k < |l.orders|
    ensures ValidWallets(l)
    ensures var o := l.orders[k];
            var r := Paid(l, o, receives, threshold);
            && r.orders == l.orders && Consistent(Drop(r, k)) && Traded(l, Drop(r, k), o, o.ForSale(), receives)
  {
    AreWalletsValid(l);
    hide Held, Consistent, ValidWallets, Paid, Sold, Part;
    PaidPosts(l, l.orders[k], receives, threshold);
    DropKeeps(Paid(l, l.orders[k], receives, threshold), k);
  }

  lemma PaidAndReplaced(l: Ledger, k: nat, pays: nat, receives: nat, threshold: nat)
    requires Consistent(l) && k < |l.orders| && pays <= l.orders[k].ForSale()
    ensures ValidWallets(l)
    ensures var o := l.orders[k];
            var r := Paid(l, o, receives, threshold);
            && r.orders == l.orders && Consistent(Replace(r, k, pays))
            && Traded(l, Replace(r, k, pays), o, pays, receives)
  {
    AreWalletsValid(l);
    hide Held, Consistent, ValidWallets, Paid, Sold;
    PaidPosts(l, l.orders[k], receives, threshold);
    ReplaceKeeps(Paid(l, l.orders[k], receives, threshold), k, pays);
  }

  /** What account `who` gains in asset `x` when the seller of `o` receives `receives` and has `returned` back. */
  function GainOf(l: Ledger, o: FeeOrder, receives: nat, returned: nat, x: nat, who: nat): int {
    if who != o.Seller() then 0
    else (if x == o.wants then receives - MarketFee(Of(l, x).options, receives) else 0)
         + (if x == o.sells then returned else 0)
  }

  predicate GainedAt(l: Ledger, r: Ledger, gain: int, x: nat, who: nat) {
    BalanceIn(r, x, who) == BalanceIn(l, x, who) + gain && Of(r, x).options == Of(l, x).options
  }

  /** The seller of `o`, and nobody else, gained what it received less the market fee and what was returned. */
  ghost predicate Gained(l: Ledger, r: Ledger, o: FeeOrder, receives: nat, returned: nat) {
    forall x, who :: GainedAt(l, r, GainOf(l, o, receives, returned, x, who), x, who)
  }

  lemma NoShare(o: FeeOrder)
    requires o.deferred == 0 && o.paid == 0
    ensures PaidShare(o, 0) == 0
  {}

  lemma SameWallets(l: Ledger, r: Ledger, x: nat, who: nat)
    requires l.wallets == r.wallets
    ensures BalanceIn(l, x, who) == BalanceIn(r, x, who) && Of(l, x) == Of(r, x)
  {}

  lemma FilledGains(l: Ledger, r: Ledger, o: FeeOrder, receives: nat, threshold: nat)
    requires ValidWallets(l) && r.wallets == Paid(l, o, receives, threshold).wallets
    ensures Gained(l, r, o, receives, 0)
  {
    hide Paid, ValidWallets, MarketFee, Of, BalanceIn, BalanceOf;
    forall x, who ensures GainedAt(l, r, GainOf(l, o, receives, 0, x, who), x, who) {
      PaidGives(l, o, receives, threshold, x, who);
      SameWallets(r, Paid(l, o, receives, threshold), x, who);
    }
  }

  function Returned(r: Remainder): nat { if r.Gone? then r.refund else 0 }

  /** In a match both sellers, and nobody else, gained what the other one paid less the market fee, and what was left
      of an order that is gone. */
  ghost predicate BothGained(l: Ledger, r: Ledger, o: FeeOrder, p: FeeOrder, d: Deal)
    requires d.takerPays <= o.ForSale() && d.takerReceives <= p.ForSale()
  {
    forall x, who :: GainedAt(l, r, GainOfBoth(l, o, p, d, x, who), x, who)
  }

  function GainOfBoth(l: Ledger, o: FeeOrder, p: FeeOrder, d: Deal, x: nat, who: nat): int
    requires d.takerPays <= o.ForSale() && d.takerReceives <= p.ForSale()
  {
    var t, m := Fill(o.order, d.takerPays, d.takerIsSmaller), Fill(p.order, d.takerReceives, true);
    GainOf(l, o, d.takerReceives, Returned(t), x, who) + GainOf(l, p, d.takerPays, Returned(m), x, who)
  }

  lemma BothGain(l0: Ledger, l1: Ledger, l2: Ledger, o: FeeOrder, p: FeeOrder, d: Deal)
    requires d.takerPays <= o.ForSale() && d.takerReceives <= p.ForSale()
    requires Gained(l0, l1, o, d.takerReceives, Returned(Fill(o.order, d.takerPays, d.takerIsSmaller)))
    requires Gained(l1, l2, p, d.takerPays, Returned(Fill(p.order, d.takerReceives, true)))
    ensures BothGained(l0, l2, o, p, d)
  {
    hide Fill, MarketFee, BalanceIn, Of;
    var t, m := Fill(o.order, d.takerPays, d.takerIsSmaller), Fill(p.order, d.takerReceives, true);
    forall x, who ensures GainedAt(l0, l2, GainOfBoth(l0, o, p, d, x, who), x, who) {
      assert GainedAt(l0, l1, GainOf(l0, o, d.takerReceives, Returned(t), x, who), x, who);
      assert GainedAt(l1, l2, GainOf(l1, p, d.takerPays, Returned(m), x, who), x, who);
    }
  }

  /** The result of a match of orders `k` and `j`: nothing, when the taker would pay something for nothing, or the deal
      of the two orders, which removes at least one of them. */
  ghost predicate MatchedAs(l: Ledger, r: Ledger, k: nat, j: nat, bits: nat)
    requires k < |l.orders| && j < |l.orders|
  {
    var taker, maker := l.orders[k].order, l.orders[j].order;
    match DealOf(taker, maker)
    case None => bits == 1 && r == l && taker.ToReceive() == 0
    case Some(d) =>
      && d.takerPays <= taker.forSale && d.takerReceives <= maker.forSale && bits != 0
      && bits == ResultBits(Fill(taker, d.takerPays, d.takerIsSmaller), Fill(maker, d.takerReceives, true))
      && |r.orders| == |l.orders| - (if bits == 3 then 2 else 1)
      && BothGained(l, r, l.orders[k], l.orders[j], d)
  }

  /** Order `id` is matched with order `maker` if both are there and cross. */
  ghost predicate MatchedWith(l: Ledger, r: Ledger, id: nat, maker: nat) {
    var k, j := Find(l.orders, id), Find(l.orders, maker);
    if k.Some? && j.Some? && CanMatch(l.orders, k.value, j.value)
    then exists bits :: MatchedAs(l, r, k.value, j.value, bits)
    else r == l
  }

  /** The ledgers between which order `id` is matched with each of `makers` in turn. */
  ghost predicate InTurn(steps: seq<Ledger>, id: nat, makers: seq<nat>) {
    |steps| == |makers| + 1 && forall i :: 0 <= i < |makers| ==> StepAt(steps, id, makers, i)
  }

  ghost predicate StepAt(steps: seq<Ledger>, id: nat, makers: seq<nat>, i: int)
    requires 0 <= i < |makers| < |steps|
  {
    MatchedWith(steps[i], steps[i + 1], id, makers[i])
  }

  lemma NextInTurn(steps: seq<Ledger>, id: nat, makers: seq<nat>, n: nat, r: Ledger)
    requires n < |makers| && InTurn(steps, id, makers[..n]) && MatchedWith(steps[n], r, id, makers[n])
    ensures InTurn(steps + [r], id, makers[..n + 1])
  {
    hide MatchedWith;
    var more, served := steps + [r], makers[..n + 1];
    forall i | 0 <= i < n + 1 ensures StepAt(more, id, served, i) {
      if i < n { assert StepAt(steps, id, makers[..n], i); }
    }
  }

  /** What is left of an order after a fill owes no fee: when it is cancelled, the seller has all of it back. */
  lemma CulledGains(l: Ledger, m: Ledger, r: Ledger, o: FeeOrder, rest: FeeOrder, receives: nat, threshold: nat)
    requires Gained(l, m, o, receives, 0)
    requires rest.Seller() == o.Seller() && rest.sells == o.sells && rest.deferred == 0 && rest.paid == 0
    requires r.wallets == Refunded(m, rest, 0, 0, threshold).wallets
    ensures Gained(l, r, o, receives, rest.ForSale())
  {
    hide Refunded, MarketFee, Of, BalanceIn, BalanceOf;
    forall x, who ensures GainedAt(l, r, GainOf(l, o, receives, rest.ForSale(), x, who), x, who) {
      RefundedGives(m, rest, 0, 0, threshold, x, who);
      SameWallets(r, Refunded(m, rest, 0, 0, threshold), x, who);
      assert GainedAt(l, m, GainOf(l, o, receives, 0, x, who), x, who);
    }
  }

  class FeeBook {
    var ledger: Ledger

    ghost predicate Valid()
      reads this
    {
      Consistent(ledger)
    }

    constructor (wallets: map<nat, Wallet>, pools: Balances)
      requires forall a :: a in wallets ==> ValidWallet(wallets[a])
      ensures Valid() && ledger == Ledger(wallets, pools, map[], map[], map[], [])
    {
      ledger := Ledger(wallets, pools, map[], map[], map[], []);
    }

    /** `cancel_limit_order` */
    method CancelOrder(k: nat, byChain: bool, skipFee: bool, schedule: nat, threshold: nat)
      requires Valid() && k < |ledger.orders|
      modifies this
      ensures Valid() && ledger.orders == Without(old(ledger).orders, k)
      ensures forall x :: Held(ledger, x) == Held(old(ledger), x)
      ensures var o := old(ledger).orders[k];
              var fee := CancelFee(o, byChain, skipFee, schedule);
              && fee <= o.deferred && PaidShare(o, fee) <= o.paid
              && var l := Refunded(old(ledger), o, fee, PaidShare(o, fee), threshold);
                 k < |l.orders| && ledger == Drop(l, k)
    {
      hide Held, Consistent, PaidShare, Part, Deposit, Accumulate, PayFee, Refill, Sold;
      var o, l := ledger.orders[k], ledger;
      var fee := CancelFee(o, byChain, skipFee, schedule);
      PaidShareBounds(o, fee);
      var share := PaidShare(o, fee);
      RefundedPosts(l, o, fee, share, threshold);
      l := PayFee(l, o.Seller(), fee, threshold);
      l := Accumulate(l, o.feeAsset, share);
      l := Deposit(l, o.sells, o.Seller(), o.ForSale());
      if o.paid == 0 {
        l := Deposit(l, CORE, o.Seller(), o.deferred - fee);
      } else {
        l := Deposit(l, o.feeAsset, o.Seller(), o.paid - share);
        l := Refill(l, o.feeAsset, o.deferred - fee);
      }
      DropKeeps(l, k);
      ledger := Drop(l, k);
    }

    /** `fill_limit_order`: the seller is paid through market fees and rewards, the deferred fee is paid with the first
        fill, and what is left of the order is cancelled if it asks for nothing. */
    method FillOrder(k: nat, pays: nat, receives: nat, cullIfSmall: bool, schedule: nat, threshold: nat)
      returns (gone: bool)
      requires Valid() && k < |ledger.orders| && pays <= ledger.orders[k].ForSale()
      modifies this
      ensures Valid() && Traded(old(ledger), ledger, old(ledger).orders[k], pays, receives)
      ensures gone == Fill(old(ledger).orders[k].order, pays, cullIfSmall).Gone?
      ensures var o := old(ledger).orders[k];
              Gained(old(ledger), ledger, o, receives, Returned(Fill(o.order, pays, cullIfSmall)))
      ensures ledger.orders == if gone then Without(old(ledger).orders, k)
                               else old(ledger).orders[k := old(ledger).orders[k].After(pays)]
      ensures ValidWallets(old(ledger))
      ensures !gone ==>
                var l := Paid(old(ledger), old(ledger).orders[k], receives, threshold);
                l.orders == old(ledger).orders && ledger == Replace(l, k, pays)
    {
      PaidAndDropped(ledger, k, receives, threshold);
      PaidAndReplaced(ledger, k, pays, receives, threshold);
      hide Held, Consistent, ValidWallets, Accumulate, PayFee, Proceeds, Sold, ToQuote, Part, Refunded, PaidShare;
      hide Gained;
      var o, l := ledger.orders[k], ledger;
      l := Proceeds(l, o.wants, o.Seller(), receives);
      l := PayFee(l, o.Seller(), o.deferred, threshold);
      l := Accumulate(l, o.feeAsset, o.paid);
      assert l == Paid(old(ledger), o, receives, threshold);
      if pays == o.ForSale() {
        ledger := Drop(l, k);
        FilledGains(old(ledger), ledger, o, receives, threshold);
        return true;
      }
      ledger := Replace(l, k, pays);
      FilledGains(old(ledger), ledger, o, receives, threshold);
      if cullIfSmall && ledger.orders[k].order.ToReceive() == 0 {
        ghost var m := ledger;
        CancelOrder(k, true, false, schedule, threshold);
        NoShare(o.After(pays));
        CulledGains(old(ledger), m, ledger, o, o.After(pays), receives, threshold);
        assert ledger.orders == Without(old(ledger).orders, k);
        return true;
      }
      return false;
    }

    /** `match` of two limit orders of opposite sides, the taker `k` and the maker `j`, at the maker's price: both
        sellers are paid through market fees and rewards, and what is held of every asset is unchanged. */
    method Match(k: nat, j: nat, schedule: nat, threshold: nat) returns (bits: nat)
      requires Valid() && k < |ledger.orders| && j < |ledger.orders| && Opposite(ledger.orders[k], ledger.orders[j])
      requires Crosses(ledger.orders[k].order, ledger.orders[j].order) && 0 < ledger.orders[j].order.ToReceive()
      modifies this
      ensures Valid() && forall x :: Held(ledger, x) == Held(old(ledger), x)
      ensures MatchedAs(old(ledger), ledger, k, j, bits)
    {
      hide Held, Consistent, ValidWallets, Part, Refunded, Paid, Drop, Replace, Crosses, DealOf, Gained, BothGained;
      var o, p := ledger.orders[k], ledger.orders[j];
      MatchRemovesSmaller(o.order, p.order);
      match DealOf(o.order, p.order) {
        case None => return 1;
        case Some(d) =>
          ghost var l0 := ledger;
          var takerGone := FillOrder(k, d.takerPays, d.takerReceives, d.takerIsSmaller, schedule, threshold);
          ghost var l1 := ledger;
          var j' := if takerGone && j > k then j - 1 else j;
          assert ledger.orders[j'] == p;
          var makerGone := FillOrder(j', d.takerReceives, d.takerPays, true, schedule, threshold);
          BothTraded(l0, l1, ledger, o, p, d);
          BothGain(l0, l1, ledger, o, p, d);
          bits := (if takerGone then 1 else 0) + (if makerGone then 2 else 0);
      }
    }

    /** The amount on sale leaves the seller's balance and the order takes over the fee, which the seller still owes; a
        fee in another asset is exchanged by its fee pool. */
    method Place(o: LimitOrder, sells: nat, wants: nat, feeAsset: nat, fee: nat, rate: Price) returns (ok: bool)
      requires Valid()
      modifies this
      ensures Valid()
      ensures ok <==> CanPlace(old(ledger), o, sells, feeAsset, fee, rate)
      ensures ok <==> && o.forSale <= BalanceIn(old(ledger), sells, o.seller)
                      && (feeAsset == CORE || ToBase(fee, rate) <= BalanceOf(old(ledger).pools, feeAsset))
      ensures !ok ==> ledger == old(ledger)
      ensures ok ==> && ledger == Placed(old(ledger), o, sells, wants, feeAsset, fee, rate)
                     && forall x :: Held(ledger, x) == Held(old(ledger), x) + if x == feeAsset then fee else 0
    {
      hide Held, Consistent, ToBase, Withdraw, Append;
      if !CanPlace(ledger, o, sells, feeAsset, fee, rate) { return false; }
      PlacedPosts(ledger, o, sells, wants, feeAsset, fee, rate);
      if feeAsset == CORE {
        ledger := Withdraw(ledger, sells, o.seller, o.forSale);
        ledger := Append(ledger, FeeOrder(o, sells, wants, fee, CORE, 0));
      } else {
        var deferred := ToBase(fee, rate);
        ledger := DrawPool(ledger, feeAsset, deferred);
        ledger := Withdraw(ledger, sells, o.seller, o.forSale);
        ledger := Append(ledger, FeeOrder(o, sells, wants, deferred, feeAsset, fee));
      }
      return true;
    }

    /** Creating a limit order, in the order of the source: it is placed, matched with the orders `makers` in turn as
        far as they cross it, and then the fee leaves the seller's balance, which the trades may have filled.
        `steps` are the ledgers before and after each match. */
    method Create(o: LimitOrder, sells: nat, wants: nat, feeAsset: nat, fee: nat, rate: Price, makers: seq<nat>,
                  schedule: nat, threshold: nat)
      returns (ok: bool, ghost steps: seq<Ledger>)
      requires Valid()
      modifies this
      ensures Valid() && forall x :: Held(ledger, x) == Held(old(ledger), x)
      ensures !ok ==> ledger == old(ledger)
      ensures CanPlace(old(ledger), o, sells, feeAsset, fee, rate) ==>
                && InTurn(steps, o.id, makers) && steps[0] == Placed(old(ledger), o, sells, wants, feeAsset, fee, rate)
      ensures ok <==> && CanPlace(old(ledger), o, sells, feeAsset, fee, rate)
                      && fee <= BalanceIn(steps[|makers|], feeAsset, o.seller)
      ensures ok ==> ledger == Withdraw(steps[|makers|], feeAsset, o.seller, fee)
    {
      hide Held, Consistent, CanPlace, Placed, Withdraw, Crosses, DealOf, Find, MatchedAs;
      var saved := ledger;
      steps := [];
      ok := Place(o, sells, wants, feeAsset, fee, rate);
      if !ok { return; }
      ghost var placed := ledger;
      steps := [ledger];
      for i := 0 to |makers|
        invariant Valid() && forall x :: Held(ledger, x) == Held(placed, x)
        invariant InTurn(steps, o.id, makers[..i]) && steps[0] == placed && steps[i] == ledger
      {
        var k, j := Find(ledger.orders, o.id), Find(ledger.orders, makers[i]);
        if k.Some? && j.Some? && CanMatch(ledger.orders, k.value, j.value) {
          var bits := Match(k.value, j.value, schedule, threshold);
        }
        NextInTurn(steps, o.id, makers, i, ledger);
        steps := steps + [ledger];
      }
      assert makers[..|makers|] == makers;
      if fee > BalanceIn(ledger, feeAsset, o.seller) {
        ledger := saved;
        return false, steps;
      }
      WithdrawPosts(ledger, feeAsset, o.seller, fee);
      PostedConsistent(ledger, Withdraw(ledger, feeAsset, o.seller, fee), feeAsset, -(fee as int));
      ledger := Withdraw(ledger, feeAsset, o.seller, fee);
    }
  }

  function Find(s: seq<FeeOrder>, id: nat): (k: Option<nat>)
    ensures k.Some? ==> k.value < |s| && s[k.value].order.id == id
    ensures k.None? ==> forall i :: 0 <= i < |s| ==> s[i].order.id != id
  {
    if s == [] then None
    else if s[0].order.id == id then Some(0)
    else match Find(s[1..], id)
         case None => None
         case Some(k) => Some(k + 1)
  }

  predicate CanMatch(s: seq<FeeOrder>, k: nat, j: nat) {
    && k < |s| && j < |s| && Opposite(s[k], s[j]) && Crosses(s[k].order, s[j].order) && 0 < s[j].order.ToReceive()
  }

  predicate CanPlace(l: Ledger, o: LimitOrder, sells: nat, feeAsset: nat, fee: nat, rate: Price) {
    && o.forSale <= BalanceIn(l, sells, o.seller)
    && (feeAsset != CORE ==> ToBase(fee, rate) <= BalanceOf(l.pools, feeAsset))
  }

  /** The ledger with the order in it, before the fee is paid. */
  function Placed(l: Ledger, o: LimitOrder, sells: nat, wants: nat, feeAsset: nat, fee: nat, rate: Price): Ledger
    requires CanPlace(l, o, sells, feeAsset, fee, rate)
  {
    if feeAsset == CORE then Append(Withdraw(l, sells, o.seller, o.forSale), FeeOrder(o, sells, wants, fee, CORE, 0))
    else
      var deferred := ToBase(fee, rate);
      Append(Withdraw(DrawPool(l, feeAsset, deferred), sells, o.seller, o.forSale),
             FeeOrder(o, sells, wants, deferred, feeAsset, fee))
  }

  lemma PlacedPosts(l: Ledger, o: LimitOrder, sells: nat, wants: nat, feeAsset: nat, fee: nat, rate: Price)
    requires Consistent(l) && CanPlace(l, o, sells, feeAsset, fee, rate)
    ensures var r := Placed(l, o, sells, wants, feeAsset, fee, rate);
            Consistent(r) && forall x :: Held(r, x) == Held(l, x) + if x == feeAsset then fee else 0
  {
    hide Held, Consistent, ToBase, Append;
    var deferred, paid, l1 := fee, 0, l;
    if feeAsset != CORE {
      deferred, paid := ToBase(fee, rate), fee;
      l1 := DrawPool(l, feeAsset, deferred);
      DrawPoolPosts(l, feeAsset, deferred);
      PostedConsistent(l, l1, CORE, -(deferred as int));
    }
    WithdrawPosts(l1, sells, o.seller, o.forSale);
    var l2 := Withdraw(l1, sells, o.seller, o.forSale);
    PostedConsistent(l1, l2, sells, -(o.forSale as int));
    AppendKeeps(l2, FeeOrder(o, sells, wants, deferred, feeAsset, paid));
  }

  /** Two orders of opposite sides of one market. */
  predicate Opposite(o: FeeOrder, p: FeeOrder) { o.sells == p.wants && o.wants == p.sells && o.sells != o.wants }

  lemma BothTraded(l0: Ledger, l1: Ledger, l2: Ledger, o: FeeOrder, p: FeeOrder, d: Deal)
    requires Opposite(o, p)
    requires Traded(l0, l1, o, d.takerPays, d.takerReceives) && Traded(l1, l2, p, d.takerReceives, d.takerPays)
    ensures forall x :: Held(l2, x) == Held(l0, x)
  {
    hide Held;
  }
}
