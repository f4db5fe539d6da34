/** The budget of each maintenance interval: what the reserve releases, the payroll of the workers, and the
    supply of the core asset. */
module Budget {
  import opened Common
  import opened Prices
  import opened Wallets

  const CYCLE_RATE: pos := 17
  const CYCLE_UNIT: pos := 0x1_0000_0000
  const DAY: pos := 86400

  /** How much of the reserve may be spent after `dt` seconds: a share that grows with time, rounded up. */
  function TotalBudget(reserve: nat, dt: nat): nat {
    Min(MulUp(reserve, dt * CYCLE_RATE, CYCLE_UNIT), reserve)
  }

  /** A non-empty reserve always releases something, however small, and never more than itself. */
  lemma BudgetIsPositive(reserve: nat, dt: nat)
    ensures TotalBudget(reserve, dt) <= reserve
    ensures TotalBudget(reserve, dt) > 0 <==> reserve > 0 && dt > 0
  {
    var rate := dt * CYCLE_RATE;
    Adjoint(reserve, rate, CYCLE_UNIT, 0);
    if reserve > 0 && dt > 0 {
      MulMono(1, reserve, rate);
    }
  }

  /** Waiting longer never releases less, and one interval releases the given share, rounded up, up to the reserve. */
  lemma BudgetGrows(reserve: nat, dt: nat, later: nat)
    requires dt <= later
    ensures TotalBudget(reserve, dt) <= TotalBudget(reserve, later)
    ensures TotalBudget(reserve, dt) < reserve ==> reserve * (dt * CYCLE_RATE) <= TotalBudget(reserve, dt) * CYCLE_UNIT
    ensures TotalBudget(reserve, dt) * CYCLE_UNIT < reserve * (dt * CYCLE_RATE) + CYCLE_UNIT
  {
    var a, b := dt * CYCLE_RATE, later * CYCLE_RATE;
    Bounds(reserve, a, CYCLE_UNIT);
    Bounds(reserve, b, CYCLE_UNIT);
    MulMono(a, b, reserve);
    Adjoint(reserve, a, CYCLE_UNIT, MulUp(reserve, b, CYCLE_UNIT));
  }

  // Payroll

  datatype PayType = Refund | VestingPay | Burn

  datatype Worker = Worker(id: nat, begin: nat, end: nat, votesFor: nat, votesAgainst: nat, dailyPay: nat,
                           payType: PayType)

  function Stake(w: Worker): int { w.votesFor - w.votesAgainst }

  predicate IsPaid(w: Worker, now: nat) { w.begin <= now <= w.end && Stake(w) > 0 }

  /** More votes first, then the lower id. */
  predicate Ahead(v: Worker, w: Worker) {
    if Stake(v) != Stake(w) then Stake(v) > Stake(w) else v.id < w.id
  }

  predicate Ranked(s: seq<Worker>) { forall i, j :: 0 <= i < j < |s| ==> Ahead(s[i], s[j]) }

  predicate DistinctIds(s: seq<Worker>) { forall i, j :: 0 <= i < j < |s| ==> s[i].id != s[j].id }

  function Insert(s: seq<Worker>, w: Worker): (r: seq<Worker>)
    ensures multiset(r) == multiset(s) + multiset{w} && |r| == |s| + 1
  {
    if s == [] || Ahead(w, s[0]) then
      assert [w] + s == [w] + s[..];
      [w] + s
    else
      assert s == [s[0]] + s[1..];
      [s[0]] + Insert(s[1..], w)
  }

  lemma {:induction false} InsertRanked(s: seq<Worker>, w: Worker)
    requires Ranked(s) && forall i :: 0 <= i < |s| ==> s[i].id != w.id
    ensures Ranked(Insert(s, w))
    ensures forall x :: x in Insert(s, w) <==> x in s || x == w
    decreases |s|
  {
    if s != [] && !Ahead(w, s[0]) {
      InsertRanked(s[1..], w);
      var t := Insert(s[1..], w);
      var r := [s[0]] + t;
      assert forall x :: x in s <==> x == s[0] || x in s[1..];
      forall i, j | 0 <= i < j < |r| ensures Ahead(r[i], r[j]) {
        assert r[j] == t[j - 1] && t[j - 1] in t;
        if i > 0 { assert r[i] == t[i - 1]; }
        else if r[j] != w {
          assert r[j] in s[1..];
          var k :| 0 <= k < |s[1..]| && s[1..][k] == r[j];
          assert Ahead(s[0], s[k + 1]);
        }
      }
    } else if s != [] {
      forall j | 0 <= j < |s| ensures Ahead(w, s[j]) { if j > 0 { assert Ahead(s[0], s[j]); } }
    }
  }

  /** The active workers with positive support, in the order they are paid. */
  method ActiveWorkers(workers: seq<Worker>, now: nat) returns (r: seq<Worker>)
    requires DistinctIds(workers)
    ensures Ranked(r)
    ensures forall w :: w in r <==> w in workers && IsPaid(w, now)
  {
    r := [];
    for i := 0 to |workers|
      invariant Ranked(r) && forall w :: w in r <==> w in workers[..i] && IsPaid(w, now)
    {
      if IsPaid(workers[i], now) {
        forall j | 0 <= j < |r| ensures r[j].id != workers[i].id {
          assert r[j] in r;
          var k :| 0 <= k < i && workers[k] == r[j];
        }
        InsertRanked(r, workers[i]);
        r := Insert(r, workers[i]);
      }
      assert workers[..i + 1] == workers[..i] + [workers[i]];
    }
    assert workers[..|workers|] == workers;
  }

  function Requested(w: Worker, passed: nat): nat { MulDown(w.dailyPay, passed, DAY) }

  ghost function SumOf(s: seq<nat>): nat {
    if s == [] then 0 else SumOf(s[..|s| - 1]) + s[|s| - 1]
  }

  lemma SumAppend(s: seq<nat>, x: nat)
    ensures SumOf(s + [x]) == SumOf(s) + x
  {
    assert (s + [x])[..|s|] == s;
  }

  /** Workers are paid in order out of `budget`, and `left` of it remains: a worker gets something only when
      all before it got everything, at most one is paid short, and money is left over only when all are paid
      in full. */
  ghost predicate PaidInOrder(ranked: seq<Worker>, passed: nat, budget: nat, pay: seq<nat>, left: nat) {
    && |pay| == |ranked| && SumOf(pay) + left == budget
    && (forall i :: 0 <= i < |pay| ==> pay[i] <= Requested(ranked[i], passed))
    && (forall i, j :: 0 <= i < j < |pay| && 0 < pay[j] ==> pay[i] == Requested(ranked[i], passed))
    && (0 < left ==> forall i :: 0 <= i < |pay| ==> pay[i] == Requested(ranked[i], passed))
  }

  /** `ranked` are the workers that are to be paid, and `pay` is what they get from the budget. */
  ghost predicate Payroll(workers: seq<Worker>, now: nat, last: nat, budget: nat, left: nat,
                          ranked: seq<Worker>, pay: seq<nat>)
  {
    && Ranked(ranked) && (forall w :: w in ranked <==> w in workers && IsPaid(w, now))
    && (0 < budget ==> last <= now && PaidInOrder(ranked, now - last, budget, pay, left))
  }

  /** At most one worker is paid a part of the pay only. */
  lemma AtMostOneShort(ranked: seq<Worker>, passed: nat, budget: nat, pay: seq<nat>, left: nat, i: nat, j: nat)
    requires PaidInOrder(ranked, passed, budget, pay, left) && i < |pay| && j < |pay|
    requires 0 < pay[i] < Requested(ranked[i], passed) && 0 < pay[j] < Requested(ranked[j], passed)
    ensures i == j
  {}

  /** The budget and the order decide all payments. */
  lemma {:induction false} PaymentsAreUnique(ranked: seq<Worker>, passed: nat, budget: nat,
                                             p: seq<nat>, left: nat, q: seq<nat>, left': nat)
    requires PaidInOrder(ranked, passed, budget, p, left) && PaidInOrder(ranked, passed, budget, q, left')
    ensures p == q && left == left'
    decreases |p|
  {
    PaidLength(ranked, passed, budget, p, left);
    PaidLength(ranked, passed, budget, q, left');
    hide PaidInOrder, Requested;
    if p != [] {
      var n := |p| - 1;
      LastPayment(ranked, passed, budget, p, left);
      LastPayment(ranked, passed, budget, q, left');
      PaymentsAreUnique(ranked[..n], passed, budget, p[..n], left + p[n], q[..n], left' + q[n]);
      assert p == p[..n] + [p[n]] && q == q[..n] + [q[n]];
    }
  }

  lemma PaidLength(ranked: seq<Worker>, passed: nat, budget: nat, p: seq<nat>, left: nat)
    requires PaidInOrder(ranked, passed, budget, p, left)
    ensures |p| == |ranked| && left <= budget && (p == [] ==> left == budget)
  {}

  lemma LastPayment(ranked: seq<Worker>, passed: nat, budget: nat, p: seq<nat>, left: nat)
    requires PaidInOrder(ranked, passed, budget, p, left) && p != []
    ensures var n := |p| - 1;
            && PaidInOrder(ranked[..n], passed, budget, p[..n], left + p[n])
            && p[n] == Min(left + p[n], Requested(ranked[n], passed))
  {}

  /** The balances after each worker got its pay; a refund is credited to nobody. */
  ghost function CreditAll(b: Balances, ranked: seq<Worker>, pay: seq<nat>): Balances
    requires |pay| <= |ranked|
  {
    if pay == [] then b
    else
      var n := |pay| - 1;
      var c := CreditAll(b, ranked, pay[..n]);
      if ranked[n].payType.Refund? then c else Credit(c, ranked[n].id, pay[n])
  }

  /** Each worker has its own pay, except for a refund, and nobody else anything. */
  lemma {:induction false} CreditAllGives(b: Balances, ranked: seq<Worker>, pay: seq<nat>, id: nat)
    requires |pay| <= |ranked| && DistinctIds(ranked)
    ensures var c := BalanceOf(CreditAll(b, ranked, pay), id);
            && (forall i :: 0 <= i < |pay| && ranked[i].id == id ==>
                  c == BalanceOf(b, id) + if ranked[i].payType.Refund? then 0 else pay[i])
            && ((forall i :: 0 <= i < |pay| ==> ranked[i].id != id) ==> c == BalanceOf(b, id))
    decreases |pay|
  {
    if pay != [] { CreditAllGives(b, ranked, pay[..|pay| - 1], id); }
  }

  /** The pay of a worker is the daily pay for the time passed, rounded down. */
  lemma RequestedIsShare(w: Worker, passed: nat, amount: nat)
    ensures amount <= Requested(w, passed) <==> amount * DAY <= w.dailyPay * passed
  {
    Adjoint(w.dailyPay, passed, DAY, amount);
  }

  // The core asset

  datatype Parameters = Parameters(witnessPay: nat, workerPerDay: nat, blockInterval: pos)

  datatype Record = Record(total: nat, witnessBudget: nat, workerBudget: nat, leftover: nat, supplyDelta: int)

  class CoreAsset {
    const maxSupply: nat
    var supply: int
    var accumulatedFees: nat
    var witnessBudget: nat
    var lastBudgetTime: nat
    var workers: seq<Worker>
    var paid: Balances            // received by workers, by id
    var witnessPaid: nat
    const elsewhere: nat          // all other holdings

    ghost function Holdings(): nat
      reads this
    {
      elsewhere + witnessPaid + Sum(paid) + accumulatedFees + witnessBudget
    }

    /** Every unit of the supply is held by someone, and the supply does not exceed its maximum. */
    ghost predicate Valid()
      reads this
    {
      Holdings() == supply <= maxSupply && DistinctIds(workers)
    }

    constructor (maxSupply: nat, supply: nat, workers: seq<Worker>)
      requires supply <= maxSupply && DistinctIds(workers)
      ensures Valid() && this.supply == supply && this.maxSupply == maxSupply && this.workers == workers
    {
      this.maxSupply, this.supply, this.workers, elsewhere := maxSupply, supply, workers, supply;
      accumulatedFees, witnessBudget, lastBudgetTime, witnessPaid, paid := 0, 0, 0, 0, map[];
    }

    /** `pay_worker`: a refund goes back to the reserve, other pay is held by or for the worker. */
    method PayWorker(w: Worker, pay: nat)
      modifies this`supply, this`paid
      ensures Sum(paid) - supply == old(Sum(paid) - supply) + pay
      ensures paid == if w.payType.Refund? then old(paid) else Credit(old(paid), w.id, pay)
      ensures supply == old(supply) - if w.payType.Refund? then pay else 0
    {
      SumCredited(paid, w.id, pay);
      match w.payType {
        case Refund => supply := supply - pay;
        case _ => paid := Credit(paid, w.id, pay);
      }
    }

    /** `pay_workers` */
    method PayWorkers(budget: nat, now: nat) returns (left: nat, ghost ranked: seq<Worker>, ghost pay: seq<nat>)
      requires DistinctIds(workers) && (0 < budget ==> lastBudgetTime <= now)
      modifies this`supply, this`paid
      ensures left <= budget && supply <= old(supply)
      ensures Payroll(workers, now, lastBudgetTime, budget, left, ranked, pay)
      ensures |pay| <= |ranked| && paid == CreditAll(old(paid), ranked, pay)
      ensures Sum(paid) - supply == old(Sum(paid) - supply) + (budget - left)
    {
      left := budget;
      var active := ActiveWorkers(workers, now);
      ranked, pay := active, [];
      if budget > 0 {
        var passed := now - lastBudgetTime;
        var i := 0;
        while i < |active| && left > 0
          invariant i == |pay| <= |active| && left <= budget && supply <= old(supply)
          invariant PaidInOrder(active[..i], passed, budget, pay, left) && paid == CreditAll(old(paid), active, pay)
          invariant Sum(paid) - supply == old(Sum(paid) - supply) + (budget - left)
          decreases |active| - i
        {
          var actual := Min(left, Requested(active[i], passed));
          PayWorker(active[i], actual);
          PayNext(active, passed, budget, pay, left, actual);
          left := left - actual;
          assert (pay + [actual])[..i] == pay;
          pay := pay + [actual];
          i := i + 1;
        }
        assert active[..|active|] == active;
        if i < |active| {
          pay := NothingLeft(active, passed, budget, pay, old(paid));
        }
      }
    }

    /** `process_budget`: the round spends at most the reserve, the fees and the unused witness budget. */
    method ProcessBudget(now: nat, nextMaintenance: nat, p: Parameters) returns (rec: Record)
      requires Valid() && now < nextMaintenance
      modifies this`supply, this`accumulatedFees, this`witnessBudget, this`lastBudgetTime, this`paid
      ensures Valid()
      ensures var reserve := maxSupply - old(supply) + old(accumulatedFees) + old(witnessBudget);
              && reserve >= 0
              && rec.total == (if old(lastBudgetTime) == 0 || now <= old(lastBudgetTime) then 0
                               else TotalBudget(reserve, now - old(lastBudgetTime)))
              && rec.witnessBudget + rec.workerBudget <= rec.total <= reserve
      ensures rec.leftover <= rec.workerBudget
      ensures rec.supplyDelta == rec.witnessBudget + rec.workerBudget - rec.leftover
                                 - old(accumulatedFees) - old(witnessBudget)
      ensures supply <= old(supply) + rec.supplyDelta
      ensures witnessBudget == rec.witnessBudget && accumulatedFees == 0 && lastBudgetTime == now
      ensures Sum(paid) - old(Sum(paid)) == rec.workerBudget - rec.leftover - (old(supply) + rec.supplyDelta - supply)
      ensures exists ranked, pay ::
                Payroll(workers, now, old(lastBudgetTime), rec.workerBudget, rec.leftover, ranked, pay) &&
                |pay| <= |ranked| && paid == CreditAll(old(paid), ranked, pay)
      ensures rec.witnessBudget == Min(p.witnessPay * MulUp(nextMaintenance - now, 1, p.blockInterval), rec.total)
      ensures rec.workerBudget ==
                Min(MulDown(p.workerPerDay, nextMaintenance - now, DAY), rec.total - rec.witnessBudget)
    {
      hide Payroll, CreditAll, DistinctIds, MulUp, MulDown;
      var timeToMaint := nextMaintenance - now;
      var blocksToMaint := MulUp(timeToMaint, 1, p.blockInterval);
      var reserve: nat := maxSupply - supply + accumulatedFees + witnessBudget;
      var total := 0;
      if lastBudgetTime != 0 && lastBudgetTime < now {
        total := TotalBudget(reserve, now - lastBudgetTime);
        BudgetIsPositive(reserve, now - lastBudgetTime);
      }
      var forWitnesses := Min(Times(p.witnessPay, blocksToMaint), total);
      var forWorkers := Min(MulDown(p.workerPerDay, timeToMaint, DAY), total - forWitnesses);
      ghost var before := Sum(paid);
      var left, ranked, pay := PayWorkers(forWorkers, now);
      var delta := forWitnesses + forWorkers - left - accumulatedFees - witnessBudget;
      rec := Record(total, forWitnesses, forWorkers, left, delta);
      supply := supply + delta;
      accumulatedFees := 0;
      witnessBudget := forWitnesses;
      lastBudgetTime := now;
    }

    /** The part of `update_signing_witness` that pays for a block. */
    method PayWitness(p: Parameters)
      requires Valid()
      modifies this`witnessBudget, this`witnessPaid
      ensures Valid()
      ensures witnessPaid == old(witnessPaid) + Min(p.witnessPay, old(witnessBudget))
    {
      var pay := Min(p.witnessPay, witnessBudget);
      witnessBudget := witnessBudget - pay;
      witnessPaid := witnessPaid + pay;
    }
  }

  function Times(x: nat, y: nat): nat { x * y }

  lemma PayNext(ranked: seq<Worker>, passed: nat, budget: nat, pay: seq<nat>, left: nat, actual: nat)
    requires |pay| < |ranked| && PaidInOrder(ranked[..|pay|], passed, budget, pay, left)
    requires actual == Min(left, Requested(ranked[|pay|], passed))
    ensures PaidInOrder(ranked[..|pay| + 1], passed, budget, pay + [actual], left - actual)
  {
    SumAppend(pay, actual);
    var r, p := ranked[..|pay| + 1], pay + [actual];
    forall i | 0 <= i < |pay| ensures p[i] == pay[i] && r[i] == ranked[..|pay|][i] {}
  }

  /** Once the budget is spent, the remaining workers get nothing. */
  lemma {:induction false} NothingLeft(ranked: seq<Worker>, passed: nat, budget: nat, pay: seq<nat>, b: Balances)
    returns (all: seq<nat>)
    requires |pay| <= |ranked| && PaidInOrder(ranked[..|pay|], passed, budget, pay, 0)
    ensures PaidInOrder(ranked, passed, budget, all, 0) && |all| == |ranked|
    ensures CreditAll(b, ranked, all) == CreditAll(b, ranked, pay)
    decreases |ranked| - |pay|
  {
    if |pay| == |ranked| {
      assert ranked[..|pay|] == ranked;
      return pay;
    }
    PayNext(ranked, passed, budget, pay, 0, 0);
    assert (pay + [0])[..|pay|] == pay;
    all := NothingLeft(ranked, passed, budget, pay + [0], b);
  }
}
