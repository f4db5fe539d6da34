/** Vesting balances: coin-days-destroyed and linear policies. */
module Vesting {
  import opened Common
  import opened Prices

  const MAX_SHARES: nat := 1_000_000_000_000_000

  predicate SumBelowMax(a: nat, b: nat) { a <= MAX_SHARES && b <= MAX_SHARES && a + b <= MAX_SHARES }

  // Coin-days destroyed

  datatype Cdd = Cdd(balance: nat, earned: nat, lastUpdate: nat, vestingSeconds: nat, startClaim: nat)

  /** Seconds a coin must be held before it is vested. */
  function Hold(s: Cdd): pos { if s.vestingSeconds > 1 then s.vestingSeconds else 1 }

  /** The coin-seconds `amount` costs to withdraw. */
  function ForHold(hold: pos, amount: nat): nat { amount * hold }

  function Held(s: Cdd, now: nat): nat
    requires s.lastUpdate <= now
  {
    s.balance * (now - s.lastUpdate)
  }

  /** `compute_coin_seconds_earned` */
  function Earned(s: Cdd, now: nat): nat
    requires s.lastUpdate <= now
  {
    Min(s.earned + Held(s, now), ForHold(Hold(s), s.balance))
  }

  /** `get_allowed_withdraw` */
  function Allowed(s: Cdd, now: nat): nat
    requires s.lastUpdate <= now
  {
    if now <= s.startClaim then 0 else Earned(s, now) / Hold(s)
  }

  predicate WithinHold(s: Cdd) { s.earned <= ForHold(Hold(s), s.balance) }

  function Updated(s: Cdd, now: nat): Cdd
    requires s.lastUpdate <= now
  {
    s.(earned := Earned(s, now), lastUpdate := now)
  }

  /** Nobody may withdraw more than the balance, and what may be withdrawn has been earned. */
  lemma AllowedBound(s: Cdd, now: nat)
    requires s.lastUpdate <= now
    ensures Allowed(s, now) <= s.balance && ForHold(Hold(s), Allowed(s, now)) <= Earned(s, now)
  {
    var earned := Earned(s, now);
    assert earned <= s.balance * Hold(s);
    hide Earned, Hold;
    DivLeast(earned, Hold(s), earned / Hold(s));
    DivLeast(earned, Hold(s), s.balance + 1);
    Distribute(s.balance + 1, 1, Hold(s));
  }

  /** What may be withdrawn is all that has been earned, from the start of the claim on, and nothing before. */
  lemma AllowedIsMost(s: Cdd, now: nat, amount: nat)
    requires s.lastUpdate <= now
    ensures now <= s.startClaim ==> Allowed(s, now) == 0
    ensures s.startClaim < now ==> (amount <= Allowed(s, now) <==> ForHold(Hold(s), amount) <= Earned(s, now))
  {
    hide Earned;
    DivLeast(Earned(s, now), Hold(s), amount);
  }

  /** A balance left alone for the holding time can be withdrawn completely. */
  lemma FullyVested(s: Cdd, now: nat)
    requires s.lastUpdate + Hold(s) <= now && s.startClaim < now
    ensures Allowed(s, now) == s.balance
  {
    MulMono(Hold(s), now - s.lastUpdate, s.balance);
    DivLeast(Earned(s, now), Hold(s), s.balance);
    AllowedBound(s, now);
  }

  /** An update at any time in between changes nothing that can be observed later. */
  lemma UpdateIsInvisible(s: Cdd, t: nat, now: nat)
    requires s.lastUpdate <= t <= now
    ensures Earned(Updated(s, t), now) == Earned(s, now)
    ensures Allowed(Updated(s, t), now) == Allowed(s, now)
    ensures Updated(Updated(s, t), now) == Updated(s, now)
  {
    assert s.balance * (now - s.lastUpdate) == s.balance * (t - s.lastUpdate) + s.balance * (now - t);
  }

  datatype Op = Update | Deposit(amount: nat) | DepositVested(amount: nat) | Withdraw(amount: nat)

  /** An operation at a time; one that is not allowed leaves the balance alone. */
  predicate IsAllowed(s: Cdd, op: Op, now: nat)
    requires s.lastUpdate <= now
  {
    match op
    case Update => true
    case Withdraw(a) => a <= Allowed(s, now)
    case _ => SumBelowMax(op.amount, s.balance)
  }

  function Step(s: Cdd, op: Op, now: nat): Cdd
    requires s.lastUpdate <= now
    requires IsAllowed(s, op, now)
  {
    var u := Updated(s, now);
    match op
    case Update => u
    case Deposit(a) => u.(balance := u.balance + a)
    case DepositVested(a) => u.(balance := u.balance + a, earned := u.earned + ForHold(Hold(s), a))
    case Withdraw(a) =>
      AllowedBound(s, now);
      HoldSum(Hold(s), a, Allowed(s, now) - a);
      u.(balance := u.balance - a, earned := u.earned - ForHold(Hold(s), a))
  }

  /** Every operation keeps the earned coin-seconds within the balance times the holding time. */
  lemma StepKeeps(s: Cdd, op: Op, now: nat)
    requires s.lastUpdate <= now && IsAllowed(s, op, now)
    ensures WithinHold(Step(s, op, now)) && Hold(Step(s, op, now)) == Hold(s)
    ensures op.Withdraw? ==> op.amount <= s.balance && ForHold(Hold(s), op.amount) <= Earned(s, now)
  {
    hide ForHold, Held, Allowed;
    match op {
      case Update =>
      case Withdraw(a) =>
        AllowedBound(s, now);
        HoldSum(Hold(s), a, Allowed(s, now) - a);
        HoldSum(Hold(s), a, s.balance - a);
      case _ => HoldSum(Hold(s), s.balance, op.amount);
    }
  }

  lemma HoldSum(h: pos, a: nat, b: nat)
    ensures ForHold(h, a + b) == ForHold(h, a) + ForHold(h, b)
  {}

  // Runs

  datatype Event = Event(now: nat, op: Op)

  predicate TimesFrom(events: seq<Event>, t: nat) {
    events == [] || (t <= events[0].now && TimesFrom(events[1..], events[0].now))
  }

  function Next(s: Cdd, e: Event): (r: Cdd)
    requires s.lastUpdate <= e.now
    ensures r.lastUpdate <= e.now
  {
    if IsAllowed(s, e.op, e.now) then Step(s, e.op, e.now) else s
  }

  function Run(s: Cdd, events: seq<Event>): Cdd
    requires TimesFrom(events, s.lastUpdate)
    decreases |events|
  {
    if events == [] then s
    else
      EarlierIsFine(events[1..], events[0].now, Next(s, events[0]).lastUpdate);
      Run(Next(s, events[0]), events[1..])
  }

  lemma EarlierIsFine(events: seq<Event>, t: nat, u: nat)
    requires TimesFrom(events, t) && u <= t
    ensures TimesFrom(events, u)
  {}

  /** Over every run: the earned coin-seconds stay within the balance times the holding time. */
  lemma {:induction false} RunKeeps(s: Cdd, events: seq<Event>)
    requires TimesFrom(events, s.lastUpdate) && WithinHold(s)
    ensures WithinHold(Run(s, events)) && Hold(Run(s, events)) == Hold(s)
    ensures Run(s, events).startClaim == s.startClaim
    decreases |events|
  {
    if events != [] {
      var e := events[0];
      var n := Next(s, e);
      EarlierIsFine(events[1..], e.now, n.lastUpdate);
      if IsAllowed(s, e.op, e.now) { StepKeeps(s, e.op, e.now); }
      RunKeeps(n, events[1..]);
    }
  }

  /** The same balance as far as anyone can tell from time `t` on. */
  ghost predicate SameFrom(s: Cdd, r: Cdd, t: nat) {
    && s.lastUpdate <= t && r.lastUpdate <= t
    && s.balance == r.balance && s.vestingSeconds == r.vestingSeconds && s.startClaim == r.startClaim
    && forall now :: t <= now ==> Earned(s, now) == Earned(r, now)
  }

  lemma SameNext(s: Cdd, r: Cdd, t: nat, e: Event)
    requires SameFrom(s, r, t) && t <= e.now
    ensures SameFrom(Next(s, e), Next(r, e), e.now)
  {
    assert Earned(s, e.now) == Earned(r, e.now);
  }

  lemma {:induction false} SameRun(s: Cdd, r: Cdd, t: nat, events: seq<Event>, until: nat)
    requires SameFrom(s, r, t) && TimesFrom(events, t) && EndsBy(events, until) && t <= until
    ensures TimesFrom(events, s.lastUpdate) && TimesFrom(events, r.lastUpdate)
    ensures SameFrom(Run(s, events), Run(r, events), until)
    decreases |events|
  {
    EarlierIsFine(events, t, s.lastUpdate);
    EarlierIsFine(events, t, r.lastUpdate);
    if events != [] {
      var e := events[0];
      SameNext(s, r, t, e);
      SameRun(Next(s, e), Next(r, e), e.now, events[1..], until);
    }
  }

  predicate EndsBy(events: seq<Event>, until: nat) {
    forall i :: 0 <= i < |events| ==> events[i].now <= until
  }

  lemma SameUpdated(s: Cdd, t: nat)
    requires s.lastUpdate <= t
    ensures SameFrom(s, Updated(s, t), t) && Next(s, Event(t, Update)) == Updated(s, t)
  {
    forall now | t <= now ensures Earned(s, now) == Earned(Updated(s, t), now) { UpdateIsInvisible(s, t, now); }
  }

  lemma EndsBySooner(events: seq<Event>, until: nat)
    requires EndsBy(events, until) && events != []
    ensures EndsBy(events[1..], until) && events[0].now <= until
  {}

  function WithUpdate(events: seq<Event>, i: nat, t: nat): seq<Event>
    requires i <= |events|
  {
    events[..i] + [Event(t, Update)] + events[i..]
  }

  lemma WithUpdateFirst(events: seq<Event>, t: nat)
    ensures WithUpdate(events, 0, t) == [Event(t, Update)] + events
  {}

  lemma WithUpdateTail(events: seq<Event>, i: nat, t: nat)
    requires 0 < i <= |events|
    ensures WithUpdate(events, i, t) == [events[0]] + WithUpdate(events[1..], i - 1, t)
  {
    assert events[..i] == [events[0]] + events[1..][..i - 1] && events[i..] == events[1..][i - 1..];
  }

  lemma RunCons(s: Cdd, e: Event, events: seq<Event>)
    requires TimesFrom([e] + events, s.lastUpdate)
    ensures TimesFrom(events, e.now) && s.lastUpdate <= e.now && TimesFrom(events, Next(s, e).lastUpdate)
    ensures Run(s, [e] + events) == Run(Next(s, e), events)
  {
    assert ([e] + events)[1..] == events;
    EarlierIsFine(events, e.now, Next(s, e).lastUpdate);
  }

  /** An extra update anywhere in a run makes no difference to the balance, to what may be withdrawn, or to
      what later operations do. */
  lemma {:induction false} ExtraUpdate(s: Cdd, events: seq<Event>, i: nat, t: nat, until: nat)
    requires i <= |events| && t <= until && EndsBy(events, until)
    requires s.lastUpdate <= until
    requires TimesFrom(events, s.lastUpdate) && TimesFrom(WithUpdate(events, i, t), s.lastUpdate)
    ensures SameFrom(Run(s, events), Run(s, WithUpdate(events, i, t)), until)
    decreases |events|
  {
    hide Run, Earned, Step, IsAllowed, SameFrom, EndsBy, TimesFrom, WithUpdate, Next, Updated;
    if i == 0 {
      assert WithUpdate(events, 0, t) == [Event(t, Update)] + events by { WithUpdateFirst(events, t); }
      RunCons(s, Event(t, Update), events);
      SameUpdated(s, t);
      SameRun(s, Updated(s, t), t, events, until);
    } else {
      var e := events[0];
      WithUpdateTail(events, i, t);
      assert events == [e] + events[1..];
      RunCons(s, e, events[1..]);
      RunCons(s, e, WithUpdate(events[1..], i - 1, t));
      EndsBySooner(events, until);
      ExtraUpdate(Next(s, e), events[1..], i - 1, t, until);
    }
  }

  /** The coin-seconds the balance was held for during a run, and those granted by vested deposits. */
  function CoinSeconds(s: Cdd, events: seq<Event>): nat
    requires TimesFrom(events, s.lastUpdate)
    decreases |events|
  {
    if events == [] then 0
    else
      var e := events[0];
      var n := Next(s, e);
      EarlierIsFine(events[1..], e.now, n.lastUpdate);
      Gained(s, e) + CoinSeconds(n, events[1..])
  }

  function Gained(s: Cdd, e: Event): nat
    requires s.lastUpdate <= e.now
  {
    if !IsAllowed(s, e.op, e.now) then 0
    else Held(s, e.now) + if e.op.DepositVested? then ForHold(Hold(s), e.op.amount) else 0
  }

  function Withdrawn(s: Cdd, events: seq<Event>): nat
    requires TimesFrom(events, s.lastUpdate)
    decreases |events|
  {
    if events == [] then 0
    else
      var e := events[0];
      EarlierIsFine(events[1..], e.now, Next(s, e).lastUpdate);
      (if e.op.Withdraw? && IsAllowed(s, e.op, e.now) then e.op.amount else 0) + Withdrawn(Next(s, e), events[1..])
  }

  /** Every coin withdrawn in a run was paid for with its holding time: no coin-second is spent twice. */
  lemma {:induction false} WithdrawalsAreEarned(s: Cdd, events: seq<Event>)
    requires TimesFrom(events, s.lastUpdate)
    ensures ForHold(Hold(s), Withdrawn(s, events)) + Run(s, events).earned <= s.earned + CoinSeconds(s, events)
    decreases |events|
  {
    if events != [] {
      hide ForHold, Held, Allowed;
      var e := events[0];
      var n := Next(s, e);
      EarlierIsFine(events[1..], e.now, n.lastUpdate);
      WithdrawalsAreEarned(n, events[1..]);
      var w := if e.op.Withdraw? && IsAllowed(s, e.op, e.now) then e.op.amount else 0;
      HoldSum(Hold(s), w, Withdrawn(n, events[1..]));
    }
  }

  class VestingBalance {
    var state: Cdd

    predicate Valid()
      reads this
    {
      WithinHold(state)
    }

    constructor (vestingSeconds: nat, startClaim: nat, now: nat)
      ensures Valid() && state == Cdd(0, 0, now, vestingSeconds, startClaim)
    {
      state := Cdd(0, 0, now, vestingSeconds, startClaim);
    }

    /** `update_coin_seconds_earned` */
    method UpdateEarned(now: nat)
      requires state.lastUpdate <= now
      modifies this
      ensures state == Updated(old(state), now)
    {
      state := state.(earned := Earned(state, now));
      state := state.(lastUpdate := now);
    }

    method Deposit(now: nat, amount: nat)
      requires Valid() && state.lastUpdate <= now && IsAllowed(state, Op.Deposit(amount), now)
      modifies this
      ensures Valid() && state == Step(old(state), Op.Deposit(amount), now)
    {
      StepKeeps(state, Op.Deposit(amount), now);
      UpdateEarned(now);
      state := state.(balance := state.balance + amount);
    }

    method DepositVested(now: nat, amount: nat)
      requires Valid() && state.lastUpdate <= now && IsAllowed(state, Op.DepositVested(amount), now)
      modifies this
      ensures Valid() && state == Step(old(state), Op.DepositVested(amount), now)
    {
      StepKeeps(state, Op.DepositVested(amount), now);
      UpdateEarned(now);
      state := state.(earned := state.earned + ForHold(Hold(state), amount));
      state := state.(balance := state.balance + amount);
    }

    /** Neither assert of the source can fail. */
    method Withdraw(now: nat, amount: nat)
      requires Valid() && state.lastUpdate <= now && IsAllowed(state, Op.Withdraw(amount), now)
      modifies this
      ensures Valid() && state == Step(old(state), Op.Withdraw(amount), now)
    {
      StepKeeps(state, Op.Withdraw(amount), now);
      assert amount <= state.balance;
      UpdateEarned(now);
      var needed := ForHold(Hold(state), amount);
      assert needed <= state.earned;
      state := state.(earned := state.earned - needed);
      state := state.(balance := state.balance - amount);
    }
  }

  // Linear vesting

  datatype Linear = Linear(begin: nat, cliff: nat, duration: nat, beginBalance: nat, balance: nat)

  /** The cliff has passed. */
  predicate IsPast(s: Linear, now: nat) { s.begin < now && s.cliff <= now - s.begin }

  function Vested(s: Linear, now: nat): nat {
    if !IsPast(s, now) then 0
    else if now - s.begin < s.duration then MulDown(now - s.begin, s.beginBalance, s.duration)
    else s.beginBalance
  }

  /** `get_allowed_withdraw` as computed; the source asserts that neither the amount withdrawn already nor
      the result is negative. */
  function LinearAllowed(s: Linear, now: nat): int {
    if !IsPast(s, now) then 0 else Vested(s, now) - (s.beginBalance - s.balance)
  }

  predicate LinearAsserts(s: Linear, now: nat) {
    IsPast(s, now) ==> 0 <= s.beginBalance - s.balance && 0 <= LinearAllowed(s, now)
  }

  lemma VestedGrows(s: Linear, t: nat, now: nat)
    requires t <= now
    ensures Vested(s, t) <= Vested(s, now) <= s.beginBalance
  {
    hide MulDown;
    if IsPast(s, t) && now - s.begin < s.duration {
      Monotone(t - s.begin, now - s.begin, s.beginBalance, s.duration);
    }
    if IsPast(s, now) && now - s.begin < s.duration {
      VestedBelow(s, now);
    }
    if IsPast(s, t) && t - s.begin < s.duration {
      VestedBelow(s, t);
    }
  }

  /** Nothing has vested before the cliff, the share of the time that has passed, rounded down, until the end, and
      all from then on. */
  lemma VestedIsShare(s: Linear, now: nat, amount: nat)
    ensures !IsPast(s, now) ==> Vested(s, now) == 0
    ensures IsPast(s, now) && s.duration <= now - s.begin ==> Vested(s, now) == s.beginBalance
    ensures IsPast(s, now) && now - s.begin < s.duration ==>
              (amount <= Vested(s, now) <==> amount * s.duration <= (now - s.begin) * s.beginBalance)
  {
    hide MulDown;
    if IsPast(s, now) && now - s.begin < s.duration {
      Adjoint(now - s.begin, s.beginBalance, s.duration, amount);
    }
  }

  lemma VestedBelow(s: Linear, t: nat)
    requires IsPast(s, t) && t - s.begin < s.duration
    ensures Vested(s, t) <= s.beginBalance
  {
    MulMono(t - s.begin, s.duration, s.beginBalance);
    Adjoint(t - s.begin, s.beginBalance, s.duration, s.beginBalance + 1);
    assert (s.beginBalance + 1) * s.duration == s.beginBalance * s.duration + s.duration;
  }

  datatype LinearOp = LinearDeposit(amount: nat) | LinearWithdraw(amount: nat)

  datatype LinearEvent = LinearEvent(now: nat, op: LinearOp)

  function LinearNext(s: Linear, e: LinearEvent): Linear {
    match e.op
    case LinearDeposit(a) => if SumBelowMax(a, s.balance) then s.(balance := s.balance + a) else s
    case LinearWithdraw(a) => if a <= LinearAllowed(s, e.now) && a <= s.balance then s.(balance := s.balance - a) else s
  }

  predicate LinearTimes(events: seq<LinearEvent>, t: nat) {
    events == [] || (t <= events[0].now && LinearTimes(events[1..], events[0].now))
  }

  function LinearRun(s: Linear, events: seq<LinearEvent>): Linear
    decreases |events|
  {
    if events == [] then s else LinearRun(LinearNext(s, events[0]), events[1..])
  }

  function LastTime(events: seq<LinearEvent>, t: nat): nat {
    if events == [] then t else LastTime(events[1..], events[0].now)
  }

  /** What has been withdrawn and not replaced by deposits has vested by `t`. */
  predicate WithinVested(s: Linear, t: nat) { s.beginBalance - s.balance <= Vested(s, t) }

  lemma LinearNextKeeps(s: Linear, e: LinearEvent, t: nat)
    requires WithinVested(s, t) && t <= e.now
    ensures WithinVested(LinearNext(s, e), e.now) && LinearAllowed(s, e.now) <= s.balance
    ensures LinearNext(s, e).beginBalance == s.beginBalance
  {
    VestedGrows(s, t, e.now);
  }

  /** From a fresh balance, over every run of deposits and allowed withdrawals, and at any later time: no
      more than the balance may be withdrawn, and the asserts hold exactly when the balance has not grown
      beyond the initial one, or the cliff has not passed. */
  lemma {:induction false} LinearRunKeeps(s: Linear, events: seq<LinearEvent>, t: nat, now: nat)
    requires WithinVested(s, t) && LinearTimes(events, t) && LastTime(events, t) <= now
    ensures var r := LinearRun(s, events);
            && WithinVested(r, now) && r.beginBalance == s.beginBalance && LinearAllowed(r, now) <= r.balance
            && (LinearAsserts(r, now) <==> !IsPast(r, now) || r.balance <= r.beginBalance)
    decreases |events|
  {
    if events == [] {
      VestedGrows(s, t, now);
    } else {
      LinearNextKeeps(s, events[0], t);
      LinearRunKeeps(LinearNext(s, events[0]), events[1..], events[0].now, now);
    }
  }

  /** Without deposits the asserts never fail. */
  lemma {:induction false} WithdrawOnly(s: Linear, events: seq<LinearEvent>, t: nat, now: nat)
    requires s.balance == s.beginBalance && LinearTimes(events, t) && LastTime(events, t) <= now
    requires forall i :: 0 <= i < |events| ==> events[i].op.LinearWithdraw?
    ensures LinearAsserts(LinearRun(s, events), now)
  {
    LinearRunKeeps(s, events, t, now);
    OnlyShrinks(s, events);
  }

  lemma {:induction false} OnlyShrinks(s: Linear, events: seq<LinearEvent>)
    requires forall i :: 0 <= i < |events| ==> events[i].op.LinearWithdraw?
    ensures LinearRun(s, events).balance <= s.balance
    decreases |events|
  {
    if events != [] { OnlyShrinks(LinearNext(s, events[0]), events[1..]); }
  }

  /** A deposit, which the policy allows, makes the assert on the amount withdrawn already fail. */
  lemma DepositTripsAssert()
    ensures var s := Linear(0, 0, 100, 50, 50);
            !LinearAsserts(LinearRun(s, [LinearEvent(10, LinearDeposit(1))]), 10)
  {
    var s := Linear(0, 0, 100, 50, 50);
    assert LinearRun(s, [LinearEvent(10, LinearDeposit(1))]) == LinearNext(s, LinearEvent(10, LinearDeposit(1)));
  }
}
