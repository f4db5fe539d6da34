/** The last irreversible block and the undo history kept above it. */
module Irreversible {
  import opened Common

  const THRESHOLD := 7000
  const MAX_UNDO_HISTORY := 10000

  // std::nth_element

  function CountUpTo(s: seq<nat>, v: int): nat {
    if s == [] then 0 else (if s[0] <= v then 1 else 0) + CountUpTo(s[1..], v)
  }

  function CountAtLeast(s: seq<nat>, v: int): nat {
    if s == [] then 0 else (if s[0] >= v then 1 else 0) + CountAtLeast(s[1..], v)
  }

  /** `v` is at position `k` when `s` is sorted. */
  predicate IsNth(s: seq<nat>, k: nat, v: nat) {
    v in s && CountUpTo(s, v - 1) <= k < CountUpTo(s, v)
  }

  lemma {:induction false} CountsAddUp(s: seq<nat>, v: int)
    ensures CountUpTo(s, v - 1) + CountAtLeast(s, v) == |s|
  {
    if s != [] { CountsAddUp(s[1..], v); }
  }

  lemma {:induction false} CountGrows(s: seq<nat>, v: int, w: int)
    requires v <= w
    ensures CountUpTo(s, v) <= CountUpTo(s, w)
    ensures CountUpTo(s, v) < CountUpTo(s, w) ==> exists x :: x in s && v < x <= w
  {
    if s != [] {
      CountGrows(s[1..], v, w);
      if CountUpTo(s, v) < CountUpTo(s, w) {
        if v < s[0] <= w { assert s[0] in s; }
        else { var x :| x in s[1..] && v < x <= w; assert x in s; }
      }
    }
  }

  lemma {:induction false} CountAll(s: seq<nat>, v: int)
    requires forall x :: x in s ==> x <= v
    ensures CountUpTo(s, v) == |s|
  {
    if s != [] {
      assert s[0] in s;
      forall x | x in s[1..] ensures x <= v { assert x in s; }
      CountAll(s[1..], v);
    }
  }

  lemma {:induction false} CountNone(s: seq<nat>, v: int)
    requires v < 0
    ensures CountUpTo(s, v) == 0
  {
    if s != [] { CountNone(s[1..], v); }
  }

  /** There is such an element: the least value with more than `k` elements up to it. */
  lemma NthExists(s: seq<nat>, k: nat, bound: nat) returns (v: nat)
    requires k < |s| && forall x :: x in s ==> x <= bound
    ensures IsNth(s, k, v)
  {
    CountAll(s, bound);
    CountNone(s, -1);
    v := 0;
    while CountUpTo(s, v) <= k
      invariant v <= bound && CountUpTo(s, v - 1) <= k
      decreases bound - v
    {
      v := v + 1;
    }
    CountGrows(s, v - 1, v);
  }

  lemma NthUnique(s: seq<nat>, k: nat, v: nat, w: nat)
    requires IsNth(s, k, v) && IsNth(s, k, w)
    ensures v == w
  {
    if v < w { CountGrows(s, v, w - 1); }
    if w < v { CountGrows(s, w, v - 1); }
  }

  lemma {:induction false} HasBound(s: seq<nat>) returns (bound: nat)
    ensures forall x :: x in s ==> x <= bound
  {
    if s == [] { return 0; }
    var b := HasBound(s[1..]);
    bound := Max(s[0], b);
    forall x | x in s ensures x <= bound { assert x == s[0] || x in s[1..]; }
  }

  lemma SomeNth(s: seq<nat>, k: nat)
    requires k < |s|
    ensures exists v :: IsNth(s, k, v)
  {
    var bound := HasBound(s);
    var v := NthExists(s, k, bound);
  }

  /** The element at position `k` when `s` is sorted. */
  ghost function Nth(s: seq<nat>, k: nat): (v: nat)
    requires k < |s|
    ensures IsNth(s, k, v)
  {
    SomeNth(s, k);
    var v :| IsNth(s, k, v);
    v
  }

  // The vote of the witnesses

  function ConfirmedBy(confirmed: map<nat, nat>, w: nat): nat { if w in confirmed then confirmed[w] else 0 }

  /** The last block numbers confirmed by the active witnesses. */
  function Votes(active: seq<nat>, confirmed: map<nat, nat>): (r: seq<nat>)
    ensures |r| == |active|
  {
    seq(|active|, i requires 0 <= i < |active| => ConfirmedBy(confirmed, active[i]))
  }

  /** The position in the sorted votes at which at least the threshold share is left. */
  function Offset(n: nat): nat { (FULL_PERCENT - THRESHOLD) * n / FULL_PERCENT }

  /** The active witnesses that have confirmed `block` or a later one. */
  ghost function Backers(active: seq<nat>, confirmed: map<nat, nat>, block: nat): set<nat> {
    set i: nat | i < |active| && block <= ConfirmedBy(confirmed, active[i])
  }

  /** At least the threshold share of the active witnesses has confirmed `block` or a later one. */
  ghost predicate Backed(active: seq<nat>, confirmed: map<nat, nat>, block: nat) {
    THRESHOLD * |active| <= |Backers(active, confirmed, block)| * FULL_PERCENT
  }

  /** The number rises from `irreversible` to `next`, the highest block the witnesses back, or stays if they back
      none above it. */
  ghost predicate Decides(active: seq<nat>, confirmed: map<nat, nat>, irreversible: nat, next: nat) {
    irreversible <= next &&
    forall b: nat :: irreversible < b ==> (Backed(active, confirmed, b) <==> b <= next)
  }

  lemma {:induction false} CountAppended(s: seq<nat>, x: nat, v: int)
    ensures CountAtLeast(s + [x], v) == CountAtLeast(s, v) + (if x >= v then 1 else 0)
  {
    if s == [] {
      assert s + [x] == [x];
    } else {
      CountAppended(s[1..], x, v);
      assert (s + [x])[1..] == s[1..] + [x];
    }
  }

  /** Each vote at or above a block is that of one witness that has confirmed it. */
  lemma {:induction false} VotesAreBackers(active: seq<nat>, confirmed: map<nat, nat>, block: nat)
    ensures CountAtLeast(Votes(active, confirmed), block) == |Backers(active, confirmed, block)|
  {
    hide Votes, Backers;
    if active == [] {
      NoVotes(confirmed, block);
    } else {
      var n := |active| - 1;
      VotesAreBackers(active[..n], confirmed, block);
      assert active == active[..n] + [active[n]];
      VoteAppended(active[..n], active[n], confirmed);
      BackerAppended(active[..n], active[n], confirmed, block);
      CountAppended(Votes(active[..n], confirmed), ConfirmedBy(confirmed, active[n]), block);
    }
  }

  lemma NoVotes(confirmed: map<nat, nat>, block: nat)
    ensures Votes([], confirmed) == [] && Backers([], confirmed, block) == {}
  {}

  lemma VoteAppended(active: seq<nat>, w: nat, confirmed: map<nat, nat>)
    ensures Votes(active + [w], confirmed) == Votes(active, confirmed) + [ConfirmedBy(confirmed, w)]
  {}

  lemma BackerAppended(active: seq<nat>, w: nat, confirmed: map<nat, nat>, block: nat)
    ensures |Backers(active + [w], confirmed, block)|
         == |Backers(active, confirmed, block)| + (if block <= ConfirmedBy(confirmed, w) then 1 else 0)
  {
    var before, after := Backers(active, confirmed, block), Backers(active + [w], confirmed, block);
    if block <= ConfirmedBy(confirmed, w) {
      assert after == before + {|active|};
    } else {
      assert after == before;
    }
  }

  /** The vote at the offset is the highest block that the threshold share of the witnesses backs. */
  lemma ThresholdBacking(active: seq<nat>, confirmed: map<nat, nat>, v: nat, block: nat)
    requires IsNth(Votes(active, confirmed), Offset(|active|), v)
    ensures Backed(active, confirmed, block) <==> block <= v
  {
    var votes := Votes(active, confirmed);
    VotesAreBackers(active, confirmed, block);
    CountsAddUp(votes, block);
    if v < block { CountGrows(votes, v, block - 1); } else { CountGrows(votes, block - 1, v - 1); }
  }

  /** The irreversible number after the witnesses have voted: it is only ever raised. */
  ghost function NextIrreversible(active: seq<nat>, confirmed: map<nat, nat>, irreversible: nat): nat
    requires |active| > 0
  {
    Max(irreversible, Nth(Votes(active, confirmed), Offset(|active|)))
  }

  /** `update_last_irreversible_block`. */
  method UpdateLastIrreversible(active: seq<nat>, confirmed: map<nat, nat>, irreversible: nat) returns (r: nat)
    requires |active| > 0
    ensures r == NextIrreversible(active, confirmed, irreversible)
    ensures r > irreversible ==> exists w :: w in active && ConfirmedBy(confirmed, w) == r
    ensures Decides(active, confirmed, irreversible, r)
  {
    hide Backed, CountUpTo, CountAtLeast;
    var votes := [];
    for i := 0 to |active|
      invariant votes == Votes(active, confirmed)[..i]
    {
      votes := votes + [ConfirmedBy(confirmed, active[i])];
    }
    assert votes == Votes(active, confirmed);
    var offset := Offset(|votes|);
    SomeNth(votes, offset);
    var nth :| nth in votes && IsNth(votes, offset, nth);
    NthUnique(votes, offset, nth, Nth(votes, offset));
    r := if nth > irreversible then nth else irreversible;
    var i :| 0 <= i < |votes| && votes[i] == nth;
    assert active[i] in active && ConfirmedBy(confirmed, active[i]) == nth;
    forall b: nat ensures Backed(active, confirmed, b) <==> b <= nth { ThresholdBacking(active, confirmed, nth, b); }
  }

  // The chain

  /** What a block changes that matters here. */
  datatype ChainState = ChainState(head: nat, irreversible: nat, active: seq<nat>, confirmed: map<nat, nat>)

  ghost predicate ValidState(s: ChainState) {
    && s.irreversible <= s.head && |s.active| > 0
    && forall w :: w in s.confirmed ==> s.confirmed[w] <= s.head
  }

  /** The state after a block signed by `signer`: the witness confirms it, and the witnesses that were active
      before it vote; `active` are the ones elected since. */
  ghost function Step(s: ChainState, signer: nat, active: seq<nat>): ChainState
    requires |s.active| > 0
  {
    var confirmed := s.confirmed[signer := s.head + 1];
    ChainState(s.head + 1, NextIrreversible(s.active, confirmed, s.irreversible), active, confirmed)
  }

  lemma StepKeeps(s: ChainState, signer: nat, active: seq<nat>)
    requires ValidState(s) && |active| > 0
    ensures var next := Step(s, signer, active);
            && ValidState(next) && s.irreversible <= next.irreversible
            && next.head == s.head + 1
            && (forall w :: ConfirmedBy(next.confirmed, w) ==
                              if w == signer then next.head else ConfirmedBy(s.confirmed, w))
            && Decides(s.active, next.confirmed, s.irreversible, next.irreversible)
  {
    hide Backed, CountUpTo;
    var next := Step(s, signer, active);
    var votes := Votes(s.active, next.confirmed);
    var nth := Nth(votes, Offset(|s.active|));
    forall b: nat ensures Backed(s.active, next.confirmed, b) <==> b <= nth {
      ThresholdBacking(s.active, next.confirmed, nth, b);
    }
    var i :| 0 <= i < |votes| && votes[i] == nth;
    assert ConfirmedBy(next.confirmed, s.active[i]) <= next.head;
  }

  ghost predicate Linked(s: ChainState, next: ChainState) {
    && |s.active| > 0 && |next.active| > 0
    && exists signer :: next == Step(s, signer, next.active)
  }

  /** The states of a chain from the genesis on, each the step from the one before. */
  ghost predicate IsChain(c: seq<ChainState>) {
    && c != [] && |c[0].active| > 0 && c[0] == ChainState(0, 0, c[0].active, map[])
    && (forall i, j :: 0 <= i < |c| && j < |c| && j == i + 1 ==> Linked(c[i], c[j]))
  }

  /** Along any chain the irreversible number never falls. */
  lemma {:induction false} NeverFalls(c: seq<ChainState>, i: nat, j: nat)
    requires IsChain(c) && i <= j < |c|
    ensures c[i].irreversible <= c[j].irreversible
    decreases j - i
  {
    if i < j {
      NeverFalls(c, i, j - 1);
      assert Linked(c[j - 1], c[j]);
    }
  }

  /** Every state of a chain is valid, and block numbers are consecutive. */
  lemma {:induction false} ChainIsValid(c: seq<ChainState>, i: nat)
    requires IsChain(c) && i < |c|
    ensures ValidState(c[i]) && c[i].head == i
  {
    if i > 0 {
      ChainIsValid(c, i - 1);
      assert Linked(c[i - 1], c[i]);
      var signer :| c[i] == Step(c[i - 1], signer, c[i].active);
      StepKeeps(c[i - 1], signer, c[i].active);
    }
  }

  /** Every irreversible number of a chain was set by one of its blocks, and then backed by the threshold share
      of the witnesses active at that block. */
  lemma {:induction false} EachAdvanceIsBacked(c: seq<ChainState>, i: nat)
    requires IsChain(c) && i < |c| && c[i].irreversible > 0
    ensures exists k :: 0 < k <= i && c[k - 1].irreversible < c[k].irreversible == c[i].irreversible
                        && Decides(c[k - 1].active, c[k].confirmed, c[k - 1].irreversible, c[i].irreversible)
    decreases i
  {
    assert Linked(c[i - 1], c[i]);
    var signer :| c[i] == Step(c[i - 1], signer, c[i].active);
    ChainIsValid(c, i - 1);
    StepKeeps(c[i - 1], signer, c[i].active);
    if c[i - 1].irreversible == c[i].irreversible { EachAdvanceIsBacked(c, i - 1); }
  }

  lemma NotEmpty(c: seq<ChainState>, i: nat)
    requires i < |c| && ValidState(c[i])
    ensures |c[i].active| > 0 && c[i].irreversible <= c[i].head
  {}

  lemma StartOfChain(c: seq<ChainState>, n: nat)
    requires IsChain(c) && 0 < n <= |c|
    ensures IsChain(c[..n])
  {}

  lemma ExtendChain(c: seq<ChainState>, s: ChainState, signer: nat, active: seq<nat>)
    requires IsChain(c + [s]) && |active| > 0
    ensures |s.active| > 0 && IsChain(c + [s] + [Step(s, signer, active)])
  {
    ChainIsValid(c + [s], |c|);
    var d := c + [s] + [Step(s, signer, active)];
    forall i, j | 0 <= i < |d| && j < |d| && j == i + 1 ensures Linked(d[i], d[j]) {
      if i < |c| { assert d[i] == (c + [s])[i] && d[j] == (c + [s])[j]; }
    }
  }

  /** Whether the rest of a block is valid, and if not, whether that shows before the undo limit is set. */
  datatype Fate = Accepted | RefusedEarly | RefusedLate

  class History {
    var state: ChainState
    var committed: seq<ChainState>     // the state before each block that can be undone
    var sessions: nat                  // active sessions above the committed ones
    var maxSize: nat
    ghost var past: seq<ChainState>    // the state before each block of the chain
    ghost var highest: nat             // the highest irreversible number the chain ever had

    /** All states of the chain, from the genesis on. */
    ghost function Chain(): seq<ChainState>
      reads this
    {
      past + [state]
    }

    /** Between operations at most the session of the pending transactions is active. */
    ghost predicate Valid()
      reads this
    {
      && IsChain(Chain()) && IsEndOf(committed, past) && state.irreversible <= highest && sessions <= 1
      && 1 <= maxSize && state.head + 1 <= highest + maxSize
      && Covered()
    }

    /** Every block above the highest irreversible one can be undone. */
    ghost predicate Covered()
      reads this
    {
      state.head <= highest + |committed|
    }

    constructor (active: seq<nat>)
      requires |active| > 0
      ensures Valid() && state == ChainState(0, 0, active, map[]) && committed == [] && sessions == 0 && highest == 0
    {
      state := ChainState(0, 0, active, map[]);
      committed, past, sessions, maxSize, highest := [], [], 0, 256, 0;
    }

    /** The oldest states `start_undo_session` drops to fit the limit. */
    function Excess(): nat
      reads this
    {
      if |committed| + sessions > maxSize then |committed| + sessions - maxSize else 0
    }

    /** `start_undo_session`.  It never drops the state of an active session while these fit the limit. */
    method StartSession()
      requires sessions <= maxSize
      modifies this`committed, this`sessions
      ensures sessions == old(sessions) + 1
      ensures IsEndOf(committed, old(committed)) && |committed| + old(Excess()) == |old(committed)|
    {
      while |committed| + sessions > maxSize
        invariant sessions == old(sessions) && Excess() <= old(Excess())
        invariant committed == old(committed)[old(Excess()) - Excess()..]
      {
        committed := committed[1..];
      }
      sessions := sessions + 1;
    }

    /** `push_proposal`, with `nested` proposals executed one inside the other: however deep, the limit makes
        room first and no committed state is dropped. */
    method PushProposal(nested: nat)
      modifies this`committed, this`sessions, this`maxSize
      ensures committed == old(committed) && sessions == old(sessions) && maxSize >= old(maxSize)
      decreases nested
    {
      if |committed| + sessions >= maxSize {
        maxSize := |committed| + sessions + 1;
      }
      StartSession();
      if nested > 0 { PushProposal(nested - 1); }
      sessions := sessions - 1;      // merged into the session below, or undone
    }

    method PushProposals(nested: seq<nat>)
      modifies this`committed, this`sessions, this`maxSize
      ensures committed == old(committed) && sessions == old(sessions) && maxSize >= old(maxSize)
      ensures old(Valid()) ==> Valid()
    {
      for i := 0 to |nested|
        invariant committed == old(committed) && sessions == old(sessions) && maxSize >= old(maxSize)
      {
        PushProposal(nested[i]);
      }
    }

    /** A session on the committed states, unless one is active already: no state that is needed is dropped. */
    method Begin()
      requires Valid()
      modifies this`committed, this`sessions
      ensures Valid() && sessions == 1 && IsEndOf(committed, old(committed))
    {
      hide IsChain, IsEndOf;
      EndOfItself(committed);
      if sessions == 0 {
        StartSession();
        EndOfEnd(committed, old(committed), past);
      }
    }

    /** A session inside another one, and proposals in it; it is merged or undone. */
    method Nest(proposals: seq<nat>)
      requires Valid()
      modifies this`committed, this`sessions, this`maxSize
      ensures Valid() && sessions == old(sessions) && IsEndOf(committed, old(committed))
    {
      hide IsChain, IsEndOf;
      StartSession();
      EndOfEnd(committed, old(committed), past);
      PushProposals(proposals);
      sessions := sessions - 1;
    }

    /** `_push_transaction`: a temporary session inside the pending one. */
    method PushTransaction(proposals: seq<nat>)
      requires Valid()
      modifies this`committed, this`sessions, this`maxSize
      ensures Valid() && sessions == 1
      ensures IsEndOf(committed, old(committed))
    {
      hide Valid, IsEndOf;
      Begin();
      ghost var c := committed;
      Nest(proposals);
      EndOfEnd(committed, c, old(committed));
    }

    /** `validate_transaction`: the session is undone. */
    method ValidateTransaction(proposals: seq<nat>)
      requires Valid()
      modifies this`committed, this`sessions, this`maxSize
      ensures Valid() && sessions == old(sessions)
      ensures IsEndOf(committed, old(committed))
    {
      Nest(proposals);
    }

    method ClearPending()
      requires Valid()
      modifies this`sessions
      ensures Valid() && sessions == 0
    {
      sessions := 0;
    }

    /** Applying one block.  `proposals` and `expired` are the proposals its transactions and their expiry
        execute, `fate` what becomes of the rest of it, and `newActive` the witnesses elected if it crosses a
        maintenance interval. */
    method PushBlock(signer: nat, proposals: seq<nat>, expired: seq<nat>, newActive: seq<nat>, fate: Fate)
      returns (ok: bool)
      requires Valid() && |newActive| > 0
      modifies this
      ensures Valid() && sessions == 0
      ensures ok <==> fate.Accepted? && old(state.head) + 1 - old(state.irreversible) < MAX_UNDO_HISTORY
      ensures ok ==> |old(state).active| > 0 && state == Step(old(state), signer, newActive)
                     && past == old(past) + [old(state)]
      ensures ok ==> highest == Max(old(highest), state.irreversible)
      ensures ok && old(highest == state.irreversible) ==> state.head <= state.irreversible + |committed|
      ensures ok ==> exists kept :: IsEndOf(kept, old(committed)) && committed == kept + [old(state)]
      ensures !ok ==> state == old(state) && past == old(past) && highest == old(highest)
                      && IsEndOf(committed, old(committed))
    {
      hide IsChain, IsEndOf, NextIrreversible, Backed, Votes, ValidState;
      ChainIsValid(Chain(), |past|);
      NotEmpty(Chain(), |past|);
      sessions := 0;
      Begin();
      PushProposals(proposals);
      var head := state.head + 1;
      if head - state.irreversible >= MAX_UNDO_HISTORY || fate.RefusedEarly? {
        sessions := 0;
        return false;
      }
      maxSize := head - state.irreversible + 1;
      var confirmed := state.confirmed[signer := head];
      var irreversible := UpdateLastIrreversible(state.active, confirmed, state.irreversible);
      PushProposals(expired);
      sessions := 0;
      if fate.RefusedLate? {
        return false;
      }
      Advance(signer, newActive, irreversible);
      return true;
    }

    /** The new block is committed. */
    method Advance(signer: nat, newActive: seq<nat>, irreversible: nat)
      requires Valid() && |newActive| > 0 && |state.active| > 0
      requires maxSize >= state.head + 2 - state.irreversible
      requires irreversible == Step(state, signer, newActive).irreversible
      modifies this`state, this`committed, this`past, this`highest
      ensures Valid() && state == Step(old(state), signer, newActive)
      ensures past == old(past) + [old(state)] && committed == old(committed) + [old(state)]
      ensures highest == Max(old(highest), state.irreversible) && old(state.irreversible) <= state.irreversible
    {
      hide IsChain, IsEndOf, ValidState, Votes, Nth;
      ExtendChain(past, state, signer, newActive);
      EndExtends(committed, past, state);
      committed, past := committed + [state], past + [state];
      state := ChainState(state.head + 1, irreversible, newActive, state.confirmed[signer := state.head + 1]);
      highest := Max(highest, irreversible);
    }

    /** `pop_block`: every block above the highest irreversible one can be popped. */
    method PopBlock() returns (ok: bool)
      requires Valid()
      modifies this`state, this`committed, this`past, this`sessions
      ensures Valid() && sessions == 0
      ensures ok <==> old(committed) != []
      ensures state.head > highest ==> ok
      ensures ok ==> committed + [state] == old(committed) && state.head + 1 == old(state.head)
      ensures ok ==> past + [state] == old(past)
      ensures !ok ==> state == old(state) && past == old(past)
    {
      hide IsChain, ValidState;
      sessions := 0;
      if committed == [] { return false; }
      ghost var n := |past| - 1;
      NeverFalls(Chain(), n, n + 1);
      ChainIsValid(Chain(), n);
      ChainIsValid(Chain(), n + 1);
      StartOfChain(Chain(), n + 1);
      assert Chain()[..n + 1] == past[..n] + [past[n]];
      state := committed[|committed| - 1];
      committed, past := committed[..|committed| - 1], past[..n];
      return true;
    }
  }

  /** `s` is what is left of `t` when its oldest elements are dropped. */
  predicate IsEndOf<T(==)>(s: seq<T>, t: seq<T>) { |s| <= |t| && s == t[|t| - |s|..] }

  lemma EndOfItself<T>(s: seq<T>)
    ensures IsEndOf(s, s)
  {}

  lemma EndOfEnd<T>(s: seq<T>, t: seq<T>, u: seq<T>)
    requires IsEndOf(s, t) && IsEndOf(t, u)
    ensures IsEndOf(s, u)
  {}

  lemma EndExtends<T>(s: seq<T>, t: seq<T>, x: T)
    requires IsEndOf(s, t)
    ensures IsEndOf(s + [x], t + [x])
  {}
}
