/** Who produces a block when: the shuffle of the active witnesses, slots and missed blocks. */
module WitnessSchedule {
  import opened Common
  import opened Prices

  type Witnesses = seq<nat>

  predicate Distinct(s: Witnesses) { forall i, j :: 0 <= i < j < |s| ==> s[i] != s[j] }

  // The shuffle

  const MULTIPLIER: bv64 := 2685821657736338717

  /** The pseudo-random number for position `i`; all of it wraps at 64 bits. */
  function Random(now: bv32, i: bv32): bv64 {
    var k0: bv64 := ((now as bv64) << 32) + (i as bv64) * MULTIPLIER;
    var k1 := k0 ^ (k0 >> 12);
    var k2 := k1 ^ (k1 << 25);
    var k3 := k2 ^ (k2 >> 27);
    k3 * MULTIPLIER
  }

  /** Which of the `left` elements from position `i` on comes next. */
  function Draw(now: bv32, i: nat, left: nat): (d: nat)
    requires i < 0x1_0000_0000 && 0 < left
    ensures d < left
  {
    (Random(now, i as bv32) as nat) % left
  }

  function Swap(s: Witnesses, i: nat, j: nat): (r: Witnesses)
    requires i < |s| && j < |s|
  {
    s[i := s[j]][j := s[i]]
  }

  /** Draws for `n` positions: the number for position `i` is below `n - i`. */
  predicate IsDraws(draws: seq<nat>, n: nat) {
    |draws| == n && forall i :: 0 <= i < n ==> draws[i] < n - i
  }

  /** What the swaps from position `i` on make of `s`. */
  function ShuffleFrom(s: Witnesses, draws: seq<nat>, i: nat): (r: Witnesses)
    requires i <= |s| && IsDraws(draws, |s|)
    ensures |r| == |s|
    decreases |s| - i
  {
    if i == |s| then s else ShuffleFrom(Swap(s, i, i + draws[i]), draws, i + 1)
  }

  function DrawsAt(now: bv32, n: nat): seq<nat>
    requires n < 0x1_0000_0000
  {
    seq<nat>(n, i requires 0 <= i < n => Draw(now, i, n - i))
  }

  lemma DrawsAreDraws(now: bv32, n: nat)
    requires n < 0x1_0000_0000
    ensures IsDraws(DrawsAt(now, n), n) && |DrawsAt(now, n)| == n
    ensures forall i :: 0 <= i < n ==> DrawsAt(now, n)[i] == Draw(now, i, n - i)
  {
    hide Draw;
    forall i | 0 <= i < n ensures DrawsAt(now, n)[i] == Draw(now, i, n - i) < n - i {}
  }

  lemma SwapKeeps(s: Witnesses, i: nat, j: nat)
    requires i <= j < |s|
    ensures |Swap(s, i, j)| == |s| && multiset(Swap(s, i, j)) == multiset(s) && Swap(s, i, j)[..i] == s[..i]
    ensures Swap(s, i, j)[i] == s[j]
    ensures Distinct(s) ==> Distinct(Swap(s, i, j))
  {}

  /** A shuffle is a permutation, for all draws. */
  lemma {:induction false} ShuffleIsPermutation(s: Witnesses, draws: seq<nat>, i: nat)
    requires i <= |s| && IsDraws(draws, |s|)
    ensures multiset(ShuffleFrom(s, draws, i)) == multiset(s) && ShuffleFrom(s, draws, i)[..i] == s[..i]
    ensures Distinct(s) ==> Distinct(ShuffleFrom(s, draws, i))
    decreases |s| - i
  {
    hide Distinct, Swap;
    if i < |s| {
      var t := Swap(s, i, i + draws[i]);
      SwapKeeps(s, i, i + draws[i]);
      assert |t| == |s| && t[..i] == s[..i];
      ShuffleIsPermutation(t, draws, i + 1);
      var r := ShuffleFrom(t, draws, i + 1);
      assert ShuffleFrom(s, draws, i) == r;
      assert r[..i] == r[..i + 1][..i] && t[..i] == t[..i + 1][..i];
    }
  }

  lemma SameIndex(s: Witnesses, i: nat, j: nat)
    requires Distinct(s) && i < |s| && j < |s| && s[i] == s[j]
    ensures i == j
  {}

  /** Different draws give different orders: no order is favoured by the swaps. */
  lemma {:induction false} ShuffleIsInjective(s: Witnesses, d: seq<nat>, e: seq<nat>, i: nat)
    requires Distinct(s) && i <= |s| && IsDraws(d, |s|) && IsDraws(e, |s|)
    requires ShuffleFrom(s, d, i) == ShuffleFrom(s, e, i)
    ensures d[i..] == e[i..]
    decreases |s| - i
  {
    if i < |s| {
      hide Distinct, ShuffleFrom, Swap, IsDraws;
      ShuffleFirst(s, d, i);
      ShuffleFirst(s, e, i);
      SameIndex(s, i + d[i], i + e[i]);
      ShuffleIsInjective(Swap(s, i, i + d[i]), d, e, i + 1);
      assert d[i..] == [d[i]] + d[i + 1..] && e[i..] == [e[i]] + e[i + 1..];
    }
  }

  /** A position keeps what was drawn for it. */
  lemma ShuffleFirst(s: Witnesses, d: seq<nat>, i: nat)
    requires i < |s| && IsDraws(d, |s|)
    ensures i + d[i] < |s| == |d| && |Swap(s, i, i + d[i])| == |s|
    ensures ShuffleFrom(s, d, i) == ShuffleFrom(Swap(s, i, i + d[i]), d, i + 1)
    ensures ShuffleFrom(s, d, i)[i] == s[i + d[i]]
    ensures Distinct(s) ==> Distinct(Swap(s, i, i + d[i]))
  {
    var t := Swap(s, i, i + d[i]);
    SwapKeeps(s, i, i + d[i]);
    ShuffleIsPermutation(t, d, i + 1);
    assert ShuffleFrom(t, d, i + 1)[i] == ShuffleFrom(t, d, i + 1)[..i + 1][i] == t[..i + 1][i];
  }

  /** Every order is the outcome of some draws. */
  lemma {:induction false} ShuffleIsSurjective(s: Witnesses, t: Witnesses, d: seq<nat>, i: nat) returns (e: seq<nat>)
    requires multiset(t) == multiset(s) && i <= |s| == |t| && t[..i] == s[..i] && IsDraws(d, |s|)
    ensures IsDraws(e, |s|) && ShuffleFrom(s, e, i) == t && e[..i] == d[..i]
    decreases |s| - i
  {
    hide ShuffleFrom, IsDraws, Swap;
    if i == |s| {
      assert t == t[..i] && s == s[..i];
      ShuffleDone(s, d);
      return d;
    }
    var k := FindNext(s, t, i);
    var u := Swap(s, i, i + k);
    SwapKeeps(s, i, i + k);
    assert u[..i + 1] == t[..i + 1] by {
      assert u[i] == t[i] && u[..i + 1] == u[..i] + [u[i]] && t[..i + 1] == t[..i] + [t[i]];
    }
    var d' := SetDraw(d, |s|, i, k);
    e := ShuffleIsSurjective(u, t, d', i + 1);
    DrawsLength(e, |s|);
    assert e[i] == e[..i + 1][i] == d'[..i + 1][i] == k;
    assert e[..i] == e[..i + 1][..i] == d'[..i + 1][..i] == d[..i];
    ShuffleFirst(s, e, i);
  }

  lemma DrawsLength(d: seq<nat>, n: nat)
    requires IsDraws(d, n)
    ensures |d| == n
  {}

  lemma ShuffleDone(s: Witnesses, d: seq<nat>)
    requires IsDraws(d, |s|)
    ensures ShuffleFrom(s, d, |s|) == s
  {}

  lemma SetDraw(d: seq<nat>, n: nat, i: nat, k: nat) returns (r: seq<nat>)
    requires IsDraws(d, n) && i + k < n
    ensures IsDraws(r, n) && |d| == |r| == n && r[..i] == d[..i] && r[i] == k
  {
    r := d[i := k];
  }

  lemma FindNext(s: Witnesses, t: Witnesses, i: nat) returns (k: nat)
    requires multiset(t) == multiset(s) && i < |s| == |t| && t[..i] == s[..i]
    ensures i + k < |s| && s[i + k] == t[i]
  {
    assert s == s[..i] + s[i..] && t == t[..i] + t[i..];
    var x := t[i];
    assert t[i..][0] == x;
    assert multiset(s)[x] == multiset(s[..i])[x] + multiset(s[i..])[x];
    assert multiset(t)[x] == multiset(t[..i])[x] + multiset(t[i..])[x];
    assert x in s[i..];
    k :| 0 <= k < |s[i..]| && s[i..][k] == x;
  }

  // Slots

  datatype Clock = Clock(headNum: nat, headTime: nat, interval: nat, maintenance: bool, skipSlots: nat)

  predicate ValidClock(c: Clock) { 0 < c.interval }

  /** `get_slot_time` */
  function SlotTime(c: Clock, slot: nat): nat
    requires ValidClock(c)
  {
    if slot == 0 then 0
    else if c.headNum == 0 then c.headTime + Span(c, slot)
    else
      var n := if c.maintenance then slot + c.skipSlots else slot;
      Span(c, c.headTime / c.interval) + Span(c, n)
  }

  function Span(c: Clock, slots: nat): nat { slots * c.interval }

  /** `get_slot_at_time` */
  function SlotAtTime(c: Clock, time: nat): nat
    requires ValidClock(c)
  {
    var first := SlotTime(c, 1);
    if time < first then 0 else (time - first) / c.interval + 1
  }

  lemma SlotSpacing(c: Clock, slot: nat)
    requires ValidClock(c) && 0 < slot
    ensures SlotTime(c, slot) == SlotTime(c, 1) + Span(c, slot - 1)
  {
    var skip := if c.headNum > 0 && c.maintenance then c.skipSlots else 0;
    assert (slot + skip) * c.interval == (1 + skip) * c.interval + (slot - 1) * c.interval;
  }

  lemma DivIs(x: nat, d: nat, q: nat)
    requires 0 < d && q * d <= x < (q + 1) * d
    ensures x / d == q
  {
    DivLeast(x, d, q);
    DivLeast(x, d, q + 1);
  }

  /** `get_slot_at_time` finds the last slot that starts at or before a time; so it is the inverse of
      `get_slot_time` on slots from 1, with or without the maintenance skip. */
  lemma SlotsTile(c: Clock, slot: nat, time: nat)
    requires ValidClock(c) && 0 < slot
    ensures SlotAtTime(c, time) == slot <==> SlotTime(c, slot) <= time < SlotTime(c, slot + 1)
    ensures SlotAtTime(c, time) == 0 <==> time < SlotTime(c, 1)
    ensures SlotAtTime(c, SlotTime(c, slot)) == slot
    ensures SlotTime(c, slot) < SlotTime(c, slot + 1)
  {
    hide SlotTime, Span;
    SlotSpacing(c, slot);
    SlotSpacing(c, slot + 1);
    SpanGrows(c, slot);
    var first := SlotTime(c, 1);
    InSlot(c, Span(c, slot - 1), slot);
    if first <= time { InSlot(c, time - first, slot); }
  }

  lemma SpanGrows(c: Clock, slot: nat)
    requires ValidClock(c) && 0 < slot
    ensures Span(c, slot) == Span(c, slot - 1) + c.interval
  {
    assert slot * c.interval == (slot - 1) * c.interval + c.interval;
  }

  /** A time `t` after the first slot is in slot `slot` exactly when it is in its interval. */
  lemma InSlot(c: Clock, t: nat, slot: nat)
    requires ValidClock(c) && 0 < slot
    ensures t / c.interval + 1 == slot <==> Span(c, slot - 1) <= t < Span(c, slot)
  {
    DivLeast(t, c.interval, slot - 1);
    DivLeast(t, c.interval, slot);
  }

  /** Every slot from 1 on is after the head block. */
  lemma SlotsAreLater(c: Clock, slot: nat)
    requires ValidClock(c) && 0 < slot
    ensures c.headTime < SlotTime(c, slot)
  {
    hide SlotTime;
    SlotSpacing(c, slot);
    FirstIsLater(c);
  }

  /** The first slot is one interval after the genesis; after a block it is the first multiple of the interval later
      than the head block, or as many intervals later as a maintenance block skips. */
  lemma FirstSlot(c: Clock) returns (k: nat)
    requires ValidClock(c)
    ensures c.headNum == 0 ==> SlotTime(c, 1) == c.headTime + c.interval
    ensures c.headNum > 0 ==>
              var skipped := if c.maintenance then Span(c, c.skipSlots) else 0;
              && SlotTime(c, 1) == Span(c, k)
              && c.headTime + skipped < SlotTime(c, 1) <= c.headTime + skipped + c.interval
  {
    var n := c.headTime / c.interval;
    var skip := if c.maintenance then c.skipSlots else 0;
    k := n + 1 + skip;
    assert k * c.interval == n * c.interval + (1 + skip) * c.interval;
    assert (1 + skip) * c.interval == c.interval + skip * c.interval;
    assert n * c.interval <= c.headTime < n * c.interval + c.interval;
  }

  lemma FirstIsLater(c: Clock)
    requires ValidClock(c)
    ensures c.headTime < SlotTime(c, 1)
  {
    var n := c.headTime / c.interval;
    assert c.headTime < n * c.interval + c.interval;
    var skip := if c.maintenance then 1 + c.skipSlots else 1;
    assert c.interval <= skip * c.interval;
  }

  // The schedule

  /** `get_scheduled_witness` */
  function Scheduled(shuffled: Witnesses, aslot: nat, slot: nat): nat
    requires shuffled != []
  {
    shuffled[(aslot + slot) % |shuffled|]
  }

  lemma SameRemainder(x: nat, y: nat, n: nat)
    requires 0 < n && x <= y < x + n && x % n == y % n
    ensures x == y
  {
    var p, q := x / n, y / n;
    assert x == p * n + x % n && y == q * n + y % n;
    assert y - x == (q - p) * n;
    Cancel(q - p, 1, n);
    Cancel(0, q - p, n);
  }

  /** Two of any `N` consecutive slots never have the same witness. */
  lemma NoWitnessTwice(shuffled: Witnesses, aslot: nat, i: nat, j: nat)
    requires Distinct(shuffled) && shuffled != [] && i <= j < i + |shuffled|
    requires Scheduled(shuffled, aslot, i) == Scheduled(shuffled, aslot, j)
    ensures i == j
  {
    SameIndex(shuffled, (aslot + i) % |shuffled|, (aslot + j) % |shuffled|);
    SameRemainder(aslot + i, aslot + j, |shuffled|);
  }

  /** Any `N` consecutive slots schedule each of the `N` witnesses exactly once. */
  lemma EachWitnessOnce(shuffled: Witnesses, aslot: nat, from: nat, w: nat) returns (slot: nat)
    requires Distinct(shuffled) && w in shuffled
    ensures from <= slot < from + |shuffled| && Scheduled(shuffled, aslot, slot) == w
    ensures forall i :: from <= i < from + |shuffled| && Scheduled(shuffled, aslot, i) == w ==> i == slot
  {
    var k :| 0 <= k < |shuffled| && shuffled[k] == w;
    slot := SlotFor(aslot, from, |shuffled|, k);
    hide Distinct;
    forall i | from <= i < from + |shuffled| && Scheduled(shuffled, aslot, i) == w ensures i == slot {
      if i <= slot { NoWitnessTwice(shuffled, aslot, i, slot); } else { NoWitnessTwice(shuffled, aslot, slot, i); }
    }
  }

  lemma SlotFor(aslot: nat, from: nat, n: nat, k: nat) returns (slot: nat)
    requires k < n
    ensures from <= slot < from + n && (aslot + slot) % n == k
  {
    var r, q := (aslot + from) % n, (aslot + from) / n;
    assert aslot + from == q * n + r;
    slot := if r <= k then from + (k - r) else from + (k + n - r);
    assert (q + 1) * n == q * n + n;
    RemainderIs(aslot + slot, n, if r <= k then q else q + 1, k);
  }

  lemma RemainderIs(x: nat, n: nat, q: nat, k: nat)
    requires 0 < n && k < n && x == q * n + k
    ensures x % n == k
  {
    assert (q + 1) * n == q * n + n;
    DivIs(x, n, q);
  }

  class Schedule {
    var active: Witnesses          // in order of id
    var shuffled: Witnesses
    var aslot: nat
    var clock: Clock
    var missed: map<nat, nat>

    /** The list in use may be that of an earlier set of active witnesses. */
    predicate Valid()
      reads this
    {
      && 0 < |active| < 0x1_0000_0000 && Distinct(active)
      && shuffled != [] && Distinct(shuffled) && ValidClock(clock)
    }

    constructor (active: Witnesses, genesis: nat, interval: nat, skipSlots: nat)
      requires 0 < |active| < 0x1_0000_0000 && Distinct(active) && 0 < interval
      ensures Valid() && this.active == active && shuffled == active && aslot == 0 && missed == map[]
      ensures clock == Clock(0, genesis, interval, false, skipSlots)
    {
      this.active, shuffled, aslot, missed := active, active, 0, map[];
      clock := Clock(0, genesis, interval, false, skipSlots);
    }

    /** `update_witness_schedule` */
    method Update()
      requires Valid() && clock.headTime < 0x1_0000_0000
      modifies this`shuffled
      ensures Valid()
      ensures clock.headNum % |active| != 0 ==> shuffled == old(shuffled)
      ensures clock.headNum % |active| == 0 ==>
                && multiset(shuffled) == multiset(active)
                && IsDraws(DrawsAt(clock.headTime as bv32, |active|), |active|)
                && shuffled == ShuffleFrom(active, DrawsAt(clock.headTime as bv32, |active|), 0)
    {
      hide Draw, DrawsAt, Distinct, IsDraws;
      if clock.headNum % |active| == 0 {
        shuffled := active;
        var now := clock.headTime as bv32;
        ghost var draws := DrawsAt(now, |active|);
        DrawsAreDraws(now, |active|);
        var i := 0;
        while i < |shuffled|
          invariant i <= |shuffled| == |active| && ShuffleFrom(shuffled, draws, i) == ShuffleFrom(active, draws, 0)
          decreases |shuffled| - i
        {
          var j := i + Draw(now, i, |shuffled| - i);
          assert j == i + draws[i];
          shuffled := shuffled[i := shuffled[j]][j := shuffled[i]];
          i := i + 1;
        }
        ShuffleIsPermutation(active, draws, 0);
      }
    }

    /** `update_witness_missed_blocks`: when fewer blocks are missing than there are witnesses, each witness
        whose slot passed is blamed once and nobody else, the producer of the new block among them. */
    method UpdateMissed(time: nat) returns (ok: bool, count: nat)
      requires Valid()
      modifies this`missed
      ensures Valid()
      ensures ok <==> SlotTime(clock, 1) <= time
      ensures ok ==> count + 1 == SlotAtTime(clock, time)
      ensures !ok || |shuffled| <= count ==> missed == old(missed)
      ensures ok && count < |shuffled| ==> BlamedUpTo(old(missed), missed, shuffled, aslot, count)
      ensures ok && count < |shuffled| ==>
                var producer := Scheduled(shuffled, aslot, count + 1);
                MissedBy(missed, producer) == MissedBy(old(missed), producer)
    {
      hide Distinct, BlamedUpTo, Scheduled;
      count := SlotAtTime(clock, time);
      if count == 0 { return false, 0; }
      count := count - 1;
      ok := true;
      if count < |shuffled| {
        ghost var was := missed;
        NoBlame(missed, shuffled, aslot);
        var i := 0;
        while i < count
          invariant i <= count && BlamedUpTo(was, missed, shuffled, aslot, i)
        {
          BlameNext(was, missed, shuffled, aslot, i);
          var w := Scheduled(shuffled, aslot, i + 1);
          missed := missed[w := MissedBy(missed, w) + 1];
          i := i + 1;
        }
        ProducerNotBlamed(was, missed, shuffled, aslot, count);
      }
    }
  }

  /** The witnesses scheduled in slots 1 to `n` missed one block each. */
  ghost predicate BlamedUpTo(was: map<nat, nat>, missed: map<nat, nat>, shuffled: Witnesses, aslot: nat, n: nat)
    requires shuffled != []
  {
    forall w :: MissedBy(missed, w) == MissedBy(was, w) + if InSlots(shuffled, aslot, n, w) then 1 else 0
  }

  ghost predicate InSlots(shuffled: Witnesses, aslot: nat, n: nat, w: nat)
    requires shuffled != []
  {
    exists slot :: 1 <= slot <= n && w == Scheduled(shuffled, aslot, slot)
  }

  lemma NoBlame(missed: map<nat, nat>, shuffled: Witnesses, aslot: nat)
    requires shuffled != []
    ensures BlamedUpTo(missed, missed, shuffled, aslot, 0)
  {}

  lemma NotInSlots(shuffled: Witnesses, aslot: nat, n: nat)
    requires Distinct(shuffled) && n < |shuffled|
    ensures !InSlots(shuffled, aslot, n, Scheduled(shuffled, aslot, n + 1))
  {
    hide Distinct, Scheduled;
    var w := Scheduled(shuffled, aslot, n + 1);
    forall slot | 1 <= slot <= n ensures w != Scheduled(shuffled, aslot, slot) {
      if w == Scheduled(shuffled, aslot, slot) { NoWitnessTwice(shuffled, aslot, slot, n + 1); }
    }
  }

  lemma BlameNext(was: map<nat, nat>, missed: map<nat, nat>, shuffled: Witnesses, aslot: nat, n: nat)
    requires Distinct(shuffled) && n < |shuffled| && BlamedUpTo(was, missed, shuffled, aslot, n)
    ensures var w := Scheduled(shuffled, aslot, n + 1);
            BlamedUpTo(was, missed[w := MissedBy(missed, w) + 1], shuffled, aslot, n + 1)
  {
    hide Distinct, Scheduled;
    NotInSlots(shuffled, aslot, n);
    var w := Scheduled(shuffled, aslot, n + 1);
    forall v ensures InSlots(shuffled, aslot, n + 1, v) <==> v == w || InSlots(shuffled, aslot, n, v) {}
  }

  lemma ProducerNotBlamed(was: map<nat, nat>, missed: map<nat, nat>, shuffled: Witnesses, aslot: nat, n: nat)
    requires Distinct(shuffled) && n < |shuffled| && BlamedUpTo(was, missed, shuffled, aslot, n)
    ensures var w := Scheduled(shuffled, aslot, n + 1); MissedBy(missed, w) == MissedBy(was, w)
  {
    NotInSlots(shuffled, aslot, n);
  }

  function MissedBy(missed: map<nat, nat>, w: nat): nat { if w in missed then missed[w] else 0 }
}
