/** How two nodes find out where their chains part: one sends a synopsis of its chain, the other replies
    with the ids of its blocks from the last one both have. */
module Synopsis {
  import opened Common
  import Forks
  import ForkRuns

  /** The main chain, the ids that the block store still has above its head, the number of blocks that can be undone,
      and the fork database. */
  datatype Node = Node(chain: seq<BlockId>, stale: seq<BlockId>, undoable: nat, index: Forks.Index) {
    function Store(): seq<BlockId> { chain + stale }

    function Head(): BlockId { if chain == [] then GENESIS else chain[|chain| - 1] }
  }

  predicate ValidNode(n: Node) {
    && n.undoable <= |n.chain| && Forks.ValidIndex(n.index)
    && (forall i :: 0 <= i < |n.chain| ==> n.chain[i].num == i + 1)
    && (forall i :: 0 <= i < |n.stale| ==> n.stale[i].num == |n.chain| + 1 + i)
  }

  /** Ids are hashes: a block of the chain has the parent that the chain has. */
  predicate Linked(n: Node) { forall i :: 0 <= i < |n.chain| ==> LinkedAt(n, i) }

  predicate LinkedAt(n: Node, i: nat)
    requires i < |n.chain|
  {
    n.chain[i] in n.index ==> n.index[n.chain[i]].previous == if i == 0 then GENESIS else n.chain[i - 1]
  }

  datatype Result<T> = Ok(value: T) | NotFound | Unreachable | TooOld

  predicate At(ids: seq<BlockId>, id: BlockId) { 0 < id.num <= |ids| && ids[id.num - 1] == id }

  /** `is_included_block` of a block number that is in the store. */
  predicate Included(n: Node, id: BlockId) { At(n.Store(), id) }

  predicate OnChain(n: Node, id: BlockId) { At(n.chain, id) }

  // The synopsis

  /** The number of the entry after `low`. */
  function NextLow(low: nat, end: nat): nat
    requires low <= end
  {
    low + (end - low + 2) / 2
  }

  /** The block numbers of a synopsis from `low` to `high` when the sender will append the ids of the blocks
      from there to `end`. */
  function Numbers(low: nat, high: nat, end: nat): seq<nat>
    requires low <= high <= end
    decreases end - low
  {
    [low] + if NextLow(low, end) <= high then Numbers(NextLow(low, end), high, end) else []
  }

  ghost function Pow2(n: nat): nat { if n == 0 then 1 else 2 * Pow2(n - 1) }

  ghost predicate Increasing(s: seq<nat>) { forall i, j :: 0 <= i < j < |s| ==> s[i] < s[j] }

  /** The synopsis starts at `low`, increases strictly and stays below `high`; it has at most
      `log2(end - low + 1) + 1` entries. */
  lemma {:induction false} NumbersShape(low: nat, high: nat, end: nat)
    requires low <= high <= end
    ensures var s := Numbers(low, high, end);
            && s != [] && s[0] == low && Increasing(s)
            && (forall i :: 0 <= i < |s| ==> low <= s[i] <= high)
            && Pow2(|s| - 1) <= end - low + 1
    decreases end - low
  {
    var next := NextLow(low, end);
    if next <= high {
      NumbersShape(next, high, end);
      var s, t := Numbers(low, high, end), Numbers(next, high, end);
      assert s == [low] + t && |s| - 1 == |t|;
      forall i, j | 0 <= i < j < |s| ensures s[i] < s[j] {
        assert s[j] == t[j - 1];
        if i > 0 { assert s[i] == t[i - 1]; }
      }
    }
  }

  /** With no blocks to append, the last entry is the end of the segment. */
  lemma {:induction false} EndsAtHigh(low: nat, high: nat)
    requires low <= high
    ensures var s := Numbers(low, high, high); s != [] && s[|s| - 1] == high
    decreases high - low
  {
    var next := NextLow(low, high);
    if next <= high {
      EndsAtHigh(next, high);
    }
  }

  /** Each entry is half way from the one before to the end. */
  lemma {:induction false} GapsHalve(low: nat, high: nat, end: nat, i: nat)
    requires low <= high <= end && i + 1 < |Numbers(low, high, end)|
    ensures var s := Numbers(low, high, end);
            s[i] < s[i + 1] <= high && s[i + 1] == NextLow(s[i], end)
    decreases end - low
  {
    var next := NextLow(low, end);
    var s := Numbers(low, high, end);
    if next <= high {
      NumbersShape(next, high, end);
      var t := Numbers(next, high, end);
      assert s == [low] + t;
      if i > 0 {
        GapsHalve(next, high, end, i - 1);
        assert s[i] == t[i - 1] && s[i + 1] == t[i];
      }
    }
  }

  /** The entries go on as long as the next one is not above `high`. */
  lemma {:induction false} NumbersNext(low: nat, high: nat, end: nat, i: nat)
    requires low <= high <= end && i < |Numbers(low, high, end)|
    ensures var s := Numbers(low, high, end);
            s[i] <= end && (NextLow(s[i], end) <= high <==> i + 1 < |s|)
    ensures var s := Numbers(low, high, end); i + 1 < |s| ==> s[i + 1] == NextLow(s[i], end)
    decreases i
  {
    NumbersShape(low, high, end);
    if i + 1 < |Numbers(low, high, end)| { GapsHalve(low, high, end, i); }
    if i > 0 {
      var t := Numbers(NextLow(low, end), high, end);
      assert Numbers(low, high, end) == [low] + t;
      NumbersNext(NextLow(low, end), high, end, i - 1);
    }
  }

  /** Where the ids come from: the block store up to the fork, the fork from there. */
  function IdAt(store: seq<BlockId>, nonForkHigh: nat, fork: seq<BlockId>, num: nat): BlockId
    requires nonForkHigh <= |store| && 0 < num <= nonForkHigh + |fork|
  {
    if num <= nonForkHigh then store[num - 1] else fork[num - nonForkHigh - 1]
  }

  function IdsAt(store: seq<BlockId>, nonForkHigh: nat, fork: seq<BlockId>, nums: seq<nat>): (r: seq<BlockId>)
    requires nonForkHigh <= |store| && forall i :: 0 <= i < |nums| ==> 0 < nums[i] <= nonForkHigh + |fork|
    ensures |r| == |nums|
  {
    seq(|nums|, i requires 0 <= i < |nums| => IdAt(store, nonForkHigh, fork, nums[i]))
  }

  function Max1(x: nat): nat { if x == 0 then 1 else x }

  /** A synopsis as the sender means it: ids of its own chain, or of the fork up to the reference point. */
  ghost predicate IsSynopsis(store: seq<BlockId>, nonForkHigh: nat, fork: seq<BlockId>, low: nat, end: nat,
                             s: seq<BlockId>)
  {
    && nonForkHigh <= |store| && 0 < low <= nonForkHigh + |fork| <= end
    && var nums := Numbers(low, nonForkHigh + |fork|, end);
       && (forall i :: 0 <= i < |nums| ==> 0 < nums[i] <= nonForkHigh + |fork|)
       && s == IdsAt(store, nonForkHigh, fork, nums)
  }

  /** The ids of a branch, oldest first. */
  function IdsOf(branch: seq<Forks.Block>): (r: seq<BlockId>)
    ensures |r| == |branch| && forall i :: 0 <= i < |r| ==> r[i] == branch[|branch| - 1 - i].id
  {
    seq(|branch|, i requires 0 <= i < |branch| => branch[|branch| - 1 - i].id)
  }

  /** The branch of the head goes down the chain, so its root is on the chain or before it. */
  lemma {:induction false} BranchIsChain(n: Node, f: seq<Forks.Block>, i: nat)
    requires ValidNode(n) && Linked(n) && Forks.IsBranch(f, n.Head(), n.index) && i < |f|
    ensures i < |n.chain| && f[i].id == n.chain[|n.chain| - 1 - i]
    ensures f[i].previous == if i + 1 == |n.chain| then GENESIS else n.chain[|n.chain| - 2 - i]
  {
    assert f[0].id in n.index && f[0].id.num > 0;
    if i > 0 {
      BranchIsChain(n, f, i - 1);
      assert f[i - 1].previous == f[i].id;
    }
    assert f[i].id in n.index && n.index[f[i].id] == f[i];
    assert f[i].id.num > 0;
    var k := |n.chain| - 1 - i;
    assert n.chain[k] == f[i].id;
    assert LinkedAt(n, k);
  }

  /** `get_block_ids_on_fork`: the branch of the reference point and the number of the common ancestor with the
      chain. */
  method BlockIdsOnFork(n: Node, reference: BlockId) returns (r: Option<(nat, seq<BlockId>)>, ghost s: seq<Forks.Block>)
    requires ValidNode(n) && Linked(n)
    ensures r.None? <==> forall fw, sw :: !Forks.CommonRoot(fw, sw, n.Head(), reference, n.index)
    ensures r.Some? ==>
              && (exists f :: Forks.CommonRoot(f, s, n.Head(), reference, n.index) &&
                              Forks.Nearest(f, s, n.Head(), reference, n.index))
              && r.value.1 == IdsOf(s) && s != [] && Forks.Root(s).num == r.value.0 <= |n.chain|
              && (forall i :: 0 <= i < |s| ==> IdsOf(s)[i].num == r.value.0 + 1 + i)
              && reference.num == r.value.0 + |s|
  {
    var found := Forks.FetchBranches(n.index, n.Head(), reference);
    if found.None? { return None, []; }
    var f := found.value.0;
    s := found.value.1;
    BranchIsChain(n, f, |f| - 1);
    forall i | 0 <= i < |s| ensures IdsOf(s)[i].num == Forks.Root(s).num + 1 + i {
      Forks.Heights(s, reference, n.index, |s| - 1 - i);
      Forks.Heights(s, reference, n.index, |s| - 1);
    }
    assert IdsOf(s)[|s| - 1] == s[0].id;
    r := Some((Forks.Root(f).num, IdsOf(found.value.1)));
  }

  /** `get_blockchain_synopsis`.  `branch` is the branch of the reference point when it is on a fork. */
  method GetSynopsis(n: Node, reference: BlockId, extra: nat)
    returns (r: Result<seq<BlockId>>, ghost branch: seq<Forks.Block>)
    requires ValidNode(n) && Linked(n) && (reference.num == 0 ==> reference == GENESIS)
    ensures reference == GENESIS ==> r.Ok?
    ensures reference == GENESIS && n.chain == [] ==> r == Ok([])
    ensures reference == GENESIS && n.chain != [] ==>
              IsSynopsis(n.Store(), |n.chain|, [], Max1(|n.chain| - n.undoable), |n.chain| + extra, r.value)
    ensures reference != GENESIS && Included(n, reference) ==>
              && r.Ok?
              && IsSynopsis(n.Store(), reference.num, [], Max1(Min(reference.num, |n.chain| - n.undoable)),
                            reference.num + extra, r.value)
    ensures reference != GENESIS && !Included(n, reference) ==>
              (r.NotFound? <==> || reference.num > |n.Store()|
                                || forall fw, sw :: !Forks.CommonRoot(fw, sw, n.Head(), reference, n.index))
    ensures reference != GENESIS && !Included(n, reference) && !r.NotFound? ==>
              && branch != []
              && (exists f :: Forks.CommonRoot(f, branch, n.Head(), reference, n.index) &&
                              Forks.Nearest(f, branch, n.Head(), reference, n.index))
              && var root := Forks.Root(branch).num;
                 && (r.TooOld? <==> root < |n.chain| - n.undoable)
                 && (!r.TooOld? ==>
                       && r.Ok?
                       && IsSynopsis(n.Store(), root, IdsOf(branch), Max1(|n.chain| - n.undoable),
                                     reference.num + extra, r.value))
  {
    hide IsSynopsis, Numbers, IdsOf;
    branch := [];
    var low, high, nonForkHigh, fork := |n.chain| - n.undoable, |n.chain|, |n.chain|, [];
    if reference != GENESIS {
      if reference.num > |n.Store()| { return NotFound, []; }
      if Included(n, reference) {
        high, nonForkHigh := reference.num, reference.num;
        if reference.num < low { low := reference.num; }
      } else {
        var history;
        history, branch := BlockIdsOnFork(n, reference);
        if history.None? { return NotFound, []; }
        nonForkHigh, fork := history.value.0, history.value.1;
        high := nonForkHigh + |fork|;
        if nonForkHigh < low { return TooOld, branch; }
      }
    } else if high == 0 {
      return Ok([]), [];
    }
    if low == 0 { low := 1; }
    var s := Summarize(n.Store(), nonForkHigh, fork, low, high + extra);
    return Ok(s), branch;
  }

  /** The loop that pulls the ids of the synopsis from the block store and from the fork. */
  method Summarize(store: seq<BlockId>, nonForkHigh: nat, fork: seq<BlockId>, first: nat, end: nat)
    returns (s: seq<BlockId>)
    requires nonForkHigh <= |store| && 0 < first <= nonForkHigh + |fork| <= end
    ensures IsSynopsis(store, nonForkHigh, fork, first, end, s)
  {
    hide Numbers, NextLow;
    var low, high := first, nonForkHigh + |fork|;
    ghost var all := Numbers(low, high, end);
    NumbersShape(low, high, end);
    s := [];
    var more := true;
    while more
      invariant |s| <= |all| && (more ==> |s| < |all| && low == all[|s|]) && (!more ==> |s| == |all|)
      invariant forall i :: 0 <= i < |s| ==> s[i] == IdAt(store, nonForkHigh, fork, all[i])
      decreases |all| - |s|, more
    {
      NumbersNext(first, high, end, |s|);
      s := s + [IdAt(store, nonForkHigh, fork, low)];
      low := NextLow(low, end);
      more := low <= high;
    }
    assert s == IdsAt(store, nonForkHigh, fork, all);
  }

  // The reply

  /** An entry at which the search from the end of a synopsis stops: one that the block store has, or one that
      the fork database knows with a number above all stored ones, which makes the look-up fail. */
  predicate Stops(n: Node, id: BlockId) { id == GENESIS || Included(n, id) || Beyond(n, id) }

  predicate Beyond(n: Node, id: BlockId) { id != GENESIS && id in n.index && |n.Store()| < id.num }

  /** An entry the block store has, but not the chain. */
  predicate Stale(n: Node, id: BlockId) { |n.chain| < id.num && Included(n, id) }

  /** An entry the chain has. */
  predicate Shared(n: Node, id: BlockId) { id == GENESIS || OnChain(n, id) }

  lemma StopsAre(n: Node, id: BlockId)
    ensures Stops(n, id) <==> Shared(n, id) || Stale(n, id) || Beyond(n, id)
    ensures !(Beyond(n, id) && (Shared(n, id) || Stale(n, id))) && !(Shared(n, id) && Stale(n, id))
    ensures Shared(n, id) ==> id.num <= |n.chain|
  {}

  /** Up to `limit` consecutive ids from block `start` on. */
  function RunFrom(n: Node, start: nat, limit: nat): seq<BlockId>
    requires 0 < start
  {
    if |n.chain| < start then []
    else if |n.chain| + 1 - start <= limit then n.chain[start - 1..]
    else n.chain[start - 1..start - 1 + limit]
  }

  /** They are those of the chain from `start` on, as many as there are up to the limit. */
  lemma RunIsConsecutive(n: Node, start: nat, limit: nat, i: nat)
    requires ValidNode(n) && 0 < start
    ensures var r := RunFrom(n, start, limit);
            && |r| <= limit && (|r| < limit ==> |n.chain| < start + |r|)
            && (i < |r| ==> start - 1 + i < |n.chain| && r[i] == n.chain[start - 1 + i] && r[i].num == start + i)
  {}

  predicate NoneStops(n: Node, synopsis: seq<BlockId>, from: nat) {
    forall k :: from <= k < |synopsis| ==> !Stops(n, synopsis[k])
  }

  /** The last entry of a synopsis at which the search stops. */
  predicate IsLast(n: Node, synopsis: seq<BlockId>, j: nat) {
    j < |synopsis| && Stops(n, synopsis[j]) && NoneStops(n, synopsis, j + 1)
  }

  /** The search of a synopsis from its end. */
  method FindLast(n: Node, synopsis: seq<BlockId>) returns (r: Result<nat>, ghost last: nat)
    ensures r.Ok? ==> IsLast(n, synopsis, last) && r.value == last && !Beyond(n, synopsis[last])
    ensures r.NotFound? ==> IsLast(n, synopsis, last) && Beyond(n, synopsis[last])
    ensures r.Unreachable? ==> NoneStops(n, synopsis, 0)
    ensures !r.TooOld?
  {
    last := 0;
    for i := |synopsis| downto 0
      invariant NoneStops(n, synopsis, i)
    {
      var id := synopsis[i];
      if id == GENESIS || id in n.index || Included(n, id) {
        if id == GENESIS { return Ok(i), i; }
        if id.num > |n.Store()| { return NotFound, i; }
        if Included(n, id) { return Ok(i), i; }
      }
    }
    return Unreachable, 0;
  }

  /** `get_block_ids`: a consecutive run from the last entry found, and the exact number of blocks after it. */
  method GetBlockIds(n: Node, synopsis: seq<BlockId>, limit: nat)
    returns (r: Result<seq<BlockId>>, remaining: nat, ghost last: nat)
    requires ValidNode(n)
    ensures n.chain == [] ==> r == Ok([])
    ensures n.chain != [] && synopsis == [] ==> r == Ok(RunFrom(n, 1, limit))
    ensures n.chain != [] && synopsis != [] ==> Outcome(n, synopsis, limit, r, last)
    ensures remaining == if r.Ok? && r.value != [] then |n.chain| - r.value[|r.value| - 1].num else 0
  {
    hide Stops, NoneStops, ValidNode, RunFrom;
    last := 0;
    if n.chain == [] { return Ok([]), 0, 0; }
    var start := 0;
    if synopsis != [] {
      var found;
      found, last := FindLast(n, synopsis);
      match found {
        case Ok(i) => start := synopsis[i].num;
        case NotFound => return NotFound, 0, last;
        case Unreachable => return Unreachable, 0, last;
      }
    }
    var ids;
    ids, remaining := Collect(n, start, limit);
    return Ok(ids), remaining, last;
  }

  /** What becomes of a synopsis: `last` is the entry at which the search stops, if there is one. */
  ghost predicate Outcome(n: Node, synopsis: seq<BlockId>, limit: nat, r: Result<seq<BlockId>>, last: nat) {
    if r.Unreachable? then NoneStops(n, synopsis, 0)
    else
      && IsLast(n, synopsis, last)
      && r == if Beyond(n, synopsis[last]) then NotFound else Ok(RunFrom(n, Max1(synopsis[last].num), limit))
  }

  lemma RunIs(n: Node, from: nat, limit: nat, ids: seq<BlockId>)
    requires ValidNode(n) && 0 < from && |ids| <= limit && (ids != [] ==> from - 1 + |ids| <= |n.chain|)
    requires |ids| < limit ==> from - 1 + |ids| >= |n.chain|
    requires forall i :: 0 <= i < |ids| ==> ids[i] == n.chain[from - 1 + i]
    ensures ids == RunFrom(n, from, limit)
    ensures ids != [] ==> ids[|ids| - 1].num == from - 1 + |ids|
  {}

  /** The loop that collects the ids of the reply. */
  method Collect(n: Node, start: nat, limit: nat) returns (ids: seq<BlockId>, remaining: nat)
    requires ValidNode(n) && n.chain != []
    ensures ids == RunFrom(n, Max1(start), limit)
    ensures remaining == if ids == [] then 0 else |n.chain| - ids[|ids| - 1].num
  {
    hide ValidNode, RunFrom;
    ids, remaining := [], 0;
    var num := start;
    while num <= |n.chain| && |ids| < limit
      invariant start <= num && (ids != [] ==> num <= |n.chain| + 1) && |ids| <= limit
      invariant Max1(start) + |ids| == Max1(num)
      invariant forall i :: 0 <= i < |ids| ==> ids[i] == n.chain[Max1(start) - 1 + i]
    {
      if num > 0 {
        ids := ids + [n.chain[num - 1]];
      }
      num := num + 1;
    }
    RunIs(n, Max1(start), limit, ids);
    if ids != [] && ids[|ids| - 1].num < |n.chain| {
      remaining := |n.chain| - ids[|ids| - 1].num;
    }
  }

  // The handshake

  /** The entries of a synopsis increase with their block numbers. */
  lemma SynopsisIncreases(store: seq<BlockId>, nonForkHigh: nat, fork: seq<BlockId>, low: nat, end: nat,
                          s: seq<BlockId>)
    requires IsSynopsis(store, nonForkHigh, fork, low, end, s)
    requires forall i :: 0 <= i < |store| ==> store[i].num == i + 1
    requires forall i :: 0 <= i < |fork| ==> fork[i].num == nonForkHigh + 1 + i
    ensures IncreasingIds(s) && s != []
    ensures Pow2(|s| - 1) <= end - low + 1
    ensures end == nonForkHigh + |fork| ==> s[|s| - 1].num == end
    ensures s[0].num == low
    ensures forall i :: 0 <= i < |s| ==> IsEntry(store, nonForkHigh, fork, s[i])
  {
    hide Numbers, IdAt, Pow2, IsEntry;
    var nums := Numbers(low, nonForkHigh + |fork|, end);
    NumbersShape(low, nonForkHigh + |fork|, end);
    if end == nonForkHigh + |fork| { EndsAtHigh(low, end); }
    assert |s| == |nums|;
    forall i | 0 <= i < |s| ensures s[i].num == nums[i] && IsEntry(store, nonForkHigh, fork, s[i]) {
      NumberAt(store, nonForkHigh, fork, nums[i]);
    }
    hide IsSynopsis;
    assert Increasing(nums);
  }

  /** An id of the block store up to the fork, or of the fork above it. */
  predicate IsEntry(store: seq<BlockId>, nonForkHigh: nat, fork: seq<BlockId>, id: BlockId) {
    if id.num <= nonForkHigh then At(store, id)
    else id.num <= nonForkHigh + |fork| && fork[id.num - nonForkHigh - 1] == id
  }

  ghost predicate IncreasingIds(s: seq<BlockId>) { forall i, j :: 0 <= i < j < |s| ==> s[i].num < s[j].num }

  lemma NumberAt(store: seq<BlockId>, nonForkHigh: nat, fork: seq<BlockId>, num: nat)
    requires nonForkHigh <= |store| && 0 < num <= nonForkHigh + |fork|
    requires forall i :: 0 <= i < |store| ==> store[i].num == i + 1
    requires forall i :: 0 <= i < |fork| ==> fork[i].num == nonForkHigh + 1 + i
    ensures IdAt(store, nonForkHigh, fork, num).num == num
    ensures IsEntry(store, nonForkHigh, fork, IdAt(store, nonForkHigh, fork, num))
  {}

  /** The reply the documentation promises: a run from the highest entry that the chain has. */
  ghost predicate IsPromised(n: Node, s: seq<BlockId>, limit: nat, r: Result<seq<BlockId>>) {
    exists j :: IsHighestShared(n, s, j) && r == Ok(RunFrom(n, Max1(s[j].num), limit))
  }

  predicate IsHighestShared(n: Node, s: seq<BlockId>, j: int) {
    0 <= j < |s| && Shared(n, s[j]) && forall k :: j < k < |s| ==> !Shared(n, s[k])
  }

  /** No entry is above the head and known, in the fork database above all stored blocks or in the block store. */
  predicate NoneAbove(n: Node, s: seq<BlockId>) {
    forall k :: 0 <= k < |s| ==> !Beyond(n, s[k]) && !Stale(n, s[k])
  }

  /** To an increasing synopsis with an entry on the chain, the reply is the promised one exactly when no entry
      above the head is known. */
  lemma PromisedIff(n: Node, s: seq<BlockId>, shared: nat, limit: nat, r: Result<seq<BlockId>>, last: nat)
    requires ValidNode(n) && n.chain != [] && shared < |s| && Shared(n, s[shared]) && IncreasingIds(s) && 0 < limit
    requires Outcome(n, s, limit, r, last)
    ensures IsPromised(n, s, limit, r) <==> NoneAbove(n, s)
  {
    hide ValidNode, RunFrom, Included, OnChain;
    StopsAre(n, s[shared]);
    assert Stops(n, s[shared]);
    assert !r.Unreachable?;
    AfterLast(n, s, last);
    if Shared(n, s[last]) {
      HighestIs(n, s, last);
      SharedIsHighest(n, s, last);
    } else {
      StopsAre(n, s[last]);
      EmptyOrFailed(n, s, limit, r, last);
    }
  }

  lemma AfterLast(n: Node, s: seq<BlockId>, last: nat)
    requires IsLast(n, s, last)
    ensures forall k :: last < k < |s| ==> !Shared(n, s[k]) && !Beyond(n, s[k]) && !Stale(n, s[k])
    ensures Shared(n, s[last]) || Stale(n, s[last]) || Beyond(n, s[last])
  {
    hide Stops, Shared, Beyond, Stale;
    StopsAre(n, s[last]);
    forall k | last < k < |s| ensures !Shared(n, s[k]) && !Beyond(n, s[k]) && !Stale(n, s[k]) { StopsAre(n, s[k]); }
  }

  /** When the search stops at an entry on the chain, no entry above the head is known. */
  lemma HighestIs(n: Node, s: seq<BlockId>, last: nat)
    requires IncreasingIds(s) && last < |s| && Shared(n, s[last])
    requires forall k :: last < k < |s| ==> !Beyond(n, s[k]) && !Stale(n, s[k])
    ensures NoneAbove(n, s)
  {
    forall k | 0 <= k < |s| ensures !Beyond(n, s[k]) && !Stale(n, s[k]) {
      StopsAre(n, s[last]);
      if k <= last { assert s[k].num <= s[last].num <= |n.chain|; }
    }
  }

  lemma SharedIsHighest(n: Node, s: seq<BlockId>, last: nat)
    requires last < |s| && Shared(n, s[last]) && forall k :: last < k < |s| ==> !Shared(n, s[k])
    ensures IsHighestShared(n, s, last)
  {}

  /** When it stops at another entry, the reply fails or is empty. */
  lemma EmptyOrFailed(n: Node, s: seq<BlockId>, limit: nat, r: Result<seq<BlockId>>, last: nat)
    requires n.chain != [] && last < |s| && 0 < limit && !Shared(n, s[last])
    requires Stale(n, s[last]) || Beyond(n, s[last])
    requires r == if Beyond(n, s[last]) then NotFound else Ok(RunFrom(n, Max1(s[last].num), limit))
    ensures !IsPromised(n, s, limit, r) && !NoneAbove(n, s)
  {
    forall j | IsHighestShared(n, s, j) ensures r != Ok(RunFrom(n, Max1(s[j].num), limit)) {
      StopsAre(n, s[j]);
      assert RunFrom(n, Max1(s[j].num), limit) != [];
    }
  }

  /** Ids determine their ancestors: two chains that share a block share all blocks before it. */
  predicate SameAncestors(a: Node, b: Node) {
    forall i :: 0 <= i < |a.chain| && i < |b.chain| && a.chain[i] == b.chain[i] ==> a.chain[..i] == b.chain[..i]
  }

  /** The chains part after block `f`. */
  predicate PartAfter(a: Node, b: Node, f: nat) {
    && f <= |a.chain| && f <= |b.chain| && a.chain[..f] == b.chain[..f]
    && (f < |a.chain| && f < |b.chain| ==> a.chain[f] != b.chain[f])
  }

  /** An id of `a`'s chain is on `b`'s exactly up to the block after which they part. */
  lemma IncludedUpTo(a: Node, b: Node, f: nat, num: nat)
    requires ValidNode(a) && ValidNode(b) && SameAncestors(a, b) && PartAfter(a, b, f) && 0 < num <= |a.chain|
    ensures OnChain(b, a.chain[num - 1]) <==> num <= f
  {
    if num <= f {
      assert a.chain[num - 1] == a.chain[..f][num - 1] == b.chain[..f][num - 1];
    } else if num <= |b.chain| && b.chain[num - 1] == a.chain[num - 1] {
      SharedBefore(a, b, num, f);
    }
  }

  lemma SharedBefore(a: Node, b: Node, num: nat, i: nat)
    requires SameAncestors(a, b) && i < num <= |a.chain| && num <= |b.chain| && a.chain[num - 1] == b.chain[num - 1]
    ensures a.chain[i] == b.chain[i]
  {
    if i < num - 1 { assert a.chain[..num - 1][i] == b.chain[..num - 1][i]; }
  }

  /** The entries of a synopsis of the main chain. */
  lemma EntryIs(a: Node, low: nat, s: seq<BlockId>, i: nat)
    requires ValidNode(a) && IsSynopsis(a.chain, |a.chain|, [], low, |a.chain|, s) && i < |s|
    ensures 0 < s[i].num <= |a.chain| && s[i] == a.chain[s[i].num - 1] && s[i] != GENESIS
    ensures i + 1 < |s| ==> s[i + 1].num == NextLow(s[i].num, |a.chain|)
    ensures i + 1 == |s| ==> s[i].num == |a.chain|
  {
    var h := |a.chain|;
    NumbersShape(low, h, h);
    EndsAtHigh(low, h);
    var nums := Numbers(low, h, h);
    assert s[i] == IdAt(a.chain, h, [], nums[i]);
    if i + 1 < |s| {
      assert s[i + 1] == IdAt(a.chain, h, [], nums[i + 1]);
      GapsHalve(low, h, h, i);
    }
  }

  /** `a` sends the synopsis of its chain to `b`, whose search finds entry `j`.  The reply starts at a
      block both have, and the blocks in it that `a` has already are at most as many as `a` has after the
      point where the chains part. */
  lemma Handshake(a: Node, b: Node, f: nat, low: nat, s: seq<BlockId>, j: nat)
    requires ValidNode(a) && ValidNode(b) && SameAncestors(a, b) && PartAfter(a, b, f)
    requires IsSynopsis(a.chain, |a.chain|, [], low, |a.chain|, s)
    requires IsLast(b, s, j) && Shared(b, s[j])
    ensures 0 < s[j].num <= f && OnChain(a, s[j]) && OnChain(b, s[j])
    ensures f <= |a.chain| && f - s[j].num <= |a.chain| - f
  {
    hide IsSynopsis, SameAncestors, ValidNode;
    EntryIs(a, low, s, j);
    IncludedUpTo(a, b, f, s[j].num);
    if j + 1 < |s| {
      EntryIs(a, low, s, j + 1);
      IncludedUpTo(a, b, f, s[j + 1].num);
    }
  }

  // Nodes in the course of a run

  /** What a chain database shows to its peers. */
  function NodeOf<D>(db: Forks.ChainDatabase<D>): Node
    requires db.Sound()
    reads db
  {
    Forks.HeadIsStored(db.undo, db.chain, db.store);
    Node(db.store[..db.chain.head.num], db.store[db.chain.head.num..], |db.undo|, db.index)
  }

  lemma NodeIsValid<D>(db: Forks.ChainDatabase<D>)
    requires db.Sound()
    ensures ValidNode(NodeOf(db)) && NodeOf(db).Store() == db.store && NodeOf(db).Head() == db.chain.head
  {
    Forks.HeadIsStored(db.undo, db.chain, db.store);
    Forks.LowerHead(db.exec, db.undo, db.blocks, db.chain, |db.undo|);
    assert Forks.InStore(db.store, Forks.HeadAt(db.undo, db.chain, 0));
  }

  /** As long as the chain database is in step with its fork database, every reply is the promised one. */
  lemma InStepIsPromised<D>(db: Forks.ChainDatabase<D>, s: seq<BlockId>)
    requires db.Valid()
    ensures NoneAbove(NodeOf(db), s)
  {
    NodeIsValid(db);
    var n := NodeOf(db);
    assert n.stale == [];
    forall k | 0 <= k < |s| ensures !Beyond(n, s[k]) && !Stale(n, s[k]) {}
  }

  /** A peer with a chain of its own and an empty fork database. */
  function Peer(chain: seq<BlockId>, undoable: nat): Node { Node(chain, [], undoable, map[]) }

  /** The first and the last entry of the synopsis of a peer's whole chain. */
  lemma PeerSynopsis(chain: seq<BlockId>, low: nat, s: seq<BlockId>)
    requires IsSynopsis(chain, |chain|, [], low, |chain|, s) && 0 < low <= |chain|
    requires forall i :: 0 <= i < |chain| ==> chain[i].num == i + 1
    ensures s != [] && s[0] == chain[low - 1] && s[|s| - 1] == chain[|chain| - 1] && IncreasingIds(s)
  {
    SynopsisIncreases(chain, |chain|, [], low, |chain|, s);
    NumbersShape(low, |chain|, |chain|);
    EndsAtHigh(low, |chain|);
  }

  /** A chain database that has not found the common parent of a longer branch cannot reply to a peer on that
      branch, although its chain has the first entry of the synopsis. */
  method ReplyFails(limit: nat) returns (r: Result<seq<BlockId>>, synopsis: seq<BlockId>, ghost n: Node)
    ensures ValidNode(n) && IncreasingIds(synopsis) && synopsis != [] && OnChain(n, synopsis[0]) && r.NotFound?
  {
    hide IsSynopsis;
    var outcome, db := ForkRuns.UnconnectedRun();
    NodeIsValid(db);
    n := NodeOf(db);
    var side := [BlockId(1, 0), BlockId(2, 0), BlockId(3, 0), BlockId(4, 1), BlockId(5, 1), BlockId(6, 1),
                 BlockId(7, 1)];
    var sent, branch := GetSynopsis(Peer(side, 4), GENESIS, 0);
    assert Peer(side, 4).Store() == side;
    synopsis := sent.value;
    PeerSynopsis(side, 3, synopsis);
    ghost var last;
    var remaining;
    r, remaining, last := GetBlockIds(NodeOf(db), synopsis, limit);
    assert Beyond(n, synopsis[|synopsis| - 1]);
    LastIsLast(n, synopsis, last);
  }

  /** One that could not take a failed switch back replies with nothing to a peer on its old branch. */
  method ReplyIsEmpty(limit: nat) returns (r: Result<seq<BlockId>>, synopsis: seq<BlockId>, ghost n: Node)
    requires limit > 0
    ensures ValidNode(n) && IncreasingIds(synopsis) && synopsis != [] && OnChain(n, synopsis[0]) && r == Ok([])
  {
    hide IsSynopsis;
    var outcome, db := ForkRuns.BrokenRun();
    NodeIsValid(db);
    n := NodeOf(db);
    var main := [BlockId(1, 0), BlockId(2, 1), BlockId(3, 1), BlockId(4, 1), BlockId(5, 1)];
    var sent, branch := GetSynopsis(Peer(main, 4), GENESIS, 0);
    assert Peer(main, 4).Store() == main;
    synopsis := sent.value;
    PeerSynopsis(main, 1, synopsis);
    ghost var last;
    var remaining;
    r, remaining, last := GetBlockIds(NodeOf(db), synopsis, limit);
    assert Stale(n, synopsis[|synopsis| - 1]);
    LastIsLast(n, synopsis, last);
  }

  lemma LastIsLast(n: Node, s: seq<BlockId>, last: nat)
    requires s != [] && Stops(n, s[|s| - 1])
    ensures IsLast(n, s, last) ==> last == |s| - 1
    ensures !NoneStops(n, s, 0)
  {}
}
