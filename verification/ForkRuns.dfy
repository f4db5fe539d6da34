/** Two runs of the chain database that leave it out of step with its fork database.

    In the first, the chain has blocks 1 and 2' to 5'; another branch has blocks 2 to 6 on block 1, and its block 4
    is refused.  No block is ever irreversible, and yet the switch can neither be finished nor taken back.

    In the second, every block is irreversible at once; another branch leaves the chain at block 3 and becomes
    longer after block 3 was pruned, so that no common parent is found.
 */
module ForkRuns {
  import opened Common
  import opened Forks
  import Irreversible

  datatype Nothing = Nothing

  /** Three witnesses, of which only the first signs blocks. */
  function RefusesFour(d: Nothing, b: Block): Executed<Nothing> {
    if b.id == BlockId(4, 0) then Refused(false) else Done(Nothing, [0, 1, 2])
  }

  /** The blocks 1, 2', 3' and so on, and the blocks 2, 3 and so on of the other branch. */
  function MainId(n: nat): BlockId { BlockId(n, if n < 2 then 0 else 1) }

  function MainBlock(n: nat): Block
    requires n > 0
  {
    Block(MainId(n), MainId(n - 1), 0)
  }

  function SideBlock(n: nat): Block
    requires n > 0
  {
    Block(BlockId(n, 0), BlockId(n - 1, 0), 0)
  }

  // The irreversible number stays 0

  ghost predicate Mild(c: Chain<Nothing>) {
    ValidChain(c) && c.state.irreversible == 0 && c.state.active == [0, 1, 2] && 1 !in c.state.confirmed
  }

  /** A witness that has confirmed nothing holds the vote of three witnesses at 0. */
  lemma LeastVote(confirmed: map<nat, nat>)
    requires 1 !in confirmed
    ensures Irreversible.NextIrreversible([0, 1, 2], confirmed, 0) == 0
  {
    var votes := Irreversible.Votes([0, 1, 2], confirmed);
    var v := Irreversible.Nth(votes, 0);
    assert votes[1] == 0;
    if v > 0 { SomeUpTo(votes, 1, v - 1); }
  }

  lemma {:induction false} SomeUpTo(s: seq<nat>, i: nat, v: nat)
    requires i < |s| && s[i] <= v
    ensures Irreversible.CountUpTo(s, v) > 0
  {
    if i > 0 { SomeUpTo(s[1..], i - 1, v); }
  }

  lemma MildStep(c: Chain<Nothing>, b: Block)
    requires Mild(c) && ValidBlock(b) && b.signer == 0 && b.previous == c.head && c.head.num < 10
    ensures if b.id == BlockId(4, 0) then Applied(RefusesFour, c, b).None? && LimitSet(RefusesFour, c, b).None?
            else && Applied(RefusesFour, c, b).Some? && Mild(Applied(RefusesFour, c, b).value)
                 && LimitSet(RefusesFour, c, b) == Some(c.head.num + 2)
  {
    AppliedKeeps(RefusesFour, c, b);
    LeastVote(c.state.confirmed[0 := c.head.num + 1]);
  }

  // The chain database while both branches grow

  predicate IsKnown(id: BlockId, n: nat, m: nat) {
    (1 <= id.num <= n && id == MainId(id.num)) || (2 <= id.num <= m && id.hash == 0)
  }

  function BlockOf(id: BlockId): Block
    requires id.num > 0
  {
    if id == MainId(id.num) then MainBlock(id.num) else SideBlock(id.num)
  }

  /** The fork database has the blocks of the chain up to `n` and those of the other branch up to `m`. */
  ghost predicate Knows(ix: Index, n: nat, m: nat) {
    forall id :: (id in ix <==> IsKnown(id, n, m)) && (id in ix ==> id.num > 0 && ix[id] == BlockOf(id))
  }

  ghost predicate Grown(db: ChainDatabase<Nothing>, n: nat, m: nat)
    reads db
  {
    && db.Valid() && db.exec == RefusesFour && db.highest == 0 && db.chain.head == MainId(n)
    && AllMild(db.undo, db.chain, n) && n < db.maxUndo && n < db.forkSize && Knows(db.index, n, m)
    && |db.store| == n && forall i :: 0 <= i < n ==> db.store[i] == MainId(i + 1)
  }

  ghost predicate AllMild(undo: seq<Chain<Nothing>>, now: Chain<Nothing>, n: nat) {
    |undo| == n && Mild(now) && forall i :: 0 <= i < n ==> Mild(undo[i]) && undo[i].head == MainId(i)
  }

  /** The ids of the blocks that can be undone. */
  lemma UndoneIds(exec: Exec<Nothing>, undo: seq<Chain<Nothing>>, blocks: seq<Block>, now: Chain<Nothing>, n: nat,
                  b: Block)
    requires UndoChain(exec, undo, blocks, now) && AllMild(undo, now, n) && now.head == MainId(n)
    requires forall i :: 1 <= i <= n ==> b.id != MainId(i)
    ensures Agree(blocks, map[b.id := b])
  {
    forall i | 0 <= i < |blocks| ensures blocks[i].id != b.id {
      assert Applied(exec, undo[i], blocks[i]) == Some(NextOf(undo, now, i));
      AppliedKeeps(exec, undo[i], blocks[i]);
      assert NextOf(undo, now, i).head == MainId(i + 1);
    }
  }

  lemma NewBlockFits(db: ChainDatabase<Nothing>, n: nat, m: nat, b: Block)
    requires Grown(db, n, m) && !IsKnown(b.id, n, m) && b.id.num > 0
    ensures db.NoClash(b)
  {
    hide UndoChain;
    UndoneIds(db.exec, db.undo, db.blocks, db.chain, n, b);
  }

  method Grow(db: ChainDatabase<Nothing>, n: nat)
    requires 1 <= n <= 5 && Grown(db, n - 1, 0)
    modifies db
    ensures Grown(db, n, 0)
  {
    hide UndoChain, Applied, Mild, ValidChain, CommonRoot, Nearest, Newest, AllMild, Agree, Stored, ValidIndex;
    var b := MainBlock(n);
    NewBlockFits(db, n - 1, 0, b);
    ghost var undo, max, chain, ix := db.undo, db.maxUndo, db.chain, db.index;
    MildGrows(undo, chain, max, n, b);
    KnowsMore(ix, db.Taken(b), n);
    hide Knows;
    var r, f, s, done := db.PushBlock(b);
    assert r.Extended?;
  }

  lemma MildGrows(undo: seq<Chain<Nothing>>, now: Chain<Nothing>, max: nat, n: nat, b: Block)
    requires 1 <= n <= 5 && AllMild(undo, now, n - 1) && now.head == MainId(n - 1) && b == MainBlock(n) && n - 1 < max
    ensures ValidChain(now) && Applied(RefusesFour, now, b).Some? && Limit(now) == n + 1
    ensures var next := Applied(RefusesFour, now, b).value;
            next.head == b.id && next.state.irreversible == 0 && AllMild(Newest(undo, max) + [now], next, n)
  {
    AppliedKeeps(RefusesFour, now, b);
    MildStep(now, b);
  }

  lemma KnowsMore(ix: Index, taken: Index, n: nat)
    requires n > 0 && Knows(ix, n - 1, 0) && taken == ix[MainId(n) := MainBlock(n)]
    ensures Knows(taken, n, 0) && Pruned(taken, n, n + 1) == taken
  {}

  /** A block of the other branch is taken in and ignored. */
  method GrowSide(db: ChainDatabase<Nothing>, m: nat)
    requires 2 <= m <= 5 && Grown(db, 5, m - 1)
    modifies db
    ensures Grown(db, 5, m)
  {
    hide UndoChain, Mild, ValidChain, CommonRoot, Nearest, AllMild, Agree;
    var b := SideBlock(m);
    NewBlockFits(db, 5, m - 1, b);
    assert IsKnown(b.previous, 5, m - 1);
    KnowsSide(db.index, m);
    var r, f, s, done := db.PushBlock(b);
    assert r.Ignored?;
  }

  lemma KnowsSide(ix: Index, m: nat)
    requires 2 <= m <= 6 && Knows(ix, 5, m - 1)
    ensures Knows(ix[SideBlock(m).id := SideBlock(m)], 5, m)
  {}

  function Branch(): seq<Block> { [SideBlock(6), SideBlock(5), SideBlock(4), SideBlock(3), SideBlock(2)] }

  function OldBranch5(): seq<Block> { [MainBlock(5), MainBlock(4), MainBlock(3), MainBlock(2)] }

  /** The branches lead back to block 1 and not to a nearer common parent. */
  lemma BranchesAre(ix: Index, f: seq<Block>, s: seq<Block>)
    requires Knows(ix, 5, 6) && CommonRoot(f, s, BlockId(6, 0), MainId(5), ix)
    requires Nearest(f, s, BlockId(6, 0), MainId(5), ix)
    ensures f == Branch() && s == OldBranch5()
  {
    assert CommonRoot(Branch(), OldBranch5(), BlockId(6, 0), MainId(5), ix);
    assert f <= Branch() && s <= OldBranch5();
    assert f == Branch()[..|f|] && s == OldBranch5()[..|s|];
    assert Root(f) == SideBlock(7 - |f|).previous;
    assert Root(s) == MainBlock(6 - |s|).previous;
  }

  /** Blocks 2 and 3 are accepted, block 4 is refused, and block 2 asks for too few blocks to be kept. */
  lemma BranchReplay(c: Chain<Nothing>)
    requires Mild(c) && c.head == MainId(1)
    ensures AllValid(Branch())
    ensures Replay(RefusesFour, c, Branch(), 1).Some? && Replay(RefusesFour, c, Branch(), 1).value.head == BlockId(2, 0)
    ensures Replay(RefusesFour, c, Branch(), 2).Some? && Replay(RefusesFour, c, Branch(), 2).value.head == BlockId(3, 0)
    ensures Replay(RefusesFour, c, Branch(), 3).None?
    ensures LimitAt(RefusesFour, c, Branch(), 1) == Some(3) && LimitAt(RefusesFour, c, Branch(), 2) == Some(4)
    ensures LimitAt(RefusesFour, c, Branch(), 3) == None
  {
    var f := Branch();
    assert Replay(RefusesFour, c, f, 0) == Some(c);
    MildStep(c, SideBlock(2));
    AppliedKeeps(RefusesFour, c, SideBlock(2));
    ReplayNext(RefusesFour, c, f, 0);
    var c2 := Replay(RefusesFour, c, f, 1).value;
    MildStep(c2, SideBlock(3));
    AppliedKeeps(RefusesFour, c2, SideBlock(3));
    ReplayNext(RefusesFour, c, f, 1);
    var c3 := Replay(RefusesFour, c, f, 2).value;
    MildStep(c3, SideBlock(4));
    ReplayNext(RefusesFour, c, f, 2);
  }

  lemma {:induction false} ReplayPrefix(c: Chain<Nothing>, f: seq<Block>, k: nat, n: nat)
    requires ValidChain(c) && AllValid(f) && k <= n <= |f| && Replay(RefusesFour, c, f, n).Some?
    ensures Replay(RefusesFour, c, f, k).Some?
  {
    if k < n { ReplayPrefix(c, f, k, n - 1); }
  }

  lemma TwoAccepted(c: Chain<Nothing>, done: nat)
    requires Mild(c) && c.head == MainId(1) && AllValid(Branch()) && done <= |Branch()|
    requires Replay(RefusesFour, c, Branch(), done).Some?
    requires done < |Branch()| ==> Replay(RefusesFour, c, Branch(), done + 1).None?
    ensures done == 2 && !CanRollBack(RefusesFour, c, Branch(), 2)
  {
    BranchReplay(c);
    if done >= 3 { ReplayPrefix(c, Branch(), 3, done); }
    assert !LongAt(RefusesFour, c, Branch(), 1);
  }

  /** Block 3 of the new branch and all blocks from 3' on are still known. */
  lemma ThreeSurvives(c: Chain<Nothing>, num: nat)
    requires Mild(c) && c.head == MainId(1) && AllValid(Branch()) && 3 <= num
    ensures Survives(RefusesFour, c, Branch(), 3, 6, num)
  {
    BranchReplay(c);
    forall j | 1 <= j <= 3 ensures KeptAt(RefusesFour, c, Branch(), j, 6, num) {}
  }

  /** The irreversible number is 0 and every block is above it, yet the switch breaks: block 2 prunes itself from the
      fork database, and the chain is left on it with the old head above it. */
  method BrokenRun() returns (r: Outcome, db: ChainDatabase<Nothing>)
    ensures r.Broken? && fresh(db) && db.Sound()
    ensures db.chain.head == BlockId(2, 0) && db.chain.state.irreversible == 0
    ensures BlockId(2, 0) !in db.index && MainId(5) in db.index
    ensures |db.undo| > 0 ==> HeadAt(db.undo, db.chain, 1) == MainId(1)
    ensures |db.store| >= 5 && db.store[0] == MainId(1) && db.store[1] == BlockId(2, 0) && db.store[4] == MainId(5)
  {
    hide UndoChain, Mild, ValidChain, AllMild, Knows;
    db := new ChainDatabase(RefusesFour, Nothing, [0, 1, 2]);
    StartsMild(db);
    hide Grown;
    for n := 1 to 6
      invariant fresh(db) && Grown(db, n - 1, 0)
    {
      Grow(db, n);
    }
    KnowsOne(db);
    for m := 2 to 6
      invariant fresh(db) && Grown(db, 5, m - 1)
    {
      GrowSide(db, m);
    }
    r := LastBlock(db);
  }

  method LastBlock(db: ChainDatabase<Nothing>) returns (r: Outcome)
    requires Grown(db, 5, 5)
    modifies db
    ensures r.Broken? && db.Sound()
    ensures db.chain.head == BlockId(2, 0) && db.chain.state.irreversible == 0
    ensures BlockId(2, 0) !in db.index && MainId(5) in db.index
    ensures |db.undo| > 0 ==> HeadAt(db.undo, db.chain, 1) == MainId(1)
    ensures |db.store| >= 5 && db.store[0] == MainId(1) && db.store[1] == BlockId(2, 0) && db.store[4] == MainId(5)
  {
    hide UndoChain, Mild, ValidChain, CommonRoot, Nearest, Agree, AllMild, Replay, CanRollBack, LeadsBack, ValidIndex;
    hide Knows, Newest, Surviving;
    var b := SideBlock(6);
    NewBlockFits(db, 5, 5, b);
    LastIsTaken(db, b);
    ghost var undo, chain, ix := db.undo, db.chain, db.Taken(b);
    MildAt(undo, chain, 5, 1);
    Connected(ix);
    ghost var c := undo[1];
    var f, s, done;
    r, f, s, done := db.PushBlock(b);
    BranchesAre(ix, f, s);
    assert StateAt(undo, chain, 4) == c;
    TwoAccepted(c, done);
    Stranded(db, ix, c, b);
    HeadInStore(db.undo, db.chain, db.store);
  }

  lemma HeadInStore(undo: seq<Chain<Nothing>>, now: Chain<Nothing>, store: seq<BlockId>)
    requires Stored(undo, now, store) && now.head.num > 0
    ensures now.head.num <= |store| && store[now.head.num - 1] == now.head
  {
    assert HeadAt(undo, now, 0) == now.head;
  }

  lemma LastIsTaken(db: ChainDatabase<Nothing>, b: Block)
    requires Grown(db, 5, 5) && b == SideBlock(6)
    ensures Knows(db.Taken(b), 5, 6) && !db.IsTooOld(b) && !db.IsUnlinkable(b)
    ensures db.forkHead.Some? && db.chain.head.num == 5
  {
    hide UndoChain, AllMild;
    KnowsSide(db.index, 6);
    assert IsKnown(b.previous, 5, 5);
    assert IsKnown(db.chain.head, 5, 5);
  }

  lemma StartsMild(db: ChainDatabase<Nothing>)
    requires db.Valid() && db.exec == RefusesFour && db.highest == 0 && db.undo == [] && db.index == map[]
    requires db.chain == Chain(GENESIS, Irreversible.ChainState(0, 0, [0, 1, 2], map[]), Nothing)
    requires db.maxUndo > 0 && db.store == []
    ensures Grown(db, 0, 0)
  {}

  lemma KnowsOne(db: ChainDatabase<Nothing>)
    requires Grown(db, 5, 0)
    ensures Grown(db, 5, 1)
  {}

  lemma MildAt(undo: seq<Chain<Nothing>>, now: Chain<Nothing>, n: nat, i: nat)
    requires AllMild(undo, now, n) && i < n
    ensures |undo| == n && Mild(undo[i]) && undo[i].head == MainId(i) && ValidChain(undo[i])
  {}

  lemma Connected(ix: Index)
    requires Knows(ix, 5, 6)
    ensures CommonRoot(Branch(), OldBranch5(), BlockId(6, 0), MainId(5), ix)
  {}

  lemma Stranded(db: ChainDatabase<Nothing>, ix: Index, c: Chain<Nothing>, b: Block)
    requires Mild(c) && c.head == MainId(1) && Knows(ix, 5, 6) && AllValid(Branch()) && b == SideBlock(6)
    requires db.exec == RefusesFour && db.LeftOnBranch(ix, c, b, Branch(), 2)
    ensures db.chain.head == BlockId(2, 0) && db.chain.state.irreversible == 0
    ensures db.chain.head !in db.index && MainId(5) in db.index
    ensures |db.undo| > 0 ==> HeadAt(db.undo, db.chain, 1) == MainId(1)
  {
    hide Replay, Survives, LeadsBack, LimitAt, ValidChain;
    BranchReplay(c);
    ThreeSurvives(c, 3);
    ThreeSurvives(c, 5);
    StillKnown(ix, RefusesFour, c, db.index);
    var k :| 1 <= k <= 2 && Some(db.chain) == Replay(RefusesFour, c, Branch(), k)
             && LeadsBack(RefusesFour, c, Branch(), k, db.undo, db.chain);
    assert k == 1;
    FirstStep(c, db.undo, db.chain);
  }

  lemma StillKnown(ix: Index, exec: Exec<Nothing>, c: Chain<Nothing>, index: Index)
    requires Knows(ix, 5, 6) && ValidChain(c) && AllValid(Branch())
    requires Survives(exec, c, Branch(), 3, 6, 3) && Survives(exec, c, Branch(), 3, 6, 5)
    requires index == Surviving(ix, exec, c, Branch(), 3, 6) - Ids(Branch()[..3])
    ensures BlockId(3, 0) in index && MainId(5) in index
  {
    hide Survives;
    assert Branch()[..3] == [SideBlock(6), SideBlock(5), SideBlock(4)];
    assert IsKnown(BlockId(3, 0), 5, 6) && IsKnown(MainId(5), 5, 6);
  }

  lemma FirstStep(c: Chain<Nothing>, undo: seq<Chain<Nothing>>, now: Chain<Nothing>)
    requires Mild(c) && c.head == MainId(1) && AllValid(Branch()) && Some(now) == Replay(RefusesFour, c, Branch(), 1)
    requires LeadsBack(RefusesFour, c, Branch(), 1, undo, now)
    ensures now.state.irreversible == 0 && (|undo| > 0 ==> HeadAt(undo, now, 1) == MainId(1))
  {
    hide Applied;
    MildStep(c, SideBlock(2));
    ReplayNone(RefusesFour, c, Branch());
    ReplayNext(RefusesFour, c, Branch(), 0);
    hide Replay;
    if |undo| > 0 { assert Some(StateAt(undo, now, 1)) == Replay(RefusesFour, c, Branch(), 1 - 1); }
  }

  // A branch that does not link back

  function AcceptsAll(d: Nothing, b: Block): Executed<Nothing> { Done(Nothing, [0]) }

  function Straight(n: nat): Block
    requires n > 0
  {
    Block(BlockId(n, 0), BlockId(n - 1, 0), 0)
  }

  /** The blocks 4', 5' and so on, on top of block 3. */
  function Aside(n: nat): Block
    requires n >= 4
  {
    Block(BlockId(n, 1), BlockId(n - 1, if n == 4 then 0 else 1), 0)
  }

  /** The only witness has confirmed every block, so every block is irreversible. */
  ghost predicate Fast(c: Chain<Nothing>, n: nat) {
    && ValidChain(c) && c.head == BlockId(n, 0) && c.state.irreversible == n && c.state.active == [0]
  }

  lemma FastStep(c: Chain<Nothing>, n: nat)
    requires Fast(c, n)
    ensures Limit(c) == 2 && Applied(AcceptsAll, c, Straight(n + 1)).Some?
    ensures Fast(Applied(AcceptsAll, c, Straight(n + 1)).value, n + 1)
  {
    AppliedKeeps(AcceptsAll, c, Straight(n + 1));
    var votes := Irreversible.Votes([0], c.state.confirmed[0 := n + 1]);
    assert votes == [n + 1];
    var v := Irreversible.Nth(votes, 0);
    assert v in votes;
  }

  /** The fork database has the last blocks of the chain up to `n` and those of the other branch up to `m`. */
  predicate IsNear(id: BlockId, n: nat, m: nat) {
    n <= id.num + 2 && ((id.hash == 0 && 1 <= id.num <= n) || (id.hash == 1 && 4 <= id.num <= m))
  }

  ghost predicate KnowsNear(ix: Index, n: nat, m: nat) {
    forall id :: (id in ix <==> IsNear(id, n, m)) &&
                 (id in ix ==> ix[id] == if id.hash == 0 then Straight(id.num) else Aside(id.num))
  }

  ghost predicate Ahead(db: ChainDatabase<Nothing>, n: nat, m: nat)
    reads db
  {
    && db.Valid() && db.exec == AcceptsAll && Fast(db.chain, n) && KnowsNear(db.index, n, m)
    && (forall i :: 0 <= i < |db.undo| ==> db.undo[i].head.hash == 0)
    && 2 <= db.forkSize && (n > 0 ==> db.forkSize == 2)
    && |db.store| == n && forall i :: 0 <= i < n ==> db.store[i] == BlockId(i + 1, 0)
  }

  lemma NearFits(db: ChainDatabase<Nothing>, n: nat, m: nat, b: Block)
    requires Ahead(db, n, m) && b.id.num > 0 && (b.id.hash == 1 || b.id.num > n) && b.id !in db.index
    ensures db.NoClash(b)
  {
    UndoneHashes(db.exec, db.undo, db.blocks, db.chain, b);
  }

  lemma UndoneHashes(exec: Exec<Nothing>, undo: seq<Chain<Nothing>>, blocks: seq<Block>, now: Chain<Nothing>, b: Block)
    requires UndoChain(exec, undo, blocks, now) && now.head.hash == 0 && (b.id.hash == 1 || b.id.num > now.head.num)
    requires forall i :: 0 <= i < |undo| ==> undo[i].head.hash == 0
    ensures Agree(blocks, map[b.id := b])
  {
    forall i | 0 <= i < |blocks| ensures blocks[i].id != b.id {
      LowerHead(exec, undo, blocks, now, |undo| - i);
      assert Applied(exec, undo[i], blocks[i]) == Some(NextOf(undo, now, i));
      AppliedKeeps(exec, undo[i], blocks[i]);
    }
  }

  method GrowStraight(db: ChainDatabase<Nothing>, n: nat, m: nat)
    requires n > 0 && Ahead(db, n - 1, m) && m < n
    modifies db
    ensures Ahead(db, n, m)
  {
    hide UndoChain, Applied, Fast, ValidChain, CommonRoot, Nearest, Newest, Agree, ValidIndex;
    var b := Straight(n);
    ghost var c := db.chain;
    FastHead(c, n - 1);
    NearFits(db, n - 1, m, b);
    FastStep(c, n - 1);
    NearGrows(db.index, db.Taken(b), n, m, db.forkSize);
    NewestHashes(db.undo, db.maxUndo, c);
    var r, f, s, done := db.PushBlock(b);
    assert r.Extended?;
    FastHead(db.chain, n);
  }

  lemma FastHead(c: Chain<Nothing>, n: nat)
    requires Fast(c, n)
    ensures c.head == BlockId(n, 0) && ValidChain(c)
  {}

  lemma NewestHashes(undo: seq<Chain<Nothing>>, max: nat, c: Chain<Nothing>)
    requires (forall i :: 0 <= i < |undo| ==> undo[i].head.hash == 0) && c.head.hash == 0
    ensures var t := Newest(undo, max) + [c]; forall i :: 0 <= i < |t| ==> t[i].head.hash == 0
  {}

  lemma NearGrows(ix: Index, taken: Index, n: nat, m: nat, size: nat)
    requires n > 0 && m < n && KnowsNear(ix, n - 1, m) && 2 <= size
    requires taken == Pruned(ix[BlockId(n, 0) := Straight(n)], n, size) || taken == ix[BlockId(n, 0) := Straight(n)]
    ensures KnowsNear(Pruned(taken, n, 2), n, m)
  {}

  method GrowAside(db: ChainDatabase<Nothing>, n: nat, m: nat)
    requires 4 <= m <= n <= m + 1 && Ahead(db, n, m - 1)
    modifies db
    ensures Ahead(db, n, m)
  {
    hide UndoChain, Applied, Fast, ValidChain, CommonRoot, Nearest, Newest, Agree, ValidIndex, Stored;
    var b := Aside(m);
    FastHead(db.chain, n);
    NearFits(db, n, m - 1, b);
    NearAside(db.index, n, m);
    hide KnowsNear;
    var r, f, s, done := db.PushBlock(b);
    assert r.Ignored?;
  }

  lemma NearAside(ix: Index, n: nat, m: nat)
    requires 4 <= m <= n <= m + 1 && KnowsNear(ix, n, m - 1)
    ensures Aside(m).previous in ix && Aside(m).id !in ix && KnowsNear(ix[Aside(m).id := Aside(m)], n, m)
  {
    assert IsNear(Aside(m).previous, n, m - 1);
  }

  /** Neither branch leads to a block both have. */
  lemma NoCommonRoot(ix: Index, fw: seq<Block>, sw: seq<Block>)
    requires forall id :: id in ix && id.hash == 1 ==> id.num >= 5 && ix[id] == Aside(id.num)
    requires forall id :: id in ix && id.hash == 0 ==> id.num > 0 && ix[id] == Straight(id.num)
    ensures !CommonRoot(fw, sw, BlockId(7, 1), BlockId(6, 0), ix)
  {
    if CommonRoot(fw, sw, BlockId(7, 1), BlockId(6, 0), ix) {
      StaysAside(fw, ix, |fw| - 1);
      StaysStraight(sw, ix, |sw| - 1);
    }
  }

  lemma {:induction false} StaysAside(fw: seq<Block>, ix: Index, i: nat)
    requires IsBranch(fw, BlockId(7, 1), ix) && i < |fw|
    requires forall id :: id in ix && id.hash == 1 ==> id.num >= 5 && ix[id] == Aside(id.num)
    ensures fw[i].id.hash == 1 && fw[i].previous.hash == 1
  {
    if i > 0 {
      StaysAside(fw, ix, i - 1);
      assert fw[i - 1].previous == fw[i].id;
    }
    assert fw[i].id in ix;
  }

  lemma {:induction false} StaysStraight(sw: seq<Block>, ix: Index, i: nat)
    requires IsBranch(sw, BlockId(6, 0), ix) && i < |sw|
    requires forall id :: id in ix && id.hash == 0 ==> id.num > 0 && ix[id] == Straight(id.num)
    ensures sw[i].id.hash == 0 && sw[i].previous.hash == 0
  {
    if i > 0 {
      StaysStraight(sw, ix, i - 1);
      assert sw[i - 1].previous == sw[i].id;
    }
    assert sw[i].id in ix;
  }

  /** The chain stays on its block 6, and the fork database has a block above it. */
  method UnconnectedRun() returns (r: Outcome, db: ChainDatabase<Nothing>)
    ensures r.Unconnected? && fresh(db) && db.Sound() && db.chain.head == BlockId(6, 0) && BlockId(7, 1) in db.index
    ensures |db.store| == 6 && forall i :: 0 <= i < 6 ==> db.store[i] == BlockId(i + 1, 0)
  {
    hide UndoChain, Fast, ValidChain, KnowsNear;
    db := new ChainDatabase(AcceptsAll, Nothing, [0]);
    StartsFast(db);
    hide Ahead;
    for n := 1 to 6
      invariant fresh(db) && Ahead(db, n - 1, 0)
    {
      GrowStraight(db, n, 0);
    }
    SameNear(db);
    GrowAside(db, 5, 4);
    GrowAside(db, 5, 5);
    GrowStraight(db, 6, 5);
    GrowAside(db, 6, 6);
    r := LongerBranch(db);
  }

  lemma StartsFast(db: ChainDatabase<Nothing>)
    requires db.Valid() && db.exec == AcceptsAll && db.undo == [] && db.index == map[] && db.store == []
    requires db.chain == Chain(GENESIS, Irreversible.ChainState(0, 0, [0], map[]), Nothing) && db.forkSize >= 2
    ensures Ahead(db, 0, 0)
  {}

  lemma SameNear(db: ChainDatabase<Nothing>)
    requires Ahead(db, 5, 0)
    ensures Ahead(db, 5, 3)
  {}

  method LongerBranch(db: ChainDatabase<Nothing>) returns (r: Outcome)
    requires Ahead(db, 6, 6)
    modifies db
    ensures r.Unconnected? && db.Sound() && db.chain.head == BlockId(6, 0) && BlockId(7, 1) in db.index
    ensures db.store == old(db.store) && |db.store| == 6 && forall i :: 0 <= i < 6 ==> db.store[i] == BlockId(i + 1, 0)
  {
    hide UndoChain, Applied, Fast, ValidChain, CommonRoot, Nearest, Newest, Agree, ValidIndex, Replay;
    var b := Aside(7);
    FastHead(db.chain, 6);
    NearFits(db, 6, 6, b);
    assert IsNear(b.previous, 6, 6);
    ghost var ix := db.Taken(b);
    assert b.id in ix;
    forall fw, sw ensures !CommonRoot(fw, sw, BlockId(7, 1), BlockId(6, 0), ix) {
      NoCommonRoot(ix, fw, sw);
    }
    var f, s, done;
    r, f, s, done := db.PushBlock(b);
  }
}
