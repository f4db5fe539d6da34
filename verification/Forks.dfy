/** The fork database's search for the common ancestor of two branches, and the switch of the chain from
    one branch to another with its rollback. */
module Forks {
  import opened Common
  import Irreversible

  datatype Block = Block(id: BlockId, previous: BlockId, signer: nat)

  predicate ValidBlock(b: Block) { b.id.num == b.previous.num + 1 }

  /** The blocks known to the fork database. */
  type Index = map<BlockId, Block>

  predicate ValidIndex(ix: Index) {
    forall id :: id in ix ==> ix[id].id == id && ValidBlock(ix[id])
  }

  /** A branch is listed from its newest block down. */
  predicate Linked(branch: seq<Block>) {
    forall i :: 0 <= i < |branch| - 1 ==> branch[i].previous == branch[i + 1].id
  }

  predicate AllIn(branch: seq<Block>, ix: Index) {
    forall i :: 0 <= i < |branch| ==> branch[i].id in ix && ix[branch[i].id] == branch[i]
  }

  predicate IsBranch(branch: seq<Block>, tip: BlockId, ix: Index) {
    branch != [] && branch[0].id == tip && Linked(branch) && AllIn(branch, ix)
  }

  function Root(branch: seq<Block>): BlockId
    requires branch != []
  {
    branch[|branch| - 1].previous
  }

  /** Two branches of known blocks down to a common parent. */
  predicate CommonRoot(f: seq<Block>, s: seq<Block>, first: BlockId, second: BlockId, ix: Index) {
    IsBranch(f, first, ix) && IsBranch(s, second, ix) && Root(f) == Root(s)
  }

  lemma {:induction false} Heights(branch: seq<Block>, tip: BlockId, ix: Index, i: nat)
    requires ValidIndex(ix) && IsBranch(branch, tip, ix) && i < |branch|
    ensures branch[i].id.num == tip.num - i && branch[i].previous.num + 1 == branch[i].id.num
  {
    if i > 0 { Heights(branch, tip, ix, i - 1); }
  }

  /** One step further down a branch. */
  lemma Deeper(branch: seq<Block>, b: Block, tip: BlockId, ix: Index)
    requires IsBranch(branch + [b], tip, ix) && ValidIndex(ix) && b.previous in ix
    ensures IsBranch(branch + [b] + [ix[b.previous]], tip, ix)
    ensures b.id.num == ix[b.previous].id.num + 1
  {
    assert (branch + [b])[|branch|] == b;
  }

  /** While the walk has not reached the end of a longer branch, the next block is known. */
  lemma CanGoDeeper(walked: seq<Block>, b: Block, whole: seq<Block>, tip: BlockId, ix: Index)
    requires IsBranch(whole, tip, ix) && walked + [b] <= whole && |walked| + 1 < |whole|
    ensures b.previous in ix && walked + [b] + [ix[b.previous]] <= whole
  {
    assert whole[|walked|] == b;
    assert whole[|walked| + 1].id == b.previous;
  }

  /** Every pair of branches with a common root continues the two walks. */
  ghost predicate Nearest(walked: seq<Block>, other: seq<Block>, first: BlockId, second: BlockId, ix: Index) {
    forall fw, sw :: CommonRoot(fw, sw, first, second, ix) ==> walked <= fw && other <= sw
  }

  /** `fetch_branch_from`: the branches of two blocks down to their nearest common parent.  Every pair of
      branches with a common root extends the pair found, and without such a pair nothing is found. */
  method FetchBranches(ix: Index, first: BlockId, second: BlockId) returns (r: Option<(seq<Block>, seq<Block>)>)
    requires ValidIndex(ix)
    ensures r.Some? ==> CommonRoot(r.value.0, r.value.1, first, second, ix)
    ensures r.Some? ==> Nearest(r.value.0, r.value.1, first, second, ix)
    ensures r.None? ==> forall fw, sw :: !CommonRoot(fw, sw, first, second, ix)
  {
    hide Linked, AllIn, ValidIndex;
    if first !in ix || second !in ix {
      NotRooted(first, second, ix);
      return None;
    }
    var f, s := [], [];
    var fb, sb := ix[first], ix[second];
    StartOfWalk(first, second, ix);
    while fb.id.num > sb.id.num
      invariant IsBranch(f + [fb], first, ix) && s == [] && IsBranch(s + [sb], second, ix)
      invariant Nearest(f + [fb], s + [sb], first, second, ix)
      decreases fb.id.num
    {
      WalkFirst(f, fb, s, sb, first, second, ix);
      if fb.previous !in ix { return None; }
      Deeper(f, fb, first, ix);
      f, fb := f + [fb], ix[fb.previous];
    }
    while sb.id.num > fb.id.num
      invariant IsBranch(f + [fb], first, ix) && IsBranch(s + [sb], second, ix) && fb.id.num <= sb.id.num
      invariant Nearest(f + [fb], s + [sb], first, second, ix)
      decreases sb.id.num
    {
      WalkSecond(f, fb, s, sb, first, second, ix);
      if sb.previous !in ix { return None; }
      Deeper(s, sb, second, ix);
      s, sb := s + [sb], ix[sb.previous];
    }
    while fb.previous != sb.previous
      invariant IsBranch(f + [fb], first, ix) && IsBranch(s + [sb], second, ix) && fb.id.num == sb.id.num
      invariant Nearest(f + [fb], s + [sb], first, second, ix)
      decreases sb.id.num
    {
      WalkBoth(f, fb, s, sb, first, second, ix);
      if fb.previous !in ix || sb.previous !in ix { return None; }
      Deeper(f, fb, first, ix);
      Deeper(s, sb, second, ix);
      f, s, fb, sb := f + [fb], s + [sb], ix[fb.previous], ix[sb.previous];
    }
    r := Some((f + [fb], s + [sb]));
  }

  lemma NotRooted(first: BlockId, second: BlockId, ix: Index)
    requires first !in ix || second !in ix
    ensures forall fw, sw :: !CommonRoot(fw, sw, first, second, ix)
  {}

  lemma StartOfWalk(first: BlockId, second: BlockId, ix: Index)
    requires ValidIndex(ix) && first in ix && second in ix
    ensures IsBranch([] + [ix[first]], first, ix) && IsBranch([] + [ix[second]], second, ix)
    ensures Nearest([] + [ix[first]], [] + [ix[second]], first, second, ix)
  {
    forall fw, sw | CommonRoot(fw, sw, first, second, ix) ensures [ix[first]] <= fw && [ix[second]] <= sw {
      assert fw[0] == ix[first] && sw[0] == ix[second];
    }
  }

  /** The higher block is not the end of its branch: the walk can go on, or there is no common root. */
  lemma WalkFirst(f: seq<Block>, fb: Block, s: seq<Block>, sb: Block, first: BlockId, second: BlockId, ix: Index)
    requires ValidIndex(ix) && Nearest(f + [fb], s + [sb], first, second, ix) && fb.id.num > sb.id.num
    ensures fb.previous in ix ==> Nearest(f + [fb] + [ix[fb.previous]], s + [sb], first, second, ix)
    ensures fb.previous !in ix ==> forall fw, sw :: !CommonRoot(fw, sw, first, second, ix)
  {
    forall fw, sw | CommonRoot(fw, sw, first, second, ix)
      ensures fb.previous in ix && f + [fb] + [ix[fb.previous]] <= fw
    {
      EndsMeet(fw, sw, first, second, ix, |f|, |s|);
      CanGoDeeper(f, fb, fw, first, ix);
    }
  }

  lemma WalkSecond(f: seq<Block>, fb: Block, s: seq<Block>, sb: Block, first: BlockId, second: BlockId, ix: Index)
    requires ValidIndex(ix) && Nearest(f + [fb], s + [sb], first, second, ix) && sb.id.num > fb.id.num
    ensures sb.previous in ix ==> Nearest(f + [fb], s + [sb] + [ix[sb.previous]], first, second, ix)
    ensures sb.previous !in ix ==> forall fw, sw :: !CommonRoot(fw, sw, first, second, ix)
  {
    forall fw, sw | CommonRoot(fw, sw, first, second, ix)
      ensures sb.previous in ix && s + [sb] + [ix[sb.previous]] <= sw
    {
      EndsMeet(fw, sw, first, second, ix, |f|, |s|);
      CanGoDeeper(s, sb, sw, second, ix);
    }
  }

  lemma WalkBoth(f: seq<Block>, fb: Block, s: seq<Block>, sb: Block, first: BlockId, second: BlockId, ix: Index)
    requires ValidIndex(ix) && Nearest(f + [fb], s + [sb], first, second, ix)
    requires fb.id.num == sb.id.num && fb.previous != sb.previous
    ensures fb.previous in ix && sb.previous in ix ==>
              Nearest(f + [fb] + [ix[fb.previous]], s + [sb] + [ix[sb.previous]], first, second, ix)
    ensures fb.previous !in ix || sb.previous !in ix ==> forall fw, sw :: !CommonRoot(fw, sw, first, second, ix)
  {
    forall fw, sw | CommonRoot(fw, sw, first, second, ix)
      ensures fb.previous in ix && sb.previous in ix
      ensures f + [fb] + [ix[fb.previous]] <= fw && s + [sb] + [ix[sb.previous]] <= sw
    {
      EndsMeet(fw, sw, first, second, ix, |f|, |s|);
      CanGoDeeper(f, fb, fw, first, ix);
      CanGoDeeper(s, sb, sw, second, ix);
    }
  }

  /** Two branches with a common root end at the same height, so the higher of two blocks is not the end
      of its branch, and two blocks of one height with different parents are both not. */
  lemma EndsMeet(fw: seq<Block>, sw: seq<Block>, first: BlockId, second: BlockId, ix: Index, i: nat, j: nat)
    requires ValidIndex(ix) && CommonRoot(fw, sw, first, second, ix) && i < |fw| && j < |sw|
    ensures fw[i].id.num > sw[j].id.num ==> i + 1 < |fw|
    ensures sw[j].id.num > fw[i].id.num ==> j + 1 < |sw|
    ensures fw[i].id.num == sw[j].id.num && fw[i].previous != sw[j].previous ==> i + 1 < |fw| && j + 1 < |sw|
  {
    Heights(fw, first, ix, i);
    Heights(sw, second, ix, j);
    Heights(fw, first, ix, |fw| - 1);
    Heights(sw, second, ix, |sw| - 1);
  }

  // Replaying blocks

  type Witnesses = s: seq<nat> | |s| > 0 witness [0]

  /** The object database: the id of its head block, the votes of the witnesses, and everything else. */
  datatype Chain<D> = Chain(head: BlockId, state: Irreversible.ChainState, data: D)

  ghost predicate ValidChain<D>(c: Chain<D>) {
    c.state.head == c.head.num && Irreversible.ValidState(c.state)
  }

  /** What executing a block comes to: new data and the witnesses elected, or a refusal before or after the undo
      limit is set. */
  datatype Executed<D> = Done(data: D, active: Witnesses) | Refused(late: bool)

  type Exec<!D> = (D, Block) -> Executed<D>

  /** The limit on undo states and on the fork database that a block on top of `c` sets. */
  ghost function Limit<D>(c: Chain<D>): nat
    requires ValidChain(c)
  {
    c.head.num + 2 - c.state.irreversible
  }

  /** The block is refused before `exec` counts: it does not follow the head, or there are too many blocks
      above the irreversible one. */
  ghost predicate Barred<D>(c: Chain<D>, b: Block) {
    b.previous != c.head || c.head.num + 1 - c.state.irreversible >= Irreversible.MAX_UNDO_HISTORY
  }

  /** `apply_block`: `exec` decides about all that is not modelled. */
  ghost function Applied<D>(exec: Exec<D>, c: Chain<D>, b: Block): Option<Chain<D>>
    requires ValidChain(c)
  {
    if Barred(c, b) then None
    else match exec(c.data, b)
         case Refused(_) => None
         case Done(data, active) => Some(Chain(b.id, Irreversible.Step(c.state, b.signer, active), data))
  }

  /** The limit the block sets, if it gets that far. */
  ghost function LimitSet<D>(exec: Exec<D>, c: Chain<D>, b: Block): Option<nat>
    requires ValidChain(c)
  {
    if Barred(c, b) || exec(c.data, b) == Refused(false) then None else Some(Limit(c))
  }

  lemma AppliedKeeps<D>(exec: Exec<D>, c: Chain<D>, b: Block)
    requires ValidChain(c) && ValidBlock(b)
    ensures match Applied(exec, c, b)
            case None => true
            case Some(d) => && ValidChain(d) && d.head == b.id && d.head.num == c.head.num + 1
                            && c.state.irreversible <= d.state.irreversible && LimitSet(exec, c, b) == Some(Limit(c))
    ensures 2 <= Limit(c)
  {
    if !Barred(c, b) {
      match exec(c.data, b)
      case Refused(_) =>
      case Done(data, active) => Irreversible.StepKeeps(c.state, b.signer, active);
    }
  }

  /** The state after the `n` oldest blocks of a branch. */
  ghost function Replay<D>(exec: Exec<D>, c: Chain<D>, branch: seq<Block>, n: nat): (r: Option<Chain<D>>)
    requires ValidChain(c) && n <= |branch| && AllValid(branch)
    ensures r.Some? ==> ValidChain(r.value) && r.value.head.num == c.head.num + n
  {
    if n == 0 then Some(c)
    else match Replay(exec, c, branch, n - 1)
         case None => None
         case Some(p) =>
           AppliedKeeps(exec, p, branch[|branch| - n]);
           Applied(exec, p, branch[|branch| - n])
  }

  predicate AllValid(branch: seq<Block>) { forall i :: 0 <= i < |branch| ==> ValidBlock(branch[i]) }

  /** The limit set by the `n`-th oldest block of a branch. */
  ghost function LimitAt<D>(exec: Exec<D>, c: Chain<D>, branch: seq<Block>, n: nat): Option<nat>
    requires ValidChain(c) && 0 < n <= |branch| && AllValid(branch)
  {
    match Replay(exec, c, branch, n - 1)
    case None => None
    case Some(p) => LimitSet(exec, p, branch[|branch| - n])
  }

  /** A block of number `num` is still in the fork database, whose head has number `top`, after the `n` oldest
      blocks of a branch were tried. */
  ghost predicate Survives<D>(exec: Exec<D>, c: Chain<D>, branch: seq<Block>, n: nat, top: nat, num: nat)
    requires ValidChain(c) && n <= |branch| && AllValid(branch)
  {
    forall j :: 1 <= j <= n ==> KeptAt(exec, c, branch, j, top, num)
  }

  ghost predicate KeptAt<D>(exec: Exec<D>, c: Chain<D>, branch: seq<Block>, j: nat, top: nat, num: nat)
    requires ValidChain(c) && 0 < j <= |branch| && AllValid(branch)
  {
    var l := LimitAt(exec, c, branch, j); l.Some? ==> top <= num + l.value
  }

  /** How many blocks of a branch are tried when the first `done` are accepted. */
  function Tried(branch: seq<Block>, done: nat): nat
    requires done <= |branch|
  {
    if done < |branch| then done + 1 else done
  }

  /** The blocks of a branch that were applied before one was refused can be popped again: no block tried set a
      limit below the length of the branch less one. */
  ghost predicate CanRollBack<D>(exec: Exec<D>, c: Chain<D>, branch: seq<Block>, done: nat)
    requires ValidChain(c) && done < |branch| && AllValid(branch)
  {
    done == 0 || forall j :: 1 <= j <= done + 1 ==> LongAt(exec, c, branch, j)
  }

  ghost predicate LongAt<D>(exec: Exec<D>, c: Chain<D>, branch: seq<Block>, j: nat)
    requires ValidChain(c) && 0 < j <= |branch| && AllValid(branch)
  {
    var l := LimitAt(exec, c, branch, j); l.Some? ==> |branch| - 1 <= l.value
  }

  /** The same in irreversible numbers: each block of the branch that got so far must have seen an irreversible
      number low enough for the length of the branch. */
  ghost predicate SawLowAt<D>(exec: Exec<D>, c: Chain<D>, branch: seq<Block>, j: nat)
    requires ValidChain(c) && 0 < j <= |branch| && AllValid(branch)
  {
    LimitAt(exec, c, branch, j).Some? ==>
      var before := Replay(exec, c, branch, j - 1);
      before.Some? && before.value.state.irreversible + |branch| <= c.head.num + j + 2
  }

  lemma CanRollBackMeans<D>(exec: Exec<D>, c: Chain<D>, branch: seq<Block>, done: nat)
    requires ValidChain(c) && done < |branch| && AllValid(branch)
    ensures CanRollBack(exec, c, branch, done) <==>
              (done == 0 || forall j :: 1 <= j <= done + 1 ==> SawLowAt(exec, c, branch, j))
  {
    hide Replay, LongAt, SawLowAt;
    forall j | 1 <= j <= done + 1 ensures LongAt(exec, c, branch, j) <==> SawLowAt(exec, c, branch, j) {
      LongMeans(exec, c, branch, j);
    }
  }

  lemma LongMeans<D>(exec: Exec<D>, c: Chain<D>, branch: seq<Block>, j: nat)
    requires ValidChain(c) && 0 < j <= |branch| && AllValid(branch)
    ensures LongAt(exec, c, branch, j) <==> SawLowAt(exec, c, branch, j)
  {
    hide Applied;
  }

  ghost function NextOf<D>(undo: seq<Chain<D>>, now: Chain<D>, k: nat): Chain<D> {
    if k + 1 < |undo| then undo[k + 1] else now
  }

  /** The committed undo states, each the state before one of the last `blocks`. */
  ghost predicate UndoChain<D>(exec: Exec<D>, undo: seq<Chain<D>>, blocks: seq<Block>, now: Chain<D>) {
    && |undo| == |blocks| && ValidChain(now) && AllValid(blocks)
    && (forall k :: 0 <= k < |undo| ==> ValidChain(undo[k]))
    && forall k {:trigger NextOf(undo, now, k)} :: 0 <= k < |undo| ==>
         Applied(exec, undo[k], blocks[k]) == Some(NextOf(undo, now, k))
  }

  lemma UndoChainDrop<D>(exec: Exec<D>, undo: seq<Chain<D>>, blocks: seq<Block>, now: Chain<D>)
    requires UndoChain(exec, undo, blocks, now) && undo != []
    ensures UndoChain(exec, undo[1..], blocks[1..], now)
  {
    hide Applied, ValidChain;
    forall k | 0 <= k < |undo| - 1 ensures NextOf(undo[1..], now, k) == NextOf(undo, now, k + 1) {}
  }

  lemma UndoChainPush<D>(exec: Exec<D>, undo: seq<Chain<D>>, blocks: seq<Block>, now: Chain<D>, b: Block,
                         next: Chain<D>)
    requires UndoChain(exec, undo, blocks, now) && Applied(exec, now, b) == Some(next) && ValidBlock(b)
    ensures UndoChain(exec, undo + [now], blocks + [b], next)
  {
    AppliedKeeps(exec, now, b);
    hide Applied, ValidChain;
    forall k | 0 <= k < |undo| ensures NextOf(undo + [now], next, k) == NextOf(undo, now, k) {}
  }

  lemma UndoChainPop<D>(exec: Exec<D>, undo: seq<Chain<D>>, blocks: seq<Block>, now: Chain<D>)
    requires UndoChain(exec, undo, blocks, now) && undo != []
    ensures var n := |undo| - 1;
            && UndoChain(exec, undo[..n], blocks[..n], undo[n])
            && undo[n].head.num + 1 == now.head.num && undo[n].state.irreversible <= now.state.irreversible
  {
    var n := |undo| - 1;
    assert Applied(exec, undo[n], blocks[n]) == Some(NextOf(undo, now, n));
    AppliedKeeps(exec, undo[n], blocks[n]);
    hide Applied, ValidChain;
    forall k | 0 <= k < n ensures NextOf(undo[..n], undo[n], k) == NextOf(undo, now, k) {}
  }

  /** The state `t` blocks down, and its head. */
  ghost function StateAt<D>(undo: seq<Chain<D>>, now: Chain<D>, t: nat): Chain<D>
    requires t <= |undo|
  {
    if t == 0 then now else undo[|undo| - t]
  }

  ghost function HeadAt<D>(undo: seq<Chain<D>>, now: Chain<D>, t: nat): BlockId
    requires t <= |undo|
  {
    StateAt(undo, now, t).head
  }

  /** Ids are hashes: a block has the content under which its id is known. */
  ghost predicate Agree(blocks: seq<Block>, ix: Index) {
    forall i :: 0 <= i < |blocks| && blocks[i].id in ix ==> ix[blocks[i].id] == blocks[i]
  }

  predicate Includes(ix: Index, part: Index) {
    forall id :: id in part ==> id in ix && ix[id] == part[id]
  }

  /** The undone blocks are those of the branch of the head, as far as both go. */
  lemma {:induction false} BlocksAreBranch<D>(exec: Exec<D>, undo: seq<Chain<D>>, blocks: seq<Block>, now: Chain<D>,
                                              branch: seq<Block>, ix: Index, j: nat)
    requires UndoChain(exec, undo, blocks, now) && Agree(blocks, ix) && IsBranch(branch, now.head, ix)
    requires j < |branch| && j < |undo|
    ensures blocks[|blocks| - 1 - j] == branch[j]
    ensures undo[|undo| - 1 - j].head == branch[j].previous
  {
    var k := |undo| - 1 - j;
    if j > 0 {
      BlocksAreBranch(exec, undo, blocks, now, branch, ix, j - 1);
    }
    assert Applied(exec, undo[k], blocks[k]) == Some(NextOf(undo, now, k));
    AppliedKeeps(exec, undo[k], blocks[k]);
    assert blocks[k].id == branch[j].id;
  }

  // Pruning the fork database

  /** `set_max_size`: blocks too far below the head are forgotten. */
  function Pruned(ix: Index, top: nat, size: nat): Index {
    map id | id in ix && top <= id.num + size :: ix[id]
  }

  ghost function PrunedBy(ix: Index, top: nat, limit: Option<nat>): Index {
    if limit.Some? then Pruned(ix, top, limit.value) else ix
  }

  ghost function Surviving<D>(ix: Index, exec: Exec<D>, c: Chain<D>, branch: seq<Block>, n: nat, top: nat): Index
    requires ValidChain(c) && n <= |branch| && AllValid(branch)
  {
    map id | id in ix && Survives(exec, c, branch, n, top, id.num) :: ix[id]
  }

  lemma SurvivingNext<D>(ix: Index, exec: Exec<D>, c: Chain<D>, branch: seq<Block>, n: nat, top: nat)
    requires ValidChain(c) && n < |branch| && AllValid(branch)
    ensures Surviving(ix, exec, c, branch, 0, top) == ix
    ensures PrunedBy(Surviving(ix, exec, c, branch, n, top), top, LimitAt(exec, c, branch, n + 1))
         == Surviving(ix, exec, c, branch, n + 1, top)
  {
    hide LimitAt, Survives;
    var part, limit := Surviving(ix, exec, c, branch, n, top), LimitAt(exec, c, branch, n + 1);
    forall id | id in ix
      ensures id in PrunedBy(part, top, limit) <==> id in Surviving(ix, exec, c, branch, n + 1, top)
      ensures id in Surviving(ix, exec, c, branch, 0, top)
    {
      SurvivesNext(exec, c, branch, n, top, id.num);
    }
  }

  lemma SurvivesNext<D>(exec: Exec<D>, c: Chain<D>, branch: seq<Block>, n: nat, top: nat, num: nat)
    requires ValidChain(c) && n < |branch| && AllValid(branch)
    ensures Survives(exec, c, branch, 0, top, num)
    ensures Survives(exec, c, branch, n + 1, top, num) <==>
            Survives(exec, c, branch, n, top, num) && KeptAt(exec, c, branch, n + 1, top, num)
  {}

  lemma PrunedKeeps(ix: Index, top: nat, size: nat, blocks: seq<Block>)
    requires ValidIndex(ix)
    ensures ValidIndex(Pruned(ix, top, size)) && Includes(ix, Pruned(ix, top, size))
    ensures Agree(blocks, ix) ==> Agree(blocks, Pruned(ix, top, size))
  {}

  lemma FewerAgree(blocks: seq<Block>, ix: Index, part: Index)
    requires Agree(blocks, ix) && Includes(ix, part)
    ensures Agree(blocks, part)
  {}

  /** Every limit is at least two, so the head and its parent are never pruned. */
  lemma TopSurvives<D>(exec: Exec<D>, c: Chain<D>, branch: seq<Block>, n: nat, top: nat, num: nat)
    requires ValidChain(c) && n <= |branch| && AllValid(branch) && top <= num + 2
    ensures Survives(exec, c, branch, n, top, num)
  {
    hide Replay;
    forall j | 1 <= j <= n ensures KeptAt(exec, c, branch, j, top, num) {
      if Replay(exec, c, branch, j - 1).Some? {
        AppliedKeeps(exec, Replay(exec, c, branch, j - 1).value, branch[|branch| - j]);
      }
    }
  }

  /** The oldest block of a branch survives exactly when the branch is not too long for the limits. */
  lemma OldestSurvives<D>(exec: Exec<D>, c: Chain<D>, branch: seq<Block>, done: nat)
    requires ValidChain(c) && 0 < done < |branch| && AllValid(branch)
    ensures Survives(exec, c, branch, done + 1, c.head.num + |branch|, c.head.num + 1) <==>
            CanRollBack(exec, c, branch, done)
  {
    hide LimitAt, KeptAt, LongAt;
    var top, num := c.head.num + |branch|, c.head.num + 1;
    forall j | 1 <= j <= done + 1 ensures KeptAt(exec, c, branch, j, top, num) <==> LongAt(exec, c, branch, j) {
      OldestKept(exec, c, branch, j);
    }
  }

  lemma OldestKept<D>(exec: Exec<D>, c: Chain<D>, branch: seq<Block>, j: nat)
    requires ValidChain(c) && 0 < j <= |branch| && AllValid(branch)
    ensures KeptAt(exec, c, branch, j, c.head.num + |branch|, c.head.num + 1) <==> LongAt(exec, c, branch, j)
  {
    hide LimitAt;
  }

  lemma HigherSurvives<D>(exec: Exec<D>, c: Chain<D>, branch: seq<Block>, n: nat, top: nat, num: nat, higher: nat)
    requires ValidChain(c) && n <= |branch| && AllValid(branch) && num <= higher
    requires Survives(exec, c, branch, n, top, num)
    ensures Survives(exec, c, branch, n, top, higher)
  {
    hide LimitAt;
    forall j | 1 <= j <= n ensures KeptAt(exec, c, branch, j, top, higher) {
      assert KeptAt(exec, c, branch, j, top, num);
    }
  }

  // Undo states for the rollback

  /** Each of the `n` oldest blocks of a branch asks to keep at least `m` undo states. */
  ghost predicate AsksFor<D>(exec: Exec<D>, c: Chain<D>, branch: seq<Block>, n: nat, m: nat)
    requires ValidChain(c) && n <= |branch| && AllValid(branch)
  {
    forall j :: 1 <= j <= n ==> AsksAt(exec, c, branch, j, m)
  }

  ghost predicate AsksAt<D>(exec: Exec<D>, c: Chain<D>, branch: seq<Block>, j: nat, m: nat)
    requires ValidChain(c) && 0 < j <= |branch| && AllValid(branch)
  {
    var l := LimitAt(exec, c, branch, j); l.Some? ==> m <= l.value
  }

  /** Trimming has left at least `m` undo states if every block asked for them. */
  ghost predicate KeepsUndo<D>(exec: Exec<D>, c: Chain<D>, branch: seq<Block>, n: nat, done: nat, kept: nat)
    requires ValidChain(c) && n <= |branch| && AllValid(branch)
  {
    forall m: nat :: m <= done && AsksFor(exec, c, branch, n, m) ==> m <= kept
  }

  datatype Outcome =
    | TooOld | Unlinkable     // not taken in
    | Ignored                 // taken in, but not the longest chain
    | Extended | Rejected     // on top of the head
    | Unconnected             // the longest chain, but no common parent is known
    | Stuck                   // the old branch cannot be popped
    | Switched | Restored
    | Broken                  // a block of the new branch was refused and the others cannot be popped again

  class ChainDatabase<D> {
    const exec: Exec<D>
    var index: Index
    var forkHead: Option<Block>
    var forkSize: nat
    var chain: Chain<D>
    var undo: seq<Chain<D>>
    var maxUndo: nat
    var store: seq<BlockId>              // the ids in the block store, by number; old ones may follow the head's
    ghost var blocks: seq<Block>
    ghost var highest: nat               // the highest irreversible number the chain ever had

    /** What holds between any two steps. */
    ghost predicate Sound()
      reads this
    {
      && ValidIndex(index) && UndoChain(exec, undo, blocks, chain) && Agree(blocks, index)
      && (forkHead.Some? ==> ValidBlock(forkHead.value) && Agree([forkHead.value], index))
      && Covered() && 0 < forkSize && Stored(undo, chain, store)
    }

    /** Every block above the highest irreversible one can be undone, also after the next session begins. */
    ghost predicate Covered()
      reads this
    {
      && chain.state.irreversible <= highest && 1 <= maxUndo
      && chain.head.num < highest + maxUndo && chain.head.num <= highest + |undo|
    }

    /** The fork database's head is the head of the chain, and no known block is higher. */
    ghost predicate Valid()
      reads this
    {
      && Sound()
      && (forkHead.None? ==> index == map[] && undo == [] && chain.head == GENESIS)
      && (forkHead.Some? ==> forkHead.value.id == chain.head && chain.head in index)
      && |store| == chain.head.num && forall id :: id in index ==> id.num <= chain.head.num
    }

    constructor (exec: Exec<D>, genesis: D, active: Witnesses)
      ensures Valid() && this.exec == exec && forkHead.None?
      ensures chain == Chain(GENESIS, Irreversible.ChainState(0, 0, active, map[]), genesis)
      ensures undo == [] && index == map[] && store == [] && highest == 0 && maxUndo == 256 && forkSize == 1024
    {
      this.exec := exec;
      index, forkHead, forkSize := map[], None, 1024;
      chain := Chain(GENESIS, Irreversible.ChainState(0, 0, active, map[]), genesis);
      undo, blocks, store, maxUndo, highest := [], [], [], 256, 0;
    }

    /** The trimming at the start of an undo session. */
    method Trim()
      requires Sound()
      modifies this`undo, this`blocks
      ensures Sound() && undo == Newest(old(undo), maxUndo) && blocks == Newest(old(blocks), maxUndo)
    {
      hide Applied, ValidIndex, ValidChain, Stored;
      while |undo| > maxUndo
        invariant UndoChain(exec, undo, blocks, chain) && Agree(blocks, index)
        invariant |undo| <= |old(undo)| && undo == old(undo)[|old(undo)| - |undo|..]
        invariant blocks == old(blocks)[|old(blocks)| - |blocks|..]
        invariant |undo| == |old(undo)| || |undo| >= maxUndo
      {
        UndoChainDrop(exec, undo, blocks, chain);
        undo, blocks := undo[1..], blocks[1..];
      }
      StoredEnd(old(undo), undo, chain, store);
    }

    /** `set_max_size` of both the undo and the fork database. */
    method SetLimit(l: nat)
      requires Sound() && chain.head.num < highest + l && 1 <= l
      modifies this`maxUndo, this`forkSize, this`index
      ensures Sound() && maxUndo == forkSize == l && Includes(old(index), index)
      ensures index == if forkHead.Some? then Pruned(old(index), forkHead.value.id.num, l) else old(index)
    {
      hide UndoChain, Stored;
      maxUndo, forkSize := l, l;
      if forkHead.Some? {
        PrunedKeeps(index, forkHead.value.id.num, l, blocks);
        PrunedKeeps(index, forkHead.value.id.num, l, [forkHead.value]);
        index := Pruned(index, forkHead.value.id.num, l);
      }
    }

    /** Starts an undo session, applies a block and commits.  A refused block leaves the chain alone, but the
        oldest undo states may be gone, and if it was refused late also blocks of the fork database. */
    method Apply(b: Block) returns (ok: bool)
      requires Sound() && ValidBlock(b) && Agree([b], index)
      modifies this`chain, this`undo, this`maxUndo, this`blocks, this`index, this`forkSize, this`store, this`highest
      ensures Sound()
      ensures ValidChain(old(chain)) && Applied(exec, old(chain), b) == if ok then Some(chain) else None
      ensures !ok ==> chain == old(chain) && highest == old(highest)
      ensures ok ==> highest == Max(old(highest), chain.state.irreversible)
      ensures undo == Newest(old(undo), old(maxUndo)) + if ok then [old(chain)] else []
      ensures blocks == Newest(old(blocks), old(maxUndo)) + if ok then [b] else []
      ensures if ok then 0 < b.id.num <= |old(store)| + 1 && store == Put(old(store), b.id) else store == old(store)
      ensures SameOutside(old(store), store, old(chain).head.num, chain.head.num)
      ensures match LimitSet(exec, old(chain), b)
              case None => maxUndo == old(maxUndo) && forkSize == old(forkSize) && index == old(index)
              case Some(l) =>
                && maxUndo == forkSize == l
                && index == if forkHead.Some? then Pruned(old(index), forkHead.value.id.num, l) else old(index)
    {
      hide ValidIndex, Agree, UndoChain, Stored;
      ChainOf(exec, undo, blocks, chain);
      AppliedKeeps(exec, chain, b);
      Trim();
      var irreversible := chain.state.irreversible;
      if b.previous != chain.head || chain.head.num + 1 - irreversible >= Irreversible.MAX_UNDO_HISTORY {
        return false;
      }
      var e := exec(chain.data, b);
      if e.Refused? && !e.late { return false; }
      SetLimit(chain.head.num + 2 - irreversible);
      FewerAgree([b], old(index), index);
      if e.Refused? { return false; }
      var confirmed := chain.state.confirmed[b.signer := chain.head.num + 1];
      irreversible := Irreversible.UpdateLastIrreversible(chain.state.active, confirmed, irreversible);
      Commit(b, Chain(b.id, Irreversible.ChainState(chain.head.num + 1, irreversible, e.active, confirmed), e.data));
      return true;
    }

    method Commit(b: Block, next: Chain<D>)
      requires Sound() && ValidBlock(b) && ValidChain(chain) && Applied(exec, chain, b) == Some(next)
      requires Agree([b], index) && maxUndo == Limit(chain)
      modifies this`chain, this`undo, this`blocks, this`store, this`highest
      ensures Sound() && chain == next && undo == old(undo) + [old(chain)] && blocks == old(blocks) + [b]
      ensures highest == Max(old(highest), next.state.irreversible)
      ensures 0 < next.head.num <= |old(store)| + 1 && store == Put(old(store), next.head)
      ensures SameOutside(old(store), store, old(chain).head.num, next.head.num)
    {
      AppliedKeeps(exec, chain, b);
      hide Applied, UndoChain, ValidIndex, Stored;
      UndoChainPush(exec, undo, blocks, chain, b, next);
      StoredPush(exec, undo, blocks, chain, store, next);
      store := Put(store, next.head);
      undo, blocks, chain := undo + [chain], blocks + [b], next;
      highest := Max(highest, next.state.irreversible);
    }

    /** `pop_block`: the fork database's head follows if it is the block popped; otherwise the block must be known
        there. */
    method PopBlock() returns (ok: bool)
      requires Sound()
      modifies this`chain, this`undo, this`blocks, this`forkHead
      ensures Sound()
      ensures ok <==> && old(forkHead).Some? && old(undo) != []
                      && (if old(forkHead).value.id == old(chain).head then old(forkHead).value.previous in index
                          else old(chain).head in index)
      ensures ok ==> && chain == old(undo)[|old(undo)| - 1]
                     && undo == old(undo)[..|old(undo)| - 1] && blocks == old(blocks)[..|old(blocks)| - 1]
      ensures !ok ==> chain == old(chain) && undo == old(undo) && blocks == old(blocks)
      ensures forkHead != old(forkHead) ==>
                && old(forkHead).Some? && old(forkHead).value.id == old(chain).head
                && old(forkHead).value.previous in index && forkHead == Some(index[old(forkHead).value.previous])
    {
      hide Applied, UndoChain, ValidChain, Stored;
      if forkHead.None? { return false; }
      var head := forkHead.value;
      if head.id == chain.head {
        if head.previous !in index { return false; }
        forkHead := Some(index[head.previous]);
      } else if chain.head !in index {
        return false;
      }
      if undo == [] { return false; }
      ghost var n := |undo| - 1;
      ChainOf(exec, undo, blocks, chain);
      UndoChainPop(exec, undo, blocks, chain);
      StoredPop(undo, chain, store);
      chain, undo, blocks := undo[|undo| - 1], undo[..|undo| - 1], blocks[..n];
      ok := true;
    }

    /** Pops blocks until the head is `target`, which is `n` blocks down.  It fails exactly when there are fewer undo
        states than that or one of the blocks is not known to the fork database, and stops there. */
    method PopDownTo(target: BlockId, ghost n: nat) returns (ok: bool, ghost popped: nat)
      requires Sound() && forkHead.Some?
      requires forall t :: 0 <= t < n && t <= |undo| ==>
                 HeadAt(undo, chain, t) != target && HeadAt(undo, chain, t) != forkHead.value.id
      requires n <= |undo| ==> HeadAt(undo, chain, n) == target
      modifies this`chain, this`undo, this`blocks, this`forkHead
      ensures Sound() && forkHead == old(forkHead) && popped <= n && popped <= |old(undo)|
      ensures chain == StateAt(old(undo), old(chain), popped)
      ensures undo == old(undo)[..|old(undo)| - popped] && blocks == old(blocks)[..|old(blocks)| - popped]
      ensures ok <==> popped == n
      ensures !ok ==> chain.head !in index || popped == |old(undo)|
      ensures forall t :: 0 <= t < popped ==> HeadAt(old(undo), old(chain), t) in index
    {
      hide Applied, ValidIndex, UndoChain, Agree, Covered, Stored;
      ChainOf(exec, undo, blocks, chain);
      ok, popped := true, 0;
      while chain.head != target
        invariant Sound() && forkHead == old(forkHead) && popped <= n && popped <= |old(undo)|
        invariant |old(undo)| == |old(blocks)|
        invariant undo == old(undo)[..|old(undo)| - popped] && blocks == old(blocks)[..|old(blocks)| - popped]
        invariant chain == StateAt(old(undo), old(chain), popped)
        invariant forall t :: 0 <= t < popped ==> HeadAt(old(undo), old(chain), t) in index
        decreases |undo|
      {
        assert HeadAt(old(undo), old(chain), popped) == chain.head;
        ok := PopBlock();
        if !ok { return; }
        popped := popped + 1;
      }
      assert HeadAt(old(undo), old(chain), popped) == chain.head;
    }

    /** `fork_database::remove`: when the head goes, its parent becomes the head if it is known. */
    method ForkRemove(id: BlockId)
      requires ValidIndex(index) && (forkHead.Some? ==> ValidBlock(forkHead.value))
      modifies this`index, this`forkHead
      ensures index == old(index) - {id} && ValidIndex(index)
      ensures forkHead == if old(forkHead).None? || old(forkHead).value.id != id then old(forkHead)
                          else if old(forkHead).value.previous in index then Some(index[old(forkHead).value.previous])
                          else None
    {
      index := index - {id};
      if forkHead.Some? && forkHead.value.id == id {
        var previous := forkHead.value.previous;
        forkHead := if previous in index then Some(index[previous]) else None;
      }
    }

    /** Applies the blocks of a branch, oldest first, until one is refused; `done` is how many were applied.  Each
        block that sets a limit prunes the fork database below its head. */
    method PushBranch(f: seq<Block>) returns (done: nat)
      requires Sound() && forkHead.Some? && AllValid(f) && Agree(f, index)
      modifies this`chain, this`undo, this`maxUndo, this`blocks, this`index, this`forkSize, this`store, this`highest
      ensures Sound() && done <= |f| && ValidChain(old(chain))
      ensures Replay(exec, old(chain), f, done) == Some(chain)
      ensures done < |f| ==> Replay(exec, old(chain), f, done + 1).None?
      ensures index == Surviving(old(index), exec, old(chain), f, Tried(f, done), forkHead.value.id.num)
      ensures done < |f| ==> KeepsUndo(exec, old(chain), f, done, done, |undo|)
      ensures LeadsBack(exec, old(chain), f, done, undo, chain) && Includes(old(index), index)
      ensures |store| == Max(|old(store)|, chain.head.num)
      ensures SameOutside(old(store), store, old(chain).head.num, chain.head.num)
    {
      hide Applied, UndoChain, ValidIndex, Agree, Surviving, Covered, Replay, LimitAt, KeepsUndo, LeadsBack, Includes;
      hide Stored, Newest;
      HeadIsStored(undo, chain, store);
      ChainOf(exec, undo, blocks, chain);
      ghost var c, ix, top := chain, index, forkHead.value.id.num;
      done := 0;
      BranchStart(ix, exec, c, undo, f, top);
      while done < |f|
        invariant Sound() && done <= |f| && forkHead == old(forkHead)
        invariant Replay(exec, c, f, done) == Some(chain)
        invariant done == 0 || LimitAt(exec, c, f, done) == Some(maxUndo)
        invariant done == 0 || KeepsUndo(exec, c, f, done - 1, done, |undo|)
        invariant LeadsBack(exec, c, f, done, undo, chain)
        invariant index == Surviving(ix, exec, c, f, done, top) && Includes(ix, index)
        invariant |store| == Max(|old(store)|, chain.head.num)
        invariant SameOutside(old(store), store, c.head.num, chain.head.num)
      {
        ghost var undo0, chain0, max0 := undo, chain, maxUndo;
        var b := f[|f| - 1 - done];
        ReplayNext(exec, c, f, done);
        SurvivingNext(ix, exec, c, f, done, top);
        BlockAgrees(f, |f| - 1 - done, ix, index);
        SurvivingIncluded(ix, exec, c, f, done + 1, top);
        TrimKeepsUndo(exec, c, f, done, |undo|, maxUndo);
        AppliedKeeps(exec, chain, b);
        var ok := Apply(b);
        NewestLength(undo0, max0);
        if !ok {
          TrimmedRetraces(exec, c, f, done, undo0, undo, max0, chain);
          return;
        }
        PushedRetraces(exec, c, f, done, undo0, undo, max0, chain0, chain);
        done := done + 1;
      }
    }

    /** Puts back the popped blocks of the old branch; by determinism the chain ends where it was. */
    method PushBack(s: seq<Block>, ghost undo0: seq<Chain<D>>, ghost blocks0: seq<Block>, ghost chain0: Chain<D>)
      requires Sound() && forkHead.Some? && UndoChain(exec, undo0, blocks0, chain0) && |s| <= |undo0|
      requires forall j :: 0 <= j < |s| ==> blocks0[|blocks0| - 1 - j] == s[j]
      requires chain == StateAt(undo0, chain0, |s|) && Agree(s, index)
      modifies this`chain, this`undo, this`maxUndo, this`blocks, this`index, this`forkSize, this`store, this`highest
      ensures Sound() && chain == chain0 && Includes(old(index), index) && |store| == Max(|old(store)|, chain.head.num)
      ensures forall id :: id in old(index) && forkHead.value.id.num <= id.num + 2 ==> id in index
    {
      hide Applied, ValidIndex, ValidChain, Agree, Newest, Covered, Stored;
      HeadIsStored(undo, chain, store);
      var j := |s|;
      while j > 0
        invariant |store| == Max(|old(store)|, chain.head.num)
        invariant Sound() && 0 <= j <= |s| && chain == StateAt(undo0, chain0, j)
        invariant Includes(old(index), index) && forkHead == old(forkHead)
        invariant forall id :: id in old(index) && forkHead.value.id.num <= id.num + 2 ==> id in index
      {
        ghost var k := |undo0| - j;
        ghost var ix := index;
        assert Applied(exec, undo0[k], blocks0[k]) == Some(NextOf(undo0, chain0, k));
        assert blocks0[k] == s[j - 1];
        AppliedKeeps(exec, undo0[k], blocks0[k]);
        BlockAgrees(s, j - 1, old(index), index);
        var ok := Apply(s[j - 1]);
        assert ok;
        PrunedByLimit(ix, forkHead.value.id.num, Limit(undo0[k]));
        j := j - 1;
      }
    }

    method RemoveRejected(f: seq<Block>, n: nat)
      requires n <= |f| && ValidIndex(index) && (forkHead.Some? ==> ValidBlock(forkHead.value))
      modifies this`index, this`forkHead
      ensures ValidIndex(index) && index == old(index) - Ids(f[..n])
    {
      var i := n;
      while i > 0
        invariant 0 <= i <= n && ValidIndex(index) && (forkHead.Some? ==> ValidBlock(forkHead.value))
        invariant index == old(index) - Ids(f[i..n])
      {
        ForkRemove(f[i - 1].id);
        assert f[i - 1..n] == [f[i - 1]] + f[i..n];
        i := i - 1;
      }
      assert f[0..n] == f[..n];
    }

    /** How a switch from the chain `was` to the branch `f` on the common parent `c` ends, when the `done` oldest
        blocks of the branch are accepted: in the replay of the branch, or where it began, or, exactly when the
        accepted blocks cannot be popped again, on the newest accepted block that was pruned. */
    ghost predicate SwitchEnds(ix: Index, was: Chain<D>, c: Chain<D>, newHead: Block, r: Outcome, f: seq<Block>,
                               done: nat)
      requires ValidChain(c) && AllValid(f) && f != []
      reads this
    {
      && c.head == Root(f) && done <= |f| && Replay(exec, c, f, done).Some?
      && (if done == |f| then
            r.Switched? && Some(chain) == Replay(exec, c, f, |f|) && forkHead == Some(newHead) &&
            index == Surviving(ix, exec, c, f, |f|, newHead.id.num)
          else
            && Replay(exec, c, f, done + 1).None?
            && if CanRollBack(exec, c, f, done) then r.Restored? && RestoredTo(ix, was, f, done)
               else r.Broken? && LeftOnBranch(ix, c, newHead, f, done))
    }

    ghost predicate RestoredTo(ix: Index, was: Chain<D>, f: seq<Block>, done: nat)
      requires done <= |f|
      reads this
    {
      && chain == was && was.head in index && forkHead == Some(index[was.head])
      && Includes(ix, index) && index.Keys !! Ids(f[..|f| - done])
    }

    ghost predicate LeftOnBranch(ix: Index, c: Chain<D>, newHead: Block, f: seq<Block>, done: nat)
      requires ValidChain(c) && AllValid(f) && done < |f|
      reads this
    {
      && index == Surviving(ix, exec, c, f, done + 1, newHead.id.num) - Ids(f[..|f| - done])
      && chain.head !in index
      && exists k :: 1 <= k <= done && Some(chain) == Replay(exec, c, f, k) && LeadsBack(exec, c, f, k, undo, chain)
                     && forall i :: k < i <= done ==> Oldest(f, i).id in index
    }

    /** The switch to the branch of `newHead`; `f` and `s` are the branches found. */
    method SwitchForks(newHead: Block) returns (r: Outcome, f: seq<Block>, s: seq<Block>, done: nat)
      requires Sound() && forkHead == Some(newHead) && newHead.id in index
      requires (chain.head in index ==> newHead.id.num == chain.head.num + 1) && newHead.previous != chain.head
      modifies this
      ensures Sound() && (r.Unconnected? || r.Stuck? || r.Switched? || r.Restored? || r.Broken?)
      ensures r.Unconnected? <==> forall fw, sw :: !CommonRoot(fw, sw, newHead.id, old(chain.head), old(index))
      ensures r.Unconnected? ==>
                chain == old(chain) && index == old(index) && forkHead == old(forkHead) && store == old(store)
      ensures !r.Unconnected? ==>
                && CommonRoot(f, s, newHead.id, old(chain.head), old(index))
                && Nearest(f, s, newHead.id, old(chain.head), old(index))
                && AllValid(f) && (r.Stuck? <==> |s| > |old(undo)|) && (r.Stuck? ==> Root(s).num < old(highest))
      ensures r.Switched? || r.Restored? ==> |store| == Max(|old(store)|, chain.head.num)
      ensures r.Broken? ==> s != [] && SameOutside(old(store), store, Root(s).num, Root(s).num + done)
      ensures !r.Unconnected? && !r.Stuck? ==>
                && ValidChain(StateAt(old(undo), old(chain), |s|))
                && SwitchEnds(old(index), old(chain), StateAt(old(undo), old(chain), |s|), newHead, r, f, done)
    {
      hide Applied, ValidIndex, Linked, AllIn, Replay, UndoChain, Agree, ValidChain, Surviving, CanRollBack, Nearest;
      hide LeadsBack, KeepsUndo, SwitchEnds, Stored;
      HeadIsStored(undo, chain, store);
      f, s, done := [], [], 0;
      var found := FetchBranches(index, newHead.id, chain.head);
      if found.None? { return Unconnected, f, s, done; }
      f, s := found.value.0, found.value.1;
      TipsAreKnown(f, s, newHead.id, chain.head, index);
      ghost var undo0, blocks0, chain0, ix := undo, blocks, chain, index;
      ChainOf(exec, undo, blocks, chain);
      AgreesOn(newHead, index);
      OldBranch(exec, undo, blocks, chain, f, s, newHead.id, index);
      BranchFits(f, newHead.id, index);
      BranchFits(s, chain.head, index);
      var ok, popped := PopDownTo(Root(s), |s|);
      if !ok {
        assert HeadAt(undo0, chain0, popped) in ix;
        return Stuck, f, s, done;
      }
      ghost var c := chain;
      ChainOf(exec, undo, blocks, chain);
      done := PushBranch(f);
      if done == |f| {
        SwitchedEnds(ix, chain0, newHead, f, c);
        return Switched, f, s, done;
      }
      BranchesFit(f, s, newHead, chain0.head, ix);
      r := RollBack(newHead, f, s, done, c, undo0, blocks0, chain0, ix);
    }

    lemma SwitchedEnds(ix: Index, was: Chain<D>, newHead: Block, f: seq<Block>, c: Chain<D>)
      requires ValidChain(c) && AllValid(f) && f != [] && c.head == Root(f)
      requires Replay(exec, c, f, |f|) == Some(chain) && forkHead == Some(newHead)
      requires index == Surviving(ix, exec, c, f, |f|, newHead.id.num)
      ensures SwitchEnds(ix, was, c, newHead, Switched, f, |f|)
    {
      hide Replay, Surviving;
    }

    /** A block of the new branch was refused: it and the newer ones leave the fork database, the accepted ones are
        popped, and the old blocks are put back. */
    method RollBack(newHead: Block, f: seq<Block>, s: seq<Block>, done: nat, ghost c: Chain<D>,
                    ghost undo0: seq<Chain<D>>, ghost blocks0: seq<Block>, ghost chain0: Chain<D>, ghost ix: Index)
      returns (r: Outcome)
      requires Sound() && forkHead == Some(newHead) && done < |f| && ValidChain(c) && AllValid(f) && ValidIndex(ix)
      requires CommonRoot(f, s, newHead.id, chain0.head, ix) && ix[newHead.id] == newHead
      requires newHead.id.num == chain0.head.num + 1 && newHead.previous != chain0.head
      requires Replay(exec, c, f, done) == Some(chain) && Replay(exec, c, f, done + 1).None? && c.head == Root(f)
      requires index == Surviving(ix, exec, c, f, done + 1, newHead.id.num) && Includes(ix, index)
      requires KeepsUndo(exec, c, f, done, done, |undo|) && LeadsBack(exec, c, f, done, undo, chain)
      requires UndoChain(exec, undo0, blocks0, chain0) && |s| <= |undo0| && c == StateAt(undo0, chain0, |s|)
      requires forall j :: 0 <= j < |s| ==> blocks0[|blocks0| - 1 - j] == s[j]
      modifies this
      ensures Sound() && SwitchEnds(ix, chain0, c, newHead, r, f, done) && (r.Restored? || r.Broken?)
      ensures r.Restored? ==> chain == chain0 && |store| == Max(|old(store)|, chain.head.num)
      ensures r.Broken? ==> store == old(store)
    {
      hide Applied, ValidIndex, Linked, AllIn, Replay, UndoChain, Agree, ValidChain, Surviving, CanRollBack, CommonRoot;
      hide LeadsBack, KeepsUndo, Survives, Includes, IsBranch, Stored;
      ghost var undo1, now := undo, chain;
      BranchesFit(f, s, newHead, chain0.head, ix);
      NewBranch(exec, c, f, s, newHead, chain0.head, ix, done, undo, chain);
      RemoveRejected(f, |f| - done);
      AfterRemoval(ix, exec, c, f, s, newHead, chain0.head, done, index, blocks, s[0]);
      KnownIff(ix, exec, c, f, s, newHead, chain0.head, done, index);
      forkHead := Some(s[0]);
      var ok, popped := PopDownTo(Root(s), done);
      PopsIff(exec, c, f, done, undo1, now, index, newHead.id.num, popped);
      if !ok {
        LeftOn(exec, c, f, done, undo1, now, undo, chain, popped, index);
        return Broken;
      }
      ghost var part := index;
      FewerAgree(s, ix, index);
      PushBack(s, undo0, blocks0, chain0);
      StillThere(ix, part, index, f, done, chain0.head, s[0]);
      return Restored;
    }

    /** `fork_database::push_block` for a block that is taken in: a new highest block becomes the head and
        blocks too far below it are forgotten. */
    function Taken(b: Block): Index
      reads this
    {
      var ix := if b.id in index then index else index[b.id := b];
      if forkHead.Some? && b.id.num > forkHead.value.id.num then Pruned(ix, b.id.num, forkSize) else ix
    }

    /** Ids are hashes: no other block has the id of `b`. */
    ghost predicate NoClash(b: Block)
      reads this
    {
      Agree([b], index) && Agree(blocks, map[b.id := b])
    }

    predicate IsTooOld(b: Block)
      reads this
    {
      forkHead.Some? && b.id.num + forkSize <= forkHead.value.id.num
    }

    predicate IsUnlinkable(b: Block)
      reads this
    {
      forkHead.Some? && b.previous != GENESIS && b.previous !in index
    }

    /** Takes the block in as the highest one known. */
    method Take(b: Block)
      requires Valid() && ValidBlock(b) && NoClash(b) && (forkHead.Some? ==> b.id.num > forkHead.value.id.num)
      modifies this`index, this`forkHead
      ensures Sound() && index == old(Taken(b)) && forkHead == Some(b) && b.id in index
      ensures old(forkHead).Some? && b.id.num == chain.head.num + 1 ==>
                chain.head in index && index[chain.head] == old(forkHead).value
      ensures forall id :: id in index ==> id == b.id || (id in old(index) && id.num <= chain.head.num)
      ensures old(forkHead).None? ==> index == map[b.id := b]
    {
      hide UndoChain;
      if forkHead.Some? { AgreesOn(forkHead.value, index); }
      index, forkHead := Taken(b), Some(b);
      TakenAgrees(old(index), index, blocks, b);
    }

    /** The new block is the highest and goes on top of the head; when it is refused it is forgotten again. */
    method TakeAndApply(b: Block) returns (ok: bool)
      requires Valid() && ValidBlock(b) && NoClash(b) && b.previous == chain.head
      modifies this
      ensures Valid() && ValidChain(old(chain)) && Applied(exec, old(chain), b) == if ok then Some(chain) else None
      ensures ok ==>
                && forkHead == Some(b) && index == Pruned(old(Taken(b)), b.id.num, Limit(old(chain)))
                && undo == Newest(old(undo), old(maxUndo)) + [old(chain)] && maxUndo == forkSize == Limit(old(chain))
                && highest == Max(old(highest), chain.state.irreversible) && store == old(store) + [b.id]
      ensures !ok ==>
                && chain == old(chain) && forkHead == old(forkHead) && b.id !in index && highest == old(highest)
                && store == old(store)
                && Includes(old(Taken(b)), index)
    {
      hide Applied, UndoChain, Agree, Newest, ValidIndex, ValidChain, Stored, SameOutside, Covered;
      ChainOf(exec, undo, blocks, chain);
      AppliedKeeps(exec, chain, b);
      Take(b);
      ghost var ix := index;
      NewestLength(undo, maxUndo);
      ok := Apply(b);
      PrunedByLimit(ix, b.id.num, Limit(old(chain)));
      if !ok {
        Forget(b, old(forkHead));
      }
    }

    /** Removes the refused block again. */
    method Forget(b: Block, ghost was: Option<Block>)
      requires Sound() && forkHead == Some(b) && b.previous == chain.head && |store| == chain.head.num
      requires forall id :: id in index ==> id == b.id || id.num <= chain.head.num
      requires if was.None? then chain.head == GENESIS && undo == [] && forall id :: id in index ==> id == b.id
               else was.value.id == chain.head && chain.head in index && index[chain.head] == was.value
      modifies this`index, this`forkHead
      ensures Valid() && forkHead == was && index == old(index) - {b.id}
    {
      hide UndoChain, Agree;
      ghost var part := index;
      ForkRemove(b.id);
      RemovedAgrees(part, index, blocks, b.id);
    }

    /** The new block is the highest and does not go on top of the head. */
    method TakeAndSwitch(b: Block) returns (r: Outcome, f: seq<Block>, s: seq<Block>, done: nat)
      requires Valid() && ValidBlock(b) && NoClash(b) && b.previous != chain.head
      requires if forkHead.None? then b.previous != GENESIS else b.previous in index && b.id.num > chain.head.num
      modifies this
      ensures Sound() && (r.Switched? || r.Restored? ==> Valid())
      ensures r.Unconnected? || r.Stuck? || r.Switched? || r.Restored? || r.Broken?
      ensures r.Unconnected? <==> forall fw, sw :: !CommonRoot(fw, sw, b.id, old(chain.head), old(Taken(b)))
      ensures r.Unconnected? ==> chain == old(chain) && index == old(Taken(b)) && forkHead == Some(b)
      ensures r.Restored? ==> chain == old(chain) && forkHead == old(forkHead)
      ensures r.Unconnected? ==> store == old(store)
      ensures !r.Unconnected? ==>
                && CommonRoot(f, s, b.id, old(chain.head), old(Taken(b)))
                && Nearest(f, s, b.id, old(chain.head), old(Taken(b)))
                && AllValid(f) && (r.Stuck? <==> |s| > |old(undo)|) && (r.Stuck? ==> Root(s).num < old(highest))
      ensures r.Broken? ==> s != [] && SameOutside(old(store), store, Root(s).num, Root(s).num + done)
      ensures !r.Unconnected? && !r.Stuck? ==>
                && ValidChain(StateAt(old(undo), old(chain), |s|))
                && SwitchEnds(old(Taken(b)), old(chain), StateAt(old(undo), old(chain), |s|), b, r, f, done)
    {
      hide Applied, UndoChain, Replay, Agree, CanRollBack, Nearest, ValidChain, ValidIndex, LeftOnBranch, Covered;
      hide Surviving;
      Take(b);
      ghost var ix := index;
      r, f, s, done := SwitchForks(b);
      if r.Switched? {
        SwitchedValid(ix, exec, StateAt(old(undo), old(chain), |s|), f, s, b, old(chain).head, chain, index);
      } else if r.Restored? {
        RestoredValid(ix, f, s, b, old(chain).head, done, index);
      }
    }

    /** `push_block` for any block and any valid chain database. */
    method PushBlock(b: Block) returns (r: Outcome, f: seq<Block>, s: seq<Block>, done: nat)
      requires Valid() && ValidBlock(b) && NoClash(b)
      modifies this
      ensures Sound() && (!r.Unconnected? && !r.Stuck? && !r.Broken? ==> Valid())
      ensures r.TooOld? <==> old(IsTooOld(b))
      ensures r.Unlinkable? <==> old(!IsTooOld(b) && IsUnlinkable(b))
      ensures r.TooOld? || r.Unlinkable? ==> index == old(index)
      ensures r.Ignored? <==> old(!IsTooOld(b) && !IsUnlinkable(b) && forkHead.Some? && b.id.num <= chain.head.num)
      ensures r.Ignored? ==> index == old(Taken(b))
      ensures r.TooOld? || r.Unlinkable? || r.Ignored? ==>
                && chain == old(chain) && undo == old(undo) && forkHead == old(forkHead)
                && forkSize == old(forkSize) && maxUndo == old(maxUndo) && highest == old(highest)
                && store == old(store)
      ensures r.Extended? || r.Rejected? <==>
                !r.TooOld? && !r.Unlinkable? && !r.Ignored? && b.previous == old(chain).head
      ensures r.Extended? || r.Rejected? ==>
                ValidChain(old(chain)) && Applied(exec, old(chain), b) == if r.Extended? then Some(chain) else None
      ensures r.Extended? ==>
                && forkHead == Some(b) && index == Pruned(old(Taken(b)), b.id.num, Limit(old(chain)))
                && undo == Newest(old(undo), old(maxUndo)) + [old(chain)] && maxUndo == forkSize == Limit(old(chain))
                && highest == Max(old(highest), chain.state.irreversible) && store == old(store) + [b.id]
      ensures r.Rejected? ==> chain == old(chain) && forkHead == old(forkHead) && b.id !in index
                              && Includes(old(Taken(b)), index)
      ensures r.Unconnected? ==>
                && (forall fw, sw :: !CommonRoot(fw, sw, b.id, old(chain.head), old(Taken(b))))
                && chain == old(chain) && index == old(Taken(b)) && forkHead == Some(b) && store == old(store)
      ensures r.Broken? ==> s != [] && SameOutside(old(store), store, Root(s).num, Root(s).num + done)
      ensures r.Restored? ==> chain == old(chain) && forkHead == old(forkHead)
      ensures r.Stuck? || r.Switched? || r.Restored? || r.Broken? ==>
                && CommonRoot(f, s, b.id, old(chain.head), old(Taken(b)))
                && Nearest(f, s, b.id, old(chain.head), old(Taken(b)))
                && AllValid(f) && (r.Stuck? <==> |s| > |old(undo)|) && (r.Stuck? ==> Root(s).num < old(highest))
      ensures r.Switched? || r.Restored? || r.Broken? ==>
                && |s| <= |old(undo)| && ValidChain(StateAt(old(undo), old(chain), |s|))
                && SwitchEnds(old(Taken(b)), old(chain), StateAt(old(undo), old(chain), |s|), b, r, f, done)
    {
      hide Applied, UndoChain, Replay, SwitchEnds, CommonRoot, ValidIndex, ValidChain, Nearest, Includes, Newest;
      f, s, done := [], [], 0;
      if forkHead.Some? {
        if IsTooOld(b) { return TooOld, f, s, done; }
        if IsUnlinkable(b) { return Unlinkable, f, s, done; }
        if b.id.num <= forkHead.value.id.num {
          IgnoreKeeps(index, Taken(b), blocks, b, forkHead.value);
          index := Taken(b);
          return Ignored, f, s, done;
        }
      }
      if b.previous != chain.head {
        if forkHead.Some? { GenesisIsAlone(b, index, chain.head); }
        r, f, s, done := TakeAndSwitch(b);
        return;
      }
      var ok := TakeAndApply(b);
      r := if ok then Extended else Rejected;
    }
  }

  lemma TakenAgrees(ix: Index, taken: Index, blocks: seq<Block>, b: Block)
    requires ValidIndex(ix) && ValidBlock(b) && Agree(blocks, ix) && Agree([b], ix) && Agree(blocks, map[b.id := b])
    requires forall id :: id in taken ==> if id in ix then taken[id] == ix[id] else id == b.id && taken[id] == b
    ensures ValidIndex(taken) && Agree(blocks, taken) && Agree([b], taken)
  {
    assert [b][0] == b;
    forall i | 0 <= i < |blocks| && blocks[i].id in taken ensures taken[blocks[i].id] == blocks[i] {
      if blocks[i].id !in ix { assert map[b.id := b][blocks[i].id] == b; }
    }
  }

  lemma RemovedAgrees(part: Index, index: Index, blocks: seq<Block>, id: BlockId)
    requires ValidIndex(part) && Agree(blocks, part) && index == part - {id}
    ensures ValidIndex(index) && Agree(blocks, index) && Includes(part, index)
    ensures forall k :: k in index ==> Agree([index[k]], index)
  {}

  lemma IgnoreKeeps(ix: Index, taken: Index, blocks: seq<Block>, b: Block, head: Block)
    requires ValidIndex(ix) && ValidBlock(b) && Agree(blocks, ix) && Agree([b], ix) && Agree(blocks, map[b.id := b])
    requires taken == (if b.id in ix then ix else ix[b.id := b]) && head.id in ix && Agree([head], ix)
    ensures ValidIndex(taken) && Agree(blocks, taken) && Agree([head], taken) && Includes(taken, ix)
  {
    assert [head][0] == head;
    TakenAgrees(ix, taken, blocks, b);
  }

  /** With a head in the fork database, a block on the genesis cannot be the highest. */
  lemma GenesisIsAlone(b: Block, ix: Index, head: BlockId)
    requires ValidIndex(ix) && ValidBlock(b) && head in ix && b.id.num > head.num
    ensures b.previous != GENESIS
  {}

  lemma SwitchedValid<D>(ix: Index, exec: Exec<D>, c: Chain<D>, f: seq<Block>, s: seq<Block>, b: Block,
                         oldHead: BlockId, now: Chain<D>, index: Index)
    requires ValidIndex(ix) && CommonRoot(f, s, b.id, oldHead, ix) && ValidChain(c) && AllValid(f)
    requires Some(now) == Replay(exec, c, f, |f|) && index == Surviving(ix, exec, c, f, |f|, b.id.num)
    requires forall id :: id in ix ==> id.num <= b.id.num
    ensures now.head == b.id && b.id in index && forall id :: id in index ==> id.num <= b.id.num
  {
    hide Replay, Survives;
    ReplayHead(exec, c, f, |f|);
    TopSurvives(exec, c, f, |f|, b.id.num, b.id.num);
  }

  lemma RestoredValid(ix: Index, f: seq<Block>, s: seq<Block>, b: Block, oldHead: BlockId, done: nat, index: Index)
    requires CommonRoot(f, s, b.id, oldHead, ix) && done < |f|
    requires Includes(ix, index) && index.Keys !! Ids(f[..|f| - done])
    requires forall id :: id in ix ==> id == b.id || id.num <= oldHead.num
    ensures forall id :: id in index ==> id.num <= oldHead.num
  {
    assert f[0] in f[..|f| - done];
    assert f[0].id in Ids(f[..|f| - done]);
  }

  lemma BranchesFit(f: seq<Block>, s: seq<Block>, newHead: Block, oldHead: BlockId, ix: Index)
    requires ValidIndex(ix) && CommonRoot(f, s, newHead.id, oldHead, ix)
    requires newHead.id.num == oldHead.num + 1 && ix[newHead.id] == newHead && newHead.previous != oldHead
    ensures f != [] && s != [] && Root(f) == Root(s) && AllValid(s) && Agree(s, ix) && AllValid(f) && Agree(f, ix)
    ensures s[0].id == oldHead && oldHead in ix && ix[oldHead] == s[0] && Root(f).num + |f| == newHead.id.num
    ensures forall i :: 0 <= i < |f| ==> f[i].id in ix && f[i].id.num == newHead.id.num - i && f[i].id != oldHead
  {
    Heights(f, newHead.id, ix, |f| - 1);
    forall i | 0 <= i < |f| ensures f[i].id != oldHead && f[i].id.num == newHead.id.num - i {
      Heights(f, newHead.id, ix, i);
      if i == 1 { assert f[0].previous == f[1].id; }
    }
  }

  /** The head of a replay is the last block replayed. */
  lemma ReplayHead<D>(exec: Exec<D>, c: Chain<D>, f: seq<Block>, n: nat)
    requires ValidChain(c) && n <= |f| && AllValid(f) && Replay(exec, c, f, n).Some?
    ensures Replay(exec, c, f, n).value.head == if n == 0 then c.head else Oldest(f, n).id
  {
    if n > 0 { AppliedKeeps(exec, Replay(exec, c, f, n - 1).value, f[|f| - n]); }
  }

  /** What popping the new branch meets: its accepted blocks, none of them the old head, and at the end the common
      parent. */
  lemma NewBranch<D>(exec: Exec<D>, c: Chain<D>, f: seq<Block>, s: seq<Block>, newHead: Block, oldHead: BlockId,
                     ix: Index, done: nat, undo: seq<Chain<D>>, now: Chain<D>)
    requires ValidIndex(ix) && CommonRoot(f, s, newHead.id, oldHead, ix) && done < |f| && AllValid(f) && ValidChain(c)
    requires newHead.id.num == oldHead.num + 1 && ix[newHead.id] == newHead && newHead.previous != oldHead
    requires c.head == Root(f) && Replay(exec, c, f, done) == Some(now) && LeadsBack(exec, c, f, done, undo, now)
    ensures forall t :: 0 <= t < done && t <= |undo| ==>
              HeadAt(undo, now, t) != Root(s) && HeadAt(undo, now, t) != oldHead
    ensures done <= |undo| ==> HeadAt(undo, now, done) == Root(s) && StateAt(undo, now, done) == c
  {
    hide Replay;
    BranchesFit(f, s, newHead, oldHead, ix);
    forall t | 0 <= t <= done && t <= |undo|
      ensures HeadAt(undo, now, t) == if t == done then c.head else Oldest(f, done - t).id
    {
      assert Some(StateAt(undo, now, t)) == Replay(exec, c, f, done - t);
      ReplayHead(exec, c, f, done - t);
    }
    forall t | 0 <= t < done && t <= |undo|
      ensures HeadAt(undo, now, t) != Root(s) && HeadAt(undo, now, t) != oldHead
    {
      assert Oldest(f, done - t) == f[|f| - (done - t)];
    }
    if done <= |undo| { ReplayNone(exec, c, f); }
  }

  lemma ReplayNone<D>(exec: Exec<D>, c: Chain<D>, f: seq<Block>)
    requires ValidChain(c) && AllValid(f)
    ensures Replay(exec, c, f, 0) == Some(c)
  {}

  /** The fork database without the rejected blocks: the accepted ones are in it as far as they were not pruned. */
  lemma AfterRemoval<D>(ix: Index, exec: Exec<D>, c: Chain<D>, f: seq<Block>, s: seq<Block>, newHead: Block,
                        oldHead: BlockId, done: nat, index: Index, blocks: seq<Block>, head: Block)
    requires ValidIndex(ix) && CommonRoot(f, s, newHead.id, oldHead, ix) && done < |f| && AllValid(f) && ValidChain(c)
    requires newHead.id.num == oldHead.num + 1 && ix[newHead.id] == newHead && newHead.previous != oldHead
    requires c.head == Root(f) && s != [] && head == s[0]
    requires var part := Surviving(ix, exec, c, f, done + 1, newHead.id.num);
             Agree(blocks, part) && index == part - Ids(f[..|f| - done])
    ensures Includes(ix, index) && Agree(blocks, index) && Agree([head], index) && ValidIndex(index)
    ensures oldHead in index && index.Keys !! Ids(f[..|f| - done])
  {
    hide Survives;
    BranchesFit(f, s, newHead, oldHead, ix);
    TopSurvives(exec, c, f, done + 1, newHead.id.num, oldHead.num);
    forall b | b in f[..|f| - done] ensures b.id != oldHead {
      var k :| 0 <= k < |f| - done && f[k] == b;
    }
  }

  lemma KnownIff<D>(ix: Index, exec: Exec<D>, c: Chain<D>, f: seq<Block>, s: seq<Block>, newHead: Block,
                    oldHead: BlockId, done: nat, index: Index)
    requires ValidIndex(ix) && CommonRoot(f, s, newHead.id, oldHead, ix) && done < |f| && AllValid(f) && ValidChain(c)
    requires newHead.id.num == oldHead.num + 1 && ix[newHead.id] == newHead && newHead.previous != oldHead
    requires c.head == Root(f)
    requires index == Surviving(ix, exec, c, f, done + 1, newHead.id.num) - Ids(f[..|f| - done])
    ensures forall i :: 1 <= i <= done ==> Known(exec, c, f, done, newHead.id.num, index, i)
  {
    hide Survives;
    BranchesFit(f, s, newHead, oldHead, ix);
    forall i | 1 <= i <= done ensures Known(exec, c, f, done, newHead.id.num, index, i) {
      var id := f[|f| - i].id;
      assert id.num == c.head.num + i && id in ix;
      forall b | b in f[..|f| - done] ensures b.id != id {
        var k :| 0 <= k < |f| - done && f[k] == b;
      }
    }
  }

  /** The `i`-th oldest block of a branch is known exactly when it was not pruned. */
  ghost predicate Known<D>(exec: Exec<D>, c: Chain<D>, f: seq<Block>, done: nat, top: nat, index: Index, i: nat)
    requires ValidChain(c) && AllValid(f) && done < |f| && 1 <= i <= |f|
  {
    Oldest(f, i).id in index <==> Survives(exec, c, f, done + 1, top, c.head.num + i)
  }

  /** Popping the accepted blocks succeeds exactly when the branch was not too long for the limits, and otherwise
      stops at a block that was pruned. */
  lemma PopsIff<D>(exec: Exec<D>, c: Chain<D>, f: seq<Block>, done: nat, undo: seq<Chain<D>>, now: Chain<D>,
                   index: Index, top: nat, popped: nat)
    requires ValidChain(c) && AllValid(f) && done < |f| && c.head.num + |f| == top
    requires Replay(exec, c, f, done) == Some(now) && LeadsBack(exec, c, f, done, undo, now)
    requires KeepsUndo(exec, c, f, done, done, |undo|) && popped <= done && popped <= |undo|
    requires forall i :: 1 <= i <= done ==> Known(exec, c, f, done, top, index, i)
    requires forall t :: 0 <= t < popped ==> HeadAt(undo, now, t) in index
    requires popped < done ==> HeadAt(undo, now, popped) !in index || popped == |undo|
    ensures popped == done <==> CanRollBack(exec, c, f, done)
    ensures popped < done ==> HeadAt(undo, now, popped) !in index
    ensures forall t :: 0 <= t < done && t <= |undo| ==> HeadAt(undo, now, t) == Oldest(f, done - t).id
  {
    hide Replay, Survives, CanRollBack, KeepsUndo, LeadsBack, HeadAt, Oldest;
    forall t | 0 <= t < done && t <= |undo| ensures HeadAt(undo, now, t) == Oldest(f, done - t).id {
      HeadsAre(exec, c, f, done, undo, now, t);
    }
    if popped == done {
      if done == 0 {
        NothingToRollBack(exec, c, f);
      } else {
        assert HeadAt(undo, now, done - 1) == Oldest(f, 1).id;
        assert Known(exec, c, f, done, top, index, 1);
        OldestSurvives(exec, c, f, done);
      }
    } else {
      assert Known(exec, c, f, done, top, index, done - popped);
      if popped == |undo| { PrunedFirst(exec, c, f, done, top, popped); }
      PrunedMeans(exec, c, f, done, top, done - popped);
    }
  }

  lemma HeadsAre<D>(exec: Exec<D>, c: Chain<D>, f: seq<Block>, done: nat, undo: seq<Chain<D>>, now: Chain<D>, t: nat)
    requires ValidChain(c) && AllValid(f) && done < |f| && LeadsBack(exec, c, f, done, undo, now)
    requires t < done && t <= |undo|
    ensures HeadAt(undo, now, t) == Oldest(f, done - t).id
  {
    hide Replay;
    assert Some(StateAt(undo, now, t)) == Replay(exec, c, f, done - t);
    ReplayHead(exec, c, f, done - t);
  }

  lemma NothingToRollBack<D>(exec: Exec<D>, c: Chain<D>, f: seq<Block>)
    requires ValidChain(c) && AllValid(f) && f != []
    ensures CanRollBack(exec, c, f, 0)
  {}

  lemma PrunedMeans<D>(exec: Exec<D>, c: Chain<D>, f: seq<Block>, done: nat, top: nat, i: nat)
    requires ValidChain(c) && AllValid(f) && 0 < done < |f| && c.head.num + |f| == top && 1 <= i <= done
    requires !Survives(exec, c, f, done + 1, top, c.head.num + i)
    ensures !CanRollBack(exec, c, f, done)
  {
    hide Survives, CanRollBack;
    OldestSurvives(exec, c, f, done);
    if Survives(exec, c, f, done + 1, top, c.head.num + 1) {
      HigherSurvives(exec, c, f, done + 1, top, c.head.num + 1, c.head.num + i);
    }
  }

  /** Where the undo states end, the block is pruned as well. */
  lemma PrunedFirst<D>(exec: Exec<D>, c: Chain<D>, f: seq<Block>, done: nat, top: nat, kept: nat)
    requires ValidChain(c) && AllValid(f) && done < |f| && c.head.num + |f| == top && kept < done
    requires KeepsUndo(exec, c, f, done, done, kept)
    ensures !Survives(exec, c, f, done + 1, top, c.head.num + (done - kept))
  {
    hide LimitAt;
    assert !AsksFor(exec, c, f, done, kept + 1);
    var j :| 1 <= j <= done && !AsksAt(exec, c, f, j, kept + 1);
    assert !KeptAt(exec, c, f, j, top, c.head.num + (done - kept));
  }

  lemma LeftOn<D>(exec: Exec<D>, c: Chain<D>, f: seq<Block>, done: nat, undo1: seq<Chain<D>>, now: Chain<D>,
                  undo: seq<Chain<D>>, chain: Chain<D>, popped: nat, index: Index)
    requires ValidChain(c) && AllValid(f) && done < |f| && LeadsBack(exec, c, f, done, undo1, now)
    requires popped < done && popped <= |undo1| && undo == undo1[..|undo1| - popped]
    requires chain == StateAt(undo1, now, popped)
    requires forall t :: 0 <= t < popped ==> HeadAt(undo1, now, t) in index
    requires forall t :: 0 <= t < done && t <= |undo1| ==> HeadAt(undo1, now, t) == Oldest(f, done - t).id
    ensures Some(chain) == Replay(exec, c, f, done - popped) && LeadsBack(exec, c, f, done - popped, undo, chain)
    ensures forall i :: done - popped < i <= done ==> Oldest(f, i).id in index
  {
    hide Replay;
    forall t | 0 <= t <= done - popped && t <= |undo|
      ensures Some(StateAt(undo, chain, t)) == Replay(exec, c, f, done - popped - t)
    {
      assert StateAt(undo, chain, t) == StateAt(undo1, now, popped + t);
    }
    forall i | done - popped < i <= done ensures Oldest(f, i).id in index {
      assert HeadAt(undo1, now, done - i) == Oldest(f, i).id;
    }
  }

  lemma StillThere(ix: Index, part: Index, index: Index, f: seq<Block>, done: nat, oldHead: BlockId, head: Block)
    requires done < |f| && Includes(ix, part) && Includes(part, index) && part.Keys !! Ids(f[..|f| - done])
    requires oldHead in index && oldHead in ix && ix[oldHead] == head
    ensures Includes(ix, index) && index.Keys !! Ids(f[..|f| - done]) && index[oldHead] == head
  {}

  /** The `i`-th oldest block of a branch. */
  function Oldest(branch: seq<Block>, i: nat): Block
    requires 0 < i <= |branch|
  {
    branch[|branch| - i]
  }

  lemma TipsAreKnown(f: seq<Block>, s: seq<Block>, first: BlockId, second: BlockId, ix: Index)
    requires CommonRoot(f, s, first, second, ix)
    ensures first in ix && second in ix
  {}

  lemma AgreesOn(b: Block, ix: Index)
    requires Agree([b], ix) && b.id in ix
    ensures ix[b.id] == b
  {
    assert [b][0] == b;
  }

  ghost function Ids(branch: seq<Block>): set<BlockId> { set b | b in branch :: b.id }

  lemma PrunedByLimit(ix: Index, top: nat, size: nat)
    requires 2 <= size
    ensures Includes(ix, Pruned(ix, top, size))
    ensures forall id :: id in ix && top <= id.num + 2 ==> id in Pruned(ix, top, size)
  {}

  lemma BranchFits(branch: seq<Block>, tip: BlockId, ix: Index)
    requires ValidIndex(ix) && IsBranch(branch, tip, ix)
    ensures AllValid(branch) && Agree(branch, ix)
  {}

  /** What popping the old branch meets: its own blocks, all known, none of them the new head, and at the
      end the common parent. */
  lemma OldBranch<D>(exec: Exec<D>, undo: seq<Chain<D>>, blocks: seq<Block>, now: Chain<D>,
                     f: seq<Block>, s: seq<Block>, newHead: BlockId, ix: Index)
    requires ValidIndex(ix) && UndoChain(exec, undo, blocks, now) && Agree(blocks, ix)
    requires CommonRoot(f, s, newHead, now.head, ix) && newHead.num == now.head.num + 1
    ensures forall t :: 0 <= t < |s| && t <= |undo| ==>
              HeadAt(undo, now, t) != Root(s) && HeadAt(undo, now, t) in ix && HeadAt(undo, now, t) != newHead
    ensures |s| <= |undo| ==> HeadAt(undo, now, |s|) == Root(s)
    ensures |s| <= |undo| ==> forall j :: 0 <= j < |s| ==> blocks[|blocks| - 1 - j] == s[j]
    ensures Root(s).num + |s| == now.head.num
  {
    hide Applied;
    forall j | 0 <= j < |s| && j < |undo|
      ensures blocks[|blocks| - 1 - j] == s[j] && HeadAt(undo, now, j + 1) == s[j].previous
    {
      BlocksAreBranch(exec, undo, blocks, now, s, ix, j);
    }
    Heights(s, now.head, ix, |s| - 1);
    forall t | 0 <= t < |s| && t <= |undo|
      ensures HeadAt(undo, now, t) != Root(s) && HeadAt(undo, now, t) in ix && HeadAt(undo, now, t) != newHead
    {
      Heights(s, now.head, ix, t);
      if t > 0 { assert HeadAt(undo, now, t) == s[t - 1].previous; }
    }
  }

  /** The undo states lead back along the replay of a branch, as far as they go. */
  ghost predicate LeadsBack<D>(exec: Exec<D>, c: Chain<D>, f: seq<Block>, done: nat, undo: seq<Chain<D>>, now: Chain<D>)
    requires done <= |f| && AllValid(f) && ValidChain(c)
  {
    forall t :: 0 <= t <= done && t <= |undo| ==> Some(StateAt(undo, now, t)) == Replay(exec, c, f, done - t)
  }

  lemma BranchStart<D>(ix: Index, exec: Exec<D>, c: Chain<D>, undo: seq<Chain<D>>, f: seq<Block>, top: nat)
    requires ValidChain(c) && AllValid(f)
    ensures Replay(exec, c, f, 0) == Some(c) && LeadsBack(exec, c, f, 0, undo, c)
    ensures Surviving(ix, exec, c, f, 0, top) == ix && Includes(ix, ix)
  {}

  lemma ReplayNext<D>(exec: Exec<D>, c: Chain<D>, f: seq<Block>, n: nat)
    requires n < |f| && AllValid(f) && ValidChain(c) && Replay(exec, c, f, n).Some?
    ensures var p := Replay(exec, c, f, n).value;
            && Replay(exec, c, f, n + 1) == Applied(exec, p, f[|f| - 1 - n])
            && LimitAt(exec, c, f, n + 1) == LimitSet(exec, p, f[|f| - 1 - n])
  {
    hide Applied;
  }

  lemma BlockAgrees(f: seq<Block>, i: nat, ix: Index, part: Index)
    requires i < |f| && Agree(f, ix) && Includes(ix, part)
    ensures Agree([f[i]], part)
  {}

  lemma SurvivingIncluded<D>(ix: Index, exec: Exec<D>, c: Chain<D>, f: seq<Block>, n: nat, top: nat)
    requires n <= |f| && AllValid(f) && ValidChain(c)
    ensures Includes(ix, Surviving(ix, exec, c, f, n, top))
  {
    hide Survives;
  }

  lemma TrimKeepsUndo<D>(exec: Exec<D>, c: Chain<D>, f: seq<Block>, done: nat, before: nat, max: nat)
    requires done <= |f| && AllValid(f) && ValidChain(c)
    requires done == 0 || (KeepsUndo(exec, c, f, done - 1, done, before) && LimitAt(exec, c, f, done) == Some(max))
    ensures KeepsUndo(exec, c, f, done, done, Min(before, max))
    ensures KeepsUndo(exec, c, f, done, done + 1, Min(before, max) + 1)
  {
    hide LimitAt;
    forall m: nat | m <= done && AsksFor(exec, c, f, done, m) ensures m <= Min(before, max) {
      if done > 0 { AsksLess(exec, c, f, done, m); }
    }
    forall m: nat | m <= done + 1 && AsksFor(exec, c, f, done, m) ensures m <= Min(before, max) + 1 {
      if m > 0 { AsksForFewer(exec, c, f, done, m, m - 1); }
    }
  }

  lemma AsksLess<D>(exec: Exec<D>, c: Chain<D>, f: seq<Block>, n: nat, m: nat)
    requires 0 < n <= |f| && AllValid(f) && ValidChain(c) && AsksFor(exec, c, f, n, m)
    ensures AsksFor(exec, c, f, n - 1, m) && AsksAt(exec, c, f, n, m)
  {}

  lemma AsksForFewer<D>(exec: Exec<D>, c: Chain<D>, f: seq<Block>, n: nat, m: nat, l: nat)
    requires n <= |f| && AllValid(f) && ValidChain(c) && AsksFor(exec, c, f, n, m) && l <= m
    ensures AsksFor(exec, c, f, n, l)
  {
    hide LimitAt;
    forall j | 1 <= j <= n ensures AsksAt(exec, c, f, j, l) { assert AsksAt(exec, c, f, j, m); }
  }

  lemma TrimmedRetraces<D>(exec: Exec<D>, c: Chain<D>, f: seq<Block>, done: nat, undo0: seq<Chain<D>>,
                           undo: seq<Chain<D>>, max: nat, now: Chain<D>)
    requires done <= |f| && AllValid(f) && ValidChain(c)
    requires LeadsBack(exec, c, f, done, undo0, now) && undo == Newest(undo0, max) + []
    ensures LeadsBack(exec, c, f, done, undo, now)
  {
    hide Replay;
    forall t | 0 <= t <= done && t <= |undo| ensures StateAt(undo, now, t) == StateAt(undo0, now, t) {}
  }

  lemma PushedRetraces<D>(exec: Exec<D>, c: Chain<D>, f: seq<Block>, done: nat, undo0: seq<Chain<D>>,
                          undo: seq<Chain<D>>, max: nat, chain0: Chain<D>, now: Chain<D>)
    requires done < |f| && AllValid(f) && ValidChain(c) && Replay(exec, c, f, done + 1) == Some(now)
    requires LeadsBack(exec, c, f, done, undo0, chain0) && undo == Newest(undo0, max) + [chain0]
    ensures LeadsBack(exec, c, f, done + 1, undo, now)
  {
    hide Replay;
    forall t | 0 <= t <= done + 1 && t <= |undo|
      ensures Some(StateAt(undo, now, t)) == Replay(exec, c, f, done + 1 - t)
    {
      if t > 0 { assert StateAt(undo, now, t) == StateAt(undo0, chain0, t - 1); }
    }
  }

  /** The heads the chain can be taken back to are in the block store. */
  ghost predicate Stored<D>(undo: seq<Chain<D>>, now: Chain<D>, store: seq<BlockId>) {
    && (forall t :: 0 <= t <= |undo| ==> InStore(store, HeadAt(undo, now, t)))
    && forall i :: 0 <= i < |store| ==> store[i].num == i + 1
  }

  predicate InStore(store: seq<BlockId>, id: BlockId) {
    if id.num == 0 then id == GENESIS else id.num <= |store| && store[id.num - 1] == id
  }

  /** `block_database::store`: an id with the same number is overwritten. */
  function Put(store: seq<BlockId>, id: BlockId): (r: seq<BlockId>)
    requires 0 < id.num <= |store| + 1
    ensures |r| == Max(|store|, id.num)
  {
    if id.num <= |store| then store[id.num - 1 := id] else store + [id]
  }

  /** Only the ids of the numbers above `low` up to `high` may have changed. */
  ghost predicate SameOutside(was: seq<BlockId>, store: seq<BlockId>, low: nat, high: nat) {
    |was| <= |store| && forall i :: 0 <= i < |was| && (i < low || high <= i) ==> store[i] == was[i]
  }

  lemma HeadIsStored<D>(undo: seq<Chain<D>>, now: Chain<D>, store: seq<BlockId>)
    requires Stored(undo, now, store)
    ensures now.head.num <= |store|
  {
    assert HeadAt(undo, now, 0) == now.head;
  }

  lemma StoredEnd<D>(undo: seq<Chain<D>>, end: seq<Chain<D>>, now: Chain<D>, store: seq<BlockId>)
    requires Stored(undo, now, store) && |end| <= |undo| && end == undo[|undo| - |end|..]
    ensures Stored(end, now, store)
  {
    forall t | 0 <= t <= |end| ensures HeadAt(end, now, t) == HeadAt(undo, now, t) {}
  }

  lemma StoredPop<D>(undo: seq<Chain<D>>, now: Chain<D>, store: seq<BlockId>)
    requires Stored(undo, now, store) && undo != []
    ensures Stored(undo[..|undo| - 1], undo[|undo| - 1], store)
  {
    var n := |undo| - 1;
    forall t | 0 <= t <= n ensures HeadAt(undo[..n], undo[n], t) == HeadAt(undo, now, t + 1) {}
  }

  lemma StoredPush<D>(exec: Exec<D>, undo: seq<Chain<D>>, blocks: seq<Block>, now: Chain<D>, store: seq<BlockId>,
                      next: Chain<D>)
    requires Stored(undo, now, store) && UndoChain(exec, undo, blocks, now) && next.head.num == now.head.num + 1
    ensures next.head.num <= |store| + 1 && Stored(undo + [now], next, Put(store, next.head))
  {
    HeadIsStored(undo, now, store);
    forall t | 0 <= t <= |undo| + 1 ensures InStore(Put(store, next.head), HeadAt(undo + [now], next, t)) {
      if t > 0 {
        assert HeadAt(undo + [now], next, t) == HeadAt(undo, now, t - 1);
        LowerHead(exec, undo, blocks, now, t - 1);
      }
    }
  }

  lemma {:induction false} LowerHead<D>(exec: Exec<D>, undo: seq<Chain<D>>, blocks: seq<Block>, now: Chain<D>, t: nat)
    requires UndoChain(exec, undo, blocks, now) && t <= |undo|
    ensures HeadAt(undo, now, t).num + t == now.head.num
  {
    if t > 0 {
      LowerHead(exec, undo, blocks, now, t - 1);
      var k := |undo| - t;
      assert Applied(exec, undo[k], blocks[k]) == Some(NextOf(undo, now, k));
      AppliedKeeps(exec, undo[k], blocks[k]);
    }
  }

  lemma ChainOf<D>(exec: Exec<D>, undo: seq<Chain<D>>, blocks: seq<Block>, now: Chain<D>)
    requires UndoChain(exec, undo, blocks, now)
    ensures ValidChain(now) && |undo| == |blocks|
  {}
}
