/** Following the node's chain: storing its blocks, finding the fork after a reorg, and rolling back to it. */
module Crawler {
  import opened Wrappers
  import opened IndexTables
  import opened Persist
  import opened PersistProofs
  import opened Rollback
  import opened IndexRuns

  datatype Header = Header(parent: Hash, height: nat, body: seq<Extrinsic>)

  /** Every block any chain of the network ever holds. The node may report any of them at any time. */
  type Tree = map<Hash, Header>

  /** A block is one above its parent. The parent hash of a block at height 0 names no block. */
  predicate HonestTree(tree: Tree) {
    forall x :: x in tree ==>
      if tree[x].height == 0 then tree[x].parent !in tree
      else tree[x].parent in tree && tree[tree[x].parent].height == tree[x].height - 1
  }

  function BlockOf(tree: Tree, hash: Hash): PreparedBlock
    requires hash in tree
  {
    PreparedBlock(hash, tree[hash].height, tree[hash].parent, tree[hash].body)
  }

  /** The block and its ancestors, one per height from 0. */
  function Branch(tree: Tree, hash: Hash): (branch: seq<Hash>)
    requires HonestTree(tree) && hash in tree
    ensures |branch| == tree[hash].height + 1 && branch[tree[hash].height] == hash
    ensures IsPath(tree, branch)
    decreases tree[hash].height
  {
    if tree[hash].height == 0 then [hash] else Branch(tree, tree[hash].parent) + [hash]
  }

  predicate IsPath(tree: Tree, path: seq<Hash>) {
    forall i :: 0 <= i < |path| ==>
      path[i] in tree && tree[path[i]].height == i && (i > 0 ==> tree[path[i]].parent == path[i - 1])
  }

  /** The ancestors of a block, one per height below it. */
  function Ancestors(tree: Tree, hash: Hash): (ancestry: seq<Hash>)
    requires HonestTree(tree) && hash in tree
    ensures |ancestry| == tree[hash].height && IsPath(tree, ancestry)
    ensures ancestry != [] ==> ancestry[|ancestry| - 1] == tree[hash].parent
  {
    Branch(tree, hash)[..tree[hash].height]
  }

  /** Every stored block is one of the tree, under its own height and parent. */
  predicate Known(blocks: seq<BlockRow>, tree: Tree) {
    forall i :: 0 <= i < |blocks| ==>
      && blocks[i].hash in tree && tree[blocks[i].hash].height == blocks[i].height
      && (blocks[i].parent.Some? ==> blocks[i].parent.value == tree[blocks[i].hash].parent)
  }

  /** Every stored block is on the path, at its height. */
  predicate OnPath(blocks: seq<BlockRow>, path: seq<Hash>) {
    forall i :: 0 <= i < |blocks| ==> blocks[i].height < |path| && blocks[i].hash == path[blocks[i].height]
  }

  /** A path that holds the last stored block holds them all. */
  lemma OnPathOfLast(blocks: seq<BlockRow>, tree: Tree, path: seq<Hash>)
    requires Chain(blocks) && Known(blocks, tree) && IsPath(tree, path)
    ensures OnPath(blocks, path) <==> blocks == [] || blocks[|blocks| - 1].hash in path
  {
    if blocks != [] {
      var last := |blocks| - 1;
      if blocks[last].hash in path {
        var j :| 0 <= j < |path| && path[j] == blocks[last].hash;
        assert j == blocks[last].height;
        OnPathDown(blocks, tree, path, last);
        assert blocks[..last + 1] == blocks;
      }
    }
  }

  lemma {:induction false} OnPathDown(blocks: seq<BlockRow>, tree: Tree, path: seq<Hash>, k: nat)
    requires Chain(blocks) && Known(blocks, tree) && IsPath(tree, path) && k < |blocks|
    requires blocks[k].height < |path| && path[blocks[k].height] == blocks[k].hash
    ensures OnPath(blocks[..k + 1], path)
  {
    if k > 0 {
      var h := blocks[k].height;
      assert blocks[k - 1].height == h - 1 && blocks[k].parent == Some(blocks[k - 1].hash);
      assert tree[path[h]].parent == path[h - 1];
      OnPathDown(blocks, tree, path, k - 1);
      assert forall i :: 0 <= i < k ==> blocks[..k + 1][i] == blocks[..k][i];
    }
  }

  /** The stored blocks are the top of the branch that ends in the last of them. */
  lemma StoredIsBranch(blocks: seq<BlockRow>, tree: Tree)
    requires HonestTree(tree) && Chain(blocks) && Known(blocks, tree) && blocks != []
    ensures OnPath(blocks, Branch(tree, blocks[|blocks| - 1].hash))
  {
    var last := blocks[|blocks| - 1].hash;
    assert Branch(tree, last)[tree[last].height] == last;
    OnPathOfLast(blocks, tree, Branch(tree, last));
  }

  // ---- Storing blocks of any chain ------------------------------------------

  lemma HonestFits(blocks: seq<BlockRow>, tree: Tree, hash: Hash)
    requires HonestTree(tree) && Known(blocks, tree) && hash in tree
    ensures HeightFits(blocks, BlockOf(tree, hash))
  {
    var b := BlockOf(tree, hash);
    forall i | 0 <= i < |blocks| && blocks[i].hash == b.parentHash ensures b.height == blocks[i].height + 1 {
      assert blocks[i].hash in tree;
    }
  }

  /**
   * Writers may store blocks of any chains in any order, while the node switches between them: the tables stay one
   * chain of the tree. Only a late block at height 0 on top of an index anchored above it would break that.
   */
  lemma PersistHonest(t: Tables, tree: Tree, hash: Hash)
    requires WellFormed(t) && HonestTree(tree) && Known(t.blocks, tree) && hash in tree
    ensures var b := BlockOf(tree, hash);
      var after := PersistBlock(t, b, true);
      && Known(after.blocks, tree)
      && (WellFormed(after) <==> !(b.height == 0 && t.blocks != [] && OutcomeOf(t, b, true).Written?))
  {
    var b := BlockOf(tree, hash);
    if OutcomeOf(t, b, true).Written? {
      HonestFits(t.blocks, tree, hash);
      WrittenIsLinked(t, b);
      if Linked(t.blocks, b) { PersistKeepsWellFormed(t, b, true); } else { StoredChain(t, b); }
    }
  }

  // ---- The fork search ------------------------------------------------------

  const MAX_REORG_DEPTH := 100

  datatype Fork = ForkAt(height: nat) | NoHeader | TooDeep

  predicate IsStored(blocks: seq<BlockRow>, hash: Hash) {
    hash in HashesOf(blocks)
  }

  /** The search from an ancestor of the head `number` down. `headers` are the blocks whose header the node returns. */
  function ForkFrom(blocks: seq<BlockRow>, ancestry: seq<Hash>, headers: set<Hash>, height: int): Fork
    requires height < |ancestry|
  {
    if height <= 0 then ForkAt(0)
    else if IsStored(blocks, ancestry[height]) then ForkAt(height + 1)
    else if ancestry[height] !in headers then NoHeader
    else if |ancestry| - (height - 1) > MAX_REORG_DEPTH then TooDeep
    else ForkFrom(blocks, ancestry, headers, height - 1)
  }

  /** The ancestors of a head, one per height below it. */
  function FindForkPoint(blocks: seq<BlockRow>, ancestry: seq<Hash>, headers: set<Hash>): Fork {
    ForkFrom(blocks, ancestry, headers, |ancestry| - 1)
  }

  /** No ancestor from `low` up is stored, and the node has the header of each. */
  predicate Unknown(blocks: seq<BlockRow>, ancestry: seq<Hash>, headers: set<Hash>, low: int, high: int)
    requires 0 <= low && high <= |ancestry|
  {
    forall j :: low <= j < high ==> !IsStored(blocks, ancestry[j]) && ancestry[j] in headers
  }

  /** The highest stored ancestor above height 0, within reach of the search. */
  predicate ForkBase(blocks: seq<BlockRow>, ancestry: seq<Hash>, headers: set<Hash>, j: int, from: int)
    requires from < |ancestry|
  {
    0 < j <= from && IsStored(blocks, ancestry[j]) && Unknown(blocks, ancestry, headers, j + 1, from + 1) &&
    (j < from ==> |ancestry| - j <= 100)
  }

  lemma {:induction false} ForkFromFinds(blocks: seq<BlockRow>, ancestry: seq<Hash>, headers: set<Hash>, height: int)
    requires height < |ancestry|
    ensures ForkFrom(blocks, ancestry, headers, height) == ForkAt(0) <==>
      height <= 0 || (Unknown(blocks, ancestry, headers, 1, height + 1) && |ancestry| <= 100)
    ensures forall k: nat :: k > 0 ==>
      (ForkFrom(blocks, ancestry, headers, height) == ForkAt(k) <==> ForkBase(blocks, ancestry, headers, k - 1, height))
  {
    if height > 0 && !IsStored(blocks, ancestry[height]) && ancestry[height] in headers &&
       |ancestry| - (height - 1) <= MAX_REORG_DEPTH {
      ForkFromFinds(blocks, ancestry, headers, height - 1);
    }
  }

  /**
   * A positive fork is one above the highest stored ancestor of the head, at most 100 blocks below it. Zero means
   * that no ancestor above height 0 is stored; the block at height 0 is not looked at.
   */
  lemma ForkPointIs(blocks: seq<BlockRow>, ancestry: seq<Hash>, headers: set<Hash>)
    ensures FindForkPoint(blocks, ancestry, headers) == ForkAt(0) <==>
      |ancestry| <= 1 || (Unknown(blocks, ancestry, headers, 1, |ancestry|) && |ancestry| <= 100)
    ensures forall k: nat :: k > 0 ==>
      (FindForkPoint(blocks, ancestry, headers) == ForkAt(k) <==> ForkBase(blocks, ancestry, headers, k - 1, |ancestry| - 1))
  {
    ForkFromFinds(blocks, ancestry, headers, |ancestry| - 1);
  }

  // ---- Is a head on our chain? ----------------------------------------------

  datatype Verdict = NoReorg | ReorgAt(forkHeight: nat) | SearchFailed

  function StoredAt(blocks: seq<BlockRow>, height: int): Option<Hash> {
    if blocks == [] then None
    else if blocks[|blocks| - 1].height == height then Some(blocks[|blocks| - 1].hash)
    else StoredAt(blocks[..|blocks| - 1], height)
  }

  function Searched(fork: Fork): Verdict {
    match fork
    case ForkAt(k) => ReorgAt(k)
    case _ => SearchFailed
  }

  /** With the parent stored, the stored block at the height can still be a different child. */
  function SameParent(blocks: seq<BlockRow>, number: nat, canonical: Option<Hash>): Verdict {
    var local := StoredAt(blocks, number);
    if local.None? || canonical.None? || local == canonical then NoReorg else ReorgAt(number)
  }

  /** No reorg without a look at the blocks: an empty index, a head on the tip, a gap, or a head at height 0. */
  predicate NoReorgInSight(sync: SyncState, number: nat, parent: Hash) {
    sync.lastIndexedHash.None? || sync.lastIndexedHash.value == parent || number > sync.lastIndexedHeight + 1 ||
    (number <= sync.lastIndexedHeight && number == 0)
  }

  /** A head at or below the tip whose parent is stored right below it is on our chain, or another child of that parent. */
  function CompareOrSearch(blocks: seq<BlockRow>, tree: Tree, head: Hash, belowTip: bool, canonical: Option<Hash>, headers: set<Hash>)
    : Verdict
    requires HonestTree(tree) && head in tree
  {
    if belowTip && StoredAt(blocks, tree[head].height - 1) == Some(tree[head].parent)
    then SameParent(blocks, tree[head].height, canonical)
    else Searched(FindForkPoint(blocks, Ancestors(tree, head), headers))
  }

  /** `canonical` is what the node reports at the head's height. */
  function CheckForReorg(t: Tables, tree: Tree, head: Hash, canonical: Option<Hash>, headers: set<Hash>): Verdict
    requires HonestTree(tree) && head in tree
  {
    if NoReorgInSight(t.sync, tree[head].height, tree[head].parent) then NoReorg
    else CompareOrSearch(t.blocks, tree, head, tree[head].height <= t.sync.lastIndexedHeight, canonical, headers)
  }

  lemma {:induction false} StoredAtFinds(blocks: seq<BlockRow>, height: int)
    ensures match StoredAt(blocks, height)
      case Some(hash) => exists i :: 0 <= i < |blocks| && blocks[i].height == height && blocks[i].hash == hash
      case None => forall i :: 0 <= i < |blocks| ==> blocks[i].height != height
  {
    if blocks != [] && blocks[|blocks| - 1].height != height {
      var init := blocks[..|blocks| - 1];
      StoredAtFinds(init, height);
      assert forall i :: 0 <= i < |init| ==> init[i] == blocks[i];
    }
  }

  /** The parent of the head is stored, right below the head. */
  lemma ParentStoredBelow(blocks: seq<BlockRow>, tree: Tree, head: Hash)
    requires HonestTree(tree) && Chain(blocks) && Known(blocks, tree) && head in tree && tree[head].height > 0
    ensures StoredAt(blocks, tree[head].height - 1) == Some(tree[head].parent) <==> IsStored(blocks, tree[head].parent)
  {
    StoredAtFinds(blocks, tree[head].height - 1);
    if IsStored(blocks, tree[head].parent) {
      var i :| 0 <= i < |blocks| && blocks[i].hash == tree[head].parent;
      assert blocks[i].height == tree[head].height - 1;
    }
  }

  /** No block but `canonical` is stored at the height, as far as the node names one. */
  predicate NoSibling(blocks: seq<BlockRow>, height: nat, canonical: Option<Hash>) {
    canonical.Some? ==> forall r :: r in blocks && r.height == height ==> r.hash == canonical.value
  }

  /**
   * Exactly when a head is taken for no reorg: nothing is stored, it goes on the tip, it is further up, it is at height
   * 0, or its parent is stored and no other block than the node names at its height. Otherwise, with its parent stored
   * the rollback starts at the head's height, and without it where the search ends.
   */
  lemma ReorgReportedWhen(t: Tables, tree: Tree, head: Hash, canonical: Option<Hash>, headers: set<Hash>)
    requires WellFormed(t) && HonestTree(tree) && Known(t.blocks, tree) && head in tree
    ensures var verdict, n := CheckForReorg(t, tree, head, canonical, headers), tree[head].height;
      if t.blocks == [] then verdict == NoReorg else
        var tip := t.blocks[|t.blocks| - 1];
        var parentStored := IsStored(t.blocks, tree[head].parent);
        && (verdict == NoReorg <==>
             || tip.hash == tree[head].parent || n > tip.height + 1 || n == 0
             || (n <= tip.height && parentStored && NoSibling(t.blocks, n, canonical)))
        && (verdict != NoReorg && n <= tip.height && parentStored ==> verdict == ReorgAt(n))
        && (verdict != NoReorg && !(n <= tip.height && parentStored) ==>
             match FindForkPoint(t.blocks, Ancestors(tree, head), headers)
             case ForkAt(k) => verdict == ReorgAt(k)
             case _ => verdict == SearchFailed)
  {
    var n := tree[head].height;
    if n > 0 && t.blocks != [] {
      ParentStoredBelow(t.blocks, tree, head);
      OneAtHeight(t.blocks, n, canonical);
    }
  }

  /** What is stored at a height is one block. */
  lemma OneAtHeight(blocks: seq<BlockRow>, height: nat, canonical: Option<Hash>)
    requires Chain(blocks)
    ensures StoredAt(blocks, height).None? || canonical.None? || StoredAt(blocks, height) == canonical <==>
      NoSibling(blocks, height, canonical)
  {
    StoredAtFinds(blocks, height);
    assert forall i, j :: 0 <= i < |blocks| && 0 <= j < |blocks| && blocks[i].height == blocks[j].height ==> i == j;
  }

  // ---- Rolling back to the fork ---------------------------------------------

  lemma KnownBelow(t: Tables, tree: Tree, fromHeight: nat)
    requires WellFormed(t) && Known(t.blocks, tree)
    ensures Known(RolledBack(t, fromHeight).blocks, tree)
  {
    RollbackKeepsWellFormed(t, fromHeight);
    KnownPrefix(t.blocks, tree, BlocksBelow(t.blocks, fromHeight));
  }

  lemma KnownPrefix(blocks: seq<BlockRow>, tree: Tree, k: nat)
    requires Known(blocks, tree) && k <= |blocks|
    ensures Known(blocks[..k], tree)
  {
  }

  /** What a rollback leaves are ancestors of the head, if and only if the last block left is one, or none is left. */
  lemma RollbackLeavesAncestors(t: Tables, tree: Tree, head: Hash, k: nat)
    requires WellFormed(t) && HonestTree(tree) && Known(t.blocks, tree) && head in tree
    ensures var after := RolledBack(t, k);
      && WellFormed(after) && Known(after.blocks, tree)
      && (OnPath(after.blocks, Ancestors(tree, head)) <==>
           after.blocks == [] || after.blocks[|after.blocks| - 1].hash in Ancestors(tree, head))
  {
    RollbackKeepsWellFormed(t, k);
    KnownBelow(t, tree, k);
    OnPathOfLast(RolledBack(t, k).blocks, tree, Ancestors(tree, head));
  }

  /**
   * Rolling back to above a stored ancestor of the head leaves that ancestor as the tip, on the head's chain. It need
   * not be in the state that was searched: the ancestor must still be stored.
   */
  lemma RollbackToAncestor(t: Tables, tree: Tree, head: Hash, k: nat)
    requires WellFormed(t) && HonestTree(tree) && Known(t.blocks, tree) && head in tree
    requires 0 < k <= tree[head].height && IsStored(t.blocks, Ancestors(tree, head)[k - 1])
    ensures var after := RolledBack(t, k);
      && WellFormed(after) && OnPath(after.blocks, Ancestors(tree, head))
      && after.sync.lastIndexedHash == Some(Ancestors(tree, head)[k - 1]) && after.sync.lastIndexedHeight == k - 1
  {
    RollbackLeavesAncestors(t, tree, head, k);
    RollbackKeepsWellFormed(t, k);
    EndsInBase(t.blocks, tree, Ancestors(tree, head), k);
  }

  /** Below `k` the stored blocks end in the stored block of the path at `k - 1`. */
  lemma EndsInBase(blocks: seq<BlockRow>, tree: Tree, path: seq<Hash>, k: nat)
    requires Chain(blocks) && Known(blocks, tree) && IsPath(tree, path) && 0 < k <= |path| && IsStored(blocks, path[k - 1])
    ensures var n := BlocksBelow(blocks, k);
      0 < n <= |blocks| && blocks[n - 1].hash == path[k - 1] && blocks[n - 1].height == k - 1
  {
    BelowIsLow(blocks, k);
    var base :| 0 <= base < |blocks| && blocks[base].hash == path[k - 1];
    var n := BlocksBelow(blocks, k);
    assert base < n;
    assert blocks[n - 1].height == blocks[base].height + (n - 1 - base);
  }

  /** A fork of 0, or one above an ancestor of the head that is stored. */
  predicate BaseOf(blocks: seq<BlockRow>, ancestry: seq<Hash>, k: nat) {
    k > 0 ==> k <= |ancestry| && IsStored(blocks, ancestry[k - 1])
  }

  lemma SearchBase(blocks: seq<BlockRow>, ancestry: seq<Hash>, headers: set<Hash>, k: nat)
    requires FindForkPoint(blocks, ancestry, headers) == ForkAt(k)
    ensures BaseOf(blocks, ancestry, k)
  {
    ForkPointIs(blocks, ancestry, headers);
    if k > 0 { assert ForkBase(blocks, ancestry, headers, k - 1, |ancestry| - 1); }
  }

  lemma ParentBase(blocks: seq<BlockRow>, ancestry: seq<Hash>)
    requires ancestry != [] && StoredAt(blocks, |ancestry| - 1) == Some(ancestry[|ancestry| - 1])
    ensures BaseOf(blocks, ancestry, |ancestry|)
  {
    StoredAtFinds(blocks, |ancestry| - 1);
  }

  lemma ReorgBase(t: Tables, tree: Tree, head: Hash, canonical: Option<Hash>, headers: set<Hash>)
    requires HonestTree(tree) && head in tree && CheckForReorg(t, tree, head, canonical, headers).ReorgAt?
    ensures BaseOf(t.blocks, Ancestors(tree, head), CheckForReorg(t, tree, head, canonical, headers).forkHeight)
  {
    if tree[head].height <= t.sync.lastIndexedHeight && StoredAt(t.blocks, tree[head].height - 1) == Some(tree[head].parent) {
      ParentBase(t.blocks, Ancestors(tree, head));
    } else {
      SearchBase(t.blocks, Ancestors(tree, head), headers, CheckForReorg(t, tree, head, canonical, headers).forkHeight);
    }
  }

  lemma BaseLeavesAncestors(t: Tables, tree: Tree, head: Hash, k: nat)
    requires WellFormed(t) && HonestTree(tree) && Known(t.blocks, tree) && head in tree
    requires BaseOf(t.blocks, Ancestors(tree, head), k)
    ensures WellFormed(RolledBack(t, k)) && OnPath(RolledBack(t, k).blocks, Ancestors(tree, head))
  {
    if k == 0 {
      NothingLeft(t);
    } else {
      RollbackToAncestor(t, tree, head, k);
    }
  }

  /**
   * After the rollback a reorg asks for, every stored block is an ancestor of the head. Other writers may have stored
   * blocks or rolled back since the check, as long as the ancestor found is still stored.
   */
  lemma ReorgLeavesAncestors(t: Tables, now: Tables, tree: Tree, head: Hash, canonical: Option<Hash>, headers: set<Hash>)
    requires HonestTree(tree) && head in tree && CheckForReorg(t, tree, head, canonical, headers).ReorgAt?
    requires WellFormed(now) && Known(now.blocks, tree)
    requires var k := CheckForReorg(t, tree, head, canonical, headers).forkHeight;
      BaseOf(t.blocks, Ancestors(tree, head), k) ==> BaseOf(now.blocks, Ancestors(tree, head), k)
    ensures var after := RolledBack(now, CheckForReorg(t, tree, head, canonical, headers).forkHeight);
      WellFormed(after) && OnPath(after.blocks, Ancestors(tree, head))
  {
    ReorgBase(t, tree, head, canonical, headers);
    BaseLeavesAncestors(now, tree, head, CheckForReorg(t, tree, head, canonical, headers).forkHeight);
  }

  lemma NothingLeft(t: Tables)
    requires WellFormed(t)
    ensures WellFormed(RolledBack(t, 0)) && RolledBack(t, 0).blocks == []
  {
    RollbackKeepsWellFormed(t, 0);
    BelowIsLow(t.blocks, 0);
  }

  /** A head one above the tip is no reorg if and only if the tip is its parent, so its block goes on top. */
  lemma NoReorgExtends(t: Tables, tree: Tree, head: Hash, canonical: Option<Hash>, headers: set<Hash>)
    requires WellFormed(t) && t.blocks != [] && HonestTree(tree) && head in tree
    requires tree[head].height == t.sync.lastIndexedHeight + 1
    ensures CheckForReorg(t, tree, head, canonical, headers) == NoReorg <==> Linked(t.blocks, BlockOf(tree, head))
  {
  }

  /**
   * A head further up is a gap, whatever chain it is on. The block above the tip on its chain is refused for its parent,
   * and nothing changes, if and only if the tip is not on that chain; otherwise it goes on top.
   */
  lemma GapHidesFork(t: Tables, tree: Tree, head: Hash, canonical: Option<Hash>, headers: set<Hash>)
    requires WellFormed(t) && t.blocks != [] && HonestTree(tree) && Known(t.blocks, tree) && head in tree
    requires tree[head].height > t.sync.lastIndexedHeight + 1
    ensures CheckForReorg(t, tree, head, canonical, headers) == NoReorg
    ensures var b, tip := BlockOf(tree, Ancestors(tree, head)[t.sync.lastIndexedHeight + 1]), t.blocks[|t.blocks| - 1].hash;
      && (OutcomeOf(t, b, true) == OrphanBlock <==> Ancestors(tree, head)[t.sync.lastIndexedHeight] != tip)
      && (OutcomeOf(t, b, true) == OrphanBlock ==> PersistBlock(t, b, true) == t)
      && (Linked(t.blocks, b) <==> Ancestors(tree, head)[t.sync.lastIndexedHeight] == tip)
  {
    OnlyTipAtTop(t, tree, Ancestors(tree, head)[t.sync.lastIndexedHeight]);
  }

  /** A stored block at the tip's height is the tip. */
  lemma OnlyTipAtTop(t: Tables, tree: Tree, hash: Hash)
    requires WellFormed(t) && t.blocks != [] && Known(t.blocks, tree) && hash in tree
    requires tree[hash].height == t.sync.lastIndexedHeight
    ensures IsStored(t.blocks, hash) <==> hash == t.blocks[|t.blocks| - 1].hash
  {
    assert t.blocks[|t.blocks| - 1] in t.blocks;
    if IsStored(t.blocks, hash) {
      var i :| 0 <= i < |t.blocks| && t.blocks[i].hash == hash;
      assert t.blocks[i].height == t.blocks[|t.blocks| - 1].height;
    }
  }

  // ---- What a reorg takes of the head's own chain ---------------------------

  /**
   * A fork of 0 although the first stored block is the head itself or the block at height 0 below it; or a stored head
   * while the node names another block at its height.
   */
  predicate LosesShared(blocks: seq<BlockRow>, tree: Tree, head: Hash, k: nat)
    requires HonestTree(tree) && head in tree
  {
    if k == 0 then blocks != [] && (blocks[0].hash == head || blocks[0].hash == Branch(tree, head)[0])
    else k == tree[head].height && IsStored(blocks, head)
  }

  /** The first stored block is the lowest. */
  lemma LowestFirst(blocks: seq<BlockRow>, tree: Tree, hash: Hash)
    requires Chain(blocks) && Known(blocks, tree) && hash in tree && IsStored(blocks, hash)
    ensures blocks != [] && blocks[0].height <= tree[hash].height
    ensures blocks[0].hash == hash <==> blocks[0].height == tree[hash].height
  {
    var i :| 0 <= i < |blocks| && blocks[i].hash == hash;
    assert blocks[i].height == blocks[0].height + i;
  }

  lemma StoredAtOwnHeight(blocks: seq<BlockRow>, tree: Tree, hash: Hash)
    requires Chain(blocks) && Known(blocks, tree) && hash in tree && IsStored(blocks, hash)
    ensures StoredAt(blocks, tree[hash].height) == Some(hash)
    ensures tree[hash].height <= blocks[|blocks| - 1].height
  {
    var i := HeightIndex(blocks, tree, hash);
    var last := |blocks| - 1;
    StoredAtFinds(blocks, tree[hash].height);
    assert blocks[last].height == blocks[i].height + (last - i);
  }

  lemma HeightIndex(blocks: seq<BlockRow>, tree: Tree, hash: Hash) returns (i: nat)
    requires Known(blocks, tree) && hash in tree && IsStored(blocks, hash)
    ensures i < |blocks| && blocks[i].hash == hash && blocks[i].height == tree[hash].height
  {
    i :| 0 <= i < |blocks| && blocks[i].hash == hash;
  }

  /** Right below a stored block is its parent, unless it is the first one. */
  lemma ParentBelow(blocks: seq<BlockRow>, tree: Tree, hash: Hash)
    requires HonestTree(tree) && Chain(blocks) && Known(blocks, tree) && hash in tree && IsStored(blocks, hash)
    requires tree[hash].height > 0
    ensures StoredAt(blocks, tree[hash].height - 1) == Some(tree[hash].parent) <==> blocks[0].hash != hash
  {
    var i := HeightIndex(blocks, tree, hash);
    StoredAtFinds(blocks, tree[hash].height - 1);
    assert i > 0 ==> blocks[i - 1].height == blocks[i].height - 1 && blocks[i].parent == Some(blocks[i - 1].hash);
    assert blocks[i].height == blocks[0].height + i;
  }

  lemma StoredHeadInSight(t: Tables, tree: Tree, head: Hash)
    requires WellFormed(t) && HonestTree(tree) && Known(t.blocks, tree) && head in tree && IsStored(t.blocks, head)
    ensures tree[head].height <= t.sync.lastIndexedHeight
    ensures NoReorgInSight(t.sync, tree[head].height, tree[head].parent) <==> tree[head].height == 0
  {
    StoredAtOwnHeight(t.blocks, tree, head);
    assert t.blocks[|t.blocks| - 1].hash in tree;
  }

  /** A head that is stored and that the node confirms is no reorg, unless it is the first stored block above height 0. */
  lemma StoredHeadIsNoReorg(t: Tables, tree: Tree, head: Hash, headers: set<Hash>)
    requires WellFormed(t) && HonestTree(tree) && Known(t.blocks, tree) && head in tree && IsStored(t.blocks, head)
    ensures CheckForReorg(t, tree, head, Some(head), headers) == NoReorg <==>
      tree[head].height == 0 || t.blocks[0].hash != head
  {
    StoredHeadInSight(t, tree, head);
    if tree[head].height > 0 {
      ParentBelow(t.blocks, tree, head);
      StoredAtOwnHeight(t.blocks, tree, head);
    }
  }

  /** Without a stored ancestor the search ends at 0, or fails. */
  lemma NothingStoredSearch(blocks: seq<BlockRow>, ancestry: seq<Hash>, headers: set<Hash>)
    requires forall j :: 0 <= j < |ancestry| ==> !IsStored(blocks, ancestry[j])
    ensures FindForkPoint(blocks, ancestry, headers) == ForkAt(0) <==>
      |ancestry| <= 1 || (|ancestry| <= MAX_REORG_DEPTH && forall j :: 1 <= j < |ancestry| ==> ancestry[j] in headers)
    ensures FindForkPoint(blocks, ancestry, headers).ForkAt? ==> FindForkPoint(blocks, ancestry, headers) == ForkAt(0)
  {
    ForkPointIs(blocks, ancestry, headers);
    var fork := FindForkPoint(blocks, ancestry, headers);
    assert fork.ForkAt? && fork.height > 0 ==> ForkBase(blocks, ancestry, headers, fork.height - 1, |ancestry| - 1);
  }

  lemma AnchorIsSearched(t: Tables, tree: Tree, head: Hash, canonical: Option<Hash>, headers: set<Hash>)
    requires WellFormed(t) && HonestTree(tree) && Known(t.blocks, tree) && head in tree
    requires t.blocks != [] && t.blocks[0].hash == head && tree[head].height > 0
    ensures CheckForReorg(t, tree, head, canonical, headers) == Searched(FindForkPoint(t.blocks, Ancestors(tree, head), headers))
    ensures forall j :: 0 <= j < tree[head].height ==> !IsStored(t.blocks, Ancestors(tree, head)[j])
  {
    assert t.blocks[0] in t.blocks;
    StoredHeadInSight(t, tree, head);
    ParentBelow(t.blocks, tree, head);
    forall j | 0 <= j < tree[head].height ensures !IsStored(t.blocks, Ancestors(tree, head)[j]) {
      if IsStored(t.blocks, Ancestors(tree, head)[j]) { LowestFirst(t.blocks, tree, Ancestors(tree, head)[j]); }
    }
  }

  /**
   * A head that is the first stored block, above height 0: the search runs past it. With the headers at hand and within
   * its reach it asks for a rollback to 0, which removes every block, the head included; else it fails.
   */
  lemma HeadOnAnchor(t: Tables, tree: Tree, head: Hash, canonical: Option<Hash>, headers: set<Hash>)
    requires WellFormed(t) && HonestTree(tree) && Known(t.blocks, tree) && head in tree
    requires t.blocks != [] && t.blocks[0].hash == head && tree[head].height > 0
    ensures var verdict, ancestry := CheckForReorg(t, tree, head, canonical, headers), Ancestors(tree, head);
      && (verdict == ReorgAt(0) <==>
           |ancestry| <= 1 || (|ancestry| <= MAX_REORG_DEPTH && forall j :: 1 <= j < |ancestry| ==> ancestry[j] in headers))
      && (verdict != ReorgAt(0) ==> verdict == SearchFailed)
      && RolledBack(t, 0).blocks == []
  {
    AnchorIsSearched(t, tree, head, canonical, headers);
    NothingStoredSearch(t.blocks, Ancestors(tree, head), headers);
    NothingLeft(t);
  }

  /** A reorg reported for a stored head always takes the head. */
  lemma StoredHeadIsLost(t: Tables, tree: Tree, head: Hash, canonical: Option<Hash>, headers: set<Hash>, k: nat)
    requires WellFormed(t) && HonestTree(tree) && Known(t.blocks, tree) && head in tree && IsStored(t.blocks, head)
    requires CheckForReorg(t, tree, head, canonical, headers) == ReorgAt(k)
    ensures LosesShared(t.blocks, tree, head, k)
  {
    StoredHeadInSight(t, tree, head);
    LowestFirst(t.blocks, tree, head);
    if tree[head].height > 0 {
      ParentBelow(t.blocks, tree, head);
      if t.blocks[0].hash == head { HeadOnAnchor(t, tree, head, canonical, headers); }
    }
  }

  /** A stored ancestor of the head lies below the fork reported, unless that is 0 over the block at height 0. */
  lemma AncestorIsLow(t: Tables, tree: Tree, head: Hash, canonical: Option<Hash>, headers: set<Hash>, k: nat, j: nat)
    requires WellFormed(t) && HonestTree(tree) && Known(t.blocks, tree) && head in tree
    requires CheckForReorg(t, tree, head, canonical, headers) == ReorgAt(k)
    requires j < tree[head].height && IsStored(t.blocks, Ancestors(tree, head)[j])
    ensures j < k || (k == 0 && j == 0)
  {
    var ancestry := Ancestors(tree, head);
    if k != tree[head].height {
      ForkPointIs(t.blocks, ancestry, headers);
      assert FindForkPoint(t.blocks, ancestry, headers) == ForkAt(k);
      if k > 0 { assert ForkBase(t.blocks, ancestry, headers, k - 1, |ancestry| - 1); }
    }
  }

  lemma SharedIsLow(t: Tables, tree: Tree, head: Hash, canonical: Option<Hash>, headers: set<Hash>, k: nat, i: nat)
    requires WellFormed(t) && HonestTree(tree) && Known(t.blocks, tree) && head in tree
    requires CheckForReorg(t, tree, head, canonical, headers) == ReorgAt(k)
    requires i < |t.blocks| && t.blocks[i].hash in Branch(tree, head) && !LosesShared(t.blocks, tree, head, k)
    ensures t.blocks[i].height < k
  {
    var j :| 0 <= j < |Branch(tree, head)| && Branch(tree, head)[j] == t.blocks[i].hash;
    assert t.blocks[i] in t.blocks;
    LowestFirst(t.blocks, tree, t.blocks[i].hash);
    if IsStored(t.blocks, head) {
      StoredHeadIsLost(t, tree, head, canonical, headers, k);
    } else {
      assert j != tree[head].height;
      AncestorIsLow(t, tree, head, canonical, headers, k, j);
    }
  }

  /**
   * The rollback a reorg asks for removes no block of the head's chain, the head included, if and only if the fork is not
   * 0 over a first stored block that is the head or the block at height 0 below it, and the head is not stored itself.
   */
  lemma RollbackKeepsShared(t: Tables, tree: Tree, head: Hash, canonical: Option<Hash>, headers: set<Hash>, k: nat)
    requires WellFormed(t) && HonestTree(tree) && Known(t.blocks, tree) && head in tree
    requires CheckForReorg(t, tree, head, canonical, headers) == ReorgAt(k)
    ensures (forall i :: 0 <= i < |t.blocks| && t.blocks[i].hash in Branch(tree, head) ==> t.blocks[i] in RolledBack(t, k).blocks) <==>
      !LosesShared(t.blocks, tree, head, k)
  {
    var blocks := t.blocks;
    RollbackKeepsWellFormed(t, k);
    BelowIsLow(blocks, k);
    if LosesShared(blocks, tree, head, k) {
      SharedLost(t, tree, head, k);
    } else {
      forall i | 0 <= i < |blocks| && blocks[i].hash in Branch(tree, head) ensures blocks[i] in RolledBack(t, k).blocks {
        SharedIsLow(t, tree, head, canonical, headers, k, i);
        assert RolledBack(t, k).blocks[i] == blocks[i];
      }
    }
  }

  lemma SharedLost(t: Tables, tree: Tree, head: Hash, k: nat)
    requires WellFormed(t) && HonestTree(tree) && Known(t.blocks, tree) && head in tree && LosesShared(t.blocks, tree, head, k)
    ensures exists i :: 0 <= i < |t.blocks| && t.blocks[i].hash in Branch(tree, head) && t.blocks[i] !in RolledBack(t, k).blocks
  {
    RollbackKeepsWellFormed(t, k);
    BelowIsLow(t.blocks, k);
    var lost := if k == 0 then t.blocks[0].hash else head;
    var i :| 0 <= i < |t.blocks| && t.blocks[i].hash == lost;
    assert lost in Branch(tree, head) && t.blocks[i].height >= k;
    assert t.blocks[i] !in RolledBack(t, k).blocks;
  }

  // ---- Two heads the checks get wrong ---------------------------------------

  const GENESIS := Hash(0)
  const STALE := Hash(1)
  const SECOND := Hash(3)
  const FOURTH := Hash(5)

  /** Two chains over one block at height 0: `STALE` at height 1, and hashes 2 to 5 from height 1 on. */
  const TWO_CHAINS: Tree := map[
    GENESIS := Header(Hash(6), 0, []), STALE := Header(GENESIS, 1, []), Hash(2) := Header(GENESIS, 1, []),
    SECOND := Header(Hash(2), 2, []), Hash(4) := Header(SECOND, 3, []), FOURTH := Header(Hash(4), 4, [])]

  const ON_STALE := Tables(
    [BlockRow(GENESIS, 0, None), BlockRow(STALE, 1, Some(GENESIS))], [], [], map[], SyncState(1, Some(STALE), 0))

  lemma TwoChainsHonest()
    ensures HonestTree(TWO_CHAINS) && WellFormed(ON_STALE) && Known(ON_STALE.blocks, TWO_CHAINS)
    ensures HashesOf(ON_STALE.blocks) == {GENESIS, STALE}
    ensures Ancestors(TWO_CHAINS, SECOND) == [GENESIS, Hash(2)]
    ensures Ancestors(TWO_CHAINS, FOURTH) == [GENESIS, Hash(2), SECOND, Hash(4)]
  {
    assert ON_STALE.blocks[0] in ON_STALE.blocks && ON_STALE.blocks[1] in ON_STALE.blocks;
    assert Branch(TWO_CHAINS, GENESIS) == [GENESIS];
    assert Branch(TWO_CHAINS, Hash(2)) == [GENESIS, Hash(2)];
    assert Branch(TWO_CHAINS, SECOND) == [GENESIS, Hash(2), SECOND];
    assert Branch(TWO_CHAINS, Hash(4)) == [GENESIS, Hash(2), SECOND, Hash(4)];
  }

  /** A head at height 2 over another block at height 1: the search ends at 0, and the shared block 0 goes too. */
  lemma SharedGenesisRemoved()
    ensures HonestTree(TWO_CHAINS) && WellFormed(ON_STALE)
    ensures CheckForReorg(ON_STALE, TWO_CHAINS, SECOND, Some(SECOND), {Hash(2)}) == ReorgAt(0)
    ensures Ancestors(TWO_CHAINS, SECOND)[0] == GENESIS == ON_STALE.blocks[0].hash && RolledBack(ON_STALE, 0).blocks == []
  {
    TwoChainsHonest();
    NothingLeft(ON_STALE);
    assert !IsStored(ON_STALE.blocks, Hash(2));
    SearchOfTwo(ON_STALE.blocks, GENESIS, Hash(2));
  }

  lemma SearchOfTwo(blocks: seq<BlockRow>, first: Hash, second: Hash)
    requires !IsStored(blocks, second)
    ensures FindForkPoint(blocks, [first, second], {second}) == ForkAt(0)
  {
    ForkPointIs(blocks, [first, second], {second});
  }

  /** The block at height 1 as the anchor of an empty index. */
  const ON_ANCHOR := Tables([BlockRow(STALE, 1, None)], [], [], map[], SyncState(1, Some(STALE), 0))

  /** The anchor comes as a head, with the node on its chain: it is taken for a reorg to 0, and removed. */
  lemma AnchorRemoved()
    ensures HonestTree(TWO_CHAINS) && WellFormed(ON_ANCHOR) && Known(ON_ANCHOR.blocks, TWO_CHAINS)
    ensures CheckForReorg(ON_ANCHOR, TWO_CHAINS, STALE, Some(STALE), {GENESIS}) == ReorgAt(0)
    ensures ON_ANCHOR.blocks[0].hash == STALE && RolledBack(ON_ANCHOR, 0).blocks == []
  {
    TwoChainsHonest();
    HeadOnAnchor(ON_ANCHOR, TWO_CHAINS, STALE, Some(STALE), {GENESIS});
  }

  /** A head three above the tip on another chain: no reorg is reported, and the next block of that chain is refused. */
  lemma GapOnOtherChain()
    ensures HonestTree(TWO_CHAINS) && WellFormed(ON_STALE) && STALE !in Ancestors(TWO_CHAINS, FOURTH)
    ensures CheckForReorg(ON_STALE, TWO_CHAINS, FOURTH, Some(FOURTH), {Hash(2), SECOND, Hash(4)}) == NoReorg
    ensures OutcomeOf(ON_STALE, BlockOf(TWO_CHAINS, SECOND), true) == OrphanBlock
  {
    TwoChainsHonest();
    GapHidesFork(ON_STALE, TWO_CHAINS, FOURTH, Some(FOURTH), {Hash(2), SECOND, Hash(4)});
  }

  // ---- Whole runs -----------------------------------------------------------

  /** A block at height 0 goes into an empty index, or one that begins there. */
  predicate GenesisFits(blocks: seq<BlockRow>, height: nat) {
    height == 0 ==> blocks == [] || blocks[0].height == 0
  }

  /**
   * Catch-up and live blocks store blocks of any chain, with the parent required. Only the anchor of an empty index is
   * stored without. Rollbacks, whether a reorg or a request asks for them, may be from any height at any time.
   */
  predicate HonestStep(t: Tables, tree: Tree, step: Step) {
    step.StoreBlock? ==>
      && step.block.hash in tree && step.block == BlockOf(tree, step.block.hash)
      && (step.requireParent || t.blocks == []) && GenesisFits(t.blocks, step.block.height)
  }

  predicate HonestRun(steps: seq<Step>, tree: Tree) {
    steps == [] || (
      HonestRun(steps[..|steps| - 1], tree) && HonestStep(Run(steps[..|steps| - 1]), tree, steps[|steps| - 1]))
  }

  lemma HonestStepLinks(t: Tables, tree: Tree, step: Step)
    requires WellFormed(t) && HonestTree(tree) && Known(t.blocks, tree) && HonestStep(t, tree, step)
    ensures step.StoreBlock? && OutcomeOf(t, step.block, step.requireParent).Written? ==> Linked(t.blocks, step.block)
    ensures Known(Apply(t, step).blocks, tree)
  {
    match step {
      case StoreBlock(b, requireParent) =>
        KnownStays(t, tree, b.hash, requireParent);
        if t.blocks != [] && OutcomeOf(t, b, requireParent).Written? { HonestWritten(t, tree, b); }
      case RollBack(fromHeight) => KnownBelow(t, tree, fromHeight);
      case Register(a) =>
    }
  }

  lemma KnownStays(t: Tables, tree: Tree, hash: Hash, requireParent: bool)
    requires Known(t.blocks, tree) && hash in tree
    ensures Known(PersistBlock(t, BlockOf(tree, hash), requireParent).blocks, tree)
  {
  }

  lemma HonestWritten(t: Tables, tree: Tree, b: PreparedBlock)
    requires WellFormed(t) && HonestTree(tree) && Known(t.blocks, tree) && b.hash in tree && b == BlockOf(tree, b.hash)
    requires t.blocks != [] && GenesisFits(t.blocks, b.height) && OutcomeOf(t, b, true).Written?
    ensures Linked(t.blocks, b)
  {
    HonestFits(t.blocks, tree, b.hash);
    assert b.height == 0 ==> HeightStored(t.blocks, b.height);
    WrittenIsLinked(t, b);
  }

  /**
   * However catch-up, live blocks, reorgs and requested rollbacks interleave, and whenever the node switches chains
   * between them, the stored blocks are the top of one branch of the tree up to the recorded tip. All balance rows
   * agree with the stored transactions, but for a first height of 0 on a row registered for dust.
   */
  lemma {:induction false} CrawlStaysInSync(steps: seq<Step>, tree: Tree)
    requires HonestTree(tree) && HonestRun(steps, tree)
    ensures LinkedRun(steps) && WellFormed(Run(steps)) && Known(Run(steps).blocks, tree)
    ensures var blocks := Run(steps).blocks;
      blocks != [] ==> OnPath(blocks, Branch(tree, blocks[|blocks| - 1].hash))
    ensures NearlyAgrees(Run(steps)) && (NoRegistration(steps) ==> ExactRows(Run(steps)))
  {
    if steps != [] {
      CrawlStaysInSync(steps[..|steps| - 1], tree);
      HonestStepLinks(Run(steps[..|steps| - 1]), tree, steps[|steps| - 1]);
    }
    RunAgrees(steps);
    if Run(steps).blocks != [] { StoredIsBranch(Run(steps).blocks, tree); }
  }
}
