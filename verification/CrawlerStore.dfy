/** The crawler's loops over an index: the fork search, a reorg, and the catch-up pipeline. */
module CrawlerStore {
  import opened Wrappers
  import opened IndexTables
  import opened Persist
  import opened PersistProofs
  import opened Rollback
  import opened IndexRuns
  import opened IndexStore
  import opened Crawler

  /** A range of heights being fetched. `retried` marks one that was queued a second time. */
  datatype Batch = Batch(from: nat, to: nat, retried: bool)

  /** A fetched block. `already` marks one that was found stored while fetching, and is not stored again. */
  datatype Prep = Prep(hash: Hash, already: bool)

  datatype BatchResult = Done | Interrupted | BatchFailed(transient: bool)

  function Failed(result: BatchResult): nat {
    if result.BatchFailed? then 1 else 0
  }

  /** One try at a range of heights. */
  datatype Attempt = Attempt(from: nat, to: nat, result: BatchResult)

  datatype End = AtTip | StopRequested | ErrorLimit | FailedAfterRetry

  const MAX_CONSECUTIVE_ERRORS := 10

  /** Who else writes to the index: nobody, writers that store blocks, or such that also roll back. */
  datatype Company = Alone | Storing | RollingBack

  ghost predicate Consistent(t: Tables, tree: Tree) {
    WellFormed(t) && Known(t.blocks, tree) && HonestTree(tree)
  }

  /** The first stored block, if any, is not above the start. */
  predicate Rooted(blocks: seq<BlockRow>, start: nat) {
    if blocks == [] then start == 0 else blocks[0].height <= start
  }

  /** There is no gap between the two heights. */
  predicate Covers(blocks: seq<BlockRow>, start: nat, end: nat) {
    forall h :: start <= h < end ==> HeightStored(blocks, h)
  }

  /** With a block stored, everything between the start and it is stored too. */
  lemma FilledIn(t: Tables, tree: Tree, start: nat, hash: Hash)
    requires Consistent(t, tree) && Rooted(t.blocks, start) && IsStored(t.blocks, hash)
    requires hash in tree && start <= tree[hash].height
    ensures Covers(t.blocks, start, tree[hash].height + 1)
  {
    var blocks := t.blocks;
    var i :| 0 <= i < |blocks| && blocks[i].hash == hash;
    forall h | start <= h < tree[hash].height + 1 ensures HeightStored(blocks, h) {
      var m := h - blocks[0].height;
      assert i > 0 ==> blocks[i].height == blocks[0].height + i;
      assert m > 0 ==> blocks[m].height == blocks[0].height + m;
      assert blocks[m].height == h;
    }
  }

  lemma PrefixCovers(p: seq<BlockRow>, q: seq<BlockRow>, start: nat, end: nat)
    requires p <= q && Covers(p, start, end)
    ensures Covers(q, start, end)
  {
    forall h | start <= h < end ensures HeightStored(q, h) {
      assert HeightStored(p, h);
      var i :| 0 <= i < |p| && p[i].height == h;
      assert q[i] == p[i];
    }
  }

  lemma PrefixStored(p: seq<BlockRow>, q: seq<BlockRow>, hash: Hash)
    requires p <= q && IsStored(p, hash)
    ensures IsStored(q, hash)
  {
    var i :| 0 <= i < |p| && p[i].hash == hash;
    assert q[i] == p[i] && q[i] in q;
  }

  lemma ParentFound(blocks: seq<BlockRow>, tree: Tree, head: Hash)
    requires HonestTree(tree) && head in tree && tree[head].height > 0
    requires StoredAt(blocks, tree[head].height - 1) == Some(tree[head].parent)
    ensures IsStored(blocks, tree[head].parent) && tree[head].parent == Ancestors(tree, head)[tree[head].height - 1]
  {
    StoredAtFinds(blocks, tree[head].height - 1);
  }

  /** Storing a block of any chain adds to what is stored, or changes nothing. */
  lemma StoredGrows(t: Tables, tree: Tree, hash: Hash)
    requires Consistent(t, tree) && hash in tree && GenesisFits(t.blocks, tree[hash].height)
    ensures var b := BlockOf(tree, hash);
      var after := PersistBlock(t, b, true);
      && Consistent(after, tree) && t.blocks <= after.blocks
      && (GenesisFits(t.blocks, 0) ==> GenesisFits(after.blocks, 0))
      && (OutcomeOf(t, b, true).Written? || OutcomeOf(t, b, true).Skipped? ==> IsStored(after.blocks, hash))
  {
    var b := BlockOf(tree, hash);
    var after := PersistBlock(t, b, true);
    PersistHonest(t, tree, hash);
    if OutcomeOf(t, b, true).Written? {
      assert b.height == 0 && t.blocks != [] ==> HeightStored(t.blocks, b.height);
      assert after.blocks[|t.blocks|] in after.blocks;
    }
  }

  lemma RootedGrows(p: seq<BlockRow>, q: seq<BlockRow>, start: nat)
    requires p <= q && Rooted(p, start) && (GenesisFits(p, 0) ==> GenesisFits(q, 0))
    ensures Rooted(q, start)
  {
    if p == [] { assert GenesisFits(p, 0); }
  }

  lemma RollbackShrinks(t: Tables, tree: Tree, fromHeight: nat)
    requires Consistent(t, tree)
    ensures Consistent(RolledBack(t, fromHeight), tree)
    ensures GenesisFits(t.blocks, 0) ==> GenesisFits(RolledBack(t, fromHeight).blocks, 0)
  {
    RollbackKeepsWellFormed(t, fromHeight);
    KnownBelow(t, tree, fromHeight);
  }

  // ---- The queue ------------------------------------------------------------

  function Weight(queue: seq<Batch>): nat {
    if queue == [] then 0 else Weight(queue[..|queue| - 1]) + if queue[|queue| - 1].retried then 1 else 2
  }

  lemma {:induction false} WeightConcat(p: seq<Batch>, q: seq<Batch>)
    ensures Weight(p + q) == Weight(p) + Weight(q)
  {
    if q == [] {
      assert p + q == p;
    } else {
      assert (p + q)[..|p + q| - 1] == p + q[..|q| - 1];
      WeightConcat(p, q[..|q| - 1]);
    }
  }

  lemma WeightOne(b: Batch)
    ensures Weight([b]) == if b.retried then 1 else 2
  {
    assert [b][..0] == [];
  }

  /** The batches are consecutive ranges that end where the next fetch begins. */
  predicate Consecutive(queue: seq<Batch>, nextToFetch: nat) {
    && (forall i :: 0 <= i < |queue| ==> queue[i].from <= queue[i].to)
    && (forall i, j :: 0 <= i < j < |queue| && j <= i + 1 ==> queue[i].to + 1 == queue[j].from)
    && (queue != [] ==> queue[|queue| - 1].to + 1 == nextToFetch)
  }

  /** All work left is queued or still to be fetched, from the height to be stored next. */
  predicate NothingMissing(queue: seq<Batch>, nextToFetch: nat, nextToPersist: nat, tip: nat) {
    && Consecutive(queue, nextToFetch)
    && (if queue == [] then nextToPersist == nextToFetch else queue[0].from <= nextToPersist <= queue[0].to + 1)
  }

  predicate InRange(queue: seq<Batch>, start: nat, tip: nat) {
    forall i :: 0 <= i < |queue| ==> start <= queue[i].from <= queue[i].to <= tip
  }

  /** The first batch is stored. */
  lemma HeadStored(queue: seq<Batch>, nextToFetch: nat, nextToPersist: nat, start: nat, tip: nat)
    requires queue != [] && InRange(queue, start, tip)
    ensures InRange(queue[1..], start, tip)
    ensures NothingMissing(queue, nextToFetch, nextToPersist, tip) ==> NothingMissing(queue[1..], nextToFetch, queue[0].to + 1, tip)
  {
    var rest := queue[1..];
    assert forall i :: 0 <= i < |rest| ==> rest[i] == queue[i + 1];
  }

  /** The first batch goes back to the front. */
  lemma HeadAgain(queue: seq<Batch>, again: seq<Batch>, nextToFetch: nat, nextToPersist: nat, next: nat, start: nat, tip: nat)
    requires queue != [] && InRange(queue, start, tip) && again == queue[0 := Batch(queue[0].from, queue[0].to, true)]
    ensures InRange(again, start, tip)
    ensures NothingMissing(queue, nextToFetch, nextToPersist, tip) && queue[0].from <= next <= queue[0].to + 1 ==>
      NothingMissing(again, nextToFetch, next, tip)
  {
  }

  // ---- The attempts of a run ------------------------------------------------

  /** The attempt before failed, so this one is the retry. */
  predicate IsRetry(attempts: seq<Attempt>, k: nat)
    requires k < |attempts|
  {
    k > 0 && attempts[k - 1].result.BatchFailed?
  }

  /** A stored range is followed by the next one, a range that failed once by the same, one that failed twice by none. */
  predicate InOrder(attempts: seq<Attempt>, k: nat)
    requires 0 < k < |attempts|
  {
    match attempts[k - 1].result
    case Done => attempts[k].from == attempts[k - 1].to + 1
    case Interrupted => false
    case BatchFailed(_) => attempts[k].from == attempts[k - 1].from && attempts[k].to == attempts[k - 1].to && !IsRetry(attempts, k - 1)
  }

  /** A range holds a whole batch, or goes up to the tip. */
  predicate FullRange(from: nat, to: nat, tip: nat, rpcBatchSize: nat) {
    from <= to && (if to < tip then to + 1 == from + rpcBatchSize else to == tip && tip < from + rpcBatchSize)
  }

  predicate AttemptsOk(attempts: seq<Attempt>, start: nat, tip: nat, rpcBatchSize: nat) {
    && (attempts != [] ==> attempts[0].from == start)
    && (forall k :: 0 <= k < |attempts| ==> FullRange(attempts[k].from, attempts[k].to, tip, rpcBatchSize))
    && (forall k :: 0 < k < |attempts| ==> InOrder(attempts, k))
  }

  /** How many attempts failed. */
  function FailedIn(attempts: seq<Attempt>): nat {
    if attempts == [] then 0 else FailedIn(attempts[..|attempts| - 1]) + Failed(attempts[|attempts| - 1].result)
  }

  predicate QueueOk(queue: seq<Batch>, tip: nat, rpcBatchSize: nat) {
    && (forall i :: 0 <= i < |queue| ==> FullRange(queue[i].from, queue[i].to, tip, rpcBatchSize))
    && (forall i :: 0 < i < |queue| ==> !queue[i].retried)
  }

  function QueueFrom(queue: seq<Batch>, nextToFetch: nat): nat {
    if queue == [] then nextToFetch else queue[0].from
  }

  /** The queued ranges as they stand before the next fetch. */
  predicate Queued(queue: seq<Batch>, nextToFetch: nat, start: nat, tip: nat, rpcBatchSize: nat) {
    && start <= nextToFetch <= tip + 1 && InRange(queue, start, tip)
    && Consecutive(queue, nextToFetch) && QueueOk(queue, tip, rpcBatchSize)
  }

  /** Fetching ahead adds batches that are tried for the first time behind the ones there are. */
  predicate Pumped(queue: seq<Batch>, nextToFetch: nat, queueOut: seq<Batch>, next: nat, tip: nat) {
    && 2 * (tip + 1 - next) + Weight(queueOut) <= 2 * (tip + 1 - nextToFetch) + Weight(queue)
    && queue <= queueOut && QueueFrom(queueOut, next) == QueueFrom(queue, nextToFetch)
    && (queue == [] && queueOut != [] ==> !queueOut[0].retried)
  }

  /** One more batch is fetched. */
  lemma FetchedOne(queue: seq<Batch>, nextToFetch: nat, mid: seq<Batch>, next: nat, start: nat, tip: nat, rpcBatchSize: nat)
    requires Queued(mid, next, start, tip, rpcBatchSize) && Pumped(queue, nextToFetch, mid, next, tip)
    requires next <= tip && rpcBatchSize > 0
    ensures var batch := NextBatch(next, tip, rpcBatchSize);
      && Queued(mid + [batch], batch.to + 1, start, tip, rpcBatchSize)
      && Pumped(queue, nextToFetch, mid + [batch], batch.to + 1, tip)
  {
    var batch := NextBatch(next, tip, rpcBatchSize);
    PumpedOne(queue, nextToFetch, mid, batch, tip);
    QueueGrows(mid, batch, start, tip, rpcBatchSize);
  }

  lemma PumpedOne(queue: seq<Batch>, nextToFetch: nat, mid: seq<Batch>, batch: Batch, tip: nat)
    requires Pumped(queue, nextToFetch, mid, batch.from, tip)
    requires batch.from <= batch.to <= tip && !batch.retried
    ensures Pumped(queue, nextToFetch, mid + [batch], batch.to + 1, tip)
  {
    WeightConcat(mid, [batch]);
    WeightOne(batch);
  }

  lemma QueueGrows(queue: seq<Batch>, batch: Batch, start: nat, tip: nat, rpcBatchSize: nat)
    requires Queued(queue, batch.from, start, tip, rpcBatchSize)
    requires FullRange(batch.from, batch.to, tip, rpcBatchSize) && batch.to <= tip && !batch.retried
    ensures Queued(queue + [batch], batch.to + 1, start, tip, rpcBatchSize)
  {
    assert forall i :: 0 <= i < |queue| ==> (queue + [batch])[i] == queue[i];
  }

  /** The batch fetched next: a whole one, or up to the tip. */
  function NextBatch(from: nat, tip: nat, rpcBatchSize: nat): (batch: Batch)
    requires from <= tip && rpcBatchSize > 0
    ensures FullRange(batch.from, batch.to, tip, rpcBatchSize) && batch.from == from && batch.to <= tip && !batch.retried
  {
    Batch(from, if from + rpcBatchSize - 1 < tip then from + rpcBatchSize - 1 else tip, false)
  }

  /** The front of the queue is what the last attempt leaves to be tried. */
  predicate FrontIsNext(attempts: seq<Attempt>, queue: seq<Batch>, nextToFetch: nat, start: nat) {
    if attempts == [] then QueueFrom(queue, nextToFetch) == start && (queue != [] ==> !queue[0].retried) else
      var k := |attempts| - 1;
      match attempts[k].result
      case Done => QueueFrom(queue, nextToFetch) == attempts[k].to + 1 && (queue != [] ==> !queue[0].retried)
      case Interrupted => false
      case BatchFailed(_) => queue != [] && queue[0] == Batch(attempts[k].from, attempts[k].to, true) && !IsRetry(attempts, k)
  }

  lemma AttemptAdded(attempts: seq<Attempt>, result: BatchResult, queue: seq<Batch>, nextToFetch: nat, start: nat, tip: nat, rpcBatchSize: nat)
    requires AttemptsOk(attempts, start, tip, rpcBatchSize) && QueueOk(queue, tip, rpcBatchSize) && queue != []
    requires FrontIsNext(attempts, queue, nextToFetch, start)
    ensures var after := attempts + [Attempt(queue[0].from, queue[0].to, result)];
      AttemptsOk(after, start, tip, rpcBatchSize) && (IsRetry(after, |attempts|) <==> queue[0].retried)
  {
    var after := attempts + [Attempt(queue[0].from, queue[0].to, result)];
    assert forall k :: 0 <= k < |attempts| ==> after[k] == attempts[k];
    forall k | 0 < k < |after| ensures InOrder(after, k) {
      if k < |attempts| { assert InOrder(attempts, k); }
    }
  }

  /** What is left of the queue after an attempt that did not end the run. */
  function QueueAfter(queue: seq<Batch>, result: BatchResult): seq<Batch>
    requires queue != []
  {
    if result.BatchFailed? then queue[0 := Batch(queue[0].from, queue[0].to, true)] else queue[1..]
  }

  lemma FrontAfter(attempts: seq<Attempt>, result: BatchResult, queue: seq<Batch>, nextToFetch: nat, start: nat, tip: nat, rpcBatchSize: nat)
    requires QueueOk(queue, tip, rpcBatchSize) && queue != [] && Consecutive(queue, nextToFetch) && !result.Interrupted?
    requires result.BatchFailed? ==> !queue[0].retried
    requires FrontIsNext(attempts, queue, nextToFetch, start)
    ensures FrontIsNext(attempts + [Attempt(queue[0].from, queue[0].to, result)], QueueAfter(queue, result), nextToFetch, start)
  {
  }

  lemma RestOk(queue: seq<Batch>, result: BatchResult, nextToFetch: nat, start: nat, tip: nat, rpcBatchSize: nat)
    requires Queued(queue, nextToFetch, start, tip, rpcBatchSize) && queue != []
    ensures Queued(QueueAfter(queue, result), nextToFetch, start, tip, rpcBatchSize)
  {
    var rest := QueueAfter(queue, result);
    if !result.BatchFailed? {
      assert forall i :: 0 <= i < |rest| ==> rest[i] == queue[i + 1];
    }
  }

  /** The queue and the attempts belong together, and nothing between them is missing. */
  predicate InStep(attempts: seq<Attempt>, queue: seq<Batch>, nextToFetch: nat, next: nat, start: nat, tip: nat) {
    && FrontIsNext(attempts, queue, nextToFetch, start) && NothingMissing(queue, nextToFetch, next, tip)
    && (queue == [] ==> nextToFetch == tip + 1)
  }

  lemma PumpedInStep(attempts: seq<Attempt>, queue: seq<Batch>, from: nat, queueOut: seq<Batch>, fetched: nat, next: nat, start: nat, tip: nat)
    requires FrontIsNext(attempts, queue, from, start) && NothingMissing(queue, from, next, tip)
    requires Pumped(queue, from, queueOut, fetched, tip) && Consecutive(queueOut, fetched) && (queueOut == [] ==> fetched == tip + 1)
    ensures InStep(attempts, queueOut, fetched, next, start, tip)
  {
  }

  predicate StoredLast(attempts: seq<Attempt>, tip: nat) {
    attempts != [] && attempts[|attempts| - 1].result.Done? && attempts[|attempts| - 1].to == tip
  }

  /** What the last attempt says of a run that ended for an error. */
  predicate EndsFailed(end: End, attempts: seq<Attempt>) {
    && attempts != [] && attempts[|attempts| - 1].result.BatchFailed?
    && (end.FailedAfterRetry? ==> IsRetry(attempts, |attempts| - 1))
  }

  class Crawl {
    const index: Index
    const tree: Tree
    /** What a run has to reckon with. Each allows what the ones before do, and nothing must happen that is allowed. */
    const company: Company
    /** Whether a stop may be asked for. */
    const stops: bool
    var consecutiveErrors: nat
    var syncFailed: bool
    var poisonBlock: Option<nat>
    /** How often the node or the database failed, or a block was refused. */
    ghost var faults: nat

    constructor (index: Index, tree: Tree, company: Company, stops: bool)
      ensures this.index == index && this.tree == tree && this.company == company && this.stops == stops
    {
      this.index, this.tree, this.company, this.stops := index, tree, company, stops;
      consecutiveErrors, syncFailed, poisonBlock, faults := 0, false, None, 0;
    }

    /** What may happen at a wait: another writer stores a block of any chain, or rolls back from any height. */
    method OtherWriter()
      requires Consistent(index.State(), tree)
      modifies index
      ensures Consistent(index.State(), tree)
      ensures old(GenesisFits(index.blocks, 0)) ==> GenesisFits(index.blocks, 0)
      ensures company.Alone? ==> index.State() == old(index.State())
      ensures !company.RollingBack? ==> old(index.blocks) <= index.blocks
    {
      var hash: Hash, fromHeight: nat, stores: bool, rolls: bool := *, *, *, *;
      if company.RollingBack? && rolls {
        RollbackShrinks(index.State(), tree, fromHeight);
        index.RollbackIndexedData(fromHeight, 1);
      } else if !company.Alone? && stores && hash in tree && GenesisFits(index.blocks, tree[hash].height) {
        StoredGrows(index.State(), tree, hash);
        var _ := index.PersistFromNode(BlockOf(tree, hash), true);
      }
    }

    // ---- Reorgs ---------------------------------------------------------------

    /** Is the block stored? The answer may be old news once it is here, but not without a rollback. */
    method LookUp(hash: Hash) returns (stored: bool)
      requires Consistent(index.State(), tree)
      modifies index
      ensures Consistent(index.State(), tree)
      ensures stored == old(IsStored(index.blocks, hash))
      ensures !company.RollingBack? ==> old(index.blocks) <= index.blocks && (stored ==> IsStored(index.blocks, hash))
      ensures company.Alone? ==> index.State() == old(index.State())
    {
      stored := IsStored(index.blocks, hash);
      OtherWriter();
      if !company.RollingBack? && stored { PrefixStored(old(index.blocks), index.blocks, hash); }
    }

    /** The base of a fork is an ancestor of the head, and stored. */
    ghost predicate BaseStored(head: Hash, k: nat)
      requires HonestTree(tree) && head in tree
      reads index
    {
      BaseOf(index.blocks, Ancestors(tree, head), k)
    }

    /** One step of the search, at an ancestor above height 0. Without a result it goes on one lower. */
    method SearchAt(head: Hash, headers: set<Hash>, height: nat, current: Hash) returns (found: Option<Fork>, parent: Hash)
      requires Consistent(index.State(), tree) && head in tree
      requires 0 < height < tree[head].height && current == Ancestors(tree, head)[height]
      modifies index
      ensures Consistent(index.State(), tree) && (!company.RollingBack? ==> old(index.blocks) <= index.blocks)
      ensures company.Alone? ==> index.State() == old(index.State())
      ensures var from := old(ForkFrom(index.blocks, Ancestors(tree, head), headers, height));
        from == if found.Some? then found.value else old(ForkFrom(index.blocks, Ancestors(tree, head), headers, height - 1))
      ensures found.Some? && found.value.ForkAt? ==> found.value.height == height + 1
      ensures found.Some? && found.value.ForkAt? && !company.RollingBack? ==> BaseStored(head, height + 1)
      ensures parent == Ancestors(tree, head)[height - 1]
    {
      assert IsPath(tree, Ancestors(tree, head));
      parent := tree[current].parent;
      var stored := LookUp(current);
      found := if stored then Some(ForkAt(height + 1))
               else if current !in headers then Some(NoHeader)
               else if tree[head].height - (height - 1) > MAX_REORG_DEPTH then Some(TooDeep)
               else None;
    }

    /** The search that began on the tables `at` is still that search, as long as no other writer changes them. */
    ghost predicate Searching(head: Hash, headers: set<Hash>, height: int, at: Tables)
      requires HonestTree(tree) && head in tree && height < tree[head].height
      reads index
    {
      && Consistent(index.State(), tree) && (!company.RollingBack? ==> at.blocks <= index.blocks)
      && (company.Alone? ==> index.State() == at)
      && (company.Alone? ==>
            FindForkPoint(at.blocks, Ancestors(tree, head), headers) == ForkFrom(at.blocks, Ancestors(tree, head), headers, height))
    }

    /** The end of the search. A positive fork is one above a stored ancestor. */
    ghost predicate Ends(head: Hash, headers: set<Hash>, fork: Fork, at: Tables)
      requires HonestTree(tree) && head in tree
      reads index
    {
      && Consistent(index.State(), tree) && (!company.RollingBack? ==> at.blocks <= index.blocks)
      && (company.Alone? ==> index.State() == at && fork == FindForkPoint(at.blocks, Ancestors(tree, head), headers))
      && (fork.ForkAt? && !company.RollingBack? ==> BaseStored(head, fork.height))
    }

    /** One step of the search, and its wait. */
    method SearchOn(head: Hash, headers: set<Hash>, height: nat, current: Hash, ghost at: Tables)
      returns (found: Option<Fork>, parent: Hash)
      requires HonestTree(tree) && head in tree && 0 < height < tree[head].height && current == Ancestors(tree, head)[height]
      requires Searching(head, headers, height, at)
      modifies index
      ensures parent == Ancestors(tree, head)[height - 1]
      ensures match found
        case None => Searching(head, headers, height - 1, at)
        case Some(fork) => Ends(head, headers, fork, at)
    {
      found, parent := SearchAt(head, headers, height, current);
    }

    /** With nothing changed at the waits, the search finds the specified fork. */
    method SearchFork(head: Hash, headers: set<Hash>) returns (fork: Fork)
      requires Consistent(index.State(), tree) && head in tree
      modifies index
      ensures Consistent(index.State(), tree) && (!company.RollingBack? ==> old(index.blocks) <= index.blocks)
      ensures company.Alone? ==> index.State() == old(index.State())
      ensures company.Alone? ==> fork == FindForkPoint(index.blocks, Ancestors(tree, head), headers)
      ensures fork.ForkAt? && !company.RollingBack? ==> BaseStored(head, fork.height)
    {
      ghost var at := index.State();
      var height, current := tree[head].height - 1, tree[head].parent;
      while height > 0
        invariant height < tree[head].height && (height > 0 ==> current == Ancestors(tree, head)[height])
        invariant Searching(head, headers, height, at)
        decreases height
      {
        var found;
        found, current := SearchOn(head, headers, height, current, at);
        if found.Some? {
          return found.value;
        }
        height := height - 1;
      }
      fork := ForkAt(0);
    }

    /** A head at or below the tip is on our chain if its parent is stored right below it. */
    method CheckBelowTip(head: Hash, canonical: Option<Hash>) returns (verdict: Option<Verdict>)
      requires Consistent(index.State(), tree) && head in tree && tree[head].height > 0
      modifies index
      ensures Consistent(index.State(), tree) && (!company.RollingBack? ==> old(index.blocks) <= index.blocks)
      ensures company.Alone? ==> index.State() == old(index.State())
      ensures old(StoredAt(index.blocks, tree[head].height - 1)) != Some(tree[head].parent) <==> verdict.None?
      ensures verdict.None? ==> index.State() == old(index.State())
      ensures verdict.Some? && company.Alone? ==> verdict.value == SameParent(index.blocks, tree[head].height, canonical)
      ensures verdict.Some? ==> verdict.value.NoReorg? || verdict.value == ReorgAt(tree[head].height)
      ensures verdict.Some? && !company.RollingBack? ==> BaseStored(head, tree[head].height)
    {
      var number, parent := tree[head].height, tree[head].parent;
      if StoredAt(index.blocks, number - 1) != Some(parent) {
        return None;
      }
      ParentFound(index.blocks, tree, head);
      var found := LookUp(parent);
      verdict := Some(SameParent(index.blocks, number, canonical));
    }

    /** The search, unless the head's parent is stored right below a head that is not above the tip. */
    method CheckFurther(head: Hash, canonical: Option<Hash>, headers: set<Hash>, belowTip: bool) returns (verdict: Verdict)
      requires Consistent(index.State(), tree) && head in tree && (belowTip ==> tree[head].height > 0)
      modifies index
      ensures Consistent(index.State(), tree) && (!company.RollingBack? ==> old(index.blocks) <= index.blocks)
      ensures company.Alone? ==> index.State() == old(index.State())
      ensures company.Alone? ==> verdict == CompareOrSearch(index.blocks, tree, head, belowTip, canonical, headers)
      ensures verdict.ReorgAt? && !company.RollingBack? ==> BaseStored(head, verdict.forkHeight)
    {
      if belowTip {
        var onOurs := CheckBelowTip(head, canonical);
        if onOurs.Some? {
          return onOurs.value;
        }
      }
      var fork := SearchFork(head, headers);
      verdict := Searched(fork);
    }

    /** With nothing changed at the waits, the verdict is the specified one. */
    method Check(head: Hash, canonical: Option<Hash>, headers: set<Hash>) returns (verdict: Verdict)
      requires Consistent(index.State(), tree) && head in tree
      modifies index
      ensures Consistent(index.State(), tree) && (!company.RollingBack? ==> old(index.blocks) <= index.blocks)
      ensures company.Alone? ==> index.State() == old(index.State())
      ensures company.Alone? ==> verdict == CheckForReorg(index.State(), tree, head, canonical, headers)
      ensures verdict.ReorgAt? && !company.RollingBack? ==> BaseStored(head, verdict.forkHeight)
    {
      var number, sync := tree[head].height, index.sync;
      if NoReorgInSight(sync, number, tree[head].parent) {
        return NoReorg;
      }
      OtherWriter();
      verdict := CheckFurther(head, canonical, headers, number <= sync.lastIndexedHeight);
    }

    /** The rollback of a reorg, some time after its check. */
    method RollBackTo(head: Hash, k: nat, chunk: nat)
      requires Consistent(index.State(), tree) && head in tree && chunk > 0
      requires !company.RollingBack? ==> BaseStored(head, k)
      modifies index
      ensures Consistent(index.State(), tree) && index.State() == RolledBack(old(index.State()), k)
      ensures !company.RollingBack? || k == 0 ==> OnPath(index.blocks, Ancestors(tree, head))
    {
      if !company.RollingBack? || k == 0 {
        BaseLeavesAncestors(index.State(), tree, head, k);
      }
      RollbackShrinks(index.State(), tree, k);
      index.RollbackIndexedData(k, chunk);
    }

    /** The wait before the rollback. What the fork stands on stays stored, if no one else rolls back. */
    method BeforeRollback(head: Hash, k: nat)
      requires Consistent(index.State(), tree) && head in tree
      requires !company.RollingBack? ==> BaseStored(head, k)
      modifies index
      ensures Consistent(index.State(), tree) && (!company.RollingBack? ==> BaseStored(head, k))
      ensures company.Alone? ==> index.State() == old(index.State())
    {
      OtherWriter();
      if !company.RollingBack? && k > 0 {
        PrefixStored(old(index.blocks), index.blocks, Ancestors(tree, head)[k - 1]);
      }
    }

    /**
     * A reorg leaves only ancestors of the head, also when other writers store blocks between the reads of the check
     * and its rollback; a head that is none removes nothing. With no other writer at work, the verdict is the specified
     * one, and only the rollback changes the tables.
     */
    method OnHead(head: Hash, canonical: Option<Hash>, headers: set<Hash>, chunk: nat) returns (verdict: Verdict)
      requires Consistent(index.State(), tree) && head in tree && chunk > 0
      modifies index
      ensures Consistent(index.State(), tree)
      ensures verdict.ReorgAt? && (!company.RollingBack? || verdict.forkHeight == 0) ==> OnPath(index.blocks, Ancestors(tree, head))
      ensures !verdict.ReorgAt? && !company.RollingBack? ==> old(index.blocks) <= index.blocks
      ensures company.Alone? ==> verdict == CheckForReorg(old(index.State()), tree, head, canonical, headers)
      ensures company.Alone? ==>
        index.State() == if verdict.ReorgAt? then RolledBack(old(index.State()), verdict.forkHeight) else old(index.State())
    {
      verdict := Check(head, canonical, headers);
      if verdict.ReorgAt? {
        BeforeRollback(head, verdict.forkHeight);
        RollBackTo(head, verdict.forkHeight, chunk);
      }
    }

    // ---- Catch-up -------------------------------------------------------------

    /** Catch-up from `start` goes on. `gaps` says that what it promises about gaps is off. */
    ghost predicate Steady(start: nat, base: seq<BlockRow>, gaps: bool)
      reads index
    {
      && Consistent(index.State(), tree) && GenesisFits(index.blocks, start) && (company.RollingBack? ==> gaps)
      && (!gaps ==> base <= index.blocks && Rooted(index.blocks, start))
    }

    predicate Fetched(preps: seq<Prep>, from: nat, to: nat) {
      && |preps| == to - from + 1
      && forall i :: 0 <= i < |preps| ==> preps[i].hash in tree && tree[preps[i].hash].height == from + i
    }

    predicate AlreadyStored(preps: seq<Prep>)
      reads index
    {
      forall i :: 0 <= i < |preps| && preps[i].already ==> IsStored(index.blocks, preps[i].hash)
    }

    /** The node names a block per height, of whatever chain it is on at that moment. */
    method Fetch(from: nat, to: nat) returns (preps: seq<Prep>, ok: bool)
      requires from <= to
      modifies this`faults
      ensures ok ==> Fetched(preps, from, to) && AlreadyStored(preps)
      ensures faults == old(faults) + if ok then 0 else 1
    {
      preps, ok := [], false;
      faults := faults + 1;
      for h := from to to + 1
        invariant |preps| == h - from && AlreadyStored(preps)
        invariant forall i :: 0 <= i < |preps| ==> preps[i].hash in tree && tree[preps[i].hash].height == from + i
        invariant faults == old(faults) + 1
      {
        var hash: Hash := *;
        if hash !in tree || tree[hash].height != h {
          return;
        }
        preps := preps + [Prep(hash, IsStored(index.blocks, hash))];
      }
      ok := *;
      if ok { faults := faults - 1; }
    }

    lemma KeepsSteady(start: nat, base: seq<BlockRow>, before: seq<BlockRow>, gaps: bool)
      requires Consistent(index.State(), tree) && GenesisFits(before, start) && (company.RollingBack? ==> gaps)
      requires GenesisFits(before, 0) ==> GenesisFits(index.blocks, 0)
      requires !gaps ==> base <= before && Rooted(before, start) && before <= index.blocks
      ensures Steady(start, base, gaps)
    {
      if !gaps { RootedGrows(before, index.blocks, start); }
    }

    lemma KeepsAlready(preps: seq<Prep>, before: seq<BlockRow>)
      requires before <= index.blocks
      requires forall i :: 0 <= i < |preps| && preps[i].already ==> IsStored(before, preps[i].hash)
      ensures AlreadyStored(preps)
    {
      forall i | 0 <= i < |preps| && preps[i].already ensures IsStored(index.blocks, preps[i].hash) {
        PrefixStored(before, index.blocks, preps[i].hash);
      }
    }

    /** Stores one block after a wait, unless it was already indexed when it was fetched, or the database fails. */
    method StoreBlock(start: nat, ghost base: seq<BlockRow>, preps: seq<Prep>, n: nat, ghost gaps: bool) returns (ok: bool)
      requires Steady(start, base, gaps) && n < |preps| && (!gaps ==> AlreadyStored(preps))
      requires preps[n].hash in tree && start <= tree[preps[n].hash].height
      modifies index, this`faults
      ensures Steady(start, base, gaps) && (!gaps ==> AlreadyStored(preps))
      ensures !gaps ==> old(index.blocks) <= index.blocks
      ensures ok && !gaps ==> Covers(index.blocks, start, tree[preps[n].hash].height + 1)
      ensures faults == old(faults) + if ok then 0 else 1
    {
      var hash := preps[n].hash;
      OtherWriter();
      KeepsSteady(start, base, old(index.blocks), gaps);
      if !gaps { KeepsAlready(preps, old(index.blocks)); }
      ok := true;
      if !preps[n].already {
        ok := Persist(start, base, preps, n, gaps);
      }
      if ok && !gaps { FilledIn(index.State(), tree, start, hash); }
    }

    method Persist(start: nat, ghost base: seq<BlockRow>, preps: seq<Prep>, n: nat, ghost gaps: bool) returns (ok: bool)
      requires Steady(start, base, gaps) && n < |preps| && (!gaps ==> AlreadyStored(preps))
      requires preps[n].hash in tree && start <= tree[preps[n].hash].height
      modifies index, this`faults
      ensures Steady(start, base, gaps) && (!gaps ==> AlreadyStored(preps))
      ensures !gaps ==> old(index.blocks) <= index.blocks
      ensures ok ==> IsStored(index.blocks, preps[n].hash)
      ensures faults == old(faults) + if ok then 0 else 1
    {
      var databaseFails: bool := *;
      if databaseFails {
        faults := faults + 1;
        return false;
      }
      StoredGrows(index.State(), tree, preps[n].hash);
      var outcome := index.PersistFromNode(BlockOf(tree, preps[n].hash), true);
      KeepsSteady(start, base, old(index.blocks), gaps);
      if !gaps { KeepsAlready(preps, old(index.blocks)); }
      ok := !outcome.OrphanBlock? && !outcome.UniqueViolation?;
      if !ok { faults := faults + 1; }
    }

    /** Whether the crawler is still to run. A stop just seen still holds: nothing waits in between. */
    method Running(stopSeen: bool) returns (running: bool)
      ensures stopSeen ==> !running
      ensures !stopSeen && !stops ==> running
    {
      running := *;
      running := !stopSeen && (running || !stops);
    }

    /** The blocks of one batch in order, up to the first failure or a stop. */
    method ProcessBatch(start: nat, tip: nat, batch: Batch, nextToPersist: nat, ghost base: seq<BlockRow>, ghost gaps: bool)
      returns (result: BatchResult, next: nat)
      requires Steady(start, base, gaps) && start <= batch.from <= batch.to <= tip
      requires !gaps ==> Covers(index.blocks, start, nextToPersist)
      modifies index, this`consecutiveErrors, this`faults
      ensures Steady(start, base, gaps)
      ensures !gaps ==> Covers(index.blocks, start, next)
      ensures next == nextToPersist || batch.from < next <= batch.to + 1
      ensures result.Done? ==> next == batch.to + 1
      ensures !result.Done? ==> next == nextToPersist || next <= batch.to
      ensures result.Done? && batch.to == tip ==> consecutiveErrors == 0
      ensures faults == old(faults) + Failed(result) && (result.Interrupted? ==> stops)
    {
      next := nextToPersist;
      var preps, fetched := Fetch(batch.from, batch.to);
      if !fetched {
        var transient: bool := *;
        return BatchFailed(transient), next;
      }
      for h := batch.from to batch.to + 1
        invariant Steady(start, base, gaps) && (!gaps ==> AlreadyStored(preps) && Covers(index.blocks, start, next))
        invariant next == nextToPersist || batch.from < next <= batch.to + 1
        invariant if h > batch.from then next == h else next == nextToPersist
        invariant h == tip + 1 ==> consecutiveErrors == 0
        invariant faults == old(faults)
      {
        var running := Running(false);
        var checkpoint: bool := *;
        if !running {
          return Interrupted, next;
        }
        label Before:
        var ok := StoreBlock(start, base, preps, h - batch.from, gaps);
        if !gaps { PrefixCovers(old@Before(index.blocks), index.blocks, start, next); }
        if !ok {
          var transient: bool := *;
          return BatchFailed(transient), next;
        }
        next := h + 1;
        if checkpoint || h == tip {
          consecutiveErrors := 0;
        }
      }
      result := Done;
    }

    /** Fetches ahead while there is room. */
    method PumpFetches(queue: seq<Batch>, nextToFetch: nat, start: nat, tip: nat, concurrency: nat, rpcBatchSize: nat)
      returns (queueOut: seq<Batch>, next: nat, stopped: bool)
      requires rpcBatchSize > 0 && concurrency > 0 && Queued(queue, nextToFetch, start, tip, rpcBatchSize)
      ensures Queued(queueOut, next, start, tip, rpcBatchSize) && Pumped(queue, nextToFetch, queueOut, next, tip)
      ensures !stopped && |queueOut| < concurrency ==> next == tip + 1
      ensures |queueOut| <= concurrency || queueOut == queue
      ensures stopped ==> stops
    {
      queueOut, next, stopped := queue, nextToFetch, false;
      while |queueOut| < concurrency && next <= tip && !stopped
        invariant next <= tip + 1
        invariant Queued(queueOut, next, start, tip, rpcBatchSize) && Pumped(queue, nextToFetch, queueOut, next, tip)
        invariant |queueOut| <= concurrency || queueOut == queue
        invariant stopped ==> stops
        decreases tip + 1 - next, !stopped
      {
        var running := Running(false);
        if !running {
          stopped := true;
          break;
        }
        var batch := NextBatch(next, tip, rpcBatchSize);
        FetchedOne(queue, nextToFetch, queueOut, next, start, tip, rpcBatchSize);
        queueOut, next := queueOut + [batch], batch.to + 1;
      }
    }

    /** Takes the first batch off the queue, and puts it back for one retry when it fails. */
    method TakeBatch(start: nat, tip: nat, queue: seq<Batch>, nextToPersist: nat, ghost nextToFetch: nat, ghost base: seq<BlockRow>, ghost gaps: bool)
      returns (queueOut: seq<Batch>, next: nat, ended: Option<End>, ghost result: BatchResult, interrupted: bool)
      requires Steady(start, base, gaps) && queue != [] && InRange(queue, start, tip)
      requires start <= nextToPersist <= tip && (!gaps ==> Covers(index.blocks, start, nextToPersist))
      modifies index, this
      ensures Steady(start, base, gaps)
      ensures start <= next <= tip + 1 && (!gaps ==> Covers(index.blocks, start, next))
      ensures InRange(queueOut, start, tip) && Weight(queueOut) < Weight(queue)
      ensures interrupted == result.Interrupted? && (interrupted ==> stops) && faults == old(faults) + Failed(result)
      ensures ended.None? && !interrupted && NothingMissing(queue, nextToFetch, nextToPersist, tip) ==>
        NothingMissing(queueOut, nextToFetch, next, tip)
      ensures ended.None? ==> queueOut == QueueAfter(queue, result)
      ensures next == tip + 1 ==> result.Done? && queue[0].to == tip && consecutiveErrors == 0
      ensures if ended.None? then result.BatchFailed? ==> !queue[0].retried else result.BatchFailed? && next <= tip
      ensures ended == Some(FailedAfterRetry) ==> queue[0].retried
      ensures Settled(ended, result, next, old(poisonBlock))
    {
      var head := queue[0];
      var outcome;
      outcome, next := ProcessBatch(start, tip, head, nextToPersist, base, gaps);
      HeadWeight(queue);
      HeadStored(queue, nextToFetch, nextToPersist, start, tip);
      result := outcome;
      queueOut, ended, interrupted := queue[1..], None, outcome.Interrupted?;
      if outcome.BatchFailed? {
        ended := OnFailure(head, outcome.transient, next);
        if ended.None? {
          queueOut := [Batch(head.from, head.to, true)] + queueOut;
          assert queueOut == queue[0 := Batch(head.from, head.to, true)];
          HeadAgain(queue, queueOut, nextToFetch, nextToPersist, next, start, tip);
        }
      }
    }

    /** What a run that ends here has recorded. Only a second, permanent failure halts the crawler at a block. */
    predicate Settled(ended: Option<End>, result: BatchResult, next: nat, poisonBefore: Option<nat>)
      reads this
    {
      && (ended.Some? ==> syncFailed && ended.value in {ErrorLimit, FailedAfterRetry})
      && (ended.Some? ==> if ended.value.ErrorLimit? then consecutiveErrors > MAX_CONSECUTIVE_ERRORS
            else consecutiveErrors <= MAX_CONSECUTIVE_ERRORS)
      && poisonBlock == if ended == Some(FailedAfterRetry) && result == BatchFailed(false) then Some(next) else poisonBefore
    }

    /** Records an error. The batch is queued once more, unless that was done or there are too many errors. */
    method OnFailure(head: Batch, transient: bool, next: nat) returns (ended: Option<End>)
      modifies this`consecutiveErrors, this`syncFailed, this`poisonBlock
      ensures consecutiveErrors == old(consecutiveErrors) + 1 && syncFailed
      ensures ended.Some? <==> consecutiveErrors > 10 || head.retried
      ensures ended == Some(FailedAfterRetry) ==> head.retried
      ensures Settled(ended, BatchFailed(transient), next, old(poisonBlock))
    {
      consecutiveErrors, syncFailed := consecutiveErrors + 1, true;
      if consecutiveErrors > MAX_CONSECUTIVE_ERRORS {
        return Some(ErrorLimit);
      }
      if !head.retried {
        return None;
      }
      if !transient {
        poisonBlock := Some(next);
      }
      ended := Some(FailedAfterRetry);
    }

    ghost predicate Filled(start: nat, base: seq<BlockRow>, next: nat, tip: nat, gaps: bool)
      reads index
    {
      Steady(start, base, gaps) && start <= next <= tip + 1 && (!gaps ==> Covers(index.blocks, start, next))
    }

    /** What the run keeps: every range tried as it should be, and the tip reached only by storing its block. */
    predicate Tried(attempts: seq<Attempt>, queue: seq<Batch>, nextToFetch: nat, next: nat, start: nat, tip: nat, rpcBatchSize: nat)
      reads this
    {
      && Queued(queue, nextToFetch, start, tip, rpcBatchSize) && AttemptsOk(attempts, start, tip, rpcBatchSize)
      && (next == tip + 1 ==> consecutiveErrors == 0 && StoredLast(attempts, tip))
    }

    /** After a batch that did not end the run, more are fetched ahead. */
    method Refill(start: nat, tip: nat, concurrency: nat, rpcBatchSize: nat, queue: seq<Batch>, fetchedTo: nat, interrupted: bool,
                  ghost attempts: seq<Attempt>, ghost next: nat)
      returns (queueOut: seq<Batch>, nextToFetch: nat, running: bool)
      requires concurrency > 0 && rpcBatchSize > 0 && Queued(queue, fetchedTo, start, tip, rpcBatchSize)
      requires !interrupted ==> FrontIsNext(attempts, queue, fetchedTo, start) && NothingMissing(queue, fetchedTo, next, tip)
      ensures Queued(queueOut, nextToFetch, start, tip, rpcBatchSize)
      ensures running ==> InStep(attempts, queueOut, nextToFetch, next, start, tip)
      ensures !stops && !interrupted ==> running
      ensures 2 * (tip + 1 - nextToFetch) + Weight(queueOut) <= 2 * (tip + 1 - fetchedTo) + Weight(queue)
    {
      var pumpStopped;
      queueOut, nextToFetch, pumpStopped := PumpFetches(queue, fetchedTo, start, tip, concurrency, rpcBatchSize);
      running := Running(interrupted || pumpStopped);
      if running { PumpedInStep(attempts, queue, fetchedTo, queueOut, nextToFetch, next, start, tip); }
    }

    method FirstFetches(start: nat, tip: nat, concurrency: nat, rpcBatchSize: nat)
      returns (queue: seq<Batch>, nextToFetch: nat, running: bool)
      requires concurrency > 0 && rpcBatchSize > 0 && start <= tip
      ensures Queued(queue, nextToFetch, start, tip, rpcBatchSize)
      ensures running ==> InStep([], queue, nextToFetch, start, start, tip)
      ensures !stops ==> running
    {
      queue, nextToFetch, running := Refill(start, tip, concurrency, rpcBatchSize, [], start, false, [], start);
    }

    /** One batch, and then more are fetched ahead. */
    method Round(start: nat, tip: nat, concurrency: nat, rpcBatchSize: nat, queue: seq<Batch>, nextToPersist: nat,
                 fetchedTo: nat, ghost before: seq<Attempt>, ghost base: seq<BlockRow>, ghost gaps: bool)
      returns (queueOut: seq<Batch>, next: nat, nextToFetch: nat, ghost attempts: seq<Attempt>, ended: Option<End>, running: bool)
      requires concurrency > 0 && rpcBatchSize > 0 && queue != [] && nextToPersist <= tip
      requires Filled(start, base, nextToPersist, tip, gaps)
      requires Tried(before, queue, fetchedTo, nextToPersist, start, tip, rpcBatchSize)
      requires InStep(before, queue, fetchedTo, nextToPersist, start, tip)
      modifies index, this
      ensures Filled(start, base, next, tip, gaps) && nextToFetch <= tip + 1
      ensures AttemptsOk(attempts, start, tip, rpcBatchSize) && faults == old(faults) + FailedIn(attempts) - FailedIn(before)
      ensures ended.None? ==> Tried(attempts, queueOut, nextToFetch, next, start, tip, rpcBatchSize) && poisonBlock == old(poisonBlock)
      ensures ended.None? && running ==> InStep(attempts, queueOut, nextToFetch, next, start, tip)
      ensures ended.None? && !stops ==> running
      ensures 2 * (tip + 1 - nextToFetch) + Weight(queueOut) < 2 * (tip + 1 - fetchedTo) + Weight(queue)
      ensures ended.Some? ==> EndsFailed(ended.value, attempts) && next <= tip
      ensures ended.Some? ==> Settled(ended, attempts[|attempts| - 1].result, next, old(poisonBlock))
    {
      ghost var result := Done;
      var interrupted;
      queueOut, next, ended, result, interrupted := TakeBatch(start, tip, queue, nextToPersist, fetchedTo, base, gaps);
      attempts := before + [Attempt(queue[0].from, queue[0].to, result)];
      AttemptAdded(before, result, queue, fetchedTo, start, tip, rpcBatchSize);
      nextToFetch, running := fetchedTo, false;
      if ended.None? {
        RestOk(queue, result, fetchedTo, start, tip, rpcBatchSize);
        if !interrupted { FrontAfter(before, result, queue, fetchedTo, start, tip, rpcBatchSize); }
        queueOut, nextToFetch, running :=
          Refill(start, tip, concurrency, rpcBatchSize, queueOut, fetchedTo, interrupted, attempts, next);
      }
    }

    /**
     * Batches are stored in height order, and a failed one is fetched once more. What is stored is one chain of the
     * tree, whatever fails and whichever chain the node follows; it has no gap up to `next` unless another writer may
     * roll back. The run ends at the tip, on a stop, with too many errors, or when one range failed twice; only a second
     * failure that is permanent halts the crawler, at the block that failed. Behind every failed attempt is a fault.
     */
    method RunCatchUpPipeline(start: nat, tip: nat, concurrency: nat, rpcBatchSize: nat)
      returns (end: End, next: nat, ghost attempts: seq<Attempt>)
      requires concurrency > 0 && rpcBatchSize > 0 && start <= tip
      requires Consistent(index.State(), tree) && GenesisFits(index.blocks, start)
      modifies index, this
      ensures Consistent(index.State(), tree) && start <= next <= tip + 1
      ensures old(Rooted(index.blocks, start)) && !company.RollingBack? ==>
        old(index.blocks) <= index.blocks && Covers(index.blocks, start, next)
      ensures AttemptsOk(attempts, start, tip, rpcBatchSize) && faults == old(faults) + FailedIn(attempts)
      ensures end.AtTip? <==> next == tip + 1
      ensures end.AtTip? ==> StoredLast(attempts, tip) && consecutiveErrors == 0
      ensures end.StopRequested? ==> stops
      ensures end.ErrorLimit? || end.FailedAfterRetry? ==> EndsFailed(end, attempts) && syncFailed
      ensures end.ErrorLimit? ==> consecutiveErrors > 10
      ensures end.FailedAfterRetry? ==> consecutiveErrors <= 10
      ensures poisonBlock ==
        if end.FailedAfterRetry? && attempts[|attempts| - 1].result == BatchFailed(false) then Some(next) else old(poisonBlock)
    {
      ghost var base, gaps := index.blocks, company.RollingBack? || !Rooted(index.blocks, start);
      next, attempts := start, [];
      var queue, nextToFetch: nat, running := FirstFetches(start, tip, concurrency, rpcBatchSize);
      while next <= tip && running
        invariant Filled(start, base, next, tip, gaps) && nextToFetch <= tip + 1
        invariant Tried(attempts, queue, nextToFetch, next, start, tip, rpcBatchSize)
        invariant running ==> InStep(attempts, queue, nextToFetch, next, start, tip)
        invariant !stops ==> running
        invariant poisonBlock == old(poisonBlock) && faults == old(faults) + FailedIn(attempts)
        decreases 2 * (tip + 1 - nextToFetch) + Weight(queue)
      {
        if queue == [] {
          break;
        }
        var ended;
        queue, next, nextToFetch, attempts, ended, running :=
          Round(start, tip, concurrency, rpcBatchSize, queue, next, nextToFetch, attempts, base, gaps);
        if ended.Some? {
          return ended.value, next, attempts;
        }
      }
      end := if next == tip + 1 then AtTip else StopRequested;
    }
  }

  /** A batch taken off the front, and put back once for its retry, weighs less than before. */
  lemma HeadWeight(queue: seq<Batch>)
    requires queue != []
    ensures Weight(queue) == Weight(queue[1..]) + if queue[0].retried then 1 else 2
    ensures Weight([Batch(queue[0].from, queue[0].to, true)] + queue[1..]) == Weight(queue[1..]) + 1
  {
    assert queue == [queue[0]] + queue[1..];
    WeightConcat([queue[0]], queue[1..]);
    WeightOne(queue[0]);
    WeightConcat([Batch(queue[0].from, queue[0].to, true)], queue[1..]);
    WeightOne(Batch(queue[0].from, queue[0].to, true));
  }
}
