/** Blocks stored and rolled back, over whole runs. */
module IndexRuns {
  import opened Wrappers
  import opened IndexTables
  import opened Persist
  import opened PersistProofs
  import opened Rollback

  // ---- Storing keeps the tables well formed ---------------------------------

  /** The block continues the chain at its tip, or starts it. */
  predicate Linked(blocks: seq<BlockRow>, b: PreparedBlock) {
    blocks == [] || (b.parentHash == blocks[|blocks| - 1].hash && b.height == blocks[|blocks| - 1].height + 1)
  }

  /** A new block row keeps the chain if and only if it continues it at the tip. */
  lemma StoredChain(t: Tables, b: PreparedBlock)
    requires WellFormed(t) && b.hash !in HashesOf(t.blocks)
    ensures Chain(Stored(t, b).blocks) <==> Linked(t.blocks, b)
  {
    var row := Stored(t, b).blocks[|t.blocks|];
    forall i | 0 <= i < |t.blocks| ensures t.blocks[i].hash != row.hash {
      assert t.blocks[i] in t.blocks;
    }
    ChainPush(t.blocks, row);
    if t.blocks != [] {
      assert t.blocks[|t.blocks| - 1] in t.blocks;
    }
  }

  lemma ChainPush(blocks: seq<BlockRow>, row: BlockRow)
    requires Chain(blocks) && forall i :: 0 <= i < |blocks| ==> blocks[i].hash != row.hash
    ensures Chain(blocks + [row]) <==>
      (blocks == [] || (row.parent == Some(blocks[|blocks| - 1].hash) && row.height == blocks[|blocks| - 1].height + 1))
  {
    var after, n := blocks + [row], |blocks|;
    assert forall i :: 0 <= i < n ==> after[i] == blocks[i];
    assert after[n] == row;
    if n > 0 { assert after[n - 1] == blocks[n - 1] && after[0] == blocks[0]; }
  }

  /** A header's height is one above its parent's. */
  predicate HeightFits(blocks: seq<BlockRow>, b: PreparedBlock) {
    forall i :: 0 <= i < |blocks| && blocks[i].hash == b.parentHash ==> b.height == blocks[i].height + 1
  }

  /**
   * The parent check and unique heights are enough: whatever chain a block comes from, if it is stored above height 0
   * with its parent required, it continues the chain at the tip.
   */
  lemma WrittenIsLinked(t: Tables, b: PreparedBlock)
    requires WellFormed(t) && HeightFits(t.blocks, b) && OutcomeOf(t, b, true).Written?
    ensures Linked(t.blocks, b) <==> b.height > 0 || t.blocks == []
  {
    if b.height > 0 {
      assert b.parentHash in HashesOf(t.blocks);
      var i :| 0 <= i < |t.blocks| && t.blocks[i].hash == b.parentHash;
      var next := if i + 1 < |t.blocks| then i + 1 else i;
      assert t.blocks[next].height == t.blocks[i].height + (next - i);
      assert t.blocks[next].height != b.height;
    }
  }

  lemma StoredRefs(t: Tables, b: PreparedBlock)
    requires UniqueRefs(BeforeSpends(t, b))
    ensures UniqueRefs(AfterSpends(t, b).utxos)
  {
    AfterSpendsShape(t, b, Address(0));
    var before, after := BeforeSpends(t, b), AfterSpends(t, b).utxos;
    assert forall i :: 0 <= i < |after| ==> after[i].ref == before[i].ref;
  }

  lemma StoredReferential(t: Tables, b: PreparedBlock)
    requires Referential(t.blocks, t.txs, t.utxos)
    ensures Referential(Stored(t, b).blocks, Stored(t, b).txs, Stored(t, b).utxos)
  {
    var s := Stored(t, b);
    StoredIdsIn(t, b);
    StoredCreators(t, b);
    forall u | u in s.utxos
      ensures u.createdAt in IdsOf(s.txs) && (u.spentAt.Some? ==> u.spentAt.value in IdsOf(s.txs))
    {
      var i :| 0 <= i < |s.utxos| && s.utxos[i] == u;
    }
  }

  lemma StoredIdsIn(t: Tables, b: PreparedBlock)
    requires forall x :: x in t.txs ==> x.id.block in HashesOf(t.blocks)
    ensures var s := Stored(t, b);
      && (forall x :: x in s.txs ==> x.id.block in HashesOf(s.blocks))
      && IdsOf(t.txs) <= IdsOf(s.txs) && NewIds(b) <= IdsOf(s.txs)
  {
    var s := Stored(t, b);
    assert s.blocks[|t.blocks|] in s.blocks;
    assert forall r :: r in t.blocks ==> r in s.blocks;
    assert forall x :: x in t.txs ==> x in s.txs;
    assert forall x :: x in TxRows(b, |b.extrinsics|) ==> x in s.txs;
  }

  /** Every output is created, and spent, by a transaction from before or of the block. */
  lemma StoredCreators(t: Tables, b: PreparedBlock)
    requires Referential(t.blocks, t.txs, t.utxos)
    ensures var after, ids := Stored(t, b).utxos, IdsOf(t.txs) + NewIds(b);
      forall i :: 0 <= i < |after| ==> after[i].createdAt in ids && (after[i].spentAt.Some? ==> after[i].spentAt.value in ids)
  {
    var before, after := BeforeSpends(t, b), Stored(t, b).utxos;
    AfterSpendsShape(t, b, Address(0));
    CreatorsInBlock(b, |b.extrinsics|);
    forall i | 0 <= i < |after|
      ensures before[i].createdAt in IdsOf(t.txs) + NewIds(b)
      ensures before[i].spentAt.Some? ==> before[i].spentAt.value in IdsOf(t.txs)
    {
      if i < |t.utxos| {
        assert before[i] == t.utxos[i] && t.utxos[i] in t.utxos;
      } else {
        assert before[i] == CreatedRows(b, |b.extrinsics|)[i - |t.utxos|];
      }
    }
  }

  /** Storing a linked block keeps the tables well formed and the tip at it. */
  lemma PersistKeepsWellFormed(t: Tables, b: PreparedBlock, requireParent: bool)
    requires WellFormed(t)
    requires OutcomeOf(t, b, requireParent).Written? ==> Linked(t.blocks, b)
    ensures WellFormed(PersistBlock(t, b, requireParent))
  {
    if OutcomeOf(t, b, requireParent).Written? {
      StoredChain(t, b);
      StoredRefs(t, b);
      StoredReferential(t, b);
    }
  }

  // ---- A rollback removes the top of the chain ------------------------------

  lemma {:induction false} KeepBlocksPrefix(rows: seq<BlockRow>, gone: set<Hash>, k: nat)
    requires k <= |rows|
    requires forall i :: 0 <= i < |rows| ==> (rows[i].hash in gone <==> i >= k)
    ensures KeepBlocks(rows, gone) == rows[..k]
  {
    if rows != [] {
      var init := rows[..|rows| - 1];
      if k == |rows| {
        KeepBlocksPrefix(init, gone, k - 1);
        assert rows[..k - 1] + [rows[k - 1]] == rows[..k];
      } else {
        KeepBlocksPrefix(init, gone, k);
        assert init[..k] == rows[..k];
      }
    }
  }

  lemma {:induction false} KeepTxsPrefix(rows: seq<TxRow>, gone: set<Hash>, k: nat)
    requires k <= |rows|
    requires forall i :: 0 <= i < |rows| ==> (rows[i].id.block in gone <==> i >= k)
    ensures KeepTxs(rows, gone) == rows[..k]
  {
    if rows != [] {
      var init := rows[..|rows| - 1];
      if k == |rows| {
        KeepTxsPrefix(init, gone, k - 1);
        assert rows[..k - 1] + [rows[k - 1]] == rows[..k];
      } else {
        KeepTxsPrefix(init, gone, k);
        assert init[..k] == rows[..k];
      }
    }
  }

  lemma {:induction false} KeepUtxosPrefix(rows: seq<UtxoRow>, gone: set<TxId>, k: nat)
    requires k <= |rows|
    requires forall i :: 0 <= i < |rows| ==> (rows[i].createdAt in gone <==> i >= k)
    ensures KeepUtxos(rows, gone) == rows[..k]
  {
    if rows != [] {
      var init := rows[..|rows| - 1];
      if k == |rows| {
        KeepUtxosPrefix(init, gone, k - 1);
        assert rows[..k - 1] + [rows[k - 1]] == rows[..k];
      } else {
        KeepUtxosPrefix(init, gone, k);
        assert init[..k] == rows[..k];
      }
    }
  }

  /** Heights of blocks ascend, so `fromHeight` splits the chain in two. */
  function BlocksBelow(blocks: seq<BlockRow>, fromHeight: nat): (k: nat)
    ensures k <= |blocks|
    ensures forall i :: k <= i < |blocks| ==> blocks[i].height >= fromHeight
    ensures k > 0 ==> blocks[k - 1].height < fromHeight
  {
    if blocks == [] || blocks[|blocks| - 1].height < fromHeight then |blocks|
    else BlocksBelow(blocks[..|blocks| - 1], fromHeight)
  }

  lemma BelowIsLow(blocks: seq<BlockRow>, fromHeight: nat)
    requires Chain(blocks)
    ensures forall i :: 0 <= i < |blocks| ==> (blocks[i].height < fromHeight <==> i < BlocksBelow(blocks, fromHeight))
  {
    var k := BlocksBelow(blocks, fromHeight);
    forall i | 0 <= i < k ensures blocks[i].height < fromHeight {
      assert blocks[i].height <= blocks[k - 1].height;
    }
  }

  lemma GoneAreHigh(blocks: seq<BlockRow>, fromHeight: nat)
    requires Chain(blocks)
    ensures forall i :: 0 <= i < |blocks| ==>
      (blocks[i].hash in GoneBlocks(blocks, fromHeight) <==> i >= BlocksBelow(blocks, fromHeight))
  {
    BelowIsLow(blocks, fromHeight);
    forall i | 0 <= i < |blocks|
      ensures blocks[i].hash in GoneBlocks(blocks, fromHeight) <==> i >= BlocksBelow(blocks, fromHeight)
    {
      if blocks[i].hash in GoneBlocks(blocks, fromHeight) {
        var j :| 0 <= j < |blocks| && blocks[j].height >= fromHeight && blocks[j].hash == blocks[i].hash;
      } else {
        assert blocks[i] in blocks;
      }
    }
  }

  lemma RolledBackBlocks(blocks: seq<BlockRow>, fromHeight: nat)
    requires Chain(blocks)
    ensures KeepBlocks(blocks, GoneBlocks(blocks, fromHeight)) == blocks[..BlocksBelow(blocks, fromHeight)]
  {
    GoneAreHigh(blocks, fromHeight);
    KeepBlocksPrefix(blocks, GoneBlocks(blocks, fromHeight), BlocksBelow(blocks, fromHeight));
  }

  lemma ChainPrefix(blocks: seq<BlockRow>, k: nat)
    requires Chain(blocks) && k <= |blocks|
    ensures Chain(blocks[..k])
  {
    assert forall i :: 0 <= i < k ==> blocks[..k][i] == blocks[i];
  }

  lemma {:induction false} ForkIsLast(blocks: seq<BlockRow>)
    requires Chain(blocks)
    ensures blocks == [] ==> ForkBlock(blocks).None?
    ensures blocks != [] ==> ForkBlock(blocks) == Some(blocks[|blocks| - 1])
  {
    if |blocks| > 1 {
      ForkIsLast(blocks[..|blocks| - 1]);
    }
  }

  lemma {:induction false} KeptUtxoOrder(utxos: seq<UtxoRow>, gone: set<TxId>)
    requires UniqueRefs(utxos)
    ensures UniqueRefs(RemainingUtxos(utxos, gone))
    ensures forall v :: v in RemainingUtxos(utxos, gone) ==> exists u :: u in utxos && u.ref == v.ref
  {
    if utxos != [] {
      var init, last := utxos[..|utxos| - 1], utxos[|utxos| - 1];
      assert forall i :: 0 <= i < |init| ==> init[i] == utxos[i];
      KeptUtxoOrder(init, gone);
      assert utxos == init + [last];
      RemainingPush(init, last, gone);
      var kept := RemainingUtxos(init, gone);
      forall v | v in kept ensures v.ref != last.ref {
        var u :| u in init && u.ref == v.ref;
        var i :| 0 <= i < |init| && init[i] == u;
        assert utxos[i].ref != utxos[|init|].ref;
      }
      assert forall i :: 0 <= i < |kept| ==> kept[i] in kept;
      forall v | v in RemainingUtxos(utxos, gone) ensures exists u :: u in utxos && u.ref == v.ref {
        if v in kept {
          var u :| u in init && u.ref == v.ref;
          assert u in utxos;
        } else {
          assert last in utxos && v.ref == last.ref;
        }
      }
    }
  }

  lemma RollbackReferential(t: Tables, fromHeight: nat)
    requires WellFormed(t) && GoneBlocks(t.blocks, fromHeight) != {}
    ensures var s := RolledBack(t, fromHeight); Referential(s.blocks, s.txs, s.utxos)
  {
    var gone := GoneBlocks(t.blocks, fromHeight);
    var ids, s := GoneTxs(t.txs, gone), RolledBack(t, fromHeight);
    KeptReferential(t, gone);
    UnspentRows(KeepUtxos(t.utxos, ids), ids);
    forall v | v in s.utxos
      ensures v.createdAt in IdsOf(s.txs) && (v.spentAt.Some? ==> v.spentAt.value in IdsOf(s.txs))
    {
      var u :| u in KeepUtxos(t.utxos, ids) && v == UnspendRow(u, ids);
    }
  }

  /** What is kept hangs on what is kept, but for spends by removed transactions. */
  lemma KeptReferential(t: Tables, gone: set<Hash>)
    requires Referential(t.blocks, t.txs, t.utxos)
    ensures var blocks, txs, ids := KeepBlocks(t.blocks, gone), KeepTxs(t.txs, gone), GoneTxs(t.txs, gone);
      && (forall x :: x in txs ==> x.id.block in HashesOf(blocks))
      && (forall u :: u in KeepUtxos(t.utxos, ids) ==>
            u.createdAt in IdsOf(txs) && (u.spentAt.Some? ==> u.spentAt.value in IdsOf(txs) + ids))
  {
    var blocks, txs, ids := KeepBlocks(t.blocks, gone), KeepTxs(t.txs, gone), GoneTxs(t.txs, gone);
    KeptBlocks(t.blocks, gone);
    KeptTxs(t.txs, gone);
    KeptUtxos(t.utxos, ids);
    forall x | x in txs ensures x.id.block in HashesOf(blocks) {
      var r :| r in t.blocks && r.hash == x.id.block;
      assert r in blocks;
    }
    forall id | id in IdsOf(t.txs) ensures id in IdsOf(txs) + ids {
      var x :| x in t.txs && x.id == id;
      assert id in ids || x in txs;
    }
  }

  /** A rollback keeps the tables well formed, with the tip at the highest block left. */
  lemma RollbackKeepsWellFormed(t: Tables, fromHeight: nat)
    requires WellFormed(t)
    ensures WellFormed(RolledBack(t, fromHeight))
    ensures RolledBack(t, fromHeight).blocks == t.blocks[..BlocksBelow(t.blocks, fromHeight)]
  {
    RolledBackBlocks(t.blocks, fromHeight);
    var k := BlocksBelow(t.blocks, fromHeight);
    if GoneBlocks(t.blocks, fromHeight) == {} {
      forall i | 0 <= i < |t.blocks| ensures t.blocks[i].height < fromHeight {
        assert t.blocks[i].hash !in GoneBlocks(t.blocks, fromHeight);
      }
      assert t.blocks[..k] == t.blocks;
    } else {
      ChainPrefix(t.blocks, k);
      ForkIsLast(t.blocks[..k]);
      KeptUtxoOrder(t.utxos, GoneTxs(t.txs, GoneBlocks(t.blocks, fromHeight)));
      RollbackReferential(t, fromHeight);
    }
  }

  // ---- A rollback undoes what was stored ------------------------------------

  /** `now` is `base` with more blocks from `fromHeight` upwards stored on top. */
  ghost predicate Over(base: Tables, now: Tables, fromHeight: nat) {
    OverRows(base, now, fromHeight) && OverUtxos(base, now, fromHeight) && OverBalances(base, now, fromHeight)
  }

  predicate OverRows(base: Tables, now: Tables, fromHeight: nat) {
    && |base.blocks| <= |now.blocks| && now.blocks[..|base.blocks|] == base.blocks
    && |base.txs| <= |now.txs| && now.txs[..|base.txs|] == base.txs
    && (forall i :: |base.blocks| <= i < |now.blocks| ==> now.blocks[i].height >= fromHeight)
    && (forall i :: |base.txs| <= i < |now.txs| ==> now.txs[i].id.block in GoneBlocks(now.blocks, fromHeight))
    && now.sync.reorgGeneration == base.sync.reorgGeneration
  }

  predicate OverUtxos(base: Tables, now: Tables, fromHeight: nat) {
    && |base.utxos| <= |now.utxos|
    && SpentMore(base.utxos, now.utxos[..|base.utxos|], Ids(now, fromHeight))
    && (forall i :: |base.utxos| <= i < |now.utxos| ==> now.utxos[i].createdAt in Ids(now, fromHeight))
  }

  ghost predicate OverBalances(base: Tables, now: Tables, fromHeight: nat) {
    forall a ::
      && DustOf(now, a) == DustOf(base, a)
      && (a !in Affected(now.txs, now.utxos, Ids(now, fromHeight)) ==>
           RowOf(now.balances, a) == RowOf(base.balances, a))
  }

  /** The transactions a rollback from `fromHeight` removes. */
  function Ids(t: Tables, fromHeight: nat): set<TxId> {
    GoneTxs(t.txs, GoneBlocks(t.blocks, fromHeight))
  }

  predicate DustOf(t: Tables, a: Address) {
    a in t.balances && t.balances[a].dust
  }

  lemma StoredIds(t: Tables, b: PreparedBlock, fromHeight: nat)
    requires b.height >= fromHeight
    ensures GoneBlocks(Stored(t, b).blocks, fromHeight) == GoneBlocks(t.blocks, fromHeight) + {b.hash}
    ensures Ids(t, fromHeight) + NewIds(b) <= Ids(Stored(t, b), fromHeight)
  {
    var s := Stored(t, b);
    var row := s.blocks[|t.blocks|];
    assert forall r :: r in s.blocks <==> r in t.blocks || r == row;
    assert forall x :: x in s.txs <==> x in t.txs || x in TxRows(b, |b.extrinsics|);
  }

  /** What a block touches, rolling it back recomputes. */
  lemma DeltasAreAffected(t: Tables, b: PreparedBlock, fromHeight: nat, a: Address)
    requires b.height >= fromHeight
    requires a in AfterSpends(t, b).deltas
    ensures a in Affected(Stored(t, b).txs, Stored(t, b).utxos, Ids(Stored(t, b), fromHeight))
  {
    var s := Stored(t, b);
    StoredIds(t, b, fromHeight);
    var k, id := DeltaWitness(t, b, a);
    if k < |s.utxos| {
      assert s.utxos[k] in s.utxos;
    } else {
      var rows := TxRows(b, |b.extrinsics|);
      var i :| 0 <= i < |rows| && SentBy(rows[i], a);
      assert rows[i] in rows && rows[i] in s.txs;
    }
  }

  lemma TxsStay(t: Tables, b: PreparedBlock)
    ensures forall x :: x in t.txs ==> x in Stored(t, b).txs
  {
  }

  /** What was affected stays affected when more is stored. */
  lemma AffectedGrows(t: Tables, b: PreparedBlock, fromHeight: nat)
    requires b.height >= fromHeight
    ensures Affected(t.txs, t.utxos, Ids(t, fromHeight)) <=
            Affected(Stored(t, b).txs, Stored(t, b).utxos, Ids(Stored(t, b), fromHeight))
  {
    var s := Stored(t, b);
    StoredIds(t, b, fromHeight);
    TxsStay(t, b);
    forall u | u in t.utxos ensures Remains(u, s.utxos) {
      OutputRemains(t, b, u);
    }
    AffectedByMore(t, s, Ids(t, fromHeight), Ids(s, fromHeight));
  }

  /** The output, with its spend if it was spent. */
  predicate Remains(u: UtxoRow, utxos: seq<UtxoRow>) {
    exists i :: 0 <= i < |utxos| && (utxos[i] == u || (u.spentAt.None? && utxos[i] == u.(spentAt := utxos[i].spentAt)))
  }

  lemma OutputRemains(t: Tables, b: PreparedBlock, u: UtxoRow)
    requires u in t.utxos
    ensures Remains(u, Stored(t, b).utxos)
  {
    AfterSpendsShape(t, b, Address(0));
    var i :| 0 <= i < |t.utxos| && t.utxos[i] == u;
    assert BeforeSpends(t, b)[i] == u;
    var after := Stored(t, b).utxos;
    assert after[i] == u || (u.spentAt.None? && after[i] == u.(spentAt := after[i].spentAt));
  }

  lemma AffectedByMore(t: Tables, s: Tables, p: set<TxId>, q: set<TxId>)
    requires p <= q && (forall x :: x in t.txs ==> x in s.txs) && (forall u :: u in t.utxos ==> Remains(u, s.utxos))
    ensures Affected(t.txs, t.utxos, p) <= Affected(s.txs, s.utxos, q)
  {
    forall u | u in t.utxos && (u.createdAt in p || (u.spentAt.Some? && u.spentAt.value in p))
      ensures u.owner in Affected(s.txs, s.utxos, q)
    {
      assert Remains(u, s.utxos);
      var i :| 0 <= i < |s.utxos| && (s.utxos[i] == u || (u.spentAt.None? && s.utxos[i] == u.(spentAt := s.utxos[i].spentAt)));
      assert s.utxos[i] in s.utxos;
    }
  }

  lemma OverStoredRows(base: Tables, now: Tables, b: PreparedBlock, fromHeight: nat)
    requires OverRows(base, now, fromHeight) && b.height >= fromHeight
    ensures OverRows(base, Stored(now, b), fromHeight)
  {
    var s := Stored(now, b);
    assert s.blocks[..|base.blocks|] == now.blocks[..|base.blocks|];
    assert s.txs[..|base.txs|] == now.txs[..|base.txs|];
    OverStoredTxs(base, now, b, fromHeight);
  }

  lemma OverStoredTxs(base: Tables, now: Tables, b: PreparedBlock, fromHeight: nat)
    requires b.height >= fromHeight && |base.txs| <= |now.txs|
    requires forall i :: |base.txs| <= i < |now.txs| ==> now.txs[i].id.block in GoneBlocks(now.blocks, fromHeight)
    ensures forall i :: |base.txs| <= i < |Stored(now, b).txs| ==>
      Stored(now, b).txs[i].id.block in GoneBlocks(Stored(now, b).blocks, fromHeight)
  {
    StoredIds(now, b, fromHeight);
    var txs, rows := Stored(now, b).txs, TxRows(b, |b.extrinsics|);
    forall i | |base.txs| <= i < |txs| ensures txs[i].id.block in GoneBlocks(now.blocks, fromHeight) + {b.hash} {
      assert txs[i] == if i < |now.txs| then now.txs[i] else rows[i - |now.txs|];
    }
  }

  lemma OverStoredUtxos(base: Tables, now: Tables, b: PreparedBlock, fromHeight: nat)
    requires OverUtxos(base, now, fromHeight) && b.height >= fromHeight
    ensures OverUtxos(base, Stored(now, b), fromHeight)
  {
    var s := Stored(now, b);
    StoredIds(now, b, fromHeight);
    AfterSpendsShape(now, b, Address(0));
    CreatorsInBlock(b, |b.extrinsics|);
    var before, low := BeforeSpends(now, b), s.utxos[..|base.utxos|];
    forall i | 0 <= i < |base.utxos|
      ensures low[i] == base.utxos[i] ||
        (base.utxos[i].spentAt.None? && low[i].spentAt.Some? && low[i].spentAt.value in Ids(s, fromHeight) &&
         low[i] == base.utxos[i].(spentAt := low[i].spentAt))
    {
      assert before[i] == now.utxos[i] == now.utxos[..|base.utxos|][i];
    }
    forall i | |base.utxos| <= i < |s.utxos| ensures s.utxos[i].createdAt in Ids(s, fromHeight) {
      if i < |now.utxos| {
        assert before[i] == now.utxos[i];
      } else {
        assert before[i] == CreatedRows(b, |b.extrinsics|)[i - |now.utxos|];
      }
    }
  }

  lemma OverStored(base: Tables, now: Tables, b: PreparedBlock, fromHeight: nat)
    requires Over(base, now, fromHeight) && b.height >= fromHeight
    ensures Over(base, Stored(now, b), fromHeight)
  {
    var s := Stored(now, b);
    OverStoredRows(base, now, b, fromHeight);
    OverStoredUtxos(base, now, b, fromHeight);
    AffectedGrows(now, b, fromHeight);
    forall a
      ensures DustOf(s, a) == DustOf(base, a)
      ensures a !in Affected(s.txs, s.utxos, Ids(s, fromHeight)) ==> RowOf(s.balances, a) == RowOf(base.balances, a)
    {
      if a in AfterSpends(now, b).deltas {
        DeltasAreAffected(now, b, fromHeight, a);
      }
    }
  }

  /** A block to store, with its parent required or, for the anchor of an empty index, not. */
  datatype Delivery = Delivery(block: PreparedBlock, requireParent: bool)

  /** The tables after a list of blocks. A block that is not stored leaves them as they are. */
  function StoreAll(t: Tables, stores: seq<Delivery>): Tables {
    if stores == [] then t
    else PersistBlock(StoreAll(t, stores[..|stores| - 1]), stores[|stores| - 1].block, stores[|stores| - 1].requireParent)
  }

  predicate AllFrom(stores: seq<Delivery>, fromHeight: nat) {
    forall i :: 0 <= i < |stores| ==> stores[i].block.height >= fromHeight
  }

  lemma {:induction false} StoreAllOver(t: Tables, stores: seq<Delivery>, fromHeight: nat)
    requires forall r :: r in t.blocks ==> r.height < fromHeight
    requires AllFrom(stores, fromHeight)
    ensures Over(t, StoreAll(t, stores), fromHeight)
  {
    if stores == [] {
      assert t.utxos[..|t.utxos|] == t.utxos && t.blocks[..|t.blocks|] == t.blocks && t.txs[..|t.txs|] == t.txs;
    } else {
      StoreAllOver(t, stores[..|stores| - 1], fromHeight);
      OverStored(t, StoreAll(t, stores[..|stores| - 1]), stores[|stores| - 1].block, fromHeight);
    }
  }

  lemma UndoneRows(base: Tables, now: Tables, fromHeight: nat)
    requires OverRows(base, now, fromHeight) && Referential(base.blocks, base.txs, base.utxos)
    requires HeightsBelow(base.blocks, fromHeight) && UniqueHashes(now.blocks)
    ensures KeepBlocks(now.blocks, GoneBlocks(now.blocks, fromHeight)) == base.blocks
    ensures KeepTxs(now.txs, GoneBlocks(now.blocks, fromHeight)) == base.txs
    ensures HashesOf(base.blocks) !! GoneBlocks(now.blocks, fromHeight)
  {
    var gone := GoneBlocks(now.blocks, fromHeight);
    forall i | 0 <= i < |now.blocks|
      ensures now.blocks[i].hash in gone <==> i >= |base.blocks|
    {
      if i >= |base.blocks| {
        assert now.blocks[i] in now.blocks;
      } else {
        assert now.blocks[i] == base.blocks[i] && base.blocks[i] in base.blocks;
        forall r | r in now.blocks && r.height >= fromHeight ensures r.hash != now.blocks[i].hash {
          var j :| 0 <= j < |now.blocks| && now.blocks[j] == r;
        }
      }
    }
    KeepBlocksPrefix(now.blocks, gone, |base.blocks|);
    forall r | r in base.blocks ensures r.hash !in gone {
      var i :| 0 <= i < |base.blocks| && base.blocks[i] == r;
      assert now.blocks[i] == r;
    }
    forall i | 0 <= i < |base.txs| ensures now.txs[i].id.block !in gone {
      assert now.txs[i] == base.txs[i] && base.txs[i] in base.txs;
    }
    KeepTxsPrefix(now.txs, gone, |base.txs|);
  }

  predicate UniqueHashes(blocks: seq<BlockRow>) {
    forall i, j :: 0 <= i < j < |blocks| ==> blocks[i].hash != blocks[j].hash
  }

  lemma UndoneUtxos(base: Tables, now: Tables, fromHeight: nat)
    requires OverUtxos(base, now, fromHeight) && Referential(base.blocks, base.txs, base.utxos)
    requires HashesOf(base.blocks) !! GoneBlocks(now.blocks, fromHeight)
    ensures RemainingUtxos(now.utxos, Ids(now, fromHeight)) == base.utxos
  {
    var ids := Ids(now, fromHeight);
    assert forall id :: id in IdsOf(base.txs) ==> id.block in HashesOf(base.blocks);
    var low := now.utxos[..|base.utxos|];
    forall i | 0 <= i < |base.utxos|
      ensures base.utxos[i].createdAt !in ids && UnspendRow(low[i], ids) == base.utxos[i] && low[i].createdAt == base.utxos[i].createdAt
    {
      assert base.utxos[i] in base.utxos;
    }
    forall i | 0 <= i < |now.utxos| ensures now.utxos[i].createdAt in ids <==> i >= |base.utxos| {
      if i < |base.utxos| { assert now.utxos[i] == low[i]; }
    }
    KeepUtxosPrefix(now.utxos, ids, |base.utxos|);
  }

  lemma {:induction false} StoreAllUnique(t: Tables, stores: seq<Delivery>)
    requires UniqueHashes(t.blocks)
    ensures UniqueHashes(StoreAll(t, stores).blocks)
  {
    if stores != [] {
      var now, d := StoreAll(t, stores[..|stores| - 1]), stores[|stores| - 1];
      StoreAllUnique(t, stores[..|stores| - 1]);
      if OutcomeOf(now, d.block, d.requireParent).Written? {
        assert forall i :: 0 <= i < |now.blocks| ==> now.blocks[i] in now.blocks;
      }
    }
  }

  /** Recomputing the affected addresses from the restored rows restores their rows. */
  lemma UndoneBalances(base: Tables, now: Tables, fromHeight: nat)
    requires Agrees(base) && OverBalances(base, now, fromHeight)
    ensures RecomputedBalances(now, base.blocks, base.txs, base.utxos,
                               Affected(now.txs, now.utxos, Ids(now, fromHeight))) == base.balances
  {
    var affected := Affected(now.txs, now.utxos, Ids(now, fromHeight));
    var after := RecomputedBalances(now, base.blocks, base.txs, base.utxos, affected);
    forall a ensures RowOf(after, a) == RowOf(base.balances, a) {
      assert Matches(RowOf(base.balances, a), Compute(base, a));
      assert DustOf(now, a) == DustOf(base, a);
      if a in affected {
        assert RowOf(after, a) == RecomputedRow(RowOf(now.balances, a), Compute(base, a));
      }
    }
    SameRows(after, base.balances);
  }

  lemma SameRows(p: map<Address, BalanceRow>, q: map<Address, BalanceRow>)
    requires forall a :: RowOf(p, a) == RowOf(q, a)
    ensures p == q
  {
    forall a ensures a in p <==> a in q {
      assert RowOf(p, a) == RowOf(q, a);
    }
    forall a | a in p ensures p[a] == q[a] {
      assert RowOf(p, a) == RowOf(q, a);
    }
  }

  /**
   * A rollback is the exact inverse of storing: whatever blocks from `fromHeight` upwards were stored on
   * top of agreeing tables, removing them gives those tables back. Only the generation has moved.
   */
  lemma RollbackUndoesStoring(t: Tables, stores: seq<Delivery>, fromHeight: nat)
    requires WellFormed(t) && Agrees(t)
    requires HeightsBelow(t.blocks, fromHeight) && AllFrom(stores, fromHeight)
    ensures RolledBack(StoreAll(t, stores), fromHeight) ==
      t.(sync := t.sync.(reorgGeneration := t.sync.reorgGeneration + 1))
  {
    var now := StoreAll(t, stores);
    StoreAllOver(t, stores, fromHeight);
    StoreAllUnique(t, stores);
    if GoneBlocks(now.blocks, fromHeight) == {} {
      NothingStored(t, stores, fromHeight);
    } else {
      UndoneOver(t, now, fromHeight);
      UndoneBalances(t, now, fromHeight);
    }
  }

  /** Without agreement before, everything but the balance rows is still given back. */
  lemma RollbackUndoesRows(t: Tables, stores: seq<Delivery>, fromHeight: nat)
    requires WellFormed(t)
    requires HeightsBelow(t.blocks, fromHeight) && AllFrom(stores, fromHeight)
    ensures var undone := RolledBack(StoreAll(t, stores), fromHeight);
      undone == t.(balances := undone.balances, sync := t.sync.(reorgGeneration := t.sync.reorgGeneration + 1))
  {
    StoreAllOver(t, stores, fromHeight);
    StoreAllUnique(t, stores);
    if GoneBlocks(StoreAll(t, stores).blocks, fromHeight) == {} {
      NothingStored(t, stores, fromHeight);
    } else {
      UndoneOver(t, StoreAll(t, stores), fromHeight);
    }
  }

  lemma UndoneOver(t: Tables, now: Tables, fromHeight: nat)
    requires WellFormed(t) && HeightsBelow(t.blocks, fromHeight)
    requires Over(t, now, fromHeight) && UniqueHashes(now.blocks) && GoneBlocks(now.blocks, fromHeight) != {}
    ensures var after := RolledBack(now, fromHeight);
      && after.blocks == t.blocks && after.txs == t.txs && after.utxos == t.utxos
      && after.sync == t.sync.(reorgGeneration := t.sync.reorgGeneration + 1)
  {
    UndoneRows(t, now, fromHeight);
    UndoneUtxos(t, now, fromHeight);
    UndoneSync(t, now);
  }

  lemma UndoneSync(t: Tables, now: Tables)
    requires WellFormed(t) && now.sync.reorgGeneration == t.sync.reorgGeneration
    ensures SyncAfter(now.sync, t.blocks) == t.sync.(reorgGeneration := t.sync.reorgGeneration + 1)
  {
    ForkIsLast(t.blocks);
  }

  /** Without a block from `fromHeight` upwards, nothing was stored. */
  lemma {:induction false} NothingStored(t: Tables, stores: seq<Delivery>, fromHeight: nat)
    requires AllFrom(stores, fromHeight)
    requires GoneBlocks(StoreAll(t, stores).blocks, fromHeight) == {}
    ensures StoreAll(t, stores) == t
  {
    if stores != [] {
      var now, d := StoreAll(t, stores[..|stores| - 1]), stores[|stores| - 1];
      assert !OutcomeOf(now, d.block, d.requireParent).Written? by {
        if OutcomeOf(now, d.block, d.requireParent).Written? { StoredIds(now, d.block, fromHeight); }
      }
      NothingStored(t, stores[..|stores| - 1], fromHeight);
    }
  }

  // ---- Whole runs -----------------------------------------------------------

  /** `Register` is an outside writer that registers the row of an address for dust. */
  datatype Step = StoreBlock(block: PreparedBlock, requireParent: bool) | RollBack(fromHeight: nat) | Register(address: Address)

  function Registered(t: Tables, a: Address): Tables {
    if a in t.balances then t.(balances := t.balances[a := t.balances[a].(dust := true)]) else t
  }

  function Apply(t: Tables, step: Step): Tables {
    match step
    case StoreBlock(b, requireParent) => PersistBlock(t, b, requireParent)
    case RollBack(fromHeight) => RolledBack(t, fromHeight)
    case Register(a) => Registered(t, a)
  }

  function Run(steps: seq<Step>): Tables {
    if steps == [] then EMPTY else Apply(Run(steps[..|steps| - 1]), steps[|steps| - 1])
  }

  /** Every stored block continues the chain at its tip, or starts it. */
  predicate LinkedRun(steps: seq<Step>) {
    steps == [] ||
    (var init, last := steps[..|steps| - 1], steps[|steps| - 1];
     && LinkedRun(init)
     && (last.StoreBlock? && OutcomeOf(Run(init), last.block, last.requireParent).Written? ==>
           Linked(Run(init).blocks, last.block)))
  }

  ghost predicate NoDust(t: Tables) {
    forall a :: !DustOf(t, a)
  }

  lemma EmptyAgrees()
    ensures WellFormed(EMPTY) && Agrees(EMPTY) && NoDust(EMPTY)
  {
    forall a ensures Compute(EMPTY, a).None? {
      ComputeExists(EMPTY, a, Balance);
    }
  }

  lemma LinkedFits(t: Tables, b: PreparedBlock, requireParent: bool)
    requires WellFormed(t) && Linked(t.blocks, b) && OutcomeOf(t, b, requireParent).Written?
    ensures Fits(t, b)
  {
    forall r | r in t.blocks ensures r.height < b.height {
      var i :| 0 <= i < |t.blocks| && t.blocks[i] == r;
      assert t.blocks[|t.blocks| - 1].height >= r.height;
    }
  }

  /** Storing a linked block keeps agreement, if and only if it touches no zeroed row above height 0. */
  lemma PersistAgrees(t: Tables, b: PreparedBlock, requireParent: bool)
    requires WellFormed(t) && Agrees(t)
    requires OutcomeOf(t, b, requireParent).Written? && Linked(t.blocks, b)
    ensures Agrees(PersistBlock(t, b, requireParent)) <==>
      b.height == 0 || forall a :: a in AfterSpends(t, b).deltas ==> !Retained(t, a)
  {
    LinkedFits(t, b, requireParent);
    forall a
      ensures Matches(RowOf(Stored(t, b).balances, a), Compute(Stored(t, b), a)) <==>
        !(a in AfterSpends(t, b).deltas && Retained(t, a) && b.height > 0)
    {
      PersistKeepsMatch(t, b, a);
    }
  }

  lemma RollbackAgrees(t: Tables, fromHeight: nat)
    requires WellFormed(t) && Agrees(t)
    ensures Agrees(RolledBack(t, fromHeight))
  {
    forall a ensures Matches(RowOf(RolledBack(t, fromHeight).balances, a), Compute(RolledBack(t, fromHeight), a)) {
      RollbackMatches(t, fromHeight, a);
    }
  }

  /** Agreeing rows without a dust registration are never zeroed ones. */
  lemma NothingRetained(t: Tables, a: Address)
    requires WellFormed(t) && Agrees(t) && NoDust(t)
    ensures !Retained(t, a)
  {
    assert Matches(RowOf(t.balances, a), Compute(t, a)) && !DustOf(t, a);
    if Compute(t, a).Some? {
      ActiveAddressHasHeights(t, a);
      LowestHighest(HeightsOf(t.blocks, ActiveBlocks(t.utxos, t.txs, a)));
    }
  }

  lemma StepKeepsNoDust(t: Tables, step: Step)
    requires NoDust(t) && !step.Register?
    ensures NoDust(Apply(t, step))
  {
    forall a ensures !DustOf(Apply(t, step), a) {
      assert !DustOf(t, a);
    }
  }

  /** A row that matches but for a first height of 0, which only a row registered for dust can have wrongly. */
  predicate NearlyMatches(row: Option<BalanceRow>, computed: Option<Figures>) {
    Matches(row, computed) || FirstHeightLost(row, computed)
  }

  predicate FirstHeightLost(row: Option<BalanceRow>, computed: Option<Figures>) {
    row.Some? && computed.Some? && row.value.dust && row.value.figures == computed.value.(firstSeen := Some(0))
  }

  ghost predicate NearlyAgrees(t: Tables) {
    forall a :: NearlyMatches(RowOf(t.balances, a), Compute(t, a))
  }

  lemma PersistKeepsNearly(t: Tables, b: PreparedBlock, a: Address)
    requires Fits(t, b) && NearlyMatches(RowOf(t.balances, a), Compute(t, a))
    ensures NearlyMatches(RowOf(Stored(t, b).balances, a), Compute(Stored(t, b), a))
  {
    if a !in AfterSpends(t, b).deltas {
      UntouchedStays(t, b, a);
    } else {
      TouchedFigures(t, b, a);
    }
  }

  lemma StepKeepsNearly(t: Tables, step: Step)
    requires WellFormed(t) && NearlyAgrees(t)
    requires step.StoreBlock? && OutcomeOf(t, step.block, step.requireParent).Written? ==> Linked(t.blocks, step.block)
    ensures NearlyAgrees(Apply(t, step))
  {
    if step.StoreBlock? && OutcomeOf(t, step.block, step.requireParent).Written? {
      LinkedFits(t, step.block, step.requireParent);
    }
    forall a ensures NearlyMatches(RowOf(Apply(t, step).balances, a), Compute(Apply(t, step), a)) {
      assert NearlyMatches(RowOf(t.balances, a), Compute(t, a));
      match step {
        case StoreBlock(b, requireParent) =>
          if OutcomeOf(t, b, requireParent).Written? { PersistKeepsNearly(t, b, a); }
        case RollBack(fromHeight) => RollbackKeepsNearly(t, fromHeight, a);
        case Register(x) =>
      }
    }
  }

  lemma RollbackKeepsNearly(t: Tables, fromHeight: nat, a: Address)
    requires WellFormed(t) && NearlyMatches(RowOf(t.balances, a), Compute(t, a))
    ensures NearlyMatches(RowOf(RolledBack(t, fromHeight).balances, a), Compute(RolledBack(t, fromHeight), a))
  {
    if a in Affected(t.txs, t.utxos, GoneTxs(t.txs, GoneBlocks(t.blocks, fromHeight))) {
      RollbackMatches(t, fromHeight, a);
    } else {
      UntouchedComputes(t, fromHeight, a);
    }
  }

  lemma StepKeepsWellFormed(t: Tables, step: Step)
    requires WellFormed(t)
    requires step.StoreBlock? && OutcomeOf(t, step.block, step.requireParent).Written? ==> Linked(t.blocks, step.block)
    ensures WellFormed(Apply(t, step))
  {
    match step {
      case StoreBlock(b, requireParent) => PersistKeepsWellFormed(t, b, requireParent);
      case RollBack(fromHeight) => RollbackKeepsWellFormed(t, fromHeight);
      case Register(a) =>
    }
  }

  lemma StepKeepsAgreement(t: Tables, step: Step)
    requires WellFormed(t) && NoDust(t) && Agrees(t) && !step.Register?
    requires step.StoreBlock? && OutcomeOf(t, step.block, step.requireParent).Written? ==> Linked(t.blocks, step.block)
    ensures NoDust(Apply(t, step)) && Agrees(Apply(t, step))
  {
    StepKeepsNoDust(t, step);
    match step {
      case RollBack(fromHeight) => RollbackAgrees(t, fromHeight);
      case StoreBlock(b, requireParent) =>
        if OutcomeOf(t, b, requireParent).Written? {
          forall a ensures !Retained(t, a) { NothingRetained(t, a); }
          PersistAgrees(t, b, requireParent);
        }
    }
  }

  predicate NoRegistration(steps: seq<Step>) {
    forall i :: 0 <= i < |steps| ==> !steps[i].Register?
  }

  /**
   * In every state reached by storing linked blocks, rolling back and registering addresses for dust, the tables form
   * one chain and every balance row agrees with recomputing it, but for a first height of 0 on a registered row.
   * Without a registration a row exists exactly when recomputing gives one, with the same eight figures.
   */
  lemma {:induction false} RunAgrees(steps: seq<Step>)
    requires LinkedRun(steps)
    ensures WellFormed(Run(steps)) && NearlyAgrees(Run(steps))
    ensures NoRegistration(steps) ==> NoDust(Run(steps)) && Agrees(Run(steps)) && ExactRows(Run(steps))
  {
    if steps == [] {
      EmptyAgrees();
    } else {
      var t, step := Run(steps[..|steps| - 1]), steps[|steps| - 1];
      RunAgrees(steps[..|steps| - 1]);
      StepKeepsWellFormed(t, step);
      StepKeepsNearly(t, step);
      if NoRegistration(steps) { StepKeepsAgreement(t, step); }
    }
    if NoRegistration(steps) { RowsAreExact(Run(steps)); }
  }

  ghost predicate ExactRows(t: Tables) {
    forall a ::
      match Compute(t, a)
      case None => a !in t.balances
      case Some(f) => a in t.balances && t.balances[a].figures == f
  }

  lemma RowsAreExact(t: Tables)
    requires NoDust(t) && Agrees(t)
    ensures ExactRows(t)
  {
    forall a
      ensures match Compute(t, a)
        case None => a !in t.balances
        case Some(f) => a in t.balances && t.balances[a].figures == f
    {
      assert Matches(RowOf(t.balances, a), Compute(t, a)) && !DustOf(t, a);
    }
  }

  /** After any run, blocks stored from `fromHeight` upwards are undone by one rollback from there. */
  lemma RollbackAfterRun(steps: seq<Step>, stores: seq<Delivery>, fromHeight: nat)
    requires LinkedRun(steps)
    requires HeightsBelow(Run(steps).blocks, fromHeight) && AllFrom(stores, fromHeight)
    ensures var t, undone := Run(steps), RolledBack(StoreAll(Run(steps), stores), fromHeight);
      && undone == t.(balances := undone.balances, sync := t.sync.(reorgGeneration := t.sync.reorgGeneration + 1))
      && (NoRegistration(steps) ==> undone.balances == t.balances)
  {
    RunAgrees(steps);
    RollbackUndoesRows(Run(steps), stores, fromHeight);
    if NoRegistration(steps) { RollbackUndoesStoring(Run(steps), stores, fromHeight); }
  }

  /** A writer that comes second with the same block finds it stored and changes nothing, whatever it checks. */
  lemma SecondWriterChangesNothing(t: Tables, b: PreparedBlock, first: bool, second: bool)
    requires b.hash in HashesOf(PersistBlock(t, b, first).blocks)
    ensures PersistBlock(PersistBlock(t, b, first), b, second) == PersistBlock(t, b, first)
    ensures OutcomeOf(t, b, first).Written? && first ==> OutcomeOf(PersistBlock(t, b, first), b, second).Skipped?
  {
    if OutcomeOf(t, b, first).Written? {
      assert forall r :: r in t.blocks ==> r in Stored(t, b).blocks;
    }
  }

  // ---- Where incremental and recomputed figures part ------------------------

  /** One block at height 4, and a zeroed row that is registered for dust. */
  function ZeroedTables(a: Address): Tables {
    Tables([BlockRow(Hash(0), 4, None)], [], [], map[a := BalanceRow(ZEROED, true)], SyncState(4, Some(Hash(0)), 1))
  }

  /** The block at height 5 that creates one NIGHT output for `a`. */
  function CreditBlock(a: Address): PreparedBlock {
    PreparedBlock(Hash(1), 5, Hash(0),
      [Extrinsic([NewUtxo(OutRef(Hash(9), 0), a, Night, 5)], [], None, None, None)])
  }

  lemma ZeroedTablesAgree(a: Address)
    ensures WellFormed(ZeroedTables(a)) && Agrees(ZeroedTables(a))
  {
    var t := ZeroedTables(a);
    forall x ensures Matches(RowOf(t.balances, x), Compute(t, x)) {
      ComputeExists(t, x, Balance);
    }
  }

  lemma CreditBlockRows(a: Address)
    ensures CreatedRows(CreditBlock(a), 1) == [UtxoRow(OutRef(Hash(9), 0), a, Night, 5, TxId(Hash(1), 0), None)]
  {
    var b := CreditBlock(a);
    assert CreatedRows(b, 0) == [];
    assert CreatedBy(b, 0) == [CreatedRow(b.extrinsics[0].created[0], TxId(b.hash, 0))];
  }

  /**
   * A row registered for dust and zeroed by a rollback gets a first height of 0 from the next block, where
   * recomputing gives that block's height.
   */
  lemma ZeroedRowDrifts(a: Address)
    ensures var t, b := ZeroedTables(a), CreditBlock(a);
      && WellFormed(t) && Agrees(t)
      && OutcomeOf(t, b, true).Written? && Linked(t.blocks, b)
      && !Agrees(PersistBlock(t, b, true))
  {
    var t, b := ZeroedTables(a), CreditBlock(a);
    ZeroedTablesAgree(a);
    CreditBlockRows(a);
    assert t.blocks[0] in t.blocks;
    AfterSpendsShape(t, b, a);
    assert OwnsNight(CreatedRows(b, 1)[0], a);
    assert a in AfterSpends(t, b).deltas && Retained(t, a);
    PersistAgrees(t, b, true);
  }
}
