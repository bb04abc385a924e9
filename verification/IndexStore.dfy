/** The index as the crawler runs it: statements and loops over tables, proved against the specification. */
module IndexStore {
  import opened Wrappers
  import opened IndexTables
  import opened Persist
  import opened PersistProofs
  import opened Rollback
  import opened IndexRuns

  /** Intent hashes per spend lookup. */
  const SPEND_LOOKUP_CHUNK := 500

  // ---- Statements -----------------------------------------------------------

  function PickTxs(txs: seq<TxRow>, blocks: seq<Hash>): (rows: seq<TxRow>)
    ensures forall x :: x in rows <==> x in txs && x.id.block in blocks
  {
    if txs == [] then [] else
      var last := txs[|txs| - 1];
      assert txs == txs[..|txs| - 1] + [last];
      PickTxs(txs[..|txs| - 1], blocks) + if last.id.block in blocks then [last] else []
  }

  /** The rows the collected spends mark. */
  function MarkRow(u: UtxoRow, spentBy: map<OutRef, TxId>): UtxoRow {
    if u.ref in spentBy then u.(spentAt := Some(spentBy[u.ref])) else u
  }

  function Marked(utxos: seq<UtxoRow>, spentBy: map<OutRef, TxId>): seq<UtxoRow> {
    seq(|utxos|, i requires 0 <= i < |utxos| => MarkRow(utxos[i], spentBy))
  }

  /** Every row of `utxos` under its name, for the intent hashes looked up so far. */
  ghost predicate LookedUp(byKey: map<OutRef, UtxoRow>, utxos: seq<UtxoRow>, hashes: seq<Hash>) {
    && (forall i :: 0 <= i < |utxos| && utxos[i].ref.intentHash in hashes ==>
          utxos[i].ref in byKey && byKey[utxos[i].ref] == utxos[i])
    && (forall k :: k in byKey ==> exists i :: 0 <= i < |utxos| && utxos[i].ref == k)
  }

  method LookUp(utxos: seq<UtxoRow>, hashes: seq<Hash>) returns (byKey: map<OutRef, UtxoRow>)
    requires UniqueRefs(utxos)
    ensures LookedUp(byKey, utxos, hashes)
  {
    byKey := map[];
    var i := 0;
    while i < |hashes|
      invariant i <= |hashes| || i - SPEND_LOOKUP_CHUNK < |hashes| <= i
      invariant LookedUp(byKey, utxos, if i <= |hashes| then hashes[..i] else hashes)
    {
      var upTo := if i + SPEND_LOOKUP_CHUNK < |hashes| then i + SPEND_LOOKUP_CHUNK else |hashes|;
      var chunk := hashes[i..upTo];
      ghost var before := byKey;
      for k := 0 to |utxos|
        invariant forall j :: 0 <= j < k && utxos[j].ref.intentHash in chunk ==>
          utxos[j].ref in byKey && byKey[utxos[j].ref] == utxos[j]
        invariant LookedUp(byKey, utxos, hashes[..i])
      {
        if utxos[k].ref.intentHash in chunk {
          byKey := byKey[utxos[k].ref := utxos[k]];
        }
      }
      assert hashes[..upTo] == hashes[..i] + chunk;
      if upTo == |hashes| { assert hashes[..upTo] == hashes; }
      i := i + SPEND_LOOKUP_CHUNK;
    }
  }

  /** A spent NIGHT output leaves its owner's balance. */
  function Debited(deltas: Deltas, row: UtxoRow): Deltas {
    if !row.token.Night? then deltas else
      var d := DeltaFor(deltas, row.owner);
      deltas[row.owner := d.(balance := d.balance - row.value, utxoCount := d.utxoCount - 1)]
  }

  /** What one spend does, seen through the rows looked up before. */
  lemma SpendThroughLookup(utxos: seq<UtxoRow>, spentBy: map<OutRef, TxId>, s: SpendState, p: Spend)
    requires UniqueRefs(utxos) && s.utxos == Marked(utxos, spentBy)
    ensures (forall i :: 0 <= i < |utxos| ==> utxos[i].ref != p.ref) ==> ApplySpend(s, p) == s
    ensures forall i :: 0 <= i < |utxos| && utxos[i].ref == p.ref ==>
      var row := MarkRow(utxos[i], spentBy);
      ApplySpend(s, p) == (
        if row.spentAt.Some? then s
        else SpendState(Marked(utxos, spentBy[p.ref := p.spender]), Debited(s.deltas, row)))
  {
    var k := Find(s.utxos, p.ref);
    forall i | 0 <= i < |utxos| && utxos[i].ref == p.ref ensures k == i {
      assert s.utxos[i].ref == p.ref;
      if k < |utxos| { assert utxos[k].ref == utxos[i].ref; }
    }
    if k < |utxos| && MarkRow(utxos[k], spentBy).spentAt.None? {
      var after := Marked(utxos, spentBy[p.ref := p.spender]);
      forall j | 0 <= j < |utxos| ensures after[j] == ApplySpend(s, p).utxos[j] {
        if j != k { assert utxos[j].ref != utxos[k].ref; }
      }
      assert after == ApplySpend(s, p).utxos;
    }
  }

  method DistinctHashes(spends: seq<Spend>) returns (hashes: seq<Hash>)
    ensures forall k :: 0 <= k < |spends| ==> spends[k].ref.intentHash in hashes
  {
    hashes := [];
    for i := 0 to |spends|
      invariant forall k :: 0 <= k < i ==> spends[k].ref.intentHash in hashes
    {
      if spends[i].ref.intentHash !in hashes { hashes := hashes + [spends[i].ref.intentHash]; }
    }
  }

  /** The rows in memory are the table's rows with the spends so far. */
  ghost predicate InMemory(byKey: map<OutRef, UtxoRow>, utxos: seq<UtxoRow>, hashes: seq<Hash>, spentBy: map<OutRef, TxId>) {
    && (forall i :: 0 <= i < |utxos| && utxos[i].ref.intentHash in hashes ==>
          utxos[i].ref in byKey && byKey[utxos[i].ref] == MarkRow(utxos[i], spentBy))
    && (forall k :: k in byKey ==> exists i :: 0 <= i < |utxos| && utxos[i].ref == k)
  }

  lemma MarkInMemory(byKey: map<OutRef, UtxoRow>, utxos: seq<UtxoRow>, hashes: seq<Hash>, spentBy: map<OutRef, TxId>, p: Spend)
    requires InMemory(byKey, utxos, hashes, spentBy) && p.ref in byKey && p.ref.intentHash in hashes
    ensures InMemory(byKey[p.ref := byKey[p.ref].(spentAt := Some(p.spender))], utxos, hashes, spentBy[p.ref := p.spender])
  {
  }

  /** The spends of one block: rows are looked up once, marked in memory, and written back together. */
  method RunSpends(utxos: seq<UtxoRow>, spends: seq<Spend>, deltas: Deltas)
    returns (utxosOut: seq<UtxoRow>, deltasOut: Deltas)
    requires UniqueRefs(utxos)
    ensures SpendState(utxosOut, deltasOut) == ApplySpends(SpendState(utxos, deltas), spends)
  {
    var hashes := DistinctHashes(spends);
    var byKey := LookUp(utxos, hashes);
    var spentBy: map<OutRef, TxId> := map[];
    deltasOut := deltas;
    assert Marked(utxos, spentBy) == utxos;
    for i := 0 to |spends|
      invariant SpendState(Marked(utxos, spentBy), deltasOut) == ApplySpends(SpendState(utxos, deltas), spends[..i])
      invariant InMemory(byKey, utxos, hashes, spentBy)
    {
      var p := spends[i];
      assert spends[..i + 1][..i] == spends[..i];
      byKey, spentBy, deltasOut := SpendOne(byKey, utxos, hashes, spentBy, deltasOut, p);
    }
    assert spends[..|spends|] == spends;
    utxosOut := WriteSpends(utxos, spentBy);
  }

  method SpendOne(byKey: map<OutRef, UtxoRow>, ghost utxos: seq<UtxoRow>, ghost hashes: seq<Hash>,
                  spentBy: map<OutRef, TxId>, deltas: Deltas, p: Spend)
    returns (byKeyOut: map<OutRef, UtxoRow>, spentByOut: map<OutRef, TxId>, deltasOut: Deltas)
    requires UniqueRefs(utxos) && InMemory(byKey, utxos, hashes, spentBy) && p.ref.intentHash in hashes
    ensures InMemory(byKeyOut, utxos, hashes, spentByOut)
    ensures SpendState(Marked(utxos, spentByOut), deltasOut) == ApplySpend(SpendState(Marked(utxos, spentBy), deltas), p)
  {
    byKeyOut, spentByOut, deltasOut := byKey, spentBy, deltas;
    SpendThroughLookup(utxos, spentBy, SpendState(Marked(utxos, spentBy), deltas), p);
    if p.ref in byKey && byKey[p.ref].spentAt.None? {
      var row := byKey[p.ref];
      MarkInMemory(byKey, utxos, hashes, spentBy, p);
      byKeyOut := byKey[p.ref := row.(spentAt := Some(p.spender))];
      spentByOut := spentBy[p.ref := p.spender];
      deltasOut := Debited(deltas, row);
    }
  }

  /** One statement for each output to mark. */
  method WriteSpends(utxos: seq<UtxoRow>, spentBy: map<OutRef, TxId>) returns (after: seq<UtxoRow>)
    requires UniqueRefs(utxos)
    ensures after == Marked(utxos, spentBy)
  {
    after := utxos;
    var left := spentBy.Keys;
    while left != {}
      invariant left <= spentBy.Keys
      invariant |after| == |utxos|
      invariant forall i :: 0 <= i < |utxos| ==>
        after[i] == if utxos[i].ref in left then utxos[i] else MarkRow(utxos[i], spentBy)
      decreases left
    {
      var ref :| ref in left;
      after := Marked(after, map[ref := spentBy[ref]]);
      left := left - {ref};
    }
  }

  method WriteBalances(balances: map<Address, BalanceRow>, deltas: Deltas, height: nat)
    returns (after: map<Address, BalanceRow>)
    ensures after == MergeDeltas(balances, deltas, height)
  {
    after := balances;
    var left := deltas.Keys;
    while left != {}
      invariant left <= deltas.Keys
      invariant after.Keys == balances.Keys + (deltas.Keys - left)
      invariant forall a :: a in after ==>
        after[a] == if a in deltas && a !in left then ApplyBalanceDelta(RowOf(balances, a), deltas[a], height)
                    else balances[a]
      decreases left
    {
      var a :| a in left;
      after := after[a := ApplyBalanceDelta(RowOf(after, a), deltas[a], height)];
      left := left - {a};
    }
  }

  method CreditRow(deltas: Deltas, row: UtxoRow) returns (after: Deltas)
    ensures after == Credit(deltas, row)
  {
    after := deltas;
    if row.token.Night? {
      var d := DeltaFor(deltas, row.owner);
      after := deltas[row.owner := d.(balance := d.balance + row.value, utxoCount := d.utxoCount + 1,
                      totalReceived := d.totalReceived + row.value, txReceivedCount := d.txReceivedCount + 1)];
    }
  }

  /** The outputs one extrinsic creates, and what they add to the balances. */
  method CollectCreated(b: PreparedBlock, i: nat, deltas: Deltas) returns (rows: seq<UtxoRow>, after: Deltas)
    requires i < |b.extrinsics|
    ensures rows == CreatedBy(b, i) && after == CreditAll(deltas, CreatedBy(b, i))
  {
    var created := b.extrinsics[i].created;
    rows, after := [], deltas;
    for k := 0 to |created|
      invariant rows == CreatedBy(b, i)[..k] && after == CreditAll(deltas, CreatedBy(b, i)[..k])
    {
      var row := CreatedRow(created[k], TxId(b.hash, i));
      assert CreatedBy(b, i)[..k + 1] == CreatedBy(b, i)[..k] + [row];
      rows := rows + [row];
      after := CreditRow(after, row);
    }
    assert CreatedBy(b, i)[..|created|] == CreatedBy(b, i);
  }

  method CollectSpent(b: PreparedBlock, i: nat) returns (spends: seq<Spend>)
    requires i < |b.extrinsics|
    ensures spends == SpentBy(b, i)
  {
    spends := [];
    for k := 0 to |b.extrinsics[i].spent|
      invariant spends == SpentBy(b, i)[..k]
    {
      spends := spends + [Spend(b.extrinsics[i].spent[k], TxId(b.hash, i))];
    }
  }

  /** All rows of a block, its spends, and the balance deltas before the spends. */
  method CollectRows(b: PreparedBlock)
    returns (txRows: seq<TxRow>, utxoRows: seq<UtxoRow>, spends: seq<Spend>, deltas: Deltas)
    ensures txRows == TxRows(b, |b.extrinsics|) && utxoRows == CreatedRows(b, |b.extrinsics|)
    ensures spends == SpendsOf(b, |b.extrinsics|) && deltas == ExtrinsicDeltas(b, |b.extrinsics|)
  {
    txRows, utxoRows, spends, deltas := [], [], [], map[];
    for i := 0 to |b.extrinsics|
      invariant txRows == TxRows(b, i) && utxoRows == CreatedRows(b, i) && spends == SpendsOf(b, i)
      invariant deltas == ExtrinsicDeltas(b, i)
    {
      var e := b.extrinsics[i];
      txRows := txRows + [TxRow(TxId(b.hash, i), e.sender, e.receiver, e.nightAmount)];
      var created, credited := CollectCreated(b, i, deltas);
      utxoRows, deltas := utxoRows + created, credited;
      var spent := CollectSpent(b, i);
      spends := spends + spent;
      if e.sender.Some? && e.receiver.Some? && e.receiver != e.sender && Amount(e.nightAmount) > 0 {
        var d := DeltaFor(deltas, e.sender.value);
        deltas := deltas[e.sender.value := d.(totalSent := d.totalSent + Amount(e.nightAmount), txSentCount := d.txSentCount + 1)];
      }
    }
  }

  // ---- Lookups and deletes in chunks ----------------------------------------

  method HashList(blocks: seq<BlockRow>, fromHeight: nat) returns (hashes: seq<Hash>)
    ensures forall h :: h in hashes <==> h in GoneBlocks(blocks, fromHeight)
  {
    hashes := [];
    for i := 0 to |blocks|
      invariant forall h :: h in hashes <==> h in GoneBlocks(blocks[..i], fromHeight)
    {
      assert blocks[..i + 1] == blocks[..i] + [blocks[i]];
      if blocks[i].height >= fromHeight { hashes := hashes + [blocks[i].hash]; }
    }
    assert blocks[..|blocks|] == blocks;
  }

  /** The end of the chunk that starts at `i`. */
  function ChunkEnd(i: nat, chunk: nat, length: nat): (end: nat)
    requires i < length && chunk > 0
    ensures i < end <= length
  {
    if i + chunk < length then i + chunk else length
  }

  method SelectTxs(txs: seq<TxRow>, blockIds: seq<Hash>, chunk: nat) returns (rows: seq<TxRow>)
    requires chunk > 0
    ensures forall x :: x in rows <==> x in txs && x.id.block in blockIds
  {
    rows := [];
    var i := 0;
    while i < |blockIds|
      invariant i <= |blockIds|
      invariant forall x :: x in rows <==> x in txs && x.id.block in blockIds[..i]
    {
      var end := ChunkEnd(i, chunk, |blockIds|);
      rows := rows + PickTxs(txs, blockIds[i..end]);
      assert blockIds[..end] == blockIds[..i] + blockIds[i..end];
      i := end;
    }
    assert blockIds[..i] == blockIds;
  }

  method IdList(rows: seq<TxRow>) returns (ids: seq<TxId>)
    ensures |ids| == |rows| && forall i :: 0 <= i < |rows| ==> ids[i] == rows[i].id
    ensures forall id :: id in ids <==> id in IdsOf(rows)
  {
    ids := seq(|rows|, i requires 0 <= i < |rows| => rows[i].id);
    forall id ensures id in ids <==> id in IdsOf(rows) {
      if id in ids {
        var i :| 0 <= i < |ids| && ids[i] == id;
        assert rows[i] in rows;
      }
      if id in IdsOf(rows) {
        var i :| 0 <= i < |rows| && rows[i].id == id;
        assert ids[i] == id;
      }
    }
  }

  /** Owners of the outputs these transactions created or spent. */
  function OwnersOf(utxos: seq<UtxoRow>, ids: seq<TxId>): set<Address> {
    (set u | u in utxos && u.createdAt in ids :: u.owner) +
    (set u | u in utxos && u.spentAt.Some? && u.spentAt.value in ids :: u.owner)
  }

  method AffectedAddresses(txRows: seq<TxRow>, utxos: seq<UtxoRow>, txIds: seq<TxId>, chunk: nat)
    returns (affected: set<Address>)
    requires chunk > 0
    requires forall id :: id in txIds <==> id in IdsOf(txRows)
    ensures affected ==
      (set x | x in txRows && x.sender.Some? :: x.sender.value) +
      (set x | x in txRows && x.receiver.Some? :: x.receiver.value) +
      OwnersOf(utxos, txIds)
  {
    affected := {};
    for i := 0 to |txRows|
      invariant affected ==
        (set x | x in txRows[..i] && x.sender.Some? :: x.sender.value) +
        (set x | x in txRows[..i] && x.receiver.Some? :: x.receiver.value)
    {
      assert txRows[..i + 1] == txRows[..i] + [txRows[i]];
      if txRows[i].sender.Some? { affected := affected + {txRows[i].sender.value}; }
      if txRows[i].receiver.Some? { affected := affected + {txRows[i].receiver.value}; }
    }
    assert txRows[..|txRows|] == txRows;
    ghost var parties := affected;
    var i := 0;
    while i < |txIds|
      invariant i <= |txIds|
      invariant affected == parties + OwnersOf(utxos, txIds[..i])
    {
      var end := ChunkEnd(i, chunk, |txIds|);
      affected := affected + OwnersOf(utxos, txIds[i..end]);
      assert txIds[..end] == txIds[..i] + txIds[i..end];
      i := end;
    }
    assert txIds[..i] == txIds;
  }

  /** The transactions of the removed blocks and the addresses they touch, before anything is deleted. */
  method CollectAffected(txs: seq<TxRow>, utxos: seq<UtxoRow>, blockIds: seq<Hash>, chunk: nat)
    returns (txIds: seq<TxId>, affected: set<Address>)
    requires chunk > 0
    ensures IdSet(txIds) == GoneTxs(txs, HashSet(blockIds))
    ensures affected == Affected(txs, utxos, IdSet(txIds))
  {
    var txRows := SelectTxs(txs, blockIds, chunk);
    txIds := IdList(txRows);
    affected := AffectedAddresses(txRows, utxos, txIds, chunk);
    assert forall x :: x in txs ==> (x in txRows <==> x.id in IdSet(txIds));
  }

  function RecomputedIf(affected: bool, row: Option<BalanceRow>, computed: Option<Figures>): Option<BalanceRow> {
    if affected then RecomputedRow(row, computed) else row
  }

  /** Rows recomputed one address at a time are the recomputed table. */
  lemma RowsRecomputed(before: Tables, after: Tables, affected: set<Address>)
    requires forall x ::
      RowOf(after.balances, x) == RecomputedIf(x in affected, RowOf(before.balances, x), Compute(after, x))
    ensures after.balances == RecomputedBalances(before, after.blocks, after.txs, after.utxos, affected)
  {
    SameRows(after.balances, RecomputedBalances(before, after.blocks, after.txs, after.utxos, affected));
  }

  function IdSet(ids: seq<TxId>): set<TxId> { set id | id in ids }

  function HashSet(hashes: seq<Hash>): set<Hash> { set h | h in hashes }

  /** The rows left, the rows recomputed over them, and the tip reset to the fork are the whole rollback. */
  lemma RollbackAssembled(before: Tables, fromHeight: nat, gone: set<Hash>, ids: set<TxId>, after: Tables)
    requires gone == GoneBlocks(before.blocks, fromHeight) && gone != {}
    requires ids == GoneTxs(before.txs, gone)
    requires after.blocks == KeepBlocks(before.blocks, gone) && after.txs == KeepTxs(before.txs, gone)
    requires after.utxos == RemainingUtxos(before.utxos, ids)
    requires after.balances ==
      RecomputedBalances(before, after.blocks, after.txs, after.utxos, Affected(before.txs, before.utxos, ids))
    requires after.sync == SyncAt(ForkBlock(after.blocks), before.sync.reorgGeneration + 1)
    ensures after == RolledBack(before, fromHeight)
  {
    SyncAtFork(before.sync, after.blocks);
  }

  /** The height and the hash of the tip, read off the fork block. */
  function SyncAt(fork: Option<BlockRow>, generation: nat): SyncState {
    SyncState(if fork.Some? then fork.value.height else 0, if fork.Some? then Some(fork.value.hash) else None, generation)
  }

  lemma SyncAtFork(sync: SyncState, blocks: seq<BlockRow>)
    ensures SyncAt(ForkBlock(blocks), sync.reorgGeneration + 1) == SyncAfter(sync, blocks)
  {
  }

  lemma {:induction false} KeepUtxosTwice(utxos: seq<UtxoRow>, p: set<TxId>, q: set<TxId>)
    ensures KeepUtxos(KeepUtxos(utxos, p), q) == KeepUtxos(utxos, p + q)
  {
    if utxos != [] {
      var init, last := utxos[..|utxos| - 1], utxos[|utxos| - 1];
      KeepUtxosTwice(init, p, q);
      var kept := KeepUtxos(init, p);
      if last.createdAt in p {
        assert KeepUtxos(utxos, p) == kept;
      } else {
        assert (kept + [last])[..|kept|] == kept;
      }
    }
  }

  lemma {:induction false} KeepTxsTwice(txs: seq<TxRow>, p: set<Hash>, q: set<Hash>)
    ensures KeepTxs(KeepTxs(txs, p), q) == KeepTxs(txs, p + q)
  {
    if txs != [] {
      var init, last := txs[..|txs| - 1], txs[|txs| - 1];
      KeepTxsTwice(init, p, q);
      var kept := KeepTxs(init, p);
      if last.id.block in p {
        assert KeepTxs(txs, p) == kept;
      } else {
        assert (kept + [last])[..|kept|] == kept;
      }
    }
  }

  lemma {:induction false} KeepBlocksTwice(blocks: seq<BlockRow>, p: set<Hash>, q: set<Hash>)
    ensures KeepBlocks(KeepBlocks(blocks, p), q) == KeepBlocks(blocks, p + q)
  {
    if blocks != [] {
      var init, last := blocks[..|blocks| - 1], blocks[|blocks| - 1];
      KeepBlocksTwice(init, p, q);
      var kept := KeepBlocks(init, p);
      if last.hash in p {
        assert KeepBlocks(blocks, p) == kept;
      } else {
        assert (kept + [last])[..|kept|] == kept;
      }
    }
  }

  lemma {:induction false} NothingToDelete(utxos: seq<UtxoRow>)
    ensures RemainingUtxos(utxos, {}) == utxos && KeepUtxos(utxos, {}) == utxos
  {
    KeepUtxosPrefix(utxos, {}, |utxos|);
  }

  method DeleteCreated(utxos: seq<UtxoRow>, txIds: seq<TxId>, chunk: nat) returns (after: seq<UtxoRow>)
    requires chunk > 0
    ensures after == KeepUtxos(utxos, IdSet(txIds))
  {
    after := utxos;
    NothingToDelete(utxos);
    assert IdSet(txIds[..0]) == {};
    var i := 0;
    while i < |txIds|
      invariant i <= |txIds| && after == KeepUtxos(utxos, IdSet(txIds[..i]))
    {
      var end := ChunkEnd(i, chunk, |txIds|);
      KeepUtxosTwice(utxos, IdSet(txIds[..i]), IdSet(txIds[i..end]));
      after := KeepUtxos(after, IdSet(txIds[i..end]));
      assert txIds[..end] == txIds[..i] + txIds[i..end];
      assert IdSet(txIds[..end]) == IdSet(txIds[..i]) + IdSet(txIds[i..end]);
      i := end;
    }
    assert txIds[..i] == txIds;
  }

  /** Runs after all deletes: a spend in one chunk may point at an output created in another. */
  method ClearSpent(utxos: seq<UtxoRow>, txIds: seq<TxId>, chunk: nat) returns (after: seq<UtxoRow>)
    requires chunk > 0
    ensures after == Unspend(utxos, IdSet(txIds))
  {
    after := utxos;
    assert Unspend(utxos, {}) == utxos;
    var i := 0;
    while i < |txIds|
      invariant i <= |txIds| && after == Unspend(utxos, IdSet(txIds[..i]))
    {
      var end := ChunkEnd(i, chunk, |txIds|);
      after := Unspend(after, IdSet(txIds[i..end]));
      assert txIds[..end] == txIds[..i] + txIds[i..end];
      assert IdSet(txIds[..end]) == IdSet(txIds[..i]) + IdSet(txIds[i..end]);
      i := end;
    }
    assert txIds[..i] == txIds;
  }

  method DeleteBlocks(txs: seq<TxRow>, blocks: seq<BlockRow>, blockIds: seq<Hash>, chunk: nat)
    returns (txsAfter: seq<TxRow>, blocksAfter: seq<BlockRow>)
    requires chunk > 0
    ensures txsAfter == KeepTxs(txs, HashSet(blockIds)) && blocksAfter == KeepBlocks(blocks, HashSet(blockIds))
  {
    txsAfter, blocksAfter := txs, blocks;
    KeepTxsPrefix(txs, {}, |txs|);
    KeepBlocksPrefix(blocks, {}, |blocks|);
    assert HashSet(blockIds[..0]) == {};
    var i := 0;
    while i < |blockIds|
      invariant i <= |blockIds|
      invariant txsAfter == KeepTxs(txs, HashSet(blockIds[..i])) && blocksAfter == KeepBlocks(blocks, HashSet(blockIds[..i]))
    {
      var end := ChunkEnd(i, chunk, |blockIds|);
      KeepTxsTwice(txs, HashSet(blockIds[..i]), HashSet(blockIds[i..end]));
      KeepBlocksTwice(blocks, HashSet(blockIds[..i]), HashSet(blockIds[i..end]));
      txsAfter := KeepTxs(txsAfter, HashSet(blockIds[i..end]));
      blocksAfter := KeepBlocks(blocksAfter, HashSet(blockIds[i..end]));
      assert blockIds[..end] == blockIds[..i] + blockIds[i..end];
      assert HashSet(blockIds[..end]) == HashSet(blockIds[..i]) + HashSet(blockIds[i..end]);
      i := end;
    }
    assert blockIds[..i] == blockIds;
  }

  method DeleteRows(txs: seq<TxRow>, utxos: seq<UtxoRow>, blocks: seq<BlockRow>, txIds: seq<TxId>, blockIds: seq<Hash>, chunk: nat)
    returns (txsAfter: seq<TxRow>, utxosAfter: seq<UtxoRow>, blocksAfter: seq<BlockRow>)
    requires chunk > 0
    ensures txsAfter == KeepTxs(txs, HashSet(blockIds)) && blocksAfter == KeepBlocks(blocks, HashSet(blockIds))
    ensures utxosAfter == RemainingUtxos(utxos, IdSet(txIds))
  {
    utxosAfter := utxos;
    if txIds != [] {
      utxosAfter := DeleteCreated(utxos, txIds, chunk);
      utxosAfter := ClearSpent(utxosAfter, txIds, chunk);
    } else {
      NothingToDelete(utxos);
      assert IdSet(txIds) == {};
      assert Unspend(utxos, {}) == utxos;
    }
    txsAfter, blocksAfter := DeleteBlocks(txs, blocks, blockIds, chunk);
  }

  method SelectForkBlock(blocks: seq<BlockRow>) returns (fork: Option<BlockRow>)
    ensures fork == ForkBlock(blocks)
  {
    fork := None;
    for i := 0 to |blocks|
      invariant fork == ForkBlock(blocks[..i])
    {
      assert blocks[..i + 1][..i] == blocks[..i];
      if fork.None? || blocks[i].height > fork.value.height { fork := Some(blocks[i]); }
    }
    assert blocks[..|blocks|] == blocks;
  }

  // ---- Recomputing one address ----------------------------------------------

  method SumRows(utxos: seq<UtxoRow>, txs: seq<TxRow>, a: Address) returns (c: Counters)
    ensures c == CountersOf(utxos, txs, a)
  {
    var balance, utxoCount, received, totalReceived := 0, 0, 0, 0;
    for i := 0 to |utxos|
      invariant balance == UtxoTotal(utxos[..i], a, Balance) && utxoCount == UtxoTotal(utxos[..i], a, UtxoCount)
      invariant received == UtxoTotal(utxos[..i], a, TxReceivedCount) && totalReceived == UtxoTotal(utxos[..i], a, TotalReceived)
      invariant UtxoTotal(utxos[..i], a, TxSentCount) == 0 && UtxoTotal(utxos[..i], a, TotalSent) == 0
    {
      assert utxos[..i + 1][..i] == utxos[..i];
      var u := utxos[i];
      if OwnsNight(u, a) {
        received, totalReceived := received + 1, totalReceived + u.value;
        if u.spentAt.None? { balance, utxoCount := balance + u.value, utxoCount + 1; }
      }
    }
    var sent, totalSent := 0, 0;
    for i := 0 to |txs|
      invariant sent == TxTotal(txs[..i], a, TxSentCount) && totalSent == TxTotal(txs[..i], a, TotalSent)
      invariant forall f :: f != TxSentCount && f != TotalSent ==> TxTotal(txs[..i], a, f) == 0
    {
      assert txs[..i + 1][..i] == txs[..i];
      if SentBy(txs[i], a) { sent, totalSent := sent + 1, totalSent + Amount(txs[i].nightAmount); }
    }
    assert utxos[..|utxos|] == utxos && txs[..|txs|] == txs;
    c := Counters(balance, utxoCount, received, totalReceived, sent, totalSent);
  }

  /** The blocks of the activity, without repeats, from transactions looked up in chunks. */
  method ActiveBlockList(utxos: seq<UtxoRow>, txs: seq<TxRow>, a: Address, chunk: nat) returns (hashes: seq<Hash>)
    requires chunk > 0
    ensures forall h :: h in hashes <==> h in ActiveBlocks(utxos, txs, a)
  {
    var activity: seq<TxId> := [];
    for i := 0 to |utxos|
      invariant forall id :: id in activity <==> id in ActivityTxs(utxos[..i], a)
    {
      assert utxos[..i + 1] == utxos[..i] + [utxos[i]];
      if OwnsNight(utxos[i], a) {
        if utxos[i].createdAt !in activity { activity := activity + [utxos[i].createdAt]; }
        if utxos[i].spentAt.Some? && utxos[i].spentAt.value !in activity { activity := activity + [utxos[i].spentAt.value]; }
      }
    }
    assert utxos[..|utxos|] == utxos;
    hashes := [];
    var i := 0;
    while i < |activity|
      invariant i <= |activity|
      invariant forall h :: h in hashes <==> exists x :: x in txs && x.id in activity[..i] && x.id.block == h
    {
      var end := ChunkEnd(i, chunk, |activity|);
      var found := BlocksOfTxs(txs, activity[i..end]);
      hashes := hashes + found;
      assert activity[..end] == activity[..i] + activity[i..end];
      i := end;
    }
    assert activity[..i] == activity;
    var sent := BlocksOfSent(txs, a);
    hashes := hashes + sent;
  }

  method BlocksOfTxs(txs: seq<TxRow>, ids: seq<TxId>) returns (hashes: seq<Hash>)
    ensures forall h :: h in hashes <==> exists x :: x in txs && x.id in ids && x.id.block == h
  {
    hashes := [];
    for i := 0 to |txs|
      invariant forall h :: h in hashes <==> exists x :: x in txs[..i] && x.id in ids && x.id.block == h
    {
      assert txs[..i + 1] == txs[..i] + [txs[i]];
      if txs[i].id in ids { hashes := hashes + [txs[i].id.block]; }
    }
    assert txs[..|txs|] == txs;
  }

  method BlocksOfSent(txs: seq<TxRow>, a: Address) returns (hashes: seq<Hash>)
    ensures forall h :: h in hashes <==> exists x :: x in txs && SentBy(x, a) && x.id.block == h
  {
    hashes := [];
    for i := 0 to |txs|
      invariant forall h :: h in hashes <==> exists x :: x in txs[..i] && SentBy(x, a) && x.id.block == h
    {
      assert txs[..i + 1] == txs[..i] + [txs[i]];
      if SentBy(txs[i], a) { hashes := hashes + [txs[i].id.block]; }
    }
    assert txs[..|txs|] == txs;
  }

  method LookUpHeights(blocks: seq<BlockRow>, hashes: seq<Hash>, chunk: nat) returns (heights: seq<nat>)
    requires chunk > 0
    ensures forall h :: h in heights <==> exists b :: b in blocks && b.hash in hashes && b.height == h
  {
    heights := [];
    var i := 0;
    while i < |hashes|
      invariant i <= |hashes|
      invariant forall h :: h in heights <==> exists b :: b in blocks && b.hash in hashes[..i] && b.height == h
    {
      var end := ChunkEnd(i, chunk, |hashes|);
      var part := HashSet(hashes[i..end]);
      HeightsMembers(blocks, part);
      heights := heights + HeightsOf(blocks, part);
      assert hashes[..end] == hashes[..i] + hashes[i..end];
      i := end;
    }
    assert hashes[..i] == hashes;
  }

  method Bounds(heights: seq<nat>) returns (lowest: Option<nat>, highest: Option<nat>)
    ensures lowest == Lowest(heights) && highest == Highest(heights)
  {
    lowest, highest := None, None;
    for i := 0 to |heights|
      invariant lowest == Lowest(heights[..i]) && highest == Highest(heights[..i])
    {
      assert heights[..i + 1][..i] == heights[..i];
      if lowest.None? || heights[i] < lowest.value { lowest := Some(heights[i]); }
      if highest.None? || heights[i] > highest.value { highest := Some(heights[i]); }
    }
    assert heights[..|heights|] == heights;
  }

  lemma SameMembersSameBounds(x: seq<nat>, y: seq<nat>)
    requires forall h :: h in x <==> h in y
    ensures Lowest(x) == Lowest(y) && Highest(x) == Highest(y)
  {
    LowestHighest(x);
    LowestHighest(y);
    if x != [] { assert x[0] in y; }
    if y != [] { assert y[0] in x; }
  }

  class Index {
    var blocks: seq<BlockRow>
    var txs: seq<TxRow>
    var utxos: seq<UtxoRow>
    var balances: map<Address, BalanceRow>
    var sync: SyncState

    constructor ()
      ensures State() == EMPTY
    {
      blocks, txs, utxos, balances, sync := [], [], [], map[], SyncState(0, None, 0);
    }

    function State(): Tables
      reads this
    {
      Tables(blocks, txs, utxos, balances, sync)
    }

    /** Stores one prepared block in one transaction. A failed transaction leaves the tables unchanged. */
    method PersistFromNode(b: PreparedBlock, requireParent: bool) returns (outcome: Outcome)
      modifies this
      ensures outcome == OutcomeOf(old(State()), b, requireParent)
      ensures State() == PersistBlock(old(State()), b, requireParent)
    {
      var parentStored := b.parentHash in HashesOf(blocks);
      if requireParent && b.height > 0 && !parentStored {
        return OrphanBlock;
      }
      if b.hash in HashesOf(blocks) {
        return Skipped;
      }
      if HeightStored(blocks, b.height) {
        return UniqueViolation;
      }
      var txRows, utxoRows, spends, deltas := CollectRows(b);
      if !UniqueRefs(utxos + utxoRows) {
        return UniqueViolation;
      }
      var utxosAfter, deltasAfter := RunSpends(utxos + utxoRows, spends, deltas);
      var balancesAfter := WriteBalances(balances, deltasAfter, b.height);
      blocks := blocks + [BlockRow(b.hash, b.height, if parentStored then Some(b.parentHash) else None)];
      txs := txs + txRows;
      utxos := utxosAfter;
      balances := balancesAfter;
      sync := sync.(lastIndexedHeight := b.height, lastIndexedHash := Some(b.hash));
      outcome := Written;
    }

    /** One address, from the rows. Transactions and blocks are looked up `chunk` identifiers at a time. */
    method ComputeNightBalance(a: Address, chunk: nat) returns (figures: Option<Figures>)
      requires chunk > 0
      ensures figures == Compute(State(), a)
    {
      var counters := SumRows(utxos, txs, a);
      if counters.txReceivedCount == 0 && counters.txSentCount == 0 {
        return None;
      }
      var hashes := ActiveBlockList(utxos, txs, a, chunk);
      var heights := LookUpHeights(blocks, hashes, chunk);
      SameMembersSameBounds(heights, HeightsOf(blocks, ActiveBlocks(utxos, txs, a))) by {
        HeightsMembers(blocks, ActiveBlocks(utxos, txs, a));
      }
      var lowest, highest := Bounds(heights);
      figures := Some(Figures(counters, lowest, highest));
    }

    /** Recomputes the row of one address from the rows left. */
    method RecomputeNightBalance(a: Address, chunk: nat)
      requires chunk > 0
      modifies this`balances
      ensures forall x :: RowOf(balances, x) == RecomputedIf(x == a, RowOf(old(balances), x), Compute(old(State()), x))
    {
      var figures := ComputeNightBalance(a, chunk);
      match figures {
        case Some(f) =>
          balances := balances[a := BalanceRow(f, a in balances && balances[a].dust)];
        case None =>
          if a in balances {
            if balances[a].dust {
              balances := balances[a := BalanceRow(ZEROED, true)];
            } else {
              balances := map x | x in balances && x != a :: balances[x];
            }
          }
      }
    }

    /** Deletes everything indexed from `fromHeight` upwards, `chunk` identifiers per statement. */
    method RollbackIndexedData(fromHeight: nat, chunk: nat)
      requires chunk > 0
      modifies this
      ensures State() == RolledBack(old(State()), fromHeight)
    {
      sync := sync.(reorgGeneration := sync.reorgGeneration + 1);
      var blockIds := HashList(blocks, fromHeight);
      assert HashSet(blockIds) == GoneBlocks(blocks, fromHeight);
      if blockIds != [] {
        assert blockIds[0] in GoneBlocks(blocks, fromHeight);
        ghost var before := old(State());
        ghost var ids, affected := RemoveBlocks(blockIds, chunk);
        ResetToFork();
        RollbackAssembled(before, fromHeight, HashSet(blockIds), ids, State());
      } else {
        assert GoneBlocks(blocks, fromHeight) == {};
      }
    }

    /** Deletes the given blocks with all that hangs on them, and repairs the balances of every address they touched. */
    method RemoveBlocks(blockIds: seq<Hash>, chunk: nat) returns (ghost ids: set<TxId>, ghost affected: set<Address>)
      requires chunk > 0
      modifies this`blocks, this`txs, this`utxos, this`balances
      ensures ids == GoneTxs(old(txs), HashSet(blockIds)) && affected == Affected(old(txs), old(utxos), ids)
      ensures blocks == KeepBlocks(old(blocks), HashSet(blockIds)) && txs == KeepTxs(old(txs), HashSet(blockIds))
      ensures utxos == RemainingUtxos(old(utxos), ids)
      ensures balances == RecomputedBalances(old(State()), blocks, txs, utxos, affected)
    {
      ghost var before := State();
      var txIds, touched := CollectAffected(txs, utxos, blockIds, chunk);
      txs, utxos, blocks := DeleteRows(txs, utxos, blocks, txIds, blockIds, chunk);
      ids, affected := IdSet(txIds), touched;
      RecomputeAll(touched, chunk);
      RowsRecomputed(before, State(), affected);
    }

    /** The remaining block with the greatest height becomes the tip. */
    method ResetToFork()
      modifies this`sync
      ensures sync == SyncAt(ForkBlock(blocks), old(sync).reorgGeneration)
    {
      var fork := SelectForkBlock(blocks);
      sync := SyncAt(fork, sync.reorgGeneration);
    }

    method RecomputeAll(affected: set<Address>, chunk: nat)
      requires chunk > 0
      modifies this`balances
      ensures forall x ::
        RowOf(balances, x) == RecomputedIf(x in affected, RowOf(old(balances), x), Compute(old(State()), x))
    {
      var left := affected;
      while left != {}
        invariant left <= affected
        invariant forall x ::
          RowOf(balances, x) == RecomputedIf(x in affected - left, RowOf(old(balances), x), Compute(old(State()), x))
        decreases left
      {
        var a :| a in left;
        ghost var now := State();
        assert Compute(now, a) == Compute(old(State()), a);
        RecomputeNightBalance(a, chunk);
        left := left - {a};
      }
    }
  }
}
