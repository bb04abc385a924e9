/** The incremental balances agree with recomputation: what storing one block keeps. */
module PersistProofs {
  import opened Wrappers
  import opened IndexTables
  import opened Persist

  // ---- Deltas are differences of totals -------------------------------------

  lemma {:induction false} CreditedTotals(deltas: Deltas, rows: seq<UtxoRow>, a: Address, f: Figure)
    requires forall i :: 0 <= i < |rows| ==> rows[i].spentAt.None?
    ensures DeltaFor(CreditAll(deltas, rows), a).At(f) == DeltaFor(deltas, a).At(f) + UtxoTotal(rows, a, f)
    ensures a in CreditAll(deltas, rows) <==> a in deltas || OwnsAny(rows, a)
  {
    if rows != [] {
      var init := rows[..|rows| - 1];
      CreditedTotals(deltas, init, a, f);
      assert forall i :: 0 <= i < |init| ==> init[i] == rows[i];
    }
  }

  lemma DebitedTotals(deltas: Deltas, x: TxRow, a: Address, f: Figure)
    ensures DeltaFor(DebitSender(deltas, x), a).At(f) == DeltaFor(deltas, a).At(f) + TxShare(x, a, f)
    ensures a in DebitSender(deltas, x) <==> a in deltas || SentBy(x, a)
  {
  }

  lemma {:induction false} ExtrinsicTotals(b: PreparedBlock, n: nat, a: Address, f: Figure)
    requires n <= |b.extrinsics|
    ensures DeltaFor(ExtrinsicDeltas(b, n), a).At(f) == UtxoTotal(CreatedRows(b, n), a, f) + TxTotal(TxRows(b, n), a, f)
    ensures a in ExtrinsicDeltas(b, n) <==> OwnsAny(CreatedRows(b, n), a) || SentAny(TxRows(b, n), a)
  {
    if n > 0 {
      ExtrinsicTotals(b, n - 1, a, f);
      var before, created, x := ExtrinsicDeltas(b, n - 1), CreatedBy(b, n - 1), TxRowOf(b, n - 1);
      CreditedTotals(before, created, a, f);
      DebitedTotals(CreditAll(before, created), x, a, f);
      UtxoTotalConcat(CreatedRows(b, n - 1), created, a, f);
      OwnsConcat(CreatedRows(b, n - 1), created, a);
      TxPush(b, n, a, f);
    }
  }

  lemma TxPush(b: PreparedBlock, n: nat, a: Address, f: Figure)
    requires 0 < n <= |b.extrinsics|
    ensures TxTotal(TxRows(b, n), a, f) == TxTotal(TxRows(b, n - 1), a, f) + TxShare(TxRowOf(b, n - 1), a, f)
    ensures SentAny(TxRows(b, n), a) <==> SentAny(TxRows(b, n - 1), a) || SentBy(TxRowOf(b, n - 1), a)
  {
    var x := TxRowOf(b, n - 1);
    assert TxRows(b, n)[..n - 1] == TxRows(b, n - 1);
    assert TxRows(b, n) == TxRows(b, n - 1) + [x];
    SentConcat(TxRows(b, n - 1), [x], a);
    assert SentAny([x], a) <==> SentBy(x, a) by { assert [x][0] == x; }
  }

  lemma OwnsConcat(x: seq<UtxoRow>, y: seq<UtxoRow>, a: Address)
    ensures OwnsAny(x + y, a) <==> OwnsAny(x, a) || OwnsAny(y, a)
  {
    assert forall i :: 0 <= i < |x| ==> (x + y)[i] == x[i];
    assert forall i :: 0 <= i < |y| ==> (x + y)[|x| + i] == y[i];
  }

  lemma SentConcat(x: seq<TxRow>, y: seq<TxRow>, a: Address)
    ensures SentAny(x + y, a) <==> SentAny(x, a) || SentAny(y, a)
  {
    assert forall i :: 0 <= i < |x| ==> (x + y)[i] == x[i];
    assert forall i :: 0 <= i < |y| ==> (x + y)[|x| + i] == y[i];
  }

  // ---- Spends ---------------------------------------------------------------

  /** `after` differs from `before` only in outputs that one of `ids` now spends. */
  predicate SpentMore(before: seq<UtxoRow>, after: seq<UtxoRow>, ids: set<TxId>) {
    && |before| == |after|
    && forall i :: 0 <= i < |before| ==>
         || after[i] == before[i]
         || (before[i].spentAt.None? && after[i].spentAt.Some? && after[i].spentAt.value in ids &&
             after[i] == before[i].(spentAt := after[i].spentAt))
  }

  predicate NewlySpent(before: seq<UtxoRow>, after: seq<UtxoRow>, a: Address)
    requires |before| == |after|
  {
    exists i :: 0 <= i < |before| && OwnsNight(before[i], a) && after[i] != before[i]
  }

  lemma {:induction false} SpendTotals(s: SpendState, spends: seq<Spend>, ids: set<TxId>, a: Address, f: Figure)
    requires forall k :: 0 <= k < |spends| ==> spends[k].spender in ids
    ensures var after := ApplySpends(s, spends);
      && SpentMore(s.utxos, after.utxos, ids)
      && DeltaFor(after.deltas, a).At(f) - DeltaFor(s.deltas, a).At(f) ==
           UtxoTotal(after.utxos, a, f) - UtxoTotal(s.utxos, a, f)
      && (a in after.deltas <==> a in s.deltas || NewlySpent(s.utxos, after.utxos, a))
  {
    if spends != [] {
      var init, p := spends[..|spends| - 1], spends[|spends| - 1];
      SpendTotals(s, init, ids, a, f);
      OneSpendTotals(s, ApplySpends(s, init), p, ids, a, f);
    }
  }

  lemma OneSpendTotals(s: SpendState, mid: SpendState, p: Spend, ids: set<TxId>, a: Address, f: Figure)
    requires SpentMore(s.utxos, mid.utxos, ids) && p.spender in ids
    requires a in mid.deltas <==> a in s.deltas || NewlySpent(s.utxos, mid.utxos, a)
    ensures var after := ApplySpend(mid, p);
      && SpentMore(s.utxos, after.utxos, ids)
      && DeltaFor(after.deltas, a).At(f) - DeltaFor(mid.deltas, a).At(f) ==
           UtxoTotal(after.utxos, a, f) - UtxoTotal(mid.utxos, a, f)
      && (a in after.deltas <==> a in s.deltas || NewlySpent(s.utxos, after.utxos, a))
  {
    var i := Find(mid.utxos, p.ref);
    if i < |mid.utxos| && mid.utxos[i].spentAt.None? {
      var row := mid.utxos[i];
      var after := ApplySpend(mid, p).utxos;
      UtxoTotalUpdate(mid.utxos, i, row.(spentAt := Some(p.spender)), a, f);
      assert after == mid.utxos[i := row.(spentAt := Some(p.spender))];
      assert s.utxos[i] == row;
      assert forall k :: 0 <= k < |after| && k != i ==> after[k] == mid.utxos[k];
      assert NewlySpent(s.utxos, after, a) <==> NewlySpent(s.utxos, mid.utxos, a) || OwnsNight(row, a) by {
        if OwnsNight(row, a) { assert after[i] != s.utxos[i]; }
        if k :| 0 <= k < |after| && OwnsNight(s.utxos[k], a) && mid.utxos[k] != s.utxos[k] {
          assert k != i && after[k] != s.utxos[k];
        }
      }
    }
  }

  lemma {:induction false} SpendersInBlock(b: PreparedBlock, n: nat)
    requires n <= |b.extrinsics|
    ensures forall k :: 0 <= k < |SpendsOf(b, n)| ==> SpendsOf(b, n)[k].spender in IdsOf(TxRows(b, |b.extrinsics|))
  {
    if n > 0 {
      SpendersInBlock(b, n - 1);
      var rows := TxRows(b, |b.extrinsics|);
      assert rows[n - 1] in rows && rows[n - 1].id == TxId(b.hash, n - 1);
    }
  }

  lemma {:induction false} CreatorsInBlock(b: PreparedBlock, n: nat)
    requires n <= |b.extrinsics|
    ensures forall k :: 0 <= k < |CreatedRows(b, n)| ==>
      CreatedRows(b, n)[k].createdAt in IdsOf(TxRows(b, |b.extrinsics|)) && CreatedRows(b, n)[k].spentAt.None?
  {
    if n > 0 {
      CreatorsInBlock(b, n - 1);
      var rows := TxRows(b, |b.extrinsics|);
      assert rows[n - 1] in rows && rows[n - 1].id == TxId(b.hash, n - 1);
    }
  }

  /** Storing a block changes each additive figure of an address by its delta. */
  lemma BlockTotals(t: Tables, b: PreparedBlock, a: Address, f: Figure)
    ensures var after := AfterSpends(t, b);
      Counter(after.utxos, t.txs + TxRows(b, |b.extrinsics|), a, f) ==
        Counter(t.utxos, t.txs, a, f) + DeltaFor(after.deltas, a).At(f)
  {
    var n := |b.extrinsics|;
    var start := SpendState(t.utxos + CreatedRows(b, n), ExtrinsicDeltas(b, n));
    ExtrinsicTotals(b, n, a, f);
    SpendersInBlock(b, n);
    SpendTotals(start, SpendsOf(b, n), IdsOf(TxRows(b, n)), a, f);
    UtxoTotalConcat(t.utxos, CreatedRows(b, n), a, f);
    TxTotalConcat(t.txs, TxRows(b, n), a, f);
  }

  // ---- Activity -------------------------------------------------------------

  /** The outputs before the spends of `b`. */
  function BeforeSpends(t: Tables, b: PreparedBlock): seq<UtxoRow> {
    t.utxos + CreatedRows(b, |b.extrinsics|)
  }

  function NewIds(b: PreparedBlock): (ids: set<TxId>)
    ensures forall id :: id in ids ==> id.block == b.hash
  {
    IdsOf(TxRows(b, |b.extrinsics|))
  }

  lemma AfterSpendsShape(t: Tables, b: PreparedBlock, a: Address)
    ensures SpentMore(BeforeSpends(t, b), AfterSpends(t, b).utxos, NewIds(b))
    ensures a in AfterSpends(t, b).deltas <==>
      || OwnsAny(CreatedRows(b, |b.extrinsics|), a)
      || SentAny(TxRows(b, |b.extrinsics|), a)
      || NewlySpent(BeforeSpends(t, b), AfterSpends(t, b).utxos, a)
  {
    var n := |b.extrinsics|;
    ExtrinsicTotals(b, n, a, Balance);
    SpendersInBlock(b, n);
    SpendTotals(SpendState(BeforeSpends(t, b), ExtrinsicDeltas(b, n)), SpendsOf(b, n), NewIds(b), a, Balance);
  }

  /** Transactions of other blocks keep their activity. */
  lemma OldActivity(t: Tables, b: PreparedBlock, a: Address, id: TxId)
    requires id.block != b.hash
    ensures id in ActivityTxs(AfterSpends(t, b).utxos, a) <==> id in ActivityTxs(t.utxos, a)
  {
    AfterSpendsShape(t, b, a);
    CreatorsInBlock(b, |b.extrinsics|);
    var created, after := CreatedRows(b, |b.extrinsics|), AfterSpends(t, b).utxos;
    if id in ActivityTxs(after, a) { ActivityBefore(t.utxos, created, after, NewIds(b), a, id); }
    if id in ActivityTxs(t.utxos, a) { ActivityStays(t.utxos, created, after, NewIds(b), a, id); }
  }

  lemma AtEither(stored: seq<UtxoRow>, created: seq<UtxoRow>, k: nat)
    requires k < |stored + created|
    ensures (stored + created)[k] == if k < |stored| then stored[k] else created[k - |stored|]
  {
  }

  lemma ActivityBefore(stored: seq<UtxoRow>, created: seq<UtxoRow>, after: seq<UtxoRow>, ids: set<TxId>, a: Address, id: TxId)
    requires SpentMore(stored + created, after, ids) && id !in ids
    requires forall k :: 0 <= k < |created| ==> created[k].createdAt in ids && created[k].spentAt.None?
    requires id in ActivityTxs(after, a)
    ensures id in ActivityTxs(stored, a)
  {
    var k :| 0 <= k < |after| && OwnsNight(after[k], a) && (after[k].createdAt == id || after[k].spentAt == Some(id));
    var before := (stored + created)[k];
    AtEither(stored, created, k);
    assert after[k] == before || after[k] == before.(spentAt := after[k].spentAt);
    assert k < |stored| && stored[k] in stored;
  }

  lemma ActivityStays(stored: seq<UtxoRow>, created: seq<UtxoRow>, after: seq<UtxoRow>, ids: set<TxId>, a: Address, id: TxId)
    requires SpentMore(stored + created, after, ids)
    requires id in ActivityTxs(stored, a)
    ensures id in ActivityTxs(after, a)
  {
    var k :| 0 <= k < |stored| && OwnsNight(stored[k], a) && (stored[k].createdAt == id || stored[k].spentAt == Some(id));
    assert (stored + created)[k] == stored[k] && after[k] in after;
  }

  /** An address is active in the new block exactly when the block has a delta for it. */
  lemma NewActivity(t: Tables, b: PreparedBlock, a: Address)
    requires Referential(t.blocks, t.txs, t.utxos) && b.hash !in HashesOf(t.blocks)
    ensures a in AfterSpends(t, b).deltas <==>
      exists x :: x in TxRows(b, |b.extrinsics|) && (x.id in ActivityTxs(AfterSpends(t, b).utxos, a) || SentBy(x, a))
  {
    var n, rows := |b.extrinsics|, TxRows(b, |b.extrinsics|);
    var before, after := BeforeSpends(t, b), AfterSpends(t, b).utxos;
    AfterSpendsShape(t, b, a);
    CreatorsInBlock(b, n);
    if a in AfterSpends(t, b).deltas {
      var k, id := DeltaWitness(t, b, a);
      if k < |after| {
        assert after[k] in after && id in ActivityTxs(after, a);
        var x :| x in rows && x.id == id;
      } else {
        var i :| 0 <= i < |rows| && SentBy(rows[i], a);
        assert rows[i] in rows;
      }
    }
    forall x | x in rows && (x.id in ActivityTxs(after, a) || SentBy(x, a))
      ensures a in AfterSpends(t, b).deltas
    {
      ActivityHasDelta(t, b, a, x);
    }
  }

  lemma ActivityHasDelta(t: Tables, b: PreparedBlock, a: Address, x: TxRow)
    requires Referential(t.blocks, t.txs, t.utxos) && b.hash !in HashesOf(t.blocks)
    requires x in TxRows(b, |b.extrinsics|)
    requires x.id in ActivityTxs(AfterSpends(t, b).utxos, a) || SentBy(x, a)
    ensures a in AfterSpends(t, b).deltas
  {
    var after := AfterSpends(t, b).utxos;
    AfterSpendsShape(t, b, a);
    if x.id in ActivityTxs(after, a) {
      var k :| 0 <= k < |after| && OwnsNight(after[k], a) && (after[k].createdAt == x.id || after[k].spentAt == Some(x.id));
      OldRowsOtherBlocks(t, b.hash);
      CreatedOrSpent(t.utxos, CreatedRows(b, |b.extrinsics|), after, NewIds(b), a, x.id, k);
    }
  }

  /** An output that names the new transaction was created or newly spent by the block. */
  lemma CreatedOrSpent(stored: seq<UtxoRow>, created: seq<UtxoRow>, after: seq<UtxoRow>, ids: set<TxId>, a: Address, id: TxId, k: nat)
    requires SpentMore(stored + created, after, ids) && k < |after|
    requires OwnsNight(after[k], a) && (after[k].createdAt == id || after[k].spentAt == Some(id))
    requires forall i :: 0 <= i < |stored| ==> stored[i].createdAt.block != id.block
    requires forall i :: 0 <= i < |stored| && stored[i].spentAt.Some? ==> stored[i].spentAt.value.block != id.block
    ensures OwnsAny(created, a) || NewlySpent(stored + created, after, a)
  {
    AtEither(stored, created, k);
    var before := (stored + created)[k];
    assert OwnsNight(before, a);
    assert after[k] == before ==> k >= |stored|;
  }

  lemma OldRowsOtherBlocks(t: Tables, hash: Hash)
    requires Referential(t.blocks, t.txs, t.utxos) && hash !in HashesOf(t.blocks)
    ensures forall i :: 0 <= i < |t.utxos| ==>
      t.utxos[i].createdAt.block != hash && (t.utxos[i].spentAt.Some? ==> t.utxos[i].spentAt.value.block != hash)
    ensures forall a :: hash !in ActiveBlocks(t.utxos, t.txs, a)
  {
    assert forall id :: id in IdsOf(t.txs) ==> id.block in HashesOf(t.blocks);
    assert forall i :: 0 <= i < |t.utxos| ==> t.utxos[i] in t.utxos;
  }

  /** The output behind a delta with its new transaction, or the table's length for a transfer. */
  lemma DeltaWitness(t: Tables, b: PreparedBlock, a: Address) returns (k: nat, id: TxId)
    requires a in AfterSpends(t, b).deltas
    ensures var after := AfterSpends(t, b).utxos;
      if k < |after| then
        OwnsNight(after[k], a) && id in NewIds(b) && (after[k].createdAt == id || after[k].spentAt == Some(id))
      else SentAny(TxRows(b, |b.extrinsics|), a)
  {
    var created := CreatedRows(b, |b.extrinsics|);
    var before, after := BeforeSpends(t, b), AfterSpends(t, b).utxos;
    AfterSpendsShape(t, b, a);
    CreatorsInBlock(b, |b.extrinsics|);
    id := TxId(b.hash, 0);
    if OwnsAny(created, a) {
      var i :| 0 <= i < |created| && OwnsNight(created[i], a);
      k := |t.utxos| + i;
      assert before[k] == created[i];
      id := created[i].createdAt;
    } else if NewlySpent(before, after, a) {
      k :| 0 <= k < |before| && OwnsNight(before[k], a) && after[k] != before[k];
      id := after[k].spentAt.value;
    } else {
      k := |after|;
    }
  }

  lemma ActiveAfter(t: Tables, b: PreparedBlock, a: Address)
    requires Referential(t.blocks, t.txs, t.utxos) && b.hash !in HashesOf(t.blocks)
    ensures ActiveBlocks(AfterSpends(t, b).utxos, t.txs + TxRows(b, |b.extrinsics|), a) ==
      ActiveBlocks(t.utxos, t.txs, a) + if a in AfterSpends(t, b).deltas then {b.hash} else {}
  {
    var rows, utxos := TxRows(b, |b.extrinsics|), AfterSpends(t, b).utxos;
    NewActivity(t, b, a);
    forall x | x in t.txs
      ensures x.id in ActivityTxs(utxos, a) <==> x.id in ActivityTxs(t.utxos, a)
    {
      OldActivity(t, b, a, x.id);
    }
    assert forall x :: x in t.txs + rows <==> x in t.txs || x in rows;
  }

  lemma {:induction false} HeightsPush(blocks: seq<BlockRow>, row: BlockRow, hashes: set<Hash>)
    ensures HeightsOf(blocks + [row], hashes) == HeightsOf(blocks, hashes) + if row.hash in hashes then [row.height] else []
  {
    assert (blocks + [row])[..|blocks|] == blocks;
  }

  /** What recomputing gives after a block, from what it gave before. */
  lemma ComputedAfter(t: Tables, b: PreparedBlock, a: Address)
    requires Referential(t.blocks, t.txs, t.utxos) && b.hash !in HashesOf(t.blocks)
    ensures var after := Stored(t, b);
      var prior := HeightsOf(t.blocks, ActiveBlocks(t.utxos, t.txs, a));
      HeightsOf(after.blocks, ActiveBlocks(after.utxos, after.txs, a)) ==
        prior + if a in AfterSpends(t, b).deltas then [b.height] else []
  {
    var after := Stored(t, b);
    var hashes := ActiveBlocks(after.utxos, after.txs, a);
    ActiveAfter(t, b, a);
    HeightsPush(t.blocks, after.blocks[|t.blocks|], hashes);
    HeightsSame(t.blocks, hashes, ActiveBlocks(t.utxos, t.txs, a)) by {
      assert forall r :: r in t.blocks ==> r.hash in HashesOf(t.blocks);
    }
    OldRowsOtherBlocks(t, b.hash);
  }

  // ---- Agreement ------------------------------------------------------------

  predicate HeightsBelow(blocks: seq<BlockRow>, height: nat) {
    forall r :: r in blocks ==> r.height < height
  }

  /** The rows a rollback zeroed and kept: their first height is null, and the next delta reads it as 0. */
  predicate Retained(t: Tables, a: Address) {
    a in t.balances && t.balances[a].figures.firstSeen.None?
  }

  /** A block that can be stored on top of the tables. */
  predicate Fits(t: Tables, b: PreparedBlock) {
    && Referential(t.blocks, t.txs, t.utxos)
    && b.hash !in HashesOf(t.blocks)
    && HeightsBelow(t.blocks, b.height)
  }

  lemma TotalsAfter(t: Tables, b: PreparedBlock, a: Address)
    ensures var after := Stored(t, b);
      CountersOf(after.utxos, after.txs, a) ==
        CountersOf(t.utxos, t.txs, a).Plus(DeltaFor(AfterSpends(t, b).deltas, a))
  {
    var after := Stored(t, b);
    var sum := CountersOf(t.utxos, t.txs, a).Plus(DeltaFor(AfterSpends(t, b).deltas, a));
    forall f ensures CountersOf(after.utxos, after.txs, a).At(f) == sum.At(f) {
      BlockTotals(t, b, a, f);
    }
    SameFigures(CountersOf(after.utxos, after.txs, a), sum);
  }

  /** The heights seen after a block above all others. */
  lemma HeightsAfter(heights: seq<nat>, height: nat)
    requires forall h :: h in heights ==> h < height
    ensures Highest(heights + [height]) == Some(height)
    ensures heights == [] ==> Lowest(heights + [height]) == Some(height)
    ensures heights != [] ==> Lowest(heights + [height]) == Lowest(heights)
  {
    assert (heights + [height])[..|heights|] == heights;
    LowestHighest(heights);
  }

  /** A delta never leaves an address without figures. */
  lemma DeltaMeansActivity(t: Tables, b: PreparedBlock, a: Address)
    requires a in AfterSpends(t, b).deltas
    ensures Compute(Stored(t, b), a).Some?
  {
    var after := Stored(t, b);
    ComputeExists(after, a, Balance);
    var k, id := DeltaWitness(t, b, a);
    if k >= |after.utxos| {
      SentConcat(t.txs, TxRows(b, |b.extrinsics|), a);
    }
  }

  /** Without a delta, nothing about the address changes. */
  lemma UntouchedStays(t: Tables, b: PreparedBlock, a: Address)
    requires Fits(t, b) && a !in AfterSpends(t, b).deltas
    ensures Compute(Stored(t, b), a) == Compute(t, a)
    ensures RowOf(Stored(t, b).balances, a) == RowOf(t.balances, a)
  {
    ComputedAfter(t, b, a);
    UntouchedTotals(t, b, a);
    var prior := HeightsOf(t.blocks, ActiveBlocks(t.utxos, t.txs, a));
    assert prior + [] == prior;
  }

  lemma UntouchedTotals(t: Tables, b: PreparedBlock, a: Address)
    requires a !in AfterSpends(t, b).deltas
    ensures var after := Stored(t, b);
      && CountersOf(after.utxos, after.txs, a) == CountersOf(t.utxos, t.txs, a)
      && (forall f :: Counter(after.utxos, after.txs, a, f) == Counter(t.utxos, t.txs, a, f))
  {
    var after := Stored(t, b);
    forall f
      ensures Counter(after.utxos, after.txs, a, f) == Counter(t.utxos, t.txs, a, f)
      ensures CountersOf(after.utxos, after.txs, a).At(f) == CountersOf(t.utxos, t.txs, a).At(f)
    {
      BlockTotals(t, b, a, f);
      assert ZERO.At(f) == 0;
    }
    SameFigures(CountersOf(after.utxos, after.txs, a), CountersOf(t.utxos, t.txs, a));
  }

  /**
   * Storing a block keeps a matching row matching, if and only if the row is not a zeroed one that this
   * block touches above height 0.
   */
  lemma PersistKeepsMatch(t: Tables, b: PreparedBlock, a: Address)
    requires Fits(t, b)
    requires Matches(RowOf(t.balances, a), Compute(t, a))
    ensures Matches(RowOf(Stored(t, b).balances, a), Compute(Stored(t, b), a)) <==>
      !(a in AfterSpends(t, b).deltas && Retained(t, a) && b.height > 0)
  {
    if a !in AfterSpends(t, b).deltas {
      UntouchedStays(t, b, a);
    } else {
      TouchedFigures(t, b, a);
      ComputeExists(t, a, Balance);
      if Compute(t, a).Some? {
        ActiveAddressHasHeights(t, a);
        LowestHighest(HeightsOf(t.blocks, ActiveBlocks(t.utxos, t.txs, a)));
      }
    }
  }

  lemma PriorHeights(t: Tables, b: PreparedBlock, a: Address)
    requires Fits(t, b)
    ensures var prior := HeightsOf(t.blocks, ActiveBlocks(t.utxos, t.txs, a));
      && (forall h :: h in prior ==> h < b.height)
      && (Compute(t, a).None? ==> prior == [])
      && (Compute(t, a).Some? ==> prior != [])
  {
    HeightsMembers(t.blocks, ActiveBlocks(t.utxos, t.txs, a));
    ComputeExists(t, a, Balance);
    if Compute(t, a).Some? {
      ActiveAddressHasHeights(t, a);
    } else {
      assert forall i :: 0 <= i < |t.txs| ==> !SentBy(t.txs[i], a);
      assert ActivityTxs(t.utxos, a) == {} by { assert forall i :: 0 <= i < |t.utxos| ==> !OwnsNight(t.utxos[i], a); }
      assert ActiveBlocks(t.utxos, t.txs, a) == {};
      HeightsNone(t.blocks);
    }
  }

  lemma {:induction false} HeightsNone(blocks: seq<BlockRow>)
    ensures HeightsOf(blocks, {}) == []
  {
    if blocks != [] { HeightsNone(blocks[..|blocks| - 1]); }
  }

  /** The recomputed figures of an address the block touches. */
  lemma TouchedFigures(t: Tables, b: PreparedBlock, a: Address)
    requires Fits(t, b) && a in AfterSpends(t, b).deltas
    ensures var computed, d := Compute(Stored(t, b), a), AfterSpends(t, b).deltas[a];
      match Compute(t, a)
      case None => computed == Some(Figures(ZERO.Plus(d), Some(b.height), Some(b.height)))
      case Some(f) =>
        f.firstSeen.Some? && f.firstSeen.value < b.height &&
        computed == Some(Figures(f.counters.Plus(d), f.firstSeen, Some(b.height)))
  {
    DeltaMeansActivity(t, b, a);
    ComputedAfter(t, b, a);
    TotalsAfter(t, b, a);
    PriorHeights(t, b, a);
    var prior := HeightsOf(t.blocks, ActiveBlocks(t.utxos, t.txs, a));
    HeightsAfter(prior, b.height);
    LowestHighest(prior);
    if Compute(t, a).None? {
      NoFigures(t, a);
    }
  }

  lemma NoFigures(t: Tables, a: Address)
    requires Compute(t, a).None?
    ensures CountersOf(t.utxos, t.txs, a) == ZERO
  {
    forall f ensures CountersOf(t.utxos, t.txs, a).At(f) == ZERO.At(f) {
      ComputeExists(t, a, f);
    }
    SameFigures(CountersOf(t.utxos, t.txs, a), ZERO);
  }
}
