/** Removing every block from a height upwards, and repairing the tables derived from them. */
module Rollback {
  import opened Wrappers
  import opened IndexTables

  function GoneBlocks(blocks: seq<BlockRow>, fromHeight: nat): set<Hash> {
    set r | r in blocks && r.height >= fromHeight :: r.hash
  }

  function GoneTxs(txs: seq<TxRow>, gone: set<Hash>): set<TxId> {
    set x | x in txs && x.id.block in gone :: x.id
  }

  /** Senders, receivers and output owners of the removed transactions, collected before anything is deleted. */
  function Affected(txs: seq<TxRow>, utxos: seq<UtxoRow>, gone: set<TxId>): set<Address> {
    (set x | x in txs && x.id in gone && x.sender.Some? :: x.sender.value) +
    (set x | x in txs && x.id in gone && x.receiver.Some? :: x.receiver.value) +
    (set u | u in utxos && u.createdAt in gone :: u.owner) +
    (set u | u in utxos && u.spentAt.Some? && u.spentAt.value in gone :: u.owner)
  }

  /** The balance row of an address after it is recomputed. A row registered for dust is kept with zeroes. */
  function RecomputedRow(row: Option<BalanceRow>, computed: Option<Figures>): Option<BalanceRow> {
    match computed
    case Some(f) => Some(BalanceRow(f, row.Some? && row.value.dust))
    case None => if row.Some? && row.value.dust then Some(BalanceRow(ZEROED, true)) else None
  }

  /** The remaining block with the greatest height, if there is one. */
  function ForkBlock(blocks: seq<BlockRow>): Option<BlockRow> {
    if blocks == [] then None else
      var last := blocks[|blocks| - 1];
      match ForkBlock(blocks[..|blocks| - 1])
      case None => Some(last)
      case Some(best) => Some(if last.height > best.height then last else best)
  }

  function RemainingUtxos(utxos: seq<UtxoRow>, gone: set<TxId>): seq<UtxoRow> {
    Unspend(KeepUtxos(utxos, gone), gone)
  }

  function RecomputedBalances(t: Tables, blocks: seq<BlockRow>, txs: seq<TxRow>, utxos: seq<UtxoRow>, affected: set<Address>)
    : map<Address, BalanceRow>
  {
    map a | a in t.balances.Keys + affected &&
            (a in affected ==> RecomputedRow(RowOf(t.balances, a), ComputeFrom(blocks, txs, utxos, a)).Some?) ::
      if a in affected then RecomputedRow(RowOf(t.balances, a), ComputeFrom(blocks, txs, utxos, a)).value
      else t.balances[a]
  }

  function SyncAfter(sync: SyncState, blocks: seq<BlockRow>): SyncState {
    match ForkBlock(blocks)
    case None => SyncState(0, None, sync.reorgGeneration + 1)
    case Some(fork) => SyncState(fork.height, Some(fork.hash), sync.reorgGeneration + 1)
  }

  /** The tables after a rollback. Without a block to remove, only the generation moves. */
  function RolledBack(t: Tables, fromHeight: nat): Tables {
    var goneBlocks := GoneBlocks(t.blocks, fromHeight);
    if goneBlocks == {} then t.(sync := t.sync.(reorgGeneration := t.sync.reorgGeneration + 1)) else
      var goneTxs := GoneTxs(t.txs, goneBlocks);
      var blocks, txs, utxos :=
        KeepBlocks(t.blocks, goneBlocks), KeepTxs(t.txs, goneBlocks), RemainingUtxos(t.utxos, goneTxs);
      Tables(blocks, txs, utxos,
             RecomputedBalances(t, blocks, txs, utxos, Affected(t.txs, t.utxos, goneTxs)),
             SyncAfter(t.sync, blocks))
  }

  // ---- What a deletion keeps ------------------------------------------------

  lemma {:induction false} KeptBlocks(blocks: seq<BlockRow>, gone: set<Hash>)
    ensures forall r :: r in KeepBlocks(blocks, gone) <==> r in blocks && r.hash !in gone
  {
    if blocks != [] {
      KeptBlocks(blocks[..|blocks| - 1], gone);
      assert blocks == blocks[..|blocks| - 1] + [blocks[|blocks| - 1]];
    }
  }

  lemma {:induction false} KeptTxs(txs: seq<TxRow>, gone: set<Hash>)
    ensures forall x :: x in KeepTxs(txs, gone) <==> x in txs && x.id.block !in gone
  {
    if txs != [] {
      KeptTxs(txs[..|txs| - 1], gone);
      assert txs == txs[..|txs| - 1] + [txs[|txs| - 1]];
    }
  }

  lemma {:induction false} KeptUtxos(utxos: seq<UtxoRow>, gone: set<TxId>)
    ensures forall u :: u in KeepUtxos(utxos, gone) <==> u in utxos && u.createdAt !in gone
  {
    if utxos != [] {
      KeptUtxos(utxos[..|utxos| - 1], gone);
      assert utxos == utxos[..|utxos| - 1] + [utxos[|utxos| - 1]];
    }
  }

  lemma UnspentRows(utxos: seq<UtxoRow>, gone: set<TxId>)
    ensures forall v :: v in Unspend(utxos, gone) <==> exists u :: u in utxos && v == UnspendRow(u, gone)
  {
    var after := Unspend(utxos, gone);
    forall v ensures v in after <==> exists u :: u in utxos && v == UnspendRow(u, gone) {
      if v in after {
        var i :| 0 <= i < |after| && after[i] == v;
        assert utxos[i] in utxos;
      }
      if u :| u in utxos && v == UnspendRow(u, gone) {
        var i :| 0 <= i < |utxos| && utxos[i] == u;
        assert after[i] == v;
      }
    }
  }

  // ---- Agreement ------------------------------------------------------------

  /** No output of `a` was created or spent in a removed transaction. */
  predicate UntouchedBy(utxos: seq<UtxoRow>, gone: set<TxId>, a: Address) {
    forall i :: 0 <= i < |utxos| && utxos[i].owner == a ==>
      utxos[i].createdAt !in gone && (utxos[i].spentAt.Some? ==> utxos[i].spentAt.value !in gone)
  }

  lemma RemainingPush(init: seq<UtxoRow>, last: UtxoRow, gone: set<TxId>)
    ensures RemainingUtxos(init + [last], gone) ==
      RemainingUtxos(init, gone) + if last.createdAt in gone then [] else [UnspendRow(last, gone)]
  {
    assert (init + [last])[..|init|] == init;
    var kept := KeepUtxos(init, gone);
    assert KeepUtxos(init + [last], gone) == if last.createdAt in gone then kept else kept + [last];
  }

  lemma {:induction false} UntouchedUtxoTotals(utxos: seq<UtxoRow>, gone: set<TxId>, a: Address, f: Figure)
    requires UntouchedBy(utxos, gone, a)
    ensures UtxoTotal(RemainingUtxos(utxos, gone), a, f) == UtxoTotal(utxos, a, f)
  {
    if utxos != [] {
      var init, last := utxos[..|utxos| - 1], utxos[|utxos| - 1];
      assert forall i :: 0 <= i < |init| ==> init[i] == utxos[i];
      UntouchedUtxoTotals(init, gone, a, f);
      UntouchedUtxo(init, last, gone, a, f);
      assert utxos == init + [last];
    }
  }

  lemma UntouchedUtxo(init: seq<UtxoRow>, last: UtxoRow, gone: set<TxId>, a: Address, f: Figure)
    requires last.owner == a ==> last.createdAt !in gone && UnspendRow(last, gone) == last
    requires UtxoTotal(RemainingUtxos(init, gone), a, f) == UtxoTotal(init, a, f)
    ensures UtxoTotal(RemainingUtxos(init + [last], gone), a, f) == UtxoTotal(init + [last], a, f)
  {
    var kept, left := RemainingUtxos(init, gone), UnspendRow(last, gone);
    UtxoPushes(init, last, a, f);
    RemainingPush(init, last, gone);
    if last.createdAt in gone {
      assert UtxoShare(last, a, f) == 0;
      assert RemainingUtxos(init + [last], gone) == kept;
    } else {
      UtxoPushes(kept, left, a, f);
      assert UtxoShare(left, a, f) == UtxoShare(last, a, f);
    }
  }

  lemma UtxoPushes(init: seq<UtxoRow>, last: UtxoRow, a: Address, f: Figure)
    ensures UtxoTotal(init + [last], a, f) == UtxoTotal(init, a, f) + UtxoShare(last, a, f)
  {
    assert (init + [last])[..|init|] == init;
  }

  /** No removed transaction was sent by `a`. */
  predicate NotSentIn(txs: seq<TxRow>, gone: set<Hash>, a: Address) {
    forall i :: 0 <= i < |txs| && txs[i].id.block in gone ==> txs[i].sender != Some(a)
  }

  lemma {:induction false} UntouchedTxTotals(txs: seq<TxRow>, gone: set<Hash>, a: Address, f: Figure)
    requires NotSentIn(txs, gone, a)
    ensures TxTotal(KeepTxs(txs, gone), a, f) == TxTotal(txs, a, f)
  {
    if txs != [] {
      var init, last := txs[..|txs| - 1], txs[|txs| - 1];
      UntouchedTxTotals(init, gone, a, f);
      var kept := KeepTxs(init, gone);
      if last.id.block in gone {
        assert KeepTxs(txs, gone) == kept;
      } else {
        TxPushes(kept, last, a, f);
      }
    }
  }

  lemma TxPushes(init: seq<TxRow>, last: TxRow, a: Address, f: Figure)
    ensures TxTotal(init + [last], a, f) == TxTotal(init, a, f) + TxShare(last, a, f)
  {
    assert (init + [last])[..|init|] == init;
  }

  /** What `Affected` does not name, the removed transactions did not touch. */
  lemma NotAffected(t: Tables, gone: set<Hash>, a: Address)
    requires a !in Affected(t.txs, t.utxos, GoneTxs(t.txs, gone))
    ensures UntouchedBy(t.utxos, GoneTxs(t.txs, gone), a)
    ensures NotSentIn(t.txs, gone, a)
  {
    assert forall i :: 0 <= i < |t.utxos| ==> t.utxos[i] in t.utxos;
    assert forall i :: 0 <= i < |t.txs| ==> t.txs[i] in t.txs;
  }

  lemma UntouchedActivity(t: Tables, gone: set<Hash>, a: Address)
    requires Referential(t.blocks, t.txs, t.utxos)
    requires a !in Affected(t.txs, t.utxos, GoneTxs(t.txs, gone))
    ensures ActivityTxs(RemainingUtxos(t.utxos, GoneTxs(t.txs, gone)), a) == ActivityTxs(t.utxos, a)
  {
    var ids := GoneTxs(t.txs, gone);
    var kept, after := KeepUtxos(t.utxos, ids), RemainingUtxos(t.utxos, ids);
    NotAffected(t, gone, a);
    KeptUtxos(t.utxos, ids);
    forall u | u in t.utxos && u.owner == a
      ensures u in after
    {
      var i :| 0 <= i < |t.utxos| && t.utxos[i] == u;
      assert u in kept && UnspendRow(u, ids) == u;
      UnspentRows(kept, ids);
    }
    forall v | v in after && v.owner == a
      ensures v in t.utxos
    {
      UnspentRows(kept, ids);
      var u :| u in kept && v == UnspendRow(u, ids);
      var i :| 0 <= i < |t.utxos| && t.utxos[i] == u;
    }
  }

  /** The address was active in none of the removed blocks. */
  lemma InactiveInGone(t: Tables, gone: set<Hash>, a: Address)
    requires a !in Affected(t.txs, t.utxos, GoneTxs(t.txs, gone))
    ensures forall x :: x in t.txs && (x.id in ActivityTxs(t.utxos, a) || SentBy(x, a)) ==> x.id.block !in gone
  {
    NotAffected(t, gone, a);
    forall x | x in t.txs && (x.id in ActivityTxs(t.utxos, a) || SentBy(x, a))
      ensures x.id.block !in gone
    {
      var k :| 0 <= k < |t.txs| && t.txs[k] == x;
      if x.id in ActivityTxs(t.utxos, a) {
        var i :| 0 <= i < |t.utxos| && OwnsNight(t.utxos[i], a) && (t.utxos[i].createdAt == x.id || t.utxos[i].spentAt == Some(x.id));
        assert x.id !in GoneTxs(t.txs, gone);
      }
    }
  }

  lemma UntouchedBlocks(t: Tables, gone: set<Hash>, a: Address)
    requires Referential(t.blocks, t.txs, t.utxos)
    requires a !in Affected(t.txs, t.utxos, GoneTxs(t.txs, gone))
    ensures ActiveBlocks(RemainingUtxos(t.utxos, GoneTxs(t.txs, gone)), KeepTxs(t.txs, gone), a) ==
            ActiveBlocks(t.utxos, t.txs, a)
    ensures ActiveBlocks(t.utxos, t.txs, a) !! gone
  {
    UntouchedActivity(t, gone, a);
    KeptTxs(t.txs, gone);
    InactiveInGone(t, gone, a);
  }

  lemma {:induction false} HeightsKept(blocks: seq<BlockRow>, gone: set<Hash>, hashes: set<Hash>)
    requires hashes !! gone
    ensures HeightsOf(KeepBlocks(blocks, gone), hashes) == HeightsOf(blocks, hashes)
  {
    if blocks != [] {
      var init, last := blocks[..|blocks| - 1], blocks[|blocks| - 1];
      HeightsKept(init, gone, hashes);
      var kept := KeepBlocks(init, gone);
      if last.hash in gone {
        assert KeepBlocks(blocks, gone) == kept;
      } else {
        assert (kept + [last])[..|kept|] == kept;
      }
    }
  }

  /** Recomputing an address the removed blocks did not touch gives what it gave before. */
  lemma UntouchedComputes(t: Tables, fromHeight: nat, a: Address)
    requires Referential(t.blocks, t.txs, t.utxos)
    requires a !in Affected(t.txs, t.utxos, GoneTxs(t.txs, GoneBlocks(t.blocks, fromHeight)))
    ensures Compute(RolledBack(t, fromHeight), a) == Compute(t, a)
  {
    var gone := GoneBlocks(t.blocks, fromHeight);
    if gone != {} {
      var after := RolledBack(t, fromHeight);
      NotAffected(t, gone, a);
      UntouchedBlocks(t, gone, a);
      HeightsKept(t.blocks, gone, ActiveBlocks(t.utxos, t.txs, a));
      forall f
        ensures Counter(after.utxos, after.txs, a, f) == Counter(t.utxos, t.txs, a, f)
        ensures CountersOf(after.utxos, after.txs, a).At(f) == CountersOf(t.utxos, t.txs, a).At(f)
      {
        UntouchedUtxoTotals(t.utxos, GoneTxs(t.txs, gone), a, f);
        UntouchedTxTotals(t.txs, gone, a, f);
      }
      SameFigures(CountersOf(after.utxos, after.txs, a), CountersOf(t.utxos, t.txs, a));
    }
  }

  /** A rollback makes every affected row match, and keeps every other matching row matching. */
  lemma RollbackMatches(t: Tables, fromHeight: nat, a: Address)
    requires Referential(t.blocks, t.txs, t.utxos)
    requires Matches(RowOf(t.balances, a), Compute(t, a)) ||
      a in Affected(t.txs, t.utxos, GoneTxs(t.txs, GoneBlocks(t.blocks, fromHeight)))
    ensures Matches(RowOf(RolledBack(t, fromHeight).balances, a), Compute(RolledBack(t, fromHeight), a))
  {
    var gone := GoneBlocks(t.blocks, fromHeight);
    if a !in Affected(t.txs, t.utxos, GoneTxs(t.txs, gone)) {
      UntouchedComputes(t, fromHeight, a);
    }
  }
}
