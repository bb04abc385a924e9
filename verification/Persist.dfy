/** Storing one block: its rows, its spends, and the balance rows it changes. */
module Persist {
  import opened Wrappers
  import opened IndexTables

  datatype NewUtxo = NewUtxo(ref: OutRef, owner: Address, token: Token, value: int)

  /** What the events of one extrinsic say: outputs created and spent, and the transfer if there is one. */
  datatype Extrinsic = Extrinsic(
    created: seq<NewUtxo>, spent: seq<OutRef>,
    sender: Option<Address>, receiver: Option<Address>, nightAmount: Option<int>)

  datatype PreparedBlock = PreparedBlock(hash: Hash, height: nat, parentHash: Hash, extrinsics: seq<Extrinsic>)

  datatype Spend = Spend(ref: OutRef, spender: TxId)

  type Deltas = map<Address, Counters>

  // ---- The rows a block adds ------------------------------------------------

  function TxRowOf(b: PreparedBlock, i: nat): TxRow
    requires i < |b.extrinsics|
  {
    var e := b.extrinsics[i];
    TxRow(TxId(b.hash, i), e.sender, e.receiver, e.nightAmount)
  }

  /** The rows of the first `n` extrinsics. */
  function TxRows(b: PreparedBlock, n: nat): (rows: seq<TxRow>)
    requires n <= |b.extrinsics|
    ensures |rows| == n && forall i :: 0 <= i < n ==> rows[i] == TxRowOf(b, i)
  {
    seq(n, i requires 0 <= i < n => TxRowOf(b, i))
  }

  function CreatedRow(u: NewUtxo, creator: TxId): UtxoRow {
    UtxoRow(u.ref, u.owner, u.token, u.value, creator, None)
  }

  function CreatedBy(b: PreparedBlock, i: nat): (rows: seq<UtxoRow>)
    requires i < |b.extrinsics|
    ensures |rows| == |b.extrinsics[i].created|
    ensures forall k :: 0 <= k < |rows| ==> rows[k] == CreatedRow(b.extrinsics[i].created[k], TxId(b.hash, i))
  {
    var created := b.extrinsics[i].created;
    seq(|created|, k requires 0 <= k < |created| => CreatedRow(created[k], TxId(b.hash, i)))
  }

  function CreatedRows(b: PreparedBlock, n: nat): seq<UtxoRow>
    requires n <= |b.extrinsics|
  {
    if n == 0 then [] else CreatedRows(b, n - 1) + CreatedBy(b, n - 1)
  }

  function SpentBy(b: PreparedBlock, i: nat): (spends: seq<Spend>)
    requires i < |b.extrinsics|
    ensures |spends| == |b.extrinsics[i].spent|
    ensures forall k :: 0 <= k < |spends| ==> spends[k] == Spend(b.extrinsics[i].spent[k], TxId(b.hash, i))
  {
    var spent := b.extrinsics[i].spent;
    seq(|spent|, k requires 0 <= k < |spent| => Spend(spent[k], TxId(b.hash, i)))
  }

  function SpendsOf(b: PreparedBlock, n: nat): seq<Spend>
    requires n <= |b.extrinsics|
  {
    if n == 0 then [] else SpendsOf(b, n - 1) + SpentBy(b, n - 1)
  }

  // ---- Balance deltas -------------------------------------------------------

  function DeltaFor(deltas: Deltas, a: Address): Counters {
    if a in deltas then deltas[a] else ZERO
  }

  /** A created output counts at once, if it holds NIGHT. */
  function Credit(deltas: Deltas, u: UtxoRow): Deltas {
    if !u.token.Night? then deltas else
      var d := DeltaFor(deltas, u.owner);
      deltas[u.owner := d.(balance := d.balance + u.value, utxoCount := d.utxoCount + 1,
                          totalReceived := d.totalReceived + u.value, txReceivedCount := d.txReceivedCount + 1)]
  }

  function CreditAll(deltas: Deltas, rows: seq<UtxoRow>): Deltas {
    if rows == [] then deltas
    else Credit(CreditAll(deltas, rows[..|rows| - 1]), rows[|rows| - 1])
  }

  function DebitSender(deltas: Deltas, x: TxRow): Deltas {
    if x.sender.Some? && x.receiver.Some? && x.receiver != x.sender && Amount(x.nightAmount) > 0 then
      var d := DeltaFor(deltas, x.sender.value);
      deltas[x.sender.value := d.(totalSent := d.totalSent + Amount(x.nightAmount), txSentCount := d.txSentCount + 1)]
    else deltas
  }

  /** The deltas after the first `n` extrinsics, before any spend. */
  function ExtrinsicDeltas(b: PreparedBlock, n: nat): Deltas
    requires n <= |b.extrinsics|
  {
    if n == 0 then map[]
    else DebitSender(CreditAll(ExtrinsicDeltas(b, n - 1), CreatedBy(b, n - 1)), TxRowOf(b, n - 1))
  }

  // ---- Spends ---------------------------------------------------------------

  /** The position of the output, or the table's length when it was never indexed. */
  function Find(utxos: seq<UtxoRow>, ref: OutRef): (i: nat)
    ensures i <= |utxos|
    ensures i < |utxos| ==> utxos[i].ref == ref
    ensures i == |utxos| ==> forall k :: 0 <= k < |utxos| ==> utxos[k].ref != ref
  {
    if utxos == [] then 0
    else if utxos[|utxos| - 1].ref == ref then |utxos| - 1
    else
      var i := Find(utxos[..|utxos| - 1], ref);
      if i == |utxos| - 1 then |utxos| else i
  }

  datatype SpendState = SpendState(utxos: seq<UtxoRow>, deltas: Deltas)

  /** A spend of an output that is not indexed, or already spent, changes nothing. */
  function ApplySpend(s: SpendState, p: Spend): SpendState {
    var i := Find(s.utxos, p.ref);
    if i == |s.utxos| || s.utxos[i].spentAt.Some? then s else
      var row := s.utxos[i];
      var utxos := s.utxos[i := row.(spentAt := Some(p.spender))];
      if !row.token.Night? then s.(utxos := utxos) else
        var d := DeltaFor(s.deltas, row.owner);
        SpendState(utxos, s.deltas[row.owner := d.(balance := d.balance - row.value, utxoCount := d.utxoCount - 1)])
  }

  function ApplySpends(s: SpendState, spends: seq<Spend>): SpendState {
    if spends == [] then s
    else ApplySpend(ApplySpends(s, spends[..|spends| - 1]), spends[|spends| - 1])
  }

  // ---- Balance rows ---------------------------------------------------------

  /** A stored null height reads as 0, so `firstSeen` of a zeroed row becomes 0. */
  function ApplyBalanceDelta(row: Option<BalanceRow>, d: Counters, height: nat): BalanceRow {
    match row
    case None => BalanceRow(Figures(d, Some(height), Some(height)), false)
    case Some(r) =>
      var prior := if r.figures.firstSeen.Some? then r.figures.firstSeen.value else 0;
      BalanceRow(
        Figures(r.figures.counters.Plus(d), Some(if prior < height then prior else height), Some(height)), r.dust)
  }

  function MergeDeltas(balances: map<Address, BalanceRow>, deltas: Deltas, height: nat): map<Address, BalanceRow> {
    map a | a in balances.Keys + deltas.Keys ::
      if a in deltas then ApplyBalanceDelta(RowOf(balances, a), deltas[a], height) else balances[a]
  }

  // ---- One block ------------------------------------------------------------

  /**
   * `Skipped` is the unique violation of a block another writer stored first. Block hashes, block heights and output
   * names are unique; a violation without the block itself stored is an error.
   */
  datatype Outcome = Written | Skipped | OrphanBlock | UniqueViolation

  function AfterSpends(t: Tables, b: PreparedBlock): SpendState {
    var n := |b.extrinsics|;
    ApplySpends(SpendState(t.utxos + CreatedRows(b, n), ExtrinsicDeltas(b, n)), SpendsOf(b, n))
  }

  /** The tables with the block stored. */
  function Stored(t: Tables, b: PreparedBlock): Tables {
    var after := AfterSpends(t, b);
    Tables(
      t.blocks + [BlockRow(b.hash, b.height, if b.parentHash in HashesOf(t.blocks) then Some(b.parentHash) else None)],
      t.txs + TxRows(b, |b.extrinsics|),
      after.utxos,
      MergeDeltas(t.balances, after.deltas, b.height),
      t.sync.(lastIndexedHeight := b.height, lastIndexedHash := Some(b.hash)))
  }

  function OutcomeOf(t: Tables, b: PreparedBlock, requireParent: bool): Outcome {
    if requireParent && b.height > 0 && b.parentHash !in HashesOf(t.blocks) then OrphanBlock
    else if b.hash in HashesOf(t.blocks) then Skipped
    else if HeightStored(t.blocks, b.height) then UniqueViolation
    else if !UniqueRefs(t.utxos + CreatedRows(b, |b.extrinsics|)) then UniqueViolation
    else Written
  }

  /** One database transaction: all of the block's rows, or none. */
  function PersistBlock(t: Tables, b: PreparedBlock, requireParent: bool): Tables {
    if OutcomeOf(t, b, requireParent).Written? then Stored(t, b) else t
  }
}
