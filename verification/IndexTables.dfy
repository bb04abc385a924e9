/** The indexed tables, and the balance figures of an address derived from them. */
module IndexTables {
  import opened Wrappers

  datatype Hash = Hash(id: nat)
  datatype Address = Address(id: nat)

  /** `Night` is the all-zero raw token type of unshielded NIGHT, the only one that counts towards balances. */
  datatype Token = Night | Other(id: nat)

  /** A transaction row, named by its unique position: the block that holds it and the index in that block. */
  datatype TxId = TxId(block: Hash, position: nat)

  /** The ledger's name of an output, unique in `UnshieldedUtxos`. */
  datatype OutRef = OutRef(intentHash: Hash, outputIndex: int)

  datatype BlockRow = BlockRow(hash: Hash, height: nat, parent: Option<Hash>)

  datatype TxRow = TxRow(id: TxId, sender: Option<Address>, receiver: Option<Address>, nightAmount: Option<int>)

  datatype UtxoRow = UtxoRow(ref: OutRef, owner: Address, token: Token, value: int, createdAt: TxId, spentAt: Option<TxId>)

  /** The additive figures of a balance row. */
  datatype Figure = Balance | UtxoCount | TxReceivedCount | TotalReceived | TxSentCount | TotalSent

  datatype Counters = Counters(
    balance: int, utxoCount: int, txReceivedCount: int, totalReceived: int, txSentCount: int, totalSent: int)
  {
    function At(f: Figure): int {
      match f
      case Balance => balance
      case UtxoCount => utxoCount
      case TxReceivedCount => txReceivedCount
      case TotalReceived => totalReceived
      case TxSentCount => txSentCount
      case TotalSent => totalSent
    }

    function Plus(d: Counters): (sum: Counters)
      ensures forall f :: sum.At(f) == At(f) + d.At(f)
    {
      Counters(balance + d.balance, utxoCount + d.utxoCount, txReceivedCount + d.txReceivedCount,
               totalReceived + d.totalReceived, txSentCount + d.txSentCount, totalSent + d.totalSent)
    }
  }

  const ZERO := Counters(0, 0, 0, 0, 0, 0)

  /** Two rows are equal when every figure is. */
  lemma SameFigures(c: Counters, d: Counters)
    requires forall f :: c.At(f) == d.At(f)
    ensures c == d
  {
    assert c.At(Balance) == d.At(Balance) && c.At(UtxoCount) == d.At(UtxoCount);
    assert c.At(TxReceivedCount) == d.At(TxReceivedCount) && c.At(TotalReceived) == d.At(TotalReceived);
    assert c.At(TxSentCount) == d.At(TxSentCount) && c.At(TotalSent) == d.At(TotalSent);
  }

  /** All eight figures of a balance row. */
  datatype Figures = Figures(counters: Counters, firstSeen: Option<nat>, lastActivity: Option<nat>)

  /** A row zeroed by a rollback. It is kept only for an address registered for dust. */
  const ZEROED := Figures(ZERO, None, None)

  /** `dust` stands for a dust address or a set registration flag. The crawler reads it and never writes it. */
  datatype BalanceRow = BalanceRow(figures: Figures, dust: bool)

  datatype SyncState = SyncState(lastIndexedHeight: nat, lastIndexedHash: Option<Hash>, reorgGeneration: nat)

  datatype Tables = Tables(
    blocks: seq<BlockRow>,
    txs: seq<TxRow>,
    utxos: seq<UtxoRow>,
    balances: map<Address, BalanceRow>,
    sync: SyncState)

  const EMPTY := Tables([], [], [], map[], SyncState(0, None, 0))

  // ---- The figures of one address, from the rows ----------------------------

  predicate OwnsNight(u: UtxoRow, a: Address) {
    u.owner == a && u.token.Night?
  }

  /** What one output adds to a figure of `a`. */
  function UtxoShare(u: UtxoRow, a: Address, f: Figure): int {
    if !OwnsNight(u, a) then 0 else
      match f
      case Balance => if u.spentAt.None? then u.value else 0
      case UtxoCount => if u.spentAt.None? then 1 else 0
      case TxReceivedCount => 1
      case TotalReceived => u.value
      case TxSentCount => 0
      case TotalSent => 0
  }

  function UtxoTotal(utxos: seq<UtxoRow>, a: Address, f: Figure): int {
    if utxos == [] then 0
    else UtxoTotal(utxos[..|utxos| - 1], a, f) + UtxoShare(utxos[|utxos| - 1], a, f)
  }

  function Amount(nightAmount: Option<int>): int {
    match nightAmount case None => 0 case Some(v) => v
  }

  /** A transfer of NIGHT from `a` to a known, different address. */
  predicate SentBy(x: TxRow, a: Address) {
    x.sender == Some(a) && x.receiver.Some? && x.receiver != Some(a) && Amount(x.nightAmount) > 0
  }

  /** What one transaction adds to a figure of `a`. */
  function TxShare(x: TxRow, a: Address, f: Figure): int {
    if !SentBy(x, a) then 0 else
      match f
      case TxSentCount => 1
      case TotalSent => Amount(x.nightAmount)
      case _ => 0
  }

  function TxTotal(txs: seq<TxRow>, a: Address, f: Figure): int {
    if txs == [] then 0
    else TxTotal(txs[..|txs| - 1], a, f) + TxShare(txs[|txs| - 1], a, f)
  }

  function Counter(utxos: seq<UtxoRow>, txs: seq<TxRow>, a: Address, f: Figure): int {
    UtxoTotal(utxos, a, f) + TxTotal(txs, a, f)
  }

  function CountersOf(utxos: seq<UtxoRow>, txs: seq<TxRow>, a: Address): (c: Counters)
    ensures forall f :: c.At(f) == Counter(utxos, txs, a, f)
  {
    Counters(Counter(utxos, txs, a, Balance), Counter(utxos, txs, a, UtxoCount),
             Counter(utxos, txs, a, TxReceivedCount), Counter(utxos, txs, a, TotalReceived),
             Counter(utxos, txs, a, TxSentCount), Counter(utxos, txs, a, TotalSent))
  }

  /** The transactions that created or spent a NIGHT output of `a`. */
  function ActivityTxs(utxos: seq<UtxoRow>, a: Address): set<TxId> {
    (set u | u in utxos && OwnsNight(u, a) :: u.createdAt) +
    (set u | u in utxos && OwnsNight(u, a) && u.spentAt.Some? :: u.spentAt.value)
  }

  /** The blocks in which `a` was active. */
  function ActiveBlocks(utxos: seq<UtxoRow>, txs: seq<TxRow>, a: Address): set<Hash> {
    set x | x in txs && (x.id in ActivityTxs(utxos, a) || SentBy(x, a)) :: x.id.block
  }

  function HeightsOf(blocks: seq<BlockRow>, hashes: set<Hash>): seq<nat> {
    if blocks == [] then [] else
      var last := blocks[|blocks| - 1];
      HeightsOf(blocks[..|blocks| - 1], hashes) + if last.hash in hashes then [last.height] else []
  }

  function Lowest(heights: seq<nat>): Option<nat> {
    if heights == [] then None else
      var last := heights[|heights| - 1];
      match Lowest(heights[..|heights| - 1])
      case None => Some(last)
      case Some(m) => Some(if last < m then last else m)
  }

  function Highest(heights: seq<nat>): Option<nat> {
    if heights == [] then None else
      var last := heights[|heights| - 1];
      match Highest(heights[..|heights| - 1])
      case None => Some(last)
      case Some(m) => Some(if last > m then last else m)
  }

  /** The figures of `a` recomputed from the rows, or `None` without NIGHT activity. */
  function ComputeFrom(blocks: seq<BlockRow>, txs: seq<TxRow>, utxos: seq<UtxoRow>, a: Address): Option<Figures> {
    if Counter(utxos, txs, a, TxReceivedCount) == 0 && Counter(utxos, txs, a, TxSentCount) == 0 then None else
      var heights := HeightsOf(blocks, ActiveBlocks(utxos, txs, a));
      Some(Figures(CountersOf(utxos, txs, a), Lowest(heights), Highest(heights)))
  }

  function Compute(t: Tables, a: Address): Option<Figures> {
    ComputeFrom(t.blocks, t.txs, t.utxos, a)
  }

  function RowOf(balances: map<Address, BalanceRow>, a: Address): Option<BalanceRow> {
    if a in balances then Some(balances[a]) else None
  }

  /** A stored row against the recomputed figures. */
  predicate Matches(row: Option<BalanceRow>, computed: Option<Figures>) {
    match (row, computed)
    case (None, None) => true
    case (Some(r), Some(f)) => r.figures == f
    case (Some(r), None) => r.dust && r.figures == ZEROED
    case (None, Some(_)) => false
  }

  /** Every stored balance row is what recomputing it would give. */
  ghost predicate Agrees(t: Tables) {
    forall a :: Matches(RowOf(t.balances, a), Compute(t, a))
  }

  // ---- Deleting rows --------------------------------------------------------

  /** The blocks whose hash is not in `gone`. */
  function KeepBlocks(blocks: seq<BlockRow>, gone: set<Hash>): seq<BlockRow> {
    if blocks == [] then [] else
      var last := blocks[|blocks| - 1];
      KeepBlocks(blocks[..|blocks| - 1], gone) + if last.hash in gone then [] else [last]
  }

  /** The transactions outside the blocks `gone`. */
  function KeepTxs(txs: seq<TxRow>, gone: set<Hash>): seq<TxRow> {
    if txs == [] then [] else
      var last := txs[|txs| - 1];
      KeepTxs(txs[..|txs| - 1], gone) + if last.id.block in gone then [] else [last]
  }

  /** The outputs not created in the transactions `gone`. */
  function KeepUtxos(utxos: seq<UtxoRow>, gone: set<TxId>): seq<UtxoRow> {
    if utxos == [] then [] else
      var last := utxos[|utxos| - 1];
      KeepUtxos(utxos[..|utxos| - 1], gone) + if last.createdAt in gone then [] else [last]
  }

  function UnspendRow(u: UtxoRow, gone: set<TxId>): UtxoRow {
    if u.spentAt.Some? && u.spentAt.value in gone then u.(spentAt := None) else u
  }

  /** Spends by the transactions `gone` are undone. */
  function Unspend(utxos: seq<UtxoRow>, gone: set<TxId>): seq<UtxoRow> {
    seq(|utxos|, i requires 0 <= i < |utxos| => UnspendRow(utxos[i], gone))
  }

  // ---- Well-formed tables ---------------------------------------------------

  function HashesOf(blocks: seq<BlockRow>): set<Hash> {
    set b | b in blocks :: b.hash
  }

  predicate HeightStored(blocks: seq<BlockRow>, height: nat) {
    exists i :: 0 <= i < |blocks| && blocks[i].height == height
  }

  function IdsOf(txs: seq<TxRow>): set<TxId> {
    set x | x in txs :: x.id
  }

  predicate UniqueRefs(utxos: seq<UtxoRow>) {
    forall i, j :: 0 <= i < j < |utxos| ==> utxos[i].ref != utxos[j].ref
  }

  /** Associations point at stored rows. */
  predicate Referential(blocks: seq<BlockRow>, txs: seq<TxRow>, utxos: seq<UtxoRow>) {
    && (forall x :: x in txs ==> x.id.block in HashesOf(blocks))
    && (forall u :: u in utxos ==> u.createdAt in IdsOf(txs) && (u.spentAt.Some? ==> u.spentAt.value in IdsOf(txs)))
  }

  /** One hash-linked chain of consecutive heights. Only its first block may lack a stored parent. */
  predicate Chain(blocks: seq<BlockRow>) {
    && (forall i, j :: 0 <= i < j < |blocks| ==> blocks[i].hash != blocks[j].hash)
    && (forall i :: 0 <= i < |blocks| ==> blocks[i].height == blocks[0].height + i)
    && (forall i :: 0 < i < |blocks| ==> blocks[i].parent == Some(blocks[i - 1].hash))
  }

  /** The tip recorded in the sync state is the last block of the chain. */
  predicate TipIs(blocks: seq<BlockRow>, sync: SyncState) {
    if blocks == [] then sync.lastIndexedHash == None && sync.lastIndexedHeight == 0
    else sync.lastIndexedHash == Some(blocks[|blocks| - 1].hash) && sync.lastIndexedHeight == blocks[|blocks| - 1].height
  }

  predicate WellFormed(t: Tables) {
    Chain(t.blocks) && TipIs(t.blocks, t.sync) && UniqueRefs(t.utxos) && Referential(t.blocks, t.txs, t.utxos)
  }

  // ---- Facts about the figures ----------------------------------------------

  predicate OwnsAny(utxos: seq<UtxoRow>, a: Address) {
    exists i :: 0 <= i < |utxos| && OwnsNight(utxos[i], a)
  }

  predicate SentAny(txs: seq<TxRow>, a: Address) {
    exists i :: 0 <= i < |txs| && SentBy(txs[i], a)
  }

  /** An address with a NIGHT output has received something; one without has no figures from outputs. */
  lemma {:induction false} UtxoTotals(utxos: seq<UtxoRow>, a: Address, f: Figure)
    ensures UtxoTotal(utxos, a, TxReceivedCount) >= 0 && UtxoTotal(utxos, a, TxSentCount) == 0
    ensures OwnsAny(utxos, a) ==> UtxoTotal(utxos, a, TxReceivedCount) > 0
    ensures !OwnsAny(utxos, a) ==> UtxoTotal(utxos, a, f) == 0
  {
    if utxos != [] {
      var init := utxos[..|utxos| - 1];
      UtxoTotals(init, a, f);
      assert forall i :: 0 <= i < |init| ==> init[i] == utxos[i];
    }
  }

  lemma {:induction false} TxTotals(txs: seq<TxRow>, a: Address, f: Figure)
    ensures TxTotal(txs, a, TxSentCount) >= 0 && TxTotal(txs, a, TxReceivedCount) == 0
    ensures SentAny(txs, a) ==> TxTotal(txs, a, TxSentCount) > 0
    ensures !SentAny(txs, a) ==> TxTotal(txs, a, f) == 0
  {
    if txs != [] {
      var init := txs[..|txs| - 1];
      TxTotals(init, a, f);
      assert forall i :: 0 <= i < |init| ==> init[i] == txs[i];
    }
  }

  /** An address has figures exactly when it ever owned a NIGHT output or sent NIGHT. */
  lemma ComputeExists(t: Tables, a: Address, f: Figure)
    ensures Compute(t, a).Some? <==> OwnsAny(t.utxos, a) || SentAny(t.txs, a)
    ensures Compute(t, a).None? ==> Counter(t.utxos, t.txs, a, f) == 0
  {
    UtxoTotals(t.utxos, a, f);
    UtxoTotals(t.utxos, a, TxReceivedCount);
    TxTotals(t.txs, a, f);
    TxTotals(t.txs, a, TxSentCount);
  }

  lemma {:induction false} UtxoTotalConcat(x: seq<UtxoRow>, y: seq<UtxoRow>, a: Address, f: Figure)
    ensures UtxoTotal(x + y, a, f) == UtxoTotal(x, a, f) + UtxoTotal(y, a, f)
  {
    if y == [] {
      assert x + y == x;
    } else {
      UtxoTotalConcat(x, y[..|y| - 1], a, f);
      assert (x + y)[..|x + y| - 1] == x + y[..|y| - 1];
    }
  }

  lemma {:induction false} TxTotalConcat(x: seq<TxRow>, y: seq<TxRow>, a: Address, f: Figure)
    ensures TxTotal(x + y, a, f) == TxTotal(x, a, f) + TxTotal(y, a, f)
  {
    if y == [] {
      assert x + y == x;
    } else {
      TxTotalConcat(x, y[..|y| - 1], a, f);
      assert (x + y)[..|x + y| - 1] == x + y[..|y| - 1];
    }
  }

  lemma {:induction false} UtxoTotalUpdate(x: seq<UtxoRow>, i: nat, r: UtxoRow, a: Address, f: Figure)
    requires i < |x|
    ensures UtxoTotal(x[i := r], a, f) == UtxoTotal(x, a, f) + UtxoShare(r, a, f) - UtxoShare(x[i], a, f)
  {
    var last := |x| - 1;
    if i == last {
      assert x[i := r][..last] == x[..last];
    } else {
      UtxoTotalUpdate(x[..last], i, r, a, f);
      assert x[i := r][..last] == x[..last][i := r];
    }
  }

  lemma {:induction false} LowestHighest(heights: seq<nat>)
    ensures Lowest(heights).None? <==> heights == []
    ensures Highest(heights).None? <==> heights == []
    ensures heights != [] ==> Lowest(heights).value in heights && forall h :: h in heights ==> Lowest(heights).value <= h
    ensures heights != [] ==> Highest(heights).value in heights && forall h :: h in heights ==> h <= Highest(heights).value
  {
    if heights != [] {
      var init, last := heights[..|heights| - 1], heights[|heights| - 1];
      LowestHighest(init);
      assert heights == init + [last];
    }
  }

  lemma {:induction false} HeightsMembers(blocks: seq<BlockRow>, hashes: set<Hash>)
    ensures forall h :: h in HeightsOf(blocks, hashes) <==> exists b :: b in blocks && b.hash in hashes && b.height == h
  {
    if blocks != [] {
      var init, last := blocks[..|blocks| - 1], blocks[|blocks| - 1];
      HeightsMembers(init, hashes);
      assert blocks == init + [last];
    }
  }

  /** Hashes of blocks that are not in the table do not matter. */
  lemma {:induction false} HeightsSame(blocks: seq<BlockRow>, p: set<Hash>, q: set<Hash>)
    requires forall b :: b in blocks ==> (b.hash in p <==> b.hash in q)
    ensures HeightsOf(blocks, p) == HeightsOf(blocks, q)
  {
    if blocks != [] {
      HeightsSame(blocks[..|blocks| - 1], p, q);
      assert blocks[|blocks| - 1] in blocks;
    }
  }

  /** With figures, both heights are known: the rows behind them are stored. */
  lemma ActiveAddressHasHeights(t: Tables, a: Address)
    requires Referential(t.blocks, t.txs, t.utxos)
    requires Compute(t, a).Some?
    ensures HeightsOf(t.blocks, ActiveBlocks(t.utxos, t.txs, a)) != []
  {
    ComputeExists(t, a, Balance);
    var hashes := ActiveBlocks(t.utxos, t.txs, a);
    var x: TxRow;
    if OwnsAny(t.utxos, a) {
      var i :| 0 <= i < |t.utxos| && OwnsNight(t.utxos[i], a);
      assert t.utxos[i] in t.utxos && t.utxos[i].createdAt in IdsOf(t.txs);
      x :| x in t.txs && x.id == t.utxos[i].createdAt;
      assert x.id in ActivityTxs(t.utxos, a);
    } else {
      var i :| 0 <= i < |t.txs| && SentBy(t.txs[i], a);
      x := t.txs[i];
    }
    assert x.id.block in hashes && x.id.block in HashesOf(t.blocks);
    var b :| b in t.blocks && b.hash == x.id.block;
    HeightsMembers(t.blocks, hashes);
    assert b.height in HeightsOf(t.blocks, hashes);
  }
}
