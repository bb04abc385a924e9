/** What storing a block writes, said from its extrinsics alone, and what a rollback leaves of the rows. */
module StoredRows {
  import opened Wrappers
  import opened IndexTables
  import opened Persist
  import opened PersistProofs
  import opened Rollback

  // ---- Transactions ---------------------------------------------------------

  /** The row of an extrinsic: the block that holds it, its place there, and who sent what to whom. */
  predicate IsTransaction(x: TxRow, b: PreparedBlock, i: nat)
    requires i < |b.extrinsics|
  {
    && x.id.block == b.hash && x.id.position == i
    && x.sender == b.extrinsics[i].sender && x.receiver == b.extrinsics[i].receiver
    && x.nightAmount == b.extrinsics[i].nightAmount
  }

  /** A stored block adds one row per extrinsic, in order, behind the rows there were. */
  lemma StoredTransactions(t: Tables, b: PreparedBlock, requireParent: bool)
    requires OutcomeOf(t, b, requireParent).Written?
    ensures var txs := PersistBlock(t, b, requireParent).txs;
      && |txs| == |t.txs| + |b.extrinsics| && txs[..|t.txs|] == t.txs
      && forall k :: |t.txs| <= k < |txs| ==> IsTransaction(txs[k], b, k - |t.txs|)
  {
  }

  /** The block's own row: its hash, its height, and its parent if that is stored. */
  lemma StoredBlock(t: Tables, b: PreparedBlock, requireParent: bool)
    requires OutcomeOf(t, b, requireParent).Written?
    ensures var after := PersistBlock(t, b, requireParent);
      && |after.blocks| == |t.blocks| + 1 && after.blocks[..|t.blocks|] == t.blocks
      && after.blocks[|t.blocks|].hash == b.hash && after.blocks[|t.blocks|].height == b.height
      && (after.blocks[|t.blocks|].parent == Some(b.parentHash) <==> exists r :: r in t.blocks && r.hash == b.parentHash)
      && (after.blocks[|t.blocks|].parent.Some? ==> after.blocks[|t.blocks|].parent == Some(b.parentHash))
      && after.sync.lastIndexedHash == Some(b.hash) && after.sync.lastIndexedHeight == b.height
      && after.sync.reorgGeneration == t.sync.reorgGeneration
  {
  }

  // ---- Outputs --------------------------------------------------------------

  /** How many outputs the first `n` extrinsics create. */
  function CreatedCount(b: PreparedBlock, n: nat): nat
    requires n <= |b.extrinsics|
  {
    if n == 0 then 0 else CreatedCount(b, n - 1) + |b.extrinsics[n - 1].created|
  }

  /** An output as its event names it, created by its extrinsic. */
  predicate IsOutput(u: UtxoRow, b: PreparedBlock, i: nat, k: nat)
    requires i < |b.extrinsics| && k < |b.extrinsics[i].created|
  {
    var e := b.extrinsics[i].created[k];
    && u.ref == e.ref && u.owner == e.owner && u.token == e.token && u.value == e.value
    && u.createdAt.block == b.hash && u.createdAt.position == i
  }

  lemma {:induction false} CreatedShape(b: PreparedBlock, n: nat)
    requires n <= |b.extrinsics|
    ensures |CreatedRows(b, n)| == CreatedCount(b, n)
    ensures forall j :: 0 <= j < |CreatedRows(b, n)| ==> CreatedRows(b, n)[j].spentAt.None?
  {
    if n > 0 { CreatedShape(b, n - 1); }
  }

  lemma {:induction false} CreatedAt(b: PreparedBlock, n: nat, i: nat, k: nat)
    requires i < n <= |b.extrinsics| && k < |b.extrinsics[i].created|
    ensures CreatedCount(b, i) + k < |CreatedRows(b, n)| && IsOutput(CreatedRows(b, n)[CreatedCount(b, i) + k], b, i, k)
  {
    CreatedShape(b, n - 1);
    if i < n - 1 { CreatedAt(b, n - 1, i, k); }
  }

  /** The spender of an output in a list of spends: the first that names it. */
  function FirstSpend(spends: seq<Spend>, ref: OutRef): Option<TxId> {
    if spends == [] then None else
      var first, last := FirstSpend(spends[..|spends| - 1], ref), spends[|spends| - 1];
      if first.Some? then first else if last.ref == ref then Some(last.spender) else None
  }

  lemma {:induction false} FindUnique(utxos: seq<UtxoRow>, k: nat)
    requires UniqueRefs(utxos) && k < |utxos|
    ensures Find(utxos, utxos[k].ref) == k
  {
    var i := Find(utxos, utxos[k].ref);
    assert i < |utxos| && utxos[i].ref == utxos[k].ref;
  }

  /** An output without a spender gets the first that names it; nothing else about a row changes. */
  lemma {:induction false} SpendsMark(s: SpendState, spends: seq<Spend>, k: nat)
    requires UniqueRefs(s.utxos) && k < |s.utxos|
    ensures var after := ApplySpends(s, spends).utxos;
      && |after| == |s.utxos| && UniqueRefs(after)
      && after[k] == if s.utxos[k].spentAt.Some? then s.utxos[k] else s.utxos[k].(spentAt := FirstSpend(spends, s.utxos[k].ref))
  {
    if spends != [] {
      SpendsMark(s, spends[..|spends| - 1], k);
      OneSpendMarks(ApplySpends(s, spends[..|spends| - 1]), spends[|spends| - 1], k);
    }
  }

  lemma OneSpendMarks(s: SpendState, p: Spend, k: nat)
    requires UniqueRefs(s.utxos) && k < |s.utxos|
    ensures var after := ApplySpend(s, p).utxos;
      && |after| == |s.utxos| && UniqueRefs(after)
      && after[k] == if s.utxos[k].spentAt.None? && s.utxos[k].ref == p.ref then s.utxos[k].(spentAt := Some(p.spender)) else s.utxos[k]
  {
    var after := ApplySpend(s, p).utxos;
    FindUnique(s.utxos, k);
    assert forall j :: 0 <= j < |s.utxos| ==> after[j].ref == s.utxos[j].ref;
  }

  lemma {:induction false} FirstSpendConcat(p: seq<Spend>, q: seq<Spend>, ref: OutRef)
    ensures FirstSpend(p + q, ref) == if FirstSpend(p, ref).Some? then FirstSpend(p, ref) else FirstSpend(q, ref)
  {
    if q == [] {
      assert p + q == p;
    } else {
      assert (p + q)[..|p + q| - 1] == p + q[..|q| - 1];
      FirstSpendConcat(p, q[..|q| - 1], ref);
    }
  }

  lemma {:induction false} FirstOfOne(spends: seq<Spend>, spent: seq<OutRef>, spender: TxId, ref: OutRef)
    requires |spends| == |spent| && forall k :: 0 <= k < |spent| ==> spends[k] == Spend(spent[k], spender)
    ensures FirstSpend(spends, ref) == if ref in spent then Some(spender) else None
  {
    if spends != [] {
      var n := |spent| - 1;
      FirstOfOne(spends[..n], spent[..n], spender, ref);
      assert spent == spent[..n] + [spent[n]];
    }
  }

  /** The first extrinsic that spends the output, or none does. */
  predicate IsSpender(b: PreparedBlock, n: nat, ref: OutRef, spentAt: Option<TxId>)
    requires n <= |b.extrinsics|
  {
    match spentAt
    case None => forall i :: 0 <= i < n ==> ref !in b.extrinsics[i].spent
    case Some(id) =>
      && id.block == b.hash && id.position < n && ref in b.extrinsics[id.position].spent
      && forall i :: 0 <= i < id.position ==> ref !in b.extrinsics[i].spent
  }

  lemma {:induction false} FirstSpender(b: PreparedBlock, n: nat, ref: OutRef)
    requires n <= |b.extrinsics|
    ensures IsSpender(b, n, ref, FirstSpend(SpendsOf(b, n), ref))
  {
    if n > 0 {
      FirstSpender(b, n - 1, ref);
      FirstSpendConcat(SpendsOf(b, n - 1), SpentBy(b, n - 1), ref);
      FirstOfOne(SpentBy(b, n - 1), b.extrinsics[n - 1].spent, TxId(b.hash, n - 1), ref);
    }
  }

  /** Any row after the block, against the row before or the new output: only a first spend is added. */
  predicate OnlySpent(before: UtxoRow, after: UtxoRow, b: PreparedBlock) {
    && after == before.(spentAt := after.spentAt)
    && if before.spentAt.Some? then after.spentAt == before.spentAt else IsSpender(b, |b.extrinsics|, before.ref, after.spentAt)
  }

  lemma OutputSpent(t: Tables, b: PreparedBlock, k: nat)
    requires UniqueRefs(t.utxos + CreatedRows(b, |b.extrinsics|)) && k < |t.utxos + CreatedRows(b, |b.extrinsics|)|
    ensures |AfterSpends(t, b).utxos| == |t.utxos + CreatedRows(b, |b.extrinsics|)|
    ensures OnlySpent((t.utxos + CreatedRows(b, |b.extrinsics|))[k], AfterSpends(t, b).utxos[k], b)
  {
    var n := |b.extrinsics|;
    var s := SpendState(t.utxos + CreatedRows(b, n), ExtrinsicDeltas(b, n));
    SpendsMark(s, SpendsOf(b, n), k);
    FirstSpender(b, n, s.utxos[k].ref);
  }

  lemma OutputCount(t: Tables, b: PreparedBlock)
    requires UniqueRefs(t.utxos + CreatedRows(b, |b.extrinsics|))
    ensures |AfterSpends(t, b).utxos| == |t.utxos| + CreatedCount(b, |b.extrinsics|)
  {
    CreatedShape(b, |b.extrinsics|);
    if t.utxos + CreatedRows(b, |b.extrinsics|) != [] {
      OutputSpent(t, b, 0);
    } else {
      NoOutputs(SpendState([], ExtrinsicDeltas(b, |b.extrinsics|)), SpendsOf(b, |b.extrinsics|));
    }
  }

  lemma {:induction false} NoOutputs(s: SpendState, spends: seq<Spend>)
    requires s.utxos == []
    ensures ApplySpends(s, spends).utxos == []
  {
    if spends != [] { NoOutputs(s, spends[..|spends| - 1]); }
  }

  /**
   * A stored block leaves every output row as it was, adds one per creation event, in order, and marks each row without
   * a spender with the first extrinsic of the block that spends it.
   */
  lemma StoredOutputs(t: Tables, b: PreparedBlock, requireParent: bool)
    requires OutcomeOf(t, b, requireParent).Written?
    ensures var utxos := PersistBlock(t, b, requireParent).utxos;
      && |utxos| == |t.utxos| + CreatedCount(b, |b.extrinsics|)
      && (forall k :: 0 <= k < |t.utxos| ==> OnlySpent(t.utxos[k], utxos[k], b))
    ensures forall i: nat, k: nat :: i < |b.extrinsics| && k < |b.extrinsics[i].created| ==> NewOutput(t, b, requireParent, i, k)
  {
    OutputCount(t, b);
    var before := t.utxos + CreatedRows(b, |b.extrinsics|);
    forall k | 0 <= k < |t.utxos| ensures OnlySpent(t.utxos[k], PersistBlock(t, b, requireParent).utxos[k], b) {
      CreatedShape(b, |b.extrinsics|);
      OutputSpent(t, b, k);
      assert before[k] == t.utxos[k];
    }
    forall i: nat, k: nat | i < |b.extrinsics| && k < |b.extrinsics[i].created| ensures NewOutput(t, b, requireParent, i, k) {
      NewOutputIs(t, b, requireParent, i, k);
    }
  }

  /** The row of the `k`-th output of the `i`-th extrinsic. */
  predicate NewOutput(t: Tables, b: PreparedBlock, requireParent: bool, i: nat, k: nat)
    requires i < |b.extrinsics| && k < |b.extrinsics[i].created|
  {
    var utxos, at := PersistBlock(t, b, requireParent).utxos, |t.utxos| + CreatedCount(b, i) + k;
    at < |utxos| && IsOutput(utxos[at], b, i, k) && IsSpender(b, |b.extrinsics|, utxos[at].ref, utxos[at].spentAt)
  }

  lemma NewOutputIs(t: Tables, b: PreparedBlock, requireParent: bool, i: nat, k: nat)
    requires OutcomeOf(t, b, requireParent).Written? && i < |b.extrinsics| && k < |b.extrinsics[i].created|
    ensures NewOutput(t, b, requireParent, i, k)
  {
    var created, at := CreatedRows(b, |b.extrinsics|), CreatedCount(b, i) + k;
    CreatedAt(b, |b.extrinsics|, i, k);
    CreatedShape(b, |b.extrinsics|);
    OutputSpent(t, b, |t.utxos| + at);
    assert (t.utxos + created)[|t.utxos| + at] == created[at];
  }

  // ---- Balances -------------------------------------------------------------

  /** The NIGHT that outputs pay to an address. */
  function PaidTo(created: seq<NewUtxo>, a: Address): int {
    if created == [] then 0 else
      var last := created[|created| - 1];
      PaidTo(created[..|created| - 1], a) + if last.owner == a && last.token.Night? then last.value else 0
  }

  function PaymentsTo(created: seq<NewUtxo>, a: Address): nat {
    if created == [] then 0 else
      var last := created[|created| - 1];
      PaymentsTo(created[..|created| - 1], a) + if last.owner == a && last.token.Night? then 1 else 0
  }

  /** An extrinsic that moves NIGHT from the address to a known, different one. */
  predicate Sends(e: Extrinsic, a: Address) {
    e.sender == Some(a) && e.receiver.Some? && e.receiver != Some(a) && e.nightAmount.Some? && e.nightAmount.value > 0
  }

  function Received(b: PreparedBlock, n: nat, a: Address): int
    requires n <= |b.extrinsics|
  {
    if n == 0 then 0 else Received(b, n - 1, a) + PaidTo(b.extrinsics[n - 1].created, a)
  }

  function Receipts(b: PreparedBlock, n: nat, a: Address): nat
    requires n <= |b.extrinsics|
  {
    if n == 0 then 0 else Receipts(b, n - 1, a) + PaymentsTo(b.extrinsics[n - 1].created, a)
  }

  function Transferred(b: PreparedBlock, n: nat, a: Address): int
    requires n <= |b.extrinsics|
  {
    if n == 0 then 0 else
      Transferred(b, n - 1, a) + if Sends(b.extrinsics[n - 1], a) then b.extrinsics[n - 1].nightAmount.value else 0
  }

  function Transfers(b: PreparedBlock, n: nat, a: Address): nat
    requires n <= |b.extrinsics|
  {
    if n == 0 then 0 else Transfers(b, n - 1, a) + if Sends(b.extrinsics[n - 1], a) then 1 else 0
  }

  /** A NIGHT output of the address that has a spender after the block and had none before. */
  predicate SpentNow(before: seq<UtxoRow>, after: seq<UtxoRow>, k: nat, a: Address)
    requires k < |after|
  {
    && after[k].owner == a && after[k].token.Night? && after[k].spentAt.Some?
    && (k < |before| ==> before[k].spentAt.None?)
  }

  function SpentValue(before: seq<UtxoRow>, after: seq<UtxoRow>, n: nat, a: Address): int
    requires n <= |after|
  {
    if n == 0 then 0 else SpentValue(before, after, n - 1, a) + if SpentNow(before, after, n - 1, a) then after[n - 1].value else 0
  }

  function SpentCount(before: seq<UtxoRow>, after: seq<UtxoRow>, n: nat, a: Address): nat
    requires n <= |after|
  {
    if n == 0 then 0 else SpentCount(before, after, n - 1, a) + if SpentNow(before, after, n - 1, a) then 1 else 0
  }

  /** What the outputs and transfers of the first `n` extrinsics add to a figure. */
  function Gained(b: PreparedBlock, n: nat, a: Address, f: Figure): int
    requires n <= |b.extrinsics|
  {
    match f
    case Balance => Received(b, n, a)
    case UtxoCount => Receipts(b, n, a)
    case TxReceivedCount => Receipts(b, n, a)
    case TotalReceived => Received(b, n, a)
    case TxSentCount => Transfers(b, n, a)
    case TotalSent => Transferred(b, n, a)
  }

  /** What the newly spent outputs take from a figure. */
  function Taken(before: seq<UtxoRow>, after: seq<UtxoRow>, n: nat, a: Address, f: Figure): int
    requires n <= |after|
  {
    match f
    case Balance => SpentValue(before, after, n, a)
    case UtxoCount => SpentCount(before, after, n, a)
    case _ => 0
  }

  lemma {:induction false} PaidTotals(created: seq<NewUtxo>, rows: seq<UtxoRow>, creator: TxId, a: Address, f: Figure)
    requires |rows| == |created| && forall k :: 0 <= k < |created| ==> rows[k] == CreatedRow(created[k], creator)
    ensures UtxoTotal(rows, a, f) == match f
      case Balance => PaidTo(created, a)
      case TotalReceived => PaidTo(created, a)
      case UtxoCount => PaymentsTo(created, a)
      case TxReceivedCount => PaymentsTo(created, a)
      case _ => 0
  {
    if created != [] {
      var n := |created| - 1;
      PaidTotals(created[..n], rows[..n], creator, a, f);
    }
  }

  lemma {:induction false} GainedTotals(b: PreparedBlock, n: nat, a: Address, f: Figure)
    requires n <= |b.extrinsics|
    ensures UtxoTotal(CreatedRows(b, n), a, f) + TxTotal(TxRows(b, n), a, f) == Gained(b, n, a, f)
  {
    if n > 0 {
      GainedTotals(b, n - 1, a, f);
      PaidTotals(b.extrinsics[n - 1].created, CreatedBy(b, n - 1), TxId(b.hash, n - 1), a, f);
      UtxoTotalConcat(CreatedRows(b, n - 1), CreatedBy(b, n - 1), a, f);
      TxPush(b, n, a, f);
      assert SentBy(TxRowOf(b, n - 1), a) <==> Sends(b.extrinsics[n - 1], a);
    }
  }

  /** The rows before and behind the spends, with new outputs unspent before. */
  predicate Spending(stored: seq<UtxoRow>, before: seq<UtxoRow>, after: seq<UtxoRow>, ids: set<TxId>) {
    && SpentMore(before, after, ids) && stored <= before
    && forall k :: |stored| <= k < |before| ==> before[k].spentAt.None?
  }

  lemma {:induction false} TakenTotals(
      stored: seq<UtxoRow>, before: seq<UtxoRow>, after: seq<UtxoRow>, ids: set<TxId>, n: nat, a: Address, f: Figure)
    requires Spending(stored, before, after, ids) && n <= |after|
    ensures UtxoTotal(after[..n], a, f) == UtxoTotal(before[..n], a, f) - Taken(stored, after, n, a, f)
  {
    if n > 0 {
      TakenTotals(stored, before, after, ids, n - 1, a, f);
      assert after[..n][..n - 1] == after[..n - 1] && before[..n][..n - 1] == before[..n - 1];
      assert after[n - 1] == before[n - 1] || after[n - 1] == before[n - 1].(spentAt := after[n - 1].spentAt);
      assert n - 1 < |stored| ==> stored[n - 1] == before[n - 1];
      assert SpentNow(stored, after, n - 1, a) <==> OwnsNight(before[n - 1], a) && after[n - 1] != before[n - 1];
    }
  }

  lemma {:induction false} SpentSome(
      stored: seq<UtxoRow>, before: seq<UtxoRow>, after: seq<UtxoRow>, ids: set<TxId>, n: nat, a: Address)
    requires Spending(stored, before, after, ids) && n <= |after|
    ensures SpentCount(stored, after, n, a) > 0 <==> exists i :: 0 <= i < n && OwnsNight(before[i], a) && after[i] != before[i]
  {
    if n > 0 {
      SpentSome(stored, before, after, ids, n - 1, a);
      assert n - 1 < |stored| ==> stored[n - 1] == before[n - 1];
      assert SpentNow(stored, after, n - 1, a) <==> OwnsNight(before[n - 1], a) && after[n - 1] != before[n - 1];
    }
  }

  lemma SpendingOf(t: Tables, b: PreparedBlock, a: Address)
    ensures Spending(t.utxos, BeforeSpends(t, b), AfterSpends(t, b).utxos, NewIds(b))
  {
    AfterSpendsShape(t, b, a);
    CreatedShape(b, |b.extrinsics|);
  }

  /** The collected delta of an address, from the extrinsics and the outputs they spent. */
  lemma BlockDelta(t: Tables, b: PreparedBlock, a: Address, f: Figure)
    ensures var after, n := AfterSpends(t, b), |b.extrinsics|;
      DeltaFor(after.deltas, a).At(f) == Gained(b, n, a, f) - Taken(t.utxos, after.utxos, |after.utxos|, a, f)
  {
    var after, before, n := AfterSpends(t, b).utxos, BeforeSpends(t, b), |b.extrinsics|;
    BlockTotals(t, b, a, f);
    SpendingOf(t, b, a);
    TakenTotals(t.utxos, before, after, NewIds(b), |after|, a, f);
    assert after[..|after|] == after && before[..|after|] == before;
    UtxoTotalConcat(t.utxos, CreatedRows(b, n), a, f);
    TxTotalConcat(t.txs, TxRows(b, n), a, f);
    GainedTotals(b, n, a, f);
  }

  /** A block touches an address that it pays, that sends in it, or whose output it spends. */
  predicate Touched(b: PreparedBlock, before: seq<UtxoRow>, after: seq<UtxoRow>, a: Address) {
    Receipts(b, |b.extrinsics|, a) > 0 || Transfers(b, |b.extrinsics|, a) > 0 || SpentCount(before, after, |after|, a) > 0
  }

  lemma DeltaIfTouched(t: Tables, b: PreparedBlock, a: Address)
    ensures a in AfterSpends(t, b).deltas <==> Touched(b, t.utxos, AfterSpends(t, b).utxos, a)
  {
    var n, after := |b.extrinsics|, AfterSpends(t, b).utxos;
    AfterSpendsShape(t, b, a);
    SpendingOf(t, b, a);
    SpentSome(t.utxos, BeforeSpends(t, b), after, NewIds(b), |after|, a);
    GainedTotals(b, n, a, TxReceivedCount);
    GainedTotals(b, n, a, TxSentCount);
    UtxoTotals(CreatedRows(b, n), a, Balance);
    TxTotals(TxRows(b, n), a, Balance);
    UtxoTotals(CreatedRows(b, n), a, TxReceivedCount);
    TxTotals(TxRows(b, n), a, TxSentCount);
  }

  function CountersBefore(row: Option<BalanceRow>): Counters {
    if row.Some? then row.value.figures.counters else ZERO
  }

  /** The additive figures of a touched address, after the block against before. */
  predicate Counted(was: Counters, now: Counters, b: PreparedBlock, before: seq<UtxoRow>, after: seq<UtxoRow>, a: Address) {
    var n, m := |b.extrinsics|, |after|;
    && now.balance == was.balance + Received(b, n, a) - SpentValue(before, after, m, a)
    && now.utxoCount == was.utxoCount + Receipts(b, n, a) - SpentCount(before, after, m, a)
    && now.txReceivedCount == was.txReceivedCount + Receipts(b, n, a)
    && now.totalReceived == was.totalReceived + Received(b, n, a)
    && now.txSentCount == was.txSentCount + Transfers(b, n, a)
    && now.totalSent == was.totalSent + Transferred(b, n, a)
  }

  /** The heights of a touched address: the block is its last activity, and its first unless it was seen lower. */
  predicate Dated(was: Option<BalanceRow>, now: Figures, height: nat) {
    && now.lastActivity == Some(height)
    && now.firstSeen.Some? && now.firstSeen.value <= height
    && match was
       case None => now.firstSeen.value == height
       case Some(r) =>
         if r.figures.firstSeen.None? then now.firstSeen.value == 0
         else now.firstSeen.value <= r.figures.firstSeen.value && now.firstSeen in {Some(height), r.figures.firstSeen}
  }

  /**
   * A stored block changes the balance row of an address exactly when it pays the address, moves NIGHT from it to a
   * known other one, or spends its output, and then by those payments, transfers and spends.
   */
  lemma StoredBalance(t: Tables, b: PreparedBlock, requireParent: bool, a: Address)
    requires OutcomeOf(t, b, requireParent).Written?
    ensures var after := PersistBlock(t, b, requireParent);
      var was, now := RowOf(t.balances, a), RowOf(after.balances, a);
      if !Touched(b, t.utxos, after.utxos, a) then now == was else
        && now.Some? && now.value.dust == (was.Some? && was.value.dust)
        && Counted(CountersBefore(was), now.value.figures.counters, b, t.utxos, after.utxos, a)
        && Dated(was, now.value.figures, b.height)
  {
    DeltaIfTouched(t, b, a);
    if a in AfterSpends(t, b).deltas {
      CountedDelta(t, b, a);
    }
  }

  lemma CountedDelta(t: Tables, b: PreparedBlock, a: Address)
    ensures Counted(ZERO, DeltaFor(AfterSpends(t, b).deltas, a), b, t.utxos, AfterSpends(t, b).utxos, a)
  {
    BlockDelta(t, b, a, Balance);
    BlockDelta(t, b, a, UtxoCount);
    BlockDelta(t, b, a, TxReceivedCount);
    BlockDelta(t, b, a, TotalReceived);
    BlockDelta(t, b, a, TxSentCount);
    BlockDelta(t, b, a, TotalSent);
  }

  // ---- A rollback -----------------------------------------------------------

  /** The block is stored at the height or above, so it is removed. */
  predicate Removed(blocks: seq<BlockRow>, fromHeight: nat, hash: Hash) {
    exists r :: r in blocks && r.height >= fromHeight && r.hash == hash
  }

  lemma GoneIsRemoved(t: Tables, fromHeight: nat)
    requires WellFormed(t)
    ensures forall hash :: hash in GoneBlocks(t.blocks, fromHeight) <==> Removed(t.blocks, fromHeight, hash)
    ensures forall id :: id in IdsOf(t.txs) ==>
      (id in GoneTxs(t.txs, GoneBlocks(t.blocks, fromHeight)) <==> Removed(t.blocks, fromHeight, id.block))
  {
  }

  /** An output that is left: its creator stays, and a spend that was removed is undone. */
  predicate Left(t: Tables, fromHeight: nat, u: UtxoRow, v: UtxoRow) {
    && !Removed(t.blocks, fromHeight, u.createdAt.block)
    && v == u.(spentAt := if u.spentAt.Some? && Removed(t.blocks, fromHeight, u.spentAt.value.block) then None else u.spentAt)
  }

  lemma LeftRows(t: Tables, fromHeight: nat)
    requires WellFormed(t)
    ensures var after := RolledBack(t, fromHeight);
      var gone := GoneBlocks(t.blocks, fromHeight);
      && (forall r :: r in after.blocks <==> r in t.blocks && r.hash !in gone)
      && (forall x :: x in after.txs <==> x in t.txs && x.id.block !in gone)
      && (forall v :: v in after.utxos <==> exists u :: u in t.utxos && u.createdAt !in GoneTxs(t.txs, gone) && v == UnspendRow(u, GoneTxs(t.txs, gone)))
  {
    var gone := GoneBlocks(t.blocks, fromHeight);
    var ids := GoneTxs(t.txs, gone);
    KeptBlocks(t.blocks, gone);
    KeptTxs(t.txs, gone);
    KeptUtxos(t.utxos, ids);
    UnspentRows(KeepUtxos(t.utxos, ids), ids);
    if gone == {} {
      assert ids == {};
      assert forall u :: UnspendRow(u, ids) == u;
    }
  }

  /** A rollback leaves exactly the blocks below the height, their transactions, and the outputs those created. */
  lemma RolledBackRows(t: Tables, fromHeight: nat)
    requires WellFormed(t)
    ensures var after := RolledBack(t, fromHeight);
      && (forall r :: r in after.blocks <==> r in t.blocks && r.height < fromHeight)
      && (forall x :: x in after.txs <==> x in t.txs && !Removed(t.blocks, fromHeight, x.id.block))
      && (forall v :: v in after.utxos <==> exists u :: u in t.utxos && Left(t, fromHeight, u, v))
      && after.sync.reorgGeneration == t.sync.reorgGeneration + 1
  {
    var after, ids := RolledBack(t, fromHeight), GoneTxs(t.txs, GoneBlocks(t.blocks, fromHeight));
    GoneIsRemoved(t, fromHeight);
    LeftRows(t, fromHeight);
    forall r | r in t.blocks ensures Removed(t.blocks, fromHeight, r.hash) <==> r.height >= fromHeight {
      SameBlock(t.blocks, r);
    }
    forall u, v | u in t.utxos
      ensures Left(t, fromHeight, u, v) <==> u.createdAt !in ids && v == UnspendRow(u, ids)
    {
      assert u.createdAt in IdsOf(t.txs) && (u.spentAt.Some? ==> u.spentAt.value in IdsOf(t.txs));
    }
  }

  lemma SameBlock(blocks: seq<BlockRow>, r: BlockRow)
    requires Chain(blocks) && r in blocks
    ensures forall q :: q in blocks && q.hash == r.hash ==> q == r
  {
  }

  /** A removed block paid the address, was paid by it, or created or spent its output. */
  predicate Handled(t: Tables, fromHeight: nat, a: Address) {
    || (exists x :: x in t.txs && Removed(t.blocks, fromHeight, x.id.block) && (x.sender == Some(a) || x.receiver == Some(a)))
    || (exists u :: u in t.utxos && u.owner == a &&
          (Removed(t.blocks, fromHeight, u.createdAt.block) ||
           (u.spentAt.Some? && Removed(t.blocks, fromHeight, u.spentAt.value.block))))
  }

  lemma AffectedIsHandled(t: Tables, fromHeight: nat, a: Address, ids: set<TxId>)
    requires WellFormed(t) && a in Affected(t.txs, t.utxos, ids)
    requires forall id :: id in IdsOf(t.txs) ==> (id in ids <==> Removed(t.blocks, fromHeight, id.block))
    ensures Handled(t, fromHeight, a)
  {
    if x :| x in t.txs && x.id in ids && (x.sender == Some(a) || x.receiver == Some(a)) {
      assert x.id in IdsOf(t.txs);
    } else {
      var u :| u in t.utxos && u.owner == a && (u.createdAt in ids || (u.spentAt.Some? && u.spentAt.value in ids));
      assert u.createdAt in IdsOf(t.txs) && (u.spentAt.Some? ==> u.spentAt.value in IdsOf(t.txs));
    }
  }

  lemma HandledIsAffected(t: Tables, fromHeight: nat, a: Address, ids: set<TxId>)
    requires WellFormed(t) && Handled(t, fromHeight, a)
    requires forall id :: id in IdsOf(t.txs) ==> (id in ids <==> Removed(t.blocks, fromHeight, id.block))
    ensures a in Affected(t.txs, t.utxos, ids)
  {
    if x :| x in t.txs && Removed(t.blocks, fromHeight, x.id.block) && (x.sender == Some(a) || x.receiver == Some(a)) {
      assert x.id in IdsOf(t.txs);
    } else {
      var u :| u in t.utxos && u.owner == a &&
        (Removed(t.blocks, fromHeight, u.createdAt.block) || (u.spentAt.Some? && Removed(t.blocks, fromHeight, u.spentAt.value.block)));
      assert u.createdAt in IdsOf(t.txs) && (u.spentAt.Some? ==> u.spentAt.value in IdsOf(t.txs));
    }
  }

  /**
   * A rollback recomputes the row of every address a removed block handled, whatever it said before, and touches no
   * other. Without activity left the row goes, or is zeroed if it is registered for dust.
   */
  lemma RolledBackBalance(t: Tables, fromHeight: nat, a: Address)
    requires WellFormed(t)
    ensures var after := RolledBack(t, fromHeight);
      var was, now, computed := RowOf(t.balances, a), RowOf(after.balances, a), Compute(after, a);
      var dust := was.Some? && was.value.dust;
      if !Handled(t, fromHeight, a) then now == was
      else if computed.Some? then now == Some(BalanceRow(computed.value, dust))
      else if dust then now == Some(BalanceRow(Figures(Counters(0, 0, 0, 0, 0, 0), None, None), true))
      else now == None
  {
    var ids := GoneTxs(t.txs, GoneBlocks(t.blocks, fromHeight));
    GoneIsRemoved(t, fromHeight);
    if a in Affected(t.txs, t.utxos, ids) { AffectedIsHandled(t, fromHeight, a, ids); }
    if Handled(t, fromHeight, a) { HandledIsAffected(t, fromHeight, a, ids); }
  }
}
