/** Merging on-chain disclosure grants, read at some block height, into the table of grants. */
module Disclosure {
  import opened Wrappers

  /** Attester, payload and grantee, which name a grant of one contract. */
  datatype Key = Key(id: nat)

  datatype Record = Record(key: Key, level: nat)

  /** `changedAt` is the height of the last change. `recent` is a row changed within the grace window. */
  datatype Row = Row(level: nat, active: bool, revoked: bool, changedAt: Option<nat>, recent: bool)

  type Table = map<Key, Row>

  function LevelOf(onChain: seq<Record>, k: Key): Option<nat> {
    if onChain == [] then None
    else if onChain[|onChain| - 1].key == k then Some(onChain[|onChain| - 1].level)
    else LevelOf(onChain[..|onChain| - 1], k)
  }

  function RowAt(t: Table, k: Key): Option<Row> {
    if k in t then Some(t[k]) else None
  }

  /** A grant on chain at the height, or with no height known. */
  function Granted(row: Option<Row>, level: nat, height: Option<nat>): Row {
    match row
    case None => Row(level, true, false, height, true)
    case Some(r) =>
      if height.Some? && r.changedAt.Some? && r.changedAt.value > height.value then r
      else if height.None? && r.changedAt.Some? && r.revoked then r
      else Row(level, true, false, if height.Some? then height else r.changedAt, true)
  }

  /** An active row whose grant is not on chain. */
  function Swept(r: Row, height: Option<nat>): Row {
    if !r.active then r
    else if height.Some? && r.changedAt.Some? then
      if r.changedAt.value > height.value then r else r.(active := false, changedAt := height, recent := true)
    else if r.recent then r
    else r.(active := false, changedAt := if height.Some? then height else r.changedAt, recent := true)
  }

  function MergedRow(row: Option<Row>, level: Option<nat>, height: Option<nat>): Option<Row> {
    match level
    case Some(v) => Some(Granted(row, v, height))
    case None => match row case None => None case Some(r) => Some(Swept(r, height))
  }

  /** The table after one reindex. */
  ghost predicate Merged(t: Table, after: Table, onChain: seq<Record>, height: Option<nat>) {
    forall k :: RowAt(after, k) == MergedRow(RowAt(t, k), LevelOf(onChain, k), height)
  }

  // ---- Order ----------------------------------------------------------------

  /** The grants on chain at each height. */
  type History = nat -> map<Key, nat>

  function StampOf(row: Option<Row>): int {
    if row.Some? && row.value.changedAt.Some? then row.value.changedAt.value else -1
  }

  /** A stamped row says what the chain said at its stamp. */
  predicate AgreesAt(r: Row, k: Key, grants: map<Key, nat>) {
    (r.active <==> k in grants) && (r.active ==> r.level == grants[k])
  }

  predicate IsSnapshot(onChain: seq<Record>, grants: map<Key, nat>) {
    && (forall i :: 0 <= i < |onChain| ==> onChain[i].key in grants && grants[onChain[i].key] == onChain[i].level)
    && (forall k :: k in grants ==> exists i :: 0 <= i < |onChain| && onChain[i].key == k)
  }

  lemma {:induction false} LevelIsListed(onChain: seq<Record>, k: Key)
    ensures match LevelOf(onChain, k)
      case Some(v) => exists i :: 0 <= i < |onChain| && onChain[i] == Record(k, v)
      case None => forall i :: 0 <= i < |onChain| ==> onChain[i].key != k
  {
    if onChain != [] && onChain[|onChain| - 1].key != k {
      var init := onChain[..|onChain| - 1];
      LevelIsListed(init, k);
      assert forall i :: 0 <= i < |init| ==> init[i] == onChain[i];
    }
  }

  /**
   * A read at height `h` never lowers a stamp, leaves rows stamped above `h` alone, and every row it stamps says
   * what the chain said at `h`.
   */
  lemma MergeByHeight(t: Table, after: Table, onChain: seq<Record>, h: nat, grants: map<Key, nat>, k: Key)
    requires Merged(t, after, onChain, Some(h)) && IsSnapshot(onChain, grants)
    ensures StampOf(RowAt(after, k)) >= StampOf(RowAt(t, k))
    ensures StampOf(RowAt(t, k)) > h ==> RowAt(after, k) == RowAt(t, k)
    ensures RowAt(after, k) != RowAt(t, k) ==>
      k in after && after[k].changedAt == Some(h) && AgreesAt(after[k], k, grants)
    ensures k in grants && StampOf(RowAt(t, k)) <= h ==>
      k in after && after[k].active && after[k].level == grants[k] && after[k].changedAt == Some(h)
    ensures k !in grants && 0 <= StampOf(RowAt(t, k)) <= h ==> k in after && !after[k].active
  {
    LevelIsListed(onChain, k);
    assert RowAt(after, k) == MergedRow(RowAt(t, k), LevelOf(onChain, k), Some(h));
  }

  /**
   * A read without a height changes no stamp. It grants what is listed, unless a stamp confirms that the grant was
   * revoked; of the rest it sweeps the active rows that were not changed recently.
   */
  lemma MergeWithoutHeight(t: Table, after: Table, onChain: seq<Record>, k: Key)
    requires Merged(t, after, onChain, None)
    ensures k in after <==> k in t || k in Listed(onChain)
    ensures StampOf(RowAt(after, k)) == StampOf(RowAt(t, k))
    ensures k in Listed(onChain) && !(k in t && t[k].changedAt.Some? && t[k].revoked) ==>
      after[k].active && !after[k].revoked && after[k].recent && Record(k, after[k].level) in onChain
    ensures k in Listed(onChain) && k in t && t[k].changedAt.Some? && t[k].revoked ==> after[k] == t[k]
    ensures k !in Listed(onChain) && k in t ==>
      if t[k].active && !t[k].recent then after[k] == t[k].(active := false, recent := true) else after[k] == t[k]
  {
    LevelIsListed(onChain, k);
    assert RowAt(after, k) == MergedRow(RowAt(t, k), LevelOf(onChain, k), None);
  }

  /** A read at a height stamps a row that had no stamp with it, unless the grant is not listed and the row is inactive or recent. */
  lemma MergeUnstamped(t: Table, after: Table, onChain: seq<Record>, h: nat, k: Key)
    requires Merged(t, after, onChain, Some(h)) && k in t && t[k].changedAt.None?
    ensures k in after
    ensures k in Listed(onChain) ==>
      after[k].active && !after[k].revoked && after[k].changedAt == Some(h) && Record(k, after[k].level) in onChain
    ensures k !in Listed(onChain) ==>
      if t[k].active && !t[k].recent then !after[k].active && after[k].changedAt == Some(h) else after[k] == t[k]
  {
    LevelIsListed(onChain, k);
    assert RowAt(after, k) == MergedRow(RowAt(t, k), LevelOf(onChain, k), Some(h));
  }

  datatype Snapshot = Snapshot(height: nat, onChain: seq<Record>)

  function Listed(onChain: seq<Record>): set<Key> {
    set i | 0 <= i < |onChain| :: onChain[i].key
  }

  function MergedTable(t: Table, onChain: seq<Record>, height: Option<nat>): Table {
    map k | k in t.Keys + Listed(onChain) && MergedRow(RowAt(t, k), LevelOf(onChain, k), height).Some? ::
      MergedRow(RowAt(t, k), LevelOf(onChain, k), height).value
  }

  lemma MergedTableIs(t: Table, onChain: seq<Record>, height: Option<nat>)
    ensures Merged(t, MergedTable(t, onChain, height), onChain, height)
  {
    forall k ensures RowAt(MergedTable(t, onChain, height), k) == MergedRow(RowAt(t, k), LevelOf(onChain, k), height) {
      LevelIsListed(onChain, k);
    }
  }

  /** The table after reindexes at known heights, from an empty one. */
  function TableAfter(merges: seq<Snapshot>): Table {
    if merges == [] then map[] else
      var last := merges[|merges| - 1];
      MergedTable(TableAfter(merges[..|merges| - 1]), last.onChain, Some(last.height))
  }

  /** One row of that table. */
  function RowAfter(merges: seq<Snapshot>, k: Key): Option<Row> {
    if merges == [] then None else
      var last := merges[|merges| - 1];
      MergedRow(RowAfter(merges[..|merges| - 1], k), LevelOf(last.onChain, k), Some(last.height))
  }

  lemma {:induction false} RowOfTable(merges: seq<Snapshot>, k: Key)
    ensures RowAt(TableAfter(merges), k) == RowAfter(merges, k)
  {
    if merges != [] {
      var init, last := merges[..|merges| - 1], merges[|merges| - 1];
      RowOfTable(init, k);
      MergedTableIs(TableAfter(init), last.onChain, Some(last.height));
    }
  }

  predicate FromHistory(merges: seq<Snapshot>, history: History) {
    forall i :: 0 <= i < |merges| ==> IsSnapshot(merges[i].onChain, history(merges[i].height))
  }

  lemma ReadsLevel(merges: seq<Snapshot>, history: History, i: nat, k: Key)
    requires FromHistory(merges, history) && i < |merges|
    ensures var grants := history(merges[i].height);
      LevelOf(merges[i].onChain, k) == if k in grants then Some(grants[k]) else None
  {
    LevelIsListed(merges[i].onChain, k);
  }

  /** In whatever order the reads come, every row is stamped and agrees with the chain at its stamp. */
  lemma {:induction false} RowsAgree(merges: seq<Snapshot>, history: History, k: Key)
    requires FromHistory(merges, history)
    ensures match RowAfter(merges, k)
      case None => true
      case Some(r) => r.changedAt.Some? && AgreesAt(r, k, history(r.changedAt.value)) && WasRead(merges, r.changedAt.value)
  {
    if merges != [] {
      var init, n := merges[..|merges| - 1], |merges| - 1;
      assert forall i :: 0 <= i < n ==> init[i] == merges[i];
      RowsAgree(init, history, k);
      ReadsLevel(merges, history, n, k);
      var row := RowAfter(merges, k);
      if row.Some? && row != RowAfter(init, k) {
        assert merges[n].height == row.value.changedAt.value;
      }
    }
  }

  predicate WasRead(merges: seq<Snapshot>, height: nat) {
    exists i :: 0 <= i < |merges| && merges[i].height == height
  }

  /** The active rows and their levels. */
  function ActiveLevels(t: Table): map<Key, nat> {
    map k | k in t && t[k].active :: t[k].level
  }

  predicate Newest(merges: seq<Snapshot>, m: nat)
    requires m < |merges|
  {
    forall i :: 0 <= i < |merges| ==> merges[i].height <= merges[m].height
  }

  // ---- Reads out of order ---------------------------------------------------

  /** A read turns an inactive row active if and only if the chain lists the grant at its height and the row's stamp is no later. */
  lemma InactiveBecomesActive(r: Row, k: Key, onChain: seq<Record>, grants: map<Key, nat>, h: nat)
    requires IsSnapshot(onChain, grants) && !r.active && r.changedAt.Some?
    ensures var after := MergedRow(Some(r), LevelOf(onChain, k), Some(h));
      && after.Some? && (after.value.active <==> k in grants && r.changedAt.value <= h)
      && (!after.value.active ==> after.value == r)
  {
    LevelIsListed(onChain, k);
  }

  /**
   * The read `j` shows the grant as active over a row that is missing or stamped no later, and no read after it is at
   * that height or a greater one without the grant.
   */
  predicate Revives(merges: seq<Snapshot>, j: nat, k: Key)
    requires j < |merges|
  {
    && LevelOf(merges[j].onChain, k).Some?
    && StampOf(RowAfter(merges[..j], k)) <= merges[j].height
    && forall i :: j < i < |merges| && LevelOf(merges[i].onChain, k).None? ==> merges[i].height < merges[j].height
  }

  /** After the newest read a grant on chain stays active with its level, whatever older reads follow. */
  lemma {:induction false} GrantStays(merges: seq<Snapshot>, history: History, m: nat, k: Key)
    requires FromHistory(merges, history) && m < |merges| && Newest(merges, m) && k in history(merges[m].height)
    ensures var row := RowAfter(merges, k);
      row.Some? && row.value.active && row.value.changedAt == Some(merges[m].height) && row.value.level == history(merges[m].height)[k]
    decreases |merges|
  {
    var init, n := merges[..|merges| - 1], |merges| - 1;
    assert forall i :: 0 <= i < n ==> init[i] == merges[i];
    ReadsLevel(merges, history, n, k);
    RowsAgree(init, history, k);
    if m < n {
      GrantStays(init, history, m, k);
    }
  }

  /** Once revived, the row stays active with a stamp no earlier. */
  lemma {:induction false} RevivedStays(merges: seq<Snapshot>, j: nat, k: Key)
    requires j < |merges| && Revives(merges, j, k)
    ensures var row := RowAfter(merges, k); row.Some? && row.value.active && StampOf(row) >= merges[j].height
    decreases |merges|
  {
    var init, n := merges[..|merges| - 1], |merges| - 1;
    assert forall i :: 0 <= i < n ==> init[i] == merges[i];
    if j < n {
      assert init[..j] == merges[..j];
      RevivedStays(init, j, k);
    }
  }

  lemma RevivesLonger(merges: seq<Snapshot>, j: nat, k: Key)
    requires j < |merges| - 1 && Revives(merges[..|merges| - 1], j, k)
    requires LevelOf(merges[|merges| - 1].onChain, k).None? ==> merges[|merges| - 1].height < merges[j].height
    ensures Revives(merges, j, k)
  {
    var init := merges[..|merges| - 1];
    assert init[..j] == merges[..j];
    forall i | j < i < |merges| && LevelOf(merges[i].onChain, k).None? ensures merges[i].height < merges[j].height {
      if i < |init| { assert init[i] == merges[i]; }
    }
  }

  lemma HistoryPrefix(merges: seq<Snapshot>, history: History)
    requires FromHistory(merges, history) && merges != []
    ensures FromHistory(merges[..|merges| - 1], history)
  {
    var init := merges[..|merges| - 1];
    assert forall i :: 0 <= i < |init| ==> init[i] == merges[i];
  }

  /** Before the newest read, no row is stamped later than it. */
  lemma StampedBefore(merges: seq<Snapshot>, history: History, k: Key)
    requires FromHistory(merges, history) && merges != [] && Newest(merges, |merges| - 1)
    ensures var row := RowAfter(merges[..|merges| - 1], k);
      row.Some? ==> row.value.changedAt.Some? && row.value.changedAt.value <= merges[|merges| - 1].height
  {
    HistoryPrefix(merges, history);
    RowsAgree(merges[..|merges| - 1], history, k);
  }

  /** The newest read leaves no row active whose grant is gone. */
  lemma GoneAtNewest(merges: seq<Snapshot>, history: History, k: Key)
    requires FromHistory(merges, history) && merges != [] && Newest(merges, |merges| - 1)
    requires k !in history(merges[|merges| - 1].height)
    ensures RowAfter(merges, k).Some? ==> !RowAfter(merges, k).value.active
  {
    ReadsLevel(merges, history, |merges| - 1, k);
    StampedBefore(merges, history, k);
  }

  /** A grant that is gone at the newest read and active at the end was revived after it. */
  lemma {:induction false} ActiveWasRevived(merges: seq<Snapshot>, history: History, m: nat, k: Key) returns (j: nat)
    requires FromHistory(merges, history) && m < |merges| && Newest(merges, m) && k !in history(merges[m].height)
    requires RowAfter(merges, k).Some? && RowAfter(merges, k).value.active
    ensures m < j < |merges| && Revives(merges, j, k) && StampOf(RowAfter(merges, k)) == merges[j].height
    decreases |merges|
  {
    var n := |merges| - 1;
    if m == n { GoneAtNewest(merges, history, k); }
    j := n;
    if !(LevelOf(merges[n].onChain, k).Some? && StampOf(RowAfter(merges[..n], k)) <= merges[n].height) {
      KeptActive(merges, history, k);
      j := ActiveWasRevived(merges[..n], history, m, k);
      RevivesLonger(merges, j, k);
    }
  }

  /** A row active after a read that did not grant it was active before, and the read did not show it gone since its stamp. */
  lemma KeptActive(merges: seq<Snapshot>, history: History, k: Key)
    requires FromHistory(merges, history) && merges != []
    requires RowAfter(merges, k).Some? && RowAfter(merges, k).value.active
    requires var n := |merges| - 1;
      !(LevelOf(merges[n].onChain, k).Some? && StampOf(RowAfter(merges[..n], k)) <= merges[n].height)
    ensures var n := |merges| - 1;
      && RowAfter(merges[..n], k) == RowAfter(merges, k) && FromHistory(merges[..n], history)
      && (LevelOf(merges[n].onChain, k).None? ==> merges[n].height < StampOf(RowAfter(merges[..n], k)))
  {
    HistoryPrefix(merges, history);
    RowsAgree(merges[..|merges| - 1], history, k);
  }

  function ActiveLevel(row: Option<Row>): Option<nat> {
    if row.Some? && row.value.active then Some(row.value.level) else None
  }

  function LevelIn(levels: map<Key, nat>, k: Key): Option<nat> {
    if k in levels then Some(levels[k]) else None
  }

  lemma SameLevels(p: map<Key, nat>, q: map<Key, nat>)
    requires forall k :: LevelIn(p, k) == LevelIn(q, k)
    ensures p == q
  {
    forall k ensures k in p <==> k in q ensures k in p ==> p[k] == q[k] {
      assert LevelIn(p, k) == LevelIn(q, k);
    }
  }

  /** A row is active with the level of its grant at the newest read, unless it was revived since. */
  lemma RowIsGrant(merges: seq<Snapshot>, history: History, m: nat, k: Key)
    requires FromHistory(merges, history) && m < |merges| && Newest(merges, m)
    ensures LevelIn(ActiveLevels(TableAfter(merges)), k) == ActiveLevel(RowAfter(merges, k))
    ensures ActiveLevel(RowAfter(merges, k)) == LevelIn(history(merges[m].height), k) <==>
      k in history(merges[m].height) || forall j :: m < j < |merges| ==> !Revives(merges, j, k)
  {
    RowOfTable(merges, k);
    if k in history(merges[m].height) {
      GrantStays(merges, history, m, k);
    } else if ActiveLevel(RowAfter(merges, k)).Some? {
      var j := ActiveWasRevived(merges, history, m, k);
    } else if j: nat :| m < j < |merges| && Revives(merges, j, k) {
      RevivedStays(merges, j, k);
    }
  }

  /**
   * Whatever the order of the reads: the active rows are the grants on chain at the greatest height read if and only if
   * no grant gone at that height was revived by a read that came after it.
   */
  lemma NewestReadWins(merges: seq<Snapshot>, history: History, m: nat)
    requires FromHistory(merges, history) && m < |merges| && Newest(merges, m)
    ensures ActiveLevels(TableAfter(merges)) == history(merges[m].height) <==>
      forall j, k :: m < j < |merges| && k !in history(merges[m].height) ==> !Revives(merges, j, k)
  {
    forall k
      ensures LevelIn(ActiveLevels(TableAfter(merges)), k) == LevelIn(history(merges[m].height), k) <==>
        k in history(merges[m].height) || forall j :: m < j < |merges| ==> !Revives(merges, j, k)
    {
      RowIsGrant(merges, history, m, k);
    }
    if forall j, k :: m < j < |merges| && k !in history(merges[m].height) ==> !Revives(merges, j, k) {
      SameLevels(ActiveLevels(TableAfter(merges)), history(merges[m].height));
    }
  }

  /** When no read after the newest one is older, the active rows are its grants. */
  lemma InOrderWins(merges: seq<Snapshot>, history: History)
    requires merges != [] && FromHistory(merges, history) && Newest(merges, |merges| - 1)
    ensures ActiveLevels(TableAfter(merges)) == history(merges[|merges| - 1].height)
  {
    NewestReadWins(merges, history, |merges| - 1);
  }

  /** A grant gone at 3, given again at 4 and gone at 5: the newest read leaves its row as it is, and a late read at 4 revives it. */
  lemma OldReadReactivates(k: Key)
    ensures var merges := [Snapshot(1, [Record(k, 1)]), Snapshot(3, []), Snapshot(5, []), Snapshot(4, [Record(k, 1)])];
      Newest(merges, 2) && Revives(merges, 3, k) && ActiveLevels(TableAfter(merges)) == map[k := 1]
  {
    var merges := [Snapshot(1, [Record(k, 1)]), Snapshot(3, []), Snapshot(5, []), Snapshot(4, [Record(k, 1)])];
    var first, second, third := merges[..1], merges[..2], merges[..3];
    assert first[..0] == [] && second[..1] == first && third[..2] == second && merges[..3] == third;
    assert RowAfter(first, k) == Some(Row(1, true, false, Some(1), true));
    assert RowAfter(second, k) == Some(Row(1, false, false, Some(3), true));
    assert RowAfter(third, k) == RowAfter(second, k);
    assert RowAfter(merges, k) == Some(Row(1, true, false, Some(4), true));
    forall x ensures x in ActiveLevels(TableAfter(merges)) <==> x == k {
      RowOfTable(merges, x);
      if x != k { NeverListed(merges, x); }
    }
    RowOfTable(merges, k);
  }

  lemma {:induction false} NeverListed(merges: seq<Snapshot>, k: Key)
    requires forall i :: 0 <= i < |merges| ==> LevelOf(merges[i].onChain, k).None?
    ensures RowAfter(merges, k).None?
  {
    if merges != [] {
      NeverListed(merges[..|merges| - 1], k);
    }
  }

  // ---- The reindex as it runs -----------------------------------------------

  lemma GrantedTwice(row: Option<Row>, v: nat, w: nat, height: Option<nat>)
    ensures Granted(Some(Granted(row, v, height)), w, height) == Granted(row, w, height)
  {
  }

  /** Rows after the first loop: grants on chain are written, nothing is swept yet. */
  function GrantedRow(row: Option<Row>, level: Option<nat>, height: Option<nat>): Option<Row> {
    match level case Some(v) => Some(Granted(row, v, height)) case None => row
  }

  class Disclosures {
    /** Whether no other writer is at work. */
    const alone: bool
    var rows: Table
    /** The last row each key got from a writer other than the reindex, since it began. */
    ghost var theirs: Table

    constructor (alone: bool)
      ensures rows == map[] && this.alone == alone
    {
      this.alone, rows, theirs := alone, map[], map[];
    }

    /** No row that another writer stamped above the height was overwritten. */
    ghost predicate TheirsStand(height: Option<nat>)
      reads this
    {
      && (alone ==> theirs == map[])
      && forall k :: k in theirs && height.Some? && StampOf(Some(theirs[k])) > height.value ==> RowAt(rows, k) == Some(theirs[k])
    }

    /** While the reindex waits, a confirmed change may stamp an existing row with a newer height. */
    method Wait(height: Option<nat>)
      requires TheirsStand(height)
      modifies this
      ensures TheirsStand(height) && old(theirs).Keys <= theirs.Keys
      ensures forall k :: k !in theirs ==> RowAt(rows, k) == RowAt(old(rows), k)
      ensures rows.Keys == old(rows).Keys
      ensures forall k :: k in rows ==> rows[k] == old(rows)[k] || StampOf(Some(rows[k])) > StampOf(Some(old(rows)[k]))
    {
      var k: Key := *;
      var r: Row := *;
      if !alone && k in rows && StampOf(Some(r)) > StampOf(Some(rows[k])) {
        rows := rows[k := r];
        theirs := theirs[k := r];
      }
    }

    /** Reads a row, and writes the grant only if the row's stamp has not changed since. */
    method WriteGrant(g: Record, height: Option<nat>)
      requires TheirsStand(height)
      modifies this
      ensures TheirsStand(height) && old(theirs).Keys <= theirs.Keys
      ensures forall k :: k !in theirs ==>
        RowAt(rows, k) == if k == g.key then Some(Granted(RowAt(old(rows), k), g.level, height)) else RowAt(old(rows), k)
    {
      if g.key in rows {
        var existing := rows[g.key];
        Wait(height);
        var next := Granted(Some(existing), g.level, height);
        if next != existing && rows[g.key].changedAt == existing.changedAt {
          rows := rows[g.key := next];
        }
      } else {
        Wait(height);
        rows := rows[g.key := Granted(None, g.level, height)];
      }
    }

    /** Sweeps one row that was active when the rows were read, if its stamp has not changed since. */
    method SweepRow(k: Key, read: Row, height: Option<nat>)
      requires TheirsStand(height) && (k !in theirs ==> RowAt(rows, k) == Some(read))
      requires k in rows && (rows[k] == read || StampOf(Some(rows[k])) > StampOf(Some(read)))
      modifies this
      ensures TheirsStand(height) && old(theirs).Keys <= theirs.Keys && rows.Keys == old(rows).Keys
      ensures forall x :: x !in theirs ==> RowAt(rows, x) == if x == k then Some(Swept(read, height)) else RowAt(old(rows), x)
      ensures forall x :: x in rows && x != k ==> rows[x] == old(rows)[x] || StampOf(Some(rows[x])) > StampOf(Some(old(rows)[x]))
    {
      Wait(height);
      var next := Swept(read, height);
      if next != read && rows[k].changedAt == read.changedAt {
        rows := rows[k := next];
      }
    }

    method WriteGrants(onChain: seq<Record>, height: Option<nat>)
      requires TheirsStand(height)
      modifies this
      ensures TheirsStand(height) && old(theirs).Keys <= theirs.Keys
      ensures forall k :: k !in theirs ==> RowAt(rows, k) == GrantedRow(RowAt(old(rows), k), LevelOf(onChain, k), height)
    {
      for i := 0 to |onChain|
        invariant TheirsStand(height) && old(theirs).Keys <= theirs.Keys
        invariant forall k :: k !in theirs ==> RowAt(rows, k) == GrantedRow(RowAt(old(rows), k), LevelOf(onChain[..i], k), height)
      {
        assert onChain[..i + 1][..i] == onChain[..i];
        ghost var before := rows;
        WriteGrant(onChain[i], height);
        forall k | k !in theirs ensures RowAt(rows, k) == GrantedRow(RowAt(old(rows), k), LevelOf(onChain[..i + 1], k), height) {
          if k == onChain[i].key && LevelOf(onChain[..i], k).Some? {
            GrantedTwice(RowAt(old(rows), k), LevelOf(onChain[..i], k).value, onChain[i].level, height);
          }
        }
      }
      assert onChain[..|onChain|] == onChain;
    }

    method SweepRows(seen: set<Key>, height: Option<nat>)
      requires TheirsStand(height)
      modifies this
      ensures TheirsStand(height) && old(theirs).Keys <= theirs.Keys
      ensures forall k :: k !in theirs ==>
        RowAt(rows, k) == if k in old(rows) && k !in seen then Some(Swept(old(rows)[k], height)) else RowAt(old(rows), k)
    {
      var activeRows := map k | k in rows && rows[k].active :: rows[k];
      var left := activeRows.Keys - seen;
      while left != {}
        invariant TheirsStand(height) && old(theirs).Keys <= theirs.Keys && rows.Keys == old(rows).Keys
        invariant left <= activeRows.Keys - seen
        invariant forall k :: k !in theirs && k in activeRows.Keys - seen - left ==> RowAt(rows, k) == Some(Swept(old(rows)[k], height))
        invariant forall k :: k !in theirs && k !in activeRows.Keys - seen - left ==> RowAt(rows, k) == RowAt(old(rows), k)
        invariant forall k :: k in left ==> rows[k] == activeRows[k] || StampOf(Some(rows[k])) > StampOf(Some(activeRows[k]))
        decreases left
      {
        var k :| k in left;
        SweepRow(k, activeRows[k], height);
        left := left - {k};
      }
    }

    /**
     * One reindex. Rows no other writer touched meanwhile are merged with the grants read, and a row that got a
     * newer stamp than the height read keeps it. With no other writer at work, that is every row.
     */
    method ReindexOnce(onChain: Option<seq<Record>>, height: Option<nat>)
      modifies this
      ensures onChain.None? ==> rows == old(rows)
      ensures onChain.Some? ==> forall k :: k !in theirs ==>
        RowAt(rows, k) == MergedRow(RowAt(old(rows), k), LevelOf(onChain.value, k), height)
      ensures alone && onChain.Some? ==> Merged(old(rows), rows, onChain.value, height)
      ensures TheirsStand(height)
    {
      theirs := map[];
      if onChain.None? {
        return;
      }
      WriteGrants(onChain.value, height);
      var seen := set i | 0 <= i < |onChain.value| :: onChain.value[i].key;
      ghost var granted := rows;
      SweepRows(seen, height);
      forall k | k !in theirs
        ensures RowAt(rows, k) == MergedRow(RowAt(old(rows), k), LevelOf(onChain.value, k), height)
      {
        LevelIsListed(onChain.value, k);
        assert RowAt(granted, k) == GrantedRow(RowAt(old(rows), k), LevelOf(onChain.value, k), height);
      }
    }
  }
}
