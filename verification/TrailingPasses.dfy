/**
 * Passes that walk the indexed blocks behind the tip. A pass reads its cursor and the rollback counter, works
 * for a long time, and moves the cursor only if both are unchanged. Blocks arrive, are rolled back and are
 * asked for again meanwhile.
 */
module TrailingPasses {
  import opened Wrappers

  /**
   * A stored block. `id` is fresh for every insert. `wanted` is the time of the insert, or of the last redecode
   * that moved the cursor below the block; `processed` is the time the last finished processing was begun.
   */
  datatype Row = Row(id: nat, height: nat, wanted: nat, processed: Option<nat>)

  datatype Position = Position(cursor: Option<nat>, generation: nat)

  datatype Window = Window(start: Position, from: nat, ceiling: int)

  /** A block as the pass selected it. The row may be gone by the time it is written. */
  datatype Target = Target(id: nat, height: nat)

  datatype Pass =
    | Idle
    | Opened(window: Window)
    | Working(window: Window, blocks: seq<Target>, index: nat, begun: Option<nat>)
    | Passing(window: Window, target: nat)

  datatype World = World(
    rows: seq<Row>, tip: nat, cursor: Option<nat>, generation: nat, nextId: nat, clock: nat, pass: Pass)

  const INITIAL := World([], 0, None, 0, 0, 0, Idle)

  // ---- Cursor and window ----------------------------------------------------

  function NextHeight(cursor: Option<nat>): nat {
    match cursor case None => 0 case Some(c) => c + 1
  }

  function ReadPassWindow(cursor: Option<nat>, tip: nat, generation: nat, lag: nat): Window {
    Window(Position(cursor, generation), NextHeight(cursor), tip - lag)
  }

  predicate WindowIsEmpty(w: Window) {
    w.from > w.ceiling
  }

  function TargetOf(r: Row): Target {
    Target(r.id, r.height)
  }

  /** Indexed blocks from `from` up to `ceiling`, oldest first. The rows are kept by height. */
  function InRange(rows: seq<Row>, from: nat, ceiling: int): (blocks: seq<Target>) {
    if rows == [] then [] else
      var last := rows[|rows| - 1];
      InRange(rows[..|rows| - 1], from, ceiling) + if from <= last.height <= ceiling then [TargetOf(last)] else []
  }

  function BlocksInRange(rows: seq<Row>, from: nat, ceiling: int, limit: nat): seq<Target> {
    var blocks := InRange(rows, from, ceiling);
    if |blocks| <= limit then blocks else blocks[..limit]
  }

  /** Cursor and counter are what the pass started from. */
  predicate Unchanged(w: World, start: Position) {
    w.cursor == start.cursor && w.generation == start.generation
  }

  function AdvancePassCursor(w: World, start: Position, height: nat): World {
    if Unchanged(w, start) then w.(cursor := Some(height)) else w
  }

  // ---- Steps ----------------------------------------------------------------

  datatype Step =
    | Open(lag: nat)
    | Select(limit: nat)
    | Begin
    | Finish
    | Commit
    | Abort
    | Append(height: nat)
    | RollBack(fromHeight: nat)
    | Redecode(fromHeight: nat)

  function OpenPass(w: World, lag: nat): World {
    var window := ReadPassWindow(w.cursor, w.tip, w.generation, lag);
    if w.pass.Idle? && !WindowIsEmpty(window) then w.(pass := Opened(window)) else w
  }

  function Min(a: int, b: int): int {
    if a <= b then a else b
  }

  /** With nothing indexed in the range, the pass will move the cursor past it. */
  function SelectBlocks(w: World, limit: nat): World {
    if !w.pass.Opened? || limit == 0 || WindowIsEmpty(w.pass.window) then w else
      var window := w.pass.window;
      var blocks := BlocksInRange(w.rows, window.from, window.ceiling, limit);
      if blocks == [] then w.(pass := Passing(window, Min(window.from + limit - 1, window.ceiling)))
      else w.(pass := Working(window, blocks, 0, None))
  }

  /** Everything the processing of one block reads is read from here on. */
  function BeginBlock(w: World): World {
    if w.pass.Working? && w.pass.index < |w.pass.blocks| && w.pass.begun.None?
    then w.(pass := w.pass.(begun := Some(w.clock))) else w
  }

  function MarkProcessed(rows: seq<Row>, id: nat, time: nat): (after: seq<Row>)
    ensures |after| == |rows|
    ensures forall i :: 0 <= i < |rows| ==>
      after[i] == if rows[i].id == id then rows[i].(processed := Some(time)) else rows[i]
  {
    seq(|rows|, i requires 0 <= i < |rows| =>
      if rows[i].id == id then rows[i].(processed := Some(time)) else rows[i])
  }

  /** Results are written by row id, so a row deleted meanwhile takes none. */
  function FinishBlock(w: World): World {
    if w.pass.Working? && w.pass.index < |w.pass.blocks| && w.pass.begun.Some?
    then w.(rows := MarkProcessed(w.rows, w.pass.blocks[w.pass.index].id, w.pass.begun.value),
            pass := w.pass.(index := w.pass.index + 1, begun := None))
    else w
  }

  /** Where the cursor goes: the last block, below the first block left out, or past an empty range. */
  function Goal(pass: Pass): Option<nat> {
    match pass
    case Working(_, blocks, index, begun) =>
      if begun.Some? || index == 0 || index > |blocks| then None
      else if index == |blocks| then Some(blocks[index - 1].height)
      else if blocks[index].height == 0 then None
      else Some(blocks[index].height - 1)
    case Passing(_, target) => Some(target)
    case _ => None
  }

  function CommitPass(w: World): World {
    if Goal(w.pass).None? then w
    else AdvancePassCursor(w, w.pass.window.start, Goal(w.pass).value).(pass := Idle)
  }

  /** The next block of the chain, or the first one of an empty index at any height. */
  function AppendBlock(w: World, height: nat): World {
    if w.rows != [] && height != w.tip + 1 then w
    else w.(rows := w.rows + [Row(w.nextId, height, w.clock, None)], tip := height, nextId := w.nextId + 1)
  }

  function RowsBelow(rows: seq<Row>, fromHeight: nat): seq<Row> {
    if rows == [] then []
    else if rows[|rows| - 1].height >= fromHeight then RowsBelow(rows[..|rows| - 1], fromHeight)
    else rows
  }

  function TipOf(rows: seq<Row>): nat {
    if rows == [] then 0 else rows[|rows| - 1].height
  }

  function Clamp(cursor: Option<nat>, forkHeight: nat): Option<nat> {
    match cursor case None => None case Some(c) => Some(Min(c, forkHeight))
  }

  /** The counter moves even when there is nothing to remove; the tip and the cursor do not. */
  function RollBackRows(w: World, fromHeight: nat): World {
    var rows := RowsBelow(w.rows, fromHeight);
    if rows == w.rows then w.(generation := w.generation + 1)
    else w.(rows := rows, tip := TipOf(rows), cursor := Clamp(w.cursor, TipOf(rows)), generation := w.generation + 1)
  }

  function WantAgain(rows: seq<Row>, fromHeight: nat, time: nat): (after: seq<Row>)
    ensures |after| == |rows|
    ensures forall i :: 0 <= i < |rows| ==>
      after[i] == if rows[i].height >= fromHeight then rows[i].(wanted := time) else rows[i]
  {
    seq(|rows|, i requires 0 <= i < |rows| =>
      if rows[i].height >= fromHeight then rows[i].(wanted := time) else rows[i])
  }

  /** The cursor only ever moves down. */
  predicate RedecodeChanges(cursor: Option<nat>, fromHeight: nat) {
    cursor.Some? && cursor.value >= fromHeight
  }

  function RedecodeFromHeight(w: World, fromHeight: nat): World {
    if !RedecodeChanges(w.cursor, fromHeight) then w
    else w.(cursor := if fromHeight == 0 then None else Some(fromHeight - 1),
            rows := WantAgain(w.rows, fromHeight, w.clock))
  }

  function Effect(w: World, step: Step): World {
    match step
    case Open(lag) => OpenPass(w, lag)
    case Select(limit) => SelectBlocks(w, limit)
    case Begin => BeginBlock(w)
    case Finish => FinishBlock(w)
    case Commit => CommitPass(w)
    case Abort => w.(pass := Idle)
    case Append(height) => AppendBlock(w, height)
    case RollBack(fromHeight) => RollBackRows(w, fromHeight)
    case Redecode(fromHeight) => RedecodeFromHeight(w, fromHeight)
  }

  function Next(w: World, step: Step): World {
    var after := Effect(w, step);
    after.(clock := w.clock + 1)
  }

  function Run(w: World, steps: seq<Step>): World {
    if steps == [] then w else Next(Run(w, steps[..|steps| - 1]), steps[|steps| - 1])
  }

  // ---- What holds in every reachable state ----------------------------------

  /** Processed, from data read after the row was inserted and last asked for again. */
  predicate Done(r: Row) {
    r.processed.Some? && r.processed.value > r.wanted
  }

  /** Every indexed block from height `low` up to the cursor is done. */
  predicate CoveredFrom(low: nat, rows: seq<Row>, cursor: Option<nat>) {
    forall i :: 0 <= i < |rows| && low <= rows[i].height < NextHeight(cursor) ==> Done(rows[i])
  }

  /** Height 0 is left out: an empty index has its cursor at 0 before any block is stored. */
  predicate Covered(w: World) {
    CoveredFrom(1, w.rows, w.cursor)
  }

  predicate Consecutive(rows: seq<Row>) {
    forall i :: 0 <= i < |rows| ==> rows[i].height == rows[0].height + i
  }

  predicate FreshIds(rows: seq<Row>, nextId: nat) {
    && (forall i :: 0 <= i < |rows| ==> rows[i].id < nextId)
    && (forall i, j :: 0 <= i < j < |rows| ==> rows[i].id != rows[j].id)
  }

  predicate TimesPast(rows: seq<Row>, clock: nat) {
    forall i :: 0 <= i < |rows| ==> rows[i].wanted < clock
  }

  predicate RowsOk(w: World) {
    && Consecutive(w.rows) && FreshIds(w.rows, w.nextId) && TimesPast(w.rows, w.clock)
    && w.tip == TipOf(w.rows) && NextHeight(w.cursor) <= w.tip + 1
  }

  /** The pass can still move the cursor. */
  predicate Live(w: World) {
    !w.pass.Idle? && Unchanged(w, w.pass.window.start)
  }

  /** The counter never returns to what the pass saw, and at the same counter the cursor has only moved down. */
  predicate Behind(w: World) {
    !w.pass.Idle? ==>
      && w.pass.window.from == NextHeight(w.pass.window.start.cursor)
      && w.pass.window.start.generation <= w.generation
      && (w.pass.window.start.generation == w.generation ==> NextHeight(w.cursor) <= w.pass.window.from)
  }

  /** The targets are the rows from the position `at` on, and those are the first at or above `from`. */
  predicate Selected(rows: seq<Row>, blocks: seq<Target>, from: nat, at: nat) {
    && at + |blocks| <= |rows| && blocks != []
    && (forall i :: at <= i < at + |blocks| ==> blocks[i - at] == TargetOf(rows[i]))
    && (forall i :: 0 <= i < at ==> rows[i].height < from)
    && rows[at].height >= from
  }

  predicate AllDone(rows: seq<Row>, at: nat, to: nat) {
    to <= |rows| && forall i :: at <= i < to ==> Done(rows[i])
  }

  /** What the pass has begun to process was wanted before. */
  predicate BegunOk(rows: seq<Row>, i: nat, begun: Option<nat>) {
    begun.Some? ==> i < |rows| && rows[i].wanted < begun.value
  }

  predicate WorkOk(rows: seq<Row>, pass: Pass, at: nat)
    requires pass.Working?
  {
    && Selected(rows, pass.blocks, pass.window.from, at)
    && pass.index <= |pass.blocks| && (pass.begun.Some? ==> pass.index < |pass.blocks|)
    && AllDone(rows, at, at + pass.index)
    && BegunOk(rows, at + pass.index, pass.begun)
  }

  /** Nothing was processed after the pass began its block. */
  predicate Newest(w: World) {
    && (forall i :: 0 <= i < |w.rows| && w.rows[i].processed.Some? ==> w.rows[i].processed.value < w.clock)
    && (w.pass.Working? && w.pass.begun.Some? ==>
          && w.pass.begun.value < w.clock
          && forall i :: 0 <= i < |w.rows| && w.rows[i].processed.Some? ==> w.rows[i].processed.value < w.pass.begun.value)
  }

  /** No block to work on lies in the range the pass is about to skip. */
  predicate SkipOk(w: World) {
    w.pass.Passing? ==>
      w.pass.target <= w.tip &&
      forall i :: 0 <= i < |w.rows| && w.rows[i].height >= 1 ==>
        w.rows[i].height < w.pass.window.from || w.rows[i].height > w.pass.target
  }

  predicate WindowOk(w: World) {
    w.pass.Opened? ==> w.pass.window.from <= w.pass.window.ceiling <= w.tip
  }

  ghost predicate LiveOk(w: World) {
    Live(w) ==> WindowOk(w) && SkipOk(w) && (w.pass.Working? ==> exists at: nat :: WorkOk(w.rows, w.pass, at))
  }

  ghost predicate Inv(w: World) {
    RowsOk(w) && Behind(w) && Newest(w) && Covered(w) && LiveOk(w)
  }

  // ---- Each step keeps it ---------------------------------------------------

  /** The blocks in range are the rows from `at` on: below them rows are lower, after them higher. */
  predicate SliceAt(rows: seq<Row>, blocks: seq<Target>, from: nat, ceiling: int, at: nat) {
    && at + |blocks| <= |rows|
    && (forall i :: at <= i < at + |blocks| ==> blocks[i - at] == TargetOf(rows[i]) && rows[i].height <= ceiling)
    && (forall i :: 0 <= i < at ==> rows[i].height < from)
    && (forall i :: at <= i < |rows| ==> rows[i].height >= from)
    && (forall i :: at + |blocks| <= i < |rows| ==> rows[i].height > ceiling)
  }

  lemma {:induction false} RangeIsSlice(rows: seq<Row>, from: nat, ceiling: int) returns (at: nat)
    requires Consecutive(rows)
    ensures SliceAt(rows, InRange(rows, from, ceiling), from, ceiling, at)
  {
    if rows == [] {
      at := 0;
    } else {
      var init, last := rows[..|rows| - 1], rows[|rows| - 1];
      assert Consecutive(init) by { assert forall i :: 0 <= i < |init| ==> init[i] == rows[i]; }
      at := RangeIsSlice(init, from, ceiling);
      SlicePush(init, last, InRange(init, from, ceiling), from, ceiling, at);
      assert rows == init + [last];
      if last.height < from { at := |rows|; }
    }
  }

  lemma SlicePush(init: seq<Row>, last: Row, blocks: seq<Target>, from: nat, ceiling: int, at: nat)
    requires Consecutive(init + [last]) && SliceAt(init, blocks, from, ceiling, at)
    ensures SliceAt(init + [last], blocks + if from <= last.height <= ceiling then [TargetOf(last)] else [],
                    from, ceiling, if last.height < from then |init| + 1 else at)
  {
    var rows := init + [last];
    assert rows[|init|] == last;
    assert forall i :: 0 <= i < |init| ==> rows[i] == init[i];
    var end := at + |blocks|;
    if at < |init| { assert init[at] == rows[at] && rows[at].height < last.height; }
    if end < |init| { assert init[end] == rows[end] && rows[end].height < last.height; }
  }

  lemma RowsKept(w: World, step: Step)
    requires RowsOk(w) && Behind(w) && LiveOk(w)
    ensures RowsOk(Next(w, step))
  {
    match step {
      case RollBack(fromHeight) => RollBackKept(w, fromHeight);
      case Commit => GoalBelowTip(w);
      case Append(height) => AppendKept(w, height);
      case Redecode(fromHeight) => RedecodeKept(w, fromHeight);
      case Finish => FinishKept(w);
      case _ =>
    }
  }

  lemma RedecodeKept(w: World, fromHeight: nat)
    requires RowsOk(w)
    ensures RowsOk(Next(w, Redecode(fromHeight)))
  {
    var after := Next(w, Redecode(fromHeight));
    assert Consecutive(after.rows);
    assert FreshIds(after.rows, after.nextId);
  }

  lemma FinishKept(w: World)
    requires RowsOk(w)
    ensures RowsOk(Next(w, Finish))
  {
    var after := Next(w, Finish);
    assert Consecutive(after.rows);
    assert FreshIds(after.rows, after.nextId);
  }

  lemma RollBackKept(w: World, fromHeight: nat)
    requires RowsOk(w)
    ensures RowsOk(Next(w, RollBack(fromHeight)))
  {
    var after := Next(w, RollBack(fromHeight));
    BelowIsPrefix(w.rows, fromHeight);
    assert Consecutive(after.rows);
    assert FreshIds(after.rows, after.nextId);
  }

  lemma AppendKept(w: World, height: nat)
    requires RowsOk(w)
    ensures RowsOk(Next(w, Append(height)))
  {
    var after := Next(w, Append(height));
    assert forall i :: 0 <= i < |w.rows| ==> after.rows[i] == w.rows[i];
    assert Consecutive(after.rows);
    assert FreshIds(after.rows, after.nextId);
  }

  lemma {:induction false} BelowIsPrefix(rows: seq<Row>, fromHeight: nat)
    ensures var below := RowsBelow(rows, fromHeight);
      |below| <= |rows| && below == rows[..|below|] && (|below| < |rows| ==> rows[|below|].height >= fromHeight)
    ensures RowsBelow(rows, fromHeight) != [] ==>
      RowsBelow(rows, fromHeight)[|RowsBelow(rows, fromHeight)| - 1].height < fromHeight
  {
    if rows != [] && rows[|rows| - 1].height >= fromHeight {
      BelowIsPrefix(rows[..|rows| - 1], fromHeight);
    }
  }

  /** Where a pass that still may move the cursor moves it. */
  lemma GoalBelowTip(w: World)
    requires RowsOk(w) && LiveOk(w)
    ensures Live(w) && Goal(w.pass).Some? ==> Goal(w.pass).value <= w.tip
  {
    if Live(w) && w.pass.Working? && Goal(w.pass).Some? {
      var at: nat :| WorkOk(w.rows, w.pass, at);
      GoalIsRow(w.rows, w.pass, at);
    }
  }

  /** The goal is the height of the last block processed, or just below the next one. */
  lemma GoalIsRow(rows: seq<Row>, pass: Pass, at: nat)
    requires pass.Working? && WorkOk(rows, pass, at) && Consecutive(rows) && Goal(pass).Some?
    ensures 0 < pass.index && Goal(pass).value == rows[at + pass.index - 1].height <= TipOf(rows)
  {
    var i := at + pass.index;
    assert pass.blocks[i - 1 - at] == TargetOf(rows[i - 1]);
    if pass.index < |pass.blocks| {
      assert pass.blocks[i - at] == TargetOf(rows[i]);
    }
  }

  lemma BehindKept(w: World, step: Step)
    requires RowsOk(w) && Behind(w) && LiveOk(w)
    ensures Behind(Next(w, step))
  {
    if step.RollBack? { BelowIsPrefix(w.rows, step.fromHeight); }
  }

  /** At its end, a pass has processed every block between its cursor and where it moves it. */
  lemma CommitCovers(w: World)
    requires Inv(w)
    ensures Covered(CommitPass(w))
  {
    if Live(w) && w.pass.Working? && Goal(w.pass).Some? {
      var at: nat :| WorkOk(w.rows, w.pass, at);
      GoalIsRow(w.rows, w.pass, at);
      forall i | 0 <= i < |w.rows| && 1 <= w.rows[i].height <= Goal(w.pass).value ensures Done(w.rows[i]) {
        assert i < at + w.pass.index;
      }
    }
  }

  lemma CoverageKept(w: World, step: Step)
    requires Inv(w)
    ensures Covered(Next(w, step))
  {
    match step {
      case Commit => CommitCovers(w);
      case RollBack(fromHeight) => BelowIsPrefix(w.rows, fromHeight);
      case _ =>
    }
  }

  lemma NewestKept(w: World, step: Step)
    requires Newest(w)
    ensures Newest(Next(w, step))
  {
    if step.RollBack? { BelowIsPrefix(w.rows, step.fromHeight); }
  }

  lemma SelectOk(w: World, limit: nat)
    requires RowsOk(w) && LiveOk(w) && Behind(w)
    ensures LiveOk(Next(w, Select(limit)))
  {
    var after := Next(w, Select(limit));
    if w.pass.Opened? && limit != 0 && Live(w) {
      var window := w.pass.window;
      var at := RangeIsSlice(w.rows, window.from, window.ceiling);
      if after.pass.Working? {
        assert WorkOk(after.rows, after.pass, at);
      }
    }
  }

  /** Steps that leave the pass and what it selected alone. */
  lemma WorkCarried(rows: seq<Row>, after: seq<Row>, pass: Pass, at: nat)
    requires pass.Working? && WorkOk(rows, pass, at)
    requires |rows| <= |after| && forall i :: 0 <= i < |rows| ==> after[i] == rows[i]
    ensures WorkOk(after, pass, at)
  {
  }

  lemma FinishOk(w: World, at: nat)
    requires w.pass.Working? && w.pass.begun.Some? && WorkOk(w.rows, w.pass, at) && FreshIds(w.rows, w.nextId) && Newest(w)
    ensures WorkOk(FinishBlock(w).rows, FinishBlock(w).pass, at)
  {
    var after, i := FinishBlock(w), at + w.pass.index;
    assert w.pass.blocks[i - at] == TargetOf(w.rows[i]);
    forall k | at <= k <= i ensures Done(after.rows[k]) {
    }
    assert Selected(after.rows, after.pass.blocks, after.pass.window.from, at);
  }

  lemma WorkKept(w: World, step: Step, at: nat)
    requires FreshIds(w.rows, w.nextId) && TimesPast(w.rows, w.clock) && Newest(w)
    requires step.Begin? || step.Finish? || step.Append? || step.Redecode?
    requires w.pass.Working? && WorkOk(w.rows, w.pass, at) && Live(w) && Live(Next(w, step))
    ensures WorkOk(Next(w, step).rows, Next(w, step).pass, at)
  {
    if step.Finish? && w.pass.begun.Some? {
      FinishOk(w, at);
    } else {
      WorkCarried(w.rows, Next(w, step).rows, w.pass, at);
    }
  }

  lemma SkipKept(w: World, step: Step)
    requires step.Begin? || step.Finish? || step.Append? || step.Redecode?
    requires SkipOk(w) && WindowOk(w) && w.tip == TipOf(w.rows) && Live(w) && Live(Next(w, step))
    ensures SkipOk(Next(w, step)) && WindowOk(Next(w, step))
  {
  }

  lemma PassKept(w: World, step: Step)
    requires Inv(w)
    ensures LiveOk(Next(w, step))
  {
    var after := Next(w, step);
    match step {
      case Select(limit) => SelectOk(w, limit);
      case Begin | Finish | Redecode(_) | Append(_) =>
        if Live(after) {
          SkipKept(w, step);
          if w.pass.Working? {
            var at: nat :| WorkOk(w.rows, w.pass, at);
            WorkKept(w, step, at);
          }
        }
      case _ =>
    }
  }

  lemma StepKeepsInv(w: World, step: Step)
    requires Inv(w)
    ensures Inv(Next(w, step))
  {
    RowsKept(w, step);
    BehindKept(w, step);
    NewestKept(w, step);
    CoverageKept(w, step);
    PassKept(w, step);
  }

  /**
   * Whatever interleaves, every stored block of height 1 or more at or below the cursor was processed after it
   * was inserted and after the last redecode that covers it, and the cursor is not above the tip.
   */
  lemma {:induction false} RunCovers(steps: seq<Step>)
    ensures Inv(Run(INITIAL, steps))
    ensures var w := Run(INITIAL, steps);
      && (w.cursor.Some? ==> w.cursor.value <= w.tip)
      && forall r :: r in w.rows && 1 <= r.height && w.cursor.Some? && r.height <= w.cursor.value ==>
           r.processed.Some? && r.processed.value > r.wanted
  {
    if steps == [] {
    } else {
      RunCovers(steps[..|steps| - 1]);
      StepKeepsInv(Run(INITIAL, steps[..|steps| - 1]), steps[|steps| - 1]);
    }
    var w := Run(INITIAL, steps);
    forall r | r in w.rows && 1 <= r.height && w.cursor.Some? && r.height <= w.cursor.value ensures Done(r) {
      var i :| 0 <= i < |w.rows| && w.rows[i] == r;
    }
  }

  /** A pass that may still move the cursor moves it up. */
  lemma CommitAdvances(w: World)
    requires Inv(w) && Live(w) && Goal(w.pass).Some?
    requires w.pass.Passing? ==> w.pass.target >= w.pass.window.from
    ensures CommitPass(w).cursor.Some? && NextHeight(w.cursor) <= CommitPass(w).cursor.value
  {
    if w.pass.Working? {
      var at: nat :| WorkOk(w.rows, w.pass, at);
      GoalIsRow(w.rows, w.pass, at);
      assert w.rows[at].height <= w.rows[at + w.pass.index - 1].height;
    }
  }

  // ---- Where coverage ends --------------------------------------------------

  /** A pass at its end, whose cursor still stands. */
  ghost predicate AtEnd(w: World) {
    Inv(w) && Live(w) && w.pass.Working? && w.pass.begun.None? && w.pass.index == |w.pass.blocks|
  }

  /** Every stored block from `fromHeight` up to the cursor was processed from data read at `time` or later. */
  predicate ProcessedSince(w: World, fromHeight: nat, time: nat) {
    NoneStale(w.rows, fromHeight, NextHeight(w.cursor), time)
  }

  predicate NoneStale(rows: seq<Row>, fromHeight: nat, next: nat, time: nat) {
    forall i :: 0 <= i < |rows| && fromHeight <= rows[i].height < next ==> Fresh(rows[i], time)
  }

  predicate Fresh(r: Row, time: nat) {
    r.processed.Some? && r.processed.value >= time
  }

  /** None of the first `count` targets is at or above the height. */
  predicate TargetsLow(blocks: seq<Target>, count: nat, fromHeight: nat) {
    forall k :: 0 <= k < count && k < |blocks| ==> blocks[k].height < fromHeight
  }

  predicate RowsLow(rows: seq<Row>, at: nat, end: nat, fromHeight: nat) {
    forall k :: at <= k < end && k < |rows| ==> rows[k].height < fromHeight
  }

  /** How many of its targets a pass has begun. */
  function BegunCount(pass: Pass): nat
    requires pass.Working?
  {
    pass.index + if pass.begun.Some? then 1 else 0
  }

  /** The pass goes on and blocks arrive; requests come too, as long as they leave the cursor alone. */
  predicate GoesOn(w: World, more: seq<Step>) {
    more == [] ||
    (var last := more[|more| - 1];
     && GoesOn(w, more[..|more| - 1]) && (last.Begin? || last.Finish? || last.Append? || last.Redecode?)
     && Live(Run(w, more)))
  }

  /** Of the rows from `at` on, the first `count` were begun before `time`, the others since. */
  predicate SplitAt(w: World, at: nat, blocks: seq<Target>, count: nat, time: nat) {
    && w.pass.Working? && w.pass.blocks == blocks && WorkOk(w.rows, w.pass, at)
    && count <= BegunCount(w.pass) && time <= w.clock
    && (w.pass.begun.Some? ==> (w.pass.begun.value < time <==> w.pass.index < count))
    && forall k :: at <= k < at + w.pass.index ==>
         w.rows[k].processed.Some? && (Fresh(w.rows[k], time) <==> k >= at + count)
  }

  lemma StepKeepsSplit(w: World, step: Step, at: nat, blocks: seq<Target>, count: nat, time: nat)
    requires Inv(w) && Live(w) && Live(Next(w, step)) && SplitAt(w, at, blocks, count, time)
    requires step.Begin? || step.Finish? || step.Append? || step.Redecode?
    ensures SplitAt(Next(w, step), at, blocks, count, time)
  {
    WorkKept(w, step, at);
    if step.Finish? && w.pass.begun.Some? {
      FinishKeepsSplit(w, at, blocks, count, time);
    } else {
      OtherKeepsSplit(w, step, at, blocks, count, time);
    }
  }

  lemma OtherKeepsSplit(w: World, step: Step, at: nat, blocks: seq<Target>, count: nat, time: nat)
    requires SplitAt(w, at, blocks, count, time) && Live(w) && Live(Next(w, step))
    requires step.Begin? || (step.Finish? && w.pass.begun.None?) || step.Append? || step.Redecode?
    requires WorkOk(Next(w, step).rows, Next(w, step).pass, at)
    ensures SplitAt(Next(w, step), at, blocks, count, time)
  {
    var after := Next(w, step);
    assert forall k :: 0 <= k < |w.rows| ==> after.rows[k] == w.rows[k];
  }

  lemma FinishKeepsSplit(w: World, at: nat, blocks: seq<Target>, count: nat, time: nat)
    requires Inv(w) && SplitAt(w, at, blocks, count, time) && w.pass.begun.Some?
    requires WorkOk(Next(w, Finish).rows, Next(w, Finish).pass, at)
    ensures SplitAt(Next(w, Finish), at, blocks, count, time)
  {
    var after, i := Next(w, Finish), at + w.pass.index;
    assert w.pass.blocks[i - at] == TargetOf(w.rows[i]);
    forall k | at <= k < at + after.pass.index
      ensures after.rows[k].processed.Some? && (Fresh(after.rows[k], time) <==> k >= at + count)
    {
      if k < i { assert w.rows[k].id != w.rows[i].id; }
    }
  }

  lemma {:induction false} RunKeepsSplit(w: World, more: seq<Step>, at: nat, blocks: seq<Target>, count: nat, time: nat)
    requires Inv(w) && Live(w) && SplitAt(w, at, blocks, count, time) && GoesOn(w, more)
    ensures Inv(Run(w, more)) && Live(Run(w, more)) && SplitAt(Run(w, more), at, blocks, count, time)
  {
    if more != [] {
      RunKeepsSplit(w, more[..|more| - 1], at, blocks, count, time);
      StepKeepsInv(Run(w, more[..|more| - 1]), more[|more| - 1]);
      StepKeepsSplit(Run(w, more[..|more| - 1]), more[|more| - 1], at, blocks, count, time);
    }
  }

  lemma TargetsAreRows(rows: seq<Row>, pass: Pass, at: nat, count: nat, fromHeight: nat)
    requires pass.Working? && WorkOk(rows, pass, at) && count <= |pass.blocks|
    ensures TargetsLow(pass.blocks, count, fromHeight) <==> RowsLow(rows, at, at + count, fromHeight)
  {
    var blocks := pass.blocks;
    if TargetsLow(blocks, count, fromHeight) {
      forall k | at <= k < at + count && k < |rows| ensures rows[k].height < fromHeight {
        assert blocks[k - at] == TargetOf(rows[k]);
      }
    }
    if RowsLow(rows, at, at + count, fromHeight) {
      forall k | 0 <= k < count && k < |blocks| ensures blocks[k].height < fromHeight {
        assert blocks[at + k - at] == TargetOf(rows[at + k]);
      }
    }
  }

  /** Of the rows from `at` up to `last`, the first `count` are stale. */
  lemma StaleRows(rows: seq<Row>, at: nat, last: nat, count: nat, time: nat, fromHeight: nat)
    requires Consecutive(rows) && at <= last < |rows| && at + count <= last + 1
    requires RowsLow(rows, 0, at, fromHeight)
    requires forall k :: at <= k <= last ==> (Fresh(rows[k], time) <==> k >= at + count)
    ensures NoneStale(rows, fromHeight, rows[last].height + 1, time) <==> RowsLow(rows, at, at + count, fromHeight)
  {
    assert forall i :: 0 <= i < |rows| ==> (rows[i].height < rows[last].height + 1 <==> i <= last);
    if NoneStale(rows, fromHeight, rows[last].height + 1, time) {
      forall k | at <= k < at + count && k < |rows| ensures rows[k].height < fromHeight {
        assert !Fresh(rows[k], time);
      }
    }
    if RowsLow(rows, at, at + count, fromHeight) {
      forall i | 0 <= i < |rows| && fromHeight <= rows[i].height < rows[last].height + 1 ensures Fresh(rows[i], time) {
        assert at + count <= i <= last;
      }
    }
  }

  /** What a pass leaves behind the cursor it moves: the requested rows it began before `time` are the stale ones. */
  lemma SplitCommits(w: World, at: nat, count: nat, time: nat, fromHeight: nat)
    requires Inv(w) && Live(w) && w.pass.Working? && SplitAt(w, at, w.pass.blocks, count, time) && Goal(w.pass).Some?
    requires w.pass.window.from <= fromHeight
    ensures ProcessedSince(Next(w, Commit), fromHeight, time) <==> TargetsLow(w.pass.blocks, count, fromHeight)
  {
    var last := at + w.pass.index - 1;
    GoalIsRow(w.rows, w.pass, at);
    TargetsAreRows(w.rows, w.pass, at, count, fromHeight);
    StaleRows(w.rows, at, last, count, time, fromHeight);
    assert Next(w, Commit).rows == w.rows && Next(w, Commit).cursor == Some(w.rows[last].height);
  }

  /** At the time of the request, what the pass has begun is what it began before. */
  lemma SplitNow(w: World, fromHeight: nat, at: nat)
    requires Inv(w) && w.pass.Working? && WorkOk(w.rows, w.pass, at) && !RedecodeChanges(w.cursor, fromHeight)
    ensures SplitAt(Next(w, Redecode(fromHeight)), at, w.pass.blocks, BegunCount(w.pass), w.clock)
  {
    forall k | at <= k < at + w.pass.index ensures w.rows[k].processed.Some? && w.rows[k].processed.value < w.clock {
      assert Done(w.rows[k]);
    }
  }

  /**
   * A redecode request that finds the cursor below its height leaves it alone and reports no change. A pass under way
   * goes on and moves the cursor over the requested blocks. However far it is and whatever arrives meanwhile, they are
   * processed from data read since the request if and only if it had begun none of them before.
   */
  lemma RequestDuringPass(w: World, fromHeight: nat, more: seq<Step>)
    requires Inv(w) && Live(w) && w.pass.Working? && !RedecodeChanges(w.cursor, fromHeight)
    requires GoesOn(Next(w, Redecode(fromHeight)), more) && Goal(Run(Next(w, Redecode(fromHeight)), more).pass).Some?
    ensures var after := Next(Run(Next(w, Redecode(fromHeight)), more), Commit);
      ProcessedSince(after, fromHeight, w.clock) <==> TargetsLow(w.pass.blocks, BegunCount(w.pass), fromHeight)
  {
    var at: nat :| WorkOk(w.rows, w.pass, at);
    var asked, count := Next(w, Redecode(fromHeight)), BegunCount(w.pass);
    StepKeepsInv(w, Redecode(fromHeight));
    SplitNow(w, fromHeight, at);
    RunKeepsSplit(asked, more, at, w.pass.blocks, count, w.clock);
    SameWindow(asked, more);
    SplitCommits(Run(asked, more), at, count, w.clock, fromHeight);
  }

  lemma {:induction false} SameWindow(w: World, more: seq<Step>)
    requires w.pass.Working? && GoesOn(w, more)
    ensures Run(w, more).pass.Working? && Run(w, more).pass.window == w.pass.window
  {
    if more != [] { SameWindow(w, more[..|more| - 1]); }
  }

  /** A pass has begun the block at height 1 when a redecode from 1 is asked for, at time 4. It moves on with data read at 3. */
  lemma RequestNotHeeded()
    ensures var w := Run(INITIAL, [Append(1), Open(0), Select(25), Begin, Redecode(1), Finish, Commit]);
      w.rows == [Row(0, 1, 0, Some(3))] && w.cursor == Some(1) && !ProcessedSince(w, 1, 4)
  {
    var start, target := Window(Position(None, 0), 0, 1), Target(0, 1);
    var w1 := Next(INITIAL, Append(1));
    assert w1 == World([Row(0, 1, 0, None)], 1, None, 0, 1, 1, Idle);
    var w2 := Next(w1, Open(0));
    assert w2 == World(w1.rows, 1, None, 0, 1, 2, Opened(start));
    var w3 := Next(w2, Select(25));
    assert w1.rows[..0] == [] && InRange(w1.rows, 0, 1) == [target];
    assert w3 == World(w1.rows, 1, None, 0, 1, 3, Working(start, [target], 0, None));
    var w4 := Next(w3, Begin);
    assert w4 == World(w1.rows, 1, None, 0, 1, 4, Working(start, [target], 0, Some(3)));
    var w5 := Next(w4, Redecode(1));
    RunFour(Append(1), Open(0), Select(25), Begin);
    RunMore([Append(1), Open(0), Select(25), Begin], Redecode(1), Finish, Commit);
    assert [Append(1), Open(0), Select(25), Begin] + [Redecode(1), Finish, Commit] ==
      [Append(1), Open(0), Select(25), Begin, Redecode(1), Finish, Commit];
    LastTwo(w5, start, target);
  }

  lemma LastTwo(w: World, start: Window, target: Target)
    requires target == Target(0, 1) && start.start == Position(None, 0)
    requires w == World([Row(0, 1, 0, None)], 1, None, 0, 1, 5, Working(start, [target], 0, Some(3)))
    ensures var after := Next(Next(w, Finish), Commit); after.rows == [Row(0, 1, 0, Some(3))] && after.cursor == Some(1)
  {
    var w6 := Next(w, Finish);
    assert w6.rows == [Row(0, 1, 0, Some(3))];
  }

  lemma RunMore(steps: seq<Step>, a: Step, b: Step, c: Step)
    ensures Run(INITIAL, steps + [a, b, c]) == Next(Next(Next(Run(INITIAL, steps), a), b), c)
  {
    var p, q, r := steps + [a], steps + [a, b], steps + [a, b, c];
    assert p[..|p| - 1] == steps && q[..|q| - 1] == p && r[..|r| - 1] == q;
    assert Run(INITIAL, p) == Next(Run(INITIAL, steps), a);
    assert Run(INITIAL, q) == Next(Run(INITIAL, p), b);
  }

  /** A request that does lower the cursor is heeded: the pass under way cannot move the cursor any more. */
  lemma ChangedRequestStopsPass(w: World, fromHeight: nat)
    requires Inv(w) && !w.pass.Idle? && RedecodeChanges(w.cursor, fromHeight)
    ensures Next(Next(w, Redecode(fromHeight)), Commit).cursor == Next(w, Redecode(fromHeight)).cursor
    ensures NextHeight(Next(w, Redecode(fromHeight)).cursor) == fromHeight
  {
  }

  /** With height 0 counted too, an insert keeps coverage if and only if it lands above the cursor. */
  lemma AppendKeepsFullCoverage(w: World, height: nat)
    requires Inv(w) && CoveredFrom(0, w.rows, w.cursor)
    requires w.rows == [] || height == w.tip + 1
    ensures var after := Next(w, Append(height));
      CoveredFrom(0, after.rows, after.cursor) <==> height >= NextHeight(w.cursor)
    ensures height < NextHeight(w.cursor) ==> height == 0
  {
    var after := Next(w, Append(height));
    assert after.rows[|w.rows|].processed.None?;
    assert forall i :: 0 <= i < |w.rows| ==> after.rows[i] == w.rows[i];
  }

  /** A pass that runs before the first block is stored moves the cursor to 0, and the block at 0 is never processed. */
  lemma GenesisSkipped()
    ensures var w := Run(INITIAL, [Open(0), Select(25), Commit, Append(0)]);
      w.cursor == Some(0) && w.rows == [Row(0, 0, 3, None)]
  {
    var start := Window(Position(None, 0), 0, 0);
    var w1 := Next(INITIAL, Open(0));
    assert w1 == World([], 0, None, 0, 0, 1, Opened(start));
    var w2 := Next(w1, Select(25));
    assert InRange([], 0, 0) == [];
    assert w2 == World([], 0, None, 0, 0, 2, Passing(start, 0));
    var w3 := Next(w2, Commit);
    assert w3 == World([], 0, Some(0), 0, 0, 3, Idle);
    RunFour(Open(0), Select(25), Commit, Append(0));
  }

  lemma RunFour(a: Step, b: Step, c: Step, d: Step)
    ensures Run(INITIAL, [a, b, c, d]) == Next(Next(Next(Next(INITIAL, a), b), c), d)
  {
    assert [a, b, c, d][..3] == [a, b, c] && [a, b, c][..2] == [a, b] && [a, b][..1] == [a];
    assert Run(INITIAL, [a]) == Next(INITIAL, a);
    assert Run(INITIAL, [a, b]) == Next(Next(INITIAL, a), b);
  }

  /** Without the rollback counter, only the cursor would be compared. */
  function AdvanceByCursorOnly(w: World, start: Position, height: nat): World {
    if w.cursor == start.cursor then w.(cursor := Some(height)) else w
  }

  /**
   * A rollback to exactly the cursor leaves the cursor unchanged. The counter is what stops the pass: once a
   * block was stored again, comparing the cursor alone would put it past a block that was never processed.
   */
  lemma RollbackToCursor(w: World)
    requires AtEnd(w) && w.cursor.Some? && w.cursor.value >= 1
    requires w.rows != [] && w.rows[0].height <= w.cursor.value
    ensures var c := w.cursor.value;
      var after := Next(Next(w, RollBack(c + 1)), Append(c + 1));
      && after.cursor == w.cursor && after.rows != []
      && Next(after, Commit).cursor == w.cursor
      && !Covered(AdvanceByCursorOnly(after, w.pass.window.start, Goal(w.pass).value))
  {
    var c := w.cursor.value;
    var at: nat :| WorkOk(w.rows, w.pass, at);
    GoalIsRow(w.rows, w.pass, at);
    RolledBackToCursor(w, at);
    var back := Next(w, RollBack(c + 1));
    var after := Next(back, Append(c + 1));
    assert after.rows[|back.rows|] == Row(back.nextId, c + 1, back.clock, None);
    assert Goal(w.pass).value >= c + 1 by { assert w.rows[at].height <= w.rows[at + w.pass.index - 1].height; }
  }

  lemma RolledBackToCursor(w: World, at: nat)
    requires RowsOk(w) && w.cursor.Some? && w.rows != [] && w.rows[0].height <= w.cursor.value
    requires at < |w.rows| && w.rows[at].height > w.cursor.value
    ensures var back := Next(w, RollBack(w.cursor.value + 1));
      back.rows != [] && back.tip == w.cursor.value && back.cursor == w.cursor && back.generation == w.generation + 1
  {
    var c := w.cursor.value;
    BelowIsPrefix(w.rows, c + 1);
    var k := |RowsBelow(w.rows, c + 1)|;
    assert w.rows[|w.rows| - 1].height >= w.rows[at].height;
    assert w.rows[k].height == w.rows[k - 1].height + 1;
  }
}
