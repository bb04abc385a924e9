/** How far a pass may go: the lag behind the tip it read, and the size of a batch. */
module PassBounds {
  import opened Wrappers
  import opened TrailingPasses

  /** When the row of this id was last processed. */
  function ProcessedOf(rows: seq<Row>, id: nat): Option<nat> {
    if rows == [] then None
    else if rows[|rows| - 1].id == id then rows[|rows| - 1].processed
    else ProcessedOf(rows[..|rows| - 1], id)
  }

  lemma {:induction false} ProcessedAt(rows: seq<Row>, nextId: nat, i: nat)
    requires FreshIds(rows, nextId) && i < |rows|
    ensures ProcessedOf(rows, rows[i].id) == rows[i].processed
  {
    if i < |rows| - 1 { ProcessedAt(rows[..|rows| - 1], nextId, i); }
  }

  lemma {:induction false} NeverProcessed(rows: seq<Row>, nextId: nat, id: nat)
    requires FreshIds(rows, nextId) && id >= nextId
    ensures ProcessedOf(rows, id) == None
  {
    if rows != [] { NeverProcessed(rows[..|rows| - 1], nextId, id); }
  }

  /** A height between the cursor and the lag below the tip, as the pass read them. */
  predicate InWindow(start: World, lag: nat, height: nat) {
    NextHeight(start.cursor) <= height && height + lag <= start.tip
  }

  /** The cursor went up to a height in the window, if it went up. */
  predicate CursorWithin(start: World, lag: nat, cursor: Option<nat>) {
    NextHeight(cursor) > NextHeight(start.cursor) ==> cursor.value + lag <= start.tip
  }

  /** The blocks taken: no more than a batch, all in the window, and an id still names the block it did. */
  predicate TakenOk(start: World, lag: nat, batch: nat, taken: seq<Target>, w: World) {
    && |taken| <= batch
    && (forall k :: 0 <= k < |taken| ==> InWindow(start, lag, taken[k].height) && taken[k].id < w.nextId)
    && (forall i, k :: 0 <= i < |w.rows| && 0 <= k < |taken| && w.rows[i].id == taken[k].id ==> w.rows[i].height == taken[k].height)
  }

  /** Only taken blocks were processed. */
  predicate OnlyTaken(start: World, taken: seq<Target>, rows: seq<Row>) {
    forall i :: 0 <= i < |rows| && rows[i].processed != ProcessedOf(start.rows, rows[i].id) ==> TargetOf(rows[i]) in taken
  }

  predicate PassWithin(start: World, lag: nat, taken: seq<Target>, pass: Pass) {
    match pass
    case Idle => true
    case Opened(window) => taken == [] && window == ReadPassWindow(start.cursor, start.tip, start.generation, lag)
    case Working(window, blocks, _, _) => taken == blocks
    case Passing(_, target) => taken == [] && target + lag <= start.tip
  }

  predicate Within(start: World, lag: nat, batch: nat, taken: seq<Target>, w: World) {
    && start.nextId <= w.nextId && CursorWithin(start, lag, w.cursor)
    && TakenOk(start, lag, batch, taken, w) && OnlyTaken(start, taken, w.rows)
    && PassWithin(start, lag, taken, w.pass)
  }

  /** The steps of one pass behind its opening, and what others do. */
  predicate OfPass(step: Step, batch: nat) {
    !step.Open? && (step.Select? ==> step.limit == batch)
  }

  predicate OnePass(steps: seq<Step>, lag: nat, batch: nat) {
    steps != [] && steps[0] == Open(lag) && forall k :: 1 <= k < |steps| ==> OfPass(steps[k], batch)
  }

  /** The pass opened nothing and took nothing in between. */
  predicate WorksOn(steps: seq<Step>, after: seq<Step>) {
    steps <= after && forall k :: |steps| <= k < |after| ==> !after[k].Open? && !after[k].Select?
  }

  lemma OpenedWithin(start: World, lag: nat, batch: nat)
    requires FreshIds(start.rows, start.nextId) && start.pass.Idle?
    ensures Within(start, lag, batch, [], start) && Within(start, lag, batch, [], Next(start, Open(lag)))
  {
    forall i | 0 <= i < |start.rows| ensures start.rows[i].processed == ProcessedOf(start.rows, start.rows[i].id) {
      ProcessedAt(start.rows, start.nextId, i);
    }
  }

  lemma {:induction false} RangeInWindow(rows: seq<Row>, from: nat, ceiling: int)
    ensures forall k :: 0 <= k < |InRange(rows, from, ceiling)| ==>
      var t := InRange(rows, from, ceiling)[k];
      from <= t.height <= ceiling && exists i :: 0 <= i < |rows| && TargetOf(rows[i]) == t
  {
    if rows != [] {
      var init := rows[..|rows| - 1];
      RangeInWindow(init, from, ceiling);
      assert forall i :: 0 <= i < |init| ==> TargetOf(init[i]) == TargetOf(rows[i]);
      assert TargetOf(rows[|rows| - 1]) == TargetOf(rows[|rows| - 1]);
    }
  }

  lemma FinishWithin(start: World, lag: nat, batch: nat, taken: seq<Target>, w: World)
    requires Within(start, lag, batch, taken, w)
    ensures Within(start, lag, batch, taken, Next(w, Finish))
  {
    var rows := Next(w, Finish).rows;
    if CanFinishBlock(w.pass) {
      var target := w.pass.blocks[w.pass.index];
      assert target in taken;
      assert forall i :: 0 <= i < |rows| ==> rows[i].id == w.rows[i].id && rows[i].height == w.rows[i].height;
      forall i | 0 <= i < |rows| && rows[i].processed != ProcessedOf(start.rows, rows[i].id)
        ensures TargetOf(rows[i]) in taken
      {
        if rows[i].id == target.id {
          assert TargetOf(rows[i]) == target;
        } else {
          assert rows[i] == w.rows[i];
        }
      }
    }
  }

  predicate CanFinishBlock(pass: Pass) {
    pass.Working? && pass.index < |pass.blocks| && pass.begun.Some?
  }

  lemma CommitWithin(start: World, lag: nat, batch: nat, taken: seq<Target>, w: World)
    requires Within(start, lag, batch, taken, w)
    ensures Within(start, lag, batch, taken, Next(w, Commit))
  {
    if w.pass.Working? && Goal(w.pass).Some? {
      var k := if w.pass.index == |taken| then w.pass.index - 1 else w.pass.index;
      assert InWindow(start, lag, taken[k].height);
    }
  }

  lemma AppendWithin(start: World, lag: nat, batch: nat, taken: seq<Target>, w: World, height: nat)
    requires FreshIds(start.rows, start.nextId)
    requires Within(start, lag, batch, taken, w)
    ensures Within(start, lag, batch, taken, Next(w, Append(height)))
  {
    NeverProcessed(start.rows, start.nextId, w.nextId);
  }

  lemma RollBackWithin(start: World, lag: nat, batch: nat, taken: seq<Target>, w: World, height: nat)
    requires Within(start, lag, batch, taken, w)
    ensures Within(start, lag, batch, taken, Next(w, RollBack(height)))
  {
    BelowIsPrefix(w.rows, height);
    var rows := RowsBelow(w.rows, height);
    assert forall i :: 0 <= i < |rows| ==> rows[i] == w.rows[i];
  }

  lemma RedecodeWithin(start: World, lag: nat, batch: nat, taken: seq<Target>, w: World, height: nat)
    requires Within(start, lag, batch, taken, w)
    ensures Within(start, lag, batch, taken, Next(w, Redecode(height)))
  {
    var rows := Next(w, Redecode(height)).rows;
    assert forall i :: 0 <= i < |rows| ==>
      rows[i].id == w.rows[i].id && rows[i].height == w.rows[i].height && rows[i].processed == w.rows[i].processed;
    assert forall i :: 0 <= i < |rows| ==> TargetOf(rows[i]) == TargetOf(w.rows[i]);
  }

  /** Taking a batch: no more blocks than asked for, from the rows in the window. */
  lemma SelectWithin(start: World, lag: nat, batch: nat, taken: seq<Target>, w: World) returns (now: seq<Target>)
    requires FreshIds(w.rows, w.nextId)
    requires Within(start, lag, batch, taken, w)
    ensures Within(start, lag, batch, now, Next(w, Select(batch)))
    ensures w.pass.Opened? || now == taken
    ensures taken == [] || now == taken
  {
    now := taken;
    if w.pass.Opened? && batch > 0 && !WindowIsEmpty(w.pass.window) {
      var window := w.pass.window;
      var blocks := BlocksInRange(w.rows, window.from, window.ceiling, batch);
      RangeInWindow(w.rows, window.from, window.ceiling);
      forall k | 0 <= k < |blocks| ensures InWindow(start, lag, blocks[k].height) && blocks[k].id < w.nextId {
        assert blocks[k] == InRange(w.rows, window.from, window.ceiling)[k];
      }
      forall i, k | 0 <= i < |w.rows| && 0 <= k < |blocks| && w.rows[i].id == blocks[k].id
        ensures w.rows[i].height == blocks[k].height
      {
        assert blocks[k] == InRange(w.rows, window.from, window.ceiling)[k];
        var j :| 0 <= j < |w.rows| && TargetOf(w.rows[j]) == blocks[k];
        assert j == i;
      }
      now := blocks;
    }
  }

  /** No step of the pass, and no step of others, goes further than the lag and the batch allow. */
  lemma StepWithin(start: World, lag: nat, batch: nat, taken: seq<Target>, w: World, step: Step) returns (now: seq<Target>)
    requires FreshIds(start.rows, start.nextId) && FreshIds(w.rows, w.nextId)
    requires Within(start, lag, batch, taken, w) && OfPass(step, batch)
    ensures Within(start, lag, batch, now, Next(w, step))
    ensures w.pass.Opened? || now == taken
    ensures taken == [] || now == taken
  {
    now := taken;
    match step {
      case Select(_) => now := SelectWithin(start, lag, batch, taken, w);
      case Finish => FinishWithin(start, lag, batch, taken, w);
      case Commit => CommitWithin(start, lag, batch, taken, w);
      case Append(height) => AppendWithin(start, lag, batch, taken, w, height);
      case RollBack(height) => RollBackWithin(start, lag, batch, taken, w, height);
      case Redecode(height) => RedecodeWithin(start, lag, batch, taken, w, height);
      case Begin => assert Next(w, Begin).rows == w.rows;
      case Abort => assert Next(w, Abort).rows == w.rows;
    }
  }

  /** The blocks under work, or none if the pass skips a range without any. */
  predicate TakenBefore(pass: Pass, taken: seq<Target>) {
    match pass
    case Working(_, blocks, _, _) => taken == blocks
    case Passing(_, _) => taken == []
    case _ => true
  }

  /**
   * However others interleave, a pass takes at most a batch of blocks, all above its cursor and the lag below the tip
   * it read; it processes no other block, and moves its cursor no further.
   */
  lemma {:induction false} PassStaysWithin(start: World, lag: nat, batch: nat, steps: seq<Step>) returns (taken: seq<Target>)
    requires Inv(start) && start.pass.Idle? && OnePass(steps, lag, batch)
    ensures Within(start, lag, batch, taken, Run(start, steps)) && Inv(Run(start, steps))
    ensures TakenBefore(Run(start, steps[..|steps| - 1]).pass, taken)
  {
    var init := steps[..|steps| - 1];
    if init == [] {
      taken := [];
      assert Run(start, init) == start;
      OpenedWithin(start, lag, batch);
      StepKeepsInv(start, Open(lag));
    } else {
      taken := PassStaysWithin(start, lag, batch, init);
      StepKeepsInv(Run(start, init), steps[|steps| - 1]);
      taken := StepWithin(start, lag, batch, taken, Run(start, init), steps[|steps| - 1]);
    }
  }

  /** The same of the tables alone. */
  lemma WithinRows(start: World, lag: nat, batch: nat, taken: seq<Target>, w: World)
    requires Within(start, lag, batch, taken, w)
    ensures forall r :: r in w.rows && r.processed != ProcessedOf(start.rows, r.id) ==>
      TargetOf(r) in taken && NextHeight(start.cursor) <= r.height && r.height + lag <= start.tip
  {
    forall r | r in w.rows && r.processed != ProcessedOf(start.rows, r.id)
      ensures TargetOf(r) in taken && InWindow(start, lag, r.height)
    {
      var i :| 0 <= i < |w.rows| && w.rows[i] == r;
      assert TargetOf(w.rows[i]) in taken;
    }
  }

  /** The same stored block, not asked for again in between. */
  predicate SameWish(r: Row, now: Row) {
    now.id == r.id && now.wanted == r.wanted
  }

  /** A block behind the cursor that is still stored, and not asked for again, is still behind it. */
  predicate NoneForgotten(w: World, after: World) {
    forall i, j :: 0 <= i < |w.rows| && 0 <= j < |after.rows| && SameWish(w.rows[i], after.rows[j]) ==>
      (w.rows[i].height < NextHeight(w.cursor) ==> after.rows[j].height < NextHeight(after.cursor))
  }

  lemma RollBackForgetsNothing(w: World, fromHeight: nat)
    requires RowsOk(w)
    ensures var after := Next(w, RollBack(fromHeight));
      NextHeight(after.cursor) <= NextHeight(w.cursor) && NoneForgotten(w, after)
  {
    var after := Next(w, RollBack(fromHeight));
    BelowIsPrefix(w.rows, fromHeight);
    forall j | 0 <= j < |after.rows| ensures after.rows[j] == w.rows[j] && after.rows[j].height <= TipOf(after.rows) {
      assert after.rows[|after.rows| - 1] == w.rows[|after.rows| - 1];
    }
  }

  /**
   * Nobody but the pass moves its cursor up, and requests and rollbacks lower it no further than they must: a block that
   * is still stored and not asked for again stays behind the cursor, if it was.
   */
  lemma OthersForgetNothing(w: World, step: Step)
    requires Inv(w) && (step.Append? || step.RollBack? || step.Redecode?)
    ensures NextHeight(Next(w, step).cursor) <= NextHeight(w.cursor) && NoneForgotten(w, Next(w, step))
  {
    if step.RollBack? {
      RollBackForgetsNothing(w, step.fromHeight);
    }
  }

  /** An undisturbed pass gets a whole batch further, or to the lag below the tip. */
  predicate FullBatch(start: World, lag: nat, batch: nat, cursor: Option<nat>) {
    cursor.Some? && (cursor.value + lag == start.tip || cursor.value + 1 >= NextHeight(start.cursor) + batch)
  }

  lemma SelectedReach(w: World, lag: nat, batch: nat)
    requires RowsOk(w) && batch > 0
    ensures var window := ReadPassWindow(w.cursor, w.tip, w.generation, lag);
      var blocks := BlocksInRange(w.rows, window.from, window.ceiling, batch);
      blocks != [] ==> FullBatch(w, lag, batch, Some(blocks[|blocks| - 1].height))
  {
    var from, ceiling := NextHeight(w.cursor), w.tip - lag;
    var range, blocks := InRange(w.rows, from, ceiling), BlocksInRange(w.rows, from, ceiling, batch);
    var at := RangeIsSlice(w.rows, from, ceiling);
    if blocks != [] {
      var last := at + |blocks| - 1;
      assert range[last - at] == TargetOf(w.rows[last]);
      assert w.rows[last].height == w.rows[at].height + |blocks| - 1;
      if |blocks| < batch && at + |range| < |w.rows| {
        assert w.rows[last + 1].height > ceiling;
      }
    }
  }
}
