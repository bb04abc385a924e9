/** The decode pass as it runs: its loop over the stored blocks, with other writers at every wait. */
module PassStore {
  import opened Wrappers
  import opened TrailingPasses
  import opened PassBounds

  /** What other writers do while the pass waits. */
  predicate Outside(step: Step) {
    step.Append? || step.RollBack? || step.Redecode?
  }

  predicate AllOutside(waits: seq<seq<Step>>) {
    forall i, j :: 0 <= i < |waits| && 0 <= j < |waits[i]| ==> Outside(waits[i][j])
  }

  lemma {:induction false} RunConcat(w: World, p: seq<Step>, q: seq<Step>)
    ensures Run(w, p + q) == Run(Run(w, p), q)
  {
    if q == [] {
      assert p + q == p;
    } else {
      assert (p + q)[..|p + q| - 1] == p + q[..|q| - 1];
      RunConcat(w, p, q[..|q| - 1]);
    }
  }

  lemma {:induction false} RunKeepsInv(w: World, steps: seq<Step>)
    requires Inv(w)
    ensures Inv(Run(w, steps))
  {
    if steps != [] {
      RunKeepsInv(w, steps[..|steps| - 1]);
      StepKeepsInv(Run(w, steps[..|steps| - 1]), steps[|steps| - 1]);
    }
  }

  /** Other writers do not touch the pass. */
  lemma {:induction false} OutsideLeavesPass(w: World, steps: seq<Step>)
    requires forall j :: 0 <= j < |steps| ==> Outside(steps[j])
    ensures Run(w, steps).pass == w.pass
  {
    if steps != [] {
      OutsideLeavesPass(w, steps[..|steps| - 1]);
    }
  }

  lemma RunPush(w: World, steps: seq<Step>, step: Step)
    ensures Run(w, steps + [step]) == Next(Run(w, steps), step)
  {
    assert (steps + [step])[..|steps|] == steps;
  }

  predicate Quiet(waits: seq<seq<Step>>) {
    forall i :: 0 <= i < |waits| ==> waits[i] == []
  }

  predicate ReadyToCommit(w: World, window: Window) {
    !w.pass.Idle? && w.pass.window == window && Goal(w.pass).Some? &&
    (w.pass.Passing? ==> w.pass.target >= window.from)
  }

  /** The pass works on the window these tables give it. */
  predicate BeginsAt(w: World, lag: nat, window: Window) {
    RowsOk(w) && window == ReadPassWindow(w.cursor, w.tip, w.generation, lag)
  }

  function TakenCount(pass: Pass): nat {
    if pass.Working? then |pass.blocks| else 0
  }

  predicate SamePosition(w: World, v: World) {
    w.cursor == v.cursor && w.generation == v.generation
  }

  lemma CommittedRun(start: World, trace: seq<Step>, lag: nat, quiet: bool)
    requires Inv(start) && trace != [] && trace[|trace| - 1] == Commit
    requires ReadyToCommit(Run(start, trace[..|trace| - 1]), ReadPassWindow(start.cursor, start.tip, start.generation, lag))
    requires quiet ==> SamePosition(Run(start, trace[..|trace| - 1]), start)
    ensures Inv(Run(start, trace))
    ensures quiet ==>
      NextHeight(Run(start, trace).cursor) > NextHeight(start.cursor) && Run(start, trace).generation == start.generation
  {
    RunKeepsInv(start, trace);
    RunKeepsInv(start, trace[..|trace| - 1]);
    if quiet { CommitAdvances(Run(start, trace[..|trace| - 1])); }
  }

  datatype RedecodeResult = RedecodeResult(previous: Option<nat>, changed: bool)

  class SyncStore {
    var rows: seq<Row>
    var tip: nat
    var cursor: Option<nat>
    var generation: nat
    var nextId: nat
    var clock: nat
    ghost var pass: Pass

    ghost function State(): World
      reads this
    {
      World(rows, tip, cursor, generation, nextId, clock, pass)
    }

    constructor ()
      ensures State() == INITIAL
    {
      rows, tip, cursor, generation, nextId, clock, pass := [], 0, None, 0, 0, 0, Idle;
    }

    /** Cursor and counter are read together. */
    method ReadWindow(lag: nat) returns (window: Window)
      ensures window == ReadPassWindow(cursor, tip, generation, lag)
    {
      window := Window(Position(cursor, generation), if cursor.None? then 0 else cursor.value + 1, tip - lag);
    }

    /** Oldest first, at most `limit`. */
    method SelectBlocks(from: nat, ceiling: int, limit: nat) returns (blocks: seq<Target>)
      ensures blocks == BlocksInRange(rows, from, ceiling, limit)
    {
      blocks := [];
      for i := 0 to |rows|
        invariant blocks == InRange(rows[..i], from, ceiling)
      {
        assert rows[..i + 1][..i] == rows[..i];
        if from <= rows[i].height <= ceiling {
          blocks := blocks + [TargetOf(rows[i])];
        }
      }
      assert rows[..|rows|] == rows;
      if |blocks| > limit {
        blocks := blocks[..limit];
      }
    }

    /** One transaction under the rollback lock. */
    method Advance(expected: Position, height: nat) returns (advanced: bool)
      modifies this`cursor
      ensures advanced == Unchanged(old(State()), expected)
      ensures State() == AdvancePassCursor(old(State()), expected, height)
    {
      if generation != expected.generation || cursor != expected.cursor {
        return false;
      }
      cursor := Some(height);
      advanced := true;
    }

    /** One transaction under the rollback lock. */
    method RedecodeFrom(height: nat) returns (result: RedecodeResult)
      modifies this`cursor, this`rows, this`clock
      ensures State() == Next(old(State()), Redecode(height))
      ensures result == RedecodeResult(old(cursor), RedecodeChanges(old(cursor), height))
    {
      result := RedecodeResult(cursor, true);
      if cursor.None? || cursor.value < height {
        result := RedecodeResult(cursor, false);
      } else {
        cursor := if height == 0 then None else Some(height - 1);
        rows := WantAgain(rows, height, clock);
      }
      clock := clock + 1;
    }

    /** The pass waits, and the other writers run. */
    method Wait(waits: seq<seq<Step>>, k: nat, ghost start: World, ghost trace: seq<Step>) returns (ghost after: seq<Step>)
      requires AllOutside(waits) && State() == Run(start, trace)
      modifies this
      ensures State() == Run(start, after) && pass == old(pass)
      ensures k >= |waits| || waits[k] == [] ==> State() == old(State())
      ensures WorksOn(trace, after)
    {
      after := trace;
      if k < |waits| {
        ghost var before := State();
        var steps := waits[k];
        for j := 0 to |steps|
          invariant State() == Run(before, steps[..j])
        {
          Other(steps[j]);
          assert steps[..j + 1][..j] == steps[..j];
        }
        assert steps[..|steps|] == steps;
        RunConcat(start, trace, steps);
        OutsideLeavesPass(before, steps);
        after := trace + steps;
        assert forall i :: |trace| <= i < |after| ==> Outside(after[i]);
      }
    }

    method Other(step: Step)
      requires Outside(step)
      modifies this
      ensures State() == Next(old(State()), step)
    {
      match step {
        case Append(height) =>
          if rows == [] || height == tip + 1 {
            rows := rows + [Row(nextId, height, clock, None)];
            tip, nextId := height, nextId + 1;
          }
          clock := clock + 1;
        case RollBack(fromHeight) =>
          var left := RowsBelow(rows, fromHeight);
          if left != rows {
            rows, tip, cursor := left, TipOf(left), Clamp(cursor, TipOf(left));
          }
          generation, clock := generation + 1, clock + 1;
        case Redecode(fromHeight) =>
          var _ := RedecodeFrom(fromHeight);
      }
    }

    /** Opens a pass over the window read. */
    method Start(lag: nat) returns (window: Window)
      requires pass.Idle?
      modifies this`pass, this`clock
      ensures window == ReadPassWindow(old(cursor), old(tip), old(generation), lag)
      ensures if WindowIsEmpty(window) then State() == old(State()) else State() == Next(old(State()), Open(lag))
    {
      window := ReadWindow(lag);
      if !WindowIsEmpty(window) {
        pass, clock := Opened(window), clock + 1;
      }
    }

    method Pick(window: Window, limit: nat) returns (blocks: seq<Target>)
      requires pass == Opened(window) && limit > 0 && !WindowIsEmpty(window)
      modifies this`pass, this`clock
      ensures State() == Next(old(State()), Select(limit))
      ensures blocks == BlocksInRange(old(rows), window.from, window.ceiling, limit)
    {
      blocks := SelectBlocks(window.from, window.ceiling, limit);
      pass := if blocks == [] then Passing(window, Min(window.from + limit - 1, window.ceiling))
        else Working(window, blocks, 0, None);
      clock := clock + 1;
    }

    /** Reads and decodes one block. Nothing is written yet. */
    method Read(window: Window, blocks: seq<Target>, i: nat) returns (time: nat)
      requires i < |blocks| && pass == Working(window, blocks, i, None)
      modifies this`pass, this`clock
      ensures State() == Next(old(State()), Begin) && pass == Working(window, blocks, i, Some(time))
    {
      time := clock;
      pass, clock := Working(window, blocks, i, Some(time)), clock + 1;
    }

    /** Writes the decoded rows of one block, by id. */
    method Write(window: Window, blocks: seq<Target>, i: nat, time: nat)
      requires i < |blocks| && pass == Working(window, blocks, i, Some(time))
      modifies this`pass, this`clock, this`rows
      ensures State() == Next(old(State()), Finish) && pass == Working(window, blocks, i + 1, None)
    {
      rows := MarkProcessed(rows, blocks[i].id, time);
      pass, clock := Working(window, blocks, i + 1, None), clock + 1;
    }

    method Close(start: Position, height: nat) returns (advanced: bool)
      requires !pass.Idle? && start == pass.window.start && Goal(pass) == Some(height)
      modifies this`cursor, this`pass, this`clock
      ensures advanced == Unchanged(old(State()), start)
      ensures State() == Next(old(State()), Commit)
    {
      advanced := Advance(start, height);
      pass, clock := Idle, clock + 1;
    }

    /**
     * One pass over at most `batch` blocks. `waits` is what the other writers do at each wait. The tables end
     * as some interleaving of the pass with these writers leaves them. Whatever the others do, the pass keeps the lag
     * below the tip it read: it processes no block above, no more than a batch, and moves its cursor no further.
     * Undisturbed, it gets a whole batch further or up to the lag. It reports the blocks it took if it moved its cursor.
     */
    method RunOnce(lag: nat, batch: nat, waits: seq<seq<Step>>)
      returns (blocks: nat, ghost trace: seq<Step>, ghost taken: seq<Target>)
      requires pass.Idle? && batch > 0 && AllOutside(waits) && Inv(State())
      modifies this
      ensures State() == Run(old(State()), trace) && Inv(State())
      ensures NextHeight(cursor) > old(NextHeight(cursor)) ==> cursor.value + lag <= old(tip)
      ensures |taken| <= batch && (blocks == 0 || blocks == |taken|)
      ensures forall r :: r in rows && r.processed != ProcessedOf(old(rows), r.id) ==>
        TargetOf(r) in taken && old(NextHeight(cursor)) <= r.height && r.height + lag <= old(tip)
      ensures Quiet(waits) && old(NextHeight(cursor)) + lag <= old(tip) ==>
        && NextHeight(cursor) > old(NextHeight(cursor)) && generation == old(generation) && blocks == |taken|
        && (cursor.value + lag == old(tip) || cursor.value + 1 >= old(NextHeight(cursor)) + batch)
    {
      ghost var start := State();
      blocks, trace, taken := 0, [], [];
      var window := Start(lag);
      if !WindowIsEmpty(window) {
        RunPush(start, [], Open(lag));
        blocks, trace := Work(window, lag, batch, waits, start, [Open(lag)]);
        CommittedRun(start, trace, lag, Quiet(waits));
        taken := PassStaysWithin(start, lag, batch, trace);
        WithinRows(start, lag, batch, taken, State());
      } else {
        OpenedWithin(start, lag, batch);
        WithinRows(start, lag, batch, taken, State());
      }
    }

    method Work(window: Window, ghost lag: nat, batch: nat, waits: seq<seq<Step>>, ghost start: World, ghost trace: seq<Step>)
      returns (blocks: nat, ghost after: seq<Step>)
      requires pass == Opened(window) && !WindowIsEmpty(window) && batch > 0 && AllOutside(waits)
      requires State() == Run(start, trace)
      modifies this
      ensures after != [] && after[|after| - 1] == Commit && State() == Run(start, after)
      ensures OnePass(trace, lag, batch) ==> OnePass(after, lag, batch)
      ensures Quiet(waits) && BeginsAt(old(State()), lag, window) ==>
        FullBatch(old(State()), lag, batch, cursor)
      ensures ReadyToCommit(Run(start, after[..|after| - 1]), window)
      ensures blocks == 0 || blocks == TakenCount(Run(start, after[..|after| - 1]).pass)
      ensures Quiet(waits) && old(Unchanged(State(), window.start)) ==> blocks == TakenCount(Run(start, after[..|after| - 1]).pass)
      ensures Quiet(waits) ==> SamePosition(Run(start, after[..|after| - 1]), old(State()))
    {
      var selected, height;
      selected, height, after := TakeBatch(window, lag, batch, waits, start, trace);
      after := Wait(waits, |selected| + 1, start, after);
      var advanced;
      advanced, after := CloseNoted(window, height, start, after);
      blocks := if advanced then |selected| else 0;
    }

    /** Chooses the blocks and processes them. `height` is where the cursor is to go. */
    method TakeBatch(window: Window, ghost lag: nat, batch: nat, waits: seq<seq<Step>>, ghost start: World, ghost trace: seq<Step>)
      returns (selected: seq<Target>, height: nat, ghost after: seq<Step>)
      requires pass == Opened(window) && !WindowIsEmpty(window) && batch > 0 && AllOutside(waits)
      requires State() == Run(start, trace)
      modifies this
      ensures State() == Run(start, after) && ReadyToCommit(State(), window) && Goal(pass) == Some(height)
      ensures |selected| == TakenCount(pass)
      ensures OnePass(trace, lag, batch) ==> OnePass(after, lag, batch)
      ensures Quiet(waits) ==> SamePosition(State(), old(State()))
      ensures Quiet(waits) && BeginsAt(old(State()), lag, window) ==>
        FullBatch(old(State()), lag, batch, Some(height))
    {
      selected, after := Choose(window, lag, batch, waits, start, trace);
      if selected == [] {
        height := Min(window.from + batch - 1, window.ceiling);
      } else {
        after := Process(window, selected, waits, start, after);
        height := selected[|selected| - 1].height;
      }
    }

    method CloseNoted(window: Window, height: nat, ghost start: World, ghost trace: seq<Step>) returns (advanced: bool, ghost after: seq<Step>)
      requires !pass.Idle? && window == pass.window && Goal(pass) == Some(height) && State() == Run(start, trace)
      modifies this`cursor, this`pass, this`clock
      ensures after == trace + [Commit] && State() == Run(start, after)
      ensures advanced == old(Unchanged(State(), window.start)) && (advanced ==> cursor == Some(height))
    {
      RunPush(start, trace, Commit);
      advanced := Close(window.start, height);
      after := trace + [Commit];
    }

    method Choose(window: Window, ghost lag: nat, batch: nat, waits: seq<seq<Step>>, ghost start: World, ghost trace: seq<Step>)
      returns (selected: seq<Target>, ghost after: seq<Step>)
      requires pass == Opened(window) && !WindowIsEmpty(window) && batch > 0 && AllOutside(waits)
      requires State() == Run(start, trace)
      modifies this
      ensures State() == Run(start, after)
      ensures pass == if selected == [] then Passing(window, Min(window.from + batch - 1, window.ceiling))
        else Working(window, selected, 0, None)
      ensures after != [] && after[|after| - 1] == Select(batch) && WorksOn(trace, after[..|after| - 1])
      ensures Quiet(waits) ==> SamePosition(State(), old(State()))
      ensures Quiet(waits) && selected != [] && BeginsAt(old(State()), lag, window) ==>
        FullBatch(old(State()), lag, batch, Some(selected[|selected| - 1].height))
    {
      ghost var before := State();
      after := Wait(waits, 0, start, trace);
      selected := Pick(window, batch);
      if RowsOk(before) { SelectedReach(before, lag, batch); }
      RunPush(start, after, Select(batch));
      after := after + [Select(batch)];
    }

    method Process(window: Window, blocks: seq<Target>, waits: seq<seq<Step>>, ghost start: World, ghost trace: seq<Step>)
      returns (ghost after: seq<Step>)
      requires pass == Working(window, blocks, 0, None) && AllOutside(waits) && State() == Run(start, trace)
      modifies this
      ensures State() == Run(start, after) && pass == Working(window, blocks, |blocks|, None)
      ensures WorksOn(trace, after)
      ensures Quiet(waits) ==> SamePosition(State(), old(State()))
    {
      after := trace;
      for i := 0 to |blocks|
        invariant State() == Run(start, after) && pass == Working(window, blocks, i, None)
        invariant WorksOn(trace, after)
        invariant Quiet(waits) ==> SamePosition(State(), old(State()))
      {
        var time := Read(window, blocks, i);
        RunPush(start, after, Begin);
        after := after + [Begin];
        after := Wait(waits, i + 1, start, after);
        Write(window, blocks, i, time);
        RunPush(start, after, Finish);
        after := after + [Finish];
      }
    }
  }
}
