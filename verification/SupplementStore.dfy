/** The indexer pass as it runs, with what it remembers between blocks. */
module SupplementStore {
  import opened Wrappers
  import opened TrailingPasses
  import opened PassBounds
  import opened PassStore
  import opened Supplement
  import opened SupplementRuns

  /** What asking the indexer for a block comes to, or a stop before it is asked. */
  datatype Reply = Answer(reported: Option<nat>) | NotReached | Failed | Stopping

  /** Redecode requests have no effect on this pass: it has a cursor of its own. */
  predicate AllForeign(waits: seq<seq<Step>>) {
    forall i, j :: 0 <= i < |waits| && 0 <= j < |waits[i]| ==> waits[i][j].Append? || waits[i][j].RollBack?
  }

  function RunFrom(s: State, actions: seq<Action>): State {
    if actions == [] then s else Act(RunFrom(s, actions[..|actions| - 1]), actions[|actions| - 1])
  }

  lemma RunFromPush(s: State, actions: seq<Action>, action: Action)
    ensures RunFrom(s, actions + [action]) == Act(RunFrom(s, actions), action)
  {
    assert (actions + [action])[..|actions|] == actions;
  }

  lemma {:induction false} RunFromSafe(s: State, actions: seq<Action>)
    requires Safe(s)
    ensures Safe(RunFrom(s, actions))
  {
    if actions != [] {
      RunFromSafe(s, actions[..|actions| - 1]);
      ActKeepsSafe(RunFrom(s, actions[..|actions| - 1]), actions[|actions| - 1]);
    }
  }

  /** The actions of one pass behind its opening, and what others do. */
  predicate OfSupplement(action: Action, batch: nat) {
    !action.Opens? && (action.Other? ==> OfPass(action.step, batch))
  }

  predicate OneSupplement(actions: seq<Action>, lag: nat, batch: nat) {
    actions != [] && actions[0] == Opens(lag) && forall k :: 1 <= k < |actions| ==> OfSupplement(actions[k], batch)
  }

  /** The pass opened nothing and took nothing in between. */
  predicate Continues(actions: seq<Action>, after: seq<Action>) {
    actions <= after &&
    forall k :: |actions| <= k < |after| ==> !after[k].Opens? && (after[k].Other? ==> !after[k].step.Open? && !after[k].step.Select?)
  }

  lemma StillOne(actions: seq<Action>, after: seq<Action>, lag: nat, batch: nat)
    requires Continues(actions, after)
    ensures OneSupplement(actions, lag, batch) ==> OneSupplement(after, lag, batch)
  {
  }

  /** Parameters were written for taken blocks alone. */
  predicate StoredTaken(before: map<nat, nat>, stored: map<nat, nat>, taken: seq<Target>) {
    forall id :: id in stored && Lookup(stored, id) != Lookup(before, id) ==> exists k :: 0 <= k < |taken| && taken[k].id == id
  }

  lemma ActWithin(start: State, lag: nat, batch: nat, taken: seq<Target>, s: State, action: Action) returns (now: seq<Target>)
    requires FreshIds(start.world.rows, start.world.nextId) && FreshIds(s.world.rows, s.world.nextId)
    requires Within(start.world, lag, batch, taken, s.world) && OfSupplement(action, batch)
    requires StoredTaken(start.stored, s.stored, taken)
    ensures Within(start.world, lag, batch, now, Act(s, action).world)
    ensures taken == [] || now == taken
    ensures StoredTaken(start.stored, Act(s, action).stored, now)
  {
    now := taken;
    match action {
      case Asks(_) => now := StepWithin(start.world, lag, batch, taken, s.world, Begin);
      case Applies =>
        now := StepWithin(start.world, lag, batch, taken, s.world, Finish);
        if CanFinish(s.world.pass) { assert taken[s.world.pass.index] == s.world.pass.blocks[s.world.pass.index]; }
      case Restarts => now := StepWithin(start.world, lag, batch, taken, s.world, Abort);
      case Other(step) =>
        if !step.Begin? && !step.Finish? && !step.Redecode? {
          now := StepWithin(start.world, lag, batch, taken, s.world, step);
        }
    }
  }

  /** However others interleave, a pass writes parameters for no more than a batch of blocks, none above the lag. */
  lemma {:induction false} SupplementStaysWithin(start: State, lag: nat, batch: nat, actions: seq<Action>) returns (taken: seq<Target>)
    requires Safe(start) && start.world.pass.Idle? && OneSupplement(actions, lag, batch)
    ensures Within(start.world, lag, batch, taken, RunFrom(start, actions).world)
    ensures StoredTaken(start.stored, RunFrom(start, actions).stored, taken) && Safe(RunFrom(start, actions))
  {
    var init, last := actions[..|actions| - 1], actions[|actions| - 1];
    RunFromSafe(start, actions);
    if init == [] {
      taken := [];
      assert RunFrom(start, init) == start;
      OpenedWithin(start.world, lag, batch);
    } else {
      taken := SupplementStaysWithin(start, lag, batch, init);
      taken := ActWithin(start, lag, batch, taken, RunFrom(start, init), last);
    }
  }

  /** What a batch of an undisturbed pass reaches. */
  lemma BatchReach(start: State, actions: seq<Action>, lag: nat, batch: nat)
    requires Safe(start) && batch > 0
    ensures var w := RunFrom(start, actions).world;
      var window := ReadPassWindow(w.cursor, w.tip, w.generation, lag);
      var blocks := BlocksInRange(w.rows, window.from, window.ceiling, batch);
      blocks != [] ==> FullBatch(w, lag, batch, Some(blocks[|blocks| - 1].height))
  {
    RunFromSafe(start, actions);
    SelectedReach(RunFrom(start, actions).world, lag, batch);
  }

  /** No other writer runs, and the indexer answers every request of the pass. */
  predicate Undisturbed(replies: seq<Reply>, waits: seq<seq<Step>>, batch: nat) {
    Quiet(waits) && batch <= |replies| && forall i :: 0 <= i < |replies| ==> replies[i].Answer?
  }

  class IndexerSupplement {
    const db: SyncStore
    /** What the indexer reports for the blocks stored. */
    const indexer: map<nat, nat>
    var stored: map<nat, nat>
    var lastLedgerParameters: Cache
    var cachedGeneration: Option<nat>
    ghost var answer: Option<nat>
    ghost var reached: nat

    ghost function State(): State
      reads this, db
    {
      Supplement.State(db.State(), stored, lastLedgerParameters, cachedGeneration, answer, indexer, reached)
    }

    constructor (db: SyncStore, indexer: map<nat, nat>)
      requires db.State() == INITIAL
      ensures this.db == db && this.indexer == indexer && State() == Initial(indexer)
    {
      this.db, this.indexer := db, indexer;
      stored, lastLedgerParameters, cachedGeneration, answer, reached := map[], Unset, None, None, 0;
    }

    /** The newest stored parameters below the height. */
    method ReadParametersBelow(height: nat) returns (found: Option<nat>)
      ensures found == ParametersBelow(Keys(db.rows), stored, height)
    {
      var keys := Keys(db.rows);
      var i := |keys|;
      assert keys[..i] == keys;
      while i > 0
        invariant 0 <= i <= |keys|
        invariant ParametersBelow(keys[..i], stored, height) == ParametersBelow(keys, stored, height)
      {
        i := i - 1;
        assert keys[..i + 1][..i] == keys[..i];
        if keys[i].height < height && keys[i].id in stored {
          return Some(stored[keys[i].id]);
        }
      }
      found := None;
    }

    /** Parameters that differ from the ones before are written by row id; the row may be gone. */
    method ApplyBlockFields(id: nat, height: nat, reported: Option<nat>)
      requires reported == answer
      modifies this`stored, this`lastLedgerParameters
      ensures State() == old(Supplement.ApplyBlockFields(State(), id, height))
    {
      if reported.None? {
        return;
      }
      if lastLedgerParameters.Unset? {
        var below := ReadParametersBelow(height);
        lastLedgerParameters := Holds(below);
      }
      if lastLedgerParameters.value == reported {
        return;
      }
      if Stored(Keys(db.rows), id) {
        stored := stored[id := reported.value];
      }
      lastLedgerParameters := Holds(reported);
    }

    method Foreign(step: Step)
      requires step.Append? || step.RollBack?
      modifies this`reached, db
      ensures State() == Act(old(State()), Other(step)) && db.pass == old(db.pass)
    {
      db.Other(step);
      if step.RollBack? {
        reached := ReachedAfterRollback(db.State(), reached);
      }
    }

    /** The pass waits, and the other writers run. */
    method Wait(waits: seq<seq<Step>>, k: nat, ghost start: State, ghost trace: seq<Action>) returns (ghost after: seq<Action>)
      requires AllForeign(waits) && State() == RunFrom(start, trace)
      modifies this`reached, db
      ensures State() == RunFrom(start, after) && db.pass == old(db.pass) && Continues(trace, after)
      ensures Quiet(waits) ==> SamePosition(db.State(), old(db.State())) && db.rows == old(db.rows)
    {
      after := trace;
      if k < |waits| {
        for j := 0 to |waits[k]|
          invariant State() == RunFrom(start, after) && db.pass == old(db.pass) && Continues(trace, after)
          invariant Quiet(waits) ==> SamePosition(db.State(), old(db.State())) && db.rows == old(db.rows)
        {
          Foreign(waits[k][j]);
          RunFromPush(start, after, Other(waits[k][j]));
          after := after + [Other(waits[k][j])];
        }
      }
    }

    /** The cache is dropped when the counter has moved, even if there is nothing to do. */
    method Begins(lag: nat) returns (window: Window)
      requires db.pass.Idle?
      modifies this`lastLedgerParameters, this`cachedGeneration, db`pass, db`clock
      ensures State() == Act(old(State()), Opens(lag))
      ensures window == old(ReadPassWindow(db.cursor, db.tip, db.generation, lag))
      ensures !WindowIsEmpty(window) ==> db.pass == Opened(window)
      ensures WindowIsEmpty(window) ==> db.pass.Idle?
    {
      window := db.ReadWindow(lag);
      if cachedGeneration != Some(window.start.generation) {
        lastLedgerParameters, cachedGeneration := Unset, Some(window.start.generation);
      }
      var begun := db.Start(lag);
      if WindowIsEmpty(begun) {
        db.clock := db.clock + 1;
      }
    }

    /** The indexer's answer, truthful for a block that is stored. */
    method FetchBlock(window: Window, blocks: seq<Target>, i: nat, reported: Option<nat>) returns (report: Option<nat>, time: nat)
      requires i < |blocks| && db.pass == Working(window, blocks, i, None)
      modifies this`answer, db`pass, db`clock
      ensures State() == Act(old(State()), Asks(reported))
      ensures report == answer && db.pass == Working(window, blocks, i, Some(time))
    {
      time := db.Read(window, blocks, i);
      report := if Stored(Keys(db.rows), blocks[i].id) then Lookup(indexer, blocks[i].id) else reported;
      answer := report;
    }

    method Applied(window: Window, blocks: seq<Target>, i: nat, report: Option<nat>, time: nat)
      requires i < |blocks| && db.pass == Working(window, blocks, i, Some(time)) && report == answer
      modifies this`stored, this`lastLedgerParameters, this`answer, this`reached, db`pass, db`clock, db`rows
      ensures State() == Act(old(State()), Applies) && db.pass == Working(window, blocks, i + 1, None)
    {
      ghost var live := Live(db.State());
      ApplyBlockFields(blocks[i].id, blocks[i].height, report);
      db.Write(window, blocks, i, time);
      answer := None;
      reached := if live then Max(reached, blocks[i].height + 1) else reached;
    }

    method Commits(start: Position, height: nat)
      requires !db.pass.Idle? && start == db.pass.window.start && Goal(db.pass) == Some(height)
      modifies this`reached, db`cursor, db`pass, db`clock
      ensures State() == Act(old(State()), Other(Commit)) && db.pass.Idle?
    {
      var _ := db.Close(start, height);
      reached := Max(reached, NextHeight(db.cursor));
    }

    method GivesUp()
      modifies this`answer, db`pass, db`clock
      ensures State() == Act(old(State()), Other(Abort))
    {
      db.pass, db.clock, answer := Idle, db.clock + 1, None;
    }

    /**
     * One pass over at most `batch` blocks. `replies` is what the indexer says to each request, `waits` what the
     * other writers do at each wait. The result is an interleaving of the pass with them, so every supplemented
     * block still reads back. Whatever the others do, it writes parameters for no more than a batch of blocks, none above
     * the lag below the tip it read, and moves its cursor no further; with every reply it gets a whole batch further or up
     * to the lag. False is a pass that failed; the cache is kept then.
     */
    method RunOnce(lag: nat, batch: nat, replies: seq<Reply>, waits: seq<seq<Step>>)
      returns (completed: bool, ghost trace: seq<Action>, ghost taken: seq<Target>)
      requires db.pass.Idle? && batch > 0 && AllForeign(waits) && Safe(State())
      modifies this, db
      ensures State() == RunFrom(old(State()), trace) && Safe(State()) && db.pass.Idle?
      ensures forall r :: r in db.rows && 1 <= r.height < NextHeight(db.cursor) && r.id in indexer ==>
        InEffect(db.rows, stored, r.height) == Some(indexer[r.id])
      ensures !completed ==> exists i :: 0 <= i < |replies| && replies[i].Failed?
      ensures NextHeight(db.cursor) > old(NextHeight(db.cursor)) ==> db.cursor.value + lag <= old(db.tip)
      ensures |taken| <= batch
      ensures forall k :: 0 <= k < |taken| ==> old(NextHeight(db.cursor)) <= taken[k].height && taken[k].height + lag <= old(db.tip)
      ensures forall r :: r in db.rows && r.processed != ProcessedOf(old(db.rows), r.id) ==>
        TargetOf(r) in taken && old(NextHeight(db.cursor)) <= r.height && r.height + lag <= old(db.tip)
      ensures StoredTaken(old(stored), stored, taken)
      ensures Undisturbed(replies, waits, batch) && old(NextHeight(db.cursor)) + lag <= old(db.tip) ==>
        && NextHeight(db.cursor) > old(NextHeight(db.cursor))
        && (db.cursor.value + lag == old(db.tip) || db.cursor.value + 1 >= old(NextHeight(db.cursor)) + batch)
    {
      ghost var start := State();
      completed := true;
      RunFromPush(start, [], Opens(lag));
      trace := [Opens(lag)];
      var window := Begins(lag);
      if !WindowIsEmpty(window) {
        completed, trace := Work(window, lag, batch, replies, waits, start, trace);
      }
      taken := SupplementStaysWithin(start, lag, batch, trace);
      WithinRows(start.world, lag, batch, taken, db.State());
      SafeReadsBack(State());
    }

    method Work(window: Window, ghost lag: nat, batch: nat, replies: seq<Reply>, waits: seq<seq<Step>>, ghost start: State, ghost trace: seq<Action>)
      returns (completed: bool, ghost after: seq<Action>)
      requires db.pass == Opened(window) && !WindowIsEmpty(window) && batch > 0 && AllForeign(waits)
      requires State() == RunFrom(start, trace) && Safe(start) && window == ReadPassWindow(db.cursor, db.tip, db.generation, lag)
      modifies this, db
      ensures State() == RunFrom(start, after) && db.pass.Idle?
      ensures OneSupplement(trace, lag, batch) ==> OneSupplement(after, lag, batch)
      ensures !completed ==> exists i :: 0 <= i < |replies| && replies[i].Failed?
      ensures Undisturbed(replies, waits, batch) ==>
        NextHeight(db.cursor) > old(NextHeight(db.cursor)) && FullBatch(old(db.State()), lag, batch, db.cursor)
    {
      var blocks, index;
      blocks, after := Choose(window, lag, batch, waits, start, trace);
      if blocks == [] {
        completed := true;
        after := Skip(window, batch, waits, start, after);
      } else {
        ghost var chosen := after;
        completed, index, after := Process(window, blocks, replies, waits, start, after);
        StillOne(chosen, after, lag, batch);
        after := Conclude(window, blocks, index, completed, start, after);
      }
    }

    method Choose(window: Window, ghost lag: nat, batch: nat, waits: seq<seq<Step>>, ghost start: State, ghost trace: seq<Action>)
      returns (blocks: seq<Target>, ghost after: seq<Action>)
      requires db.pass == Opened(window) && !WindowIsEmpty(window) && batch > 0 && AllForeign(waits)
      requires State() == RunFrom(start, trace) && Safe(start) && window == ReadPassWindow(db.cursor, db.tip, db.generation, lag)
      modifies this`reached, db
      ensures State() == RunFrom(start, after) && |blocks| <= batch
      ensures OneSupplement(trace, lag, batch) ==> OneSupplement(after, lag, batch)
      ensures db.pass == if blocks == [] then Passing(window, Min(window.from + batch - 1, window.ceiling))
        else Working(window, blocks, 0, None)
      ensures Quiet(waits) ==> SamePosition(db.State(), old(db.State()))
      ensures Quiet(waits) && blocks != [] ==> FullBatch(old(db.State()), lag, batch, Some(blocks[|blocks| - 1].height))
    {
      BatchReach(start, trace, lag, batch);
      after := Wait(waits, 0, start, trace);
      StillOne(trace, after, lag, batch);
      blocks, after := PickNoted(window, batch, start, after);
    }

    method PickNoted(window: Window, batch: nat, ghost start: State, ghost trace: seq<Action>)
      returns (blocks: seq<Target>, ghost after: seq<Action>)
      requires db.pass == Opened(window) && !WindowIsEmpty(window) && batch > 0 && State() == RunFrom(start, trace)
      modifies db`pass, db`clock
      ensures State() == RunFrom(start, after) && after == trace + [Other(Select(batch))]
      ensures blocks == BlocksInRange(db.rows, window.from, window.ceiling, batch)
      ensures db.pass == if blocks == [] then Passing(window, Min(window.from + batch - 1, window.ceiling))
        else Working(window, blocks, 0, None)
    {
      RunFromPush(start, trace, Other(Select(batch)));
      blocks := db.Pick(window, batch);
      after := trace + [Other(Select(batch))];
    }

    /** With nothing stored in the range, the cursor moves past it. */
    method Skip(window: Window, batch: nat, waits: seq<seq<Step>>, ghost start: State, ghost trace: seq<Action>) returns (ghost after: seq<Action>)
      requires batch > 0 && !WindowIsEmpty(window) && AllForeign(waits)
      requires db.pass == Passing(window, Min(window.from + batch - 1, window.ceiling))
      requires State() == RunFrom(start, trace) && Safe(start)
      modifies this`reached, db
      ensures State() == RunFrom(start, after) && db.pass.Idle?
      ensures forall lag: nat :: OneSupplement(trace, lag, batch) ==> OneSupplement(after, lag, batch)
      ensures Quiet(waits) && old(Unchanged(db.State(), window.start)) ==>
        NextHeight(db.cursor) > old(NextHeight(db.cursor)) && db.cursor == Some(Min(window.from + batch - 1, window.ceiling))
    {
      after := Wait(waits, 1, start, trace);
      forall lag: nat | OneSupplement(trace, lag, batch) ensures OneSupplement(after, lag, batch) {
        StillOne(trace, after, lag, batch);
      }
      after := End(window.start, Min(window.from + batch - 1, window.ceiling), start, after);
    }

    /** Moves the cursor to the last block, or below the first one left out, or gives up. */
    method Conclude(window: Window, blocks: seq<Target>, index: nat, completed: bool, ghost start: State, ghost trace: seq<Action>)
      returns (ghost after: seq<Action>)
      requires index <= |blocks| && blocks != [] && db.pass == Working(window, blocks, index, None)
      requires State() == RunFrom(start, trace) && Safe(start)
      modifies this, db
      ensures State() == RunFrom(start, after) && db.pass.Idle?
      ensures after == trace + [Other(Commit)] || after == trace + [Other(Abort)]
      ensures completed && index == |blocks| && old(Unchanged(db.State(), window.start)) ==>
        NextHeight(db.cursor) > old(NextHeight(db.cursor)) && db.cursor == Some(blocks[|blocks| - 1].height)
    {
      if completed && index == |blocks| {
        after := End(window.start, blocks[index - 1].height, start, trace);
      } else if completed && index > 0 && blocks[index].height > 0 {
        after := End(window.start, blocks[index].height - 1, start, trace);
      } else {
        GivesUp();
        RunFromPush(start, trace, Other(Abort));
        after := trace + [Other(Abort)];
      }
    }

    method End(position: Position, height: nat, ghost start: State, ghost trace: seq<Action>) returns (ghost after: seq<Action>)
      requires !db.pass.Idle? && position == db.pass.window.start && Goal(db.pass) == Some(height)
      requires State() == RunFrom(start, trace) && Safe(start)
      requires db.pass.Passing? ==> db.pass.target >= db.pass.window.from
      modifies this`reached, db`cursor, db`pass, db`clock
      ensures State() == RunFrom(start, after) && db.pass.Idle? && after == trace + [Other(Commit)]
      ensures old(Unchanged(db.State(), position)) ==>
        NextHeight(db.cursor) > old(NextHeight(db.cursor)) && db.cursor == Some(height)
    {
      RunFromSafe(start, trace);
      if Unchanged(db.State(), position) { CommitAdvances(db.State()); }
      Commits(position, height);
      RunFromPush(start, trace, Other(Commit));
      after := trace + [Other(Commit)];
    }

    /** One block: the indexer is asked, and its answer applied after a wait. */
    method TakeBlock(window: Window, blocks: seq<Target>, index: nat, reported: Option<nat>, waits: seq<seq<Step>>, ghost start: State, ghost trace: seq<Action>)
      returns (ghost after: seq<Action>)
      requires index < |blocks| && db.pass == Working(window, blocks, index, None) && AllForeign(waits) && State() == RunFrom(start, trace)
      modifies this, db
      ensures State() == RunFrom(start, after) && db.pass == Working(window, blocks, index + 1, None) && Continues(trace, after)
      ensures Quiet(waits) ==> SamePosition(db.State(), old(db.State()))
    {
      RunFromPush(start, trace, Asks(reported));
      after := trace + [Asks(reported)];
      var report, time := FetchBlock(window, blocks, index, reported);
      after := Wait(waits, 2 * index + 2, start, after);
      RunFromPush(start, after, Applies);
      after := after + [Applies];
      Applied(window, blocks, index, report, time);
    }

    /** The blocks in order, up to the first the indexer has not reached, a stop or a failure. */
    method Process(window: Window, blocks: seq<Target>, replies: seq<Reply>, waits: seq<seq<Step>>, ghost start: State, ghost trace: seq<Action>)
      returns (completed: bool, index: nat, ghost after: seq<Action>)
      requires db.pass == Working(window, blocks, 0, None) && AllForeign(waits) && State() == RunFrom(start, trace)
      modifies this, db
      ensures State() == RunFrom(start, after) && index <= |blocks| && db.pass == Working(window, blocks, index, None)
      ensures Continues(trace, after)
      ensures !completed ==> exists i :: 0 <= i < |replies| && replies[i].Failed?
      ensures Undisturbed(replies, waits, |blocks|) ==> index == |blocks| && SamePosition(db.State(), old(db.State()))
    {
      after, index := trace, 0;
      while index < |blocks|
        invariant index <= |blocks| && State() == RunFrom(start, after) && db.pass == Working(window, blocks, index, None)
        invariant Continues(trace, after)
        invariant Quiet(waits) ==> SamePosition(db.State(), old(db.State()))
      {
        after := Wait(waits, 2 * index + 1, start, after);
        var reply := if index < |replies| then replies[index] else NotReached;
        if reply.Failed? {
          return false, index, after;
        }
        if !reply.Answer? {
          return true, index, after;
        }
        after := TakeBlock(window, blocks, index, reply.reported, waits, start, after);
        index := index + 1;
      }
      completed := true;
    }
  }
}
