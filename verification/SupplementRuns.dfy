/** The ledger parameters read back exactly, over whole runs of the indexer pass. */
module SupplementRuns {
  import opened Wrappers
  import opened TrailingPasses
  import opened Supplement
  import opened SupplementProofs

  // ---- What holds in every reachable state ----------------------------------

  predicate GenerationsOk(s: State) {
    && (s.cachedGeneration.Some? ==> s.cachedGeneration.value <= s.world.generation)
    && (!s.world.pass.Idle? ==> s.cachedGeneration == Some(s.world.pass.window.start.generation))
  }

  /** Without redecode requests, at the same counter the cursor is where the pass found it. */
  predicate CursorStands(w: World) {
    !w.pass.Idle? && w.pass.window.start.generation == w.generation ==> w.cursor == w.pass.window.start.cursor
  }

  /** Ids in use were given out before. */
  predicate OldIds(w: World, stored: map<nat, nat>) {
    && (forall id :: id in stored ==> id < w.nextId)
    && (w.pass.Working? ==> forall k :: 0 <= k < |w.pass.blocks| ==> w.pass.blocks[k].id < w.nextId)
  }

  predicate ReachedOk(rows: seq<Row>, tip: nat, cursor: Option<nat>, reached: nat) {
    && NextHeight(cursor) <= reached
    && (if rows == [] then reached == NextHeight(cursor) else reached <= tip + 1)
  }

  predicate StoredOk(s: State) {
    var keys := Keys(s.world.rows);
    && TrueReports(keys, s.stored, s.truth)
    && AllReadBack(keys, s.stored, s.truth, Low(s.world.cursor), s.reached)
  }

  predicate CacheCurrent(s: State) {
    s.cachedGeneration == Some(s.world.generation) ==>
      && CacheOk(Keys(s.world.rows), s.stored, s.truth, s.cache, Passed(s.world), s.reached)
      && Passed(s.world) <= s.reached
  }

  predicate AnswerOk(s: State) {
    CanFinish(s.world.pass) ==>
      var id := s.world.pass.blocks[s.world.pass.index].id;
      Stored(Keys(s.world.rows), id) ==> s.answer == Lookup(s.truth, id)
  }

  /** A block at height 0 that arrives while the pass skips an empty index was not supplemented. */
  predicate SkippedGenesis(s: State) {
    var w := s.world;
    Live(w) && w.pass.Passing? && w.pass.window.from == 0 && w.rows != [] && w.rows[0].height == 0 ==>
      s.reached == 0 && w.rows[0].id !in s.stored
  }

  ghost predicate Safe(s: State) {
    Inv(s.world) && LedgerOk(s)
  }

  predicate LedgerOk(s: State) {
    && GenerationsOk(s) && CursorStands(s.world) && OldIds(s.world, s.stored)
    && ReachedOk(s.world.rows, s.world.tip, s.world.cursor, s.reached)
    && StoredOk(s) && CacheCurrent(s) && AnswerOk(s) && SkippedGenesis(s)
  }

  lemma KeysOk(w: World)
    requires RowsOk(w)
    ensures ConsecutiveKeys(Keys(w.rows))
  {
  }

  // ---- The pass takes one block ---------------------------------------------

  /** The block a live pass takes is the next one stored. */
  lemma NextBlock(w: World) returns (i: nat)
    requires Inv(w) && Live(w) && CanFinish(w.pass)
    ensures NextOne(Keys(w.rows), i, Passed(w)) && Keys(w.rows)[i] == w.pass.blocks[w.pass.index]
    ensures Low(w.cursor) <= Keys(w.rows)[i].height <= w.tip
  {
    var at: nat :| WorkOk(w.rows, w.pass, at);
    i := at + w.pass.index;
    assert w.pass.blocks[i - at] == TargetOf(w.rows[i]);
    if w.pass.index > 0 {
      assert w.pass.blocks[i - 1 - at] == TargetOf(w.rows[i - 1]);
    }
  }

  lemma FinishKeepsKeys(w: World)
    ensures Keys(Next(w, Finish).rows) == Keys(w.rows)
  {
  }

  lemma ReadyBefore(s: State)
    requires LedgerOk(s) && RowsOk(s.world) && !s.world.pass.Idle? && Live(s.world)
    ensures Ready(Keys(s.world.rows), s.stored, s.truth, s.cache, Passed(s.world), Low(s.world.cursor), s.reached)
  {
    KeysOk(s.world);
  }

  /** What taking the block `k` of a live pass comes to. */
  lemma ApplyParts(s: State, k: Target)
    requires CanFinish(s.world.pass) && Live(s.world) && k == s.world.pass.blocks[s.world.pass.index]
    requires Stored(Keys(s.world.rows), k.id) && s.answer == Lookup(s.truth, k.id)
    ensures Apply(s).reached == Max(s.reached, k.height + 1) && Passed(Apply(s).world) == k.height + 1
    ensures k.id in s.truth ==> Apply(s).cache == Holds(Some(s.truth[k.id]))
    ensures k.id in s.truth ==> Apply(s).stored == StoredAfter(Keys(s.world.rows), s.stored, s.cache, k, s.truth[k.id])
    ensures k.id !in s.truth ==> Apply(s).cache == s.cache && Apply(s).stored == s.stored
  {
  }

  lemma ApplyLive(s: State)
    requires Safe(s) && CanFinish(s.world.pass) && Live(s.world)
    ensures var after := Apply(s);
      Ready(Keys(s.world.rows), after.stored, s.truth, after.cache, Passed(after.world), Low(s.world.cursor), after.reached)
      && after.reached <= s.world.tip + 1
  {
    var w, keys := s.world, Keys(s.world.rows);
    var i := NextBlock(w);
    assert Stored(keys, keys[i].id);
    ApplyParts(s, keys[i]);
    ReadyBefore(s);
    var from, low := Passed(w), Low(w.cursor);
    if keys[i].id in s.truth {
      AnsweredBlock(keys, s.stored, s.truth, s.cache, i, from, low, s.reached);
    } else {
      SkippedBlock(keys, s.stored, s.truth, s.cache, i, from, low, s.reached);
    }
  }

  lemma ApplyStale(s: State)
    requires Safe(s) && CanFinish(s.world.pass) && !Live(s.world)
    ensures StoredOk(Apply(s)) && s.cachedGeneration != Some(s.world.generation)
  {
    var w, keys := s.world, Keys(s.world.rows);
    KeysOk(w);
    FinishKeepsKeys(w);
    var target := w.pass.blocks[w.pass.index];
    if s.answer.Some? && Stored(keys, target.id) {
      var i :| 0 <= i < |keys| && keys[i].id == target.id;
      WriteKeeps(keys, s.stored, s.truth, i, Low(w.cursor), s.reached);
    }
  }

  lemma ApplySafe(s: State)
    requires Safe(s)
    ensures LedgerOk(Apply(s))
  {
    if CanFinish(s.world.pass) {
      var after := Apply(s);
        FinishKeepsKeys(s.world);
      if Live(s.world) {
        ApplyLive(s);
      } else {
        ApplyStale(s);
      }
      assert OldIds(after.world, after.stored) by { StoredIdsOld(s); }
    }
  }

  lemma StoredIdsOld(s: State)
    requires Safe(s) && CanFinish(s.world.pass)
    ensures OldIds(Apply(s).world, Apply(s).stored)
  {
  }

  // ---- The other steps ------------------------------------------------------

  lemma OpenSafe(s: State, lag: nat)
    requires Safe(s)
    ensures LedgerOk(OpenSupplement(s, lag))
  {
  }

  lemma AskSafe(s: State, reported: Option<nat>)
    requires Safe(s)
    ensures LedgerOk(Ask(s, reported))
  {
  }

  /** Giving up a pass puts the blocks since its cursor ahead again. */
  lemma GiveUpSafe(s: State, restart: bool)
    requires Safe(s)
    ensures LedgerOk(Act(s, if restart then Restarts else Other(Abort)))
  {
    if !s.world.pass.Idle? && s.cachedGeneration == Some(s.world.generation) {
      PassedAboveCursor(s.world);
    }
  }

  lemma PassedAboveCursor(w: World)
    requires Inv(w) && Live(w)
    ensures NextHeight(w.cursor) <= Passed(w)
  {
    if w.pass.Working? && w.pass.index > 0 {
      var at: nat :| WorkOk(w.rows, w.pass, at);
      assert w.pass.blocks[at + w.pass.index - 1 - at] == TargetOf(w.rows[at + w.pass.index - 1]);
    }
  }

  lemma SelectSafe(s: State, limit: nat)
    requires Safe(s)
    ensures LedgerOk(Move(s, Select(limit)))
  {
    var w := s.world;
    if w.pass.Opened? && limit != 0 && !WindowIsEmpty(w.pass.window) {
      var at := RangeIsSlice(w.rows, w.pass.window.from, w.pass.window.ceiling);
      SelectedIdsOld(w, limit, at);
      SelectedFrom(w, limit, at);
      SelectedLedger(s, limit);
    }
  }

  lemma SelectedLedger(s: State, limit: nat)
    requires LedgerOk(s) && s.world.pass.Opened? && OldIds(Next(s.world, Select(limit)), map[])
    requires Next(s.world, Select(limit)).pass.Passing? && s.world.pass.window.from == 0 && s.world.rows != [] ==> s.world.rows[0].height > 0
    ensures LedgerOk(Move(s, Select(limit)))
  {
  }

  lemma SelectedIdsOld(w: World, limit: nat, at: nat)
    requires FreshIds(w.rows, w.nextId) && w.pass.Opened?
    requires SliceAt(w.rows, InRange(w.rows, w.pass.window.from, w.pass.window.ceiling), w.pass.window.from, w.pass.window.ceiling, at)
    ensures OldIds(Next(w, Select(limit)), map[])
  {
    var blocks := InRange(w.rows, w.pass.window.from, w.pass.window.ceiling);
    forall k | 0 <= k < |blocks| ensures blocks[k].id < w.nextId {
      assert blocks[at + k - at] == TargetOf(w.rows[at + k]);
    }
  }

  /** A range that begins at height 0 and holds no block is a range below the first block. */
  lemma SelectedFrom(w: World, limit: nat, at: nat)
    requires w.pass.Opened? && w.pass.window.ceiling >= w.pass.window.from
    requires SliceAt(w.rows, InRange(w.rows, w.pass.window.from, w.pass.window.ceiling), w.pass.window.from, w.pass.window.ceiling, at)
    ensures Next(w, Select(limit)).pass.Passing? && w.pass.window.from == 0 && w.rows != [] ==> w.rows[0].height > 0
  {
  }

  // ---- Blocks arrive and go -------------------------------------------------

  lemma KeysPush(w: World, height: nat)
    requires RowsOk(w)
    requires w.rows == [] || height == w.tip + 1
    ensures Keys(Next(w, Append(height)).rows) == Keys(w.rows) + [Target(w.nextId, height)]
  {
  }

  /** A new block is above everything supplemented, except at height 0 under a cursor that is at 0 already. */
  lemma PushReadsBack(s: State, height: nat)
    requires Safe(s)
    requires s.world.rows == [] || height == s.world.tip + 1
    ensures StoredOk(Move(s, Append(height)))
  {
    var w, keys, key := s.world, Keys(s.world.rows), Target(s.world.nextId, height);
    KeysPush(w, height);
    KeysOk(w);
    var after := keys + [key];
    forall i | 0 <= i < |after| && Low(w.cursor) <= after[i].height < s.reached ensures ReadsBack(after, s.stored, s.truth, after[i]) {
      assert i < |keys| && after[i] == keys[i];
      assert after[..|keys|] == keys;
    }
  }

  lemma PushCache(s: State, height: nat)
    requires Safe(s)
    requires s.world.rows == [] || height == s.world.tip + 1
    ensures CacheCurrent(Move(s, Append(height)))
  {
    var w, keys, key := s.world, Keys(s.world.rows), Target(s.world.nextId, height);
    KeysPush(w, height);
    var after := keys + [key];
    assert after[..|keys|] == keys;
    assert forall i :: 0 <= i < |keys| ==> after[i] == keys[i];
  }

  lemma AppendSafe(s: State, height: nat)
    requires Safe(s)
    ensures LedgerOk(Move(s, Append(height)))
  {
    var w := s.world;
    if w.rows == [] || height == w.tip + 1 {
      PushReadsBack(s, height);
      PushCache(s, height);
      KeysPush(w, height);
      var after := Keys(w.rows) + [Target(w.nextId, height)];
      assert after[..|w.rows|] == Keys(w.rows);
      assert AnswerOk(Move(s, Append(height))) by { PushAnswer(s, height); }
    }
  }

  lemma PushAnswer(s: State, height: nat)
    requires Safe(s)
    requires s.world.rows == [] || height == s.world.tip + 1
    ensures AnswerOk(Move(s, Append(height)))
  {
    var w, keys := s.world, Keys(s.world.rows);
    KeysPush(w, height);
    var after := keys + [Target(w.nextId, height)];
    if CanFinish(w.pass) {
      var id := w.pass.blocks[w.pass.index].id;
      if Stored(after, id) {
        var i :| 0 <= i < |after| && after[i].id == id;
        assert keys[i].id == id;
      }
    }
  }

  lemma KeysBelow(rows: seq<Row>, fromHeight: nat)
    ensures |RowsBelow(rows, fromHeight)| <= |rows|
    ensures Keys(RowsBelow(rows, fromHeight)) == Keys(rows)[..|RowsBelow(rows, fromHeight)|]
  {
    BelowIsPrefix(rows, fromHeight);
  }

  lemma RollBackReadsBack(s: State, fromHeight: nat)
    requires Safe(s)
    ensures StoredOk(Move(s, RollBack(fromHeight)))
  {
    BelowIsPrefix(s.world.rows, fromHeight);
    KeysBelow(s.world.rows, fromHeight);
    KeysOk(s.world);
    PrefixReadsBack(Keys(s.world.rows), s.stored, s.truth, Low(s.world.cursor), s.reached, |RowsBelow(s.world.rows, fromHeight)|);
  }

  lemma RollBackSafe(s: State, fromHeight: nat)
    requires Safe(s)
    ensures LedgerOk(Move(s, RollBack(fromHeight)))
  {
    var w := s.world;
    BelowIsPrefix(w.rows, fromHeight);
    KeysBelow(w.rows, fromHeight);
    RollBackReadsBack(s, fromHeight);
  }

  // ---- The pass moves its cursor --------------------------------------------

  /** A pass that worked moves the cursor to what it has passed. */
  lemma WorkedGoal(w: World)
    requires Inv(w) && Live(w) && w.pass.Working? && Goal(w.pass).Some?
    ensures Goal(w.pass).value + 1 == Passed(w)
  {
    var at: nat :| WorkOk(w.rows, w.pass, at);
    GoalIsRow(w.rows, w.pass, at);
    assert w.pass.blocks[at + w.pass.index - 1 - at] == TargetOf(w.rows[at + w.pass.index - 1]);
  }

  /** Over a range without blocks, what is remembered stays what is in effect. */
  lemma SkippedRange(s: State)
    requires Safe(s) && Live(s.world) && s.world.pass.Passing?
    ensures StoredOk(Move(s, Commit)) && CacheCurrent(Move(s, Commit))
  {
    var w, keys := s.world, Keys(s.world.rows);
    assert Keys(Move(s, Commit).world.rows) == keys;
    KeysOk(w);
    var from, goal := w.pass.window.from, w.pass.target;
    ReadyBefore(s);
    if w.rows != [] && w.rows[0].height == 0 && from == 0 {
      EmptyGenesis(keys, s.stored, s.truth, s.cache, goal);
    } else {
      EmptyRange(keys, s.stored, s.truth, s.cache, Low(w.cursor), from, goal, s.reached);
    }
  }

  lemma CommitSafe(s: State)
    requires Safe(s)
    ensures LedgerOk(Move(s, Commit))
  {
    var w := s.world;
    if Live(w) && Goal(w.pass).Some? {
      GoalBelowTip(w);
      if w.pass.Working? {
        WorkedGoal(w);
      } else {
        SkippedRange(s);
      }
    }
  }

  lemma ActKeepsLedger(s: State, action: Action)
    requires Safe(s)
    ensures LedgerOk(Act(s, action))
  {
    match action {
      case Opens(lag) => OpenSafe(s, lag);
      case Asks(reported) => AskSafe(s, reported);
      case Applies => ApplySafe(s);
      case Restarts => GiveUpSafe(s, true);
      case Other(step) =>
        match step {
          case Select(limit) => SelectSafe(s, limit);
          case Commit => CommitSafe(s);
          case Abort => GiveUpSafe(s, false);
          case Append(height) => AppendSafe(s, height);
          case RollBack(fromHeight) => RollBackSafe(s, fromHeight);
          case _ =>
        }
    }
  }

  /** What an action does to the blocks and the cursor. */
  function StepOf(action: Action): Step {
    match action
    case Opens(lag) => Open(lag)
    case Asks(_) => Begin
    case Applies => Finish
    case Restarts => Abort
    case Other(step) => step
  }

  lemma ActIsStep(s: State, action: Action)
    ensures Act(s, action).world == s.world || Act(s, action).world == Next(s.world, StepOf(action))
    ensures Act(s, action).truth == s.truth
  {
  }

  lemma ActKeepsSafe(s: State, action: Action)
    requires Safe(s)
    ensures Safe(Act(s, action))
  {
    ActKeepsLedger(s, action);
    ActIsStep(s, action);
    StepKeepsInv(s.world, StepOf(action));
  }

  /** The newest stored parameters at or below a height. */
  function InEffect(rows: seq<Row>, stored: map<nat, nat>, height: nat): Option<nat> {
    ParametersBelow(Keys(rows), stored, height + 1)
  }

  /**
   * Whatever fails, restarts, arrives or is rolled back, at every supplemented height of 1 or more for which the
   * indexer reports parameters, the newest stored parameters at or below the height are the reported ones.
   */
  lemma {:induction false} ParametersReadBack(truth: map<nat, nat>, actions: seq<Action>)
    ensures Safe(RunAll(Initial(truth), actions))
    ensures RunAll(Initial(truth), actions).truth == truth
    ensures var s := RunAll(Initial(truth), actions);
      forall r :: r in s.world.rows && 1 <= r.height < NextHeight(s.world.cursor) && r.id in truth ==>
        InEffect(s.world.rows, s.stored, r.height) == Some(truth[r.id])
  {
    var s := RunAll(Initial(truth), actions);
    if actions == [] {
      InitialSafe(truth);
    } else {
      ParametersReadBack(truth, actions[..|actions| - 1]);
      ActIsStep(RunAll(Initial(truth), actions[..|actions| - 1]), actions[|actions| - 1]);
      ActKeepsSafe(RunAll(Initial(truth), actions[..|actions| - 1]), actions[|actions| - 1]);
    }
    SafeReadsBack(s);
  }

  lemma InitialSafe(truth: map<nat, nat>)
    ensures Safe(Initial(truth))
  {
    assert Inv(INITIAL);
  }

  lemma SafeReadsBack(s: State)
    requires StoredOk(s) && NextHeight(s.world.cursor) <= s.reached
    ensures forall r :: r in s.world.rows && 1 <= r.height < NextHeight(s.world.cursor) && r.id in s.truth ==>
      InEffect(s.world.rows, s.stored, r.height) == Some(s.truth[r.id])
  {
    forall r | r in s.world.rows && 1 <= r.height < NextHeight(s.world.cursor) && r.id in s.truth
      ensures InEffect(s.world.rows, s.stored, r.height) == Some(s.truth[r.id])
    {
      var i :| 0 <= i < |s.world.rows| && s.world.rows[i] == r;
      var keys := Keys(s.world.rows);
      assert ReadsBack(keys, s.stored, s.truth, keys[i]);
    }
  }
}
