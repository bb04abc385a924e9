/**
 * The indexer pass stores the ledger parameters of a block only where they differ from the ones before. It
 * remembers the last parameters in memory, for as long as the rollback counter stands.
 */
module Supplement {
  import opened Wrappers
  import opened TrailingPasses

  /** `Holds(None)` is the empty text that stands for no parameters stored below. */
  datatype Cache = Unset | Holds(value: Option<nat>)

  /**
   * `stored` holds the parameters written, by row id. `truth` is what the indexer reports for each block ever
   * inserted; ids without an entry are blocks it reports no parameters for. `answer` is the report held while
   * a block is under way. `reached` is one above the highest block supplemented since it was stored.
   */
  datatype State = State(
    world: World, stored: map<nat, nat>, cache: Cache, cachedGeneration: Option<nat>, answer: Option<nat>,
    truth: map<nat, nat>, reached: nat)

  datatype Action =
    | Opens(lag: nat)
    | Asks(reported: Option<nat>)
    | Applies
    | Restarts
    | Other(step: Step)

  function Initial(truth: map<nat, nat>): State {
    State(INITIAL, map[], Unset, None, None, truth, 0)
  }

  // ---- Reading and writing parameters ---------------------------------------

  function Lookup(m: map<nat, nat>, id: nat): Option<nat> {
    if id in m then Some(m[id]) else None
  }

  /** Ids and heights of the stored blocks, lowest first. */
  function Keys(rows: seq<Row>): (keys: seq<Target>)
    ensures |keys| == |rows| && forall i :: 0 <= i < |rows| ==> keys[i] == TargetOf(rows[i])
  {
    seq(|rows|, i requires 0 <= i < |rows| => TargetOf(rows[i]))
  }

  /** The newest stored parameters below `height`. */
  function ParametersBelow(keys: seq<Target>, stored: map<nat, nat>, height: int): Option<nat> {
    if keys == [] then None else
      var last := keys[|keys| - 1];
      if last.height < height && last.id in stored then Some(stored[last.id])
      else ParametersBelow(keys[..|keys| - 1], stored, height)
  }

  predicate Stored(keys: seq<Target>, id: nat) {
    exists i :: 0 <= i < |keys| && keys[i].id == id
  }

  /** The remembered parameters, or else the stored ones below. */
  function Known(keys: seq<Target>, stored: map<nat, nat>, cache: Cache, height: nat): Option<nat> {
    if cache.Unset? then ParametersBelow(keys, stored, height) else cache.value
  }

  /** Rows are written by id: a row deleted meanwhile takes nothing. */
  function ApplyBlockFields(s: State, id: nat, height: nat): State {
    if s.answer.None? then s else
      var a := s.answer.value;
      var keys := Keys(s.world.rows);
      var known := Known(keys, s.stored, s.cache, height);
      s.(stored := if known != Some(a) && Stored(keys, id) then s.stored[id := a] else s.stored,
         cache := Holds(Some(a)))
  }

  // ---- Steps ----------------------------------------------------------------

  /** The cache is dropped when the counter has moved. A pass does this before it looks at its window. */
  function OpenSupplement(s: State, lag: nat): State {
    if !s.world.pass.Idle? then s else
      s.(world := Next(s.world, Open(lag)),
         cache := if s.cachedGeneration == Some(s.world.generation) then s.cache else Unset,
         cachedGeneration := Some(s.world.generation))
  }

  predicate CanBegin(pass: Pass) {
    pass.Working? && pass.index < |pass.blocks| && pass.begun.None?
  }

  predicate CanFinish(pass: Pass) {
    pass.Working? && pass.index < |pass.blocks| && pass.begun.Some?
  }

  /** The indexer answers truthfully for a block that is stored when it is asked, and anything for another. */
  function Ask(s: State, reported: Option<nat>): State {
    if !CanBegin(s.world.pass) then s else
      var id := s.world.pass.blocks[s.world.pass.index].id;
      s.(world := Next(s.world, Begin),
         answer := if Stored(Keys(s.world.rows), id) then Lookup(s.truth, id) else reported)
  }

  function Max(a: nat, b: nat): nat {
    if a < b then b else a
  }

  function Apply(s: State): State {
    if !CanFinish(s.world.pass) then s else
      var target := s.world.pass.blocks[s.world.pass.index];
      var after := ApplyBlockFields(s, target.id, target.height);
      after.(world := Next(s.world, Finish), answer := None,
             reached := if Live(s.world) then Max(s.reached, target.height + 1) else s.reached)
  }

  function ReachedAfterRollback(w: World, reached: nat): nat {
    if w.rows == [] then NextHeight(w.cursor) else Min(reached, w.tip + 1)
  }

  /** Steps that are the pass's own waiting, committing or giving up, and the other writers. */
  function Move(s: State, step: Step): State {
    var world := Next(s.world, step);
    match step
    case Abort => s.(world := world, answer := None)
    case Commit => s.(world := world, reached := Max(s.reached, NextHeight(world.cursor)))
    case Select(_) | Append(_) => s.(world := world)
    case RollBack(_) => s.(world := world, reached := ReachedAfterRollback(world, s.reached))
    case _ => s
  }

  function Act(s: State, action: Action): State {
    match action
    case Opens(lag) => OpenSupplement(s, lag)
    case Asks(reported) => Ask(s, reported)
    case Applies => Apply(s)
    case Restarts => s.(world := Next(s.world, Abort), cache := Unset, cachedGeneration := None, answer := None)
    case Other(step) => Move(s, step)
  }

  function RunAll(s: State, actions: seq<Action>): State {
    if actions == [] then s else Act(RunAll(s, actions[..|actions| - 1]), actions[|actions| - 1])
  }

  // ---- What holds in every reachable state ----------------------------------

  predicate ConsecutiveKeys(keys: seq<Target>) {
    && (forall i :: 0 <= i < |keys| ==> keys[i].height == keys[0].height + i)
    && (forall i, j :: 0 <= i < j < |keys| ==> keys[i].id != keys[j].id)
  }

  /** The parameters in effect at a row are what the indexer reports for it, if it reports any. */
  predicate ReadsBack(keys: seq<Target>, stored: map<nat, nat>, truth: map<nat, nat>, k: Target) {
    k.id in truth ==> ParametersBelow(keys, stored, k.height + 1) == Some(truth[k.id])
  }

  predicate AllReadBack(keys: seq<Target>, stored: map<nat, nat>, truth: map<nat, nat>, low: nat, high: nat) {
    forall i :: 0 <= i < |keys| && low <= keys[i].height < high ==> ReadsBack(keys, stored, truth, keys[i])
  }

  /** Only true reports are stored. */
  predicate TrueReports(keys: seq<Target>, stored: map<nat, nat>, truth: map<nat, nat>) {
    forall i :: 0 <= i < |keys| && keys[i].id in stored ==> Lookup(truth, keys[i].id) == Some(stored[keys[i].id])
  }

  /** Height 0 counts as long as the cursor was never set. */
  function Low(cursor: Option<nat>): nat {
    if cursor.None? then 0 else 1
  }

  predicate AnsweredIn(keys: seq<Target>, truth: map<nat, nat>, low: int, high: int) {
    exists i :: 0 <= i < |keys| && low <= keys[i].height < high && keys[i].id in truth
  }

  /** One above the blocks the pass has behind it. */
  function Passed(w: World): nat {
    if w.pass.Working? && 0 < w.pass.index <= |w.pass.blocks| then w.pass.blocks[w.pass.index - 1].height + 1
    else NextHeight(w.cursor)
  }

  /**
   * The remembered parameters are the ones below `reached`, or a block between here and there will set them
   * again on the way.
   */
  predicate CacheOk(keys: seq<Target>, stored: map<nat, nat>, truth: map<nat, nat>, cache: Cache, from: int, reached: nat) {
    cache.Unset? || cache.value == ParametersBelow(keys, stored, reached) || AnsweredIn(keys, truth, from, reached)
  }
}
