/**
 * A slot of the worker pool: workers come and go in it, and calls wait for a draining worker, are handed to the current
 * one, refused, run, rejected when a worker goes, and handed over once more. Everything interleaves.
 */
module WorkerSlots {
  import opened Wrappers
  import opened WorkerRpc

  /** What the worker made of a call it was handed. It refuses a call while it rotates, before running any of it. */
  datatype Side = Sent | Refused | Ran

  /** `waitsFor` is the worker that was draining when the call came to the gate. */
  datatype Phase =
    | AtGate(waitsFor: Option<nat>)
    | Cleared
    | Starting(worker: nat)
    | Running(call: Call)
    | Done(outcome: Outcome)

  /**
   * One call of `rpc`. The workers it was handed to, what each did with it, and what the caller got. `gates` holds, for
   * each attempt, the worker that was draining when the call came to the gate, and `repeated` how the first one ended.
   */
  datatype Rpc = Rpc(
    submitting: bool, attempt: nat, phase: Phase, handed: seq<nat>, sides: seq<Side>, results: seq<Outcome>,
    gates: seq<Option<nat>>, repeated: Option<Outcome>)

  /** Workers are numbered in the order they start. `closed` holds the ones that no longer take calls. */
  datatype Slot = Slot(
    worker: Option<nat>, draining: Option<nat>, announced: Option<nat>, stopping: Option<nat>,
    started: nat, exited: set<nat>, closed: set<nat>, calls: seq<Rpc>)

  const IDLE := Slot(None, None, None, None, 0, {}, {}, [])

  /** `Rotating` is the worker's message, at the start or at the end of its draining. `Fails` is its error event. */
  datatype Step =
    | Arrive(submitting: bool)
    | Clear(i: nat)
    | Hand(i: nat)
    | Ready(i: nat)
    | Admit(i: nat, k: nat)
    | Reply(i: nat, ok: bool, result: nat)
    | Announce(i: nat)
    | HookDone(i: nat, k: nat, ok: bool)
    | TimeOut(i: nat)
    | GiveUpHooks(i: nat)
    | Settle(i: nat)
    | Close(w: nat)
    | Announced(w: nat)
    | Fails(w: nat)
    | Exit(w: nat)
    | Stop

  // ---- One call -------------------------------------------------------------

  predicate InPhase(s: Slot, i: nat) {
    i < |s.calls|
  }

  predicate Pending(s: Slot, i: nat) {
    i < |s.calls| && s.calls[i].phase.Running?
  }

  function With(s: Slot, i: nat, r: Rpc): Slot
    requires i < |s.calls|
  {
    s.(calls := s.calls[i := r])
  }

  function Handed(r: Rpc, w: nat): Rpc {
    r.(phase := Running(SENT), handed := r.handed + [w], sides := r.sides + [Sent])
  }

  function Ended(r: Rpc, outcome: Outcome): Rpc {
    r.(phase := Done(outcome), results := r.results + [outcome])
  }

  /** The first attempt is over, and the call waits for what drains now. */
  function Again(r: Rpc, outcome: Outcome, draining: Option<nat>): Rpc {
    r.(attempt := 1, phase := AtGate(draining), gates := r.gates + [draining], repeated := Some(outcome))
  }

  function Moved(r: Rpc, e: Event): Rpc {
    if r.phase.Running? then r.(phase := Running(WorkerRpc.Next(r.phase.call, e))) else r
  }

  /** With a call settled, the caller gets its outcome or, once, it goes back to the gate. */
  function AfterAttempt(s: Slot, i: nat, outcome: Outcome): Slot
    requires Pending(s, i)
  {
    var r := s.calls[i];
    if r.attempt == 0 && outcome.Rotating? then
      var draining := if s.draining.None? then s.worker else s.draining;
      With(s, i, Again(r, outcome, draining)).(draining := draining)
    else if r.attempt == 0 && outcome.Rotated? && !r.submitting then
      With(s, i, Again(r, outcome, s.draining))
    else With(s, i, Ended(r, outcome))
  }

  function ReplyOf(side: Side, ok: bool, result: nat): Outcome {
    if side.Refused? then Rotating else if ok then Outcome.Ok(result) else WorkerError
  }

  // ---- The whole slot -------------------------------------------------------

  /** A worker that goes takes every pending call of the slot with it, whichever worker it was handed to. */
  function Rejected(calls: seq<Rpc>, outcome: Outcome): (rejected: seq<Rpc>)
    ensures |rejected| == |calls|
    ensures forall i :: 0 <= i < |calls| ==> rejected[i] == Moved(calls[i], Ends(outcome))
  {
    seq(|calls|, i requires 0 <= i < |calls| => Moved(calls[i], Ends(outcome)))
  }

  /** The ready promise of a worker that fails or exits first is rejected, and with it the call that started the worker. */
  function Unstarted(r: Rpc, w: nat): Rpc {
    if r.phase == Starting(w) then Ended(r, Crashed) else r
  }

  function StartFailed(calls: seq<Rpc>, w: nat): (after: seq<Rpc>)
    ensures |after| == |calls|
    ensures forall i :: 0 <= i < |calls| ==> after[i] == Unstarted(calls[i], w)
  {
    seq(|calls|, i requires 0 <= i < |calls| => Unstarted(calls[i], w))
  }

  function Without(w: Option<nat>, gone: nat): Option<nat> {
    if w == Some(gone) then None else w
  }

  /** Only the exit of the worker that announced it, and was not stopped, is a planned one. */
  function ExitOutcome(s: Slot, w: nat): Outcome {
    if s.stopping != Some(w) && s.announced == Some(w) then Rotated else Crashed
  }

  function Exited(s: Slot, w: nat): Slot {
    Slot(Without(s.worker, w), Without(s.draining, w), Without(s.announced, w), Without(s.stopping, w),
         s.started, s.exited + {w}, s.closed, StartFailed(Rejected(s.calls, ExitOutcome(s, w)), w))
  }

  predicate Alive(s: Slot, w: nat) {
    w < s.started && w !in s.exited
  }

  function OnWorker(s: Slot, step: Step): Slot {
    match step
    case Close(w) => if Alive(s, w) then s.(closed := s.closed + {w}) else s
    case Announced(w) => if Alive(s, w) && w in s.closed then s.(announced := Some(w), draining := Some(w)) else s
    case Fails(w) => if Alive(s, w) then s.(calls := StartFailed(Rejected(s.calls, Crashed), w)) else s
    case Exit(w) => if Alive(s, w) then Exited(s, w) else s
    case Stop => if s.worker.Some? then s.(worker := None, stopping := s.worker) else s
    case _ => s
  }

  /** A call waits for the draining worker to exit, then for a worker to be there. */
  function OnGate(s: Slot, step: Step): Slot {
    match step
    case Arrive(submitting) => s.(calls := s.calls + [Rpc(submitting, 0, AtGate(s.draining), [], [], [], [s.draining], None)])
    case Clear(i) =>
      if InPhase(s, i) && s.calls[i].phase.AtGate? && (s.calls[i].phase.waitsFor.None? || s.calls[i].phase.waitsFor.value in s.exited)
      then With(s, i, s.calls[i].(phase := Cleared)) else s
    case Hand(i) =>
      if !InPhase(s, i) || !s.calls[i].phase.Cleared? then s
      else if s.worker.Some? then With(s, i, Handed(s.calls[i], s.worker.value))
      else With(s, i, s.calls[i].(phase := Starting(s.started))).(worker := Some(s.started), started := s.started + 1)
    case Ready(i) =>
      if !InPhase(s, i) || !s.calls[i].phase.Starting? then s
      else if s.worker.None? then With(s, i, Ended(s.calls[i], Crashed))
      else With(s, i, Handed(s.calls[i], s.worker.value))
    case _ => s
  }

  /** What the worker does with a call it was handed, whether or not the caller still waits. */
  function OnAdmit(s: Slot, i: nat, k: nat): Slot {
    if i >= |s.calls| || k >= |s.calls[i].sides| || k >= |s.calls[i].handed| then s else
      var r := s.calls[i];
      if r.sides[k].Sent? && Alive(s, r.handed[k])
      then With(s, i, r.(sides := r.sides[k := if r.handed[k] in s.closed then Refused else Ran])) else s
  }

  function LastSide(r: Rpc): Side {
    if r.sides == [] then Sent else r.sides[|r.sides| - 1]
  }

  function OnCall(s: Slot, step: Step): Slot {
    match step
    case Reply(i, ok, result) =>
      if Pending(s, i) && !LastSide(s.calls[i]).Sent?
      then With(s, i, Moved(s.calls[i], Ends(ReplyOf(LastSide(s.calls[i]), ok, result)))) else s
    case Announce(i) => if Pending(s, i) && LastSide(s.calls[i]).Ran? then With(s, i, Moved(s.calls[i], Announces)) else s
    case HookDone(i, k, ok) => if Pending(s, i) then With(s, i, Moved(s.calls[i], HookEnds(k, ok))) else s
    case TimeOut(i) => if Pending(s, i) then With(s, i, Moved(s.calls[i], Expires)) else s
    case GiveUpHooks(i) => if Pending(s, i) then With(s, i, Moved(s.calls[i], WaitsTooLong)) else s
    case Settle(i) =>
      if Pending(s, i) && CanSettle(s.calls[i].phase.call) then AfterAttempt(s, i, s.calls[i].phase.call.answered.value) else s
    case _ => s
  }

  function Next(s: Slot, step: Step): Slot {
    match step
    case Arrive(_) => OnGate(s, step)
    case Clear(_) => OnGate(s, step)
    case Hand(_) => OnGate(s, step)
    case Ready(_) => OnGate(s, step)
    case Admit(i, k) => OnAdmit(s, i, k)
    case Close(_) => OnWorker(s, step)
    case Announced(_) => OnWorker(s, step)
    case Fails(_) => OnWorker(s, step)
    case Exit(_) => OnWorker(s, step)
    case Stop => OnWorker(s, step)
    case _ => OnCall(s, step)
  }

  function Run(steps: seq<Step>): Slot {
    if steps == [] then IDLE else Next(Run(steps[..|steps| - 1]), steps[|steps| - 1])
  }

  // ---- What every run keeps -------------------------------------------------

  predicate WorkersOk(s: Slot) {
    && (forall w :: w in s.exited ==> w < s.started)
    && (s.worker.Some? ==> Alive(s, s.worker.value))
    && (s.draining.Some? ==> Alive(s, s.draining.value))
    && (s.announced.Some? ==> Alive(s, s.announced.value))
    && (s.stopping.Some? ==> Alive(s, s.stopping.value))
  }

  /** The workers a call was handed to exist, at most two, and a submitting one is repeated only after a refusal. */
  predicate HandedOk(s: Slot, r: Rpc) {
    && |r.sides| == |r.handed| <= r.attempt + 1 && r.attempt <= 1
    && (forall k :: 0 <= k < |r.handed| ==> r.handed[k] < s.started)
    && (r.attempt == 1 ==> |r.handed| >= 1 && (r.submitting ==> r.sides[0].Refused?))
  }

  /** An unanswered call is on a worker that has not gone. A refusal comes from a worker that did not run the call. */
  predicate RunningOk(s: Slot, r: Rpc)
    requires r.phase.Running?
  {
    && |r.handed| == |r.sides| == r.attempt + 1 && Sound(r.phase.call) && r.phase.call.settled == []
    && (r.phase.call.answered.None? ==> Alive(s, r.handed[r.attempt]))
    && (r.phase.call.answered == Some(Rotating) ==> r.sides[r.attempt].Refused?)
  }

  predicate PhaseOk(s: Slot, r: Rpc) {
    match r.phase
    case AtGate(waitsFor) =>
      |r.handed| == r.attempt && r.results == [] && (waitsFor.Some? ==> waitsFor.value < s.started)
    case Cleared => |r.handed| == r.attempt && r.results == []
    case Starting(w) => |r.handed| == r.attempt && r.results == [] && Alive(s, w)
    case Running(c) => RunningOk(s, r) && r.results == []
    case Done(outcome) => r.results == [outcome]
  }

  predicate RpcOk(s: Slot, r: Rpc) {
    HandedOk(s, r) && PhaseOk(s, r)
  }

  predicate Inv(s: Slot) {
    WorkersOk(s) && forall i :: 0 <= i < |s.calls| ==> RpcOk(s, s.calls[i])
  }

  lemma SameWorkers(s: Slot, after: Slot, r: Rpc)
    requires RpcOk(s, r) && s.started <= after.started && after.exited == s.exited
    ensures RpcOk(after, r)
  {
  }

  lemma MovedOk(s: Slot, r: Rpc, e: Event)
    requires RpcOk(s, r)
    requires e.Ends? && e.outcome.Rotating? ==> r.phase.Running? && LastSide(r).Refused?
    requires !e.Settles?
    ensures RpcOk(s, Moved(r, e))
  {
    if r.phase.Running? {
      StepKeepsSound(r.phase.call, e);
    }
  }

  /** A call that a worker's end rejects is answered, so it needs no live worker any more. */
  lemma LostOk(s: Slot, after: Slot, r: Rpc, outcome: Outcome, w: nat)
    requires RpcOk(s, r) && s.started <= after.started && after.exited <= s.exited + {w} && !outcome.Rotating?
    ensures RpcOk(after, Unstarted(Moved(r, Ends(outcome)), w))
  {
    if r.phase.Running? {
      StepKeepsSound(r.phase.call, Ends(outcome));
    }
  }

  lemma WorkerStepKeepsInv(s: Slot, step: Step)
    requires Inv(s)
    ensures Inv(OnWorker(s, step))
  {
    var after := OnWorker(s, step);
    forall i | 0 <= i < |after.calls| ensures RpcOk(after, after.calls[i]) {
      assert RpcOk(s, s.calls[i]);
      match step {
        case Fails(w) => LostOk(s, after, s.calls[i], Crashed, w);
        case Exit(w) => LostOk(s, after, s.calls[i], ExitOutcome(s, w), w);
        case _ => SameWorkers(s, after, s.calls[i]);
      }
    }
  }

  /** A step that moves one call, and starts a worker at most. */
  lemma OneCallMoves(s: Slot, after: Slot, i: nat)
    requires Inv(s) && i < |s.calls| && |after.calls| == |s.calls|
    requires WorkersOk(after) && s.started <= after.started && after.exited == s.exited
    requires forall k :: 0 <= k < |s.calls| && k != i ==> after.calls[k] == s.calls[k]
    requires RpcOk(after, after.calls[i])
    ensures Inv(after)
  {
    forall k | 0 <= k < |after.calls| ensures RpcOk(after, after.calls[k]) {
      if k != i { SameWorkers(s, after, s.calls[k]); }
    }
  }

  lemma HandedToOk(s: Slot, r: Rpc, w: nat)
    requires RpcOk(s, r) && (r.phase.Cleared? || r.phase.Starting?) && Alive(s, w)
    ensures RpcOk(s, Handed(r, w))
  {
    var after := Handed(r, w);
    assert forall k :: 0 <= k < |r.handed| ==> after.handed[k] == r.handed[k];
    assert r.attempt == 1 ==> after.sides[0] == r.sides[0];
  }

  lemma ArriveKeepsInv(s: Slot, submitting: bool)
    requires Inv(s)
    ensures Inv(OnGate(s, Arrive(submitting)))
  {
    var after := OnGate(s, Arrive(submitting));
    forall k | 0 <= k < |after.calls| ensures RpcOk(after, after.calls[k]) {
      if k < |s.calls| { SameWorkers(s, after, s.calls[k]); }
    }
  }

  lemma HandKeepsInv(s: Slot, i: nat)
    requires Inv(s) && i < |s.calls| && s.calls[i].phase.Cleared?
    ensures Inv(OnGate(s, Hand(i)))
  {
    var r, after := s.calls[i], OnGate(s, Hand(i));
    assert RpcOk(s, r);
    if s.worker.Some? {
      HandedToOk(s, r, s.worker.value);
    } else {
      assert WorkersOk(after);
      assert RpcOk(after, after.calls[i]);
    }
    OneCallMoves(s, after, i);
  }

  lemma ReadyKeepsInv(s: Slot, i: nat)
    requires Inv(s) && i < |s.calls| && s.calls[i].phase.Starting?
    ensures Inv(OnGate(s, Ready(i)))
  {
    assert RpcOk(s, s.calls[i]);
    if s.worker.Some? { HandedToOk(s, s.calls[i], s.worker.value); }
    OneCallMoves(s, OnGate(s, Ready(i)), i);
  }

  lemma ClearKeepsInv(s: Slot, i: nat)
    requires Inv(s) && i < |s.calls| && s.calls[i].phase.AtGate?
    ensures Inv(OnGate(s, Clear(i)))
  {
    assert RpcOk(s, s.calls[i]);
    OneCallMoves(s, OnGate(s, Clear(i)), i);
  }

  lemma GateStepKeepsInv(s: Slot, step: Step)
    requires Inv(s)
    ensures Inv(OnGate(s, step))
  {
    if OnGate(s, step) != s {
      match step {
        case Arrive(submitting) => ArriveKeepsInv(s, submitting);
        case Clear(i) => ClearKeepsInv(s, i);
        case Hand(i) => HandKeepsInv(s, i);
        case Ready(i) => ReadyKeepsInv(s, i);
      }
    }
  }

  lemma AdmitKeepsInv(s: Slot, i: nat, k: nat)
    requires Inv(s)
    ensures Inv(OnAdmit(s, i, k))
  {
    if i < |s.calls| {
      assert RpcOk(s, s.calls[i]);
      OneCallMoves(s, OnAdmit(s, i, k), i);
    }
  }

  lemma AfterAttemptKeepsInv(s: Slot, i: nat)
    requires Inv(s) && Pending(s, i) && CanSettle(s.calls[i].phase.call)
    ensures Inv(AfterAttempt(s, i, s.calls[i].phase.call.answered.value))
  {
    assert RpcOk(s, s.calls[i]);
    OneCallMoves(s, AfterAttempt(s, i, s.calls[i].phase.call.answered.value), i);
  }

  function EventOf(s: Slot, step: Step): Event
    requires step.Reply? || step.Announce? || step.HookDone? || step.TimeOut? || step.GiveUpHooks?
    requires step.Reply? ==> step.i < |s.calls|
  {
    match step
    case Reply(i, ok, result) => Ends(ReplyOf(LastSide(s.calls[i]), ok, result))
    case Announce(_) => Announces
    case HookDone(_, k, ok) => HookEnds(k, ok)
    case TimeOut(_) => Expires
    case GiveUpHooks(_) => WaitsTooLong
  }

  lemma CallStepKeepsInv(s: Slot, step: Step)
    requires Inv(s)
    ensures Inv(OnCall(s, step))
  {
    if OnCall(s, step) != s {
      if step.Settle? {
        AfterAttemptKeepsInv(s, step.i);
      } else {
        assert RpcOk(s, s.calls[step.i]);
        MovedOk(s, s.calls[step.i], EventOf(s, step));
        OneCallMoves(s, OnCall(s, step), step.i);
      }
    }
  }

  lemma StepKeepsInv(s: Slot, step: Step)
    requires Inv(s)
    ensures Inv(Next(s, step))
  {
    WorkerStepKeepsInv(s, step);
    GateStepKeepsInv(s, step);
    CallStepKeepsInv(s, step);
    if step.Admit? { AdmitKeepsInv(s, step.i, step.k); }
  }

  // ---- The gate, and the second attempt -------------------------------------

  /** The call is past the gate once the worker it waited for has exited, and is handed to other workers alone. */
  predicate GateOk(s: Slot, r: Rpc) {
    && |r.gates| == r.attempt + 1 && |r.handed| <= |r.gates|
    && (if r.phase.AtGate? then r.phase.waitsFor == r.gates[r.attempt] else PastGate(s, r.gates[r.attempt]))
    && (forall k :: 0 <= k < |r.handed| ==> PastGate(s, r.gates[k]) && r.gates[k] != Some(r.handed[k]))
  }

  predicate PastGate(s: Slot, gate: Option<nat>) {
    gate.Some? ==> gate.value in s.exited
  }

  /** A call is repeated after a refusal, or after a planned exit if it submits nothing; the second time its end counts. */
  predicate RepeatOk(r: Rpc) {
    && (r.attempt == 0 <==> r.repeated.None?)
    && (r.attempt == 1 ==> Repeats(r.repeated.value, r.submitting))
    && (r.repeated == Some(Rotating) ==> r.sides != [] && r.sides[0].Refused?)
    && (r.phase.Done? && r.attempt == 0 ==> !Repeats(r.phase.outcome, r.submitting))
  }

  predicate Repeats(outcome: Outcome, submitting: bool) {
    outcome.Rotating? || (outcome.Rotated? && !submitting)
  }

  predicate GatesInv(s: Slot) {
    forall i :: 0 <= i < |s.calls| ==> GateOk(s, s.calls[i]) && RepeatOk(s.calls[i])
  }

  /** Nothing about the attempts of a call changed; it may have ended, if its end counts. */
  predicate SameAttempts(r: Rpc, now: Rpc) {
    && now.gates == r.gates && now.handed == r.handed && now.attempt == r.attempt && now.repeated == r.repeated
    && now.submitting == r.submitting && now.sides == r.sides
    && (now.phase == r.phase || (!r.phase.AtGate? && !now.phase.AtGate? &&
          (now.phase.Done? && r.attempt == 0 ==> !Repeats(now.phase.outcome, r.submitting))))
  }

  lemma SameKeepsGate(s: Slot, after: Slot, r: Rpc, now: Rpc)
    requires GateOk(s, r) && RepeatOk(r) && SameAttempts(r, now) && s.exited <= after.exited
    ensures GateOk(after, now) && RepeatOk(now)
  {
  }

  lemma WorkerStepKeepsAttempts(s: Slot, step: Step, i: nat)
    requires i < |s.calls|
    ensures |OnWorker(s, step).calls| == |s.calls| && SameAttempts(s.calls[i], OnWorker(s, step).calls[i])
    ensures s.exited <= OnWorker(s, step).exited
  {
  }

  lemma WorkerStepKeepsGates(s: Slot, step: Step)
    requires GatesInv(s)
    ensures GatesInv(OnWorker(s, step))
  {
    var after := OnWorker(s, step);
    forall i | 0 <= i < |after.calls| ensures GateOk(after, after.calls[i]) && RepeatOk(after.calls[i]) {
      WorkerStepKeepsAttempts(s, step, i);
      SameKeepsGate(s, after, s.calls[i], after.calls[i]);
    }
  }

  /** A step that moves one call. */
  lemma OneGateMoves(s: Slot, after: Slot, i: nat)
    requires GatesInv(s) && i < |s.calls| && |after.calls| == |s.calls| && after.exited == s.exited
    requires forall k :: 0 <= k < |s.calls| && k != i ==> after.calls[k] == s.calls[k]
    requires GateOk(after, after.calls[i]) && RepeatOk(after.calls[i])
    ensures GatesInv(after)
  {
    forall k | 0 <= k < |after.calls| ensures GateOk(after, after.calls[k]) && RepeatOk(after.calls[k]) {
      if k != i { assert GateOk(s, s.calls[k]) && RepeatOk(s.calls[k]); }
    }
  }

  lemma HandedGateOk(s: Slot, r: Rpc, w: nat)
    requires RpcOk(s, r) && GateOk(s, r) && RepeatOk(r) && (r.phase.Cleared? || r.phase.Starting?) && Alive(s, w)
    ensures GateOk(s, Handed(r, w)) && RepeatOk(Handed(r, w))
  {
    var after := Handed(r, w);
    assert forall k :: 0 <= k < |r.handed| ==> after.handed[k] == r.handed[k];
    assert r.sides != [] ==> after.sides[0] == r.sides[0];
  }

  lemma GateStepKeepsGates(s: Slot, step: Step)
    requires Inv(s) && GatesInv(s)
    ensures GatesInv(OnGate(s, step))
  {
    var after := OnGate(s, step);
    if step.Arrive? {
      forall k | 0 <= k < |after.calls| ensures GateOk(after, after.calls[k]) && RepeatOk(after.calls[k]) {
        if k < |s.calls| { assert GateOk(s, s.calls[k]) && RepeatOk(s.calls[k]); }
      }
    } else if after != s {
      var r := s.calls[step.i];
      assert RpcOk(s, r) && GateOk(s, r) && RepeatOk(r);
      if !step.Clear? && s.worker.Some? { HandedGateOk(s, r, s.worker.value); }
      OneGateMoves(s, after, step.i);
    }
  }

  /** An attempt ends: the call is over, or waits for what drains now. */
  lemma AttemptKeepsGate(s: Slot, i: nat, outcome: Outcome)
    requires Pending(s, i) && RpcOk(s, s.calls[i]) && s.calls[i].phase.call.answered == Some(outcome)
    requires GateOk(s, s.calls[i]) && RepeatOk(s.calls[i])
    ensures var after := AfterAttempt(s, i, outcome);
      && i < |after.calls| && GateOk(after, after.calls[i]) && RepeatOk(after.calls[i])
      && (|after.calls[i].gates| > |s.calls[i].gates| ==> ComesToGate(s, after, after.calls[i]))
  {
  }

  /** A call that comes to the gate waits for what drains then. After a refusal something does, if a worker is there. */
  predicate ComesToGate(s: Slot, after: Slot, r: Rpc) {
    && r.gates != [] && r.gates[|r.gates| - 1] == after.draining && r.phase == AtGate(after.draining)
    && (r.repeated == Some(Rotating) && s.worker.Some? ==> after.draining.Some?)
  }

  lemma CallStepKeepsAttempts(s: Slot, step: Step, i: nat)
    requires i < |s.calls| && !step.Settle?
    ensures |OnCall(s, step).calls| == |s.calls| && SameAttempts(s.calls[i], OnCall(s, step).calls[i])
  {
  }

  lemma SettleKeepsGates(s: Slot, i: nat)
    requires Inv(s) && GatesInv(s) && OnCall(s, Settle(i)) != s
    ensures GatesInv(OnCall(s, Settle(i)))
    ensures |OnCall(s, Settle(i)).calls[i].gates| > |s.calls[i].gates| ==>
      ComesToGate(s, OnCall(s, Settle(i)), OnCall(s, Settle(i)).calls[i])
  {
    var outcome := s.calls[i].phase.call.answered.value;
    assert RpcOk(s, s.calls[i]) && GateOk(s, s.calls[i]) && RepeatOk(s.calls[i]);
    AttemptKeepsGate(s, i, outcome);
    OneGateMoves(s, AfterAttempt(s, i, outcome), i);
  }

  lemma CallStepKeepsGates(s: Slot, step: Step)
    requires Inv(s) && GatesInv(s)
    ensures GatesInv(OnCall(s, step))
  {
    var after := OnCall(s, step);
    if after != s && step.Settle? {
      SettleKeepsGates(s, step.i);
    } else if after != s {
      CallStepKeepsAttempts(s, step, step.i);
      SameKeepsGate(s, after, s.calls[step.i], after.calls[step.i]);
      OneGateMoves(s, after, step.i);
    }
  }

  lemma AdmitKeepsGates(s: Slot, i: nat, k: nat)
    requires Inv(s) && GatesInv(s)
    ensures GatesInv(OnAdmit(s, i, k))
  {
    var after := OnAdmit(s, i, k);
    if after != s {
      assert RpcOk(s, s.calls[i]) && GateOk(s, s.calls[i]) && RepeatOk(s.calls[i]);
      OneGateMoves(s, after, i);
    }
  }

  lemma StepKeepsGates(s: Slot, step: Step)
    requires Inv(s) && GatesInv(s)
    ensures GatesInv(Next(s, step))
  {
    WorkerStepKeepsGates(s, step);
    GateStepKeepsGates(s, step);
    CallStepKeepsGates(s, step);
    if step.Admit? { AdmitKeepsGates(s, step.i, step.k); }
  }

  lemma GateStepKeepsGateCount(s: Slot, step: Step, i: nat)
    requires i < |s.calls|
    ensures i < |OnGate(s, step).calls| && OnGate(s, step).calls[i].gates == s.calls[i].gates
  {
  }

  lemma OnlySettleRepeats(s: Slot, step: Step, i: nat)
    requires i < |s.calls| && !step.Settle?
    ensures i < |Next(s, step).calls| && Next(s, step).calls[i].gates == s.calls[i].gates
  {
    WorkerStepKeepsAttempts(s, step, i);
    CallStepKeepsAttempts(s, step, i);
    GateStepKeepsGateCount(s, step, i);
  }

  // ---- Over whole runs ------------------------------------------------------

  function TimesRun(r: Rpc): nat {
    multiset(r.sides)[Ran]
  }

  lemma {:induction false} RunKeepsInv(steps: seq<Step>)
    ensures Inv(Run(steps))
  {
    if steps != [] {
      RunKeepsInv(steps[..|steps| - 1]);
      StepKeepsInv(Run(steps[..|steps| - 1]), steps[|steps| - 1]);
    }
  }

  lemma {:induction false} RunKeepsGates(steps: seq<Step>)
    ensures GatesInv(Run(steps))
  {
    if steps != [] {
      RunKeepsInv(steps[..|steps| - 1]);
      RunKeepsGates(steps[..|steps| - 1]);
      StepKeepsGates(Run(steps[..|steps| - 1]), steps[|steps| - 1]);
    }
  }

  /** In every run, a step that brings a call to the gate makes it wait for what drains then. */
  lemma GateIsDraining(steps: seq<Step>, step: Step, i: nat)
    requires i < |Run(steps + [step]).calls|
    requires i >= |Run(steps).calls| || |Run(steps + [step]).calls[i].gates| > |Run(steps).calls[i].gates|
    ensures ComesToGate(Run(steps), Run(steps + [step]), Run(steps + [step]).calls[i])
  {
    assert (steps + [step])[..|steps|] == steps;
    RunKeepsInv(steps);
    RunKeepsGates(steps);
    if i >= |Run(steps).calls| {
      NewCall(Run(steps), step, i);
    } else {
      RepeatedCall(Run(steps), step, i);
    }
  }

  lemma NewCall(s: Slot, step: Step, i: nat)
    requires |s.calls| <= i < |Next(s, step).calls|
    ensures ComesToGate(s, Next(s, step), Next(s, step).calls[i])
  {
  }

  lemma RepeatedCall(s: Slot, step: Step, i: nat)
    requires Inv(s) && GatesInv(s) && i < |s.calls| && i < |Next(s, step).calls|
    requires |Next(s, step).calls[i].gates| > |s.calls[i].gates|
    ensures ComesToGate(s, Next(s, step), Next(s, step).calls[i])
  {
    if !step.Settle? { OnlySettleRepeats(s, step, i); }
    OthersStand(s, step.i, i);
    SettleKeepsGates(s, i);
  }

  lemma OthersStand(s: Slot, i: nat, k: nat)
    requires k < |s.calls|
    ensures k < |OnCall(s, Settle(i)).calls| && (k != i ==> OnCall(s, Settle(i)).calls[k] == s.calls[k])
  {
  }

  /**
   * However everything interleaves: a call is handed to no worker that was draining when it came to the gate, and only
   * after that worker has exited. It is tried a second time exactly when its first attempt ended in a refusal by a
   * rotating worker, which ran none of it, or, unless it submits, in a planned exit.
   */
  lemma WaitsForDraining(steps: seq<Step>, i: nat)
    requires i < |Run(steps).calls|
    ensures var r := Run(steps).calls[i];
      && |r.handed| <= |r.gates| == r.attempt + 1
      && (forall k :: 0 <= k < |r.handed| && r.gates[k].Some? ==>
            r.gates[k].value in Run(steps).exited && r.handed[k] != r.gates[k].value)
      && (if r.attempt == 0 then r.repeated.None? else r.repeated == Some(Rotating) || (r.repeated == Some(Rotated) && !r.submitting))
      && (r.repeated == Some(Rotating) ==> r.sides != [] && r.sides[0].Refused?)
      && (r.phase.Done? && r.attempt == 0 ==> r.phase.outcome != Rotating && (r.phase.outcome == Rotated ==> r.submitting))
  {
    RunKeepsInv(steps);
    RunKeepsGates(steps);
    var r := Run(steps).calls[i];
    assert RpcOk(Run(steps), r) && GateOk(Run(steps), r) && RepeatOk(r);
  }

  /**
   * However calls, replies, timeouts, rotations, crashes and restarts interleave: the caller of a call gets one outcome
   * at most, a call is handed to two workers at most, and a submitting one is handed to a second only after the first
   * refused it. So one worker at most runs it, also if its caller has long given up.
   */
  lemma SubmittedOnce(steps: seq<Step>, i: nat)
    requires i < |Run(steps).calls|
    ensures var r := Run(steps).calls[i];
      && |r.results| <= 1 && (r.results != [] <==> r.phase.Done?)
      && |r.handed| == |r.sides| <= 2
      && (r.submitting && |r.handed| == 2 ==> r.sides[0].Refused?)
      && (r.submitting ==> TimesRun(r) <= 1)
  {
    RunKeepsInv(steps);
    var r := Run(steps).calls[i];
    assert RpcOk(Run(steps), r);
    if r.submitting { RunOnce(r); }
  }

  lemma RunOnce(r: Rpc)
    requires |r.sides| <= 2 && (|r.sides| == 2 ==> r.sides[0].Refused?)
    ensures TimesRun(r) <= 1
  {
    if |r.sides| == 0 {
      assert r.sides == [];
    } else if |r.sides| == 1 {
      assert r.sides == [r.sides[0]];
    } else {
      assert r.sides == [r.sides[0], r.sides[1]];
    }
  }

  /** A call no one answered yet is on a live worker, and what it announced is acknowledged as it should be. */
  lemma NoCallIsLost(steps: seq<Step>, i: nat)
    requires Pending(Run(steps), i)
    ensures var r := Run(steps).calls[i];
      && r.handed != [] && Sound(r.phase.call)
      && (r.phase.call.answered.None? ==> Alive(Run(steps), r.handed[|r.handed| - 1]))
  {
    RunKeepsInv(steps);
    assert RpcOk(Run(steps), Run(steps).calls[i]);
  }

  // ---- Every call ends ------------------------------------------------------

  /** How far a call is from its end. */
  function Rank(s: Slot, r: Rpc): nat {
    var again := if r.attempt == 0 then 7 else 0;
    match r.phase
    case AtGate(waitsFor) => again + if waitsFor.Some? && waitsFor.value !in s.exited then 7 else 6
    case Cleared => again + 5
    case Starting(_) => again + 4
    case Running(c) => again + if c.answered.None? then 3 else if c.waitedTooLong then 1 else 2
    case Done(_) => 0
  }

  /** The step that brings a call closer to its end. */
  function Onward(s: Slot, i: nat): Step
    requires i < |s.calls|
  {
    match s.calls[i].phase
    case AtGate(waitsFor) => if waitsFor.Some? && waitsFor.value !in s.exited then Exit(waitsFor.value) else Clear(i)
    case Cleared => Hand(i)
    case Starting(_) => Ready(i)
    case Running(c) => if c.answered.None? then TimeOut(i) else if c.waitedTooLong then Settle(i) else GiveUpHooks(i)
    case Done(_) => Stop
  }

  /** A call in a later state is not further from its end, and an outcome its caller got is not taken back. */
  predicate NoFurther(s: Slot, after: Slot, r: Rpc, now: Rpc) {
    Rank(after, now) <= Rank(s, r) && (r.phase.Done? ==> now.phase == r.phase && now.results == r.results)
  }

  lemma MovedNoFurther(s: Slot, after: Slot, r: Rpc, e: Event)
    requires RpcOk(s, r) && s.exited <= after.exited
    ensures NoFurther(s, after, r, r) && NoFurther(s, after, r, Moved(r, e))
  {
    if r.phase.Running? {
      StepKeepsSound(r.phase.call, e);
    }
  }

  lemma WorkerStepNoFurther(s: Slot, step: Step, i: nat)
    requires i < |s.calls| && RpcOk(s, s.calls[i])
    ensures i < |OnWorker(s, step).calls| && NoFurther(s, OnWorker(s, step), s.calls[i], OnWorker(s, step).calls[i])
  {
    MovedNoFurther(s, OnWorker(s, step), s.calls[i], Ends(Crashed));
    if step.Exit? { MovedNoFurther(s, OnWorker(s, step), s.calls[i], Ends(ExitOutcome(s, step.w))); }
  }

  lemma GateStepNoFurther(s: Slot, step: Step, i: nat)
    requires i < |s.calls| && RpcOk(s, s.calls[i])
    ensures i < |OnGate(s, step).calls| && NoFurther(s, OnGate(s, step), s.calls[i], OnGate(s, step).calls[i])
  {
    var after := OnGate(s, step);
    MovedNoFurther(s, after, s.calls[i], Settles);
    if i < |after.calls| && after.calls[i] != s.calls[i] {
      match step {
        case Clear(_) =>
        case Hand(_) =>
        case Ready(_) =>
      }
    }
  }

  lemma CallStepNoFurther(s: Slot, step: Step, i: nat)
    requires i < |s.calls| && RpcOk(s, s.calls[i])
    ensures i < |OnCall(s, step).calls| && NoFurther(s, OnCall(s, step), s.calls[i], OnCall(s, step).calls[i])
  {
    var after := OnCall(s, step);
    MovedNoFurther(s, after, s.calls[i], Settles);
    if after.calls[i] != s.calls[i] && !step.Settle? {
      MovedNoFurther(s, after, s.calls[i], EventOf(s, step));
    }
  }

  /** No step of anyone takes a call further from its end, or takes back an outcome the caller got. */
  lemma NeverFurther(steps: seq<Step>, step: Step, i: nat)
    requires i < |Run(steps).calls|
    ensures i < |Run(steps + [step]).calls|
    ensures NoFurther(Run(steps), Run(steps + [step]), Run(steps).calls[i], Run(steps + [step]).calls[i])
  {
    var s := Run(steps);
    RunKeepsInv(steps);
    assert RpcOk(s, s.calls[i]);
    assert (steps + [step])[..|steps|] == steps;
    WorkerStepNoFurther(s, step, i);
    GateStepNoFurther(s, step, i);
    CallStepNoFurther(s, step, i);
  }

  /** A call that has not ended is never stuck: there is a step that brings it closer. */
  lemma NeverStuck(steps: seq<Step>, i: nat)
    requires i < |Run(steps).calls| && !Run(steps).calls[i].phase.Done?
    ensures var s := Run(steps);
      var after := Next(s, Onward(s, i));
      |after.calls| == |s.calls| && Rank(after, after.calls[i]) < Rank(s, s.calls[i])
  {
    RunKeepsInv(steps);
    OnwardIsCloser(Run(steps), i);
  }

  lemma OnwardIsCloser(s: Slot, i: nat)
    requires i < |s.calls| && RpcOk(s, s.calls[i]) && !s.calls[i].phase.Done?
    ensures var after := Next(s, Onward(s, i));
      |after.calls| == |s.calls| && Rank(after, after.calls[i]) < Rank(s, s.calls[i])
  {
    match s.calls[i].phase {
      case AtGate(waitsFor) =>
      case Cleared =>
      case Starting(_) =>
      case Running(c) => assert c.answered.Some? && c.waitedTooLong ==> CanSettle(c);
    }
  }

  // ---- Whose calls a worker's end takes along -------------------------------

  /** The workers that stops took off the slot. */
  function TakenOff(steps: seq<Step>): set<nat> {
    if steps == [] then {} else
      var init, last := steps[..|steps| - 1], steps[|steps| - 1];
      TakenOff(init) + if last.Stop? && Run(init).worker.Some? then {Run(init).worker.value} else {}
  }

  /** The workers that were stopped and have not exited yet. */
  function Lingering(steps: seq<Step>): set<nat> {
    TakenOff(steps) - Run(steps).exited
  }

  /** Besides the current worker, the ones that are alive are those a stop took off the slot. */
  ghost predicate AliveAre(s: Slot, off: set<nat>) {
    && (forall w: nat :: Alive(s, w) <==> s.worker == Some(w) || (w in off && w !in s.exited))
    && (forall w :: w in off ==> w < s.started && s.worker != Some(w))
  }

  lemma StepKeepsAlive(s: Slot, step: Step, off: set<nat>)
    requires Inv(s) && AliveAre(s, off)
    ensures AliveAre(Next(s, step), off + if step.Stop? && s.worker.Some? then {s.worker.value} else {})
  {
    if step.Hand? || step.Exit? || step.Stop? {
      WorkersChange(s, step, off);
    } else {
      WorkersStay(s, step);
      SameAlive(s, Next(s, step), off);
    }
  }

  lemma WorkersStay(s: Slot, step: Step)
    requires !step.Hand? && !step.Exit? && !step.Stop?
    ensures Next(s, step).worker == s.worker && Next(s, step).started == s.started && Next(s, step).exited == s.exited
  {
  }

  lemma SameAlive(s: Slot, after: Slot, off: set<nat>)
    requires AliveAre(s, off) && after.worker == s.worker && after.started == s.started && after.exited == s.exited
    ensures AliveAre(after, off)
  {
    forall w: nat ensures Alive(after, w) <==> after.worker == Some(w) || (w in off && w !in after.exited) {
      assert Alive(s, w) <==> s.worker == Some(w) || (w in off && w !in s.exited);
    }
  }

  lemma WorkersChange(s: Slot, step: Step, off: set<nat>)
    requires Inv(s) && AliveAre(s, off) && (step.Hand? || step.Exit? || step.Stop?)
    ensures AliveAre(Next(s, step), off + if step.Stop? && s.worker.Some? then {s.worker.value} else {})
  {
    var after, offAfter := Next(s, step), off + if step.Stop? && s.worker.Some? then {s.worker.value} else {};
    forall w: nat ensures Alive(after, w) <==> after.worker == Some(w) || (w in offAfter && w !in after.exited) {
      assert Alive(s, w) <==> s.worker == Some(w) || (w in off && w !in s.exited);
    }
  }

  lemma {:induction false} OthersWereStopped(steps: seq<Step>)
    ensures AliveAre(Run(steps), TakenOff(steps))
  {
    if steps != [] {
      OthersWereStopped(steps[..|steps| - 1]);
      RunKeepsInv(steps[..|steps| - 1]);
      StepKeepsAlive(Run(steps[..|steps| - 1]), steps[|steps| - 1], TakenOff(steps[..|steps| - 1]));
    }
  }

  /** The worker that announced its rotation last. */
  function LastAnnounced(steps: seq<Step>): Option<nat> {
    if steps == [] then None else
      var init, last := steps[..|steps| - 1], steps[|steps| - 1];
      if last.Announced? && Alive(Run(init), last.w) && last.w in Run(init).closed then Some(last.w) else LastAnnounced(init)
  }

  /** The worker that a stop took off the slot last. */
  function LastStopped(steps: seq<Step>): Option<nat> {
    if steps == [] then None else
      var init, last := steps[..|steps| - 1], steps[|steps| - 1];
      if last.Stop? && Run(init).worker.Some? then Run(init).worker else LastStopped(init)
  }

  /** What the slot remembers of a worker, it remembers until that worker exits. */
  predicate Remembers(s: Slot, kept: Option<nat>, last: Option<nat>) {
    if last.Some? && last.value !in s.exited then kept == last else kept.None?
  }

  lemma {:induction false} RemembersLast(steps: seq<Step>)
    ensures var s := Run(steps);
      Remembers(s, s.announced, LastAnnounced(steps)) && Remembers(s, s.stopping, LastStopped(steps))
  {
    if steps != [] {
      var init, last := steps[..|steps| - 1], steps[|steps| - 1];
      RemembersLast(init);
      RunKeepsInv(init);
      if !last.Announced? && !last.Stop? && !last.Exit? { RemembersOn(Run(init), last); }
    }
  }

  lemma RemembersOn(s: Slot, step: Step)
    requires !step.Announced? && !step.Stop? && !step.Exit?
    ensures var after := Next(s, step);
      after.announced == s.announced && after.stopping == s.stopping && after.exited == s.exited
  {
  }

  /**
   * In every run: when a worker exits, the exit is a planned one for the calls it takes along if and only if that worker
   * was the last to announce a rotation and not the last to be stopped. Otherwise, and on an error, they crashed.
   */
  lemma ExitIsPlanned(steps: seq<Step>, w: nat, i: nat)
    requires Unanswered(Run(steps), i) && Alive(Run(steps), w)
    ensures var exited, failed := Next(Run(steps), Exit(w)), Next(Run(steps), Fails(w));
      && Pending(exited, i) && Pending(failed, i)
      && exited.calls[i].phase.call.answered ==
           Some(if LastAnnounced(steps) == Some(w) && LastStopped(steps) != Some(w) then Rotated else Crashed)
      && failed.calls[i].phase.call.answered == Some(Crashed)
  {
    var s := Run(steps);
    RemembersLast(steps);
    assert Next(s, Fails(w)).calls[i] == Moved(s.calls[i], Ends(Crashed));
    assert Next(s, Exit(w)).calls[i] == Moved(s.calls[i], Ends(ExitOutcome(s, w)));
  }

  predicate Unanswered(s: Slot, i: nat) {
    Pending(s, i) && s.calls[i].phase.call.answered.None?
  }

  /** The worker the call was handed to last. */
  function LastWorker(r: Rpc): Option<nat> {
    if r.handed == [] then None else Some(r.handed[|r.handed| - 1])
  }

  /** The exit, or the error, of the worker ends the call for its caller. */
  predicate TakesAlong(s: Slot, w: nat, i: nat)
    requires Unanswered(s, i)
  {
    !Unanswered(Next(s, Exit(w)), i) && !Unanswered(Next(s, Fails(w)), i)
  }

  lemma AliveTakesAlong(s: Slot, w: nat, i: nat)
    requires Unanswered(s, i)
    ensures TakesAlong(s, w, i) <==> Alive(s, w)
  {
    if Alive(s, w) {
      assert Next(s, Fails(w)).calls[i] == Moved(s.calls[i], Ends(Crashed));
      assert Next(s, Exit(w)).calls[i] == Moved(s.calls[i], Ends(ExitOutcome(s, w)));
    }
  }

  /** The end of another worker than the call's own takes the call along. */
  ghost predicate ForeignEnd(s: Slot, own: Option<nat>, i: nat)
    requires Unanswered(s, i)
  {
    exists w: nat :: own != Some(w) && TakesAlong(s, w, i)
  }

  /** A stopped worker has not exited, and it is another one than `own` or was replaced. */
  ghost predicate StoppedLingers(s: Slot, lingering: set<nat>, own: Option<nat>) {
    exists w :: w in lingering && (own != Some(w) || s.worker.Some?)
  }

  /**
   * In every run: the end of a worker the call was not handed to last can take the call along, if and only if a stopped
   * worker has not exited yet, other than the call's own, or with a newer worker in its place.
   */
  lemma OnlyOwnCallsEnd(steps: seq<Step>, i: nat)
    requires Unanswered(Run(steps), i)
    ensures var s, own := Run(steps), LastWorker(Run(steps).calls[i]);
      && own.Some? && Alive(s, own.value)
      && (ForeignEnd(s, own, i) <==> StoppedLingers(s, Lingering(steps), own))
  {
    RunKeepsInv(steps);
    OthersWereStopped(steps);
    OwnAlive(Run(steps), i);
    ForeignIsLingering(Run(steps), TakenOff(steps), i);
  }

  lemma OwnAlive(s: Slot, i: nat)
    requires Inv(s) && Unanswered(s, i)
    ensures LastWorker(s.calls[i]).Some? && Alive(s, LastWorker(s.calls[i]).value)
  {
    assert RpcOk(s, s.calls[i]);
  }

  lemma ForeignIsLingering(s: Slot, off: set<nat>, i: nat)
    requires Unanswered(s, i) && AliveAre(s, off)
    requires LastWorker(s.calls[i]).Some? && Alive(s, LastWorker(s.calls[i]).value)
    ensures ForeignEnd(s, LastWorker(s.calls[i]), i) <==> StoppedLingers(s, off - s.exited, LastWorker(s.calls[i]))
  {
    var own, lingering := LastWorker(s.calls[i]).value, off - s.exited;
    if ForeignEnd(s, Some(own), i) {
      var w: nat :| Some(own) != Some(w) && TakesAlong(s, w, i);
      AliveTakesAlong(s, w, i);
      if w !in lingering { assert own in lingering && s.worker.Some?; }
    }
    if w :| w in lingering && (Some(own) != Some(w) || s.worker.Some?) {
      var other := if own != w then w else s.worker.value;
      assert Alive(s, other);
      AliveTakesAlong(s, other, i);
    }
  }

  /** A new worker is started beside a stopped one that is still there, if and only if one of those stopped lingers. */
  lemma StartedBeside(steps: seq<Step>)
    requires Run(steps).worker.None?
    ensures (exists w: nat :: Alive(Run(steps), w)) <==> Lingering(steps) != {}
  {
    OthersWereStopped(steps);
    if w: nat :| Alive(Run(steps), w) { assert w in Lingering(steps); }
    if w :| w in Lingering(steps) { assert Alive(Run(steps), w); }
  }

  function RunOn(s: Slot, steps: seq<Step>): Slot
    decreases |steps|
  {
    if steps == [] then s else RunOn(Next(s, steps[0]), steps[1..])
  }

  lemma {:induction false} RunContinues(first: seq<Step>, more: seq<Step>)
    ensures Run(first + more) == RunOn(Run(first), more)
    decreases |more|
  {
    if more == [] {
      assert first + more == first;
    } else {
      assert (first + [more[0]])[..|first|] == first;
      assert first + more == first + [more[0]] + more[1..];
      RunContinues(first + [more[0]], more[1..]);
    }
  }

  lemma RunThree(s: Slot, a: Step, b: Step, c: Step)
    ensures RunOn(s, [a, b, c]) == Next(Next(Next(s, a), b), c)
  {
    var first, second := Next(s, a), Next(Next(s, a), b);
    assert [a, b, c][1..] == [b, c] && [b, c][1..] == [c] && [c][1..] == [];
    assert RunOn(second, [c]) == Next(second, c);
    assert RunOn(first, [b, c]) == RunOn(second, [c]);
  }

  lemma FirstHanding(r: Rpc, w: nat)
    requires r.handed == [] && r.sides == []
    ensures Handed(r, w) == r.(phase := Running(SENT), handed := [w], sides := [Sent])
  {
  }

  function Read(phase: Phase): Rpc {
    Rpc(false, 0, phase, [], [], [], [None], None)
  }

  function Submit(phase: Phase): Rpc {
    Rpc(true, 0, phase, [], [], [], [None], None)
  }

  const READING := Rpc(false, 0, Running(SENT), [0], [Sent], [], [None], None)
  const SUBMITTING := Rpc(true, 0, Running(SENT), [1], [Ran], [], [None], None)

  /** A read on worker 0, a stop, a submit on worker 1, and then the exit of worker 0. */
  const FIRST: seq<Step> := [Arrive(false), Clear(0), Hand(0)]
  const SECOND: seq<Step> := [Ready(0), Stop, Arrive(true)]
  const THIRD: seq<Step> := [Clear(1), Hand(1), Ready(1)]
  const LAST: seq<Step> := [Admit(1, 0), Exit(0), Settle(1)]

  lemma ReadStarts()
    ensures Run(FIRST) == IDLE.(worker := Some(0), started := 1, calls := [Read(Starting(0))])
  {
    RunContinues([], FIRST);
    assert [] + FIRST == FIRST;
    RunThree(IDLE, Arrive(false), Clear(0), Hand(0));
    assert Next(IDLE, Arrive(false)).calls == [Read(AtGate(None))];
  }

  lemma SubmitArrives(s: Slot)
    requires s == IDLE.(worker := Some(0), started := 1, calls := [Read(Starting(0))])
    ensures RunOn(s, SECOND) == IDLE.(stopping := Some(0), started := 1, calls := [READING, Submit(AtGate(None))])
  {
    RunThree(s, Ready(0), Stop, Arrive(true));
    FirstHanding(Read(Starting(0)), 0);
    assert Next(s, Ready(0)).calls == [READING];
  }

  lemma SubmitHanded(s: Slot)
    requires s == IDLE.(stopping := Some(0), started := 1, calls := [READING, Submit(AtGate(None))])
    ensures RunOn(s, THIRD) ==
      IDLE.(worker := Some(1), stopping := Some(0), started := 2, calls := [READING, SUBMITTING.(sides := [Sent])])
  {
    RunThree(s, Clear(1), Hand(1), Ready(1));
    var cleared := Next(s, Clear(1));
    assert cleared.calls == [READING, Submit(Cleared)];
    var starting := Next(cleared, Hand(1));
    assert starting.calls == [READING, Submit(Starting(1))];
    FirstHanding(Submit(Starting(1)), 1);
    assert Next(starting, Ready(1)).calls == [READING, SUBMITTING.(sides := [Sent])];
  }

  lemma SubmitEnded(s: Slot)
    requires s.started == 2 && s.exited == {} && s.closed == {} && s.stopping == Some(0)
    requires s.calls == [READING, SUBMITTING.(sides := [Sent])]
    ensures var after := RunOn(s, LAST);
      Alive(after, 1) && |after.calls| == 2 && after.calls[1] == SUBMITTING.(phase := Done(Crashed), results := [Crashed])
  {
    RunThree(s, Admit(1, 0), Exit(0), Settle(1));
    var admitted := Next(s, Admit(1, 0));
    assert [Sent][0 := Ran] == [Ran];
    assert admitted.calls[1] == SUBMITTING;
    var gone := Next(admitted, Exit(0));
    assert gone.calls[1] == Moved(SUBMITTING, Ends(Crashed));
    assert CanSettle(gone.calls[1].phase.call);
  }

  /**
   * After a stop, the old worker's exit comes when a new worker runs a call already, and ends that call for its caller
   * although its worker is alive and would answer. A submitting call is not repeated even then.
   */
  lemma LateExitEndsNewCall()
    ensures var s := Run(FIRST + SECOND + THIRD + LAST);
      Alive(s, 1) && |s.calls| == 2 && s.calls[1] == SUBMITTING.(phase := Done(Crashed), results := [Crashed])
  {
    ReadStarts();
    RunContinues(FIRST, SECOND);
    SubmitArrives(Run(FIRST));
    RunContinues(FIRST + SECOND, THIRD);
    SubmitHanded(Run(FIRST + SECOND));
    RunContinues(FIRST + SECOND + THIRD, LAST);
    SubmitEnded(Run(FIRST + SECOND + THIRD));
  }

  // ---- The handlers ---------------------------------------------------------

  class WorkerSlot {
    var worker: Option<nat>
    var draining: Option<nat>
    var announced: Option<nat>
    var stopping: Option<nat>
    var started: nat
    var exited: set<nat>
    var closed: set<nat>
    var calls: seq<Rpc>

    constructor ()
      ensures State() == IDLE
    {
      worker, draining, announced, stopping := None, None, None, None;
      started, exited, closed, calls := 0, {}, {}, [];
    }

    function State(): Slot
      reads this
    {
      Slot(worker, draining, announced, stopping, started, exited, closed, calls)
    }

    /** Every pending call of the slot gets the error, unless something ended it before. */
    method RejectPendingRpcs(outcome: Outcome)
      modifies this`calls
      ensures calls == Rejected(old(calls), outcome)
    {
      ghost var before := calls;
      for i := 0 to |calls|
        invariant |calls| == |before|
        invariant forall k :: 0 <= k < i ==> calls[k] == Moved(before[k], Ends(outcome))
        invariant forall k :: i <= k < |before| ==> calls[k] == before[k]
      {
        var r := calls[i];
        if r.phase.Running? {
          calls := calls[i := r.(phase := Running(Finish(r.phase.call, outcome)))];
        }
      }
    }

    /** The call that started the worker and waits for it to be ready. */
    method RejectReady(w: nat)
      modifies this`calls
      ensures calls == StartFailed(old(calls), w)
    {
      ghost var before := calls;
      for i := 0 to |calls|
        invariant |calls| == |before|
        invariant forall k :: 0 <= k < i ==> calls[k] == Unstarted(before[k], w)
        invariant forall k :: i <= k < |before| ==> calls[k] == before[k]
      {
        if calls[i].phase == Starting(w) {
          calls := calls[i := Ended(calls[i], Crashed)];
        }
      }
    }

    method RejectAll(w: nat, outcome: Outcome)
      modifies this`calls
      ensures calls == StartFailed(Rejected(old(calls), outcome), w)
    {
      RejectPendingRpcs(outcome);
      RejectReady(w);
    }

    /** The late exit of an old worker must not clear a newer one. */
    method ClearWorker(w: nat) returns (outcome: Outcome)
      modifies this`worker, this`draining, this`announced, this`stopping, this`exited
      ensures outcome == ExitOutcome(old(State()), w)
      ensures worker == Without(old(worker), w) && draining == Without(old(draining), w)
      ensures announced == Without(old(announced), w) && stopping == Without(old(stopping), w) && exited == old(exited) + {w}
    {
      if worker == Some(w) {
        worker := None;
      }
      if draining == Some(w) {
        draining := None;
      }
      var stopped := stopping == Some(w);
      var rotated := !stopped && announced == Some(w);
      if announced == Some(w) {
        announced := None;
      }
      if stopped {
        stopping := None;
      }
      exited := exited + {w};
      outcome := if rotated then Rotated else Crashed;
    }

    method OnExit(w: nat)
      requires Alive(State(), w)
      modifies this
      ensures State() == OnWorker(old(State()), Exit(w))
    {
      var outcome := ClearWorker(w);
      RejectAll(w, outcome);
    }

    method OnError(w: nat)
      requires Alive(State(), w)
      modifies this`calls
      ensures State() == OnWorker(old(State()), Fails(w))
    {
      RejectAll(w, Crashed);
    }

    /** The end of one attempt of a call: repeated once after a refusal, or after a rotation unless it submits. */
    method EndAttempt(i: nat) returns (repeats: bool)
      requires Pending(State(), i) && CanSettle(calls[i].phase.call)
      modifies this`calls, this`draining
      ensures State() == OnCall(old(State()), Settle(i))
      ensures repeats <==> calls[i].phase.AtGate?
    {
      var r := calls[i];
      var outcome := r.phase.call.answered.value;
      if r.attempt == 0 && outcome.Rotating? {
        if draining.None? && worker.Some? {
          draining := worker;
        }
        calls := calls[i := Again(r, outcome, draining)];
        return true;
      }
      if r.attempt == 0 && outcome.Rotated? && !r.submitting {
        calls := calls[i := Again(r, outcome, draining)];
        return true;
      }
      calls := calls[i := Ended(r, outcome)];
      repeats := false;
    }
  }
}
