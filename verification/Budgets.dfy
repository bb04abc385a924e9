/**
 * The job budget of a grant: a counter per time window, moved by conditional updates only. Requests read the row,
 * try to reset it for a new window, then try to increment it; refunds decrement it. All of these interleave.
 */
module Budgets {
  import opened Wrappers

  /** Windows are numbered in time. */
  datatype Row = Row(window: Option<nat>, used: nat)

  /**
   * `seen` is the window in the row as it was read, and `read` how many resets had been won by then; `window` is the
   * current one when the take began.
   */
  datatype Request =
    | Waiting(seen: Option<nat>, read: nat)
    | Resetting(seen: Option<nat>, read: nat, window: nat)
    | Incrementing(read: nat, window: nat)
    | Taken(window: nat)
    | Refused(window: nat)

  /** `takes` and `refunds` count, per window, those that changed the row; `won` lists the windows it was reset to. */
  datatype World = World(
    row: Row, clock: nat, requests: seq<Request>, takes: map<nat, nat>, refunds: map<nat, nat>, won: seq<nat>)

  datatype Step =
    | Tick(to: nat)
    | Arrive
    | Begin(i: nat)
    | TryReset(i: nat)
    | TryIncrement(i: nat)
    | Refund(window: nat)

  function Count(m: map<nat, nat>, window: nat): nat {
    if window in m then m[window] else 0
  }

  function Plus(m: map<nat, nat>, window: nat): map<nat, nat> {
    m[window := Count(m, window) + 1]
  }

  lemma PlusCounts(m: map<nat, nat>, window: nat)
    ensures forall v: nat :: Count(Plus(m, window), v) == Count(m, v) + if v == window then 1 else 0
  {
  }

  /** The units of a window taken and not given back. */
  function Used(w: World, window: nat): int {
    Count(w.takes, window) - Count(w.refunds, window)
  }

  predicate At(w: World, i: nat) {
    i < |w.requests|
  }

  function Next(w: World, max: nat, step: Step): World {
    match step
    case Tick(to) => if to >= w.clock then w.(clock := to) else w
    case Arrive => w.(requests := w.requests + [Waiting(w.row.window, |w.won|)])
    case Begin(i) =>
      if !At(w, i) || !w.requests[i].Waiting? then w else
        var r := w.requests[i];
        w.(requests := w.requests[i :=
          if r.seen == Some(w.clock) then Incrementing(r.read, w.clock) else Resetting(r.seen, r.read, w.clock)])
    case TryReset(i) =>
      if !At(w, i) || !w.requests[i].Resetting? then w else
        var r := w.requests[i];
        if w.row.window != r.seen then w.(requests := w.requests[i := Incrementing(r.read, r.window)])
        else w.(row := Row(Some(r.window), 1), requests := w.requests[i := Taken(r.window)],
                takes := Plus(w.takes, r.window), won := w.won + [r.window])
    case TryIncrement(i) =>
      if !At(w, i) || !w.requests[i].Incrementing? then w else
        var window := w.requests[i].window;
        if w.row.window == Some(window) && w.row.used < max
        then w.(row := w.row.(used := w.row.used + 1), requests := w.requests[i := Taken(window)], takes := Plus(w.takes, window))
        else w.(requests := w.requests[i := Refused(window)])
    case Refund(window) =>
      if window <= w.clock && w.row.window == Some(window) && w.row.used > 0
      then w.(row := w.row.(used := w.row.used - 1), refunds := Plus(w.refunds, window))
      else w
  }

  const FRESH := World(Row(None, 0), 0, [], map[], map[], [])

  function Run(max: nat, steps: seq<Step>): World {
    if steps == [] then FRESH else Next(Run(max, steps[..|steps| - 1]), max, steps[|steps| - 1])
  }

  // ---- What every run keeps -------------------------------------------------

  predicate Before(seen: Option<nat>, window: nat) {
    seen.Some? ==> seen.value < window
  }

  function LastWon(won: seq<nat>): Option<nat> {
    if won == [] then None else Some(won[|won| - 1])
  }

  /** Resets go to ever later windows, so one request at most wins each. The row counts the last one. */
  predicate WonOk(w: World) {
    && (forall i, j :: 0 <= i < j < |w.won| ==> w.won[i] < w.won[j])
    && (w.won != [] ==> w.won[|w.won| - 1] <= w.clock)
    && w.row.window == LastWon(w.won)
  }

  /** What a request knows is what the row said when it was read. */
  predicate RequestOk(w: World, r: Request) {
    match r
    case Waiting(seen, read) => read <= |w.won| && seen == LastWon(w.won[..read]) && (seen.Some? ==> seen.value <= w.clock)
    case Resetting(seen, read, window) =>
      read <= |w.won| && seen == LastWon(w.won[..read]) && Before(seen, window) && window <= w.clock
    case Incrementing(read, window) =>
      read <= |w.won| && window <= w.clock && (read == |w.won| ==> w.row.window == Some(window))
    case _ => true
  }

  predicate RequestsOk(w: World) {
    forall i :: 0 <= i < |w.requests| ==> RequestOk(w, w.requests[i])
  }

  /** Nothing was counted for a window the row has not reached. */
  ghost predicate Untouched(w: World) {
    forall v: nat :: Before(w.row.window, v) ==> Count(w.takes, v) == 0 && Count(w.refunds, v) == 0
  }

  ghost predicate WithinLimit(w: World, max: nat) {
    forall v: nat :: 0 <= Used(w, v) <= max
  }

  predicate CountsOk(w: World) {
    match w.row.window
    case None => w.row.used == 0
    case Some(v) => w.row.used == Used(w, v)
  }

  ghost predicate Inv(w: World, max: nat) {
    WonOk(w) && RequestsOk(w) && Untouched(w) && CountsOk(w) && WithinLimit(w, max)
  }

  lemma SameWon(w: World, after: World, r: Request)
    requires RequestOk(w, r) && after.won == w.won && after.row.window == w.row.window && w.clock <= after.clock
    ensures RequestOk(after, r)
  {
  }

  lemma MoreWon(w: World, after: World, r: Request, window: nat)
    requires RequestOk(w, r) && after.won == w.won + [window] && w.clock <= after.clock
    ensures RequestOk(after, r)
  {
    match r {
      case Waiting(seen, read) => assert after.won[..read] == w.won[..read];
      case Resetting(seen, read, v) => assert after.won[..read] == w.won[..read];
      case _ =>
    }
  }

  lemma RequestsKept(w: World, max: nat, step: Step)
    requires WonOk(w) && RequestsOk(w)
    ensures RequestsOk(Next(w, max, step))
  {
    var after := Next(w, max, step);
    assert w.won[..|w.won|] == w.won;
    forall k | 0 <= k < |after.requests| ensures RequestOk(after, after.requests[k]) {
      if k < |w.requests| && after.requests[k] == w.requests[k] {
        if after.won == w.won { SameWon(w, after, w.requests[k]); }
        else { MoreWon(w, after, w.requests[k], after.won[|w.won|]); }
      } else if k < |w.requests| {
        MovedOk(w, max, step, k);
      }
    }
  }

  /** The request a step moves. */
  lemma MovedOk(w: World, max: nat, step: Step, k: nat)
    requires WonOk(w) && RequestsOk(w) && k < |w.requests| && Next(w, max, step).requests[k] != w.requests[k]
    ensures RequestOk(Next(w, max, step), Next(w, max, step).requests[k])
  {
    assert RequestOk(w, w.requests[k]);
    assert w.won[..|w.won|] == w.won;
  }

  lemma ResetKept(w: World, max: nat, i: nat)
    requires Inv(w, max) && max >= 1 && At(w, i) && w.requests[i].Resetting? && w.row.window == w.requests[i].seen
    ensures Inv(Next(w, max, TryReset(i)), max)
  {
    var after := Next(w, max, TryReset(i));
    var v := w.requests[i].window;
    assert RequestOk(w, w.requests[i]) && Before(w.row.window, v);
    RequestsKept(w, max, TryReset(i));
    PlusCounts(w.takes, v);
    forall u: nat | Before(after.row.window, u) ensures Count(after.takes, u) == 0 && Count(after.refunds, u) == 0 {
      assert Before(w.row.window, u);
    }
    forall u: nat ensures 0 <= Used(after, u) <= max {
      assert 0 <= Used(w, u) <= max;
      if u == v { assert Count(w.takes, v) == 0 && Count(w.refunds, v) == 0; }
    }
  }

  lemma CountsKept(w: World, max: nat, step: Step)
    requires Inv(w, max) && Next(w, max, step).won == w.won
    ensures var after := Next(w, max, step); WonOk(after) && Untouched(after) && CountsOk(after) && WithinLimit(after, max)
  {
    var after := Next(w, max, step);
    if w.row.window.Some? {
      PlusCounts(w.takes, w.row.window.value);
      PlusCounts(w.refunds, w.row.window.value);
    }
    forall u: nat ensures 0 <= Used(after, u) <= max {
      assert 0 <= Used(w, u) <= max;
    }
  }

  /** Limits are positive integers. */
  lemma StepKeepsInv(w: World, max: nat, step: Step)
    requires Inv(w, max) && max >= 1
    ensures Inv(Next(w, max, step), max)
  {
    if Next(w, max, step).won != w.won {
      ResetKept(w, max, step.i);
    } else {
      RequestsKept(w, max, step);
      CountsKept(w, max, step);
    }
  }

  /** The requests that took a unit of the window. */
  function TakenIn(requests: seq<Request>, window: nat): nat {
    if requests == [] then 0 else
      TakenIn(requests[..|requests| - 1], window) + if requests[|requests| - 1] == Taken(window) then 1 else 0
  }

  lemma {:induction false} TakenUpdate(requests: seq<Request>, i: nat, r: Request, window: nat)
    requires i < |requests|
    ensures TakenIn(requests[i := r], window) ==
      TakenIn(requests, window) + (if r == Taken(window) then 1 else 0) - (if requests[i] == Taken(window) then 1 else 0)
  {
    var last := |requests| - 1;
    if i == last {
      assert requests[i := r][..last] == requests[..last];
    } else {
      TakenUpdate(requests[..last], i, r, window);
      assert requests[i := r][..last] == requests[..last][i := r];
    }
  }

  /** Every unit counted is some request's, and every request that took one is counted. */
  ghost predicate Accounted(w: World) {
    forall v: nat :: Count(w.takes, v) == TakenIn(w.requests, v)
  }

  lemma StepKeepsAccounted(w: World, max: nat, step: Step)
    requires Accounted(w)
    ensures Accounted(Next(w, max, step))
  {
    var after := Next(w, max, step);
    if step.Arrive? {
      assert after.requests[..|w.requests|] == w.requests;
    } else if Moves(step).Some? && At(w, step.i) && !Decided(w.requests[step.i]) {
      MoveKeepsAccounted(w, after, step.i);
    }
  }

  lemma MoveKeepsAccounted(w: World, after: World, i: nat)
    requires Accounted(w) && At(w, i) && !w.requests[i].Taken? && |after.requests| == |w.requests|
    requires after.requests == w.requests[i := after.requests[i]]
    requires after.takes == if after.requests[i].Taken? then Plus(w.takes, after.requests[i].window) else w.takes
    ensures Accounted(after)
  {
    var r := after.requests[i];
    if r.Taken? { PlusCounts(w.takes, r.window); }
    forall v: nat ensures Count(after.takes, v) == TakenIn(after.requests, v) {
      TakenUpdate(w.requests, i, r, v);
    }
  }

  /** Time and takes only grow, and a request once decided stays as it is. */
  ghost predicate Later(w: World, after: World) {
    && w.clock <= after.clock && |w.requests| <= |after.requests|
    && (forall k :: 0 <= k < |w.requests| && Decided(w.requests[k]) ==> after.requests[k] == w.requests[k])
    && (forall v: nat :: Count(w.takes, v) <= Count(after.takes, v))
  }

  lemma NextIsLater(w: World, max: nat, step: Step)
    ensures Later(w, Next(w, max, step))
  {
  }

  lemma LaterStill(w: World, mid: World, after: World)
    requires Later(w, mid) && Later(mid, after)
    ensures Later(w, after)
  {
    forall v: nat ensures Count(w.takes, v) <= Count(after.takes, v) {
      assert Count(w.takes, v) <= Count(mid.takes, v) <= Count(after.takes, v);
    }
  }

  lemma {:induction false} RunsLater(max: nat, steps: seq<Step>, further: seq<Step>)
    requires steps <= further
    ensures Later(Run(max, steps), Run(max, further))
  {
    if steps != further {
      var init := further[..|further| - 1];
      RunsLater(max, steps, init);
      NextIsLater(Run(max, init), max, further[|further| - 1]);
      LaterStill(Run(max, steps), Run(max, init), Run(max, further));
    }
  }

  /**
   * However requests, refunds and window changes interleave: in every window the takes less the refunds are between 0
   * and the limit, the counter is that difference for the row's window, one request at most wins each reset, and the
   * takes of a window are the requests that passed in it.
   */
  lemma {:induction false} RunBudget(max: nat, steps: seq<Step>)
    requires max >= 1
    ensures Inv(Run(max, steps), max)
    ensures var w := Run(max, steps); forall v: nat :: 0 <= Used(w, v) <= max
    ensures var w := Run(max, steps); w.row.window.Some? ==> w.row.used == Used(w, w.row.window.value)
    ensures var w := Run(max, steps); forall i, j :: 0 <= i < j < |w.won| ==> w.won[i] != w.won[j]
    ensures Accounted(Run(max, steps))
  {
    if steps != [] {
      RunBudget(max, steps[..|steps| - 1]);
      StepKeepsAccounted(Run(max, steps[..|steps| - 1]), max, steps[|steps| - 1]);
      StepKeepsInv(Run(max, steps[..|steps| - 1]), max, steps[|steps| - 1]);
    }
  }

  /** A take not given back yet is given back in full, if and only if the row still counts its window. */
  lemma RefundGivesBack(w: World, max: nat, window: nat)
    requires Inv(w, max) && window <= w.clock && Used(w, window) > 0
    ensures var after := Next(w, max, Refund(window));
      if w.row.window == Some(window)
      then after.row == Row(Some(window), w.row.used - 1) && Used(after, window) == Used(w, window) - 1
      else after.row == w.row && Used(after, window) == Used(w, window)
  {
    PlusCounts(w.refunds, window);
  }

  // ---- Refused under the limit ----------------------------------------------

  /** After the request read the row, resets were won, the last of them for another window than its own. */
  predicate Overtaken(w: World, r: Request)
    requires r.Incrementing?
  {
    |w.won| > r.read && w.won[|w.won| - 1] != r.window
  }

  /**
   * A request is refused although fewer units than the limit are used in its window, if and only if the row counts
   * another window. Nothing is used in a window the row has not reached.
   */
  lemma RefusedWhen(w: World, max: nat, i: nat)
    requires Inv(w, max) && At(w, i) && w.requests[i].Incrementing?
    ensures var v, after := w.requests[i].window, Next(w, max, TryIncrement(i));
      && (after.requests[i] == Refused(v) && Used(w, v) < max <==> w.row.window != Some(v) && Used(w, v) < max)
      && (after.requests[i] != Refused(v) ==> after.requests[i] == Taken(v) && Used(after, v) == Used(w, v) + 1)
      && (Before(w.row.window, v) ==> Used(w, v) == 0)
  {
    PlusCounts(w.takes, w.requests[i].window);
  }

  /**
   * In every run: a request is refused under its limit if and only if, after it read the row, another request won a
   * reset into another window, and none followed into its own. As long as its own window is the current one, that
   * other request began in an earlier one.
   */
  lemma RefusedUnderLimit(max: nat, steps: seq<Step>, i: nat)
    requires max >= 1 && At(Run(max, steps), i) && Run(max, steps).requests[i].Incrementing?
    ensures var w, r := Run(max, steps), Run(max, steps).requests[i];
      Used(w, r.window) < max ==>
        && (Next(w, max, TryIncrement(i)).requests[i] == Refused(r.window) <==> Overtaken(w, r))
        && (r.window == w.clock && Overtaken(w, r) ==> w.won[|w.won| - 1] < r.window && Used(w, r.window) == 0)
  {
    var w := Run(max, steps);
    RunBudget(max, steps);
    assert RequestOk(w, w.requests[i]);
    RefusedWhen(w, max, i);
  }

  /** A late reset puts the row in a past window, and a request is refused though nothing is used in its own. */
  lemma RefusedThoughUnused(max: nat)
    requires max >= 1
    ensures var w := Run(max, [Arrive, Begin(0), Arrive, Tick(1), Begin(1), TryReset(0), TryReset(1), TryIncrement(1)]);
      w.requests == [Taken(0), Refused(1)] && Used(w, 1) == 0 && w.clock == 1
  {
    var steps := [Arrive, Begin(0), Arrive, Tick(1), Begin(1), TryReset(0), TryReset(1), TryIncrement(1)];
    assert Run(max, steps[..0]) == FRESH;
    RunPrefix(max, steps, 1);
    RunPrefix(max, steps, 2);
    RunPrefix(max, steps, 3);
    RunPrefix(max, steps, 4);
    assert Run(max, steps[..4]).requests == [Resetting(None, 0, 0), Waiting(None, 0)];
    RunPrefix(max, steps, 5);
    RunPrefix(max, steps, 6);
    assert Run(max, steps[..6]).requests == [Taken(0), Resetting(None, 0, 1)];
    RunPrefix(max, steps, 7);
    RunPrefix(max, steps, 8);
    assert steps[..8] == steps;
  }

  lemma RunPrefix(max: nat, steps: seq<Step>, n: nat)
    requires 0 < n <= |steps|
    ensures Run(max, steps[..n]) == Next(Run(max, steps[..n - 1]), max, steps[n - 1])
  {
    assert steps[..n][..n - 1] == steps[..n - 1];
  }

  // ---- A request as it runs -------------------------------------------------

  /** The request a step moves. */
  function Moves(step: Step): Option<nat> {
    match step
    case Begin(i) => Some(i)
    case TryReset(i) => Some(i)
    case TryIncrement(i) => Some(i)
    case _ => None
  }

  predicate Decided(r: Request) {
    r.Taken? || r.Refused?
  }

  lemma DecidedStays(w: World, max: nat, step: Step, i: nat)
    requires i < |w.requests| && (Decided(w.requests[i]) || Moves(step) != Some(i))
    ensures i < |Next(w, max, step).requests| && Next(w, max, step).requests[i] == w.requests[i]
  {
  }

  /** The unit of a request that just passed is counted. */
  lemma UnitCounted(w: World, before: World, after: World, max: nat, i: nat, step: Step)
    requires Later(w, before) && after == Next(before, max, step) && step in {TryReset(i), TryIncrement(i)}
    requires At(before, i) && !Decided(before.requests[i]) && At(after, i) && after.requests[i].Taken?
    ensures Count(after.takes, after.requests[i].window) > Count(w.takes, after.requests[i].window)
  {
    PlusCounts(before.takes, after.requests[i].window);
  }

  lemma ClockGrows(max: nat, steps: seq<Step>, further: seq<Step>)
    requires steps <= further
    ensures Run(max, steps).clock <= Run(max, further).clock
  {
    RunsLater(max, steps, further);
  }

  lemma RunPush(max: nat, steps: seq<Step>, step: Step)
    ensures Run(max, steps + [step]) == Next(Run(max, steps), max, step)
  {
    assert (steps + [step])[..|steps|] == steps;
  }

  /**
   * One budget of a grant, with all that ever happened to it. `own` are the requests made through it here, and `offered`
   * is how many units were offered back.
   */
  class Budget {
    const max: nat
    var w: World
    ghost var steps: seq<Step>
    ghost var own: seq<nat>
    ghost var offered: nat

    ghost predicate Valid()
      reads this
    {
      max >= 1 && w == Run(max, steps)
    }

    constructor (max: nat)
      requires max >= 1
      ensures Valid() && this.max == max && w == FRESH && own == [] && offered == 0
    {
      this.max, w, steps, own, offered := max, FRESH, [], [], 0;
    }

    method Move(step: Step)
      requires Valid()
      modifies this`w, this`steps
      ensures Valid() && steps == old(steps) + [step] && w == Next(old(w), max, step)
    {
      RunPush(max, steps, step);
      w, steps := Next(w, max, step), steps + [step];
    }

    /** `before` is what the budget was before its last step, at some point of its run after `start`. */
    ghost predicate LastStep(start: seq<Step>, before: World, step: Step)
      reads this
    {
      && start < steps && start <= steps[..|steps| - 1] && steps[|steps| - 1] == step
      && before == Run(max, steps[..|steps| - 1]) && w == Next(before, max, step)
    }

    /** At a wait, time passes and other requests read, reset, take and give back. */
    method Others(mine: nat)
      requires Valid() && mine < |w.requests|
      modifies this`w, this`steps
      ensures Valid() && old(steps) <= steps && mine < |w.requests| && w.requests[mine] == old(w).requests[mine]
    {
      var n: int := *;
      for k := 0 to if n > 0 then n else 0
        invariant Valid() && old(steps) <= steps && mine < |w.requests| && w.requests[mine] == old(w).requests[mine]
      {
        var step: Step := *;
        if Decided(w.requests[mine]) || Moves(step) != Some(mine) {
          DecidedStays(w, max, step, mine);
          Move(step);
        }
      }
    }

    /** Reads the row, and later the current window. */
    method BeginTake() returns (i: nat)
      requires Valid()
      modifies this`w, this`steps
      ensures Valid() && old(steps) <= steps && |old(w).requests| == i < |w.requests|
      ensures w.requests[i].Resetting? || w.requests[i].Incrementing?
      ensures old(w).clock <= w.requests[i].window == w.clock
    {
      i := |w.requests|;
      Move(Arrive);
      Others(i);
      Move(Begin(i));
      ClockGrows(max, old(steps), steps);
    }

    method TryReset(i: nat) returns (taken: bool, ghost before: World)
      requires Valid() && i < |w.requests| && w.requests[i].Resetting?
      modifies this`w, this`steps
      ensures Valid() && old(steps) < steps && i < |w.requests| && i < |before.requests|
      ensures LastStep(old(steps), before, Step.TryReset(i)) && before.requests[i] == old(w).requests[i]
      ensures if taken then w.requests[i] == Taken(old(w).requests[i].window)
        else w.requests[i].Incrementing? && w.requests[i].window == old(w).requests[i].window
    {
      Others(i);
      before := w;
      assert (steps + [Step.TryReset(i)])[..|steps|] == steps;
      Move(Step.TryReset(i));
      taken := w.requests[i].Taken?;
    }

    method TryIncrement(i: nat) returns (taken: bool, ghost before: World)
      requires Valid() && i < |w.requests| && w.requests[i].Incrementing?
      modifies this`w, this`steps
      ensures Valid() && old(steps) < steps && i < |w.requests| && i < |before.requests|
      ensures LastStep(old(steps), before, Step.TryIncrement(i)) && before.requests[i] == old(w).requests[i]
      ensures w.requests[i] == if taken then Taken(old(w).requests[i].window) else Refused(old(w).requests[i].window)
    {
      Others(i);
      before := w;
      assert (steps + [Step.TryIncrement(i)])[..|steps|] == steps;
      Move(Step.TryIncrement(i));
      taken := w.requests[i].Taken?;
    }

    /** The reset, if one is due, and the increment each take a wait. */
    method Decide() returns (taken: bool, i: nat, ghost before: World)
      requires Valid()
      modifies this`w, this`steps
      ensures Valid() && |old(w).requests| <= i < |w.requests| && i < |before.requests|
      ensures if taken then w.requests[i].Taken? else w.requests[i].Refused?
      ensures if before.requests[i].Resetting? then taken else before.requests[i].Incrementing?
      ensures LastStep(old(steps), before, if before.requests[i].Resetting? then Step.TryReset(i) else Step.TryIncrement(i))
      ensures old(w).clock <= w.requests[i].window <= w.clock
    {
      i := BeginTake();
      ghost var begun := steps;
      taken := false;
      if w.requests[i].Resetting? {
        taken, before := TryReset(i);
      }
      if !taken {
        taken, before := TryIncrement(i);
      }
      ClockGrows(max, begun, steps);
    }

    /**
     * A new request, decided for the window that was current when it began, and counted if it passed. `before` is the
     * budget before the step that decided; `RefusedWhen` says when an increment refuses.
     */
    method ConsumeBudget() returns (taken: bool, i: nat, ghost before: World)
      requires Valid()
      modifies this`w, this`steps, this`own
      ensures Valid() && i < |w.requests| && AskedOnce(i, w.requests[i])
      ensures taken == w.requests[i].Taken? && i < |before.requests|
      ensures if before.requests[i].Resetting? then taken else before.requests[i].Incrementing?
      ensures LastStep(old(steps), before, if before.requests[i].Resetting? then Step.TryReset(i) else Step.TryIncrement(i))
    {
      taken, i, before := Decide();
      RunsLater(max, old(steps), steps[..|steps| - 1]);
      if taken { UnitCounted(old(w), before, w, max, i, steps[|steps| - 1]); }
      own := own + [i];
    }

    /** One unit back, some time after it was taken, if the row counts the window that is current then. */
    method RefundBudget(mine: nat) returns (ghost before: World)
      requires Valid() && mine < |w.requests| && w.requests[mine].Taken?
      modifies this`w, this`steps, this`offered
      ensures Valid() && offered == old(offered) + 1 && LastStep(old(steps), before, Refund(before.clock))
      ensures mine < |w.requests| && w.requests[mine] == old(w).requests[mine] && old(w).clock <= w.clock
      ensures Count(w.takes, w.requests[mine].window) >= Count(old(w).takes, w.requests[mine].window)
    {
      Others(mine);
      before := w;
      Move(Refund(w.clock));
      assert steps[..|steps| - 1] + [Refund(before.clock)] == steps;
      RunsLater(max, old(steps), steps);
      offered := offered + 1;
    }

    /** One request was made here since, and decided like this; it took its unit if it passed. */
    twostate predicate AskedOnce(i: nat, decided: Request)
      reads this
    {
      && own == old(own) + [i] && |old(w).requests| <= i < |w.requests| && w.requests[i] == decided
      && Decided(decided) && old(w).clock <= decided.window <= w.clock
      && (decided.Taken? ==> Count(w.takes, decided.window) > Count(old(w).takes, decided.window))
    }
  }

  /** The budgets of a grant, the hour before the day. Either may be missing. */
  class Grant {
    const hour: Option<Budget>
    const day: Option<Budget>

    ghost function All(): set<Budget> {
      (if hour.Some? then {hour.value} else {}) + (if day.Some? then {day.value} else {})
    }

    ghost predicate Valid()
      reads All()
    {
      && (hour.Some? ==> hour.value.Valid()) && (day.Some? ==> day.value.Valid())
      && (hour.Some? && day.Some? ==> hour.value != day.value)
    }

    constructor (hour: Option<Budget>, day: Option<Budget>)
      ensures this.hour == hour && this.day == day
    {
      this.hour, this.day := hour, day;
    }

    /**
     * A request passes exactly when it took a unit of every budget there is, with other requests at every wait of both:
     * the hour budget is asked once, and the day budget once unless the hour refused. `h` and `d` are its requests there.
     * An hour unit taken before the day refused is offered back; `offered` is the hour budget before that.
     */
    method Enforce() returns (ok: bool, hourly: Option<Request>, daily: Option<Request>, ghost h: nat, ghost d: nat, ghost offered: Option<World>)
      requires Valid()
      modifies All()
      ensures Valid()
      ensures ok <==> (hour.Some? ==> hourly.Some? && hourly.value.Taken?) && (day.Some? ==> daily.Some? && daily.value.Taken?)
      ensures hourly.Some? <==> hour.Some?
      ensures daily.Some? <==> day.Some? && (hour.Some? ==> hourly.value.Taken?)
      ensures hour.Some? ==> hour.value.AskedOnce(h, hourly.value)
      ensures day.Some? ==> if daily.Some? then day.value.AskedOnce(d, daily.value) else unchanged(day.value)
      ensures offered.Some? <==> !ok && hourly.Some? && hourly.value.Taken?
      ensures hour.Some? ==> hour.value.offered == old(hour.value.offered) + if offered.Some? then 1 else 0
      ensures day.Some? ==> day.value.offered == old(day.value.offered)
      ensures offered.Some? ==> hour.value.LastStep(old(hour.value.steps), offered.value, Refund(offered.value.clock))
    {
      hourly, daily, h, d, offered, ok := None, None, 0, 0, None, true;
      var mine := 0;
      if hour.Some? {
        ghost var before;
        ok, mine, before := hour.value.ConsumeBudget();
        hourly, h := Some(hour.value.w.requests[mine]), mine;
      }
      if ok && day.Some? {
        ghost var before;
        var i;
        ok, i, before := day.value.ConsumeBudget();
        daily, d := Some(day.value.w.requests[i]), i;
        if !ok && hour.Some? {
          ghost var given := hour.value.RefundBudget(mine);
          offered := Some(given);
        }
      }
    }
  }
}
