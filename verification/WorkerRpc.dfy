/**
 * A call to the wallet worker. The worker announces what it is about to send and waits for an acknowledgement, which
 * is posted once the announcement is stored. Replies, timeouts and crashes race to end the call.
 */
module WorkerRpc {
  import opened Wrappers

  datatype Outcome = Ok(result: nat) | WorkerError | Rotating | Rotated | TimedOut | Crashed

  /** The storing of one announcement. */
  datatype Hook = Storing | StoredIntent | StoreFailed

  datatype Ack = Ack(hook: nat, ok: bool)

  /**
   * `answered` is the first end of the call to arrive. The caller gets it when it is `settled`, after the hooks under
   * way are done or have taken too long. `cancelled` is a request to the worker to stop.
   */
  datatype Call = Call(
    hooks: seq<Hook>, acks: seq<Ack>, answered: Option<Outcome>, acksWhenAnswered: nat, settled: seq<Outcome>, waitedTooLong: bool, cancelled: bool)

  const SENT := Call([], [], None, 0, [], false, false)

  /** `Ends` covers replies, rotation exits and crashes of the worker; `Expires` is the call's own timeout. */
  datatype Event =
    | Announces
    | HookEnds(i: nat, ok: bool)
    | Ends(outcome: Outcome)
    | Expires
    | WaitsTooLong
    | Settles

  function Finish(c: Call, outcome: Outcome): Call {
    if c.answered.Some? then c else c.(answered := Some(outcome), acksWhenAnswered := |c.acks|)
  }

  predicate NothingStoring(c: Call) {
    forall i :: 0 <= i < |c.hooks| ==> !c.hooks[i].Storing?
  }

  predicate CanSettle(c: Call) {
    c.answered.Some? && c.settled == [] && (NothingStoring(c) || c.waitedTooLong)
  }

  function Next(c: Call, e: Event): Call {
    match e
    case Announces => if c.answered.Some? then c else c.(hooks := c.hooks + [Storing])
    case HookEnds(i, ok) =>
      if i >= |c.hooks| || !c.hooks[i].Storing? then c else
        var stored := c.(hooks := c.hooks[i := if ok then StoredIntent else StoreFailed]);
        if c.answered.Some? then stored else stored.(acks := c.acks + [Ack(i, ok)])
    case Ends(outcome) => Finish(c, outcome)
    case Expires => if c.answered.Some? then c else Finish(c, TimedOut).(cancelled := true)
    case WaitsTooLong => if c.answered.Some? then c.(waitedTooLong := true) else c
    case Settles => if CanSettle(c) then c.(settled := [c.answered.value]) else c
  }

  function Run(events: seq<Event>): Call {
    if events == [] then SENT else Next(Run(events[..|events| - 1]), events[|events| - 1])
  }

  predicate AcksFollowHooks(c: Call) {
    && (forall k :: 0 <= k < |c.acks| ==>
          c.acks[k].hook < |c.hooks| && c.hooks[c.acks[k].hook] == if c.acks[k].ok then StoredIntent else StoreFailed)
    && (forall j, k :: 0 <= j < k < |c.acks| ==> c.acks[j].hook != c.acks[k].hook)
  }

  predicate Sound(c: Call) {
    && AcksFollowHooks(c)
    && (c.answered.Some? ==> |c.acks| == c.acksWhenAnswered)
    && |c.settled| <= 1 && (c.settled != [] ==> c.answered == Some(c.settled[0]) && (NothingStoring(c) || c.waitedTooLong))
  }

  lemma HookKeepsSound(c: Call, i: nat, ok: bool)
    requires Sound(c) && i < |c.hooks| && c.hooks[i].Storing?
    ensures Sound(Next(c, HookEnds(i, ok)))
  {
    assert forall k :: 0 <= k < |c.acks| ==> c.acks[k].hook != i;
  }

  /** One event keeps a call sound, and never takes back its end, its acknowledgements or its settling. */
  lemma StepKeepsSound(c: Call, e: Event)
    requires Sound(c)
    ensures Sound(Next(c, e))
    ensures c.answered.Some? ==> Next(c, e).answered == c.answered && Next(c, e).acks == c.acks
    ensures c.settled != [] ==> Next(c, e).settled == c.settled
  {
    if e.HookEnds? && e.i < |c.hooks| && c.hooks[e.i].Storing? {
      HookKeepsSound(c, e.i, e.ok);
    }
  }

  /**
   * Whatever races: the caller gets one end, the first that arrived, and not before every hook is done or has taken
   * too long. An announcement is acknowledged at most once, after its hook is done and says so, and never after the
   * call was answered.
   */
  lemma {:induction false} CallIsSound(events: seq<Event>)
    ensures Sound(Run(events))
  {
    if events != [] {
      CallIsSound(events[..|events| - 1]);
      StepKeepsSound(Run(events[..|events| - 1]), events[|events| - 1]);
    }
  }

  /** The end that arrived first, from the events alone. */
  function FirstEnd(events: seq<Event>): Option<Outcome> {
    if events == [] then None else
      var before, last := FirstEnd(events[..|events| - 1]), events[|events| - 1];
      if before.Some? then before else
        match last
        case Ends(outcome) => Some(outcome)
        case Expires => Some(TimedOut)
        case _ => None
  }

  /** How many announcements came before the first end. */
  function AnnouncedInTime(events: seq<Event>): nat {
    if events == [] then 0 else
      var init, last := events[..|events| - 1], events[|events| - 1];
      AnnouncedInTime(init) + if last.Announces? && FirstEnd(init).None? then 1 else 0
  }

  predicate Acknowledged(c: Call, i: nat) {
    exists k :: 0 <= k < |c.acks| && c.acks[k].hook == i
  }

  /** As long as the call is unanswered, an announcement is acknowledged as soon as its hook is done, and only then. */
  predicate AcksComplete(c: Call) {
    c.answered.None? ==> forall i :: 0 <= i < |c.hooks| ==> (c.hooks[i].Storing? <==> !Acknowledged(c, i))
  }

  lemma StepKeepsAcks(c: Call, e: Event)
    requires Sound(c) && AcksComplete(c)
    ensures AcksComplete(Next(c, e))
  {
    var after := Next(c, e);
    if after.answered.None? {
      forall i | 0 <= i < |after.hooks| ensures after.hooks[i].Storing? <==> !Acknowledged(after, i) {
        assert i < |c.hooks| ==> (c.hooks[i].Storing? <==> !Acknowledged(c, i));
        if |after.acks| > |c.acks| {
          assert after.acks[|c.acks|].hook == e.i;
          assert forall k :: 0 <= k < |c.acks| ==> after.acks[k] == c.acks[k];
        }
      }
    }
  }

  /**
   * Whatever races: the call ends with the reply, exit, crash or timeout that arrived first, every announcement before
   * it is stored, and each is acknowledged as soon as it is done. The worker is asked to stop exactly for a timeout.
   */
  lemma {:induction false} FirstEndWins(events: seq<Event>)
    ensures var c := Run(events);
      && c.answered == FirstEnd(events) && |c.hooks| == AnnouncedInTime(events) && AcksComplete(c)
      && (c.cancelled ==> c.answered == Some(TimedOut))
      && (c.settled != [] ==> |c.settled| == 1 && FirstEnd(events) == Some(c.settled[0]))
    ensures FirstEnd(events).None? ==> Run(events + [Expires]).cancelled
  {
    assert (events + [Expires])[..|events|] == events;
    if events != [] {
      var init, last := events[..|events| - 1], events[|events| - 1];
      FirstEndWins(init);
      CallIsSound(init);
      CallIsSound(events);
      StepKeepsSound(Run(init), last);
      StepKeepsAcks(Run(init), last);
    }
  }
}
