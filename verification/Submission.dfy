/**
 * One submission: its attempt rows, its job, and the transactions that may still land. Every attempt is announced,
 * in one transaction over row and job, before it is sent.
 */
module Submission {
  import opened Wrappers

  datatype Status = Pending | Failed | Included

  datatype AttemptRow = AttemptRow(hash: Option<nat>, status: Status)

  /**
   * `rows` are the attempt rows in the order they were inserted and `job` the hash on the job. `row` and `hash` are
   * what the submitter remembers of the current attempt. `outstanding` holds every hash sent that may still land.
   */
  datatype Books = Books(
    rows: seq<AttemptRow>, job: Option<nat>, row: Option<nat>, hash: Option<nat>, outstanding: set<nat>, sent: nat)

  datatype Event =
    | Announce(announced: nat)
    | Send
    | NodeRejects
    | CloseAttempt
    | NoteAmbiguous
    | MarkFailed
    | Land(success: bool)

  /** The first row, inserted before anything is built. */
  const OPENED := Books([AttemptRow(None, Pending)], None, Some(0), None, {}, 0)

  function Current(b: Books): nat
    requires b.rows != []
  {
    if b.row.Some? && b.row.value < |b.rows| then b.row.value else 0
  }

  /** A row that was not sent yet is used again; after a rejected attempt a new one is inserted. */
  function Announced(b: Books, h: nat): Books {
    if b.row.Some? && b.row.value < |b.rows| then
      b.(rows := b.rows[b.row.value := b.rows[b.row.value].(hash := Some(h))], job := Some(h), hash := Some(h))
    else
      b.(rows := b.rows + [AttemptRow(Some(h), Pending)], job := Some(h), row := Some(|b.rows|), hash := Some(h))
  }

  function SetStatus(b: Books, status: Status): Books {
    if b.rows == [] then b else b.(rows := b.rows[Current(b) := b.rows[Current(b)].(status := status)])
  }

  /** The rejected hash leaves row and job together. */
  function Closed(b: Books): Books {
    if b.hash.None? || b.row.None? then b
    else SetStatus(b, Failed).(job := if b.job == b.hash then None else b.job, row := None, hash := None)
  }

  function After(b: Books, e: Event): Books {
    match e
    case Announce(h) => Announced(b, h)
    case Send => if b.hash.Some? then b.(outstanding := b.outstanding + {b.hash.value}, sent := b.sent + 1) else b
    case NodeRejects => if b.hash.Some? then b.(outstanding := b.outstanding - {b.hash.value}) else b
    case CloseAttempt => Closed(b)
    case NoteAmbiguous => b
    case MarkFailed => SetStatus(b, Failed)
    case Land(success) =>
      if b.hash.Some? then SetStatus(b, if success then Included else Failed).(outstanding := b.outstanding - {b.hash.value}) else b
  }

  // ---- Safety ---------------------------------------------------------------

  /** Whatever may land is the job's hash, on a row that is still pending. */
  predicate Safe(b: Books) {
    && (forall h :: h in b.outstanding ==>
          b.job == Some(h) && exists i :: 0 <= i < |b.rows| && b.rows[i] == AttemptRow(Some(h), Pending))
    && (b.job.None? ==> b.outstanding == {})
  }

  /** A row keeps the hash it once had. */
  predicate KeepsHashes(b: Books, after: Books) {
    |b.rows| <= |after.rows| &&
    forall i :: 0 <= i < |b.rows| && b.rows[i].hash.Some? ==> after.rows[i].hash == b.rows[i].hash
  }

  /** What the submitter remembers matches the books, as long as the attempt is open. */
  predicate Open(b: Books) {
    && b.rows != [] && b.job == b.hash
    && (b.row.Some? ==> b.row.value < |b.rows| && b.rows[b.row.value] == AttemptRow(b.hash, Pending))
    && (b.row.None? ==> b.hash.None?)
    && (forall i :: 0 <= i < |b.rows| && b.rows[i].status.Pending? ==> b.row == Some(i))
    && (forall h :: h in b.outstanding ==> b.hash == Some(h))
  }

  lemma OpenIsSafe(b: Books)
    requires Open(b)
    ensures Safe(b)
  {
    if b.row.Some? { assert b.rows[b.row.value] == AttemptRow(b.hash, Pending); }
  }

  /** When an event may happen: one announcement per attempt, and closing or failing only what cannot land. */
  predicate Allowed(b: Books, e: Event) {
    match e
    case Announce(_) => b.hash.None?
    case Send => b.hash.Some?
    case CloseAttempt => b.outstanding == {}
    case MarkFailed => b.hash.None? && b.outstanding == {}
    case _ => true
  }

  lemma EventKeepsOpen(b: Books, e: Event)
    requires Open(b) && Allowed(b, e) && !e.MarkFailed? && !e.Land?
    ensures Open(After(b, e)) && KeepsHashes(b, After(b, e))
  {
  }

  /** The last event of a submission. */
  lemma LastEventSafe(b: Books, e: Event)
    requires Open(b) && Allowed(b, e) && (e.MarkFailed? || e.Land?)
    ensures Safe(After(b, e)) && KeepsHashes(b, After(b, e)) && After(b, e).outstanding == {}
  {
  }

  /** The attempt that is remembered was sent and not refused. */
  predicate InFlight(b: Books) {
    b.hash.Some? ==> b.hash.value in b.outstanding
  }

  /**
   * A result without a transaction hash marks the row failed: that is safe if and only if nothing sent may still land.
   * Where such a result arrives, that is when the submitter remembers no hash.
   */
  lemma MalformedResult(b: Books)
    requires Open(b)
    ensures Safe(After(b, MarkFailed)) <==> b.outstanding == {}
    ensures InFlight(b) ==> (Safe(After(b, MarkFailed)) <==> b.hash.None?)
    ensures KeepsHashes(b, After(b, MarkFailed))
  {
    var after := After(b, MarkFailed);
    if b.outstanding != {} {
      var h :| h in b.outstanding;
      forall i | 0 <= i < |after.rows| ensures after.rows[i] != AttemptRow(Some(h), Pending) {
        assert i != b.row.value ==> after.rows[i] == b.rows[i];
      }
    }
  }

  // ---- The submission as it runs --------------------------------------------

  /** Why an attempt failed. The first three are refusals before the pool: the transaction sent never lands. */
  datatype Failure = DustRace | StaleTranscript | Refused | Ambiguous

  /**
   * What one attempt comes to: the hash it announces, if any, whether the announcement is committed, the result, and
   * whether the books of a refused attempt can be written. An attempt that was not announced sends nothing. A
   * `malformed` result is one without a transaction hash, or without the address of the contract deployed.
   */
  datatype Attempt = Attempt(
    announces: Option<nat>, committed: bool, failure: Option<Failure>, malformed: bool, onChain: bool, closes: bool)

  datatype Result = Succeeded | FailedOnChain | NotSent | MayStillLand | BooksPending | Malformed

  const NO_ATTEMPT := Attempt(None, false, Some(Ambiguous), false, false, true)

  /** What the books say once a submission is over. */
  predicate Concluded(b: Books, result: Result) {
    match result
    case Succeeded => CurrentIs(b, Included) && b.outstanding == {}
    case FailedOnChain => CurrentIs(b, Failed) && b.outstanding == {}
    case MayStillLand => CurrentIs(b, Pending)
    case BooksPending => CurrentIs(b, Pending) && b.outstanding == {}
    case Malformed => b.rows != [] && b.rows[Current(b)].status.Failed?
    case NotSent => b.job.None? && b.outstanding == {} && forall i :: 0 <= i < |b.rows| ==> !b.rows[i].status.Pending?
  }

  /** The current row carries the job's hash and this status. */
  predicate CurrentIs(b: Books, status: Status) {
    b.job.Some? && b.row.Some? && b.row.value < |b.rows| && b.rows[b.row.value] == AttemptRow(b.job, status)
  }

  /** The books after one attempt. */
  function Sent(b: Books, a: Attempt): Books {
    if !IsSent(a) then b else
      var sent := After(After(b, Announce(a.announces.value)), Event.Send);
      if a.failure.Some? && a.failure.value != Ambiguous then After(sent, NodeRejects) else sent
  }

  /** The worker answers without having announced anything, and names no transaction. */
  predicate Unannounced(a: Attempt) {
    a.announces.None? && a.failure.None? && a.malformed
  }

  /** The attempt was announced and sent. */
  predicate IsSent(a: Attempt) {
    a.announces.Some? && a.committed
  }

  /** How an attempt fails, if it does: without a committed announcement nothing is known of it but a refusal. */
  function FailureOf(a: Attempt): (failure: Option<Failure>)
    ensures failure.None? <==> a.failure.None? && (if a.announces.Some? then a.committed else a.malformed)
    ensures a.failure.Some? ==> failure == a.failure
    ensures a.failure.None? && failure.Some? ==> failure.value == Ambiguous
  {
    if a.failure.Some? then a.failure
    else if IsSent(a) || Unannounced(a) then None
    else Some(Ambiguous)
  }

  /** Attempts that do not come send nothing. */
  function At(attempts: seq<Attempt>, k: nat): Attempt {
    if k < |attempts| then attempts[k] else NO_ATTEMPT
  }

  /** How many of the first `k` attempts failed for this reason. */
  function Failures(attempts: seq<Attempt>, k: nat, f: Failure): nat {
    if k == 0 then 0 else Failures(attempts, k - 1, f) + if FailureOf(At(attempts, k - 1)) == Some(f) then 1 else 0
  }

  /** How many of the first `k` attempts were sent. */
  function SentCount(attempts: seq<Attempt>, k: nat): nat {
    if k == 0 then 0 else SentCount(attempts, k - 1) + if IsSent(At(attempts, k - 1)) then 1 else 0
  }

  /** The attempt failed for a reason a rebuild cures, with some of that reason's budget left. */
  predicate Curable(attempts: seq<Attempt>, k: nat, dustRetries: nat, staleRetries: nat) {
    || (FailureOf(At(attempts, k)) == Some(DustRace) && Failures(attempts, k, DustRace) < dustRetries)
    || (FailureOf(At(attempts, k)) == Some(StaleTranscript) && Failures(attempts, k, StaleTranscript) < staleRetries)
  }

  /** A curable attempt is followed by another, unless it was sent and the books cannot be written. */
  predicate Rebuilt(attempts: seq<Attempt>, k: nat, dustRetries: nat, staleRetries: nat) {
    Curable(attempts, k, dustRetries, staleRetries) && (IsSent(At(attempts, k)) ==> At(attempts, k).closes)
  }

  /** The first attempt that is not followed by another. */
  predicate EndsAt(attempts: seq<Attempt>, k: nat, dustRetries: nat, staleRetries: nat) {
    && !Rebuilt(attempts, k, dustRetries, staleRetries)
    && forall j :: 0 <= j < k ==> Rebuilt(attempts, j, dustRetries, staleRetries)
  }

  /** There is one such attempt, and each rebuild before it used up some of its own reason's budget. */
  lemma EndsOnce(attempts: seq<Attempt>, k: nat, dustRetries: nat, staleRetries: nat)
    requires EndsAt(attempts, k, dustRetries, staleRetries)
    ensures forall l: nat :: EndsAt(attempts, l, dustRetries, staleRetries) ==> l == k
    ensures Failures(attempts, k, DustRace) + Failures(attempts, k, StaleTranscript) == k <= dustRetries + staleRetries
  {
    RebuildsCounted(attempts, k, dustRetries, staleRetries);
  }

  lemma {:induction false} RebuildsCounted(attempts: seq<Attempt>, k: nat, dustRetries: nat, staleRetries: nat)
    requires forall j :: 0 <= j < k ==> Rebuilt(attempts, j, dustRetries, staleRetries)
    ensures Failures(attempts, k, DustRace) + Failures(attempts, k, StaleTranscript) == k
    ensures Failures(attempts, k, DustRace) <= dustRetries && Failures(attempts, k, StaleTranscript) <= staleRetries
  {
    if k > 0 {
      RebuildsCounted(attempts, k - 1, dustRetries, staleRetries);
      assert Rebuilt(attempts, k - 1, dustRetries, staleRetries);
    }
  }

  /** What a submission comes to when `a` is its last attempt. */
  predicate ResultIs(a: Attempt, result: Result) {
    && (result == Succeeded <==> FailureOf(a).None? && !a.malformed && a.onChain)
    && (result == FailedOnChain <==> FailureOf(a).None? && !a.malformed && !a.onChain)
    && (result == Malformed <==> FailureOf(a).None? && a.malformed)
    && (result == MayStillLand <==> FailureOf(a) == Some(Ambiguous) && IsSent(a))
    && (result == BooksPending <==> FailureOf(a).Some? && FailureOf(a) != Some(Ambiguous) && IsSent(a) && !a.closes)
  }

  predicate AllSafe(trace: seq<Books>) {
    && (forall k :: 0 <= k < |trace| ==> Safe(trace[k]))
    && (forall k :: 0 <= k < |trace| - 1 ==> KeepsHashes(trace[k], trace[k + 1]))
  }

  class Submitter {
    var books: Books
    ghost var trace: seq<Books>

    ghost predicate Valid()
      reads this
    {
      trace != [] && trace[|trace| - 1] == books && AllSafe(trace)
    }

    constructor ()
      ensures Valid() && Open(books) && books == OPENED
    {
      books, trace := OPENED, [OPENED];
      OpenIsSafe(OPENED);
    }

    method Record(e: Event)
      requires Valid() && Open(books) && Allowed(books, e)
      modifies this
      ensures Valid() && books == After(old(books), e)
      ensures if e.MarkFailed? || e.Land? then books.outstanding == {} else Open(books)
    {
      if e.MarkFailed? || e.Land? {
        LastEventSafe(books, e);
      } else {
        EventKeepsOpen(books, e);
        OpenIsSafe(After(books, e));
      }
      books := After(books, e);
      trace := trace + [books];
    }

    /** One attempt. Refused before the pool, nothing of it may land. */
    method Send(a: Attempt) returns (failure: Option<Failure>)
      requires Valid() && Open(books) && books.hash.None? && books.outstanding == {}
      modifies this
      ensures Valid() && Open(books) && books == Sent(old(books), a)
      ensures failure == FailureOf(a)
      ensures if IsSent(a) then books.hash == a.announces && books.sent == old(books.sent) + 1 else books == old(books)
      ensures failure.None? ==> InFlight(books) && (!a.malformed ==> books.hash.Some?)
      ensures failure.Some? && failure.value != Ambiguous ==> books.outstanding == {}
    {
      failure := a.failure;
      if Unannounced(a) {
        return;
      }
      if a.announces.None? || !a.committed {
        return Some(if a.failure.None? then Ambiguous else a.failure.value);
      }
      Record(Announce(a.announces.value));
      Record(Event.Send);
      if a.failure.Some? && a.failure.value != Ambiguous {
        Record(NodeRejects);
      }
    }

    /** Takes a refused hash off row and job; true if nothing was sent. False when the books cannot be written. */
    method RejectAnnounced(closes: bool) returns (ok: bool)
      requires Valid() && Open(books) && books.outstanding == {}
      modifies this
      ensures Valid() && Open(books) && books.sent == old(books.sent) && books.outstanding == {}
      ensures ok == (old(books).hash.None? || closes)
      ensures books == if ok then Closed(old(books)) else old(books)
      ensures ok ==> books.hash.None?
    {
      if books.hash.None? {
        return true;
      }
      if !closes {
        return false;
      }
      Record(CloseAttempt);
      ok := true;
    }

    /** Books a failure: a hash that may still land leaves its row pending, anything else is failed. */
    method SettleFailed(failure: Failure, closes: bool) returns (result: Result)
      requires Valid() && Open(books)
      requires failure != Ambiguous ==> books.outstanding == {}
      modifies this
      ensures Valid() && books.sent == old(books.sent)
      ensures Concluded(books, result) && result != Malformed
      ensures result == MayStillLand <==> old(books).hash.Some? && failure == Ambiguous
      ensures result == BooksPending <==> old(books).hash.Some? && failure != Ambiguous && !closes
      ensures result != MayStillLand && result != BooksPending ==> result == NotSent
      ensures result == MayStillLand || result == BooksPending ==> books == old(books)
    {
      if books.hash.Some? && failure != Ambiguous {
        var ok := RejectAnnounced(closes);
        return if ok then NotSent else BooksPending;
      }
      if books.hash.Some? {
        Record(NoteAmbiguous);
        return MayStillLand;
      }
      Record(MarkFailed);
      result := NotSent;
    }

    /** A result that names no transaction: the row is marked failed, whether or not what was announced may land. */
    method EndMalformed()
      requires Valid() && Open(books) && InFlight(books)
      modifies this
      ensures Concluded(books, Malformed) && books.sent == old(books.sent) && books.job == old(books.job)
      ensures EndedUnchecked() && (Safe(books) <==> old(books).hash.None?)
    {
      MalformedResult(books);
      books := After(books, MarkFailed);
      trace := trace + [books];
      assert trace[..|trace| - 1] == old(trace);
    }

    /** The worker answered: the row gets the status on chain, or is marked failed without a transaction named. */
    method EndAnswered(a: Attempt) returns (result: Result)
      requires Valid() && Open(books) && InFlight(books) && (!a.malformed ==> books.hash.Some?)
      modifies this
      ensures Concluded(books, result) && books.sent == old(books.sent) && books.job == old(books.job)
      ensures result == Malformed ==> (Safe(books) <==> old(books).hash.None?)
      ensures if result == Malformed then EndedUnchecked() else Valid()
      ensures result == if a.malformed then Malformed else if a.onChain then Succeeded else FailedOnChain
    {
      if a.malformed {
        EndMalformed();
        return Malformed;
      }
      Record(Land(a.onChain));
      result := if a.onChain then Succeeded else FailedOnChain;
    }

    /** All states but the last are safe, and that one is if and only if the submitter remembered no hash before it. */
    ghost predicate EndedUnchecked()
      reads this
    {
      && |trace| >= 2 && trace[|trace| - 1] == books && AllSafe(trace[..|trace| - 1])
      && KeepsHashes(trace[|trace| - 2], books)
      && (Safe(books) <==> trace[|trace| - 2].hash.None?)
    }

    /** One attempt, with what its failure comes to. `None` is a rebuild. */
    method TryOnce(attempts: seq<Attempt>, n: nat, dustRetries: nat, staleRetries: nat, dustRebuilds: nat, staleRebuilds: nat)
      returns (result: Option<Result>, dustAfter: nat, staleAfter: nat)
      requires Valid() && Open(books) && books.hash.None? && books.outstanding == {}
      requires dustRebuilds == Failures(attempts, n, DustRace) && staleRebuilds == Failures(attempts, n, StaleTranscript)
      requires dustRebuilds <= dustRetries && staleRebuilds <= staleRetries
      modifies this
      ensures result.None? ==> Valid() && Open(books) && books.hash.None? && books.outstanding == {}
      ensures result.None? <==> Rebuilt(attempts, n, dustRetries, staleRetries)
      ensures result.None? ==>
        dustAfter == Failures(attempts, n + 1, DustRace) && staleAfter == Failures(attempts, n + 1, StaleTranscript) &&
        dustAfter + staleAfter == dustRebuilds + staleRebuilds + 1 && dustAfter <= dustRetries && staleAfter <= staleRetries
      ensures result.Some? ==> ResultIs(At(attempts, n), result.value) && Concluded(books, result.value)
      ensures result.Some? ==> if result.value == Malformed then EndedUnchecked() else Valid()
      ensures result.Some? && result.value != NotSent ==> books.job == At(attempts, n).announces
      ensures result == Some(Malformed) ==> (Safe(books) <==> At(attempts, n).announces.None?)
      ensures books.sent == old(books.sent) + if IsSent(At(attempts, n)) then 1 else 0
    {
      var a := if n < |attempts| then attempts[n] else NO_ATTEMPT;
      dustAfter, staleAfter := dustRebuilds, staleRebuilds;
      var failure := Send(a);
      if failure.None? {
        var answered := EndAnswered(a);
        return Some(answered), dustAfter, staleAfter;
      }
      if failure.value == DustRace && dustRebuilds < dustRetries {
        dustAfter := dustRebuilds + 1;
      } else if failure.value == StaleTranscript && staleRebuilds < staleRetries {
        staleAfter := staleRebuilds + 1;
      } else {
        var settled := SettleFailed(failure.value, a.closes);
        return Some(settled), dustAfter, staleAfter;
      }
      var ok := RejectAnnounced(a.closes);
      result := if ok then None else Some(BooksPending);
    }

    /**
     * Attempts until one is not refused for a reason a rebuild cures, within that reason's own budget. The first such
     * attempt alone decides what the submission comes to. At every step, all that may land is the job's hash on a
     * pending row, and no row changes its hash. Only a malformed result may end otherwise, in its last step.
     */
    method RunSubmit(attempts: seq<Attempt>, dustRetries: nat, staleRetries: nat) returns (result: Result, ghost last: nat)
      requires Valid() && books == OPENED
      modifies this
      ensures if result == Malformed then EndedUnchecked() else Valid()
      ensures Concluded(books, result)
      ensures EndsAt(attempts, last, dustRetries, staleRetries)
      ensures ResultIs(At(attempts, last), result)
      ensures result != NotSent ==> books.job == At(attempts, last).announces
      ensures books.sent == SentCount(attempts, last + 1)
      ensures result == Malformed ==> (Safe(books) <==> At(attempts, last).announces.None?)
    {
      var dustRebuilds, staleRebuilds := 0, 0;
      last := 0;
      while true
        invariant Valid() && Open(books) && books.hash.None? && books.outstanding == {}
        invariant dustRebuilds <= dustRetries && staleRebuilds <= staleRetries && last == dustRebuilds + staleRebuilds
        invariant dustRebuilds == Failures(attempts, last, DustRace) && staleRebuilds == Failures(attempts, last, StaleTranscript)
        invariant forall j :: 0 <= j < last ==> Rebuilt(attempts, j, dustRetries, staleRetries)
        invariant books.sent == SentCount(attempts, last)
        decreases dustRetries - dustRebuilds + staleRetries - staleRebuilds
      {
        var ended;
        ended, dustRebuilds, staleRebuilds := TryOnce(attempts, dustRebuilds + staleRebuilds, dustRetries, staleRetries, dustRebuilds, staleRebuilds);
        if ended.Some? {
          result := ended.value;
          return;
        }
        last := last + 1;
      }
    }
  }

  /** An announced and sent transaction, and an answer that does not name it: its row is failed while it may still land. */
  method MalformedRun() returns (submitter: Submitter, result: Result)
    ensures result == Malformed && !Safe(submitter.books)
  {
    submitter := new Submitter();
    var attempts := [Attempt(Some(7), true, None, true, false, true)];
    ghost var last;
    result, last := submitter.RunSubmit(attempts, 0, 0);
    assert EndsAt(attempts, 0, 0, 0);
  }
}
