/** Reordering a batch before it is proved, and what the ledger then runs. */
module BatchStore {
  import opened Wrappers
  import opened BatchSegments
  import opened BatchOrdering
  import opened BatchProofs

  // ---- Main results ---------------------------------------------------------

  lemma ArrangedPicked(entries: seq<Entry>, picked: seq<Entry>, opts: Options)
    requires UniqueIds(picked) && forall i :: 0 <= i < |picked| ==> FromMap(entries, picked[i])
    ensures var a := Arranged(picked, opts);
      && UniqueIds(a) && (forall e :: e in a <==> e in picked)
      && (forall i :: 0 <= i < |a| ==> FromMap(entries, a[i]))
      && (AllPresent(entries, a) <==> AllPresent(entries, picked))
  {
    var a := Arranged(picked, opts);
    ArrangedIsPermutation(picked, opts);
    OnceMeansUnique(a, picked);
    forall e ensures e in a <==> e in picked {
      assert e in a <==> e in multiset(a);
      assert e in picked <==> e in multiset(picked);
    }
    assert forall i :: 0 <= i < |a| ==> a[i] in picked;
    assert forall i :: 0 <= i < |picked| ==> picked[i] in a;
  }

  /**
   * A transaction that was reordered keeps every intent, leaves the unpicked ones under their segments and has the
   * picked ones, as arranged, on the picked segments in ascending order. The set of segments is kept if and only
   * if every picked segment was in the map.
   */
  lemma ReorderedKeeps(entries: seq<Entry>, circuits: seq<string>, opts: Options)
    requires UniqueIds(entries) && Reordered(entries, circuits, opts).Some?
    ensures var picked := Pick(entries, circuits, opts.segmentIds).value;
      var a, next := Arranged(picked, opts), Reordered(entries, circuits, opts).value;
      && Picked(entries, circuits, picked) && UniqueIds(next) && |next| == |entries|
      && ((forall id :: HasId(next, id) <==> HasId(entries, id)) <==> AllPresent(entries, picked))
      && (AllPresent(entries, picked) ==> Kept(entries, a, next))
  {
    var picked := Pick(entries, circuits, opts.segmentIds).value;
    PickIsPicked(entries, circuits, opts.segmentIds);
    ArrangedPicked(entries, picked, opts);
    RewrittenKeeps(entries, Arranged(picked, opts));
  }

  lemma RewrittenKeeps(entries: seq<Entry>, a: seq<Entry>)
    requires UniqueIds(entries) && UniqueIds(a) && Rewritten(entries, a).Some?
    requires forall i :: 0 <= i < |a| ==> FromMap(entries, a[i])
    ensures var next := Rewritten(entries, a).value;
      && UniqueIds(next) && |next| == |entries|
      && ((forall id :: HasId(next, id) <==> HasId(entries, id)) <==> AllPresent(entries, a))
      && (AllPresent(entries, a) ==> Kept(entries, a, next))
  {
    RewrittenShape(entries, a);
    NextUnique(entries, a);
    SegmentsKept(entries, a);
    if AllPresent(entries, a) {
      PresentInMap(entries, a);
      IntentsKept(entries, a);
      PlacedAre(a);
    }
  }

  lemma PlacedAre(a: seq<Entry>)
    requires UniqueIds(a)
    ensures Strict(PlacedCalls(a)) && IntentsOf(PlacedCalls(a)) == IntentsOf(a)
    ensures forall id :: HasId(PlacedCalls(a), id) <==> HasId(a, id)
  {
    SortedIds(a);
    var sorted, placed := SortById(a), PlacedCalls(a);
    forall id ensures HasId(placed, id) <==> HasId(sorted, id) {
      if HasId(sorted, id) {
        var i :| 0 <= i < |sorted| && sorted[i].segId == id;
        assert placed[i].segId == id;
      }
      if HasId(placed, id) {
        var i :| 0 <= i < |placed| && placed[i].segId == id;
        assert sorted[i].segId == id;
      }
    }
  }

  /** The intents of the old map in the new one. */
  ghost predicate Kept(entries: seq<Entry>, a: seq<Entry>, next: seq<Entry>) {
    && multiset(IntentsOf(next)) == multiset(IntentsOf(entries))
    && (forall e :: e in entries && !HasId(a, e.segId) ==> e in next)
    && Strict(PlacedCalls(a)) && IntentsOf(PlacedCalls(a)) == IntentsOf(a)
    && (forall id :: HasId(PlacedCalls(a), id) <==> HasId(a, id))
    && (forall e :: e in PlacedCalls(a) ==> e in next)
  }

  /** A refusal, when every circuit has a name: too few calls or intents, no match, or an object shared with a segment not picked. */
  lemma RefusedWhen(entries: seq<Entry>, circuits: seq<string>, opts: Options)
    requires UniqueIds(entries) && forall i :: 0 <= i < |circuits| ==> circuits[i] != ""
    ensures Reordered(entries, circuits, opts).None? <==>
      |circuits| < 2 || |entries| < 2 || Pick(entries, circuits, opts.segmentIds).None? ||
      SharedOutside(entries, Pick(entries, circuits, opts.segmentIds).value)
  {
    if Pick(entries, circuits, opts.segmentIds).Some? {
      var picked := Pick(entries, circuits, opts.segmentIds).value;
      var a := Arranged(picked, opts);
      PickIsPicked(entries, circuits, opts.segmentIds);
      NamedArePresent(entries, circuits, picked);
      ArrangedPicked(entries, picked, opts);
      PresentInMap(entries, a);
      SizeCheck(entries, a);
      SameSharing(entries, a, picked);
      SameSharing(entries, picked, a);
    }
  }

  lemma SameSharing(entries: seq<Entry>, x: seq<Entry>, y: seq<Entry>)
    requires forall e :: e in x <==> e in y
    ensures SharedOutside(entries, x) ==> SharedOutside(entries, y)
  {
    SameIds(y, x);
    if SharedOutside(entries, x) {
      var i :| 0 <= i < |entries| && !HasId(x, entries[i].segId) && HasIntent(x, entries[i].intent);
      var k :| 0 <= k < |x| && x[k].intent == entries[i].intent;
      assert x[k] in y;
      var m :| 0 <= m < |y| && y[m] == x[k];
      assert HasIntent(y, entries[i].intent);
    }
  }

  /**
   * Grouped by stage, the calls run on the ledger as they would one after the other, provided every contract call was
   * picked and grouping moves every pair that was out of order. For named circuits that is also necessary.
   */
  lemma GroupingIsSufficient(entries: seq<Entry>, circuits: seq<string>, opts: Options)
    requires UniqueIds(entries) && Reordered(entries, circuits, opts).Some? && opts.independentCalls
    requires AllCallsPicked(entries, Pick(entries, circuits, opts.segmentIds).value)
    ensures var picked := Pick(entries, circuits, opts.segmentIds).value;
      var calls := OrderedCalls(Reordered(entries, circuits, opts).value);
      var groupable := Groupable(picked, PrefixLength(opts.orderedPrefix, |picked|));
      && (groupable ==> Causal(calls) && LedgerStages(calls) == InOrderStages(calls))
      && (AllHaveNames(circuits) ==> (groupable <==> LedgerStages(calls) == InOrderStages(calls)))
  {
    var picked := Pick(entries, circuits, opts.segmentIds).value;
    var a := Arranged(picked, opts);
    PickIsPicked(entries, circuits, opts.segmentIds);
    ArrangedPicked(entries, picked, opts);
    AllCallsPickedToo(entries, picked, a);
    CallsInPlace(entries, a);
    GroupedIsCausal(picked, opts);
    SameCausal(a);
    if Causal(a) { NamedCausal(PlacedCalls(a)); }
    if AllHaveNames(circuits) { PickedHaveNames(picked, circuits, a); }
    LedgerRunsInOrder(NamedOnly(PlacedCalls(a)));
  }

  predicate AllHaveNames(circuits: seq<string>) {
    forall i :: 0 <= i < |circuits| ==> circuits[i] != ""
  }

  /** Placing the intents does not change their order. */
  lemma SameCausal(a: seq<Entry>)
    ensures |PlacedCalls(a)| == |a| && (Causal(PlacedCalls(a)) <==> Causal(a))
    ensures forall i :: 0 <= i < |a| ==> PlacedCalls(a)[i].intent == a[i].intent
  {
    SortLength(a);
    assert forall i :: 0 <= i < |a| ==> PlacedCalls(a)[i].intent == a[i].intent;
  }

  lemma PickedHaveNames(picked: seq<Entry>, circuits: seq<string>, a: seq<Entry>)
    requires NamesMatch(picked, circuits) && AllHaveNames(circuits) && forall e :: e in a ==> e in picked
    ensures NamedOnly(PlacedCalls(a)) == PlacedCalls(a)
  {
    SameCausal(a);
    forall i | 0 <= i < |a| ensures NameOf(PlacedCalls(a)[i].intent) != "" {
      assert a[i] in picked;
      var k :| 0 <= k < |picked| && picked[k] == a[i];
      assert circuits[k] != "";
    }
    AllNamed(PlacedCalls(a));
  }

  lemma AllCallsPickedToo(entries: seq<Entry>, picked: seq<Entry>, a: seq<Entry>)
    requires AllCallsPicked(entries, picked) && forall e :: e in picked ==> e in a
    ensures AllCallsPicked(entries, a)
  {
    forall i | 0 <= i < |entries| && NameOf(entries[i].intent) != "" ensures HasIntent(a, entries[i].intent) {
      var k :| 0 <= k < |picked| && picked[k].intent == entries[i].intent;
      assert picked[k] in a;
      var m :| 0 <= m < |a| && a[m] == picked[k];
    }
  }

  lemma {:induction false} AllNamed(entries: seq<Entry>)
    requires forall i :: 0 <= i < |entries| ==> NameOf(entries[i].intent) != ""
    ensures NamedOnly(entries) == entries
  {
    if entries != [] {
      AllNamed(entries[..|entries| - 1]);
    }
  }

  /**
   * Without grouping, the ledger's apply order is the call list: the i-th contract call runs the i-th circuit.
   */
  lemma AppliedInCallOrder(entries: seq<Entry>, circuits: seq<string>, opts: Options)
    requires UniqueIds(entries) && Reordered(entries, circuits, opts).Some? && !opts.independentCalls
    requires forall i :: 0 <= i < |circuits| ==> circuits[i] != ""
    requires AllCallsPicked(entries, Pick(entries, circuits, opts.segmentIds).value)
    ensures var calls := OrderedCalls(Reordered(entries, circuits, opts).value);
      && NamesMatch(calls, circuits) && Strict(calls)
      && IntentsOf(calls) == IntentsOf(Pick(entries, circuits, opts.segmentIds).value)
  {
    var picked := Pick(entries, circuits, opts.segmentIds).value;
    PickIsPicked(entries, circuits, opts.segmentIds);
    CallsInPlace(entries, picked);
    PlacedInOrder(picked, circuits);
  }

  lemma PlacedInOrder(picked: seq<Entry>, circuits: seq<string>)
    requires UniqueIds(picked) && NamesMatch(picked, circuits) && forall i :: 0 <= i < |circuits| ==> circuits[i] != ""
    ensures NamedOnly(PlacedCalls(picked)) == PlacedCalls(picked) && NamesMatch(PlacedCalls(picked), circuits)
    ensures Strict(PlacedCalls(picked)) && IntentsOf(PlacedCalls(picked)) == IntentsOf(picked)
  {
    SortedIds(picked);
    AllNamed(PlacedCalls(picked));
  }

  /** With an empty circuit name, a missing segment is taken for a call, and a segment can be lost. */
  lemma SegmentLost(shared: Intent)
    requires shared.Intent? && shared.name == "a"
    ensures var entries, opts := [Entry(1, shared), Entry(2, shared)], Options(false, 0, Some([9, 1]));
      var next := Reordered(entries, ["", "a"], opts);
      next == Some([Entry(1, Missing), Entry(9, shared)]) && HasId(entries, 2) && !HasId(next.value, 2)
  {
    var entries := [Entry(1, shared), Entry(2, shared)];
    var picked := [Entry(9, Missing), Entry(1, shared)];
    LostPick(shared);
    LostUnpicked(entries, picked, shared);
    SortTwo(picked[0], picked[1]);
    PlaceTwo(SortById(picked), picked);
    assert entries[1].segId == 2;
  }

  lemma LostPick(shared: Intent)
    requires shared.Intent? && shared.name == "a"
    ensures Pick([Entry(1, shared), Entry(2, shared)], ["", "a"], Some([9, 1])) == Some([Entry(9, Missing), Entry(1, shared)])
  {
    GetExamples(shared);
    var picked := PickByIds([Entry(1, shared), Entry(2, shared)], [9, 1]);
    assert picked == [Entry(9, Missing), Entry(1, shared)];
  }

  lemma LostUnpicked(entries: seq<Entry>, picked: seq<Entry>, shared: Intent)
    requires entries == [Entry(1, shared), Entry(2, shared)] && picked == [Entry(9, Missing), Entry(1, shared)]
    ensures Unpicked(entries, picked) == []
  {
    assert HasIntent(picked, shared) by { assert picked[1].intent == shared; }
    var first := entries[..1];
    assert first[..0] == [] && first[0].intent == shared;
    assert Unpicked(first, picked) == [];
  }

  lemma GetExamples(shared: Intent)
    ensures Get([Entry(1, shared), Entry(2, shared)], 9) == Missing && Get([Entry(1, shared), Entry(2, shared)], 1) == shared
  {
    var entries := [Entry(1, shared), Entry(2, shared)];
    var first := [Entry(1, shared)];
    assert entries[..1] == first && first[..0] == [];
    assert Get(first, 9) == Missing && Get(first, 1) == shared;
  }

  lemma SortTwo(high: Entry, low: Entry)
    requires low.segId < high.segId
    ensures SortById([high, low]) == [low, high]
  {
    var both, one := [high, low], [high];
    assert both[..1] == one && one[..0] == [];
    assert SortById(one) == one;
    assert InsertById([], low) == [low];
    assert InsertById(one, low) == [low] + [high];
  }

  lemma PlaceTwo(sorted: seq<Entry>, picked: seq<Entry>)
    requires |sorted| == |picked| == 2 && sorted[0].segId != sorted[1].segId
    ensures Place([], sorted, picked, 2) == [Entry(sorted[0].segId, picked[0].intent), Entry(sorted[1].segId, picked[1].intent)]
  {
    assert Place([], sorted, picked, 0) == [];
    assert Place([], sorted, picked, 1) == [Entry(sorted[0].segId, picked[0].intent)];
    assert !HasId([Entry(sorted[0].segId, picked[0].intent)], sorted[1].segId);
  }

  // ---- The loops ------------------------------------------------------------

  /** The entries of one name, in map order. */
  function Named(entries: seq<Entry>, name: string): seq<Entry> {
    if entries == [] then [] else
      Named(entries[..|entries| - 1], name) +
      if NameOf(entries[|entries| - 1].intent) == name then [entries[|entries| - 1]] else []
  }

  lemma {:induction false} NamedAppend(x: seq<Entry>, y: seq<Entry>, name: string)
    ensures Named(x + y, name) == Named(x, name) + Named(y, name)
  {
    if y == [] {
      assert x + y == x;
    } else {
      assert (x + y)[..|x + y| - 1] == x + y[..|y| - 1];
      NamedAppend(x, y[..|y| - 1], name);
    }
  }

  lemma {:induction false} NoneNamed(entries: seq<Entry>, name: string)
    requires forall k :: 0 <= k < |entries| ==> NameOf(entries[k].intent) != name
    ensures Named(entries, name) == []
  {
    if entries != [] {
      NoneNamed(entries[..|entries| - 1], name);
    }
  }

  lemma NamedSplit(x: seq<Entry>, e: Entry, y: seq<Entry>, name: string)
    ensures Named(x + [e] + y, name) == Named(x, name) + (if NameOf(e.intent) == name then [e] else []) + Named(y, name)
  {
    NamedAppend(x, [e], name);
    NamedAppend(x + [e], y, name);
    assert [e][..0] == [];
  }

  function WithoutFirst(entries: seq<Entry>, name: string): seq<Entry>
    requires FirstNamed(entries, name) < |entries|
  {
    entries[..FirstNamed(entries, name)] + entries[FirstNamed(entries, name) + 1..]
  }

  lemma TakeMiddle(x: seq<Entry>, e: Entry, y: seq<Entry>, name: string)
    requires NameOf(e.intent) == name ==> Named(x, name) == []
    ensures Named(x + [e] + y, name) == (if NameOf(e.intent) == name then [e] else []) + Named(x + y, name)
  {
    NamedSplit(x, e, y, name);
    NamedAppend(x, y, name);
  }

  /** Taking the first of a name off its pool is taking it out of the entries. */
  lemma TakeFirst(entries: seq<Entry>, name: string, other: string)
    requires FirstNamed(entries, name) < |entries|
    ensures Named(entries, other) ==
      (if other == name then [entries[FirstNamed(entries, name)]] else []) + Named(WithoutFirst(entries, name), other)
  {
    var i := FirstNamed(entries, name);
    assert entries[..i] + [entries[i]] + entries[i + 1..] == entries;
    NoneNamed(entries[..i], name);
    TakeMiddle(entries[..i], entries[i], entries[i + 1..], other);
  }

  lemma NoneLeft(entries: seq<Entry>, name: string)
    ensures FirstNamed(entries, name) == |entries| <==> Named(entries, name) == []
  {
    if FirstNamed(entries, name) == |entries| {
      NoneNamed(entries, name);
    } else {
      TakeFirst(entries, name, name);
    }
  }

  function PoolOf(pools: map<string, seq<Entry>>, name: string): seq<Entry> {
    if name in pools then pools[name] else []
  }

  ghost predicate Pooled(pools: map<string, seq<Entry>>, entries: seq<Entry>) {
    forall name :: PoolOf(pools, name) == Named(entries, name)
  }

  method BuildPools(entries: seq<Entry>) returns (pools: map<string, seq<Entry>>)
    ensures Pooled(pools, entries)
  {
    pools := map[];
    for i := 0 to |entries|
      invariant Pooled(pools, entries[..i])
    {
      assert entries[..i + 1][..i] == entries[..i];
      var name := NameOf(entries[i].intent);
      pools := pools[name := PoolOf(pools, name) + [entries[i]]];
    }
    assert entries[..|entries|] == entries;
  }

  function Then(front: seq<Entry>, rest: Option<seq<Entry>>): Option<seq<Entry>> {
    match rest case None => None case Some(r) => Some(front + r)
  }

  lemma ThenPush(list: seq<Entry>, e: Entry, rest: Option<seq<Entry>>)
    ensures Then(list, Then([e], rest)) == Then(list + [e], rest)
  {
    if rest.Some? { assert list + ([e] + rest.value) == (list + [e]) + rest.value; }
  }

  /** One step of picking by name. */
  lemma PickStep(left: seq<Entry>, circuits: seq<string>, f: nat)
    requires circuits != [] && f == FirstNamed(left, circuits[0]) && f < |left|
    ensures PickByName(left, circuits) == Then([left[f]], PickByName(left[..f] + left[f + 1..], circuits[1..]))
  {
  }

  lemma PickNext(list: seq<Entry>, left: seq<Entry>, circuits: seq<string>, i: nat, f: nat)
    requires i < |circuits| && f == FirstNamed(left, circuits[i]) && f < |left|
    ensures Then(list, PickByName(left, circuits[i..])) ==
      Then(list + [left[f]], PickByName(left[..f] + left[f + 1..], circuits[i + 1..]))
  {
    var names := circuits[i..];
    assert names[0] == circuits[i] && names[1..] == circuits[i + 1..];
    PickStep(left, names, f);
    ThenPush(list, left[f], PickByName(left[..f] + left[f + 1..], circuits[i + 1..]));
  }

  lemma PickNone(left: seq<Entry>, circuits: seq<string>, i: nat)
    requires i < |circuits| && FirstNamed(left, circuits[i]) == |left|
    ensures PickByName(left, circuits[i..]) == None
  {
    assert circuits[i..][0] == circuits[i];
  }

  lemma ThenNothing(rest: Option<seq<Entry>>)
    ensures Then([], rest) == rest
  {
    if rest.Some? { assert [] + rest.value == rest.value; }
  }

  /** Every call takes the first free intent of its name. */
  method PickFromPools(entries: seq<Entry>, circuits: seq<string>) returns (picked: Option<seq<Entry>>)
    ensures picked == PickByName(entries, circuits)
  {
    var pools := BuildPools(entries);
    ghost var left, sought := entries, PickByName(entries, circuits);
    var list: seq<Entry> := [];
    ThenNothing(sought);
    assert circuits[0..] == circuits;
    for i := 0 to |circuits|
      invariant Pooled(pools, left)
      invariant sought == Then(list, PickByName(left, circuits[i..]))
    {
      var circuit := circuits[i];
      NoneLeft(left, circuit);
      assert PoolOf(pools, circuit) == Named(left, circuit);
      if circuit !in pools || pools[circuit] == [] {
        PickNone(left, circuits, i);
        return None;
      }
      PickNext(list, left, circuits, i, FirstNamed(left, circuit));
      list, pools, left := TakeOne(list, pools, circuit, left);
    }
    assert circuits[|circuits|..] == [] && list + [] == list;
    picked := Some(list);
  }

  method TakeOne(list: seq<Entry>, pools: map<string, seq<Entry>>, circuit: string, ghost left: seq<Entry>)
    returns (listOut: seq<Entry>, poolsOut: map<string, seq<Entry>>, ghost leftOut: seq<Entry>)
    requires Pooled(pools, left) && circuit in pools && pools[circuit] != []
    ensures FirstNamed(left, circuit) < |left| && Pooled(poolsOut, leftOut)
    ensures var i := FirstNamed(left, circuit);
      listOut == list + [left[i]] && leftOut == left[..i] + left[i + 1..]
  {
    NoneLeft(left, circuit);
    assert PoolOf(pools, circuit) == Named(left, circuit);
    TakeFirst(left, circuit, circuit);
    ghost var i := FirstNamed(left, circuit);
    listOut := list + [pools[circuit][0]];
    poolsOut := pools[circuit := pools[circuit][1..]];
    leftOut := left[..i] + left[i + 1..];
    forall name ensures PoolOf(poolsOut, name) == Named(leftOut, name) {
      TakeFirst(left, circuit, name);
      assert PoolOf(pools, name) == Named(left, name);
    }
  }

  datatype ProveOutcome = Proved | NotMatched | Violates(violation: Violation) | StoppedByPreflight

  class Transaction {
    var intents: seq<Entry>

    constructor (intents: seq<Entry>)
      requires UniqueIds(intents)
      ensures this.intents == intents
    {
      this.intents := intents;
    }

    /** Gives the calls the existing segments in call order, or changes nothing. */
    method OrderBatchSegments(circuits: seq<string>, opts: Options) returns (ok: bool)
      requires UniqueIds(intents)
      modifies this
      ensures ok == Reordered(old(intents), circuits, opts).Some?
      ensures intents == if ok then Reordered(old(intents), circuits, opts).value else old(intents)
      ensures UniqueIds(intents)
    {
      if |circuits| < 2 || |intents| < 2 {
        return false;
      }
      var found := PickBySegmentIds(intents, circuits, opts.segmentIds);
      if found.None? {
        found := PickFromPools(intents, circuits);
        if found.None? {
          return false;
        }
      }
      var next := Rewrite(intents, Arranged(found.value, opts));
      if |next| != |intents| {
        return false;
      }
      ReorderedKeeps(intents, circuits, opts);
      intents := next;
      ok := true;
    }

    /**
     * What is handed to the prover runs on the ledger as its calls would one after the other. `preflight` is
     * whether the caller's last check passes.
     */
    method ProveTx(circuits: seq<string>, opts: Options, preflight: bool) returns (outcome: ProveOutcome)
      requires UniqueIds(intents)
      modifies this
      ensures |circuits| < 2 ==> outcome == Proved && intents == old(intents)
      ensures |circuits| >= 2 ==>
        (outcome == NotMatched <==> Reordered(old(intents), circuits, opts).None?)
        && (outcome == NotMatched ==> intents == old(intents))
        && (outcome != NotMatched ==> intents == Reordered(old(intents), circuits, opts).value)
      ensures |circuits| >= 2 && outcome != NotMatched ==>
        (outcome.Violates? <==> LedgerStages(OrderedCalls(intents)) != InOrderStages(OrderedCalls(intents)))
      ensures |circuits| >= 2 && outcome == Proved ==>
        preflight && LedgerStages(OrderedCalls(intents)) == InOrderStages(OrderedCalls(intents))
    {
      if |circuits| >= 2 {
        var ordered := OrderBatchSegments(circuits, opts);
        if !ordered {
          return NotMatched;
        }
        var violation := FindCausalityViolation(intents);
        if violation.Some? {
          return Violates(violation.value);
        }
        if !preflight {
          return StoppedByPreflight;
        }
      }
      outcome := Proved;
    }
  }

  /** Unpicked entries stay; the calls go on the picked segments in ascending order. */
  method Rewrite(entries: seq<Entry>, picked: seq<Entry>) returns (next: seq<Entry>)
    ensures |SortById(picked)| == |picked|
    ensures next == Place(Unpicked(entries, picked), SortById(picked), picked, |picked|)
  {
    SortLength(picked);
    var pickedIntents := set e | e in picked :: e.intent;
    var sorted := SortById(picked);
    next := [];
    for i := 0 to |entries|
      invariant next == Unpicked(entries[..i], picked)
    {
      assert entries[..i + 1][..i] == entries[..i];
      assert entries[i].intent in pickedIntents <==> HasIntent(picked, entries[i].intent) by {
        InSet(picked, entries[i].intent);
      }
      if entries[i].intent !in pickedIntents {
        next := next + [entries[i]];
      }
    }
    assert entries[..|entries|] == entries;
    for i := 0 to |picked|
      invariant next == Place(Unpicked(entries, picked), sorted, picked, i)
    {
      next := Put(next, Entry(sorted[i].segId, picked[i].intent));
    }
  }

  lemma InSet(picked: seq<Entry>, intent: Intent)
    ensures intent in (set e | e in picked :: e.intent) <==> HasIntent(picked, intent)
  {
    if HasIntent(picked, intent) {
      var i :| 0 <= i < |picked| && picked[i].intent == intent;
      assert picked[i] in picked;
    }
  }
}
