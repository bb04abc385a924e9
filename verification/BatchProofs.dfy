/** The reordered transaction. */
module BatchProofs {
  import opened Wrappers
  import opened BatchSegments
  import opened BatchOrdering

  // ---- The new map ----------------------------------------------------------

  /** Calls in order on the ascending picked segments. */
  function Placed(sorted: seq<Entry>, picked: seq<Entry>, n: nat): (placed: seq<Entry>)
    requires n <= |sorted| == |picked|
    ensures |placed| == n && forall i :: 0 <= i < n ==> placed[i] == Entry(sorted[i].segId, picked[i].intent)
  {
    seq(n, i requires 0 <= i < n => Entry(sorted[i].segId, picked[i].intent))
  }

  function PlacedCalls(picked: seq<Entry>): seq<Entry> {
    SortLength(picked);
    Placed(SortById(picked), picked, |picked|)
  }

  lemma {:induction false} UnpickedMembers(entries: seq<Entry>, picked: seq<Entry>)
    ensures forall e :: e in Unpicked(entries, picked) <==> e in entries && !HasIntent(picked, e.intent)
  {
    if entries != [] {
      UnpickedMembers(entries[..|entries| - 1], picked);
      assert entries == entries[..|entries| - 1] + [entries[|entries| - 1]];
    }
  }

  lemma {:induction false} UnpickedUnique(entries: seq<Entry>, picked: seq<Entry>)
    requires UniqueIds(entries)
    ensures UniqueIds(Unpicked(entries, picked))
  {
    if entries != [] {
      var init, last := entries[..|entries| - 1], entries[|entries| - 1];
      assert forall i :: 0 <= i < |init| ==> init[i] == entries[i];
      UnpickedUnique(init, picked);
      UnpickedMembers(init, picked);
      var kept := Unpicked(init, picked);
      forall i | 0 <= i < |kept| ensures kept[i].segId != last.segId {
        assert kept[i] in init;
        var k :| 0 <= k < |init| && init[k] == kept[i];
        assert entries[k].segId != last.segId;
      }
    }
  }

  /** An entry left out of the pick has a segment the calls do not take. */
  lemma UnpickedApart(entries: seq<Entry>, picked: seq<Entry>, e: Entry)
    requires UniqueIds(entries) && (forall i :: 0 <= i < |picked| ==> FromMap(entries, picked[i]))
    requires e in Unpicked(entries, picked)
    ensures !HasId(picked, e.segId)
  {
    UnpickedMembers(entries, picked);
    var k :| 0 <= k < |entries| && entries[k] == e;
    forall i | 0 <= i < |picked| ensures picked[i].segId != e.segId {
      assert FromMap(entries, picked[i]);
      if picked[i] in entries {
        var m :| 0 <= m < |entries| && entries[m] == picked[i];
        assert picked[i] != e;
      }
    }
  }

  lemma SortedIds(picked: seq<Entry>)
    requires UniqueIds(picked)
    ensures |SortById(picked)| == |picked| && Strict(SortById(picked))
    ensures forall id :: HasId(SortById(picked), id) <==> HasId(picked, id)
  {
    SortLength(picked);
    SortStrict(picked);
    SortMembers(picked);
    SameIds(SortById(picked), picked);
    SameIds(picked, SortById(picked));
  }

  lemma SameIds(x: seq<Entry>, y: seq<Entry>)
    requires forall e :: e in x ==> e in y
    ensures forall id :: HasId(x, id) ==> HasId(y, id)
  {
    forall id | HasId(x, id) ensures HasId(y, id) {
      var i :| 0 <= i < |x| && x[i].segId == id;
      assert x[i] in y;
      var k :| 0 <= k < |y| && y[k] == x[i];
    }
  }

  lemma {:induction false} PlaceAppends(next: seq<Entry>, sorted: seq<Entry>, picked: seq<Entry>, n: nat)
    requires n <= |sorted| == |picked| && Strict(sorted)
    requires forall i :: 0 <= i < |sorted| ==> !HasId(next, sorted[i].segId)
    ensures Place(next, sorted, picked, n) == next + Placed(sorted, picked, n)
  {
    if n > 0 {
      PlaceAppends(next, sorted, picked, n - 1);
      var before := next + Placed(sorted, picked, n - 1);
      forall k | 0 <= k < |before| ensures before[k].segId != sorted[n - 1].segId {
        if k < |next| {
          assert before[k] == next[k];
        } else {
          assert sorted[k - |next|].segId < sorted[n - 1].segId;
        }
      }
    }
  }

  lemma RewrittenShape(entries: seq<Entry>, picked: seq<Entry>)
    requires UniqueIds(entries) && UniqueIds(picked)
    requires forall i :: 0 <= i < |picked| ==> FromMap(entries, picked[i])
    ensures var next := Unpicked(entries, picked) + PlacedCalls(picked);
      Rewritten(entries, picked) == if |next| != |entries| then None else Some(next)
  {
    var sorted, left := SortById(picked), Unpicked(entries, picked);
    SortedIds(picked);
    forall i | 0 <= i < |sorted| ensures !HasId(left, sorted[i].segId) {
      assert HasId(sorted, sorted[i].segId) && HasId(picked, sorted[i].segId);
      forall k | 0 <= k < |left| ensures left[k].segId != sorted[i].segId {
        UnpickedApart(entries, picked, left[k]);
      }
    }
    PlaceAppends(left, sorted, picked, |picked|);
  }

  // ---- Nothing is lost or doubled -------------------------------------------

  function PickedEntries(entries: seq<Entry>, picked: seq<Entry>): seq<Entry> {
    if entries == [] then [] else
      PickedEntries(entries[..|entries| - 1], picked) +
      if HasIntent(picked, entries[|entries| - 1].intent) then [entries[|entries| - 1]] else []
  }

  lemma {:induction false} SplitEntries(entries: seq<Entry>, picked: seq<Entry>)
    ensures multiset(entries) == multiset(Unpicked(entries, picked)) + multiset(PickedEntries(entries, picked))
    ensures |entries| == |Unpicked(entries, picked)| + |PickedEntries(entries, picked)|
  {
    if entries != [] {
      var init, last := entries[..|entries| - 1], entries[|entries| - 1];
      SplitEntries(init, picked);
      assert multiset(entries) == multiset(init) + multiset{last} by { assert entries == init + [last]; }
    }
  }

  lemma {:induction false} PickedMembers(entries: seq<Entry>, picked: seq<Entry>)
    ensures forall e :: e in PickedEntries(entries, picked) <==> e in entries && HasIntent(picked, e.intent)
  {
    if entries != [] {
      PickedMembers(entries[..|entries| - 1], picked);
      assert entries == entries[..|entries| - 1] + [entries[|entries| - 1]];
    }
  }

  /** An intent object that was picked under one segment and sits under another one, too. */
  predicate SharedOutside(entries: seq<Entry>, picked: seq<Entry>) {
    exists i :: 0 <= i < |entries| && !HasId(picked, entries[i].segId) && HasIntent(picked, entries[i].intent)
  }

  predicate AllInMap(entries: seq<Entry>, picked: seq<Entry>) {
    forall i :: 0 <= i < |picked| ==> picked[i] in entries
  }

  lemma PickedIncluded(entries: seq<Entry>, picked: seq<Entry>)
    requires UniqueIds(picked) && AllInMap(entries, picked)
    ensures multiset(picked) <= multiset(PickedEntries(entries, picked))
  {
    PickedMembers(entries, picked);
    forall e ensures multiset(picked)[e] <= multiset(PickedEntries(entries, picked))[e] {
      AtMostOnce(picked, e);
      if e in picked {
        var i :| 0 <= i < |picked| && picked[i] == e;
        assert HasIntent(picked, e.intent);
        assert e in PickedEntries(entries, picked);
      }
    }
  }

  lemma SameSize(x: multiset<Entry>, y: multiset<Entry>)
    requires x <= y && |x| == |y|
    ensures x == y
  {
    assert y == x + (y - x);
    assert |y - x| == 0;
  }

  lemma SameSizeNotShared(entries: seq<Entry>, picked: seq<Entry>)
    requires UniqueIds(picked) && AllInMap(entries, picked)
    requires |PickedEntries(entries, picked)| == |picked|
    ensures multiset(PickedEntries(entries, picked)) == multiset(picked) && !SharedOutside(entries, picked)
  {
    var chosen := PickedEntries(entries, picked);
    PickedIncluded(entries, picked);
    SameSize(multiset(picked), multiset(chosen));
    PickedMembers(entries, picked);
    forall i | 0 <= i < |entries| && HasIntent(picked, entries[i].intent) ensures HasId(picked, entries[i].segId) {
      assert entries[i] in chosen;
      assert entries[i] in multiset(picked);
      var k :| 0 <= k < |picked| && picked[k] == entries[i];
    }
  }

  lemma NotSharedSameSize(entries: seq<Entry>, picked: seq<Entry>)
    requires UniqueIds(entries) && UniqueIds(picked) && AllInMap(entries, picked) && !SharedOutside(entries, picked)
    ensures |PickedEntries(entries, picked)| == |picked|
  {
    PickedIncluded(entries, picked);
    ChosenIncluded(entries, picked);
    assert multiset(picked) == multiset(PickedEntries(entries, picked));
    assert |multiset(picked)| == |picked|;
  }

  /** The size check passes exactly when no picked object sits under a segment that was not picked. */
  lemma SizeCheck(entries: seq<Entry>, picked: seq<Entry>)
    requires UniqueIds(entries) && UniqueIds(picked) && AllInMap(entries, picked)
    ensures Rewritten(entries, picked).Some? <==> !SharedOutside(entries, picked)
    ensures Rewritten(entries, picked).Some? ==>
      multiset(entries) == multiset(Unpicked(entries, picked)) + multiset(picked)
  {
    SplitEntries(entries, picked);
    assert Rewritten(entries, picked).Some? <==> |PickedEntries(entries, picked)| == |picked| by {
      RewrittenShape(entries, picked);
    }
    if |PickedEntries(entries, picked)| == |picked| {
      SameSizeNotShared(entries, picked);
    } else if !SharedOutside(entries, picked) {
      NotSharedSameSize(entries, picked);
    }
  }

  lemma ChosenIncluded(entries: seq<Entry>, picked: seq<Entry>)
    requires UniqueIds(entries) && UniqueIds(picked) && AllInMap(entries, picked) && !SharedOutside(entries, picked)
    ensures multiset(PickedEntries(entries, picked)) <= multiset(picked)
  {
    PickedMembers(entries, picked);
    SplitEntries(entries, picked);
    forall e ensures multiset(PickedEntries(entries, picked))[e] <= multiset(picked)[e] {
      AtMostOnce(entries, e);
      if e in PickedEntries(entries, picked) {
        var i :| 0 <= i < |entries| && entries[i] == e;
        assert HasId(picked, e.segId);
        var k :| 0 <= k < |picked| && picked[k].segId == e.segId;
        assert picked[k] in entries;
        var m :| 0 <= m < |entries| && entries[m] == picked[k];
        assert m == i;
      }
    }
  }

  // ---- Intents and segments kept --------------------------------------------

  function IntentsOf(entries: seq<Entry>): (intents: seq<Intent>)
    ensures |intents| == |entries| && forall i :: 0 <= i < |entries| ==> intents[i] == entries[i].intent
  {
    seq(|entries|, i requires 0 <= i < |entries| => entries[i].intent)
  }

  function Without(y: seq<Entry>, k: nat): seq<Entry>
    requires k < |y|
  {
    y[..k] + y[k + 1..]
  }

  lemma IntentsConcat(x: seq<Entry>, y: seq<Entry>)
    ensures IntentsOf(x + y) == IntentsOf(x) + IntentsOf(y)
  {
  }

  lemma MiddleOut(x: seq<Entry>, e: Entry, y: seq<Entry>)
    ensures multiset(x + [e] + y) == multiset(x + y) + multiset{e}
    ensures multiset(IntentsOf(x + [e] + y)) == multiset(IntentsOf(x + y)) + multiset{e.intent}
  {
    IntentsConcat(x + [e], y);
    IntentsConcat(x, [e]);
    IntentsConcat(x, y);
    assert IntentsOf([e]) == [e.intent];
  }

  lemma WithoutOne(y: seq<Entry>, k: nat)
    requires k < |y|
    ensures multiset(y) == multiset(Without(y, k)) + multiset{y[k]}
    ensures multiset(IntentsOf(y)) == multiset(IntentsOf(Without(y, k))) + multiset{y[k].intent}
  {
    MiddleOut(y[..k], y[k], y[k + 1..]);
    assert y[..k] + [y[k]] + y[k + 1..] == y;
  }

  lemma {:induction false} SameIntents(x: seq<Entry>, y: seq<Entry>)
    requires multiset(x) == multiset(y)
    ensures multiset(IntentsOf(x)) == multiset(IntentsOf(y))
    decreases |x|
  {
    if x != [] {
      var e := x[0];
      assert e in multiset(y);
      var k :| 0 <= k < |y| && y[k] == e;
      WithoutOne(x, 0);
      WithoutOne(y, k);
      assert multiset(Without(x, 0)) == multiset(x) - multiset{e};
      assert multiset(Without(y, k)) == multiset(y) - multiset{e};
      SameIntents(Without(x, 0), Without(y, k));
    } else {
      assert |multiset(y)| == 0;
    }
  }

  /** The segments are kept, if and only if every picked segment was in the map. */
  lemma SegmentsKept(entries: seq<Entry>, picked: seq<Entry>)
    requires UniqueIds(entries) && UniqueIds(picked) && Rewritten(entries, picked).Some?
    requires forall i :: 0 <= i < |picked| ==> FromMap(entries, picked[i])
    ensures (forall id :: HasId(Rewritten(entries, picked).value, id) <==> HasId(entries, id)) <==> AllPresent(entries, picked)
  {
    var next := Rewritten(entries, picked).value;
    RewrittenShape(entries, picked);
    NextIds(entries, picked);
    UnpickedMembers(entries, picked);
    if AllPresent(entries, picked) {
      PresentInMap(entries, picked);
      SizeCheck(entries, picked);
      SameIds(Unpicked(entries, picked), entries);
      forall id ensures HasId(next, id) <==> HasId(entries, id) {
        if HasId(entries, id) && !HasId(picked, id) {
          var i :| 0 <= i < |entries| && entries[i].segId == id;
          assert entries[i] in Unpicked(entries, picked);
          var k :| 0 <= k < |Unpicked(entries, picked)| && Unpicked(entries, picked)[k] == entries[i];
        }
      }
    } else {
      var i :| 0 <= i < |picked| && !HasId(entries, picked[i].segId);
      assert HasId(picked, picked[i].segId) && HasId(next, picked[i].segId);
    }
  }

  lemma NextIds(entries: seq<Entry>, picked: seq<Entry>)
    requires UniqueIds(picked)
    ensures forall id :: HasId(Unpicked(entries, picked) + PlacedCalls(picked), id) <==>
      HasId(Unpicked(entries, picked), id) || HasId(picked, id)
  {
    var left, placed, sorted := Unpicked(entries, picked), PlacedCalls(picked), SortById(picked);
    SortedIds(picked);
    forall id ensures HasId(left + placed, id) <==> HasId(left, id) || HasId(picked, id) {
      if HasId(left, id) {
        var i :| 0 <= i < |left| && left[i].segId == id;
        assert (left + placed)[i].segId == id;
      }
      if HasId(sorted, id) {
        var i :| 0 <= i < |sorted| && sorted[i].segId == id;
        assert (left + placed)[|left| + i].segId == id;
      }
      if HasId(left + placed, id) {
        var i :| 0 <= i < |left + placed| && (left + placed)[i].segId == id;
        if i >= |left| { assert sorted[i - |left|].segId == id; }
      }
    }
  }

  lemma PresentInMap(entries: seq<Entry>, picked: seq<Entry>)
    requires AllPresent(entries, picked) && forall i :: 0 <= i < |picked| ==> FromMap(entries, picked[i])
    ensures AllInMap(entries, picked)
  {
  }

  /** The new map: every segment once, the same intents, and unpicked entries where they were. */
  lemma IntentsKept(entries: seq<Entry>, picked: seq<Entry>)
    requires UniqueIds(entries) && UniqueIds(picked) && AllInMap(entries, picked) && Rewritten(entries, picked).Some?
    ensures multiset(IntentsOf(Rewritten(entries, picked).value)) == multiset(IntentsOf(entries))
    ensures forall e :: e in entries && !HasId(picked, e.segId) ==> e in Rewritten(entries, picked).value
    ensures forall e :: e in PlacedCalls(picked) ==> e in Rewritten(entries, picked).value
  {
    RewrittenShape(entries, picked);
    SizeCheck(entries, picked);
    IntentMultiset(entries, picked);
    forall e | e in entries && !HasId(picked, e.segId) ensures e in Unpicked(entries, picked) {
      StaysUnpicked(entries, picked, e);
    }
  }

  lemma IntentMultiset(entries: seq<Entry>, picked: seq<Entry>)
    requires multiset(entries) == multiset(Unpicked(entries, picked)) + multiset(picked)
    ensures multiset(IntentsOf(Unpicked(entries, picked) + PlacedCalls(picked))) == multiset(IntentsOf(entries))
  {
    var left := Unpicked(entries, picked);
    SameIntents(entries, left + picked);
    SortLength(picked);
    assert IntentsOf(PlacedCalls(picked)) == IntentsOf(picked);
    IntentsConcat(left, PlacedCalls(picked));
    IntentsConcat(left, picked);
  }

  lemma StaysUnpicked(entries: seq<Entry>, picked: seq<Entry>, e: Entry)
    requires e in entries && !HasId(picked, e.segId) && !SharedOutside(entries, picked)
    ensures e in Unpicked(entries, picked)
  {
    UnpickedMembers(entries, picked);
    var i :| 0 <= i < |entries| && entries[i] == e;
  }

  lemma NextUnique(entries: seq<Entry>, picked: seq<Entry>)
    requires UniqueIds(entries) && UniqueIds(picked) && forall i :: 0 <= i < |picked| ==> FromMap(entries, picked[i])
    ensures UniqueIds(Unpicked(entries, picked) + PlacedCalls(picked))
  {
    var left, sorted := Unpicked(entries, picked), SortById(picked);
    UnpickedUnique(entries, picked);
    SortedIds(picked);
    forall i, k | 0 <= i < |left| && 0 <= k < |sorted| ensures left[i].segId != sorted[k].segId {
      UnpickedApart(entries, picked, left[i]);
      assert HasId(sorted, sorted[k].segId);
    }
  }

  // ---- The calls in apply order ---------------------------------------------

  lemma {:induction false} NamedStrict(entries: seq<Entry>)
    requires Strict(entries)
    ensures Strict(NamedOnly(entries))
  {
    if entries != [] {
      var init, last := entries[..|entries| - 1], entries[|entries| - 1];
      assert forall i :: 0 <= i < |init| ==> init[i] == entries[i];
      NamedStrict(init);
      NamedMembers(init);
      forall e | e in NamedOnly(init) ensures e.segId < last.segId {
        var k :| 0 <= k < |init| && init[k] == e;
        assert entries[k].segId < last.segId;
      }
      StrictPush(NamedOnly(init), last);
    }
  }

  lemma {:induction false} NamedConcat(x: seq<Entry>, y: seq<Entry>)
    ensures NamedOnly(x + y) == NamedOnly(x) + NamedOnly(y)
  {
    if y == [] {
      assert x + y == x;
    } else {
      assert (x + y)[..|x + y| - 1] == x + y[..|y| - 1];
      NamedConcat(x, y[..|y| - 1]);
    }
  }

  /** Every contract call of the map is among the picked ones. */
  predicate AllCallsPicked(entries: seq<Entry>, picked: seq<Entry>) {
    forall i :: 0 <= i < |entries| && NameOf(entries[i].intent) != "" ==> HasIntent(picked, entries[i].intent)
  }

  lemma NoNamesLeft(entries: seq<Entry>, picked: seq<Entry>)
    requires AllCallsPicked(entries, picked)
    ensures NamedOnly(Unpicked(entries, picked)) == []
  {
    var left := Unpicked(entries, picked);
    NamedMembers(left);
    UnpickedMembers(entries, picked);
    forall e | e in left ensures NameOf(e.intent) == "" {
      var k :| 0 <= k < |entries| && entries[k] == e;
    }
    if NamedOnly(left) != [] {
      assert NamedOnly(left)[0] in NamedOnly(left);
    }
  }

  /** The ledger sees the picked calls in the order they were placed in. */
  lemma CallsInPlace(entries: seq<Entry>, picked: seq<Entry>)
    requires UniqueIds(entries) && UniqueIds(picked) && Rewritten(entries, picked).Some? && AllCallsPicked(entries, picked)
    requires forall i :: 0 <= i < |picked| ==> FromMap(entries, picked[i])
    ensures OrderedCalls(Rewritten(entries, picked).value) == NamedOnly(PlacedCalls(picked))
  {
    var left, placed := Unpicked(entries, picked), PlacedCalls(picked);
    RewrittenShape(entries, picked);
    NoNamesLeft(entries, picked);
    SortedIds(picked);
    assert Strict(placed);
    CallsBehind(left, placed);
  }

  lemma CallsBehind(left: seq<Entry>, placed: seq<Entry>)
    requires NamedOnly(left) == [] && Strict(placed)
    ensures OrderedCalls(left + placed) == NamedOnly(placed)
  {
    NamedConcat(left, placed);
    assert NamedOnly(left + placed) == NamedOnly(placed);
    NamedStrict(placed);
    SortSorted(NamedOnly(placed));
  }

  lemma {:induction false} NamedCausal(entries: seq<Entry>)
    requires Causal(entries)
    ensures Causal(NamedOnly(entries))
  {
    if entries != [] {
      var init, last := entries[..|entries| - 1], entries[|entries| - 1];
      assert forall i :: 0 <= i < |init| ==> init[i] == entries[i];
      NamedCausal(init);
      NamedMembers(init);
      var calls := NamedOnly(init);
      forall i | 0 <= i < |calls| && Fallible(calls[i].intent) ensures !Guaranteed(last.intent) {
        assert calls[i] in init;
        var k :| 0 <= k < |init| && init[k] == calls[i];
        assert Fallible(entries[k].intent);
      }
    }
  }

  // ---- Grouping by stage is enough ------------------------------------------

  /**
   * A fallible call comes before a guaranteed one only behind the prefix, and only if the later one has no fallible part:
   * then grouping puts the later one first.
   */
  predicate Groupable(picked: seq<Entry>, prefix: nat) {
    forall i, j :: 0 <= i < j < |picked| && Fallible(picked[i].intent) && Guaranteed(picked[j].intent) ==>
      i >= prefix && !Fallible(picked[j].intent)
  }

  /** The calls of one stage keep their order, so places among them go back to places before the grouping. */
  lemma {:induction false} StageIndices(entries: seq<Entry>, fallible: bool, p: nat, q: nat) returns (i: nat, j: nat)
    requires p < q < |WithStage(entries, fallible)|
    ensures i < j < |entries| && entries[i] == WithStage(entries, fallible)[p] && entries[j] == WithStage(entries, fallible)[q]
  {
    var init, n := entries[..|entries| - 1], |entries| - 1;
    var stage := WithStage(init, fallible);
    if q < |stage| {
      i, j := StageIndices(init, fallible, p, q);
    } else {
      i := StageIndex(init, fallible, p);
      j := n;
    }
  }

  lemma {:induction false} StageIndex(entries: seq<Entry>, fallible: bool, p: nat) returns (i: nat)
    requires p < |WithStage(entries, fallible)|
    ensures i < |entries| && entries[i] == WithStage(entries, fallible)[p]
  {
    var init := entries[..|entries| - 1];
    if p < |WithStage(init, fallible)| {
      i := StageIndex(init, fallible, p);
    } else {
      i := |init|;
    }
  }

  /** And places before it lead to places among the calls of the stage. */
  lemma {:induction false} StagePlace(entries: seq<Entry>, fallible: bool, i: nat) returns (p: nat)
    requires i < |entries| && Fallible(entries[i].intent) == fallible
    ensures p < |WithStage(entries, fallible)| && WithStage(entries, fallible)[p] == entries[i]
  {
    var init, n := entries[..|entries| - 1], |entries| - 1;
    if i < n {
      p := StagePlace(init, fallible, i);
    } else {
      p := |WithStage(init, fallible)|;
    }
  }

  lemma {:induction false} StagePlaces(entries: seq<Entry>, fallible: bool, i: nat, j: nat) returns (p: nat, q: nat)
    requires i < j < |entries| && Fallible(entries[i].intent) == Fallible(entries[j].intent) == fallible
    ensures p < q < |WithStage(entries, fallible)|
    ensures WithStage(entries, fallible)[p] == entries[i] && WithStage(entries, fallible)[q] == entries[j]
  {
    var init, n := entries[..|entries| - 1], |entries| - 1;
    if j < n {
      p, q := StagePlaces(init, fallible, i, j);
    } else {
      p := StagePlace(init, fallible, i);
      q := |WithStage(init, fallible)|;
    }
  }

  function Grouped(picked: seq<Entry>, prefix: nat): seq<Entry>
    requires prefix <= |picked|
  {
    picked[..prefix] + WithStage(picked[prefix..], false) + WithStage(picked[prefix..], true)
  }

  /** What is out of order after the grouping was so before, and grouping could not help. */
  lemma GroupedPair(picked: seq<Entry>, prefix: nat, p: nat, q: nat) returns (i: nat, j: nat)
    requires prefix <= |picked| && p < q < |Grouped(picked, prefix)|
    requires Fallible(Grouped(picked, prefix)[p].intent) && Guaranteed(Grouped(picked, prefix)[q].intent)
    ensures i < j < |picked| && Fallible(picked[i].intent) && Guaranteed(picked[j].intent)
    ensures i < prefix || Fallible(picked[j].intent)
  {
    var rest := picked[prefix..];
    var plain, fallible := WithStage(rest, false), WithStage(rest, true);
    StageOf(rest, false);
    StageOf(rest, true);
    var all, mid := Grouped(picked, prefix), prefix + |plain|;
    if p < prefix {
      i, j := p, q;
      if prefix <= q < mid {
        assert all[q] == plain[q - prefix];
        var k := StageIndex(rest, false, q - prefix);
        j := prefix + k;
      } else if q >= mid {
        assert all[q] == fallible[q - mid];
        var k := StageIndex(rest, true, q - mid);
        j := prefix + k;
      }
    } else {
      assert p >= mid;
      assert all[p] == fallible[p - mid] && all[q] == fallible[q - mid];
      var x, y := StageIndices(rest, true, p - mid, q - mid);
      i, j := prefix + x, prefix + y;
    }
  }

  /** And what grouping cannot help is out of order after it. */
  lemma PairGrouped(picked: seq<Entry>, prefix: nat, i: nat, j: nat) returns (p: nat, q: nat)
    requires prefix <= |picked| && i < j < |picked| && Fallible(picked[i].intent)
    requires i < prefix || Fallible(picked[j].intent)
    ensures p < q < |Grouped(picked, prefix)|
    ensures Grouped(picked, prefix)[p] == picked[i] && Grouped(picked, prefix)[q] == picked[j]
  {
    var rest := picked[prefix..];
    var plain, fallible := WithStage(rest, false), WithStage(rest, true);
    var all, mid := Grouped(picked, prefix), prefix + |plain|;
    if i >= prefix {
      var x, y := StagePlaces(rest, true, i - prefix, j - prefix);
      p, q := mid + x, mid + y;
      assert all[p] == fallible[x] && all[q] == fallible[y];
    } else {
      p, q := i, j;
      if j >= prefix {
        var stage := Fallible(picked[j].intent);
        var y := StagePlace(rest, stage, j - prefix);
        q := (if stage then mid else prefix) + y;
        assert all[q] == if stage then fallible[y] else plain[y];
      }
    }
  }

  /** Grouped calls are in order if and only if grouping moves every pair that was not. */
  lemma GroupedIsCausal(picked: seq<Entry>, opts: Options)
    requires opts.independentCalls
    ensures Causal(Arranged(picked, opts)) <==> Groupable(picked, PrefixLength(opts.orderedPrefix, |picked|))
  {
    var prefix := PrefixLength(opts.orderedPrefix, |picked|);
    var all := Grouped(picked, prefix);
    ArrangedIsPartition(picked, opts);
    if Groupable(picked, prefix) {
      forall p, q | 0 <= p < q < |all| && Fallible(all[p].intent) ensures !Guaranteed(all[q].intent) {
        if Guaranteed(all[q].intent) { var i, j := GroupedPair(picked, prefix, p, q); }
      }
    }
    if Causal(all) {
      forall i, j | 0 <= i < j < |picked| && Fallible(picked[i].intent) && Guaranteed(picked[j].intent)
        ensures i >= prefix && !Fallible(picked[j].intent)
      {
        if i < prefix || Fallible(picked[j].intent) { var p, q := PairGrouped(picked, prefix, i, j); }
      }
    }
  }

  /** A call with a fallible part before one with both parts: grouping leaves the two as they are; swapped, they are in order. */
  lemma BothPartsBehind()
    ensures var f, both := Entry(1, Intent(1, "a", false, true)), Entry(2, Intent(2, "b", true, true));
      !Causal(Arranged([f, both], Options(true, 0, None))) && Causal([both, f])
  {
    var f, both := Entry(1, Intent(1, "a", false, true)), Entry(2, Intent(2, "b", true, true));
    GroupedIsCausal([f, both], Options(true, 0, None));
    assert Fallible([f, both][0].intent) && Guaranteed([f, both][1].intent) && Fallible([f, both][1].intent);
  }
}
