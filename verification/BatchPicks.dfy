/** Which intents of a batch its calls are matched with. */
module BatchPicks {
  import opened Wrappers
  import opened BatchSegments
  import opened BatchOrdering
  import opened BatchStore

  /** The segment holds an intent of the name. A missing segment passes for one of the empty name. */
  predicate NamedAt(entries: seq<Entry>, id: int, name: string) {
    (exists e :: e in entries && e.segId == id && NameOf(e.intent) == name) || (name == "" && !HasId(entries, id))
  }

  /** One distinct segment per call, each with an intent of that call's name. */
  predicate IdsFit(entries: seq<Entry>, circuits: seq<string>, ids: seq<int>) {
    && |ids| == |circuits| && (forall i, j :: 0 <= i < j < |ids| ==> ids[i] != ids[j])
    && forall i :: 0 <= i < |ids| ==> NamedAt(entries, ids[i], circuits[i])
  }

  lemma {:induction false} GetFinds(entries: seq<Entry>, id: int)
    requires UniqueIds(entries)
    ensures forall i :: 0 <= i < |entries| && entries[i].segId == id ==> Get(entries, id) == entries[i].intent
    ensures !HasId(entries, id) ==> Get(entries, id) == Missing
  {
    if entries != [] && entries[|entries| - 1].segId != id {
      var init := entries[..|entries| - 1];
      assert forall i :: 0 <= i < |init| ==> init[i] == entries[i];
      GetFinds(init, id);
    }
  }

  lemma NamedAtGet(entries: seq<Entry>, id: int, name: string)
    requires UniqueIds(entries)
    ensures NamedAt(entries, id, name) <==> NameOf(Get(entries, id)) == name
  {
    GetFinds(entries, id);
    if HasId(entries, id) {
      var i :| 0 <= i < |entries| && entries[i].segId == id;
      assert entries[i] in entries;
    }
  }

  /** Build-time segments are taken exactly when they fit the calls; otherwise the calls are matched by name. */
  lemma PickedByIds(entries: seq<Entry>, circuits: seq<string>, segmentIds: Option<seq<int>>)
    requires UniqueIds(entries)
    ensures segmentIds.Some? && IdsFit(entries, circuits, segmentIds.value) ==>
      var picked := Pick(entries, circuits, segmentIds);
      && picked.Some? && |picked.value| == |circuits|
      && forall i :: 0 <= i < |circuits| ==> picked.value[i].segId == segmentIds.value[i] && FromMap(entries, picked.value[i])
    ensures segmentIds.None? || !IdsFit(entries, circuits, segmentIds.value) ==>
      Pick(entries, circuits, segmentIds) == PickByName(entries, circuits)
  {
    if segmentIds.Some? {
      var ids := segmentIds.value;
      var picked := PickByIds(entries, ids);
      forall i | 0 <= i < |ids| && i < |circuits|
        ensures NamedAt(entries, ids[i], circuits[i]) <==> NameOf(picked[i].intent) == circuits[i]
        ensures FromMap(entries, picked[i])
      {
        NamedAtGet(entries, ids[i], circuits[i]);
        GetFromMap(entries, ids[i]);
      }
      assert UniqueIds(picked) <==> forall i, j :: 0 <= i < j < |ids| ==> ids[i] != ids[j] by {
        assert forall i :: 0 <= i < |ids| ==> picked[i].segId == ids[i];
      }
    }
  }

  /** How many of the calls run the circuit. */
  function CallsOf(circuits: seq<string>, name: string): nat {
    if circuits == [] then 0 else (if circuits[0] == name then 1 else 0) + CallsOf(circuits[1..], name)
  }

  /** The pick of the `i`-th call: with `m` earlier calls of the circuit, the intent of its name at place `m`. */
  predicate NthOfName(entries: seq<Entry>, circuits: seq<string>, picked: seq<Entry>, i: nat)
    requires i < |circuits| && i < |picked|
  {
    var m := CallsOf(circuits[..i], circuits[i]);
    m < |Named(entries, circuits[i])| && picked[i] == Named(entries, circuits[i])[m]
  }

  /** No circuit is called more often than there are intents of its name. */
  ghost predicate Enough(entries: seq<Entry>, circuits: seq<string>) {
    forall name :: CallsOf(circuits, name) <= |Named(entries, name)|
  }

  ghost predicate PicksInOrder(entries: seq<Entry>, circuits: seq<string>, picked: seq<Entry>) {
    |picked| == |circuits| && forall i :: 0 <= i < |circuits| ==> NthOfName(entries, circuits, picked, i)
  }

  /**
   * Matching by name works exactly when no circuit is called more often than there are intents of its name, and gives
   * the calls of a circuit the intents of its name in map order.
   */
  lemma {:induction false} PickedByName(entries: seq<Entry>, circuits: seq<string>)
    ensures PickByName(entries, circuits).Some? <==> Enough(entries, circuits)
    ensures PickByName(entries, circuits).Some? ==> PicksInOrder(entries, circuits, PickByName(entries, circuits).value)
    decreases |circuits|
  {
    if circuits != [] {
      var f := FirstNamed(entries, circuits[0]);
      NoneLeft(entries, circuits[0]);
      if f == |entries| {
        assert CallsOf(circuits, circuits[0]) > |Named(entries, circuits[0])|;
      } else {
        var left, rest := WithoutFirst(entries, circuits[0]), circuits[1..];
        PickedByName(left, rest);
        PickStep(entries, circuits, f);
        EnoughLeft(entries, circuits);
        if PickByName(left, rest).Some? { OrderPush(entries, circuits, PickByName(left, rest).value); }
      }
    }
  }

  lemma EnoughLeft(entries: seq<Entry>, circuits: seq<string>)
    requires circuits != [] && FirstNamed(entries, circuits[0]) < |entries|
    ensures Enough(entries, circuits) <==> Enough(WithoutFirst(entries, circuits[0]), circuits[1..])
  {
    var left, rest := WithoutFirst(entries, circuits[0]), circuits[1..];
    forall name
      ensures CallsOf(circuits, name) <= |Named(entries, name)| <==> CallsOf(rest, name) <= |Named(left, name)|
    {
      TakeFirst(entries, circuits[0], name);
    }
  }

  lemma OrderPush(entries: seq<Entry>, circuits: seq<string>, picks: seq<Entry>)
    requires circuits != [] && FirstNamed(entries, circuits[0]) < |entries|
    requires PicksInOrder(WithoutFirst(entries, circuits[0]), circuits[1..], picks)
    ensures PicksInOrder(entries, circuits, [entries[FirstNamed(entries, circuits[0])]] + picks)
  {
    forall i | 0 <= i < |circuits| ensures NthOfName(entries, circuits, [entries[FirstNamed(entries, circuits[0])]] + picks, i) {
      if i == 0 {
        TakeFirst(entries, circuits[0], circuits[0]);
      } else {
        LaterPick(entries, circuits, picks, i);
      }
    }
  }

  lemma LaterPick(entries: seq<Entry>, circuits: seq<string>, picks: seq<Entry>, i: nat)
    requires 0 < i < |circuits| == |picks| + 1 && FirstNamed(entries, circuits[0]) < |entries|
    requires NthOfName(WithoutFirst(entries, circuits[0]), circuits[1..], picks, i - 1)
    ensures NthOfName(entries, circuits, [entries[FirstNamed(entries, circuits[0])]] + picks, i)
  {
    var first := entries[FirstNamed(entries, circuits[0])];
    var m := CallsOf(circuits[1..][..i - 1], circuits[1..][i - 1]);
    EarlierCalls(circuits, i);
    TakeFirst(entries, circuits[0], circuits[i]);
    MovedUp(Named(entries, circuits[i]), Named(WithoutFirst(entries, circuits[0]), circuits[i]), first, circuits[0] == circuits[i], m);
  }

  lemma EarlierCalls(circuits: seq<string>, i: nat)
    requires 0 < i < |circuits|
    ensures CallsOf(circuits[..i], circuits[i]) == (if circuits[0] == circuits[i] then 1 else 0) + CallsOf(circuits[1..][..i - 1], circuits[i])
  {
    assert circuits[..i][1..] == circuits[1..][..i - 1];
  }

  /** Taking the first of a name moves the others of that name up by one. */
  lemma MovedUp(named: seq<Entry>, left: seq<Entry>, first: Entry, same: bool, m: nat)
    requires named == (if same then [first] else []) + left && m < |left|
    ensures named[(if same then 1 else 0) + m] == left[m]
  {
  }
}
