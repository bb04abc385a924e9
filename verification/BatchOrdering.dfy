/** What reordering a batch keeps, and what it is for. */
module BatchOrdering {
  import opened Wrappers
  import opened BatchSegments

  // ---- Sorting with distinct segments ---------------------------------------

  predicate Strict(entries: seq<Entry>) {
    forall i, j :: 0 <= i < j < |entries| ==> entries[i].segId < entries[j].segId
  }

  lemma StrictPush(entries: seq<Entry>, last: Entry)
    requires Strict(entries) && forall x :: x in entries ==> x.segId < last.segId
    ensures Strict(entries + [last])
  {
    assert forall i :: 0 <= i < |entries| ==> entries[i] in entries;
  }

  lemma {:induction false} InsertStrict(sorted: seq<Entry>, e: Entry)
    requires Strict(sorted) && !HasId(sorted, e.segId)
    ensures Strict(InsertById(sorted, e))
    ensures forall x :: x in InsertById(sorted, e) <==> x in sorted || x == e
  {
    if sorted != [] && sorted[|sorted| - 1].segId > e.segId {
      var init, last := sorted[..|sorted| - 1], sorted[|sorted| - 1];
      assert forall i :: 0 <= i < |init| ==> init[i] == sorted[i];
      InsertStrict(init, e);
      assert sorted == init + [last];
      forall x | x in init ensures x.segId < last.segId {
        var k :| 0 <= k < |init| && init[k] == x;
        assert sorted[k] == x;
      }
      StrictPush(InsertById(init, e), last);
    } else if sorted != [] {
      assert sorted[|sorted| - 1].segId != e.segId;
    }
  }

  lemma {:induction false} SortStrict(entries: seq<Entry>)
    requires UniqueIds(entries)
    ensures Strict(SortById(entries))
  {
    if entries != [] {
      var init, last := entries[..|entries| - 1], entries[|entries| - 1];
      assert forall i :: 0 <= i < |init| ==> init[i] == entries[i];
      SortStrict(init);
      SortMembers(init);
      var sorted := SortById(init);
      forall i | 0 <= i < |sorted| ensures sorted[i].segId != last.segId {
        assert sorted[i] in init;
        var k :| 0 <= k < |init| && init[k] == sorted[i];
        assert entries[k].segId != last.segId;
      }
      InsertStrict(SortById(init), last);
    }
  }

  lemma {:induction false} SortSorted(entries: seq<Entry>)
    requires Strict(entries)
    ensures SortById(entries) == entries
  {
    if entries != [] {
      var init, last := entries[..|entries| - 1], entries[|entries| - 1];
      assert Strict(init);
      SortSorted(init);
      assert init != [] ==> init[|init| - 1].segId < last.segId;
      assert entries == init + [last];
    }
  }

  // ---- The picked intents ---------------------------------------------------

  /** An entry of the map, or a missing segment. */
  predicate FromMap(entries: seq<Entry>, e: Entry) {
    e in entries || (!HasId(entries, e.segId) && e.intent.Missing?)
  }

  predicate Picked(entries: seq<Entry>, circuits: seq<string>, picked: seq<Entry>) {
    && UniqueIds(picked) && NamesMatch(picked, circuits)
    && forall i :: 0 <= i < |picked| ==> FromMap(entries, picked[i])
  }

  predicate AllPresent(entries: seq<Entry>, picked: seq<Entry>) {
    forall i :: 0 <= i < |picked| ==> HasId(entries, picked[i].segId)
  }

  lemma {:induction false} GetFromMap(entries: seq<Entry>, id: int)
    ensures FromMap(entries, Entry(id, Get(entries, id)))
  {
    if entries != [] && entries[|entries| - 1].segId != id {
      var init := entries[..|entries| - 1];
      GetFromMap(init, id);
      assert forall i :: 0 <= i < |init| ==> init[i] == entries[i];
    }
  }

  predicate PickedFrom(entries: seq<Entry>, circuits: seq<string>, picked: seq<Entry>) {
    UniqueIds(picked) && NamesMatch(picked, circuits) && forall i :: 0 <= i < |picked| ==> picked[i] in entries
  }

  lemma WithoutOneEntry(entries: seq<Entry>, i: nat)
    requires UniqueIds(entries) && i < |entries|
    ensures var left := entries[..i] + entries[i + 1..];
      UniqueIds(left) && forall e :: e in left ==> e in entries && e.segId != entries[i].segId
  {
    var left := entries[..i] + entries[i + 1..];
    assert forall k :: 0 <= k < |left| ==> left[k] == entries[if k < i then k else k + 1];
  }

  lemma {:induction false} NamesArePicked(entries: seq<Entry>, circuits: seq<string>)
    requires UniqueIds(entries)
    ensures PickByName(entries, circuits).Some? ==> PickedFrom(entries, circuits, PickByName(entries, circuits).value)
  {
    if circuits != [] && PickByName(entries, circuits).Some? {
      var i := FirstNamed(entries, circuits[0]);
      var left := entries[..i] + entries[i + 1..];
      WithoutOneEntry(entries, i);
      NamesArePicked(left, circuits[1..]);
      PickedPush(entries, left, entries[i], circuits, PickByName(left, circuits[1..]).value);
    }
  }

  lemma PickedPush(entries: seq<Entry>, left: seq<Entry>, e: Entry, circuits: seq<string>, rest: seq<Entry>)
    requires circuits != [] && PickedFrom(left, circuits[1..], rest) && e in entries && NameOf(e.intent) == circuits[0]
    requires forall x :: x in left ==> x in entries && x.segId != e.segId
    ensures PickedFrom(entries, circuits, [e] + rest)
  {
    var picked := [e] + rest;
    assert forall i :: 0 < i < |picked| ==> picked[i] == rest[i - 1] && rest[i - 1] in left;
    assert forall i :: 0 < i < |picked| ==> circuits[i] == circuits[1..][i - 1];
  }

  lemma PickIsPicked(entries: seq<Entry>, circuits: seq<string>, segmentIds: Option<seq<int>>)
    requires UniqueIds(entries) && Pick(entries, circuits, segmentIds).Some?
    ensures Picked(entries, circuits, Pick(entries, circuits, segmentIds).value)
  {
    if PickBySegmentIds(entries, circuits, segmentIds).Some? {
      forall i | 0 <= i < |segmentIds.value| ensures FromMap(entries, PickByIds(entries, segmentIds.value)[i]) {
        GetFromMap(entries, segmentIds.value[i]);
      }
    } else {
      NamesArePicked(entries, circuits);
    }
  }

  /** A circuit with a name is never matched to a missing segment. */
  lemma NamedArePresent(entries: seq<Entry>, circuits: seq<string>, picked: seq<Entry>)
    requires Picked(entries, circuits, picked) && forall i :: 0 <= i < |circuits| ==> circuits[i] != ""
    ensures AllPresent(entries, picked)
  {
    forall i | 0 <= i < |picked| ensures HasId(entries, picked[i].segId) {
      assert FromMap(entries, picked[i]);
      assert !picked[i].intent.Missing?;
      var k :| 0 <= k < |entries| && entries[k] == picked[i];
    }
  }

  // ---- The grouping is a stable partition -----------------------------------

  function WithRank(ranked: seq<Ranked>, rank: nat): seq<Ranked> {
    if ranked == [] then [] else
      WithRank(ranked[..|ranked| - 1], rank) + if ranked[|ranked| - 1].rank == rank then [ranked[|ranked| - 1]] else []
  }

  function WithStage(entries: seq<Entry>, fallible: bool): seq<Entry> {
    if entries == [] then [] else
      WithStage(entries[..|entries| - 1], fallible) +
      if Fallible(entries[|entries| - 1].intent) == fallible then [entries[|entries| - 1]] else []
  }

  lemma {:induction false} InsertPast(front: seq<Ranked>, back: seq<Ranked>, x: Ranked)
    requires front == [] || !After(front[|front| - 1], x)
    requires forall i :: 0 <= i < |back| ==> After(back[i], x)
    ensures InsertByRank(front + back, x) == front + [x] + back
  {
    if back == [] {
      assert front + back == front;
    } else {
      assert (front + back)[..|front + back| - 1] == front + back[..|back| - 1];
      InsertPast(front, back[..|back| - 1], x);
    }
  }

  /** Positions in order, and ranks up to 2. */
  predicate Numbered(ranked: seq<Ranked>) {
    forall i :: 0 <= i < |ranked| ==> ranked[i].i == i && ranked[i].rank <= 2
  }

  lemma {:induction false} RankMembers(ranked: seq<Ranked>, rank: nat)
    requires Numbered(ranked)
    ensures OfRank(WithRank(ranked, rank), rank, |ranked|)
  {
    if ranked != [] {
      RankMembers(ranked[..|ranked| - 1], rank);
    }
  }

  function Groups(ranked: seq<Ranked>): seq<Ranked> {
    WithRank(ranked, 0) + WithRank(ranked, 1) + WithRank(ranked, 2)
  }

  lemma {:induction false} SortedByRank(ranked: seq<Ranked>)
    requires Numbered(ranked)
    ensures SortByRank(ranked) == Groups(ranked)
  {
    if ranked != [] {
      var init, x := ranked[..|ranked| - 1], ranked[|ranked| - 1];
      SortedByRank(init);
      PushIntoGroups(init, x);
      assert ranked == init + [x];
    }
  }

  lemma PushIntoGroups(init: seq<Ranked>, x: Ranked)
    requires Numbered(init + [x])
    ensures InsertByRank(Groups(init), x) == Groups(init + [x])
  {
    assert (init + [x])[..|init|] == init && (init + [x])[|init|] == x;
    assert Numbered(init) by { assert forall i :: 0 <= i < |init| ==> init[i] == (init + [x])[i]; }
    var zero, one, two := WithRank(init, 0), WithRank(init, 1), WithRank(init, 2);
    RankMembers(init, 0);
    RankMembers(init, 1);
    RankMembers(init, 2);
    var ranked := init + [x];
    assert forall rank :: WithRank(ranked, rank) == WithRank(init, rank) + if x.rank == rank then [x] else [];
    match x.rank {
      case 0 => InsertFirst(zero, one, two, x);
      case 1 => InsertSecond(zero, one, two, x);
      case _ => InsertThird(zero, one, two, x);
    }
  }

  predicate OfRank(ranked: seq<Ranked>, rank: nat, below: nat) {
    forall k :: 0 <= k < |ranked| ==> ranked[k].rank == rank && ranked[k].i < below
  }

  /** The newest number goes to the end of its group. */
  lemma InsertFirst(zero: seq<Ranked>, one: seq<Ranked>, two: seq<Ranked>, x: Ranked)
    requires OfRank(zero, 0, x.i) && OfRank(one, 1, x.i) && OfRank(two, 2, x.i) && x.rank == 0
    ensures InsertByRank(zero + one + two, x) == (zero + [x]) + one + two
  {
    InsertPast(zero, one + two, x);
    assert zero + one + two == zero + (one + two);
    assert zero + [x] + (one + two) == (zero + [x]) + one + two;
  }

  lemma InsertSecond(zero: seq<Ranked>, one: seq<Ranked>, two: seq<Ranked>, x: Ranked)
    requires OfRank(zero, 0, x.i) && OfRank(one, 1, x.i) && OfRank(two, 2, x.i) && x.rank == 1
    ensures InsertByRank(zero + one + two, x) == zero + (one + [x]) + two
  {
    InsertPast(zero + one, two, x);
    assert (zero + one) + [x] + two == zero + (one + [x]) + two;
  }

  lemma InsertThird(zero: seq<Ranked>, one: seq<Ranked>, two: seq<Ranked>, x: Ranked)
    requires OfRank(zero, 0, x.i) && OfRank(one, 1, x.i) && OfRank(two, 2, x.i) && x.rank == 2
    ensures InsertByRank(zero + one + two, x) == zero + one + (two + [x])
  {
    var all := zero + one + two;
    assert all != [] ==> !After(all[|all| - 1], x);
    assert all + [x] == zero + one + (two + [x]);
  }

  lemma EntriesPush(ranked: seq<Ranked>, x: Ranked)
    ensures EntriesOf(ranked + [x]) == EntriesOf(ranked) + [x.entry] && EntriesOf(ranked + []) == EntriesOf(ranked)
  {
    assert ranked + [] == ranked;
  }

  lemma {:induction false} RankPrefix(picked: seq<Entry>, prefix: nat, n: nat)
    requires prefix <= |picked| && n <= |picked|
    ensures EntriesOf(WithRank(RankAll(picked, prefix)[..n], 0)) == picked[..if n < prefix then n else prefix]
  {
    if n > 0 {
      RankPrefix(picked, prefix, n - 1);
      var ranked := RankAll(picked, prefix);
      assert ranked[..n][..n - 1] == ranked[..n - 1];
      EntriesPush(WithRank(ranked[..n - 1], 0), ranked[n - 1]);
    }
  }

  /** No call of the ordered prefix is ranked by its stage. */
  lemma {:induction false} RankNone(picked: seq<Entry>, prefix: nat, n: nat, rank: nat)
    requires n <= prefix <= |picked| && rank > 0
    ensures WithRank(RankAll(picked, prefix)[..n], rank) == []
  {
    if n > 0 {
      RankNone(picked, prefix, n - 1, rank);
      assert RankAll(picked, prefix)[..n][..n - 1] == RankAll(picked, prefix)[..n - 1];
    }
  }

  lemma {:induction false} RankStage(picked: seq<Entry>, prefix: nat, n: nat, fallible: bool)
    requires prefix <= n <= |picked|
    ensures EntriesOf(WithRank(RankAll(picked, prefix)[..n], if fallible then 2 else 1)) == WithStage(picked[prefix..n], fallible)
  {
    var rank := if fallible then 2 else 1;
    if n == prefix {
      RankNone(picked, prefix, n, rank);
    } else {
      RankStage(picked, prefix, n - 1, fallible);
      var ranked, x := RankAll(picked, prefix), RankAll(picked, prefix)[n - 1];
      assert ranked[..n][..n - 1] == ranked[..n - 1];
      assert x == Ranked(picked[n - 1], n - 1, if Fallible(picked[n - 1].intent) then 2 else 1);
      EntriesPush(WithRank(ranked[..n - 1], rank), x);
      assert picked[prefix..n][..n - prefix - 1] == picked[prefix..n - 1];
    }
  }

  /**
   * The first calls keep their places. Of the others, those without a fallible part come first, and both groups
   * keep their order.
   */
  lemma ArrangedIsPartition(picked: seq<Entry>, opts: Options)
    requires opts.independentCalls
    ensures var prefix := PrefixLength(opts.orderedPrefix, |picked|);
      Arranged(picked, opts) == picked[..prefix] + WithStage(picked[prefix..], false) + WithStage(picked[prefix..], true)
    ensures forall i :: 0 <= i < |picked| && i < opts.orderedPrefix ==> i < |Arranged(picked, opts)| && Arranged(picked, opts)[i] == picked[i]
  {
    var prefix := PrefixLength(opts.orderedPrefix, |picked|);
    var ranked := RankAll(picked, prefix);
    assert ranked[..|picked|] == ranked && picked[prefix..|picked|] == picked[prefix..];
    SortedByRank(ranked);
    RankPrefix(picked, prefix, |picked|);
    RankStage(picked, prefix, |picked|, false);
    RankStage(picked, prefix, |picked|, true);
    EntriesConcat(WithRank(ranked, 0), WithRank(ranked, 1), WithRank(ranked, 2));
  }

  lemma EntriesConcat(x: seq<Ranked>, y: seq<Ranked>, z: seq<Ranked>)
    ensures EntriesOf(x + y + z) == EntriesOf(x) + EntriesOf(y) + EntriesOf(z)
  {
  }

  lemma {:induction false} StageMultiset(entries: seq<Entry>)
    ensures multiset(WithStage(entries, false)) + multiset(WithStage(entries, true)) == multiset(entries)
    ensures |WithStage(entries, false)| + |WithStage(entries, true)| == |entries|
  {
    if entries != [] {
      var init, last := entries[..|entries| - 1], entries[|entries| - 1];
      StageMultiset(init);
      assert multiset(entries) == multiset(init) + multiset{last} by { assert entries == init + [last]; }
    }
  }

  lemma {:induction false} StageOf(entries: seq<Entry>, fallible: bool)
    ensures forall i :: 0 <= i < |WithStage(entries, fallible)| ==> Fallible(WithStage(entries, fallible)[i].intent) == fallible
  {
    if entries != [] {
      StageOf(entries[..|entries| - 1], fallible);
    }
  }

  lemma ThreeParts(front: seq<Entry>, y: seq<Entry>, z: seq<Entry>, rest: seq<Entry>)
    requires multiset(y) + multiset(z) == multiset(rest) && |y| + |z| == |rest|
    ensures multiset(front + y + z) == multiset(front + rest) && |front + y + z| == |front + rest|
  {
    assert multiset(front + y + z) == multiset(front) + multiset(y) + multiset(z);
  }

  lemma PartitionPermutes(picked: seq<Entry>, prefix: nat)
    requires prefix <= |picked|
    ensures var all := picked[..prefix] + WithStage(picked[prefix..], false) + WithStage(picked[prefix..], true);
      multiset(all) == multiset(picked) && |all| == |picked|
  {
    StageMultiset(picked[prefix..]);
    assert picked[..prefix] + picked[prefix..] == picked;
    ThreeParts(picked[..prefix], WithStage(picked[prefix..], false), WithStage(picked[prefix..], true), picked[prefix..]);
  }

  lemma ArrangedIsPermutation(picked: seq<Entry>, opts: Options)
    ensures multiset(Arranged(picked, opts)) == multiset(picked) && |Arranged(picked, opts)| == |picked|
  {
    if opts.independentCalls {
      ArrangedIsPartition(picked, opts);
      PartitionPermutes(picked, PrefixLength(opts.orderedPrefix, |picked|));
    }
  }

  // ---- Distinct entries -----------------------------------------------------

  lemma {:induction false} AtMostOnce(entries: seq<Entry>, e: Entry)
    requires UniqueIds(entries)
    ensures multiset(entries)[e] <= 1
  {
    if entries != [] {
      var init, last := entries[..|entries| - 1], entries[|entries| - 1];
      assert forall i :: 0 <= i < |init| ==> init[i] == entries[i];
      AtMostOnce(init, e);
      assert entries == init + [last];
      if e == last {
        assert e !in init;
        assert multiset(init)[e] == 0;
      }
    }
  }

  lemma {:induction false} OnceMeansUnique(entries: seq<Entry>, others: seq<Entry>)
    requires multiset(entries) == multiset(others) && UniqueIds(others)
    ensures UniqueIds(entries)
  {
    forall i, j | 0 <= i < j < |entries| ensures entries[i].segId != entries[j].segId {
      var x, y := entries[i], entries[j];
      assert x in multiset(others) && y in multiset(others);
      var k :| 0 <= k < |others| && others[k] == x;
      var m :| 0 <= m < |others| && others[m] == y;
      if x == y { Twice(entries, i, j); }
      AtMostOnce(others, x);
      assert k != m;
    }
  }

  lemma Twice(entries: seq<Entry>, i: nat, j: nat)
    requires i < j < |entries| && entries[i] == entries[j]
    ensures multiset(entries)[entries[i]] >= 2
  {
    var front, back := entries[..j], entries[j..];
    assert entries == front + back;
    assert front[i] in front && back[0] in back;
    assert multiset(front)[entries[i]] >= 1 && multiset(back)[entries[i]] >= 1;
  }
}
