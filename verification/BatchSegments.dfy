/**
 * The calls of a batch and the segments they run in. The ledger applies the guaranteed parts of all calls by
 * ascending segment, and then all fallible parts.
 */
module BatchSegments {
  import opened Wrappers

  /**
   * What the map holds under a segment. `object` tells objects apart, so equal intents are one shared object. An
   * intent without a contract call has an empty name.
   */
  datatype Intent = Missing | Intent(object: nat, name: string, guaranteed: bool, fallible: bool)

  datatype Entry = Entry(segId: int, intent: Intent)

  function NameOf(intent: Intent): string {
    if intent.Missing? then "" else intent.name
  }

  predicate Guaranteed(intent: Intent) {
    intent.Intent? && intent.guaranteed
  }

  predicate Fallible(intent: Intent) {
    intent.Intent? && intent.fallible
  }

  datatype Options = Options(independentCalls: bool, orderedPrefix: int, segmentIds: Option<seq<int>>)

  predicate UniqueIds(entries: seq<Entry>) {
    forall i, j :: 0 <= i < j < |entries| ==> entries[i].segId != entries[j].segId
  }

  predicate HasId(entries: seq<Entry>, id: int) {
    exists i :: 0 <= i < |entries| && entries[i].segId == id
  }

  predicate HasIntent(entries: seq<Entry>, intent: Intent) {
    exists i :: 0 <= i < |entries| && entries[i].intent == intent
  }

  // ---- Sorting --------------------------------------------------------------

  function InsertById(sorted: seq<Entry>, e: Entry): seq<Entry> {
    if sorted == [] || sorted[|sorted| - 1].segId <= e.segId then sorted + [e]
    else InsertById(sorted[..|sorted| - 1], e) + [sorted[|sorted| - 1]]
  }

  /** By ascending segment, stable. */
  function SortById(entries: seq<Entry>): seq<Entry> {
    if entries == [] then [] else InsertById(SortById(entries[..|entries| - 1]), entries[|entries| - 1])
  }

  lemma {:induction false} InsertAdds(sorted: seq<Entry>, e: Entry)
    ensures multiset(InsertById(sorted, e)) == multiset(sorted) + multiset{e}
    ensures |InsertById(sorted, e)| == |sorted| + 1
  {
    if sorted != [] && sorted[|sorted| - 1].segId > e.segId {
      InsertAdds(sorted[..|sorted| - 1], e);
      assert sorted == sorted[..|sorted| - 1] + [sorted[|sorted| - 1]];
    }
  }

  lemma {:induction false} SortKeeps(entries: seq<Entry>)
    ensures multiset(SortById(entries)) == multiset(entries)
    ensures |SortById(entries)| == |entries|
  {
    if entries != [] {
      SortKeeps(entries[..|entries| - 1]);
      InsertAdds(SortById(entries[..|entries| - 1]), entries[|entries| - 1]);
      assert entries == entries[..|entries| - 1] + [entries[|entries| - 1]];
    }
  }

  lemma SortMembers(entries: seq<Entry>)
    ensures forall e :: e in SortById(entries) <==> e in entries
  {
    SortKeeps(entries);
    forall e ensures e in SortById(entries) <==> e in entries {
      assert e in SortById(entries) <==> e in multiset(SortById(entries));
      assert e in entries <==> e in multiset(entries);
    }
  }

  // ---- Calls and stages -----------------------------------------------------

  /** Contract calls only; fee and dust parts have no name. */
  function NamedOnly(entries: seq<Entry>): seq<Entry> {
    if entries == [] then [] else
      NamedOnly(entries[..|entries| - 1]) +
      if NameOf(entries[|entries| - 1].intent) == "" then [] else [entries[|entries| - 1]]
  }

  lemma {:induction false} NamedMembers(entries: seq<Entry>)
    ensures forall e :: e in NamedOnly(entries) <==> e in entries && NameOf(e.intent) != ""
  {
    if entries != [] {
      NamedMembers(entries[..|entries| - 1]);
      assert entries == entries[..|entries| - 1] + [entries[|entries| - 1]];
    }
  }

  /** Contract calls in apply order. */
  function OrderedCalls(entries: seq<Entry>): seq<Entry> {
    SortById(NamedOnly(entries))
  }

  datatype Stage = Guarantee(segId: int) | Fallback(segId: int)

  function StagesOf(e: Entry): seq<Stage> {
    (if Guaranteed(e.intent) then [Guarantee(e.segId)] else []) + (if Fallible(e.intent) then [Fallback(e.segId)] else [])
  }

  /** Each call runs to its end before the next one. */
  function InOrderStages(calls: seq<Entry>): seq<Stage> {
    if calls == [] then [] else InOrderStages(calls[..|calls| - 1]) + StagesOf(calls[|calls| - 1])
  }

  function GuaranteedStages(calls: seq<Entry>): seq<Stage> {
    if calls == [] then [] else
      GuaranteedStages(calls[..|calls| - 1]) +
      if Guaranteed(calls[|calls| - 1].intent) then [Guarantee(calls[|calls| - 1].segId)] else []
  }

  function FallibleStages(calls: seq<Entry>): seq<Stage> {
    if calls == [] then [] else
      FallibleStages(calls[..|calls| - 1]) +
      if Fallible(calls[|calls| - 1].intent) then [Fallback(calls[|calls| - 1].segId)] else []
  }

  /** What the ledger runs. */
  function LedgerStages(calls: seq<Entry>): seq<Stage> {
    GuaranteedStages(calls) + FallibleStages(calls)
  }

  predicate Causal(calls: seq<Entry>) {
    forall i, j :: 0 <= i < j < |calls| && Fallible(calls[i].intent) ==> !Guaranteed(calls[j].intent)
  }

  /** The ledger's guaranteed and fallible stages, whichever calls they come from. */
  lemma {:induction false} StageKinds(calls: seq<Entry>)
    ensures forall k :: 0 <= k < |GuaranteedStages(calls)| ==> GuaranteedStages(calls)[k].Guarantee?
    ensures forall k :: 0 <= k < |FallibleStages(calls)| ==> FallibleStages(calls)[k].Fallback?
    ensures |FallibleStages(calls)| > 0 <==> exists i :: 0 <= i < |calls| && Fallible(calls[i].intent)
  {
    if calls != [] {
      var init := calls[..|calls| - 1];
      StageKinds(init);
      assert forall i :: 0 <= i < |init| ==> init[i] == calls[i];
    }
  }

  lemma {:induction false} CausalRunsInOrder(calls: seq<Entry>)
    requires Causal(calls)
    ensures LedgerStages(calls) == InOrderStages(calls)
  {
    if calls != [] {
      var init, last := calls[..|calls| - 1], calls[|calls| - 1];
      assert forall i :: 0 <= i < |init| ==> init[i] == calls[i];
      CausalRunsInOrder(init);
      var g := if Guaranteed(last.intent) then [Guarantee(last.segId)] else [];
      var f := if Fallible(last.intent) then [Fallback(last.segId)] else [];
      StageKinds(init);
      assert g == [] || FallibleStages(init) == [];
      SwapEmpty(GuaranteedStages(init), FallibleStages(init), g, f);
    }
  }

  lemma SwapEmpty(x: seq<Stage>, y: seq<Stage>, g: seq<Stage>, f: seq<Stage>)
    requires g == [] || y == []
    ensures (x + g) + (y + f) == (x + y) + (g + f)
  {
  }

  /** Every call's stages lie among the stages in order, after those of earlier calls. */
  lemma {:induction false} StagePositions(calls: seq<Entry>, i: nat, j: nat) returns (p: nat, q: nat)
    requires i < j < |calls| && Fallible(calls[i].intent) && Guaranteed(calls[j].intent)
    ensures p < q < |InOrderStages(calls)|
    ensures InOrderStages(calls)[p].Fallback? && InOrderStages(calls)[q].Guarantee?
  {
    var init := calls[..|calls| - 1];
    if j < |init| {
      p, q := StagePositions(init, i, j);
    } else {
      p := StagePosition(init, i);
      q := |InOrderStages(init)|;
    }
  }

  lemma {:induction false} StagePosition(calls: seq<Entry>, i: nat) returns (p: nat)
    requires i < |calls| && Fallible(calls[i].intent)
    ensures p < |InOrderStages(calls)| && InOrderStages(calls)[p].Fallback?
  {
    var init := calls[..|calls| - 1];
    if i < |init| {
      p := StagePosition(init, i);
    } else {
      p := |InOrderStages(calls)| - 1;
    }
  }

  lemma LedgerShape(calls: seq<Entry>)
    ensures forall p, q :: 0 <= p < q < |LedgerStages(calls)| && LedgerStages(calls)[p].Fallback? ==> LedgerStages(calls)[q].Fallback?
  {
    StageKinds(calls);
  }

  /** The ledger runs the stages as the calls in order would, if and only if the order is causal. */
  lemma LedgerRunsInOrder(calls: seq<Entry>)
    ensures LedgerStages(calls) == InOrderStages(calls) <==> Causal(calls)
  {
    if Causal(calls) {
      CausalRunsInOrder(calls);
    } else {
      var i, j :| 0 <= i < j < |calls| && Fallible(calls[i].intent) && Guaranteed(calls[j].intent);
      var p, q := StagePositions(calls, i, j);
      LedgerShape(calls);
    }
  }

  datatype Violation = Violation(earlier: Entry, later: Entry)

  predicate Clashes(calls: seq<Entry>, i: nat, j: nat) {
    i < j < |calls| && Fallible(calls[i].intent) && Guaranteed(calls[j].intent)
  }

  /** The first fallible call with a guaranteed one behind it, and the first such one. */
  predicate FirstClash(calls: seq<Entry>, i: nat, j: nat) {
    && Clashes(calls, i, j)
    && (forall k :: i < k < j ==> !Clashes(calls, i, k))
    && (forall h, k :: 0 <= h < i && h < k < |calls| ==> !Clashes(calls, h, k))
  }

  /** Nothing, if and only if the ledger runs the calls as they stand in order. */
  method FindCausalityViolation(entries: seq<Entry>) returns (violation: Option<Violation>)
    ensures violation.None? <==> LedgerStages(OrderedCalls(entries)) == InOrderStages(OrderedCalls(entries))
    ensures violation.Some? ==> exists i: nat, j: nat ::
      (FirstClash(OrderedCalls(entries), i, j)
       && violation.value == Violation(OrderedCalls(entries)[i], OrderedCalls(entries)[j]))
  {
    var calls := OrderedCalls(entries);
    LedgerRunsInOrder(calls);
    for i := 0 to |calls|
      invariant forall h, k :: 0 <= h < i && h < k < |calls| ==> !Clashes(calls, h, k)
    {
      var j := if Fallible(calls[i].intent) then FirstGuaranteed(calls, i + 1) else |calls|;
      if j < |calls| {
        ClashIsFirst(calls, i, j);
        return Some(Violation(calls[i], calls[j]));
      }
    }
    violation := None;
    NoClashIsCausal(calls);
  }

  lemma ClashIsFirst(calls: seq<Entry>, i: nat, j: nat)
    requires i < j < |calls| && Fallible(calls[i].intent) && Guaranteed(calls[j].intent)
    requires forall k :: i + 1 <= k < j ==> !Guaranteed(calls[k].intent)
    requires forall h, k :: 0 <= h < i && h < k < |calls| ==> !Clashes(calls, h, k)
    ensures FirstClash(calls, i, j) && !Causal(calls)
  {
  }

  lemma NoClashIsCausal(calls: seq<Entry>)
    requires forall h, k :: 0 <= h < |calls| && h < k < |calls| ==> !Clashes(calls, h, k)
    ensures Causal(calls)
  {
    forall i, j | 0 <= i < j < |calls| && Fallible(calls[i].intent) ensures !Guaranteed(calls[j].intent) {
      assert !Clashes(calls, i, j);
    }
  }

  function FirstGuaranteed(calls: seq<Entry>, from: nat): (j: nat)
    requires from <= |calls|
    ensures from <= j <= |calls| && (j < |calls| ==> Guaranteed(calls[j].intent))
    ensures forall k :: from <= k < j ==> !Guaranteed(calls[k].intent)
    decreases |calls| - from
  {
    if from == |calls| || Guaranteed(calls[from].intent) then from else FirstGuaranteed(calls, from + 1)
  }

  // ---- Choosing the intents -------------------------------------------------

  /** The intent of a segment, or nothing. */
  function Get(entries: seq<Entry>, id: int): Intent {
    if entries == [] then Missing
    else if entries[|entries| - 1].segId == id then entries[|entries| - 1].intent
    else Get(entries[..|entries| - 1], id)
  }

  function PickByIds(entries: seq<Entry>, ids: seq<int>): (picked: seq<Entry>)
    ensures |picked| == |ids| && forall i :: 0 <= i < |ids| ==> picked[i] == Entry(ids[i], Get(entries, ids[i]))
  {
    seq(|ids|, i requires 0 <= i < |ids| => Entry(ids[i], Get(entries, ids[i])))
  }

  predicate NamesMatch(picked: seq<Entry>, circuits: seq<string>) {
    |picked| == |circuits| && forall i :: 0 <= i < |circuits| ==> NameOf(picked[i].intent) == circuits[i]
  }

  /** The intents in call order, matched by build-time segment id, or nothing when the ids do not fit the calls. */
  function PickBySegmentIds(entries: seq<Entry>, circuits: seq<string>, segmentIds: Option<seq<int>>): Option<seq<Entry>> {
    if segmentIds.None? then None else
      var picked := PickByIds(entries, segmentIds.value);
      if UniqueIds(picked) && NamesMatch(picked, circuits) then Some(picked) else None
  }

  function FirstNamed(entries: seq<Entry>, name: string): (i: nat)
    ensures i <= |entries|
    ensures i < |entries| ==> NameOf(entries[i].intent) == name
    ensures forall k :: 0 <= k < i ==> NameOf(entries[k].intent) != name
  {
    if entries == [] || NameOf(entries[0].intent) == name then 0 else
      var i := FirstNamed(entries[1..], name);
      assert forall k :: 0 < k <= i ==> k - 1 < |entries[1..]| ==> entries[k] == entries[1..][k - 1];
      i + 1
  }

  /** Each circuit takes the first intent of its name that is still free. */
  function PickByName(entries: seq<Entry>, circuits: seq<string>): Option<seq<Entry>> {
    if circuits == [] then Some([]) else
      var i := FirstNamed(entries, circuits[0]);
      if i == |entries| then None else
        match PickByName(entries[..i] + entries[i + 1..], circuits[1..])
        case None => None
        case Some(rest) => Some([entries[i]] + rest)
  }

  function Pick(entries: seq<Entry>, circuits: seq<string>, segmentIds: Option<seq<int>>): Option<seq<Entry>> {
    var byIds := PickBySegmentIds(entries, circuits, segmentIds);
    if byIds.Some? then byIds else PickByName(entries, circuits)
  }

  // ---- Grouping by stage ----------------------------------------------------

  datatype Ranked = Ranked(entry: Entry, i: nat, rank: nat)

  function RankOf(picked: seq<Entry>, prefix: nat, i: nat): nat
    requires i < |picked|
  {
    if i < prefix then 0 else if Fallible(picked[i].intent) then 2 else 1
  }

  function RankAll(picked: seq<Entry>, prefix: nat): (ranked: seq<Ranked>)
    ensures |ranked| == |picked|
  {
    seq(|picked|, i requires 0 <= i < |picked| => Ranked(picked[i], i, RankOf(picked, prefix, i)))
  }

  predicate After(x: Ranked, y: Ranked) {
    x.rank > y.rank || (x.rank == y.rank && x.i > y.i)
  }

  function InsertByRank(sorted: seq<Ranked>, x: Ranked): seq<Ranked> {
    if sorted == [] || !After(sorted[|sorted| - 1], x) then sorted + [x]
    else InsertByRank(sorted[..|sorted| - 1], x) + [sorted[|sorted| - 1]]
  }

  function SortByRank(ranked: seq<Ranked>): seq<Ranked> {
    if ranked == [] then [] else InsertByRank(SortByRank(ranked[..|ranked| - 1]), ranked[|ranked| - 1])
  }

  function EntriesOf(ranked: seq<Ranked>): (entries: seq<Entry>)
    ensures |entries| == |ranked| && forall i :: 0 <= i < |ranked| ==> entries[i] == ranked[i].entry
  {
    seq(|ranked|, i requires 0 <= i < |ranked| => ranked[i].entry)
  }

  function PrefixLength(orderedPrefix: int, n: nat): (prefix: nat)
    ensures prefix <= n
    ensures 0 <= orderedPrefix <= n ==> prefix == orderedPrefix
    ensures orderedPrefix > n ==> prefix == n
  {
    var capped := if orderedPrefix < n then orderedPrefix else n;
    if capped < 0 then 0 else capped
  }

  function Arranged(picked: seq<Entry>, opts: Options): seq<Entry> {
    if !opts.independentCalls then picked
    else EntriesOf(SortByRank(RankAll(picked, PrefixLength(opts.orderedPrefix, |picked|))))
  }

  // ---- Placing the calls ----------------------------------------------------

  /** The entries whose intent object was not picked. */
  function Unpicked(entries: seq<Entry>, picked: seq<Entry>): seq<Entry> {
    if entries == [] then [] else
      Unpicked(entries[..|entries| - 1], picked) +
      if HasIntent(picked, entries[|entries| - 1].intent) then [] else [entries[|entries| - 1]]
  }

  function IndexOf(entries: seq<Entry>, id: int): (i: nat)
    ensures i <= |entries| && (i < |entries| <==> HasId(entries, id))
    ensures i < |entries| ==> entries[i].segId == id
  {
    if entries == [] then 0
    else if entries[|entries| - 1].segId == id then |entries| - 1
    else
      var i := IndexOf(entries[..|entries| - 1], id);
      if i == |entries| - 1 then |entries| else i
  }

  /** A map keeps the place of a key it has. */
  function Put(entries: seq<Entry>, e: Entry): seq<Entry> {
    var i := IndexOf(entries, e.segId);
    if i < |entries| then entries[i := e] else entries + [e]
  }

  /** The first `n` calls on the ascending picked segments. */
  function Place(next: seq<Entry>, sorted: seq<Entry>, picked: seq<Entry>, n: nat): seq<Entry>
    requires n <= |sorted| == |picked|
  {
    if n == 0 then next else Put(Place(next, sorted, picked, n - 1), Entry(sorted[n - 1].segId, picked[n - 1].intent))
  }

  /** The new intents, or nothing when the calls do not fit. */
  function Reordered(entries: seq<Entry>, circuits: seq<string>, opts: Options): Option<seq<Entry>> {
    if |circuits| < 2 || |entries| < 2 then None else
      var found := Pick(entries, circuits, opts.segmentIds);
      if found.None? then None else Rewritten(entries, Arranged(found.value, opts))
  }

  function Rewritten(entries: seq<Entry>, picked: seq<Entry>): Option<seq<Entry>> {
    SortLength(picked);
    var next := Place(Unpicked(entries, picked), SortById(picked), picked, |picked|);
    if |next| != |entries| then None else Some(next)
  }

  lemma SortLength(entries: seq<Entry>)
    ensures |SortById(entries)| == |entries|
  {
    SortKeeps(entries);
  }
}
