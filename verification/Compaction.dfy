/**
 * Converting full contract states stored per action to digests, with the newest state of each contract kept apart.
 * Each step is one transaction; a crash may come between any two.
 */
module Compaction {
  import opened Wrappers

  datatype Full = Full(state: nat, zswap: Option<nat>)

  /** Hashes and sizes of a full state. */
  datatype Digest = DigestOf(full: Full)

  /** `order` is the place of the action among those of its block. Actions are kept by ascending id. */
  datatype Action = Action(address: Option<nat>, height: nat, order: nat, full: Option<Full>, digest: Option<Digest>)

  datatype Current = Current(height: nat, full: Full, action: nat)

  /** Contracts whose history is kept. */
  datatype Policy = Policy(all: bool, addresses: set<nat>)

  datatype Tables = Tables(actions: seq<Action>, current: map<nat, Current>)

  predicate Keeps(p: Policy, address: Option<nat>) {
    p.all || (address.Some? && address.value in p.addresses)
  }

  predicate Stateful(actions: seq<Action>, i: nat, a: nat) {
    i < |actions| && actions[i].full.Some? && actions[i].address == Some(a)
  }

  predicate Older(x: Action, y: Action) {
    x.height < y.height || (x.height == y.height && x.order <= y.order)
  }

  /** The newest action of a contract with a stored state, or the length of the table. */
  function Newest(actions: seq<Action>, a: nat): (i: nat)
    ensures i <= |actions| && (i < |actions| ==> Stateful(actions, i, a))
    ensures i == |actions| ==> forall k :: 0 <= k < |actions| ==> !Stateful(actions, k, a)
    ensures i < |actions| ==> forall k :: 0 <= k < |actions| && Stateful(actions, k, a) ==> actions[k].height <= actions[i].height
  {
    if actions == [] then 0 else
      var init, last := actions[..|actions| - 1], |actions| - 1;
      var i := Newest(init, a);
      assert forall k :: 0 <= k < last ==> (Stateful(actions, k, a) <==> Stateful(init, k, a)) && init[k] == actions[k];
      if !Stateful(actions, last, a) then (if i == last then |actions| else i)
      else if i < last && !Older(actions[i], actions[last]) then i
      else last
  }

  function CurrentOf(actions: seq<Action>, i: nat): Current
    requires i < |actions| && actions[i].full.Some?
  {
    Current(actions[i].height, actions[i].full.value, i)
  }

  /** The stored current state after the newest action was offered. A state from a later block stays. */
  function Upserted(existing: Option<Current>, offered: Option<Current>): Option<Current> {
    if offered.None? then existing
    else if existing.Some? && existing.value.height > offered.value.height then existing
    else offered
  }

  function CurrentAt(current: map<nat, Current>, a: nat): Option<Current> {
    if a in current then Some(current[a]) else None
  }

  function Offered(actions: seq<Action>, a: nat): Option<Current> {
    var i := Newest(actions, a);
    if i == |actions| then None else Some(CurrentOf(actions, i))
  }

  function Upsert(t: Tables, a: nat): Tables {
    var next := Upserted(CurrentAt(t.current, a), Offered(t.actions, a));
    if next.None? then t else t.(current := t.current[a := next.value])
  }

  function Compacted(x: Action, p: Policy): Action {
    if x.full.None? then x
    else x.(digest := Some(DigestOf(x.full.value)), full := if Keeps(p, x.address) then x.full else None)
  }

  /** One page of actions, from `low` up to `high`. */
  function CompactPage(t: Tables, p: Policy, low: nat, high: nat): Tables {
    t.(actions := seq(|t.actions|, i requires 0 <= i < |t.actions| =>
      if low <= i < high then Compacted(t.actions[i], p) else t.actions[i]))
  }

  // ---- Where it ends --------------------------------------------------------

  function Addresses(actions: seq<Action>): set<nat> {
    set i | 0 <= i < |actions| && actions[i].full.Some? && actions[i].address.Some? :: actions[i].address.value
  }

  /** The tables once everything is compacted. */
  function Final(t: Tables, p: Policy): Tables {
    Tables(CompactPage(t, p, 0, |t.actions|).actions,
           map a | a in t.current.Keys + Addresses(t.actions) && Upserted(CurrentAt(t.current, a), Offered(t.actions, a)).Some? ::
             Upserted(CurrentAt(t.current, a), Offered(t.actions, a)).value)
  }

  lemma FinalCurrent(t: Tables, p: Policy, a: nat)
    ensures CurrentAt(Final(t, p).current, a) == Upserted(CurrentAt(t.current, a), Offered(t.actions, a))
  {
    var i := Newest(t.actions, a);
    if i < |t.actions| { assert a in Addresses(t.actions); }
  }

  lemma SameCurrent(x: map<nat, Current>, y: map<nat, Current>)
    requires forall a: nat :: CurrentAt(x, a) == CurrentAt(y, a)
    ensures x == y
  {
    forall a: nat ensures a in x <==> a in y ensures a in x ==> x[a] == y[a] {
      assert CurrentAt(x, a) == CurrentAt(y, a);
    }
  }

  lemma UpsertKeepsFinal(t: Tables, p: Policy, a: nat)
    ensures Final(Upsert(t, a), p) == Final(t, p)
  {
    var after := Upsert(t, a);
    forall x: nat ensures CurrentAt(Final(after, p).current, x) == CurrentAt(Final(t, p).current, x) {
      FinalCurrent(t, p, x);
      FinalCurrent(after, p, x);
    }
    SameCurrent(Final(after, p).current, Final(t, p).current);
  }

  // ---- The newest state among those left ------------------------------------

  /** Actions by block, then by their place in it, then by id. */
  predicate Upto(actions: seq<Action>, k: nat, i: nat)
    requires k < |actions| && i < |actions|
  {
    var x, y := actions[k], actions[i];
    x.height < y.height || (x.height == y.height && (x.order < y.order || (x.order == y.order && k <= i)))
  }

  predicate IsNewest(actions: seq<Action>, a: nat, i: nat) {
    Stateful(actions, i, a) && forall k: nat :: k < |actions| && Stateful(actions, k, a) ==> Upto(actions, k, i)
  }

  lemma {:induction false} NewestIsNewest(actions: seq<Action>, a: nat)
    ensures Newest(actions, a) < |actions| ==> IsNewest(actions, a, Newest(actions, a))
  {
    if actions != [] {
      var init, last := actions[..|actions| - 1], |actions| - 1;
      NewestIsNewest(init, a);
      assert forall k: nat :: k < last ==> (Stateful(actions, k, a) <==> Stateful(init, k, a)) && init[k] == actions[k];
    }
  }

  lemma OnlyNewest(actions: seq<Action>, a: nat, i: nat)
    requires IsNewest(actions, a, i)
    ensures Newest(actions, a) == i
  {
    NewestIsNewest(actions, a);
    var n := Newest(actions, a);
    assert n < |actions| && Upto(actions, n, i) && Upto(actions, i, n);
  }

  /** As long as the newest state is left, it is the newest of those left. */
  lemma NewestLeft(t: Tables, p: Policy, low: nat, high: nat, a: nat)
    requires Newest(t.actions, a) < |t.actions|
    requires Stateful(CompactPage(t, p, low, high).actions, Newest(t.actions, a), a)
    ensures Newest(CompactPage(t, p, low, high).actions, a) == Newest(t.actions, a)
  {
    var after, n := CompactPage(t, p, low, high).actions, Newest(t.actions, a);
    NewestIsNewest(t.actions, a);
    forall k: nat | k < |after| && Stateful(after, k, a) ensures Upto(after, k, n) {
      assert Stateful(t.actions, k, a);
    }
    OnlyNewest(after, a, n);
  }

  // ---- What clearing a page loses -------------------------------------------

  /** Every contract's newest state was offered. */
  ghost predicate Settled(t: Tables) {
    forall a: nat :: Upserted(CurrentAt(t.current, a), Offered(t.actions, a)) == CurrentAt(t.current, a)
  }

  /** The page clears the newest state of the contract, and another state of the same block stays stored. */
  predicate LosesState(t: Tables, p: Policy, low: nat, high: nat, a: nat) {
    var n := Newest(t.actions, a);
    && n < |t.actions| && low <= n < high && !Keeps(p, Some(a))
    && a in t.current && t.current[a].height == t.actions[n].height
    && exists k: nat :: k < |t.actions| && Stateful(t.actions, k, a) && !(low <= k < high) && t.actions[k].height == t.actions[n].height
  }

  /** The current state a contract would end with, with the page cleared. */
  lemma CurrentAfterPage(t: Tables, p: Policy, low: nat, high: nat, a: nat)
    requires Upserted(CurrentAt(t.current, a), Offered(t.actions, a)) == CurrentAt(t.current, a)
    ensures Upserted(CurrentAt(t.current, a), Offered(CompactPage(t, p, low, high).actions, a)) == CurrentAt(t.current, a) <==>
      !LosesState(t, p, low, high, a)
  {
    var after, n := CompactPage(t, p, low, high).actions, Newest(t.actions, a);
    var m := Newest(after, a);
    assert forall k: nat :: k < |after| && Stateful(after, k, a) ==> Stateful(t.actions, k, a) && after[k].height == t.actions[k].height;
    if n < |t.actions| {
      if Stateful(after, n, a) {
        NewestLeft(t, p, low, high, a);
      } else {
        assert low <= n < high && !Keeps(p, Some(a));
        OthersLeft(t, p, low, high, a);
      }
    }
  }

  /** With the newest state cleared, the one offered next is of the same block if and only if such a state is left. */
  lemma OthersLeft(t: Tables, p: Policy, low: nat, high: nat, a: nat)
    requires Newest(t.actions, a) < |t.actions| && low <= Newest(t.actions, a) < high && !Keeps(p, Some(a))
    ensures var after, n := CompactPage(t, p, low, high).actions, Newest(t.actions, a);
      var m := Newest(after, a);
      && (m < |after| ==> m != n && Stateful(t.actions, m, a) && after[m].height == t.actions[m].height <= t.actions[n].height)
      && ((m < |after| && after[m].height == t.actions[n].height) <==>
           exists k: nat :: k < |t.actions| && Stateful(t.actions, k, a) && !(low <= k < high) && t.actions[k].height == t.actions[n].height)
  {
    var after, n := CompactPage(t, p, low, high).actions, Newest(t.actions, a);
    var m := Newest(after, a);
    if m < |after| { assert Stateful(t.actions, m, a) && !(low <= m < high); }
    if k: nat :| k < |t.actions| && Stateful(t.actions, k, a) && !(low <= k < high) && t.actions[k].height == t.actions[n].height {
      assert Stateful(after, k, a);
      assert m < |after| && after[k].height <= after[m].height;
    }
  }

  lemma PageKeepsActions(t: Tables, p: Policy, low: nat, high: nat)
    ensures Final(CompactPage(t, p, low, high), p).actions == Final(t, p).actions
  {
  }

  /**
   * Once every newest state was offered, clearing a page changes where compaction ends if and only if it clears the
   * newest state of a contract while another state of that block stays stored.
   */
  lemma PageKeepsFinal(t: Tables, p: Policy, low: nat, high: nat)
    requires Settled(t)
    ensures Final(CompactPage(t, p, low, high), p) == Final(t, p) <==> forall a: nat :: !LosesState(t, p, low, high, a)
  {
    var after := CompactPage(t, p, low, high);
    PageKeepsActions(t, p, low, high);
    forall a: nat
      ensures CurrentAt(Final(after, p).current, a) == CurrentAt(Final(t, p).current, a) <==> !LosesState(t, p, low, high, a)
    {
      FinalCurrent(t, p, a);
      FinalCurrent(after, p, a);
      CurrentAfterPage(t, p, low, high, a);
    }
    if forall a: nat :: !LosesState(t, p, low, high, a) {
      SameCurrent(Final(after, p).current, Final(t, p).current);
    }
  }

  predicate SameContract(x: Action, y: Action) {
    x.full.Some? && y.full.Some? && x.address.Some? && x.address == y.address
  }

  /** At most one action with a stored state per contract and block. */
  predicate OnePerBlock(actions: seq<Action>) {
    forall i, j :: 0 <= i < j < |actions| && SameContract(actions[i], actions[j]) ==> actions[i].height != actions[j].height
  }

  lemma OnePerBlockLosesNothing(t: Tables, p: Policy, low: nat, high: nat, a: nat)
    requires OnePerBlock(t.actions)
    ensures !LosesState(t, p, low, high, a)
  {
    var n := Newest(t.actions, a);
    if k: nat :| n < |t.actions| && k < |t.actions| && k != n && Stateful(t.actions, k, a) && t.actions[k].height == t.actions[n].height {
      assert SameContract(t.actions[k], t.actions[n]);
    }
  }

  /** Offered and compacted everywhere, nothing is left to do. */
  lemma DoneIsFinal(t: Tables, p: Policy, n: nat)
    requires Settled(t) && n <= |t.actions| && forall i :: n <= i < |t.actions| ==> t.actions[i].full.None?
    ensures CompactPage(t, p, 0, n) == Final(t, p)
  {
    forall a: nat ensures CurrentAt(Final(t, p).current, a) == CurrentAt(t.current, a) {
      FinalCurrent(t, p, a);
    }
    SameCurrent(Final(t, p).current, t.current);
    assert Final(t, p).actions == CompactPage(t, p, 0, n).actions;
  }

  /** What a finished compaction offers: the newest state of a contract whose history is kept, and nothing else. */
  lemma OfferedWhenDone(t: Tables, p: Policy, a: nat)
    ensures Offered(Final(t, p).actions, a) == if Keeps(p, Some(a)) then Offered(t.actions, a) else None
  {
    var done := Final(t, p).actions;
    assert done == CompactPage(t, p, 0, |t.actions|).actions;
    assert forall k: nat :: k < |done| ==> (Stateful(done, k, a) <==> Stateful(t.actions, k, a) && Keeps(p, Some(a)));
    var n := Newest(t.actions, a);
    if n < |t.actions| && Keeps(p, Some(a)) { NewestLeft(t, p, 0, |t.actions|, a); }
  }

  /**
   * Compacting twice is compacting once, and every state that was stored has its digest. The state itself is kept for
   * all contracts or for the ones watched, and removed otherwise; nothing else of an action changes.
   */
  lemma FinalIsFinal(t: Tables, p: Policy)
    ensures Final(Final(t, p), p) == Final(t, p)
    ensures |Final(t, p).actions| == |t.actions|
    ensures forall i :: 0 <= i < |t.actions| && t.actions[i].full.None? ==> Final(t, p).actions[i] == t.actions[i]
    ensures forall i :: 0 <= i < |t.actions| && t.actions[i].full.Some? ==>
      var x, now := t.actions[i], Final(t, p).actions[i];
      && now.address == x.address && now.height == x.height && now.order == x.order
      && now.digest == Some(DigestOf(x.full.value))
      && (p.all || (x.address.Some? && x.address.value in p.addresses) ==> now.full == x.full)
      && (!p.all && (x.address.Some? ==> x.address.value !in p.addresses) ==> now.full.None?)
  {
    var done := Final(t, p);
    forall a: nat ensures CurrentAt(Final(done, p).current, a) == CurrentAt(done.current, a) {
      FinalCurrent(t, p, a);
      FinalCurrent(done, p, a);
      OfferedWhenDone(t, p, a);
    }
    SameCurrent(Final(done, p).current, done.current);
    PageKeepsActions(t, p, 0, |t.actions|);
    assert Final(done, p).actions == done.actions;
  }

  /** `x` is not a newer state of the contract than `y`: by block, then by place in it, then by id. */
  predicate NotNewer(actions: seq<Action>, a: nat, k: nat, i: nat)
    requires k < |actions| && i < |actions|
  {
    var x, y := actions[k], actions[i];
    x.full.Some? && x.address == Some(a) ==>
      x.height < y.height || (x.height == y.height && (x.order < y.order || (x.order == y.order && k <= i)))
  }

  /** The current state comes from the newest action with a state, unless one of a later block is stored already. */
  predicate FromNewest(t: Tables, a: nat, i: nat, c: Current) {
    && i < |t.actions| && t.actions[i].full.Some? && t.actions[i].address == Some(a)
    && (forall k: nat :: k < |t.actions| ==> NotNewer(t.actions, a, k, i))
    && c.height == t.actions[i].height && c.full == t.actions[i].full.value && c.action == i
    && (a in t.current ==> t.current[a].height <= c.height)
  }

  lemma FinalIsNewest(t: Tables, p: Policy, a: nat)
    ensures var now := Final(t, p).current;
      if a !in now then
        a !in t.current && forall k :: 0 <= k < |t.actions| && t.actions[k].full.Some? ==> t.actions[k].address != Some(a)
      else
        || (exists i: nat :: FromNewest(t, a, i, now[a]))
        || (a in t.current && now[a] == t.current[a] &&
            forall k :: 0 <= k < |t.actions| && t.actions[k].full.Some? && t.actions[k].address == Some(a) ==>
              t.actions[k].height < now[a].height)
  {
    FinalCurrent(t, p, a);
    NewestIsNewest(t.actions, a);
    var n, now := Newest(t.actions, a), Final(t, p).current;
    assert forall k: nat :: k < |t.actions| ==>
      (Stateful(t.actions, k, a) <==> t.actions[k].full.Some? && t.actions[k].address == Some(a));
    if n < |t.actions| && a in now && now[a] == CurrentOf(t.actions, n) && (a in t.current ==> t.current[a].height <= now[a].height) {
      assert forall k: nat :: k < |t.actions| && Stateful(t.actions, k, a) ==> Upto(t.actions, k, n);
      assert FromNewest(t, a, n, now[a]);
    }
  }

  // ---- Two states of one block ----------------------------------------------

  /** Two actions of one contract in one block. A crash after the newer one was cleared lets the older one win. */
  lemma SameBlockLosesState()
    ensures var older, newer := Full(1, None), Full(2, None);
      var t := Tables([Action(Some(7), 3, 1, Some(newer), None), Action(Some(7), 3, 0, Some(older), None)], map[]);
      var crashed := CompactPage(Upsert(t, 7), Policy(false, {}), 0, 1);
      && CurrentAt(Final(t, Policy(false, {})).current, 7) == Some(Current(3, newer, 0))
      && CurrentAt(Final(crashed, Policy(false, {})).current, 7) == Some(Current(3, older, 1))
  {
    var p := Policy(false, {});
    var older, newer := Full(1, None), Full(2, None);
    var x, y := Action(Some(7), 3, 1, Some(newer), None), Action(Some(7), 3, 0, Some(older), None);
    var t := Tables([x, y], map[]);
    assert [x, y][..1] == [x] && [x][..0] == [];
    assert Newest([x], 7) == 0;
    assert Newest([x, y], 7) == 0;
    var up := Upsert(t, 7);
    assert up.current[7] == Current(3, newer, 0);
    var crashed := CompactPage(up, p, 0, 1);
    assert crashed.actions == [Compacted(x, p), y];
    assert [Compacted(x, p), y][..1] == [Compacted(x, p)];
    assert Newest(crashed.actions, 7) == 1;
    FinalCurrent(t, p, 7);
    FinalCurrent(crashed, p, 7);
  }

  // ---- The conversion as it runs --------------------------------------------

  class Store {
    var actions: seq<Action>
    var current: map<nat, Current>

    function State(): Tables
      reads this
    {
      Tables(actions, current)
    }

    constructor (actions: seq<Action>, current: map<nat, Current>)
      ensures State() == Tables(actions, current)
    {
      this.actions, this.current := actions, current;
    }

    method UpsertCurrentState(a: nat, offered: Current) returns (written: bool)
      modifies this`current
      ensures CurrentAt(current, a) == Upserted(CurrentAt(old(current), a), Some(offered))
      ensures forall x: nat :: x != a ==> CurrentAt(current, x) == CurrentAt(old(current), x)
      ensures written <==> !(a in old(current) && old(current)[a].height > offered.height)
    {
      if a in current && current[a].height > offered.height {
        return false;
      }
      current := current[a := offered];
      written := true;
    }

    /**
     * One run that may crash after `steps` transactions; `up` are the tables after its offers, and `cleared` is where
     * its pages stopped. A run that completes ends in the final form. Repeating one that stopped ends there too, if and
     * only if the pages took no newest state away from under another one of its block. It takes a transaction per
     * contract, and at most one per action.
     */
    method Compact(p: Policy, batchSize: nat, steps: nat) returns (completed: bool, ghost up: Tables, ghost cleared: nat)
      requires batchSize > 0
      modifies this
      ensures completed ==> State() == Final(old(State()), p)
      ensures steps >= |Addresses(old(actions))| + |old(actions)| ==> completed
      ensures up.actions == old(actions) && State() == CompactPage(up, p, 0, cleared)
      ensures Final(State(), p) == Final(old(State()), p) <==> forall a: nat :: !LosesState(up, p, 0, cleared, a)
      ensures OnePerBlock(old(actions)) ==> Final(State(), p) == Final(old(State()), p)
    {
      var left;
      completed, left := UpsertAll(p, steps);
      up, cleared := State(), 0;
      assert CompactPage(up, p, 0, 0) == up by { assert CompactPage(up, p, 0, 0).actions == up.actions; }
      if completed {
        completed, cleared := ClearPages(p, batchSize, left);
        PageKeepsFinal(up, p, 0, cleared);
      }
      if OnePerBlock(old(actions)) {
        forall a: nat ensures !LosesState(up, p, 0, cleared, a) { OnePerBlockLosesNothing(up, p, 0, cleared, a); }
      }
    }

    method OfferNewest(a: nat)
      requires a in Addresses(actions)
      modifies this`current
      ensures State() == Upsert(old(State()), a) && a in current
      ensures CurrentAt(current, a) == Upserted(CurrentAt(current, a), Offered(actions, a))
      ensures forall x: nat :: x != a ==> CurrentAt(current, x) == CurrentAt(old(current), x)
    {
      ghost var before := State();
      var newest := Newest(actions, a);
      ghost var i :| 0 <= i < |actions| && actions[i].full.Some? && actions[i].address == Some(a);
      assert Stateful(actions, i, a);
      var _ := UpsertCurrentState(a, CurrentOf(actions, newest));
      SameCurrent(current, Upsert(before, a).current);
    }

    method UpsertAll(ghost p: Policy, steps: nat) returns (completed: bool, left: nat)
      modifies this`current
      ensures Final(State(), p) == Final(old(State()), p)
      ensures completed ==> Settled(State())
      ensures steps >= |Addresses(actions)| ==> completed && left == steps - |Addresses(actions)|
    {
      var todo := Addresses(actions);
      left := steps;
      while todo != {}
        invariant Final(State(), p) == Final(old(State()), p)
        invariant todo <= Addresses(actions) && left + |Addresses(actions)| == steps + |todo|
        invariant forall a: nat :: a in Addresses(actions) - todo ==>
          a in current && CurrentAt(current, a) == Upserted(CurrentAt(current, a), Offered(actions, a))
        decreases todo
      {
        if left == 0 {
          return false, 0;
        }
        var a :| a in todo;
        UpsertKeepsFinal(State(), p, a);
        OfferNewest(a);
        todo, left := todo - {a}, left - 1;
      }
      completed := true;
      forall a: nat ensures Upserted(CurrentAt(current, a), Offered(actions, a)) == CurrentAt(current, a) {
        var n := Newest(actions, a);
        if n < |actions| { assert a in Addresses(actions); }
      }
    }

    /** Pages of actions that still hold a state, by ascending id, one transaction each. */
    method ClearPages(p: Policy, batchSize: nat, steps: nat) returns (completed: bool, ghost cleared: nat)
      requires batchSize > 0 && Settled(State())
      modifies this`actions
      ensures State() == CompactPage(old(State()), p, 0, cleared)
      ensures completed ==> State() == Final(old(State()), p)
      ensures steps >= |actions| ==> completed
    {
      ghost var up := State();
      var last, left := 0, steps;
      cleared := 0;
      assert CompactPage(up, p, 0, 0).actions == up.actions;
      while true
        invariant cleared == last <= |actions| && State() == CompactPage(up, p, 0, last) && left + last >= steps
        decreases |actions| - last
      {
        var end, found := NextPage(last, batchSize);
        if found == 0 {
          assert forall i :: last <= i < |up.actions| ==> CompactPage(up, p, 0, last).actions[i] == up.actions[i];
          DoneIsFinal(up, p, last);
          return true, cleared;
        }
        if left == 0 {
          return false, cleared;
        }
        assert CompactPage(State(), p, last, end).actions == CompactPage(up, p, 0, end).actions;
        actions := CompactPage(State(), p, last, end).actions;
        last, left, cleared := end, left - 1, end;
      }
    }

    /** The end of the next page: behind the last of `batchSize` stateful actions, or behind all that are left. */
    method NextPage(last: nat, batchSize: nat) returns (end: nat, found: nat)
      requires last <= |actions| && batchSize > 0
      ensures last <= end <= |actions| && found <= batchSize
      ensures found > 0 ==> end > last
      ensures found == 0 ==> forall i :: last <= i < |actions| ==> actions[i].full.None?
    {
      end, found := last, 0;
      while end < |actions| && found < batchSize
        invariant last <= end <= |actions| && found <= batchSize
        invariant found > 0 ==> end > last
        invariant found == 0 ==> forall i :: last <= i < end ==> actions[i].full.None?
      {
        if actions[end].full.Some? {
          found := found + 1;
        }
        end := end + 1;
      }
    }
  }
}
