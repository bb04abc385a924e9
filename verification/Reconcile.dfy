/** Comparing stored balance rows with recomputed figures, page by page over two address sources. */
module Reconcile {
  import opened Wrappers
  import opened IndexTables
  import opened IndexRuns

  // ---- One address ----------------------------------------------------------

  predicate ZeroFigures(f: Figures) {
    f.counters == ZERO && (f.firstSeen.None? || f.firstSeen.value == 0) && (f.lastActivity.None? || f.lastActivity.value == 0)
  }

  /** What the report leaves alone. Without activity, a row of zeroes is right whether or not it is registered for dust. */
  predicate DriftFree(row: Option<BalanceRow>, computed: Option<Figures>) {
    match (row, computed)
    case (None, None) => true
    case (Some(r), Some(f)) => r.figures == f
    case (Some(r), None) => ZeroFigures(r.figures)
    case (None, Some(_)) => false
  }

  /**
   * The report is silent on an address exactly when its row and its activity agree in all eight figures, or when there
   * is no activity and the row, if there is one, has nothing but zeroes.
   */
  lemma DriftOrMatch(row: Option<BalanceRow>, computed: Option<Figures>)
    ensures DriftFree(row, computed) <==>
      if computed.Some? then row.Some? && row.value.figures == computed.value
      else row.Some? ==>
        var f := row.value.figures;
        && f.counters == Counters(0, 0, 0, 0, 0, 0)
        && f.firstSeen in {None, Some(0)} && f.lastActivity in {None, Some(0)}
    ensures Matches(row, computed) ==> DriftFree(row, computed)
  {
  }

  // ---- Pages ----------------------------------------------------------------

  /** Addresses are ordered as their text is. */
  predicate Ordered(s: seq<nat>) {
    forall i, j :: 0 <= i < j < |s| ==> s[i] < s[j]
  }

  function Above(s: seq<nat>, after: int): seq<nat> {
    if s == [] then [] else if s[0] > after then s else Above(s[1..], after)
  }

  /** The union of two ordered lists, ordered. */
  function Merge(x: seq<nat>, y: seq<nat>): seq<nat>
    decreases |x| + |y|
  {
    if x == [] then y
    else if y == [] then x
    else if x[0] == y[0] then [x[0]] + Merge(x[1..], y[1..])
    else if x[0] < y[0] then [x[0]] + Merge(x[1..], y)
    else [y[0]] + Merge(x, y[1..])
  }

  function Take(s: seq<nat>, n: nat): seq<nat> {
    if |s| <= n then s else s[..n]
  }

  lemma {:induction false} AboveOrdered(s: seq<nat>, after: int)
    requires Ordered(s)
    ensures Ordered(Above(s, after)) && forall a :: a in Above(s, after) <==> a in s && a > after
  {
    if s != [] && s[0] <= after {
      AboveOrdered(s[1..], after);
      assert s == [s[0]] + s[1..];
    }
  }

  lemma {:induction false} MergeMembers(x: seq<nat>, y: seq<nat>)
    ensures forall a :: a in Merge(x, y) <==> a in x || a in y
    decreases |x| + |y|
  {
    if x != [] && y != [] {
      MergeMembers(if x[0] <= y[0] then x[1..] else x, if y[0] <= x[0] then y[1..] else y);
      assert x == [x[0]] + x[1..] && y == [y[0]] + y[1..];
    }
  }

  lemma FrontOrdered(h: nat, s: seq<nat>)
    requires Ordered(s) && forall a :: a in s ==> h < a
    ensures Ordered([h] + s)
  {
    forall i, j | 0 <= i < j < |s| + 1 ensures ([h] + s)[i] < ([h] + s)[j] {
      assert ([h] + s)[j] == s[j - 1] && s[j - 1] in s;
    }
  }

  lemma TailAbove(s: seq<nat>, h: nat)
    requires Ordered(s) && s != [] && h <= s[0]
    ensures Ordered(s[1..]) && forall a :: a in s[1..] ==> h < a
    ensures forall a :: a in s ==> h <= a
  {
  }

  lemma {:induction false} MergeOrdered(x: seq<nat>, y: seq<nat>)
    requires Ordered(x) && Ordered(y)
    ensures Ordered(Merge(x, y))
    decreases |x| + |y|
  {
    if x != [] && y != [] {
      var least := if x[0] <= y[0] then x[0] else y[0];
      var xs, ys := if x[0] == least then x[1..] else x, if y[0] == least then y[1..] else y;
      TailAbove(x, least);
      TailAbove(y, least);
      MergeOrdered(xs, ys);
      MergeMembers(xs, ys);
      forall a | a in Merge(xs, ys) ensures least < a {
        if a in xs { RestAbove(x, xs, least, a); } else { RestAbove(y, ys, least, a); }
      }
      FrontOrdered(least, Merge(xs, ys));
    }
  }

  lemma RestAbove(s: seq<nat>, rest: seq<nat>, least: nat, a: nat)
    requires Ordered(s) && s != [] && least <= s[0] && a in rest
    requires rest == if s[0] == least then s[1..] else s
    ensures least < a
  {
    TailAbove(s, least);
    var i :| 0 <= i < |rest| && rest[i] == a;
    if s[0] != least { assert i > 0 ==> s[0] < s[i]; }
  }

  /** A prefix of both lists that is long enough decides the first `n` of the union. */
  lemma {:induction false} PrefixDecides(x: seq<nat>, y: seq<nat>, i: nat, j: nat, n: nat)
    requires n <= i && n <= j
    ensures Take(Merge(Take(x, i), Take(y, j)), n) == Take(Merge(x, y), n)
    decreases n
  {
    if n > 0 && x != [] && y != [] {
      var xs, ys := Take(x, i), Take(y, j);
      assert xs[1..] == Take(x[1..], i - 1) && ys[1..] == Take(y[1..], j - 1) && xs[0] == x[0] && ys[0] == y[0];
      var p, q := x[0] <= y[0], y[0] <= x[0];
      PrefixDecides(if p then x[1..] else x, if q then y[1..] else y, if p then i - 1 else i, if q then j - 1 else j, n - 1);
      HeadTake(if p then x[0] else y[0], Merge(if p then xs[1..] else xs, if q then ys[1..] else ys),
               Merge(if p then x[1..] else x, if q then y[1..] else y), n);
    }
  }

  lemma HeadTake(h: nat, p: seq<nat>, q: seq<nat>, n: nat)
    requires n > 0 && Take(p, n - 1) == Take(q, n - 1)
    ensures Take([h] + p, n) == Take([h] + q, n)
  {
    assert Take([h] + p, n) == [h] + Take(p, n - 1);
    assert Take([h] + q, n) == [h] + Take(q, n - 1);
  }

  datatype Page = Page(addresses: seq<nat>, next: Option<nat>)

  /** The next addresses of both sources, and where to go on if either may hold more. */
  function PageAfter(rows: seq<nat>, owners: seq<nat>, after: int, limit: nat): Page {
    var r, o := Take(Above(rows, after), limit), Take(Above(owners, after), limit);
    var merged := Merge(r, o);
    var page := Take(merged, limit);
    var more := |merged| > limit || |r| == limit || |o| == limit;
    Page(page, if more && page != [] then Some(page[|page| - 1]) else None)
  }

  /** A page is the next `limit` addresses of the union; without a next page, nothing is left. */
  lemma PageIsNext(rows: seq<nat>, owners: seq<nat>, after: int, limit: nat)
    requires Ordered(rows) && Ordered(owners) && limit > 0
    ensures var all, page := Merge(Above(rows, after), Above(owners, after)), PageAfter(rows, owners, after, limit);
      && page.addresses == Take(all, limit)
      && (page.next.None? ==> page.addresses == all)
      && (page.next.Some? ==> page.addresses != [] && page.next.value == page.addresses[|page.addresses| - 1])
  {
    var x, y := Above(rows, after), Above(owners, after);
    PrefixDecides(x, y, limit, limit, limit);
    if |Take(x, limit)| < limit && |Take(y, limit)| < limit {
      assert Take(x, limit) == x && Take(y, limit) == y;
    } else {
      SomeTaken(Take(x, limit), Take(y, limit), limit);
    }
  }

  lemma SomeTaken(r: seq<nat>, o: seq<nat>, limit: nat)
    requires limit > 0 && (|r| == limit || |o| == limit)
    ensures Take(Merge(r, o), limit) != []
  {
  }

  /** Skipping what a page held leaves the rest of the union. */
  lemma RestAfter(rows: seq<nat>, owners: seq<nat>, after: int, n: nat)
    requires Ordered(rows) && Ordered(owners)
    requires 0 < n <= |Merge(Above(rows, after), Above(owners, after))|
    ensures var all := Merge(Above(rows, after), Above(owners, after));
      Merge(Above(rows, all[n - 1]), Above(owners, all[n - 1])) == all[n..]
  {
    var all := Merge(Above(rows, after), Above(owners, after));
    var last := all[n - 1];
    UnionAbove(rows, owners, after);
    UnionAbove(rows, owners, last);
    var rest := Merge(Above(rows, last), Above(owners, last));
    assert last in all;
    forall a ensures a in rest <==> a in all[n..] {
      SuffixMembers(all, n, a);
      assert a in rest <==> a in all && a > last;
    }
    assert Ordered(all[n..]);
    SameOrdered(rest, all[n..]);
  }

  lemma UnionAbove(rows: seq<nat>, owners: seq<nat>, after: int)
    requires Ordered(rows) && Ordered(owners)
    ensures var all := Merge(Above(rows, after), Above(owners, after));
      Ordered(all) && forall a :: a in all <==> (a in rows || a in owners) && a > after
  {
    AboveOrdered(rows, after);
    AboveOrdered(owners, after);
    MergeMembers(Above(rows, after), Above(owners, after));
    MergeOrdered(Above(rows, after), Above(owners, after));
  }

  lemma SuffixMembers(all: seq<nat>, n: nat, a: nat)
    requires Ordered(all) && 0 < n <= |all|
    ensures a in all[n..] <==> a in all && a > all[n - 1]
  {
    if a in all[n..] {
      var i :| n <= i < |all| && all[i] == a;
      assert all[n - 1] < all[i];
    }
    if a in all && a > all[n - 1] {
      var i :| 0 <= i < |all| && all[i] == a;
      var m := if i < n then i else n - 1;
      assert all[m] <= all[n - 1];
      assert all[n..][i - n] == a;
    }
  }

  lemma {:induction false} SameOrdered(p: seq<nat>, q: seq<nat>)
    requires Ordered(p) && Ordered(q) && forall a :: a in p <==> a in q
    ensures p == q
  {
    if p != [] { assert p[0] in q; }
    if q != [] { assert q[0] in p; }
    if p != [] {
      TailAbove(p, p[0]);
      TailAbove(q, q[0]);
      assert p[0] == q[0];
      assert p == [p[0]] + p[1..] && q == [q[0]] + q[1..];
      forall a ensures a in p[1..] <==> a in q[1..] {
        assert a in p[1..] <==> a in p && a != p[0];
        assert a in q[1..] <==> a in q && a != q[0];
      }
      SameOrdered(p[1..], q[1..]);
    }
  }

  // ---- The whole scan -------------------------------------------------------

  predicate Drifts(t: Tables, a: nat) {
    !DriftFree(RowOf(t.balances, Address(a)), Compute(t, Address(a)))
  }

  function DriftedOf(t: Tables, addresses: seq<nat>): seq<nat> {
    if addresses == [] then [] else
      DriftedOf(t, addresses[..|addresses| - 1]) +
      if Drifts(t, addresses[|addresses| - 1]) then [addresses[|addresses| - 1]] else []
  }

  lemma {:induction false} DriftedConcat(t: Tables, x: seq<nat>, y: seq<nat>)
    ensures DriftedOf(t, x + y) == DriftedOf(t, x) + DriftedOf(t, y)
  {
    if y == [] {
      assert x + y == x;
    } else {
      assert (x + y)[..|x + y| - 1] == x + y[..|y| - 1];
      DriftedConcat(t, x, y[..|y| - 1]);
    }
  }

  /** The report names the addresses of either source whose row is wrong, and no others. */
  lemma {:induction false} DriftedMembers(t: Tables, addresses: seq<nat>)
    ensures forall a :: a in DriftedOf(t, addresses) <==> a in addresses && Drifts(t, a)
  {
    if addresses != [] {
      DriftedMembers(t, addresses[..|addresses| - 1]);
      assert addresses == addresses[..|addresses| - 1] + [addresses[|addresses| - 1]];
    }
  }

  lemma PageSplits(rows: seq<nat>, owners: seq<nat>, after: int, limit: nat)
    requires Ordered(rows) && Ordered(owners) && limit > 0
    ensures var all, page := Merge(Above(rows, after), Above(owners, after)), PageAfter(rows, owners, after, limit);
      && |page.addresses| <= |all| && all == page.addresses + all[|page.addresses|..]
      && (page.next.None? ==> |page.addresses| == |all|)
      && (page.next.Some? ==> page.addresses != [])
      && (page.next.Some? ==> Merge(Above(rows, page.next.value), Above(owners, page.next.value)) == all[|page.addresses|..])
  {
    PageIsNext(rows, owners, after, limit);
    var all, page := Merge(Above(rows, after), Above(owners, after)), PageAfter(rows, owners, after, limit);
    var n := |page.addresses|;
    TakeSplits(all, limit);
    if page.next.Some? {
      assert page.next.value == all[n - 1];
      RestAfter(rows, owners, after, n);
    }
  }

  lemma TakeSplits(all: seq<nat>, limit: nat)
    ensures |Take(all, limit)| <= |all| && all == Take(all, limit) + all[|Take(all, limit)|..]
    ensures Take(all, limit) != [] ==> Take(all, limit)[|Take(all, limit)| - 1] == all[|Take(all, limit)| - 1]
  {
  }

  method CheckPage(t: Tables, addresses: seq<nat>) returns (drifted: seq<nat>)
    ensures drifted == DriftedOf(t, addresses)
  {
    drifted := [];
    for i := 0 to |addresses|
      invariant drifted == DriftedOf(t, addresses[..i])
    {
      assert addresses[..i + 1][..i] == addresses[..i];
      if Drifts(t, addresses[i]) {
        drifted := drifted + [addresses[i]];
      }
    }
    assert addresses[..|addresses|] == addresses;
  }

  /** The addresses with a balance row, as the database orders them. */
  ghost predicate ListsRows(t: Tables, rows: seq<nat>) {
    Ordered(rows) && forall a: nat :: a in rows <==> Address(a) in t.balances
  }

  /** The distinct owners of NIGHT outputs, spent or not. */
  ghost predicate ListsOwners(t: Tables, owners: seq<nat>) {
    Ordered(owners) && forall a: nat :: a in owners <==> OwnsAny(t.utxos, Address(a))
  }

  /** An address that sent NIGHT, never owned an indexed output, and has no row. No source lists it. */
  predicate LostSender(t: Tables, a: nat) {
    Address(a) !in t.balances && !OwnsAny(t.utxos, Address(a)) && SentAny(t.txs, Address(a))
  }

  /**
   * Page after page: every address of either source is checked once, in order. Of the addresses whose row is wrong, the
   * report leaves out the ones that are in neither source, and only those.
   */
  method ReconcileAll(t: Tables, rows: seq<nat>, owners: seq<nat>, limit: nat) returns (checked: seq<nat>, drifted: seq<nat>)
    requires ListsRows(t, rows) && ListsOwners(t, owners) && limit > 0
    ensures checked == Merge(rows, owners) && Ordered(checked)
    ensures forall a :: a in drifted ==> Drifts(t, a)
    ensures forall a: nat :: Drifts(t, a) && a !in drifted <==> LostSender(t, a)
  {
    checked, drifted := Scan(t, rows, owners, limit);
    MergeMembers(rows, owners);
    MergeOrdered(rows, owners);
    DriftedMembers(t, checked);
    forall a: nat ensures Drifts(t, a) && a !in drifted <==> LostSender(t, a) {
      MissedIsLost(t, a);
    }
  }

  lemma MissedIsLost(t: Tables, a: nat)
    ensures Drifts(t, a) && Address(a) !in t.balances && !OwnsAny(t.utxos, Address(a)) <==> LostSender(t, a)
  {
    ComputeExists(t, Address(a), Balance);
  }

  method Scan(t: Tables, rows: seq<nat>, owners: seq<nat>, limit: nat) returns (checked: seq<nat>, drifted: seq<nat>)
    requires Ordered(rows) && Ordered(owners) && limit > 0
    ensures checked == Merge(rows, owners) && drifted == DriftedOf(t, checked)
  {
    checked, drifted := [], [];
    var after: int := -1;
    ghost var all := Merge(rows, owners);
    assert Above(rows, -1) == rows && Above(owners, -1) == owners;
    assert all[0..] == all;
    var going := true;
    while going
      invariant |checked| <= |all| && checked == all[..|checked|] && drifted == DriftedOf(t, checked)
      invariant if going then Merge(Above(rows, after), Above(owners, after)) == all[|checked|..] else |checked| == |all|
      decreases going, |all| - |checked|
    {
      var page := PageAfter(rows, owners, after, limit);
      PageContinues(all, |checked|, rows, owners, after, limit);
      DriftedConcat(t, checked, page.addresses);
      if page.next.Some? {
        after := page.next.value;
      } else {
        going := false;
      }
      var found := CheckPage(t, page.addresses);
      checked, drifted := checked + page.addresses, drifted + found;
    }
    assert checked == all;
  }

  /** A page continues what was checked, and leaves the rest to the next page. */
  lemma PageContinues(all: seq<nat>, k: nat, rows: seq<nat>, owners: seq<nat>, after: int, limit: nat)
    requires Ordered(rows) && Ordered(owners) && limit > 0 && k <= |all|
    requires Merge(Above(rows, after), Above(owners, after)) == all[k..]
    ensures var page := PageAfter(rows, owners, after, limit);
      var n := k + |page.addresses|;
      && n <= |all| && all[..k] + page.addresses == all[..n]
      && (page.next.None? ==> n == |all|)
      && (page.next.Some? ==> n > k && Merge(Above(rows, page.next.value), Above(owners, page.next.value)) == all[n..])
  {
    PageSplits(rows, owners, after, limit);
    PageAppends(all, k, PageAfter(rows, owners, after, limit).addresses);
  }

  lemma PageAppends(all: seq<nat>, k: nat, page: seq<nat>)
    requires k <= |all| && |page| <= |all| - k && all[k..] == page + all[k..][|page|..]
    ensures all[..k] + page == all[..k + |page|] && all[k..][|page|..] == all[k + |page|..]
  {
    assert page == all[k..][..|page|];
  }

  /**
   * In every state the index reaches by storing linked blocks and rolling back, no address drifts. With addresses
   * registered for dust, all that can drift is the first height of such a row, which is then 0.
   */
  lemma ReachedStatesDoNotDrift(steps: seq<Step>, a: nat)
    requires LinkedRun(steps)
    ensures NoRegistration(steps) ==> !Drifts(Run(steps), a)
    ensures Drifts(Run(steps), a) ==> FirstHeightLost(RowOf(Run(steps).balances, Address(a)), Compute(Run(steps), Address(a)))
  {
    RunAgrees(steps);
    var row, computed := RowOf(Run(steps).balances, Address(a)), Compute(Run(steps), Address(a));
    assert NearlyMatches(row, computed);
    if NoRegistration(steps) { assert Matches(row, computed); }
    DriftOrMatch(row, computed);
  }
}
