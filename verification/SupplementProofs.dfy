/** What one block's parameters do to what is read back. */
module SupplementProofs {
  import opened Wrappers
  import opened TrailingPasses
  import opened Supplement

  /** Parameters at or above the height do not matter, nor do those of blocks above it. */
  lemma {:induction false} SameBelow(keys: seq<Target>, stored: map<nat, nat>, low: int, high: int)
    requires low <= high
    requires forall i :: 0 <= i < |keys| && low <= keys[i].height < high ==> keys[i].id !in stored
    ensures ParametersBelow(keys, stored, low) == ParametersBelow(keys, stored, high)
  {
    if keys != [] {
      SameBelow(keys[..|keys| - 1], stored, low, high);
    }
  }

  lemma {:induction false} PrefixBelow(keys: seq<Target>, stored: map<nat, nat>, n: nat, height: int)
    requires n <= |keys|
    requires forall i :: n <= i < |keys| ==> keys[i].height >= height || keys[i].id !in stored
    ensures ParametersBelow(keys[..n], stored, height) == ParametersBelow(keys, stored, height)
  {
    if n < |keys| {
      assert keys[..|keys| - 1][..n] == keys[..n];
      PrefixBelow(keys[..|keys| - 1], stored, n, height);
    } else {
      assert keys[..n] == keys;
    }
  }

  lemma {:induction false} WriteElsewhere(keys: seq<Target>, stored: map<nat, nat>, id: nat, a: nat, height: int)
    requires forall i :: 0 <= i < |keys| && keys[i].height < height ==> keys[i].id != id
    ensures ParametersBelow(keys, stored[id := a], height) == ParametersBelow(keys, stored, height)
  {
    if keys != [] {
      WriteElsewhere(keys[..|keys| - 1], stored, id, a, height);
    }
  }

  lemma {:induction false} WriteAbove(keys: seq<Target>, stored: map<nat, nat>, i: nat, a: nat, height: int)
    requires ConsecutiveKeys(keys) && i < |keys| && height > keys[i].height
    ensures var after := stored[keys[i].id := a];
      && (ParametersBelow(keys, after, height) == ParametersBelow(keys, stored, height) || ParametersBelow(keys, after, height) == Some(a))
      && (ParametersBelow(keys, stored, keys[i].height + 1) == Some(a) ==>
            ParametersBelow(keys, after, height) == ParametersBelow(keys, stored, height))
      && (height == keys[i].height + 1 ==> ParametersBelow(keys, after, height) == Some(a))
      && (i == 0 && keys[i].id !in stored && ParametersBelow(keys, stored, height).Some? ==>
            ParametersBelow(keys, after, height) == ParametersBelow(keys, stored, height))
  {
    var init, last := keys[..|keys| - 1], keys[|keys| - 1];
    if i < |init| {
      assert forall k :: 0 <= k < |init| ==> init[k] == keys[k];
      WriteAbove(init, stored, i, a, height);
      assert last.id != keys[i].id && last.height >= keys[i].height + 1;
    } else {
      assert forall k :: 0 <= k < |init| ==> init[k] == keys[k];
      SameBelow(init, stored, last.height + 1, height);
    }
  }

  /** A true report written anywhere keeps every block reading back that did. */
  lemma WriteKeeps(keys: seq<Target>, stored: map<nat, nat>, truth: map<nat, nat>, i: nat, low: nat, reached: nat)
    requires ConsecutiveKeys(keys) && i < |keys| && keys[i].id in truth && low <= 1
    requires TrueReports(keys, stored, truth) && AllReadBack(keys, stored, truth, low, reached)
    ensures var after := stored[keys[i].id := truth[keys[i].id]];
      TrueReports(keys, after, truth) && AllReadBack(keys, after, truth, low, reached)
  {
    var a := truth[keys[i].id];
    var after := stored[keys[i].id := a];
    forall k | 0 <= k < |keys| && low <= keys[k].height < reached ensures ReadsBack(keys, after, truth, keys[k]) {
      assert ReadsBack(keys, stored, truth, keys[k]);
      if keys[k].height >= keys[i].height {
        WriteAbove(keys, stored, i, a, keys[k].height + 1);
        if keys[i].height >= low {
          assert keys[i].height < reached;
          assert ReadsBack(keys, stored, truth, keys[i]);
        } else {
          assert keys[i].id in stored ==> after == stored;
        }
      } else {
        assert keys[k].height + 1 <= keys[i].height;
        WriteElsewhere(keys, stored, keys[i].id, a, keys[k].height + 1);
      }
    }
  }

  /** Nothing between `from` and the block itself. */
  predicate NextOne(keys: seq<Target>, i: nat, from: int) {
    i < |keys| && from <= keys[i].height && forall k :: 0 <= k < |keys| ==> !(from <= keys[k].height < keys[i].height)
  }

  /** What the pass relies on before it takes the block `i`. */
  predicate Ready(keys: seq<Target>, stored: map<nat, nat>, truth: map<nat, nat>, cache: Cache, from: int, low: nat, reached: nat) {
    && ConsecutiveKeys(keys) && TrueReports(keys, stored, truth) && AllReadBack(keys, stored, truth, low, reached)
    && CacheOk(keys, stored, truth, cache, from, reached) && from <= reached && low <= 1
  }

  /** The block is new to the pass: the remembered parameters are the ones in effect below it. */
  lemma KnownIsBelow(keys: seq<Target>, stored: map<nat, nat>, truth: map<nat, nat>, cache: Cache, i: nat, from: int, low: nat, reached: nat)
    requires Ready(keys, stored, truth, cache, from, low, reached) && NextOne(keys, i, from) && reached <= keys[i].height
    ensures Known(keys, stored, cache, keys[i].height) == ParametersBelow(keys, stored, keys[i].height)
  {
    assert !AnsweredIn(keys, truth, from, reached);
    SameBelow(keys, stored, reached, keys[i].height);
  }

  /** A block without a report changes nothing, and the pass is ready for the next one. */
  lemma SkippedBlock(keys: seq<Target>, stored: map<nat, nat>, truth: map<nat, nat>, cache: Cache, i: nat, from: int, low: nat, reached: nat)
    requires Ready(keys, stored, truth, cache, from, low, reached) && NextOne(keys, i, from)
    requires keys[i].id !in truth
    ensures Ready(keys, stored, truth, cache, keys[i].height + 1, low, Max(reached, keys[i].height + 1))
  {
    var q := keys[i].height;
    SameHeight(keys, i);
    assert keys[i].id !in stored;
    if reached <= q {
      assert !AnsweredIn(keys, truth, from, reached);
      SameBelow(keys, stored, reached, q + 1);
    } else if AnsweredIn(keys, truth, from, reached) {
      var k :| 0 <= k < |keys| && from <= keys[k].height < reached && keys[k].id in truth;
      assert q + 1 <= keys[k].height < reached;
    }
  }

  lemma SameHeight(keys: seq<Target>, i: nat)
    requires ConsecutiveKeys(keys) && i < |keys|
    ensures forall k :: 0 <= k < |keys| && keys[k].height == keys[i].height ==> k == i
  {
  }

  function StoredAfter(keys: seq<Target>, stored: map<nat, nat>, cache: Cache, k: Target, a: nat): map<nat, nat> {
    if Known(keys, stored, cache, k.height) != Some(a) && Stored(keys, k.id) then stored[k.id := a] else stored
  }

  lemma AnsweredReadsBack(keys: seq<Target>, stored: map<nat, nat>, truth: map<nat, nat>, cache: Cache, i: nat, from: int, low: nat, reached: nat)
    requires Ready(keys, stored, truth, cache, from, low, reached) && NextOne(keys, i, from)
    requires keys[i].id in truth && low <= keys[i].height
    ensures var after := StoredAfter(keys, stored, cache, keys[i], truth[keys[i].id]);
      && TrueReports(keys, after, truth) && AllReadBack(keys, after, truth, low, reached)
      && ReadsBack(keys, after, truth, keys[i])
  {
    var a, q := truth[keys[i].id], keys[i].height;
    var after := StoredAfter(keys, stored, cache, keys[i], a);
    if Known(keys, stored, cache, q) != Some(a) {
      WriteKeeps(keys, stored, truth, i, low, reached);
      WriteAbove(keys, stored, i, a, q + 1);
      assert keys[i].id == keys[i].id && Stored(keys, keys[i].id);
    } else if reached <= q {
      KnownIsBelow(keys, stored, truth, cache, i, from, low, reached);
      SkipReads(keys, stored, i, a);
    } else {
      assert ReadsBack(keys, stored, truth, keys[i]);
    }
  }

  /** A skipped write reads back: nothing or the same is stored at the block. */
  lemma {:induction false} SkipReads(keys: seq<Target>, stored: map<nat, nat>, i: nat, a: nat)
    requires ConsecutiveKeys(keys) && i < |keys|
    requires ParametersBelow(keys, stored, keys[i].height) == Some(a)
    requires keys[i].id in stored ==> stored[keys[i].id] == a
    ensures ParametersBelow(keys, stored, keys[i].height + 1) == Some(a)
  {
    if i < |keys| - 1 {
      assert keys[|keys| - 1].height > keys[i].height;
      SkipReads(keys[..|keys| - 1], stored, i, a);
    } else {
      SameBelow(keys[..|keys| - 1], stored, keys[i].height, keys[i].height + 1);
    }
  }

  /** A block with a report is stored, if need be, and the pass is ready for the next one. */
  lemma AnsweredBlock(keys: seq<Target>, stored: map<nat, nat>, truth: map<nat, nat>, cache: Cache, i: nat, from: int, low: nat, reached: nat)
    requires Ready(keys, stored, truth, cache, from, low, reached) && NextOne(keys, i, from)
    requires keys[i].id in truth && low <= keys[i].height
    ensures var a := truth[keys[i].id];
      Ready(keys, StoredAfter(keys, stored, cache, keys[i], a), truth, Holds(Some(a)), keys[i].height + 1, low,
            Max(reached, keys[i].height + 1))
  {
    var a, q := truth[keys[i].id], keys[i].height;
    var after := StoredAfter(keys, stored, cache, keys[i], a);
    AnsweredReadsBack(keys, stored, truth, cache, i, from, low, reached);
    var top := Max(reached, q + 1);
    SameHeight(keys, i);
    forall k | 0 <= k < |keys| && low <= keys[k].height < top ensures ReadsBack(keys, after, truth, keys[k]) {
      if reached <= keys[k].height {
        assert reached <= keys[k].height <= q;
        NoneBetween(keys, i, k, from);
      }
    }
    if !AnsweredIn(keys, truth, q + 1, top) {
      SameBelow(keys, after, q + 1, top);
    }
  }

  lemma NoneBetween(keys: seq<Target>, i: nat, k: nat, from: int)
    requires ConsecutiveKeys(keys) && NextOne(keys, i, from) && k < |keys| && from <= keys[k].height <= keys[i].height
    ensures k == i
  {
    SameHeight(keys, i);
  }

  /** Removing the blocks at the top changes nothing for those below. */
  lemma PrefixReadsBack(keys: seq<Target>, stored: map<nat, nat>, truth: map<nat, nat>, low: nat, reached: nat, n: nat)
    requires ConsecutiveKeys(keys) && n <= |keys|
    requires TrueReports(keys, stored, truth) && AllReadBack(keys, stored, truth, low, reached)
    ensures TrueReports(keys[..n], stored, truth)
    ensures forall top: nat :: top <= reached || n == 0 ==> AllReadBack(keys[..n], stored, truth, low, top)
  {
    forall i | 0 <= i < n && low <= keys[i].height < reached ensures ReadsBack(keys[..n], stored, truth, keys[..n][i]) {
      PrefixBelow(keys, stored, n, keys[i].height + 1);
      assert ReadsBack(keys, stored, truth, keys[i]);
    }
  }

  /** The cursor moves over heights without blocks. */
  lemma EmptyRange(keys: seq<Target>, stored: map<nat, nat>, truth: map<nat, nat>, cache: Cache, low: nat, from: nat, goal: nat, reached: nat)
    requires Ready(keys, stored, truth, cache, from, low, reached)
    requires forall i :: 0 <= i < |keys| ==> !(from <= keys[i].height <= goal)
    ensures AllReadBack(keys, stored, truth, 1, Max(reached, goal + 1))
    ensures CacheOk(keys, stored, truth, cache, goal + 1, Max(reached, goal + 1))
  {
    var top := Max(reached, goal + 1);
    SameBelow(keys, stored, reached, top);
    forall i | 0 <= i < |keys| && 1 <= keys[i].height < top ensures ReadsBack(keys, stored, truth, keys[i]) {
      assert keys[i].height < reached;
    }
    if AnsweredIn(keys, truth, from, reached) {
      var i :| 0 <= i < |keys| && from <= keys[i].height < reached && keys[i].id in truth;
      assert goal + 1 <= keys[i].height < top;
    }
  }

  /** A block at height 0 arrived under a pass that skips the empty index: nothing is in effect yet. */
  lemma EmptyGenesis(keys: seq<Target>, stored: map<nat, nat>, truth: map<nat, nat>, cache: Cache, goal: nat)
    requires ConsecutiveKeys(keys) && keys != [] && keys[0].id !in stored && CacheOk(keys, stored, truth, cache, 0, 0)
    requires keys[0].height == 0
    requires forall i :: 0 <= i < |keys| && keys[i].height >= 1 ==> keys[i].height > goal
    ensures AllReadBack(keys, stored, truth, 1, goal + 1)
    ensures CacheOk(keys, stored, truth, cache, goal + 1, goal + 1)
  {
    assert !AnsweredIn(keys, truth, 0, 0);
    forall i | 0 <= i < |keys| && 0 <= keys[i].height < goal + 1 ensures keys[i].id !in stored {
      assert i == 0;
    }
    SameBelow(keys, stored, 0, goal + 1);
  }
}
