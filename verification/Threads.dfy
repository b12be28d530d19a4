/** Doubly linked lists threaded through numbered blocks; -1 is the null pointer. */
module Threads {

  function PrevOf(ids: seq<nat>, i: nat): int
    requires i < |ids|
  {
    if i == 0 then -1 else ids[i - 1]
  }

  function NextOf(ids: seq<nat>, i: nat): int
    requires i < |ids|
  {
    if i == |ids| - 1 then -1 else ids[i + 1]
  }

  function FirstOf(ids: seq<nat>): int { if ids == [] then -1 else ids[0] }

  function LastOf(ids: seq<nat>): int { if ids == [] then -1 else ids[|ids| - 1] }

  ghost predicate Distinct(ids: seq<nat>) {
    forall i, j :: 0 <= i < j < |ids| ==> ids[i] != ids[j]
  }

  /** Block ids[i] points at its two neighbours in the list. */
  ghost predicate LinkedAt(o: seq<int>, n: seq<int>, ids: seq<nat>, i: nat)
    requires i < |ids| && ids[i] < |o| == |n|
  {
    o[ids[i]] == PrevOf(ids, i) && n[ids[i]] == NextOf(ids, i)
  }

  ghost predicate InRange(ids: seq<nat>, n: nat) {
    forall i :: 0 <= i < |ids| ==> ids[i] < n
  }

  /** The pointers o (to the older) and n (to the newer neighbour) thread exactly these blocks,
      oldest first. */
  ghost predicate Threaded(o: seq<int>, n: seq<int>, ids: seq<nat>) {
    && |o| == |n|
    && Distinct(ids)
    && InRange(ids, |o|)
    && forall i :: 0 <= i < |ids| ==> LinkedAt(o, n, ids, i)
  }

  function Without(ids: seq<nat>, i: nat): (r: seq<nat>)
    requires i < |ids|
    ensures |r| == |ids| - 1
    ensures forall k :: 0 <= k < i ==> r[k] == ids[k]
    ensures forall k :: i <= k < |r| ==> r[k] == ids[k + 1]
  {
    ids[..i] + ids[i + 1..]
  }

  /** `p->field = v` when p is not null. */
  function Store(f: seq<int>, p: int, v: int): (g: seq<int>)
    requires -1 <= p < |f|
    ensures |g| == |f|
  {
    if p == -1 then f else f[p := v]
  }

  lemma DistinctWithout(ids: seq<nat>, i: nat)
    requires Distinct(ids) && i < |ids|
    ensures Distinct(Without(ids, i)) && ids[i] !in Without(ids, i)
    ensures forall x :: x in Without(ids, i) <==> x in ids && x != ids[i]
  {
    var r := Without(ids, i);
    forall x | x in ids && x != ids[i] ensures x in r {
      var k :| 0 <= k < |ids| && ids[k] == x;
      assert x == if k < i then r[k] else r[k - 1];
    }
  }

  lemma DistinctAppend(ids: seq<nat>, x: nat)
    requires Distinct(ids) && x !in ids
    ensures Distinct(ids + [x])
  {}

  /** Linking a block in as the newest. */
  lemma AppendThread(o: seq<int>, n: seq<int>, ids: seq<nat>, x: nat)
    requires Threaded(o, n, ids) && x < |o| && x !in ids
    ensures -1 <= LastOf(ids) < |n|
    ensures Threaded(o[x := LastOf(ids)], Store(n[x := -1], LastOf(ids), x), ids + [x])
  {
    hide Distinct;
    DistinctAppend(ids, x);
    var o', n' := o[x := LastOf(ids)], Store(n[x := -1], LastOf(ids), x);
    var r := ids + [x];
    forall i | 0 <= i < |r| ensures LinkedAt(o', n', r, i) {
      if i < |ids| {
        assert LinkedAt(o, n, ids, i) && ids[i] != x;
        if i < |ids| - 1 { LastDiffers(ids, i); }
      }
    }
  }

  lemma LastDiffers(ids: seq<nat>, i: nat)
    requires Distinct(ids) && i < |ids| - 1
    ensures ids[i] != LastOf(ids)
  {}

  lemma DiffersAt(ids: seq<nat>, i: nat, j: nat)
    requires Distinct(ids) && i < |ids| && j < |ids|
    ensures ids[i] == ids[j] <==> i == j
  {}

  /** Taking a block out: its neighbours are pointed at each other. */
  lemma RemoveThread(o: seq<int>, n: seq<int>, ids: seq<nat>, i: nat)
    requires Threaded(o, n, ids) && i < |ids|
    ensures var x := ids[i];
            && -1 <= n[x] < |o| && -1 <= o[x] < |n|
            && Threaded(Store(o, n[x], o[x]), Store(n, o[x], n[x]), Without(ids, i))
  {
    hide Distinct;
    var x := ids[i];
    assert LinkedAt(o, n, ids, i);
    var o', n' := Store(o, n[x], o[x]), Store(n, o[x], n[x]);
    var r := Without(ids, i);
    DistinctWithout(ids, i);
    forall k | 0 <= k < |r| ensures LinkedAt(o', n', r, k) {
      var j := if k < i then k else k + 1;
      assert r[k] == ids[j] && LinkedAt(o, n, ids, j);
      if i > 0 { DiffersAt(ids, j, i - 1); }
      if i < |ids| - 1 { DiffersAt(ids, j, i + 1); }
    }
  }

  /** Changes to other blocks' pointers do not matter. */
  lemma FrameThread(o: seq<int>, n: seq<int>, o': seq<int>, n': seq<int>, ids: seq<nat>)
    requires Threaded(o, n, ids) && |o'| == |o| && |n'| == |n|
    requires forall x :: x in ids ==> o'[x] == o[x] && n'[x] == n[x]
    ensures Threaded(o', n', ids)
  {
    forall i | 0 <= i < |ids| ensures LinkedAt(o', n', ids, i) {
      assert ids[i] in ids && LinkedAt(o, n, ids, i);
    }
  }

  /** The neighbours of a threaded block are threaded blocks. */
  lemma Neighbours(o: seq<int>, n: seq<int>, ids: seq<nat>, i: nat)
    requires Threaded(o, n, ids) && i < |ids|
    ensures o[ids[i]] == -1 || (o[ids[i]] >= 0 && o[ids[i]] in ids)
    ensures n[ids[i]] == -1 || (n[ids[i]] >= 0 && n[ids[i]] in ids)
  {
    assert LinkedAt(o, n, ids, i);
  }

  // ---------- Lists of one bin ---------- //

  /** The blocks of one bin, in the order of the whole list. */
  ghost function Chain(ids: seq<nat>, bins: seq<nat>, b: nat): (c: seq<nat>)
    requires InRange(ids, |bins|)
    ensures forall x :: x in c <==> x in ids && bins[x] == b
  {
    if ids == [] then []
    else
      var x := ids[|ids| - 1];
      assert forall y :: y in ids <==> y in ids[..|ids| - 1] || y == x;
      Chain(ids[..|ids| - 1], bins, b) + (if bins[x] == b then [x] else [])
  }

  lemma {:induction false} ChainConcat(p: seq<nat>, q: seq<nat>, bins: seq<nat>, b: nat)
    requires InRange(p, |bins|) && InRange(q, |bins|)
    ensures Chain(p + q, bins, b) == Chain(p, bins, b) + Chain(q, bins, b)
    decreases |q|
  {
    if q == [] {
      assert p + q == p;
    } else {
      var x, r := q[|q| - 1], q[..|q| - 1];
      assert p + q != [] && (p + q)[|p + q| - 1] == x;
      assert (p + q)[..|p + q| - 1] == p + r;
      ChainConcat(p, r, bins, b);
      var last := if bins[x] == b then [x] else [];
      assert Chain(p + q, bins, b) == Chain(p + r, bins, b) + last;
      assert Chain(q, bins, b) == Chain(r, bins, b) + last;
    }
  }

  lemma ChainEmpty(bins: seq<nat>, b: nat)
    ensures Chain([], bins, b) == []
  {}

  lemma ChainOne(x: nat, bins: seq<nat>, b: nat)
    requires x < |bins|
    ensures Chain([x], bins, b) == if bins[x] == b then [x] else []
  {
    assert [x][..0] == [];
  }

  lemma ChainSplit(ids: seq<nat>, bins: seq<nat>, b: nat, i: nat)
    requires InRange(ids, |bins|) && i < |ids|
    ensures Chain(ids, bins, b) ==
            Chain(ids[..i], bins, b) + (if bins[ids[i]] == b then [ids[i]] else []) + Chain(ids[i + 1..], bins, b)
  {
    assert ids == (ids[..i] + [ids[i]]) + ids[i + 1..];
    ChainConcat(ids[..i] + [ids[i]], ids[i + 1..], bins, b);
    ChainConcat(ids[..i], [ids[i]], bins, b);
    ChainOne(ids[i], bins, b);
  }

  lemma {:induction false} ChainSameBins(ids: seq<nat>, bins: seq<nat>, bins': seq<nat>, b: nat)
    requires forall i :: 0 <= i < |ids| ==> ids[i] < |bins| && ids[i] < |bins'| && bins'[ids[i]] == bins[ids[i]]
    ensures Chain(ids, bins', b) == Chain(ids, bins, b)
    decreases |ids|
  {
    if ids != [] { ChainSameBins(ids[..|ids| - 1], bins, bins', b); }
  }
}
