/** One object cache as it is stored: numbered blocks on two doubly linked lists (age order over all
    bins, and per bin), a lazy free list and a byte counter
    (include/metall/kernel/object_cache.hpp). A pointer is a block number, -1 the null pointer. */
module ObjectCache {
  import T = Threads
  import Q = BlockQueue
  import opened CacheBudget
  import opened ChunkTable

  datatype Blocks = Blocks(
    binNo: seq<nat>,
    older: seq<int>, newer: seq<int>,
    binOlder: seq<int>, binNewer: seq<int>,
    cache: seq<seq<Q.Offset>>)

  ghost predicate BlocksOk(bl: Blocks) {
    && |bl.older| == |bl.newer| == |bl.binOlder| == |bl.binNewer| == |bl.cache| == |bl.binNo|
    && forall x :: 0 <= x < |bl.cache| ==> |bl.cache[x]| == Q.CAPACITY
  }

  datatype BinHeader = BinHeader(activeBlock: int, activeBlockSize: nat)

  /** `block->clear(); block->bin_no = bin`. */
  function ClearBlock(bl: Blocks, x: nat, bin: nat): Blocks
    requires BlocksOk(bl) && x < |bl.binNo|
  {
    bl.(binNo := bl.binNo[x := bin],
        older := bl.older[x := -1], newer := bl.newer[x := -1],
        binOlder := bl.binOlder[x := -1], binNewer := bl.binNewer[x := -1])
  }

  /** `block->link_to_older(newest, active)`. */
  function LinkToOlder(bl: Blocks, x: nat, block: int, binBlock: int): Blocks
    requires BlocksOk(bl) && x < |bl.binNo| && -1 <= block < |bl.binNo| && -1 <= binBlock < |bl.binNo|
  {
    bl.(older := bl.older[x := block],
        newer := T.Store(bl.newer, block, x),
        binOlder := bl.binOlder[x := binBlock],
        binNewer := T.Store(bl.binNewer, binBlock, x))
  }

  ghost predicate PointersIn(bl: Blocks, x: nat)
    requires BlocksOk(bl) && x < |bl.binNo|
  {
    && -1 <= bl.older[x] < |bl.binNo| && -1 <= bl.newer[x] < |bl.binNo|
    && -1 <= bl.binOlder[x] < |bl.binNo| && -1 <= bl.binNewer[x] < |bl.binNo|
  }

  /** `block->disconnect()`. */
  function Disconnect(bl: Blocks, x: nat): Blocks
    requires BlocksOk(bl) && x < |bl.binNo| && PointersIn(bl, x)
  {
    bl.(older := T.Store(bl.older, bl.newer[x], bl.older[x]),
        newer := T.Store(bl.newer, bl.older[x], bl.newer[x]),
        binOlder := T.Store(bl.binOlder, bl.binNewer[x], bl.binOlder[x]),
        binNewer := T.Store(bl.binNewer, bl.binOlder[x], bl.binNewer[x]))
  }

  // ---------- Well-formed lists ---------- //

  ghost predicate BinOk(bl: Blocks, h: BinHeader, age: seq<nat>, b: nat)
    requires BlocksOk(bl) && T.InRange(age, |bl.binNo|)
  {
    var chain := T.Chain(age, bl.binNo, b);
    && T.Threaded(bl.binOlder, bl.binNewer, chain)
    && h.activeBlock == T.LastOf(chain)
    && h.activeBlockSize <= Q.CAPACITY
    && (h.activeBlock == -1 ==> h.activeBlockSize == 0)
  }

  /** Both lists are well formed: `age` threads all used blocks, and the blocks of each bin,
      in the same order, thread that bin's list with its header at the end. */
  ghost predicate Shape(bl: Blocks, heads: seq<BinHeader>, age: seq<nat>)
    ensures Shape(bl, heads, age) ==> BlocksOk(bl) && T.InRange(age, |bl.binNo|)
    ensures Shape(bl, heads, age) ==> forall i :: 0 <= i < |age| ==> bl.binNo[age[i]] < |heads|
  {
    && BlocksOk(bl)
    && T.Threaded(bl.older, bl.newer, age)
    && (forall i :: 0 <= i < |age| ==> bl.binNo[age[i]] < |heads|)
    && forall b :: 0 <= b < |heads| ==> BinOk(bl, heads[b], age, b)
  }

  /** The number of objects in a used block. */
  function Count(bl: Blocks, heads: seq<BinHeader>, x: nat): nat
    requires x < |bl.binNo| && bl.binNo[x] < |heads|
  {
    var h := heads[bl.binNo[x]];
    if h.activeBlock == x then h.activeBlockSize else Q.CAPACITY
  }

  ghost function BlockAt(bl: Blocks, heads: seq<BinHeader>, x: nat): Q.Block
    requires BlocksOk(bl) && x < |bl.binNo| && bl.binNo[x] < |heads|
  {
    var k := Count(bl, heads, x);
    Q.Block(bl.binNo[x], if k <= Q.CAPACITY then bl.cache[x][..k] else [])
  }

  /** The queue of blocks that the lists stand for. */
  ghost function QueueOf(bl: Blocks, heads: seq<BinHeader>, age: seq<nat>): (q: Q.Queue)
    requires Shape(bl, heads, age)
    ensures |q| == |age|
    ensures forall i :: 0 <= i < |age| ==> q[i] == BlockAt(bl, heads, age[i])
  {
    seq(|age|, i requires 0 <= i < |age| => BlockAt(bl, heads, age[i]))
  }

  lemma {:induction false} ChainIsQueue(bl: Blocks, heads: seq<BinHeader>, age: seq<nat>, q: Q.Queue, b: nat)
    requires T.InRange(age, |bl.binNo|) && |q| == |age|
    requires forall i :: 0 <= i < |age| ==> q[i].bin == bl.binNo[age[i]]
    ensures var chain := T.Chain(age, bl.binNo, b);
            if Q.Active(q, b) == -1 then chain == [] else T.LastOf(chain) == age[Q.Active(q, b)]
    decreases |age|
  {
    if age != [] {
      var n := |age| - 1;
      if bl.binNo[age[n]] != b { ChainIsQueue(bl, heads, age[..n], q[..n], b); }
    }
  }

  /** A bin's header points at the newest block of the bin; every other block is full. */
  lemma ActiveIs(bl: Blocks, heads: seq<BinHeader>, age: seq<nat>, b: nat)
    requires Shape(bl, heads, age) && b < |heads|
    ensures var q := QueueOf(bl, heads, age);
            var i := Q.Active(q, b);
            && heads[b].activeBlock == (if i == -1 then -1 else age[i])
            && heads[b].activeBlockSize == (if i == -1 then 0 else |q[i].items|)
            && heads[b].activeBlockSize <= Q.CAPACITY
  {
    hide T.Chain, Q.Active, T.Threaded;
    var q := QueueOf(bl, heads, age);
    ChainIsQueue(bl, heads, age, q, b);
    assert BinOk(bl, heads[b], age, b);
  }

  lemma QueuePacked(bl: Blocks, heads: seq<BinHeader>, age: seq<nat>)
    requires Shape(bl, heads, age)
    ensures Q.Packed(QueueOf(bl, heads, age))
  {
    hide T.Chain, Q.Active;
    var q := QueueOf(bl, heads, age);
    forall i | 0 <= i < |q|
      ensures |q[i].items| <= Q.CAPACITY && (i != Q.Active(q, q[i].bin) ==> |q[i].items| == Q.CAPACITY)
    {
      ActiveIs(bl, heads, age, q[i].bin);
      var a := Q.Active(q, q[i].bin);
      if a != -1 && a != i { T.DiffersAt(age, i, a); }
    }
  }

  // ---------- Linking a block in ---------- //

  function LinkNew(bl: Blocks, x: nat, b: nat, newest: int, active: int): Blocks
    requires BlocksOk(bl) && x < |bl.binNo| && -1 <= newest < |bl.binNo| && -1 <= active < |bl.binNo|
  {
    LinkToOlder(ClearBlock(bl, x, b), x, newest, active)
  }

  lemma ChainAppend(age: seq<nat>, bins: seq<nat>, x: nat, b: nat, c: nat)
    requires T.InRange(age, |bins|) && x < |bins| && x !in age
    ensures T.InRange(age + [x], |bins|)
    ensures T.Chain(age + [x], bins[x := b], c) == T.Chain(age, bins, c) + if c == b then [x] else []
  {
    hide T.Chain;
    T.ChainConcat(age, [x], bins[x := b], c);
    T.ChainOne(x, bins[x := b], c);
    T.ChainSameBins(age, bins, bins[x := b], c);
  }

  lemma LastIn(bl: Blocks, heads: seq<BinHeader>, age: seq<nat>, b: nat)
    requires Shape(bl, heads, age) && b < |heads|
    ensures -1 <= T.LastOf(age) < |bl.binNo| && -1 <= T.FirstOf(age) < |bl.binNo|
    ensures -1 <= heads[b].activeBlock < |bl.binNo|
    ensures heads[b].activeBlock >= 0 ==> heads[b].activeBlock in age && bl.binNo[heads[b].activeBlock] == b
  {
    hide T.Chain, T.Threaded;
    assert BinOk(bl, heads[b], age, b);
    var chain := T.Chain(age, bl.binNo, b);
    if chain != [] { assert chain[|chain| - 1] in chain; }
  }

  lemma LinkNewBin(bl: Blocks, heads: seq<BinHeader>, age: seq<nat>, x: nat, b: nat, k: nat, c: nat)
    requires Shape(bl, heads, age) && x < |bl.binNo| && x !in age && b < |heads| && c < |heads| && k <= Q.CAPACITY
    requires -1 <= T.LastOf(age) < |bl.binNo| && -1 <= heads[b].activeBlock < |bl.binNo|
    ensures var bl' := LinkNew(bl, x, b, T.LastOf(age), heads[b].activeBlock);
            BlocksOk(bl') && T.InRange(age + [x], |bl'.binNo|) &&
            BinOk(bl', heads[b := BinHeader(x, k)][c], age + [x], c)
  {
    hide T.Chain, T.Threaded;
    assert BinOk(bl, heads[b], age, b) && BinOk(bl, heads[c], age, c);
    var bl' := LinkNew(bl, x, b, T.LastOf(age), heads[b].activeBlock);
    ChainAppend(age, bl.binNo, x, b, c);
    var chain := T.Chain(age, bl.binNo, c);
    if c == b {
      T.AppendThread(bl.binOlder, bl.binNewer, chain, x);
      assert bl'.binOlder == bl.binOlder[x := T.LastOf(chain)];
      assert bl'.binNewer == T.Store(bl.binNewer[x := -1], T.LastOf(chain), x);
    } else {
      LastIn(bl, heads, age, b);
      T.FrameThread(bl.binOlder, bl.binNewer, bl'.binOlder, bl'.binNewer, chain);
      assert chain + [] == chain;
    }
  }

  /** Linking a block in as the newest, both of its bin and of all, appends it to the queue. */
  lemma LinkNewCorrect(bl: Blocks, heads: seq<BinHeader>, age: seq<nat>, x: nat, b: nat, k: nat)
    requires Shape(bl, heads, age) && x < |bl.binNo| && x !in age && b < |heads| && k <= Q.CAPACITY
    requires heads[b].activeBlock == -1 || heads[b].activeBlockSize == Q.CAPACITY
    requires -1 <= T.LastOf(age) < |bl.binNo| && -1 <= heads[b].activeBlock < |bl.binNo|
    ensures var bl', heads' := LinkNew(bl, x, b, T.LastOf(age), heads[b].activeBlock), heads[b := BinHeader(x, k)];
            Shape(bl', heads', age + [x]) &&
            QueueOf(bl', heads', age + [x]) == QueueOf(bl, heads, age) + [Q.Block(b, bl.cache[x][..k])]
  {
    hide T.Chain, T.Threaded, BinOk;
    var bl', heads' := LinkNew(bl, x, b, T.LastOf(age), heads[b].activeBlock), heads[b := BinHeader(x, k)];
    var age' := age + [x];
    T.AppendThread(bl.older, bl.newer, age, x);
    assert bl'.older == bl.older[x := T.LastOf(age)];
    assert bl'.newer == T.Store(bl.newer[x := -1], T.LastOf(age), x);
    forall c | 0 <= c < |heads|
      ensures BlocksOk(bl') && T.InRange(age', |bl'.binNo|) && BinOk(bl', heads'[c], age', c)
    {
      LinkNewBin(bl, heads, age, x, b, k, c);
    }
    forall i | 0 <= i < |age| ensures bl'.binNo[age[i]] == bl.binNo[age[i]] { assert age[i] in age; }
    var q, q' := QueueOf(bl, heads, age), QueueOf(bl', heads', age');
    forall i | 0 <= i < |age| ensures q'[i] == q[i] {
      assert age[i] in age;
    }
    assert q'[|age|] == BlockAt(bl', heads', x);
  }

  // ---------- Taking a block out ---------- //

  lemma ChainRemove(age: seq<nat>, bins: seq<nat>, i: nat, c: nat) returns (j: nat)
    requires T.InRange(age, |bins|) && i < |age|
    ensures T.InRange(T.Without(age, i), |bins|)
    ensures var chain, rest := T.Chain(age, bins, c), T.Chain(T.Without(age, i), bins, c);
            if bins[age[i]] == c then j < |chain| && chain[j] == age[i] && rest == T.Without(chain, j)
            else rest == chain
  {
    hide T.Chain;
    T.ChainSplit(age, bins, c, i);
    T.ChainConcat(age[..i], age[i + 1..], bins, c);
    var p, r := T.Chain(age[..i], bins, c), T.Chain(age[i + 1..], bins, c);
    j := |p|;
    if bins[age[i]] == c {
      WithoutMiddle(p, age[i], r);
    } else {
      assert p + [] + r == p + r;
    }
  }

  lemma WithoutMiddle(p: seq<nat>, x: nat, r: seq<nat>)
    ensures (p + [x] + r)[|p|] == x && T.Without(p + [x] + r, |p|) == p + r
  {
    var s := p + [x] + r;
    assert s[..|p|] == p && s[|p| + 1..] == r;
  }

  /** The header of a bin after block x has left: it moves on to the next older block, which is full. */
  function NextHead(bl: Blocks, h: BinHeader, x: nat): BinHeader
    requires x < |bl.binOlder|
  {
    if h.activeBlock != x then h
    else BinHeader(bl.binOlder[x], if bl.binOlder[x] == -1 then 0 else Q.CAPACITY)
  }

  lemma UsedPointers(bl: Blocks, heads: seq<BinHeader>, age: seq<nat>, i: nat)
    requires Shape(bl, heads, age) && i < |age|
    ensures PointersIn(bl, age[i])
    ensures bl.binOlder[age[i]] != -1 ==> bl.binOlder[age[i]] in T.Chain(age, bl.binNo, bl.binNo[age[i]])
    ensures bl.binNewer[age[i]] != -1 ==> bl.binNewer[age[i]] in T.Chain(age, bl.binNo, bl.binNo[age[i]])
  {
    hide T.Chain;
    T.Neighbours(bl.older, bl.newer, age, i);
    var b := bl.binNo[age[i]];
    assert BinOk(bl, heads[b], age, b);
    var chain := T.Chain(age, bl.binNo, b);
    assert age[i] in age;
    var j :| 0 <= j < |chain| && chain[j] == age[i];
    T.Neighbours(bl.binOlder, bl.binNewer, chain, j);
  }

  lemma UnlinkBin(bl: Blocks, heads: seq<BinHeader>, age: seq<nat>, i: nat, c: nat)
    requires Shape(bl, heads, age) && i < |age| && c < |heads| && PointersIn(bl, age[i])
    ensures var x := age[i];
            var bl' := Disconnect(bl, x);
            BlocksOk(bl') && T.InRange(T.Without(age, i), |bl'.binNo|) &&
            BinOk(bl', if c == bl.binNo[x] then NextHead(bl, heads[c], x) else heads[c], T.Without(age, i), c)
  {
    hide T.Chain, T.Threaded;
    var x := age[i];
    var bl' := Disconnect(bl, x);
    var j := ChainRemove(age, bl.binNo, i, c);
    assert BinOk(bl, heads[c], age, c);
    var chain := T.Chain(age, bl.binNo, c);
    if c == bl.binNo[x] {
      T.RemoveThread(bl.binOlder, bl.binNewer, chain, j);
      LastAfterRemove(bl.binOlder, bl.binNewer, chain, j);
    } else {
      UsedPointers(bl, heads, age, i);
      T.FrameThread(bl.binOlder, bl.binNewer, bl'.binOlder, bl'.binNewer, chain);
    }
  }

  lemma AgeDistinct(bl: Blocks, heads: seq<BinHeader>, age: seq<nat>)
    requires Shape(bl, heads, age)
    ensures T.Distinct(age)
  {}

  lemma LastAfterRemove(o: seq<int>, n: seq<int>, ids: seq<nat>, j: nat)
    requires T.Threaded(o, n, ids) && j < |ids|
    ensures T.LastOf(ids) == ids[j] <==> j == |ids| - 1
    ensures T.LastOf(T.Without(ids, j)) == if j == |ids| - 1 then o[ids[j]] else T.LastOf(ids)
  {
    assert T.LinkedAt(o, n, ids, j);
    T.DiffersAt(ids, j, |ids| - 1);
  }

  /** Taking a used block out of both lists takes it out of the queue and changes nothing else. */
  lemma UnlinkCorrect(bl: Blocks, heads: seq<BinHeader>, age: seq<nat>, i: nat)
    requires Shape(bl, heads, age) && i < |age| && PointersIn(bl, age[i])
    ensures var x := age[i];
            var b := bl.binNo[x];
            var bl', heads', age' := Disconnect(bl, x), heads[b := NextHead(bl, heads[b], x)], T.Without(age, i);
            Shape(bl', heads', age') && QueueOf(bl', heads', age') == Q.Without(QueueOf(bl, heads, age), i)
  {
    hide T.Chain, T.Threaded, BinOk;
    var x := age[i];
    var b := bl.binNo[x];
    var bl', heads', age' := Disconnect(bl, x), heads[b := NextHead(bl, heads[b], x)], T.Without(age, i);
    T.RemoveThread(bl.older, bl.newer, age, i);
    forall c | 0 <= c < |heads|
      ensures BlocksOk(bl') && T.InRange(age', |bl'.binNo|) && BinOk(bl', heads'[c], age', c)
    {
      UnlinkBin(bl, heads, age, i, c);
    }
    assert forall k :: 0 <= k < |age'| ==> age'[k] == if k < i then age[k] else age[k + 1];
    UnlinkQueue(bl, heads, age, i);
  }

  lemma UnlinkQueue(bl: Blocks, heads: seq<BinHeader>, age: seq<nat>, i: nat)
    requires Shape(bl, heads, age) && i < |age| && PointersIn(bl, age[i])
    requires var x := age[i];
             var b := bl.binNo[x];
             Shape(Disconnect(bl, x), heads[b := NextHead(bl, heads[b], x)], T.Without(age, i))
    ensures var x := age[i];
            var b := bl.binNo[x];
            QueueOf(Disconnect(bl, x), heads[b := NextHead(bl, heads[b], x)], T.Without(age, i)) ==
            Q.Without(QueueOf(bl, heads, age), i)
  {
    hide Shape, NextHead, T.Without, Q.Without, QueueOf;
    var x := age[i];
    var b := bl.binNo[x];
    var bl', heads', age' := Disconnect(bl, x), heads[b := NextHead(bl, heads[b], x)], T.Without(age, i);
    var q, q' := QueueOf(bl, heads, age), QueueOf(bl', heads', age');
    forall k | 0 <= k < |age'| ensures q'[k] == Q.Without(q, i)[k] {
      var j := if k < i then k else k + 1;
      assert age'[k] == age[j] && Q.Without(q, i)[k] == q[j];
      UnlinkCount(bl, heads, age, i, j);
    }
  }

  lemma UnlinkCount(bl: Blocks, heads: seq<BinHeader>, age: seq<nat>, i: nat, j: nat)
    requires Shape(bl, heads, age) && i < |age| && j < |age| && i != j
    ensures var x := age[i];
            var b := bl.binNo[x];
            Count(bl, heads[b := NextHead(bl, heads[b], x)], age[j]) == Count(bl, heads, age[j])
  {
    hide T.Chain, T.Threaded, BinOk;
    AgeDistinct(bl, heads, age);
    T.DiffersAt(age, i, j);
  }

  // ---------- Free blocks ---------- //

  ghost predicate FreeAt(o: seq<int>, free: seq<nat>, i: nat)
    requires i < |free| && free[i] < |o|
  {
    o[free[i]] == T.NextOf(free, i)
  }

  /** The free list starts at `head` and goes on along the older pointers. */
  ghost predicate FreeOk(o: seq<int>, free: seq<nat>, head: int) {
    && head == T.FirstOf(free)
    && T.InRange(free, |o|)
    && forall i :: 0 <= i < |free| ==> FreeAt(o, free, i)
  }

  function TouchedCount(uninitTop: int, n: nat): int { if uninitTop == -1 then n else uninitTop }

  /** Used, free and never touched blocks: each block is one of the three. */
  ghost predicate Partition(age: seq<nat>, free: seq<nat>, uninitTop: int, n: nat)
    ensures Partition(age, free, uninitTop, n) ==> -1 <= uninitTop < n
  {
    && -1 <= uninitTop < n
    && T.Distinct(age + free)
    && T.InRange(age + free, TouchedCount(uninitTop, n))
    && |age| + |free| == TouchedCount(uninitTop, n)
  }

  /** Every block number below n is used, free or untouched, and never two of them. */
  lemma PartitionCovers(age: seq<nat>, free: seq<nat>, uninitTop: int, n: nat, x: nat)
    requires Partition(age, free, uninitTop, n) && x < n
    ensures x in age || x in free || (uninitTop != -1 && uninitTop <= x)
    ensures !(x in age && x in free)
  {
    var all := age + free;
    var top := TouchedCount(uninitTop, n);
    if x < top && x !in all {
      Crowded(all, top, x);
      assert false;
    }
    if x in age && x in free {
      var i :| 0 <= i < |age| && age[i] == x;
      var j :| 0 <= j < |free| && free[j] == x;
      T.DiffersAt(all, i, |age| + j);
      assert false;
    }
  }

  lemma {:induction false} Crowded(ids: seq<nat>, n: nat, x: nat)
    requires T.Distinct(ids) && T.InRange(ids, n) && x < n && x !in ids
    ensures |ids| < n
  {
    DistinctCount(ids + [x], n);
  }

  lemma {:induction false} DistinctCount(ids: seq<nat>, n: nat)
    requires T.Distinct(ids) && T.InRange(ids, n)
    ensures |ids| <= n
    decreases n
  {
    if ids != [] {
      assert ids[0] < n;
      if exists i :: 0 <= i < |ids| && ids[i] == n - 1 {
        var i :| 0 <= i < |ids| && ids[i] == n - 1;
        T.DistinctWithout(ids, i);
        var r := T.Without(ids, i);
        assert T.InRange(r, n - 1) by {
          forall k | 0 <= k < |r| ensures r[k] < n - 1 { assert r[k] in r; }
        }
        DistinctCount(r, n - 1);
      } else {
        DistinctCount(ids, n - 1);
      }
    }
  }

  lemma TakeFree(o: seq<int>, age: seq<nat>, free: seq<nat>, head: int, uninitTop: int, n: nat)
    requires Partition(age, free, uninitTop, n) && FreeOk(o, free, head) && head != -1 && |o| == n
    ensures 0 <= head < n && head !in age && head !in free[1..]
    ensures FreeOk(o, free[1..], o[head])
    ensures Partition(age + [head], free[1..], uninitTop, n)
  {
    var all, all' := age + free, age + [head] + free[1..];
    assert all' == all;
    assert all[|age|] == head;
    assert FreeAt(o, free, 0);
    forall i | 0 <= i < |free| - 1 ensures FreeAt(o, free[1..], i) { assert FreeAt(o, free, i + 1); }
    forall i | 0 <= i < |age| ensures age[i] != head { assert all[i] == age[i]; }
    forall i | 1 <= i < |free| ensures free[i] != head { assert all[|age| + i] == free[i]; }
  }

  lemma TakeFresh(age: seq<nat>, uninitTop: int, n: nat)
    requires Partition(age, [], uninitTop, n) && uninitTop != -1
    ensures uninitTop !in age
    ensures Partition(age + [uninitTop], [], if uninitTop == n - 1 then -1 else uninitTop + 1, n)
  {
    assert age + [] == age;
    assert age + [uninitTop] + [] == age + [uninitTop];
    forall x | x in age ensures x < uninitTop {}
    T.DistinctAppend(age, uninitTop);
  }

  lemma GiveBack(o: seq<int>, age: seq<nat>, free: seq<nat>, head: int, uninitTop: int, n: nat, i: nat)
    requires Partition(age, free, uninitTop, n) && FreeOk(o, free, head) && |o| == n && i < |age|
    requires age[i] < n
    ensures FreeOk(o[age[i] := head], [age[i]] + free, age[i])
    ensures Partition(T.Without(age, i), [age[i]] + free, uninitTop, n)
    ensures T.Distinct(age) && age[i] !in T.Without(age, i)
  {
    var x := age[i];
    var all := age + free;
    var free' := [x] + free;
    var all' := T.Without(age, i) + free';
    forall k | 0 <= k < |free| ensures free[k] != x { assert all[|age| + k] == free[k] && all[i] == x; }
    var o' := o[x := head];
    forall k | 0 <= k < |free'| ensures FreeAt(o', free', k) {
      if k > 0 { assert FreeAt(o, free, k - 1); }
    }
    forall a, b | 0 <= a < b < |age| ensures age[a] != age[b] { assert all[a] == age[a] && all[b] == age[b]; }
    T.DistinctWithout(age, i);
    SwapDistinct(age, free, i);
  }

  function SwapIndex(k: nat, i: nat, w: nat): nat {
    if k < i || k > w then k else if k < w then k + 1 else i
  }

  lemma SwapDistinct(age: seq<nat>, free: seq<nat>, i: nat)
    requires T.Distinct(age + free) && i < |age|
    ensures T.Distinct(T.Without(age, i) + ([age[i]] + free))
    ensures forall m :: T.InRange(age + free, m) ==> T.InRange(T.Without(age, i) + ([age[i]] + free), m)
  {
    var all, all' := age + free, T.Without(age, i) + ([age[i]] + free);
    var w := |age| - 1;
    forall k | 0 <= k < |all'| ensures all'[k] == all[SwapIndex(k, i, w)] {}
    forall a, b | 0 <= a < b < |all'| ensures all'[a] != all'[b] {
      T.DiffersAt(all, SwapIndex(a, i, w), SwapIndex(b, i, w));
    }
    forall m | T.InRange(age + free, m) ensures T.InRange(all', m) {}
  }

  lemma NoFreeList(o: seq<int>, free: seq<nat>, head: int)
    requires FreeOk(o, free, head)
    ensures head == -1 <==> free == []
  {}

  lemma FrameFree(o: seq<int>, x: nat, v: int, free: seq<nat>, head: int)
    requires FreeOk(o, free, head) && x < |o| && x !in free
    ensures FreeOk(o[x := v], free, head)
  {
    var o' := o[x := v];
    forall i | 0 <= i < |free| ensures FreeAt(o', free, i) { assert free[i] in free && FreeAt(o, free, i); }
  }

  /** Writing into a block that is on no list changes nothing that shows. */
  lemma FillBlock(bl: Blocks, heads: seq<BinHeader>, age: seq<nat>, x: nat, items: seq<Q.Offset>)
    requires Shape(bl, heads, age) && x < |bl.binNo| && x !in age && |items| == Q.CAPACITY
    ensures var filled := bl.(cache := bl.cache[x := items]);
            Shape(filled, heads, age) && QueueOf(filled, heads, age) == QueueOf(bl, heads, age)
  {
    hide T.Chain, T.Threaded;
    var filled := bl.(cache := bl.cache[x := items]);
    forall b | 0 <= b < |heads| ensures BinOk(filled, heads[b], age, b) { assert BinOk(bl, heads[b], age, b); }
    forall i | 0 <= i < |age| ensures BlockAt(filled, heads, age[i]) == BlockAt(bl, heads, age[i]) {
      assert age[i] in age;
    }
  }

  /** The older pointer of a block that is on no list may be reused for the free list. */
  lemma ReuseOlder(bl: Blocks, heads: seq<BinHeader>, age: seq<nat>, x: nat, v: int)
    requires Shape(bl, heads, age) && x < |bl.binNo| && x !in age
    ensures var bl' := bl.(older := bl.older[x := v]);
            Shape(bl', heads, age) && QueueOf(bl', heads, age) == QueueOf(bl, heads, age)
  {
    hide T.Chain, T.Threaded;
    var bl' := bl.(older := bl.older[x := v]);
    T.FrameThread(bl.older, bl.newer, bl'.older, bl.newer, age);
    forall b | 0 <= b < |heads| ensures BinOk(bl', heads[b], age, b) { assert BinOk(bl, heads[b], age, b); }
    forall i | 0 <= i < |age| ensures BlockAt(bl', heads, age[i]) == BlockAt(bl, heads, age[i]) {}
  }

  /** `unregister`: the ends of the age list once block i has left. */
  lemma EndsAfterRemove(bl: Blocks, heads: seq<BinHeader>, age: seq<nat>, i: nat)
    requires Shape(bl, heads, age) && i < |age|
    ensures age[i] < |bl.older| == |bl.newer|
    ensures T.LastOf(T.Without(age, i)) == if age[i] == T.LastOf(age) then bl.older[age[i]] else T.LastOf(age)
    ensures T.FirstOf(T.Without(age, i)) == if age[i] == T.FirstOf(age) then bl.newer[age[i]] else T.FirstOf(age)
  {
    hide BinOk;
    assert T.LinkedAt(bl.older, bl.newer, age, i);
    T.DiffersAt(age, i, 0);
    LastAfterRemove(bl.older, bl.newer, age, i);
  }

  lemma FreeAfterUnlink(bl: Blocks, heads: seq<BinHeader>, age: seq<nat>, free: seq<nat>, head: int, uninitTop: int,
          i: nat)
    requires Shape(bl, heads, age) && i < |age| && PointersIn(bl, age[i])
    requires FreeOk(bl.older, free, head) && Partition(age, free, uninitTop, |bl.binNo|)
    ensures FreeOk(Disconnect(bl, age[i]).older, free, head)
  {
    hide BinOk;
    var x := age[i];
    if bl.newer[x] != -1 {
      T.Neighbours(bl.older, bl.newer, age, i);
      AgeNotFree(age, free, uninitTop, |bl.binNo|, bl.newer[x]);
      FrameFree(bl.older, bl.newer[x], bl.older[x], free, head);
    }
  }

  lemma AgeNotFree(age: seq<nat>, free: seq<nat>, uninitTop: int, n: nat, x: nat)
    requires Partition(age, free, uninitTop, n) && x in age
    ensures x !in free
  {
    if x in free {
      var i :| 0 <= i < |age| && age[i] == x;
      var j :| 0 <= j < |free| && free[j] == x;
      T.DiffersAt(age + free, i, |age| + j);
      assert false;
    }
  }

  /** `disconnect` and `free_blocks().push`. */
  function Released(bl: Blocks, x: nat, head: int): (r: Blocks)
    requires BlocksOk(bl) && x < |bl.binNo| && PointersIn(bl, x)
    ensures |r.binNo| == |bl.binNo|
  {
    var d := Disconnect(bl, x);
    d.(older := d.older[x := head])
  }

  lemma ReleaseCorrect(bl: Blocks, heads: seq<BinHeader>, age: seq<nat>, free: seq<nat>, head: int, uninitTop: int,
          i: nat)
    requires Shape(bl, heads, age) && i < |age|
    requires FreeOk(bl.older, free, head) && Partition(age, free, uninitTop, |bl.binNo|)
    ensures PointersIn(bl, age[i])
    ensures var x := age[i];
            var b := bl.binNo[x];
            var bl', heads', age', free' :=
              Released(bl, x, head), heads[b := NextHead(bl, heads[b], x)], T.Without(age, i), [x] + free;
            && Shape(bl', heads', age')
            && QueueOf(bl', heads', age') == Q.Without(QueueOf(bl, heads, age), i)
            && FreeOk(bl'.older, free', x) && Partition(age', free', uninitTop, |bl'.binNo|)
  {
    hide Shape, Partition, FreeOk, QueueOf, PointersIn, NextHead;
    var x := age[i];
    var b := bl.binNo[x];
    UsedPointers(bl, heads, age, i);
    UnlinkCorrect(bl, heads, age, i);
    FreeAfterUnlink(bl, heads, age, free, head, uninitTop, i);
    var d := Disconnect(bl, x);
    GiveBack(d.older, age, free, head, uninitTop, |bl.binNo|, i);
    ReuseOlder(d, heads[b := NextHead(bl, heads[b], x)], T.Without(age, i), x, head);
  }

  /** Changing the active block's objects and their number changes that block of the queue only. */
  lemma SetActive(bl: Blocks, heads: seq<BinHeader>, age: seq<nat>, b: nat, items: seq<Q.Offset>, k: nat)
    requires Shape(bl, heads, age) && b < |heads| && heads[b].activeBlock != -1
    requires |items| == Q.CAPACITY && k <= Q.CAPACITY
    ensures 0 <= heads[b].activeBlock < |bl.cache|
    ensures var x := heads[b].activeBlock;
            var bl', heads' := bl.(cache := bl.cache[x := items]), heads[b := BinHeader(x, k)];
            var q := QueueOf(bl, heads, age);
            && Shape(bl', heads', age)
            && Q.Active(q, b) >= 0
            && QueueOf(bl', heads', age) == q[Q.Active(q, b) := Q.Block(b, items[..k])]
  {
    hide T.Chain, T.Threaded, Q.Active, BinOk;
    ActiveIs(bl, heads, age, b);
    var x := heads[b].activeBlock;
    var bl', heads' := bl.(cache := bl.cache[x := items]), heads[b := BinHeader(x, k)];
    var i := Q.Active(QueueOf(bl, heads, age), b);
    SetActiveShape(bl, heads, age, b, items, k);
    AgeDistinct(bl, heads, age);
    forall j | 0 <= j < |age| && j != i ensures BlockAt(bl', heads', age[j]) == BlockAt(bl, heads, age[j]) {
      T.DiffersAt(age, i, j);
    }
  }

  lemma SetActiveShape(bl: Blocks, heads: seq<BinHeader>, age: seq<nat>, b: nat, items: seq<Q.Offset>, k: nat)
    requires Shape(bl, heads, age) && b < |heads| && 0 <= heads[b].activeBlock < |bl.cache|
    requires |items| == Q.CAPACITY && k <= Q.CAPACITY
    ensures var x := heads[b].activeBlock;
            Shape(bl.(cache := bl.cache[x := items]), heads[b := BinHeader(x, k)], age)
  {
    hide T.Chain, T.Threaded;
    var x := heads[b].activeBlock;
    var bl', heads' := bl.(cache := bl.cache[x := items]), heads[b := BinHeader(x, k)];
    forall c | 0 <= c < |heads| ensures BinOk(bl', heads'[c], age, c) { assert BinOk(bl, heads[c], age, c); }
  }

  /** An active block that is the oldest of all is its bin's only block: once it goes, the bin has none. */
  lemma OldestActiveAlone(bl: Blocks, heads: seq<BinHeader>, age: seq<nat>)
    requires Shape(bl, heads, age) && |age| > 0 && heads[bl.binNo[age[0]]].activeBlock == age[0]
    ensures bl.binOlder[age[0]] == -1
  {
    hide T.Chain;
    var b := bl.binNo[age[0]];
    assert BinOk(bl, heads[b], age, b);
    T.ChainSplit(age, bl.binNo, b, 0);
    var chain := T.Chain(age, bl.binNo, b);
    T.ChainEmpty(bl.binNo, b);
    assert chain[0] == age[0];
    assert T.LinkedAt(bl.binOlder, bl.binNewer, chain, 0);
  }

  // ---------- Walking one bin ---------- //

  ghost predicate IdsOk(bl: Blocks, heads: seq<BinHeader>, ids: seq<nat>) {
    BlocksOk(bl) && forall i :: 0 <= i < |ids| ==> ids[i] < |bl.binNo| && bl.binNo[ids[i]] < |heads|
  }

  /** The objects of a list of blocks, oldest block first. */
  ghost function ItemsOf(bl: Blocks, heads: seq<BinHeader>, ids: seq<nat>): seq<Q.Offset>
    requires IdsOk(bl, heads, ids)
  {
    if ids == [] then []
    else ItemsOf(bl, heads, ids[..|ids| - 1]) + BlockAt(bl, heads, ids[|ids| - 1]).items
  }

  lemma ItemsAppend(bl: Blocks, heads: seq<BinHeader>, ids: seq<nat>, x: nat)
    requires IdsOk(bl, heads, ids) && x < |bl.binNo| && bl.binNo[x] < |heads|
    ensures IdsOk(bl, heads, ids + [x])
    ensures ItemsOf(bl, heads, ids + [x]) == ItemsOf(bl, heads, ids) + BlockAt(bl, heads, x).items
  {
    hide BlockAt;
    var all := ids + [x];
    assert all[..|ids|] == ids && all[|ids|] == x;
  }

  lemma ChainIds(bl: Blocks, heads: seq<BinHeader>, age: seq<nat>, b: nat)
    requires IdsOk(bl, heads, age) && T.InRange(age, |bl.binNo|)
    ensures IdsOk(bl, heads, T.Chain(age, bl.binNo, b))
  {
    hide T.Chain;
    var chain := T.Chain(age, bl.binNo, b);
    forall i | 0 <= i < |chain| ensures chain[i] < |bl.binNo| && bl.binNo[chain[i]] < |heads| {
      assert chain[i] in chain;
      var k :| 0 <= k < |age| && age[k] == chain[i];
    }
  }

  /** The bin's list holds exactly the bin's stack. */
  lemma {:induction false} ChainStack(bl: Blocks, heads: seq<BinHeader>, age: seq<nat>, q: Q.Queue, b: nat)
    requires IdsOk(bl, heads, age) && T.InRange(age, |bl.binNo|) && |q| == |age|
    requires forall i :: 0 <= i < |age| ==> q[i] == BlockAt(bl, heads, age[i])
    ensures IdsOk(bl, heads, T.Chain(age, bl.binNo, b))
    ensures ItemsOf(bl, heads, T.Chain(age, bl.binNo, b)) == Q.Stack(q, b)
    decreases |age|
  {
    hide ItemsOf, BlockAt;
    ChainIds(bl, heads, age, b);
    if age == [] {
      NoItems(bl, heads);
    } else {
      var n := |age| - 1;
      var rest, chain := T.Chain(age[..n], bl.binNo, b), T.Chain(age, bl.binNo, b);
      assert forall i :: 0 <= i < n ==> age[..n][i] == age[i] && q[..n][i] == q[i];
      ChainStack(bl, heads, age[..n], q[..n], b);
      if bl.binNo[age[n]] == b {
        assert chain == rest + [age[n]];
        ItemsAppend(bl, heads, rest, age[n]);
      } else {
        assert chain == rest;
      }
      BlockAtBin(bl, heads, age[n]);
      assert q[n].bin == bl.binNo[age[n]];
    }
  }

  lemma BlockAtBin(bl: Blocks, heads: seq<BinHeader>, x: nat)
    requires BlocksOk(bl) && x < |bl.binNo| && bl.binNo[x] < |heads|
    ensures BlockAt(bl, heads, x).bin == bl.binNo[x]
  {}

  lemma NoItems(bl: Blocks, heads: seq<BinHeader>)
    requires BlocksOk(bl)
    ensures ItemsOf(bl, heads, []) == []
  {}

  ghost function Reverse(s: seq<Q.Offset>): (r: seq<Q.Offset>)
    ensures |r| == |s| && forall i :: 0 <= i < |s| ==> r[i] == s[|s| - 1 - i]
  {
    seq(|s|, i requires 0 <= i < |s| => s[|s| - 1 - i])
  }

  /** A bin's list of blocks, all full but the last one. */
  ghost predicate BinList(bl: Blocks, heads: seq<BinHeader>, b: nat, chain: seq<nat>) {
    && BlocksOk(bl) && b < |heads| && T.Threaded(bl.binOlder, bl.binNewer, chain)
    && T.InRange(chain, |bl.binNo|) && IdsOk(bl, heads, chain)
    && (forall i :: 0 <= i < |chain| ==> bl.binNo[chain[i]] == b)
    && heads[b].activeBlock == T.LastOf(chain) && heads[b].activeBlockSize <= Q.CAPACITY
    && (chain == [] ==> heads[b].activeBlockSize == 0)
  }

  lemma IdsPrefix(bl: Blocks, heads: seq<BinHeader>, ids: seq<nat>, j: nat)
    requires IdsOk(bl, heads, ids) && j <= |ids|
    ensures IdsOk(bl, heads, ids[..j])
  {}

  lemma BinListOf(bl: Blocks, heads: seq<BinHeader>, age: seq<nat>, b: nat)
    requires Shape(bl, heads, age) && b < |heads|
    ensures var chain := T.Chain(age, bl.binNo, b);
            && BinList(bl, heads, b, chain) && T.InRange(chain, |bl.binNo|) && IdsOk(bl, heads, chain)
            && heads[b].activeBlock == T.LastOf(chain) && BlocksOk(bl)
            && forall i :: 0 <= i < |chain| ==> chain[i] < |bl.cache| && |bl.cache[chain[i]]| == Q.CAPACITY
  {
    hide T.Chain;
    assert BinOk(bl, heads[b], age, b);
    var chain := T.Chain(age, bl.binNo, b);
    forall i | 0 <= i < |chain| ensures bl.binNo[chain[i]] == b { assert chain[i] in chain; }
  }

  lemma BinListCount(bl: Blocks, heads: seq<BinHeader>, b: nat, chain: seq<nat>, j: nat)
    requires BinList(bl, heads, b, chain) && j < |chain|
    ensures Count(bl, heads, chain[j]) == if j == |chain| - 1 then heads[b].activeBlockSize else Q.CAPACITY
    ensures bl.binOlder[chain[j]] == T.PrevOf(chain, j)
  {
    assert T.LinkedAt(bl.binOlder, bl.binNewer, chain, j);
    T.DiffersAt(chain, j, |chain| - 1);
  }

  /** What a walk standing at object `pos` of block j has yet to visit. */
  ghost function Ahead(bl: Blocks, heads: seq<BinHeader>, b: nat, chain: seq<nat>, j: int, pos: nat): seq<Q.Offset>
    requires BinList(bl, heads, b, chain) && -1 <= j < |chain| && (j >= 0 ==> pos < Q.CAPACITY)
  {
    if j == -1 then [] else
    IdsPrefix(bl, heads, chain, j);
    ItemsOf(bl, heads, chain[..j]) + bl.cache[chain[j]][..pos + 1]
  }

  lemma NothingAhead(bl: Blocks, heads: seq<BinHeader>, b: nat, chain: seq<nat>, pos: nat)
    requires BinList(bl, heads, b, chain)
    ensures Ahead(bl, heads, b, chain, -1, pos) == [] && Reverse([]) == []
  {}

  /** Where `begin` starts: everything is ahead. */
  lemma WalkStart(bl: Blocks, heads: seq<BinHeader>, b: nat, chain: seq<nat>)
    requires BinList(bl, heads, b, chain)
    ensures var n, k := |chain|, heads[b].activeBlockSize;
            && (k > 0 ==> Ahead(bl, heads, b, chain, n - 1, k - 1) == ItemsOf(bl, heads, chain))
            && (k == 0 && n <= 1 ==> ItemsOf(bl, heads, chain) == [])
            && (k == 0 && n > 1 ==> Ahead(bl, heads, b, chain, n - 2, Q.CAPACITY - 1) == ItemsOf(bl, heads, chain))
            && (n > 0 ==> bl.binOlder[chain[n - 1]] == T.PrevOf(chain, n - 1))
            && k <= Q.CAPACITY && heads[b].activeBlock == (if n == 0 then -1 else chain[n - 1]) && (n == 0 ==> k == 0)
  {
    hide T.Threaded, ItemsOf;
    var n := |chain|;
    if n == 0 {
      NoItems(bl, heads);
    } else {
      BinListCount(bl, heads, b, chain, n - 1);
      assert chain == chain[..n - 1] + [chain[n - 1]];
      IdsPrefix(bl, heads, chain, n - 1);
      ItemsAppend(bl, heads, chain[..n - 1], chain[n - 1]);
      if n == 1 {
        NoItems(bl, heads);
      } else {
        BinListCount(bl, heads, b, chain, n - 2);
        assert chain[..n - 1] == chain[..n - 2] + [chain[n - 2]];
        IdsPrefix(bl, heads, chain, n - 2);
        ItemsAppend(bl, heads, chain[..n - 2], chain[n - 2]);
      }
    }
  }

  /** One `++`: the object passed is the last one that was ahead. */
  lemma WalkStep(bl: Blocks, heads: seq<BinHeader>, b: nat, chain: seq<nat>, j: nat, pos: nat)
    requires BinList(bl, heads, b, chain) && j < |chain| && pos < Q.CAPACITY
    ensures bl.binOlder[chain[j]] == T.PrevOf(chain, j)
    ensures Ahead(bl, heads, b, chain, j, pos) ==
            (if pos > 0 then Ahead(bl, heads, b, chain, j, pos - 1)
             else Ahead(bl, heads, b, chain, j - 1, Q.CAPACITY - 1))
            + [bl.cache[chain[j]][pos]]
  {
    hide T.Threaded, ItemsOf;
    BinListCount(bl, heads, b, chain, j);
    var items := bl.cache[chain[j]];
    assert items[..pos + 1] == items[..pos] + [items[pos]];
    IdsPrefix(bl, heads, chain, j);
    if pos == 0 {
      if j == 0 {
        NoItems(bl, heads);
      } else {
        BinListCount(bl, heads, b, chain, j - 1);
        assert chain[..j] == chain[..j - 1] + [chain[j - 1]];
        IdsPrefix(bl, heads, chain, j - 1);
        ItemsAppend(bl, heads, chain[..j - 1], chain[j - 1]);
        assert bl.cache[chain[j - 1]][..Q.CAPACITY] == bl.cache[chain[j - 1]];
      }
    }
  }

  lemma ReverseStep(s: seq<Q.Offset>, x: Q.Offset, visited: seq<Q.Offset>)
    ensures visited + Reverse(s + [x]) == (visited + [x]) + Reverse(s)
  {
    assert Reverse(s + [x]) == [x] + Reverse(s);
  }

  /** A list's blocks that hold objects, newest first. */
  ghost function NewestFirst(bl: Blocks, heads: seq<BinHeader>, b: nat, ids: seq<nat>): Q.Queue
    requires IdsOk(bl, heads, ids)
  {
    if ids == [] then []
    else Q.Newest(BlockAt(bl, heads, ids[|ids| - 1]), b) + NewestFirst(bl, heads, b, ids[..|ids| - 1])
  }

  lemma NewestAppend(bl: Blocks, heads: seq<BinHeader>, b: nat, ids: seq<nat>, x: nat)
    requires IdsOk(bl, heads, ids + [x]) && IdsOk(bl, heads, ids) && BlocksOk(bl) && x < |bl.binNo|
             && bl.binNo[x] < |heads|
    ensures NewestFirst(bl, heads, b, ids + [x]) == Q.Newest(BlockAt(bl, heads, x), b) + NewestFirst(bl, heads, b, ids)
  {
    hide BlockAt, Q.Newest;
    assert (ids + [x])[..|ids + [x]| - 1] == ids;
  }

  lemma FlushBinLast(q: Q.Queue, b: nat)
    ensures Q.FlushBin(q, b) == if |q| == 0 then [] else Q.Newest(q[|q| - 1], b) + Q.FlushBin(q[..|q| - 1], b)
  {
    hide Q.Newest;
  }

  /** The blocks a list stands for. */
  ghost predicate Stands(bl: Blocks, heads: seq<BinHeader>, age: seq<nat>, q: Q.Queue) {
    && IdsOk(bl, heads, age) && T.InRange(age, |bl.binNo|) && |q| == |age|
    && forall i :: 0 <= i < |age| ==> q[i] == BlockAt(bl, heads, age[i])
  }

  lemma StandsSplit(bl: Blocks, heads: seq<BinHeader>, age: seq<nat>, q: Q.Queue, n: nat)
    requires Stands(bl, heads, age, q) && n < |age|
    ensures Stands(bl, heads, age[..n], q[..n]) && BlocksOk(bl) && age[n] < |bl.binNo| && bl.binNo[age[n]] < |heads|
    ensures q[n] == BlockAt(bl, heads, age[n]) && IdsOk(bl, heads, [age[n]])
  {
    hide BlockAt;
    assert forall i :: 0 <= i < n ==> age[..n][i] == age[i] && q[..n][i] == q[i];
  }

  lemma {:induction false} ChainFlush(bl: Blocks, heads: seq<BinHeader>, age: seq<nat>, q: Q.Queue, b: nat)
    requires Stands(bl, heads, age, q)
    ensures IdsOk(bl, heads, T.Chain(age, bl.binNo, b))
    ensures NewestFirst(bl, heads, b, T.Chain(age, bl.binNo, b)) == Q.FlushBin(q, b)
    decreases |age|
  {
    hide BlockAt, T.Chain, Q.Newest, Q.FlushBin;
    ChainIds(bl, heads, age, b);
    FlushBinLast(q, b);
    if age == [] {
      T.ChainEmpty(bl.binNo, b);
    } else {
      hide Stands, NewestFirst, IdsOk, T.InRange;
      var n := |age| - 1;
      StandsSplit(bl, heads, age, q, n);
      ChainFlush(bl, heads, age[..n], q[..n], b);
      ChainLast(bl.binNo, age, b);
      if bl.binNo[age[n]] == b {
        NewestAppend(bl, heads, b, T.Chain(age[..n], bl.binNo, b), age[n]);
      } else {
        NothingNewest(bl, heads, age[n], b);
      }
    }
  }

  lemma ChainLast(binNo: seq<nat>, age: seq<nat>, b: nat)
    requires age != [] && T.InRange(age, |binNo|)
    ensures var n := |age| - 1;
            T.Chain(age, binNo, b) ==
            if binNo[age[n]] == b then T.Chain(age[..n], binNo, b) + [age[n]] else T.Chain(age[..n], binNo, b)
  {}

  lemma NothingNewest(bl: Blocks, heads: seq<BinHeader>, x: nat, b: nat)
    requires IdsOk(bl, heads, [x]) && x < |bl.binNo| && bl.binNo[x] < |heads| && bl.binNo[x] != b
    ensures Q.Newest(BlockAt(bl, heads, x), b) == []
  {
    BlockAtBin(bl, heads, x);
  }

  lemma FlushStep(bl: Blocks, heads: seq<BinHeader>, b: nat, chain: seq<nat>, j: nat)
    requires IdsOk(bl, heads, chain) && j < |chain|
    ensures IdsOk(bl, heads, chain[..j]) && IdsOk(bl, heads, chain[..j + 1])
    ensures NewestFirst(bl, heads, b, chain[..j + 1]) ==
            Q.Newest(BlockAt(bl, heads, chain[j]), b) + NewestFirst(bl, heads, b, chain[..j])
  {
    assert chain[..j + 1][..j] == chain[..j];
  }

  /** The blocks flushed so far and those from position j down make up all of them. */
  ghost predicate Flushing(bl: Blocks, heads: seq<BinHeader>, b: nat, chain: seq<nat>, j: int, flushed: Q.Queue,
          all: Q.Queue) {
    -1 <= j < |chain| && IdsOk(bl, heads, chain[..j + 1]) && flushed + NewestFirst(bl, heads, b, chain[..j + 1]) == all
  }

  lemma FlushingStart(bl: Blocks, heads: seq<BinHeader>, age: seq<nat>, q: Q.Queue, b: nat)
    requires IdsOk(bl, heads, age) && T.InRange(age, |bl.binNo|) && |q| == |age|
    requires forall i :: 0 <= i < |age| ==> q[i] == BlockAt(bl, heads, age[i])
    ensures var chain := T.Chain(age, bl.binNo, b);
            Flushing(bl, heads, b, chain, |chain| - 1, [], Q.FlushBin(q, b))
  {
    hide BlockAt, T.Chain, NewestFirst, Q.FlushBin;
    ChainFlush(bl, heads, age, q, b);
    var chain := T.Chain(age, bl.binNo, b);
    assert chain[..|chain|] == chain;
    assert [] + NewestFirst(bl, heads, b, chain) == NewestFirst(bl, heads, b, chain);
  }

  lemma BinListStart(bl: Blocks, heads: seq<BinHeader>, b: nat, chain: seq<nat>)
    requires BinList(bl, heads, b, chain)
    ensures heads[b].activeBlock == if chain == [] then -1 else chain[|chain| - 1]
  {
    hide T.Threaded;
  }

  /** One block more: its objects, if it has any, and on to the next older one. */
  lemma FlushingStep(bl: Blocks, heads: seq<BinHeader>, b: nat, chain: seq<nat>, j: nat, flushed: Q.Queue, all: Q.Queue)
    requires BinList(bl, heads, b, chain) && Flushing(bl, heads, b, chain, j, flushed, all)
    ensures chain[j] < |bl.cache| && chain[j] < |bl.binOlder|
    ensures var count := if j == |chain| - 1 then heads[b].activeBlockSize else Q.CAPACITY;
            && count <= |bl.cache[chain[j]]|
            && Flushing(bl, heads, b, chain, j - 1,
                        if count > 0 then flushed + [Q.Block(b, bl.cache[chain[j]][..count])] else flushed, all)
            && bl.binOlder[chain[j]] == if j == 0 then -1 else chain[j - 1]
  {
    hide T.Threaded, NewestFirst;
    BinListCount(bl, heads, b, chain, j);
    FlushStep(bl, heads, b, chain, j);
    var rest, one := NewestFirst(bl, heads, b, chain[..j]), Q.Newest(BlockAt(bl, heads, chain[j]), b);
    assert flushed + (one + rest) == (flushed + one) + rest;
    assert flushed + [] == flushed;
  }

  lemma FlushingEnd(bl: Blocks, heads: seq<BinHeader>, b: nat, chain: seq<nat>, flushed: Q.Queue, all: Q.Queue)
    requires Flushing(bl, heads, b, chain, -1, flushed, all)
    ensures flushed == all
  {
    assert flushed + [] == flushed;
  }

  lemma PushIs(q: Q.Queue, b: nat, o: Q.Offset)
    ensures var i := Q.Active(q, b);
            if i == -1 || |q[i].items| == Q.CAPACITY then Q.Push(q, b, o) == q + [Q.Block(b, [o])]
            else Q.Push(q, b, o) == q[i := Q.Block(b, q[i].items + [o])]
  {}

  lemma EmptyThenOne(q: Q.Queue, b: nat, o: Q.Offset)
    ensures var r := q + [Q.Block(b, [])];
            r[|q| := Q.Block(b, r[|q|].items + [o])] == q + [Q.Block(b, [o])]
  {
    assert [] + [o] == [o];
  }

  // ---------- The cache ---------- //

  ghost predicate ListsOf(n: nat, blocks: Blocks, heads: seq<BinHeader>, oldestBlock: int, newestBlock: int,
                          freeBlocks: int, uninitTop: int, age: seq<nat>, free: seq<nat>)
    ensures ListsOf(n, blocks, heads, oldestBlock, newestBlock, freeBlocks, uninitTop, age, free) ==>
              Shape(blocks, heads, age) && oldestBlock == T.FirstOf(age)
  {
    && |blocks.binNo| == n
    && Shape(blocks, heads, age)
    && oldestBlock == T.FirstOf(age) && newestBlock == T.LastOf(age)
    && FreeOk(blocks.older, free, freeBlocks)
    && Partition(age, free, uninitTop, n)
  }

  /** Lists with no block in use and none touched. */
  lemma UntouchedLists(n: nat, bl: Blocks, numBins: nat)
    requires BlocksOk(bl) && |bl.binNo| == n && n > 0
    ensures var heads := seq(numBins, _ => BinHeader(-1, 0));
            ListsOf(n, bl, heads, -1, -1, -1, 0, [], []) && QueueOf(bl, heads, []) == []
  {}

  class ObjectCache {
    const cfg: Config
    const maxBytes: nat
    var blocks: Blocks
    var heads: seq<BinHeader>
    var totalSizeByte: nat
    var oldestBlock: int
    var newestBlock: int
    var freeBlocks: int
    var uninitTop: int
    ghost var age: seq<nat>
    ghost var free: seq<nat>

    /** The lists, the free blocks and the partition, everything but the byte count. */
    ghost predicate Lists()
      reads this`blocks, this`heads, this`oldestBlock, this`newestBlock, this`freeBlocks, this`uninitTop, this`age,
            this`free
    {
      && ValidConfig(cfg) && maxBytes >= 1024
      && ListsOf(NumBlocks(cfg, maxBytes), blocks, heads, oldestBlock, newestBlock, freeBlocks, uninitTop, age, free)
    }

    ghost predicate Valid()
      reads this
    {
      && Lists()
      && totalSizeByte == Bytes(cfg, Queue()) <= maxBytes
    }

    ghost function Queue(): Q.Queue
      requires Lists()
      reads this`blocks, this`heads, this`oldestBlock, this`newestBlock, this`freeBlocks, this`uninitTop, this`age,
            this`free
    {
      QueueOf(blocks, heads, age)
    }

    lemma ListFacts()
      requires Lists()
      ensures ValidConfig(cfg) && maxBytes >= 1024 && Shape(blocks, heads, age) && oldestBlock == T.FirstOf(age)
      ensures Queue() == QueueOf(blocks, heads, age)
    {
      hide NumBlocks;
    }

    lemma ConfigFacts()
      requires Lists()
      ensures ValidConfig(cfg) && maxBytes >= 1024
    {
      hide NumBlocks, ListsOf;
    }

    lemma BlockFacts()
      requires Lists()
      ensures BlocksOk(blocks) && |blocks.binNo| == NumBlocks(cfg, maxBytes)
    {
      hide NumBlocks, Partition, FreeOk;
    }

    /** An empty cache: no block has been touched yet. */
    constructor (cfg: Config, maxBytes: nat, numBins: nat)
      requires ValidConfig(cfg) && maxBytes >= 1024
      ensures Valid() && Queue() == [] && this.cfg == cfg && this.maxBytes == maxBytes && |heads| == numBins
    {
      hide NumBlocks, Bytes, ListsOf, Shape, QueueOf;
      SmallestBudget(cfg, maxBytes);
      this.cfg, this.maxBytes := cfg, maxBytes;
      var n := NumBlocks(cfg, maxBytes);
      blocks := Blocks(seq(n, _ => 0), seq(n, _ => -1), seq(n, _ => -1), seq(n, _ => -1), seq(n, _ => -1),
                       seq(n, _ => seq(Q.CAPACITY, _ => Q.Null)));
      heads := seq(numBins, _ => BinHeader(-1, 0));
      totalSizeByte, oldestBlock, newestBlock, freeBlocks, uninitTop := 0, -1, -1, -1, 0;
      age, free := [], [];
      new;
      UntouchedLists(n, blocks, numBins);
      EmptyBytes(cfg);
    }

    /** `free_blocks().empty()`. */
    function NoFreeBlock(): (e: bool)
      requires Lists()
      reads this
      ensures e <==> |Queue()| == NumBlocks(cfg, maxBytes)
      ensures |Queue()| <= NumBlocks(cfg, maxBytes)
    {
      freeBlocks == -1 && uninitTop == -1
    }

    /** `free_blocks().pop()`: a block that was used before, or else the next untouched one. */
    method TakeBlock() returns (x: nat)
      requires Lists() && !NoFreeBlock()
      modifies this`freeBlocks, this`uninitTop, this`free
      ensures x < |blocks.binNo| && x !in age && x !in free
      ensures FreeOk(blocks.older, free, freeBlocks) && Partition(age + [x], free, uninitTop, |blocks.binNo|)
    {
      hide NumBlocks, Shape, Partition, FreeOk, QueueOf;
      NoFreeList(blocks.older, free, freeBlocks);
      if freeBlocks != -1 {
        TakeFree(blocks.older, age, free, freeBlocks, uninitTop, |blocks.binNo|);
        x := freeBlocks;
        freeBlocks := blocks.older[x];
        free := free[1..];
      } else {
        TakeFresh(age, uninitTop, |blocks.binNo|);
        x := uninitTop;
        uninitTop := if uninitTop == |blocks.binNo| - 1 then -1 else uninitTop + 1;
      }
    }

    /** A free block gets the given content and, by `clear`, `link_to_older`, `register_new_block` and
        `update_active_block`, becomes the newest block of bin b with k objects. */
    method AddBlock(b: nat, content: seq<Q.Offset>, k: nat)
      requires Lists() && !NoFreeBlock() && b < |heads| && k <= |content| <= Q.CAPACITY
      requires heads[b].activeBlock == -1 || heads[b].activeBlockSize == Q.CAPACITY
      modifies this`blocks, this`heads, this`oldestBlock, this`newestBlock, this`freeBlocks, this`uninitTop,
               this`age, this`free
      ensures Lists() && Queue() == old(Queue()) + [Q.Block(b, content[..k])]
      ensures |heads| == old(|heads|)
    {
      hide NumBlocks, Shape, Partition, FreeOk, QueueOf;
      LastIn(blocks, heads, age, b);
      var x := TakeBlock();
      var items := content + blocks.cache[x][|content|..];
      assert items[..k] == content[..k];
      FillBlock(blocks, heads, age, x, items);
      FrameFree(blocks.older, x, newestBlock, free, freeBlocks);
      ghost var olders := blocks.older;
      blocks := blocks.(cache := blocks.cache[x := items]);
      LinkNewCorrect(blocks, heads, age, x, b, k);
      blocks := LinkNew(blocks, x, b, newestBlock, heads[b].activeBlock);
      assert blocks.older == olders[x := newestBlock];
      newestBlock, oldestBlock := x, if oldestBlock == -1 then x else oldestBlock;
      heads, age := heads[b := BinHeader(x, k)], age + [x];
    }

    /** `unregister`, `disconnect` and `free_blocks().push`: block x leaves both lists. Its bin's header becomes
        `head`, which is to be that of the next older block if x was the active one. */
    method ReleaseBlock(x: nat, head: BinHeader, ghost i: nat)
      requires Lists() && i < |age| && age[i] == x && head == NextHead(blocks, heads[blocks.binNo[x]], x)
      modifies this`blocks, this`heads, this`oldestBlock, this`newestBlock, this`freeBlocks, this`age, this`free
      ensures Lists() && Queue() == Q.Without(old(Queue()), i) && |heads| == old(|heads|)
    {
      hide NumBlocks, Shape, Partition, FreeOk, QueueOf, PointersIn, NextHead, Released;
      var b := blocks.binNo[x];
      EndsAfterRemove(blocks, heads, age, i);
      ReleaseCorrect(blocks, heads, age, free, freeBlocks, uninitTop, i);
      newestBlock, oldestBlock :=
        if x == newestBlock then blocks.older[x] else newestBlock,
        if x == oldestBlock then blocks.newer[x] else oldestBlock;
      heads, blocks, freeBlocks, age, free :=
        heads[b := head], Released(blocks, x, freeBlocks), x, T.Without(age, i), [x] + free;
    }

    /** One turn of `priv_make_room_for_new_blocks`: the oldest block's objects are handed to the
        deallocator, which is to be called with what is returned. */
    method EvictOldest() returns (evicted: Q.Block)
      requires Valid() && |Queue()| > 0
      modifies this
      ensures Valid() && |heads| == old(|heads|)
      ensures evicted == old(Queue()[0]) && Queue() == old(Queue())[1..]
    {
      hide Lists, Queue, NumBlocks, Shape, QueueOf, Bytes, ObjectSize, Q.Active;
      ListFacts();
      ghost var q := Queue();
      BytesFirst(cfg, q);
      assert Q.Without(q, 0) == q[1..];
      var x := oldestBlock;
      assert q[0] == BlockAt(blocks, heads, age[0]);
      var b := blocks.binNo[x];
      var numObjects := if heads[b].activeBlock == x then heads[b].activeBlockSize else Q.CAPACITY;
      ActiveIs(blocks, heads, age, b);
      evicted := Q.Block(b, blocks.cache[x][..numObjects]);
      assert evicted == q[0] && BlockBytes(cfg, q[0]) == numObjects * ObjectSize(cfg, b);
      totalSizeByte := totalSizeByte - numObjects * ObjectSize(cfg, b);
      var head := heads[b];
      if heads[b].activeBlock == x {
        OldestActiveAlone(blocks, heads, age);
        head := BinHeader(-1, 0);
      }
      ReleaseBlock(x, head, 0);
      assert Queue() == q[1..];
    }

    /** `priv_make_room_for_new_blocks`. */
    method MakeRoom(need: nat) returns (evicted: seq<Q.Block>)
      requires Valid() && need <= maxBytes
      modifies this
      ensures Valid() && |heads| == old(|heads|) && NumBlocks(cfg, maxBytes) > 0
      ensures var r := CacheBudget.MakeRoom(cfg, maxBytes, old(Queue()), need);
              evicted == r.0 && Queue() == r.1
    {
      hide ListsOf, NumBlocks, Shape, Partition, FreeOk, QueueOf, Bytes, CacheBudget.MakeRoom;
      SmallestBudget(cfg, maxBytes);
      ghost var goal := CacheBudget.MakeRoom(cfg, maxBytes, Queue(), need);
      evicted := [];
      assert evicted + goal.0 == goal.0;
      while totalSizeByte + need > maxBytes || NoFreeBlock()
        invariant Valid() && |heads| == old(|heads|)
        invariant evicted + CacheBudget.MakeRoom(cfg, maxBytes, Queue(), need).0 == goal.0
        invariant CacheBudget.MakeRoom(cfg, maxBytes, Queue(), need).1 == goal.1
        decreases |Queue()|
      {
        MakeRoomStep(cfg, maxBytes, Queue(), need);
        var block := EvictOldest();
        ghost var rest := CacheBudget.MakeRoom(cfg, maxBytes, Queue(), need).0;
        assert evicted + ([block] + rest) == (evicted + [block]) + rest;
        evicted := evicted + [block];
      }
      MakeRoomStep(cfg, maxBytes, Queue(), need);
      assert evicted + [] == evicted;
    }

    /** An object is stored on top of the active block. */
    method StoreTop(b: nat, o: Q.Offset)
      requires Lists() && b < |heads| && heads[b].activeBlock != -1 && heads[b].activeBlockSize < Q.CAPACITY
      modifies this`blocks, this`heads
      ensures Lists() && |heads| == old(|heads|)
      ensures var q, i := old(Queue()), old(Q.Active(Queue(), b));
              i >= 0 && Queue() == q[i := Q.Block(b, q[i].items + [o])]
    {
      hide NumBlocks, Shape, Partition, FreeOk, QueueOf, Q.Active;
      LastIn(blocks, heads, age, b);
      ActiveIs(blocks, heads, age, b);
      var x, k := heads[b].activeBlock, heads[b].activeBlockSize;
      var items := blocks.cache[x][k := o];
      SetActive(blocks, heads, age, b, items, k + 1);
      assert items[..k + 1] == blocks.cache[x][..k] + [o];
      blocks, heads := blocks.(cache := blocks.cache[x := items]), heads[b := BinHeader(x, k + 1)];
    }

    /** The top object is taken from the active block. */
    method TakeTop(b: nat) returns (o: Q.Offset)
      requires Lists() && b < |heads| && heads[b].activeBlockSize > 0
      modifies this`heads, this`blocks
      ensures Lists() && |heads| == old(|heads|)
      ensures var q := old(Queue());
              && old(Q.Active(Queue(), b)) >= 0 && |q[old(Q.Active(Queue(), b))].items| > 0
              && o == Q.Top(q, b) && Queue() == Q.TakeTop(q, b)
    {
      hide NumBlocks, Shape, Partition, FreeOk, QueueOf, Q.Active;
      LastIn(blocks, heads, age, b);
      ActiveIs(blocks, heads, age, b);
      ghost var q := Queue();
      var x, k := heads[b].activeBlock, heads[b].activeBlockSize - 1;
      SetActive(blocks, heads, age, b, blocks.cache[x], k);
      o := blocks.cache[x][k];
      assert q[Q.Active(q, b)].items[..k] == blocks.cache[x][..k];
      assert blocks.cache[x := blocks.cache[x]] == blocks.cache;
      heads := heads[b := BinHeader(x, k)];
    }

    /** A block without objects becomes the active one. */
    method AddEmptyBlock(b: nat)
      requires Lists() && !NoFreeBlock() && b < |heads|
      requires heads[b].activeBlock == -1 || heads[b].activeBlockSize == Q.CAPACITY
      modifies this`blocks, this`heads, this`oldestBlock, this`newestBlock, this`freeBlocks, this`uninitTop,
               this`age, this`free
      ensures Lists() && Queue() == old(Queue()) + [Q.Block(b, [])] && |heads| == old(|heads|)
      ensures Q.Active(Queue(), b) == |old(Queue())| && heads[b].activeBlock != -1 && heads[b].activeBlockSize == 0
    {
      hide ListsOf, NumBlocks, Shape, Partition, FreeOk, QueueOf, Q.Active;
      ghost var q := Queue();
      AddBlock(b, [], 0);
      assert Queue() == q + [Q.Block(b, [])];
      Q.ActiveUnique(Queue(), b, |q|);
      ActiveIs(blocks, heads, age, b);
    }

    /** The object goes on top of its bin's active block, or into a new one. */
    method StoreObject(b: nat, o: Q.Offset)
      requires Lists() && b < |heads| && !NoFreeBlock()
      modifies this`blocks, this`heads, this`oldestBlock, this`newestBlock, this`freeBlocks, this`uninitTop,
               this`age, this`free
      ensures Lists() && Queue() == Q.Push(old(Queue()), b, o) && |heads| == old(|heads|)
    {
      hide Lists, Queue, NumBlocks, Shape, QueueOf, Q.Active, Q.Push;
      ListFacts();
      ghost var q := Queue();
      PushIs(q, b, o);
      ActiveIs(blocks, heads, age, b);
      if heads[b].activeBlock == -1 || heads[b].activeBlockSize == Q.CAPACITY {
        AddEmptyBlock(b);
        StoreTop(b, o);
        EmptyThenOne(q, b, o);
      } else {
        StoreTop(b, o);
      }
    }

    /** More bytes are counted; the lists stay as they are. */
    method CountBytes(n: nat)
      requires Lists()
      modifies this`totalSizeByte
      ensures Lists() && Queue() == old(Queue()) && NoFreeBlock() == old(NoFreeBlock())
              && totalSizeByte == old(totalSizeByte) + n
    {
      hide ListsOf, QueueOf, NumBlocks;
      totalSizeByte := totalSizeByte + n;
    }

    /** The part of `priv_push` after room has been made: the object is stored and its bytes are counted. */
    method PushEnd(b: nat, o: Q.Offset)
      requires Valid() && b < |heads| && Room(cfg, maxBytes, Queue(), ObjectSize(cfg, b))
      modifies this
      ensures Valid() && |heads| == old(|heads|) && Queue() == Q.Push(old(Queue()), b, o)
    {
      hide Lists, Queue, NumBlocks, Bytes, ObjectSize, Q.Push, Shape, QueueOf;
      ConfigFacts();
      BytesPush(cfg, Queue(), b, o);
      CountBytes(ObjectSize(cfg, b));
      StoreObject(b, o);
    }

    /** `priv_push`: makes room for one object, then stores it; hands back what was evicted. */
    method Push(b: nat, o: Q.Offset) returns (evicted: seq<Q.Block>)
      requires Valid() && b < |heads| && ObjectSize(cfg, b) <= maxBytes
      modifies this
      ensures Valid() && |heads| == old(|heads|) && NumBlocks(cfg, maxBytes) > 0
      ensures var r := CacheBudget.MakeRoom(cfg, maxBytes, old(Queue()), ObjectSize(cfg, b));
              evicted == r.0 && Queue() == Q.Push(r.1, b, o)
    {
      hide Lists, Queue, NumBlocks, Bytes, CacheBudget.MakeRoom, ObjectSize, Q.Push, Shape, QueueOf, Room;
      ConfigFacts();
      evicted := MakeRoom(ObjectSize(cfg, b));
      PushEnd(b, o);
    }

    /** First half of `priv_pop`: gives back an empty active block; if the bin then has no objects,
        makes room for a refill. */
    method PopBegin(b: nat) returns (refill: bool, evicted: seq<Q.Block>)
      requires Valid() && b < |heads| && RefillBytes(cfg, b) <= maxBytes
      modifies this
      ensures Valid() && |heads| == old(|heads|) && NumBlocks(cfg, maxBytes) > 0
      ensures var q := Q.DropEmpty(old(Queue()), b);
              var r := CacheBudget.MakeRoom(cfg, maxBytes, q, RefillBytes(cfg, b));
              && (refill <==> Q.Active(q, b) == -1)
              && (refill ==> evicted == r.0 && Queue() == r.1 && heads[b].activeBlock == -1)
              && (!refill ==> evicted == [] && Queue() == q && heads[b].activeBlockSize > 0)
    {
      hide ListsOf, NumBlocks, Shape, Partition, FreeOk, QueueOf, Bytes, CacheBudget.MakeRoom, Q.Active, ObjectSize;
      SmallestBudget(cfg, maxBytes);
      ghost var q := Queue();
      refill, evicted := false, [];
      ActiveIs(blocks, heads, age, b);
      QueuePacked(blocks, heads, age);
      Q.DropEmptyCorrect(q, b, b);
      if heads[b].activeBlockSize == 0 {
        if heads[b].activeBlock != -1 {
          BytesDropEmpty(cfg, q, b);
          var x := heads[b].activeBlock;
          ReleaseBlock(x, NextHead(blocks, heads[b], x), Q.Active(q, b));
        }
        ghost var r := Queue();
        assert r == Q.DropEmpty(q, b);
        ActiveIs(blocks, heads, age, b);
        if heads[b].activeBlockSize == 0 {
          MakeRoomActive(cfg, maxBytes, r, RefillBytes(cfg, b), b);
          refill := true;
          evicted := MakeRoom(RefillBytes(cfg, b));
          ActiveIs(blocks, heads, age, b);
        }
      }
    }

    /** Second half of `priv_pop`: stores the objects of a refill in a new block, then takes the top one. */
    method PopEnd(b: nat, refill: bool, objects: seq<Q.Offset>) returns (o: Q.Offset)
      requires Valid() && b < |heads|
      requires refill ==> heads[b].activeBlock == -1 && |objects| == RefillCount(cfg, b)
      requires refill ==> Room(cfg, maxBytes, Queue(), RefillBytes(cfg, b))
      requires !refill ==> heads[b].activeBlockSize > 0
      modifies this
      ensures Valid() && |heads| == old(|heads|)
      ensures var q := if refill then old(Queue()) + [Q.Block(b, objects)] else old(Queue());
              && Q.Active(q, b) >= 0 && |q[Q.Active(q, b)].items| > 0
              && o == Q.Top(q, b) && Queue() == Q.TakeTop(q, b)
    {
      hide ListsOf, NumBlocks, Shape, Partition, FreeOk, QueueOf, Bytes, Q.Active, ObjectSize;
      ghost var q := Queue();
      if refill {
        BytesConcat(cfg, q, [Q.Block(b, objects)]);
        BytesOne(cfg, Q.Block(b, objects));
        assert objects[..|objects|] == objects;
        AddBlock(b, objects, |objects|);
        totalSizeByte := totalSizeByte + RefillCount(cfg, b) * ObjectSize(cfg, b);
        q := q + [Q.Block(b, objects)];
        assert Queue() == q;
        Q.ActiveUnique(q, b, |q| - 1);
        ActiveIs(blocks, heads, age, b);
      }
      ActiveIs(blocks, heads, age, b);
      BytesTakeTop(cfg, q, b);
      o := TakeTop(b);
      totalSizeByte := totalSizeByte - ObjectSize(cfg, b);
    }

    /** From `begin` to `end` of `const_bin_iterator`: top object first, block by block towards the older ones,
        past an active block that is empty. */
    method VisitBin(b: nat) returns (visited: seq<Q.Offset>)
      requires Lists() && b < |heads|
      ensures visited == Reverse(Q.Stack(Queue(), b))
    {
      hide Lists, Queue, QueueOf, Shape, Q.Stack, T.Chain, T.Threaded, ItemsOf, BinList, Ahead, Reverse;
      ListFacts();
      ghost var chain := T.Chain(age, blocks.binNo, b);
      BinListOf(blocks, heads, age, b);
      ChainStack(blocks, heads, age, Queue(), b);
      WalkStart(blocks, heads, b, chain);
      NothingAhead(blocks, heads, b, chain, Q.CAPACITY - 1);
      visited := [];
      var block, pos: nat := heads[b].activeBlock, 0;
      ghost var j := |chain| - 1;
      if heads[b].activeBlockSize == 0 {
        if block != -1 {
          block := blocks.binOlder[block];
          j := j - 1;
          pos := if block == -1 then 0 else Q.CAPACITY - 1;
        }
      } else {
        pos := heads[b].activeBlockSize - 1;
      }
      ghost var all := ItemsOf(blocks, heads, chain);
      assert [] + Reverse(all) == Reverse(all);
      while block != -1
        invariant -1 <= j < |chain| && block == (if j == -1 then -1 else chain[j]) && pos < Q.CAPACITY
        invariant j == -1 ==> visited == Reverse(all)
        invariant j >= 0 ==> visited + Reverse(Ahead(blocks, heads, b, chain, j, pos)) == Reverse(all)
        decreases j, pos
      {
        WalkStep(blocks, heads, b, chain, j, pos);
        var o := blocks.cache[block][pos];
        ReverseStep(if pos > 0 then Ahead(blocks, heads, b, chain, j, pos - 1)
                    else Ahead(blocks, heads, b, chain, j - 1, Q.CAPACITY - 1), o, visited);
        visited := visited + [o];
        if pos == 0 {
          block := blocks.binOlder[block];
          j := j - 1;
          pos := if block == -1 then 0 else Q.CAPACITY - 1;
        } else {
          pos := pos - 1;
        }
      }
    }

    /** The inner loop of `clear`: one bin's blocks, newest first, as the deallocator gets them. */
    method FlushBin(b: nat) returns (flushed: seq<Q.Block>)
      requires Lists() && b < |heads|
      ensures flushed == Q.FlushBin(Queue(), b)
    {
      hide Lists, Queue, QueueOf, Shape, Q.FlushBin, T.Chain, T.Threaded, BinList, NewestFirst, Flushing;
      ListFacts();
      ghost var chain := T.Chain(age, blocks.binNo, b);
      BinListOf(blocks, heads, age, b);
      FlushingStart(blocks, heads, age, Queue(), b);
      flushed := [];
      var block, numObjects := heads[b].activeBlock, heads[b].activeBlockSize;
      ghost var j := |chain| - 1;
      BinListStart(blocks, heads, b, chain);
      while block != -1
        invariant -1 <= j < |chain| && block == (if j == -1 then -1 else chain[j])
        invariant j >= 0 ==> numObjects == if j == |chain| - 1 then heads[b].activeBlockSize else Q.CAPACITY
        invariant Flushing(blocks, heads, b, chain, j, flushed, Q.FlushBin(Queue(), b))
        decreases j
      {
        FlushingStep(blocks, heads, b, chain, j, flushed, Q.FlushBin(Queue(), b));
        if numObjects > 0 {
          flushed := flushed + [Q.Block(b, blocks.cache[block][..numObjects])];
        }
        block, numObjects := blocks.binOlder[block], Q.CAPACITY;
        j := j - 1;
      }
      FlushingEnd(blocks, heads, b, chain, flushed, Q.FlushBin(Queue(), b));
    }

    /** The loop over the bins in `clear`: what the deallocator gets. */
    method FlushAllBins() returns (flushed: seq<Q.Block>)
      requires Valid()
      ensures flushed == Q.FlushOrder(Queue(), |heads|) && Q.Cached(flushed) == Q.Cached(Queue())
    {
      hide ListsOf, NumBlocks, Partition, FreeOk, QueueOf, Bytes, Q.FlushBin, Shape;
      ghost var q := Queue();
      forall i | 0 <= i < |q| ensures q[i].bin < |heads| { assert q[i] == BlockAt(blocks, heads, age[i]); }
      Q.FlushCorrect(q, |heads|);
      flushed := [];
      var b := 0;
      while b < |heads|
        invariant 0 <= b <= |heads| && flushed == Q.FlushOrder(q, b)
      {
        var more := FlushBin(b);
        flushed := flushed + more;
        b := b + 1;
      }
    }

    /** `clear` for one cache: every bin's blocks are handed back, then the headers are reset. */
    method Clear() returns (flushed: seq<Q.Block>)
      requires Valid()
      modifies this
      ensures Valid() && Queue() == [] && |heads| == old(|heads|)
      ensures flushed == Q.FlushOrder(old(Queue()), |heads|)
      ensures Q.Cached(flushed) == Q.Cached(old(Queue()))
    {
      hide Lists, Queue, NumBlocks, Bytes, Shape, QueueOf, Q.FlushOrder;
      flushed := FlushAllBins();
      ResetHeaders();
    }

    /** `reset_headers`: back to the state in which no block has been touched. */
    method ResetHeaders()
      requires Lists()
      modifies this
      ensures Valid() && Queue() == [] && |heads| == old(|heads|)
    {
      hide NumBlocks, Bytes, ListsOf, Shape, QueueOf;
      ConfigFacts();
      BlockFacts();
      SmallestBudget(cfg, maxBytes);
      EmptyBytes(cfg);
      UntouchedLists(NumBlocks(cfg, maxBytes), blocks, |heads|);
      heads := seq(|heads|, _ => BinHeader(-1, 0));
      totalSizeByte, oldestBlock, newestBlock, freeBlocks, uninitTop := 0, -1, -1, -1, 0;
      age, free := [], [];
    }
  }
}
