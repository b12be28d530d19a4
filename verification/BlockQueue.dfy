/** One object cache as a queue of blocks, oldest first, and what it means: a stack of offsets per bin
    (include/metall/kernel/object_cache.hpp). */
module BlockQueue {

  const CAPACITY: nat := 64

  /** An offset in the segment, or the null offset that a failed allocation leaves behind. */
  datatype Offset = Null | At(pos: nat)

  datatype Block = Block(bin: nat, items: seq<Offset>)

  type Queue = seq<Block>

  /** Where the active (newest) block of a bin is; -1 if the bin has none. */
  function Active(q: Queue, b: nat): (i: int)
    ensures -1 <= i < |q|
    ensures i >= 0 ==> q[i].bin == b
    ensures forall k :: i < k < |q| ==> q[k].bin != b
  {
    if |q| == 0 then -1
    else if q[|q| - 1].bin == b then |q| - 1
    else Active(q[..|q| - 1], b)
  }

  /** All offsets cached for a bin, the one to be popped next last. */
  function Stack(q: Queue, b: nat): seq<Offset> {
    if |q| == 0 then []
    else Stack(q[..|q| - 1], b) + (if q[|q| - 1].bin == b then q[|q| - 1].items else [])
  }

  /** Blocks hold at most their capacity, and every block that is not active is full. */
  ghost predicate Packed(q: Queue) {
    forall i :: 0 <= i < |q| ==>
      |q[i].items| <= CAPACITY && (i != Active(q, q[i].bin) ==> |q[i].items| == CAPACITY)
  }

  lemma ActiveUnique(q: Queue, b: nat, i: int)
    requires -1 <= i < |q| && (i >= 0 ==> q[i].bin == b) && forall k :: i < k < |q| ==> q[k].bin != b
    ensures Active(q, b) == i
  {}

  lemma {:induction false} StackConcat(p: Queue, q: Queue, b: nat)
    ensures Stack(p + q, b) == Stack(p, b) + Stack(q, b)
    decreases |q|
  {
    if |q| == 0 {
      assert p + q == p;
    } else {
      assert (p + q)[..|p + q| - 1] == p + q[..|q| - 1];
      StackConcat(p, q[..|q| - 1], b);
    }
  }

  lemma StackOne(x: Block, b: nat)
    ensures Stack([x], b) == if x.bin == b then x.items else []
  {
    assert [x][..0] == [];
  }

  lemma {:induction false} StackNone(q: Queue, b: nat)
    requires forall k :: 0 <= k < |q| ==> q[k].bin != b
    ensures Stack(q, b) == []
  {
    if |q| > 0 { StackNone(q[..|q| - 1], b); }
  }

  /** The stack of a bin is what lies below its active block, then the active block. */
  lemma StackSplit(q: Queue, i: nat, b: nat)
    requires i < |q|
    ensures Stack(q, b) == Stack(q[..i], b) + (if q[i].bin == b then q[i].items else []) + Stack(q[i + 1..], b)
  {
    assert q == (q[..i] + [q[i]]) + q[i + 1..];
    StackConcat(q[..i] + [q[i]], q[i + 1..], b);
    StackConcat(q[..i], [q[i]], b);
    StackOne(q[i], b);
  }

  /** Replacing one block's items changes only its own bin's stack. */
  lemma StackReplace(q: Queue, i: nat, x: Block, b: nat)
    requires i < |q| && x.bin == q[i].bin
    ensures Stack(q[i := x], b) ==
            Stack(q[..i], b) + (if x.bin == b then x.items else []) + Stack(q[i + 1..], b)
  {
    var r := q[i := x];
    assert r[..i] == q[..i] && r[i + 1..] == q[i + 1..];
    StackSplit(r, i, b);
  }

  // ---------- Steps ---------- //

  /** An object goes on top of its bin's active block, or into a new block if that is full or missing. */
  function Push(q: Queue, b: nat, o: Offset): Queue {
    var i := Active(q, b);
    if i == -1 || |q[i].items| == CAPACITY then q + [Block(b, [o])]
    else q[i := Block(b, q[i].items + [o])]
  }

  /** The queue with block i taken out. */
  function Without(q: Queue, i: nat): (r: Queue)
    requires i < |q|
    ensures |r| == |q| - 1
    ensures forall k :: 0 <= k < i ==> r[k] == q[k]
    ensures forall k :: i <= k < |r| ==> r[k] == q[k + 1]
  {
    q[..i] + q[i + 1..]
  }

  /** An active block that has run empty is given back before the bin is used again. */
  function DropEmpty(q: Queue, b: nat): Queue {
    var i := Active(q, b);
    if i >= 0 && |q[i].items| == 0 then Without(q, i) else q
  }

  /** The top object of the bin. */
  function Top(q: Queue, b: nat): Offset
    requires Active(q, b) >= 0 && |q[Active(q, b)].items| > 0
  {
    var x := q[Active(q, b)];
    x.items[|x.items| - 1]
  }

  function TakeTop(q: Queue, b: nat): Queue
    requires Active(q, b) >= 0 && |q[Active(q, b)].items| > 0
  {
    var i := Active(q, b);
    q[i := Block(b, q[i].items[..|q[i].items| - 1])]
  }

  /** Push adds one object on top of the bin's stack and touches no other stack. */
  lemma PushCorrect(q: Queue, b: nat, o: Offset, c: nat)
    requires Packed(q)
    ensures Packed(Push(q, b, o))
    ensures Stack(Push(q, b, o), c) == if c == b then Stack(q, c) + [o] else Stack(q, c)
  {
    hide Stack, Active, Packed;
    PushPacked(q, b, o);
    var i := Active(q, b);
    if i == -1 || |q[i].items| == CAPACITY {
      StackConcat(q, [Block(b, [o])], c);
      StackOne(Block(b, [o]), c);
    } else {
      var x := Block(b, q[i].items + [o]);
      StackSplit(q, i, c);
      StackReplace(q, i, x, c);
      if c == b { StackNone(q[i + 1..], b); }
    }
  }

  lemma PushPacked(q: Queue, b: nat, o: Offset)
    requires Packed(q)
    ensures Packed(Push(q, b, o))
  {
    var r := Push(q, b, o);
    forall i | 0 <= i < |r|
      ensures |r[i].items| <= CAPACITY && (i != Active(r, r[i].bin) ==> |r[i].items| == CAPACITY)
    {
      var a := Active(q, b);
      if |r| == |q| {
        ActiveUnique(r, r[i].bin, Active(q, r[i].bin));
      } else if i < |q| {
        if r[i].bin == b {
          assert r[|q|].bin == b;
          ActiveUnique(r, b, |q|);
        } else {
          ActiveUnique(r, r[i].bin, Active(q, r[i].bin));
        }
      } else {
        ActiveUnique(r, b, |q|);
      }
    }
  }

  lemma StackWithout(q: Queue, i: nat, c: nat)
    requires i < |q| && (q[i].bin == c ==> q[i].items == [])
    ensures Stack(Without(q, i), c) == Stack(q, c)
  {
    StackSplit(q, i, c);
    StackConcat(q[..i], q[i + 1..], c);
  }

  /** Dropping an empty block changes no stack. */
  lemma DropEmptyCorrect(q: Queue, b: nat, c: nat)
    requires Packed(q)
    ensures Packed(DropEmpty(q, b))
    ensures Stack(DropEmpty(q, b), c) == Stack(q, c)
    ensures var r := DropEmpty(q, b);
            Active(r, b) >= 0 ==> |r[Active(r, b)].items| > 0
  {
    hide Stack, Active, Without;
    var i := Active(q, b);
    var r := DropEmpty(q, b);
    if i >= 0 && |q[i].items| == 0 {
      StackWithout(q, i, c);
      DropPacked(q, i);
      var k := Active(r, b);
      if k >= 0 {
        assert r[k].bin == b;
      }
    }
  }

  lemma ActiveWithout(q: Queue, i: nat, b: nat)
    requires i < |q| && Active(q, b) != i
    ensures Active(Without(q, i), b) == if Active(q, b) > i then Active(q, b) - 1 else Active(q, b)
  {
    hide Active, Without;
    var a, r := Active(q, b), Without(q, i);
    forall k | a <= k < |r| && (k > a || i < a) ensures r[k].bin != b {
      if k >= i { assert r[k] == q[k + 1]; }
    }
    if a > i { assert r[a - 1] == q[a]; }
    ActiveUnique(r, b, if a > i then a - 1 else a);
  }

  /** Removing a bin's active block, or the oldest block of all, keeps the queue packed. */
  lemma DropPacked(q: Queue, i: nat)
    requires Packed(q) && i < |q| && (i == Active(q, q[i].bin) || i == 0)
    ensures Packed(Without(q, i))
  {
    hide Active, Without;
    var r := Without(q, i);
    forall k | 0 <= k < |r|
      ensures |r[k].items| <= CAPACITY && (k != Active(r, r[k].bin) ==> |r[k].items| == CAPACITY)
    {
      var j := if k < i then k else k + 1;
      assert r[k] == q[j];
      if Active(q, q[j].bin) != i { ActiveWithout(q, i, q[j].bin); }
    }
  }

  /** Pop takes the top of the bin's stack and touches no other stack. */
  lemma TakeTopCorrect(q: Queue, b: nat, c: nat)
    requires Packed(q) && Active(q, b) >= 0 && |q[Active(q, b)].items| > 0
    ensures Packed(TakeTop(q, b))
    ensures Stack(q, b) == Stack(TakeTop(q, b), b) + [Top(q, b)]
    ensures c != b ==> Stack(TakeTop(q, b), c) == Stack(q, c)
  {
    hide Stack, Active, Packed;
    var i := Active(q, b);
    var x := Block(b, q[i].items[..|q[i].items| - 1]);
    StackSplit(q, i, b);
    StackReplace(q, i, x, b);
    StackNone(q[i + 1..], b);
    assert q[i].items == x.items + [Top(q, b)];
    StackSplit(q, i, c);
    StackReplace(q, i, x, c);
    TakePacked(q, b);
  }

  lemma TakePacked(q: Queue, b: nat)
    requires Packed(q) && Active(q, b) >= 0 && |q[Active(q, b)].items| > 0
    ensures Packed(TakeTop(q, b))
  {
    var r := TakeTop(q, b);
    forall k | 0 <= k < |r|
      ensures |r[k].items| <= CAPACITY && (k != Active(r, r[k].bin) ==> |r[k].items| == CAPACITY)
    {
      ActiveUnique(r, r[k].bin, Active(q, r[k].bin));
    }
  }

  /** Evicting the oldest block removes the bottom of one stack and leaves the others alone. */
  lemma EvictCorrect(q: Queue, c: nat)
    requires Packed(q) && |q| > 0
    ensures Packed(q[1..])
    ensures Stack(q, c) == (if q[0].bin == c then q[0].items else []) + Stack(q[1..], c)
  {
    hide Active, Stack;
    DropPacked(q, 0);
    assert Without(q, 0) == q[1..];
    StackSplit(q, 0, c);
    EmptyStack(c);
  }

  lemma EmptyStack(c: nat)
    ensures Stack([], c) == []
  {}

  // ---------- Flushing ---------- //

  /** One bin's blocks that hold objects, newest first. */
  function Newest(x: Block, b: nat): Queue { if x.bin == b && x.items != [] then [x] else [] }

  function FlushBin(q: Queue, b: nat): Queue {
    if |q| == 0 then [] else Newest(q[|q| - 1], b) + FlushBin(q[..|q| - 1], b)
  }

  /** The order in which `clear` hands blocks back: bin by bin, each bin newest block first. */
  function FlushOrder(q: Queue, numBins: nat): Queue {
    if numBins == 0 then [] else FlushOrder(q, numBins - 1) + FlushBin(q, numBins - 1)
  }

  /** Later blocks come first, and empty ones not at all. */
  lemma {:induction false} FlushReversed(p: Queue, q: Queue, b: nat)
    ensures FlushBin(p + q, b) == FlushBin(q, b) + FlushBin(p, b)
    decreases |q|
  {
    hide Newest;
    if q == [] {
      assert p + q == p;
    } else {
      var n := |q| - 1;
      assert (p + q)[..|p| + n] == p + q[..n];
      FlushReversed(p, q[..n], b);
    }
  }

  lemma FlushOne(x: Block, b: nat)
    ensures FlushBin([x], b) == if x.bin == b && x.items != [] then [x] else []
  {
    assert [x][..0] == [];
  }

  /** The blocks of one bin, in their order. */
  function OfBin(q: Queue, b: nat): Queue {
    if |q| == 0 then [] else OfBin(q[..|q| - 1], b) + (if q[|q| - 1].bin == b then [q[|q| - 1]] else [])
  }

  lemma {:induction false} OfBinConcat(p: Queue, q: Queue, b: nat)
    ensures OfBin(p + q, b) == OfBin(p, b) + OfBin(q, b)
    decreases |q|
  {
    if q == [] {
      assert p + q == p;
    } else {
      assert (p + q)[..|p + q| - 1] == p + q[..|q| - 1];
      OfBinConcat(p, q[..|q| - 1], b);
    }
  }

  lemma {:induction false} FlushBinOfBin(q: Queue, c: nat, b: nat)
    ensures OfBin(FlushBin(q, c), b) == if b == c then FlushBin(q, c) else []
    decreases |q|
  {
    if q != [] {
      var n := |q| - 1;
      var first := Newest(q[n], c);
      OfBinConcat(first, FlushBin(q[..n], c), b);
      FlushBinOfBin(q[..n], c, b);
      if first != [] { assert first[..0] == []; }
    }
  }

  /** A flush of all bins goes through them in order, and gives each bin's blocks as a flush of that bin does. */
  lemma {:induction false} FlushOrderIs(q: Queue, numBins: nat, b: nat)
    ensures OfBin(FlushOrder(q, numBins), b) == if b < numBins then FlushBin(q, b) else []
    decreases numBins
  {
    hide FlushBin;
    if numBins > 0 {
      FlushOrderIs(q, numBins - 1, b);
      OfBinConcat(FlushOrder(q, numBins - 1), FlushBin(q, numBins - 1), b);
      FlushBinOfBin(q, numBins - 1, b);
    }
  }

  lemma {:induction false} FlushBinBins(q: Queue, b: nat)
    ensures forall i :: 0 <= i < |FlushBin(q, b)| ==> FlushBin(q, b)[i].bin == b
    decreases |q|
  {
    if q != [] { FlushBinBins(q[..|q| - 1], b); }
  }

  lemma {:induction false} FlushSorted(q: Queue, numBins: nat)
    ensures Sorted(FlushOrder(q, numBins)) && Below(FlushOrder(q, numBins), numBins)
    decreases numBins
  {
    hide FlushBin;
    if numBins > 0 {
      FlushSorted(q, numBins - 1);
      FlushBinBins(q, numBins - 1);
      SortedConcat(FlushOrder(q, numBins - 1), FlushBin(q, numBins - 1), numBins - 1);
    }
  }

  ghost predicate Sorted(r: Queue) { forall i, j :: 0 <= i < j < |r| ==> r[i].bin <= r[j].bin }

  ghost predicate Below(r: Queue, n: nat) { forall i :: 0 <= i < |r| ==> r[i].bin < n }

  lemma SortedConcat(a: Queue, b: Queue, n: nat)
    requires Sorted(a) && Below(a, n) && forall i :: 0 <= i < |b| ==> b[i].bin == n
    ensures Sorted(a + b) && Below(a + b, n + 1)
  {}

  /** A push grows the active block in its place; only if that has 64 objects, or is missing, a new block becomes the
      newest of all. */
  lemma PushPlace(q: Queue, b: nat, o: Offset)
    ensures var i, r := Active(q, b), Push(q, b, o);
            if i >= 0 && |q[i].items| != 64
            then |r| == |q| && r[i] == Block(b, q[i].items + [o]) && forall j :: 0 <= j < |q| && j != i ==> r[j] == q[j]
            else r == q + [Block(b, [o])]
  {}

  /** The objects among some offsets, each as often as it occurs; the null offset is no object. */
  function Objects(items: seq<Offset>): multiset<nat> {
    if |items| == 0 then multiset{}
    else
      Objects(items[..|items| - 1]) +
      (if items[|items| - 1].At? then multiset{items[|items| - 1].pos} else multiset{})
  }

  /** All objects a cache holds. */
  function Cached(q: Queue): multiset<nat> {
    if |q| == 0 then multiset{} else Cached(q[..|q| - 1]) + Objects(q[|q| - 1].items)
  }

  lemma {:induction false} ObjectsConcat(s: seq<Offset>, t: seq<Offset>)
    ensures Objects(s + t) == Objects(s) + Objects(t)
    decreases |t|
  {
    if |t| == 0 {
      assert s + t == s;
    } else {
      assert (s + t)[..|s + t| - 1] == s + t[..|t| - 1];
      ObjectsConcat(s, t[..|t| - 1]);
    }
  }

  lemma {:induction false} CachedConcat(p: Queue, q: Queue)
    ensures Cached(p + q) == Cached(p) + Cached(q)
    decreases |q|
  {
    hide Objects;
    if |q| == 0 {
      assert p + q == p;
    } else {
      assert (p + q)[..|p + q| - 1] == p + q[..|q| - 1];
      CachedConcat(p, q[..|q| - 1]);
    }
  }

  lemma CachedOne(x: Block)
    ensures Cached([x]) == Objects(x.items) && Cached([]) == multiset{}
  {
    hide Objects;
    assert [x][..0] == [];
  }

  lemma CachedReplace(q: Queue, i: nat, x: Block)
    requires i < |q|
    ensures Cached(q[i := x]) + Objects(q[i].items) == Cached(q) + Objects(x.items)
  {
    hide Objects, Cached;
    var r := q[i := x];
    assert q == (q[..i] + [q[i]]) + q[i + 1..];
    assert r == (q[..i] + [x]) + q[i + 1..];
    CachedConcat(q[..i] + [q[i]], q[i + 1..]);
    CachedConcat(q[..i] + [x], q[i + 1..]);
    CachedConcat(q[..i], [q[i]]);
    CachedConcat(q[..i], [x]);
    CachedOne(q[i]);
    CachedOne(x);
  }

  lemma ObjectsOne(o: Offset)
    ensures Objects([o]) == (if o.At? then multiset{o.pos} else multiset{}) && Objects([]) == multiset{}
  {
    assert [o][..0] == [];
  }

  lemma Cancel(a: multiset<nat>, b: multiset<nat>, c: multiset<nat>)
    requires a + c == b + c
    ensures a == b
  {
    forall e ensures a[e] == b[e] { assert (a + c)[e] == (b + c)[e]; }
  }

  lemma CachedPush(q: Queue, b: nat, o: Offset)
    ensures Cached(Push(q, b, o)) == Cached(q) + Objects([o])
  {
    hide Objects, Cached, Active;
    var i := Active(q, b);
    if i == -1 || |q[i].items| == CAPACITY {
      CachedConcat(q, [Block(b, [o])]);
      CachedOne(Block(b, [o]));
    } else {
      CachedReplace(q, i, Block(b, q[i].items + [o]));
      ObjectsConcat(q[i].items, [o]);
      Cancel(Cached(Push(q, b, o)), Cached(q) + Objects([o]), Objects(q[i].items));
    }
  }

  lemma CachedTakeTop(q: Queue, b: nat)
    requires Active(q, b) >= 0 && |q[Active(q, b)].items| > 0
    ensures Cached(q) == Cached(TakeTop(q, b)) + Objects([Top(q, b)])
  {
    hide Objects, Cached, Active;
    var i := Active(q, b);
    var n := |q[i].items| - 1;
    CachedReplace(q, i, Block(b, q[i].items[..n]));
    assert q[i].items == q[i].items[..n] + [Top(q, b)];
    ObjectsConcat(q[i].items[..n], [Top(q, b)]);
    Cancel(Cached(q), Cached(TakeTop(q, b)) + Objects([Top(q, b)]), Objects(q[i].items[..n]));
  }

  lemma CachedDropEmpty(q: Queue, b: nat)
    ensures Cached(DropEmpty(q, b)) == Cached(q)
  {
    hide Objects, Cached, Active;
    var i := Active(q, b);
    if i >= 0 && |q[i].items| == 0 {
      assert q == (q[..i] + [q[i]]) + q[i + 1..];
      CachedConcat(q[..i] + [q[i]], q[i + 1..]);
      CachedConcat(q[..i], [q[i]]);
      CachedConcat(q[..i], q[i + 1..]);
      CachedOne(q[i]);
      ObjectsOne(Null);
      assert q[i].items == [];
    }
  }

  // ---------- Flushing gives back every object once ---------- //

  /** Objects cached for bins below k. */
  function CachedBelow(q: Queue, k: nat): multiset<nat> {
    if |q| == 0 then multiset{}
    else CachedBelow(q[..|q| - 1], k) + (if q[|q| - 1].bin < k then Objects(q[|q| - 1].items) else multiset{})
  }

  lemma {:induction false} CachedBelowStep(q: Queue, k: nat)
    ensures CachedBelow(q, k + 1) == CachedBelow(q, k) + Cached(FlushBin(q, k))
    decreases |q|
  {
    if |q| > 0 {
      var x := q[|q| - 1];
      CachedBelowStep(q[..|q| - 1], k);
      CachedConcat(Newest(x, k), FlushBin(q[..|q| - 1], k));
      CachedOne(x);
      ObjectsOne(Null);
    }
  }

  lemma FlushOrderSteps(q: Queue, k: nat)
    ensures FlushOrder(q, k + 1) == FlushOrder(q, k) + FlushBin(q, k)
    ensures FlushOrder(q, 0) == [] && Cached([]) == multiset{}
  {
    hide FlushBin;
  }

  lemma {:induction false} FlushBelow(q: Queue, k: nat)
    ensures Cached(FlushOrder(q, k)) == CachedBelow(q, k)
    decreases k
  {
    hide Cached, CachedBelow, FlushBin, FlushOrder;
    if k == 0 {
      FlushOrderSteps(q, 0);
      NoneBelow(q);
    } else {
      FlushBelow(q, k - 1);
      FlushOrderSteps(q, k - 1);
      CachedConcat(FlushOrder(q, k - 1), FlushBin(q, k - 1));
      CachedBelowStep(q, k - 1);
    }
  }

  lemma {:induction false} NoneBelow(q: Queue)
    ensures CachedBelow(q, 0) == multiset{}
    decreases |q|
  {
    if |q| > 0 { NoneBelow(q[..|q| - 1]); }
  }

  lemma {:induction false} AllBelow(q: Queue, k: nat)
    requires forall i :: 0 <= i < |q| ==> q[i].bin < k
    ensures CachedBelow(q, k) == Cached(q)
    decreases |q|
  {
    if |q| > 0 { AllBelow(q[..|q| - 1], k); }
  }

  /** Flushing hands back exactly the cached objects. */
  lemma FlushCorrect(q: Queue, numBins: nat)
    requires forall i :: 0 <= i < |q| ==> q[i].bin < numBins
    ensures Cached(FlushOrder(q, numBins)) == Cached(q)
  {
    FlushBelow(q, numBins);
    AllBelow(q, numBins);
  }
}
