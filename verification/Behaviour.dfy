/** What a client sees of the caches: which object an allocation gives and where a freed object goes
    (include/metall/kernel/object_cache.hpp, include/metall/kernel/segment_allocator.hpp). */
module Behaviour {
  import opened ChunkTable
  import opened BlockQueue
  import opened CacheBudget
  import opened FreeSlots
  import opened Ledger
  import opened GlobalAllocator
  import opened LargeAllocation
  import opened CachedAllocator
  import opened Allocator
  import opened Placement
  import Runs
  import S = SizeClasses
  import U = Utilities

  /** A request of this many bytes goes through the caches. */
  ghost predicate CachedRequest(s: Setup, n: nat)
    requires ValidConfig(s.cfg)
  {
    n >= 1 && 0 <= BinFor(s.cfg, n) < SmallBins(s.cfg) && BinFor(s.cfg, n) <= s.maxBin
  }

  function Last<T>(xs: seq<T>): T
    requires xs != []
  {
    xs[|xs| - 1]
  }

  function ButLast<T>(xs: seq<T>): seq<T>
    requires xs != []
  {
    xs[..|xs| - 1]
  }

  /** From w to w1 no cache but cache i changes. */
  ghost predicate OnlyCache(w: World, w1: World, i: nat) {
    |w1.caches| == |w.caches| && forall j :: 0 <= j < |w.caches| && j != i ==> w1.caches[j] == w.caches[j]
  }

  // ---------- Allocating ---------- //

  lemma PopHit(s: Setup, g: Global, q: Queue, b: nat, grow: Storage, c: nat)
    requires Consistent(s, g, q) && CachedBin(s, b) && Bounded(s.cfg, grow) && Stack(q, b) != []
    ensures var (o, g1, q1) := Pop(s, g, q, b, grow);
            && o == Last(Stack(q, b)) && g1 == g
            && Stack(q1, c) == if c == b then ButLast(Stack(q, b)) else Stack(q, c)
  {
    hide InvBut, Held, MarkedSet, Cached, Bytes, NumBlocks, Stack, DropEmpty, Active, TakeTop, Top;
    ConsistentPacked(s, g, q);
    var q0 := DropEmpty(q, b);
    DropEmptyCorrect(q, b, b);
    DropEmptyCorrect(q, b, c);
    if Active(q0, b) == -1 { StackNone(q0, b); }
    TakeTopCorrect(q0, b, b);
    TakeTopCorrect(q0, b, c);
  }

  lemma ConsistentPacked(s: Setup, g: Global, q: Queue)
    requires Consistent(s, g, q)
    ensures Packed(q)
  {
    hide InvBut, Held, MarkedSet, Cached, Bytes, NumBlocks, Packed;
  }

  /** While the cache holds objects of the size, the one on top is given, and nothing but that stack changes. */
  lemma HitTakesTop(s: Setup, w: World, n: nat, i: nat, grow: Storage)
    requires WorldOk(s, w) && i < |w.caches| && Bounded(s.cfg, grow) && CachedRequest(s, n)
    requires Stack(w.caches[i], BinFor(s.cfg, n)) != []
    ensures var b, q := BinFor(s.cfg, n), w.caches[i];
            var (o, w1) := Allocate(s, w, n, i, grow);
            && o == Last(Stack(q, b)) && w1.g == w.g && OnlyCache(w, w1, i)
            && forall c: nat :: Stack(w1.caches[i], c) == if c == b then ButLast(Stack(q, b)) else Stack(q, c)
  {
    hide Accounts, BinFor, Pop, Stack, Consistent, Bounded;
    var b, q := BinFor(s.cfg, n), w.caches[i];
    ConsistentCache(s, w, i);
    PopHit(s, w.g, q, b, grow, b);
    var q1 := Pop(s, w.g, q, b, grow).2;
    forall c: nat ensures Stack(q1, c) == if c == b then ButLast(Stack(q, b)) else Stack(q, c) {
      PopHit(s, w.g, q, b, grow, c);
    }
  }

  /** What a refill of bin b evicts from q and what it leaves. */
  ghost function Evicted(s: Setup, q: Queue, b: nat): (r: (Queue, Queue))
    requires ValidSetup(s) && CachedBin(s, b)
    ensures r.0 + r.1 == DropEmpty(q, b)
  {
    AffordableRefill(s, b);
    MakeRoom(s.cfg, s.maxBytes, DropEmpty(q, b), RefillBytes(s.cfg, b))
  }

  lemma EvictedFree(s: Setup, g: Global, q: Queue, b: nat)
    requires Consistent(s, g, q) && CachedBin(s, b)
    ensures var ev := Evicted(s, q, b).0;
            && HoldsBlocks(s.cfg, g.table, ev) && Inv(s.cfg, FreeBlocks(s.cfg, g, ev))
            && |FreeBlocks(s.cfg, g, ev).lists| == |g.lists| == SmallBins(s.cfg)
  {
    hide InvBut, Held, MarkedSet, Cached, Bytes, NumBlocks, DropEmpty, Active, FreeBlocks, HoldsBlocks, MakeRoom,
      Packed, Room, Moved, Others, Balanced, Consistent, RefillBytes, ValidConfig, CachedBin, Sized;
    ConsistentBalanced(s, g, q);
    DropBalanced(s, g, q, b, Others(s, g, q));
    BalancedFacts(s, g, DropEmpty(q, b), Others(s, g, q));
    AffordableRefill(s, b);
    EvictOk(s, g, DropEmpty(q, b), RefillBytes(s.cfg, b), Others(s, g, q));
    MovedInv(s.cfg, g, Others(s, g, q), FreeBlocks(s.cfg, g, Evicted(s, q, b).0));
  }

  lemma MovedInv(cfg: Config, g: Global, others: multiset<nat>, g1: Global)
    requires ValidConfig(cfg) && Moved(cfg, g, others, g1)
    ensures Inv(cfg, g1)
  {
    hide InvBut, Slotted;
  }

  lemma PopMiss(s: Setup, g: Global, q: Queue, b: nat, grow: Storage)
    requires Consistent(s, g, q) && CachedBin(s, b) && Bounded(s.cfg, grow) && Stack(q, b) == []
    ensures var (ev, rest) := Evicted(s, q, b);
            && HoldsBlocks(s.cfg, g.table, ev) && Inv(s.cfg, FreeBlocks(s.cfg, g, ev))
            && b < |FreeBlocks(s.cfg, g, ev).lists|
            && var (os, g1) := AllocSmall(s.cfg, FreeBlocks(s.cfg, g, ev), b, RefillCount(s.cfg, b), grow);
               |os| >= 8 && Pop(s, g, q, b, grow) == (Last(os), g1, rest + [Block(b, ButLast(os))])
  {
    hide InvBut, Held, MarkedSet, Cached, Bytes, NumBlocks, DropEmpty, Active, FreeBlocks, HoldsBlocks, MakeRoom,
      Packed, Room, Moved, Others, Balanced, AllocSmall, Stack, RefillCount, Consistent;
    EvictedFree(s, g, q, b);
    ConsistentPacked(s, g, q);
    ConsistentBalanced(s, g, q);
    DropBalanced(s, g, q, b, Others(s, g, q));
    var q0 := DropEmpty(q, b);
    BalancedFacts(s, g, q0, Others(s, g, q));
    DropEmptyCorrect(q, b, b);
    NoStackNoBlock(q0, b);
    RefillCorrect(s, g, q0, b, grow, Others(s, g, q));
    var (ev, rest) := Evicted(s, q, b);
    AffordableRefill(s, b);
    MakeRoomActive(s.cfg, s.maxBytes, q0, RefillBytes(s.cfg, b), b);
    var os := AllocSmall(s.cfg, FreeBlocks(s.cfg, g, ev), b, RefillCount(s.cfg, b), grow).0;
    NewestTaken(rest, b, os);
  }

  lemma NoStackNoBlock(q: Queue, b: nat)
    requires Stack(q, b) == [] && (Active(q, b) >= 0 ==> |q[Active(q, b)].items| > 0)
    ensures Active(q, b) == -1
  {
    hide Stack, Active;
    var i := Active(q, b);
    if i >= 0 { StackSplit(q, i, b); }
  }

  lemma NewestTaken(rest: Queue, b: nat, os: seq<Offset>)
    requires os != []
    ensures var q := rest + [Block(b, os)];
            Active(q, b) == |rest| && Top(q, b) == Last(os) && TakeTop(q, b) == rest + [Block(b, ButLast(os))]
  {
    ActiveUnique(rest + [Block(b, os)], b, |rest|);
  }

  /** When the cache holds none of the size, a refill is allocated after eviction has made room for it: the last of its
      objects is given, and the others are the newest block. */
  lemma MissRefills(s: Setup, w: World, n: nat, i: nat, grow: Storage)
    requires WorldOk(s, w) && i < |w.caches| && Bounded(s.cfg, grow) && CachedRequest(s, n)
    requires Stack(w.caches[i], BinFor(s.cfg, n)) == []
    ensures var b := BinFor(s.cfg, n);
            var (o, w1) := Allocate(s, w, n, i, grow);
            var (ev, rest) := Evicted(s, w.caches[i], b);
            && HoldsBlocks(s.cfg, w.g.table, ev) && Inv(s.cfg, FreeBlocks(s.cfg, w.g, ev))
            && b < |FreeBlocks(s.cfg, w.g, ev).lists|
            && var (os, g1) := AllocSmall(s.cfg, FreeBlocks(s.cfg, w.g, ev), b, RefillCount(s.cfg, b), grow);
               && |os| >= 8 && o == Last(os) && w1.g == g1 && OnlyCache(w, w1, i)
               && w1.caches[i] == rest + [Block(b, ButLast(os))]
  {
    hide Accounts, BinFor, Pop, Stack, Consistent, Bounded, AllocSmall, FreeBlocks, HoldsBlocks, InvBut, Evicted,
      RefillCount;
    var b, q := BinFor(s.cfg, n), w.caches[i];
    ConsistentCache(s, w, i);
    PopMiss(s, w.g, q, b, grow);
  }

  /** Sizes above the last cached one come from the chunks, and no cache changes. */
  lemma UncachedAllocates(s: Setup, w: World, n: nat, i: nat, grow: Storage)
    requires WorldOk(s, w) && i < |w.caches| && Bounded(s.cfg, grow)
    requires n >= 1 && s.maxBin < BinFor(s.cfg, n) < SmallBins(s.cfg)
    ensures var (o, w1) := Allocate(s, w, n, i, grow);
            w1.caches == w.caches && AllocMany(s.cfg, w.g, BinFor(s.cfg, n), 1, grow) == ([o], w1.g)
  {
    hide Accounts, BinFor, Pop, Bounded, AllocMany, InvBut;
    var b := BinFor(s.cfg, n);
    ListsThere(s, w);
    AllocManyCorrect(s.cfg, w.g, b, 1, grow);
    var (os, g1) := AllocMany(s.cfg, w.g, b, 1, grow);
    assert os == [os[0]] && os + [] == os;
  }

  /** A large object starts at the lowest place where enough chunks are unused, if the segment can be made to hold
      them. If not, or if there is no such place, nothing changes; caches never do. */
  lemma LargeAllocates(s: Setup, w: World, n: nat, i: nat, c: nat, grow: Storage)
    requires WorldOk(s, w) && i < |w.caches| && Bounded(s.cfg, grow) && n >= 1 && SmallBins(s.cfg) <= BinFor(s.cfg, n)
    requires LowestRun(w.g.table, c, RunLength(s.cfg, BinFor(s.cfg, n))) || NoRoom(s.cfg, w.g.table, BinFor(s.cfg, n))
    ensures var b := BinFor(s.cfg, n);
            var len, start := RunLength(s.cfg, b), ChunkStart(s.cfg, c);
            var end := ChunkStart(s.cfg, c + len);
            var segment := Enlarged(w.g.segment, end, grow);
            Allocate(s, w, n, i, grow) ==
              if !NoRoom(s.cfg, w.g.table, b) && end <= segment
              then (At(start), w.(g := Global(PutLarge(w.g.table, c, b, len), w.g.lists, segment),
                                  large := w.large[start := n]))
              else (Null, w)
  {
    hide Accounts, InvBut, RunLength, ChunkSize, ChunkStart, AllocLarge, Bounded, ValidConfig, AllUnused, PutLarge;
    var b := BinFor(s.cfg, n);
    ListsThere(s, w);
    AllocLargeCorrect(s.cfg, w.g, b, grow);
    if !NoRoom(s.cfg, w.g.table, b) { LargeFrom(s.cfg, w.g, b, c, RunLength(s.cfg, b), grow); }
  }

  /** Freeing it clears its chunks and nothing else, for the number of bytes it was asked for with. */
  lemma LargeFreed(s: Setup, w: World, p: nat, i: nat)
    requires WorldOk(s, w) && i < |w.caches| && p in w.large
    ensures w.large[p] >= 1 && BinFor(s.cfg, w.large[p]) >= 0
    ensures var c, len := ChunkOf(s.cfg, p), RunLength(s.cfg, BinFor(s.cfg, w.large[p]));
            && p == ChunkSize(s.cfg) * c && c + len <= |w.g.table|
            && Deallocate(s, w, At(p), i) == w.(g := w.g.(table := Clear(w.g.table, c, len)), large := w.large - {p})
  {
    hide InvBut, MarkedSet, ValidConfig, TableOk, CachesOk, SmallOk, AllCached, BinFor, ChunkOf, ChunkSize, RunLength,
      FreeLarge, Clear;
    LargeChunk(s, w, p);
    DeallocateBranch(s, w, p);
    assert IsLarge(s.cfg, w.g.table, p, w.large[p]);
    FreeLargeCorrect(s.cfg, w.g, ChunkOf(s.cfg, p));
    FreedTable(w.g, ChunkOf(s.cfg, p));
  }

  lemma FreedTable(g: Global, c: nat)
    requires c < |g.table|
    ensures FreeLarge(g, c) == g.(table := FreeLarge(g, c).table)
  {}

  lemma ListsThere(s: Setup, w: World)
    requires WorldOk(s, w)
    ensures Inv(s.cfg, w.g) && |w.g.lists| == SmallBins(s.cfg)
  {
    hide InvBut, MarkedSet, CachesOk, SmallOk, LargeOk;
  }

  // ---------- Deallocating ---------- //

  /** t is what is left of s after some of its bottom was cut off. */
  ghost predicate CutFrom(s: seq<Offset>, t: seq<Offset>) { |t| <= |s| && t == s[|s| - |t|..] }

  /** A freed object of bin b is pushed on its stack, after eviction has cut off the bottom of some stacks; nothing is
      evicted where there is room. */
  lemma PushPuts(s: Setup, g: Global, q: Queue, b: nat, o: Offset, c: nat)
    requires Consistent(s, g, q) && CachedBin(s, b)
    ensures var (g1, q1) := PushObject(s, g, q, b, o);
            && (Room(s.cfg, s.maxBytes, q, ObjectSize(s.cfg, b)) ==> g1 == g)
            && (c == b ==> Stack(q1, b) != [] && Last(Stack(q1, b)) == o && CutFrom(Stack(q, b), ButLast(Stack(q1, b))))
            && (c != b ==> CutFrom(Stack(q, c), Stack(q1, c)))
            && (Room(s.cfg, s.maxBytes, q, ObjectSize(s.cfg, b)) ==>
                  Stack(q1, c) == if c == b then Stack(q, b) + [o] else Stack(q, c))
  {
    hide InvBut, Held, MarkedSet, Cached, Bytes, NumBlocks, FreeBlocks, Packed, Room, Others, Balanced, Stack, Push,
      MakeRoom, ObjectSize, Consistent;
    ConsistentPacked(s, g, q);
    ConsistentBalanced(s, g, q);
    BalancedFacts(s, g, q, Others(s, g, q));
    AffordableRefill(s, b);
    var need := ObjectSize(s.cfg, b);
    EvictOk(s, g, q, need, Others(s, g, q));
    var (ev, rest) := MakeRoom(s.cfg, s.maxBytes, q, need);
    MakeRoomStep(s.cfg, s.maxBytes, q, need);
    MakeRoomStacks(s.cfg, s.maxBytes, q, need, c);
    PushCorrect(rest, b, o, c);
    assert Stack(q, c)[|Stack(ev, c)|..] == Stack(rest, c);
    FreeNothing(s.cfg, g);
  }

  lemma FreeNothing(cfg: Config, g: Global)
    requires Inv(cfg, g)
    ensures HoldsBlocks(cfg, g.table, []) ==> FreeBlocks(cfg, g, []) == g
  {
    hide InvBut, HoldsBlocks;
  }

  /** The client has p, of bin b. */
  ghost predicate Has(s: Setup, w: World, p: nat, b: nat)
    requires ValidConfig(s.cfg)
  {
    p in w.small && BinFor(s.cfg, w.small[p]) == b
  }

  /** A freed object of a cached size goes on top of its stack in the cache used, which may lose the bottom of its
      stacks to eviction; no other cache changes, and where there is room neither do the chunks. */
  lemma FreedIsCached(s: Setup, w: World, p: nat, b: nat, i: nat)
    requires WorldOk(s, w) && i < |w.caches| && Has(s, w, p, b) && b <= s.maxBin
    ensures b < SmallBins(s.cfg)
    ensures var w1, q := Deallocate(s, w, At(p), i), w.caches[i];
            && OnlyCache(w, w1, i)
            && Stack(w1.caches[i], b) != [] && Last(Stack(w1.caches[i], b)) == At(p)
            && CutFrom(Stack(q, b), ButLast(Stack(w1.caches[i], b)))
            && (forall c: nat :: c != b ==> CutFrom(Stack(q, c), Stack(w1.caches[i], c)))
            && (Bytes(s.cfg, q) + ObjectSize(s.cfg, b) <= s.maxBytes && |q| < NumBlocks(s.cfg, s.maxBytes) ==>
                  w1.g == w.g && forall c: nat ::
                    Stack(w1.caches[i], c) == if c == b then Stack(q, b) + [At(p)] else Stack(q, c))
  {
    hide Accounts, BinFor, PushObject, Stack, Consistent, CutFrom, Room, ObjectSize, ChunkOf, Bytes, NumBlocks;
    RoomIs(s.cfg, s.maxBytes, w.caches[i], ObjectSize(s.cfg, b));
    SmallChunk(s, w, p);
    DeallocateBranch(s, w, p);
    ConsistentCache(s, w, i);
    var q := w.caches[i];
    var (g1, q1) := PushObject(s, w.g, q, b, At(p));
    PushPuts(s, w.g, q, b, At(p), b);
    forall c: nat
      ensures c != b ==> CutFrom(Stack(q, c), Stack(q1, c))
      ensures Room(s.cfg, s.maxBytes, q, ObjectSize(s.cfg, b)) ==>
                Stack(q1, c) == if c == b then Stack(q, b) + [At(p)] else Stack(q, c)
    {
      PushPuts(s, w.g, q, b, At(p), c);
    }
  }

  lemma RoomIs(cfg: Config, maxBytes: nat, q: Queue, need: nat)
    requires ValidConfig(cfg)
    ensures Room(cfg, maxBytes, q, need) <==> Bytes(cfg, q) + need <= maxBytes && |q| < NumBlocks(cfg, maxBytes)
  {
    hide Bytes, NumBlocks;
  }

  /** It stays marked. */
  lemma FreedStaysMarked(s: Setup, w: World, p: nat, b: nat, i: nat)
    requires WorldOk(s, w) && i < |w.caches| && Has(s, w, p, b) && b <= s.maxBin
    ensures Slotted(s.cfg, Deallocate(s, w, At(p), i).g.table, p, b)
  {
    hide Accounts, Deallocate, Stack, BinFor, Slotted, Room;
    FreedIsCached(s, w, p, b, i);
    DeallocateCorrect(s, w, At(p), i);
    var w1 := Deallocate(s, w, At(p), i);
    OnStackSlotted(s, w1, i, b, |Stack(w1.caches[i], b)| - 1);
  }

  lemma OnStackSlotted(s: Setup, w: World, i: nat, b: nat, k: nat)
    requires WorldOk(s, w) && i < |w.caches| && k < |Stack(w.caches[i], b)| && Stack(w.caches[i], b)[k].At?
    ensures Slotted(s.cfg, w.g.table, Stack(w.caches[i], b)[k].pos, b)
  {
    hide InvBut, MarkedSet, Slotted, SmallOk, LargeOk, Stack, Sized, ValidConfig;
    var q := w.caches[i];
    var r := OnStack(q, b, k);
    assert BlockHeld(s.cfg, w.g.table, q[r.0]);
  }

  lemma {:induction false} OnStack(q: Queue, b: nat, k: nat) returns (r: (nat, nat))
    requires k < |Stack(q, b)|
    ensures r.0 < |q| && q[r.0].bin == b && r.1 < |q[r.0].items| && q[r.0].items[r.1] == Stack(q, b)[k]
    decreases |q|
  {
    var n := |q| - 1;
    if k < |Stack(q[..n], b)| {
      r := OnStack(q[..n], b, k);
    } else {
      r := (n, k - |Stack(q[..n], b)|);
    }
  }

  /** A freed object of a cached size is what the next request of that size through the same cache gets, and the chunks
      are not touched for it. */
  lemma FreedIsReused(s: Setup, w: World, p: nat, b: nat, i: nat, n: nat, grow: Storage)
    requires WorldOk(s, w) && i < |w.caches| && Has(s, w, p, b) && b <= s.maxBin
    requires n >= 1 && BinFor(s.cfg, n) == b && Bounded(s.cfg, grow)
    ensures var w1 := Deallocate(s, w, At(p), i);
            && WorldOk(s, w1) && i < |w1.caches|
            && var (o, w2) := Allocate(s, w1, n, i, grow); o == At(p) && w2.g == w1.g
  {
    hide Accounts, Deallocate, Allocate, Stack, BinFor, Bounded, CutFrom, Room;
    FreedIsCached(s, w, p, b, i);
    DeallocateCorrect(s, w, At(p), i);
    HitTakesTop(s, Deallocate(s, w, At(p), i), n, i, grow);
  }

  /** A freed object of another small size goes back to its chunk, and no cache changes. */
  lemma FreedDirectly(s: Setup, w: World, p: nat, b: nat, i: nat)
    requires WorldOk(s, w) && i < |w.caches| && Has(s, w, p, b) && s.maxBin < b < SmallBins(s.cfg)
    ensures |w.g.lists| == SmallBins(s.cfg) && Slotted(s.cfg, w.g.table, p, b)
    ensures var w1 := Deallocate(s, w, At(p), i);
            w1.caches == w.caches && w1.g == FreeOne(s.cfg, w.g, b, At(p))
  {
    hide Accounts, BinFor, ChunkOf, FreeOne, FreeAll, InvBut, Holds, Slotted;
    SmallChunk(s, w, p);
    DeallocateBranch(s, w, p);
    ListsThere(s, w);
    SingleHolds(s.cfg, w.g.table, b, p);
    FreeOnly(s.cfg, w.g, b, At(p));
  }

  // ---------- The first object ---------- //

  lemma {:induction false} LowestSlots(marked: set<nat>, k: nat, n: nat, i: nat)
    requires (forall j: nat :: j in marked <==> j < k) && i < n
    ensures FirstFree(marked, n)[i] == k + i
    decreases n
  {
    hide LeastFree;
    var l := LeastFree(marked);
    assert k !in marked && !(k < l) && !(l < k);
    if i > 0 { LowestSlots(marked + {k}, k + 1, n - 1, i - 1); }
  }

  /** A batch that fits a new chunk is its first slots, in order. */
  lemma BatchFromNewChunk(cfg: Config, g: Global, b: nat, n: nat, c: nat, grow: Storage)
    requires Inv(cfg, g) && b < |g.lists| && g.lists[b] == [] && Bounded(cfg, grow) && LowestUnused(g.table, c)
    requires EndOf(cfg, c) <= Enlarged(g.segment, EndOf(cfg, c), grow) && 1 <= n <= Slots(cfg, b)
    ensures var os := AllocMany(cfg, g, b, n, grow).0;
            forall i :: 0 <= i < n ==> os[i] == At(OffsetOf(cfg, c, b, i))
  {
    hide Slots, InvBut, EndOf, OffsetOf, FirstFree, Elements;
    FirstUnusedIs(g.table, c);
    var (ok, g1) := Provide(cfg, g, b, grow);
    ProvideOk(cfg, g, b, grow);
    assert g1.lists[b] == [c] && g1.table[c] == Small(b, {});
    MarkFrontOk(cfg, g1, b, n, YoungOf(g, b));
    var (os, g2) := MarkFront(cfg, g1, b, n);
    assert |os| == n;
    BulkNone(cfg, g2, b, grow);
    forall i | 0 <= i < n ensures os[i] == At(OffsetOf(cfg, c, b, i)) { LowestSlots({}, 0, n, i); }
  }

  /** On a fresh allocator the first request of a cached size gets the last object of a refill from chunk 0, and the
      cache the others in order. */
  lemma FirstRequest(s: Setup, numCaches: nat, segment: nat, n: nat, i: nat, grow: Storage)
    requires ValidSetup(s) && segment < Limit(s.cfg) && i < numCaches && Bounded(s.cfg, grow) && CachedRequest(s, n)
    requires MaxChunks(s.cfg) >= 1 && EndOf(s.cfg, 0) <= Enlarged(segment, EndOf(s.cfg, 0), grow)
    requires RefillCount(s.cfg, BinFor(s.cfg, n)) <= Slots(s.cfg, BinFor(s.cfg, n))
    ensures WorldOk(s, Runs.Initial(s, numCaches, segment))
    ensures var b, r := BinFor(s.cfg, n), RefillCount(s.cfg, BinFor(s.cfg, n));
            var (o, w1) := Allocate(s, Runs.Initial(s, numCaches, segment), n, i, grow);
            && o == At(OffsetOf(s.cfg, 0, b, r - 1)) && i < |w1.caches| && |w1.caches[i]| == 1
            && w1.caches[i][0].bin == b && |w1.caches[i][0].items| == r - 1
            && forall j :: 0 <= j < r - 1 ==> w1.caches[i][0].items[j] == At(OffsetOf(s.cfg, 0, b, j))
  {
    hide Accounts, BinFor, Allocate, Bounded, InvBut, EndOf, Slots, OffsetOf, FreeBlocks, HoldsBlocks, RefillCount,
      Limit, Stack, AllocMany;
    Runs.InitialOk(s, numCaches, segment);
    var w, b := Runs.Initial(s, numCaches, segment), BinFor(s.cfg, n);
    EmptyStack(b);
    MissRefills(s, w, n, i, grow);
    assert Evicted(s, [], b).0 == [] && Evicted(s, [], b).1 == [];
    ListsThere(s, w);
    FreeNothing(s.cfg, w.g);
    BatchFromNewChunk(s.cfg, w.g, b, RefillCount(s.cfg, b), 0, grow);
  }

  /** For example a first request of up to 8 bytes gets offset 504, whatever the chunk size. */
  lemma FirstSmallest(s: Setup, numCaches: nat, segment: nat, n: nat, i: nat, grow: Storage)
    requires ValidSetup(s) && segment < Limit(s.cfg) && i < numCaches && Bounded(s.cfg, grow) && 1 <= n <= 8
    requires MaxChunks(s.cfg) >= 1 && EndOf(s.cfg, 0) <= Enlarged(segment, EndOf(s.cfg, 0), grow)
    ensures WorldOk(s, Runs.Initial(s, numCaches, segment)) && BinFor(s.cfg, n) == 0
    ensures Allocate(s, Runs.Initial(s, numCaches, segment), n, i, grow).0 == At(504)
  {
    hide Accounts, Allocate, Bounded, InvBut, EndOf, Limit, BinFor, MaxChunks;
    SmallestBin(s.cfg, n);
    FirstRequest(s, numCaches, segment, n, i, grow);
  }

  lemma SmallestBin(cfg: Config, n: nat)
    requires ValidConfig(cfg) && 1 <= n <= 8
    ensures BinFor(cfg, n) == 0 < SmallBins(cfg) && ObjectSize(cfg, 0) == 8
    ensures RefillCount(cfg, 0) == 64 <= Slots(cfg, 0)
    ensures OffsetOf(cfg, 0, 0, 63) == 504
  {
    S.Landmarks(cfg.m, n);
    RefillFits(cfg, 0);
    U.Powers();
    U.Pow2Mono(9, cfg.m);
  }

  // ---------- Flushing ---------- //

  /** The blocks of the caches from cache i on, in the order in which they are handed back. */
  ghost function FlushedBlocks(s: Setup, caches: seq<Queue>, i: nat): Queue
    requires i <= |caches|
    decreases |caches| - i
  {
    if i == |caches| then [] else FlushOrder(caches[i], s.maxBin + 1) + FlushedBlocks(s, caches, i + 1)
  }

  lemma {:induction false} FlushedLater(s: Setup, caches: seq<Queue>, k: nat, q: Queue, i: nat)
    requires k < i <= |caches|
    ensures FlushedBlocks(s, caches[k := q], i) == FlushedBlocks(s, caches, i)
    decreases |caches| - i
  {
    hide FlushOrder;
    if i < |caches| { FlushedLater(s, caches, k, q, i + 1); }
  }

  /** A flush frees all blocks of all caches, cache by cache, and in each bin by bin. */
  lemma {:induction false} FlushFromIs(s: Setup, w: World, i: nat)
    requires WorldOk(s, w) && i <= |w.caches|
    ensures HoldsBlocks(s.cfg, w.g.table, FlushedBlocks(s, w.caches, i))
    ensures Runs.FlushFrom(s, w, i).g == FreeBlocks(s.cfg, w.g, FlushedBlocks(s, w.caches, i))
    decreases |w.caches| - i
  {
    hide InvBut, FreeBlocks, HoldsBlocks, FlushOrder, Flush, WorldOk;
    ListsThere(s, w);
    AllHeld(s, w, i);
    if i == |w.caches| {
      FreeNothing(s.cfg, w.g);
    } else {
      var w1 := FlushStep(s, w, i);
      FlushFromIs(s, w1, i + 1);
    }
  }

  /** One cache of a flush: its blocks are freed first, the later ones stay to be freed. */
  lemma FlushStep(s: Setup, w: World, i: nat) returns (w1: World)
    requires WorldOk(s, w) && i < |w.caches|
    requires Inv(s.cfg, w.g) && HoldsBlocks(s.cfg, w.g.table, FlushedBlocks(s, w.caches, i))
    ensures w1 == Runs.FlushCache(s, w, i) && WorldOk(s, w1) && |w1.caches| == |w.caches|
    ensures Inv(s.cfg, w1.g) && HoldsBlocks(s.cfg, w1.g.table, FlushedBlocks(s, w1.caches, i + 1))
    ensures FreeBlocks(s.cfg, w.g, FlushedBlocks(s, w.caches, i)) ==
            FreeBlocks(s.cfg, w1.g, FlushedBlocks(s, w1.caches, i + 1))
  {
    hide InvBut, FreeBlocks, HoldsBlocks, FlushOrder, Flush, Consistent, WorldOk, Cached;
    ConsistentCache(s, w, i);
    Runs.FlushCacheCorrect(s, w, i);
    w1 := Runs.FlushCache(s, w, i);
    FlushedLater(s, w.caches, i, [], i + 1);
    FreeBlocksConcat(s.cfg, w.g, FlushOrder(w.caches[i], s.maxBin + 1), FlushedBlocks(s, w.caches, i + 1));
    FlushIs(s, w.g, w.caches[i]);
  }

  lemma FlushIs(s: Setup, g: Global, q: Queue)
    requires Consistent(s, g, q)
    ensures HoldsBlocks(s.cfg, g.table, FlushOrder(q, s.maxBin + 1)) && Cached(FlushOrder(q, s.maxBin + 1)) == Cached(q)
    ensures Flush(s, g, q) == FreeBlocks(s.cfg, g, FlushOrder(q, s.maxBin + 1))
  {
    hide InvBut, FreeBlocks, FlushOrder, Consistent, HoldsBlocks, Balanced, Others, Cached;
    ConsistentBalanced(s, g, q);
    FlushHolds(s, g, q, Others(s, g, q));
  }

  lemma AllHeld(s: Setup, w: World, i: nat)
    requires WorldOk(s, w) && i <= |w.caches|
    ensures HoldsBlocks(s.cfg, w.g.table, FlushedBlocks(s, w.caches, i))
  {
    hide InvBut, MarkedSet, BlockHeld, AllCached, Cached, FlushedBlocks, SmallOk, LargeOk;
    FlushedAre(s, w, i);
    var keys, all, cached := multiset(w.small.Keys), AllCached(w.caches), Cached(FlushedBlocks(s, w.caches, i));
    assert cached <= keys + all + multiset{};
  }

  lemma OneMoreCached(caches: seq<Queue>, i: nat)
    requires i < |caches|
    ensures AllCached(caches[..i + 1]) == AllCached(caches[..i]) + Cached(caches[i])
  {
    hide Cached;
    assert caches[..i + 1][..i] == caches[..i];
  }

  lemma {:induction false} FlushedAre(s: Setup, w: World, i: nat)
    requires WorldOk(s, w) && i <= |w.caches|
    ensures AllCached(w.caches[..i]) + Cached(FlushedBlocks(s, w.caches, i)) == AllCached(w.caches)
    ensures BlocksHeld(s.cfg, w.g.table, FlushedBlocks(s, w.caches, i))
    decreases |w.caches| - i
  {
    hide Accounts, Consistent, InvBut, BlocksHeld, Cached, AllCached, FlushOrder, Flush, MarkedSet, HoldsBlocks;
    if i == |w.caches| {
      assert w.caches[..i] == w.caches;
      CachedOne(Block(0, []));
      NoneHeld(s.cfg, w.g.table);
    } else {
      FlushedAre(s, w, i + 1);
      ConsistentCache(s, w, i);
      FlushIs(s, w.g, w.caches[i]);
      var now, later := FlushOrder(w.caches[i], s.maxBin + 1), FlushedBlocks(s, w.caches, i + 1);
      CachedConcat(now, later);
      OneMoreCached(w.caches, i);
      assert AllCached(w.caches[..i]) + (Cached(now) + Cached(later)) ==
             (AllCached(w.caches[..i]) + Cached(now)) + Cached(later);
      BothHeld(s.cfg, w.g.table, now, later);
    }
  }

  ghost predicate BlocksHeld(cfg: Config, t: Table, q: Queue)
    requires ValidConfig(cfg)
  {
    forall j :: 0 <= j < |q| ==> BlockHeld(cfg, t, q[j])
  }

  lemma NoneHeld(cfg: Config, t: Table)
    requires ValidConfig(cfg)
    ensures BlocksHeld(cfg, t, [])
  {}

  lemma BothHeld(cfg: Config, t: Table, p: Queue, q: Queue)
    requires ValidConfig(cfg) && HoldsBlocks(cfg, t, p) && BlocksHeld(cfg, t, q)
    ensures BlocksHeld(cfg, t, p + q)
  {
    hide BlockHeld, MarkedSet, Cached;
    forall j | 0 <= j < |p + q| ensures BlockHeld(cfg, t, (p + q)[j]) {
      if j < |p| { assert (p + q)[j] == p[j]; } else { assert (p + q)[j] == q[j - |p|]; }
    }
  }
}
