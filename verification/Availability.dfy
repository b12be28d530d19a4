/** When allocation succeeds. With storage that can be extended, a request for small objects is met exactly
    when the chunk table has room for them, however the objects lie; over runs in which there is always room
    no cache ever holds a null offset (include/metall/kernel/segment_allocator.hpp). */
module Availability {
  import opened ChunkTable
  import opened BlockQueue
  import opened CacheBudget
  import opened FreeSlots
  import opened Ledger
  import opened GlobalAllocator
  import opened LargeAllocation
  import opened CachedAllocator
  import opened Allocator
  import opened Orphans
  import O = ObjectCache
  import Queries
  import Runs

  // ---------- Room in the chunk table ---------- //

  /** How many more objects of bin b this chunk can take: an unused one as many as it has slots, one of the bin
      as many as are free. Orphans are lost. */
  ghost function ChunkRoom(cfg: Config, x: Chunk, b: nat): (n: nat)
    requires ValidConfig(cfg)
  {
    if x == Unused then Slots(cfg, b)
    else if x.Small? && x.bin == b && x.marked != {} && |x.marked| < Slots(cfg, b) then Slots(cfg, b) - |x.marked|
    else 0
  }

  ghost function RoomBelow(cfg: Config, t: Table, b: nat, k: nat): nat
    requires ValidConfig(cfg) && k <= |t|
  {
    if k == 0 then 0 else RoomBelow(cfg, t, b, k - 1) + ChunkRoom(cfg, t[k - 1], b)
  }

  ghost function FreeRoom(cfg: Config, t: Table, b: nat): nat
    requires ValidConfig(cfg)
  {
    RoomBelow(cfg, t, b, |t|)
  }

  lemma {:induction false} RoomChanges(cfg: Config, t: Table, b: nat, c: nat, x: Chunk, k: nat)
    requires ValidConfig(cfg) && c < |t| && k <= |t|
    ensures RoomBelow(cfg, t[c := x], b, k) ==
            RoomBelow(cfg, t, b, k) + if c < k then ChunkRoom(cfg, x, b) - ChunkRoom(cfg, t[c], b) else 0
    decreases k
  {
    hide ChunkRoom;
    if k > 0 { RoomChanges(cfg, t, b, c, x, k - 1); }
  }

  lemma RoomUpdate(cfg: Config, t: Table, b: nat, c: nat, x: Chunk)
    requires ValidConfig(cfg) && c < |t|
    ensures FreeRoom(cfg, t[c := x], b) == FreeRoom(cfg, t, b) + ChunkRoom(cfg, x, b) - ChunkRoom(cfg, t[c], b)
  {
    hide ChunkRoom, RoomBelow;
    RoomChanges(cfg, t, b, c, x, |t|);
  }

  lemma {:induction false} RoomSomewhere(cfg: Config, t: Table, b: nat, k: nat)
    requires ValidConfig(cfg) && k <= |t|
    ensures RoomBelow(cfg, t, b, k) > 0 <==> exists c :: 0 <= c < k && ChunkRoom(cfg, t[c], b) > 0
    decreases k
  {
    hide ChunkRoom;
    if k > 0 { RoomSomewhere(cfg, t, b, k - 1); }
  }

  /** A chunk with room is unused or on the list. */
  lemma RoomIsListed(cfg: Config, g: Global, b: nat, c: nat)
    requires Inv(cfg, g) && b < |g.lists| && c < |g.table|
    ensures ChunkRoom(cfg, g.table[c], b) > 0 <==> g.table[c] == Unused || c in g.lists[b]
  {
    hide Slots, TableOk, InSegment;
    TwoSlots(cfg, b);
    assert ListOk(cfg, g.table, g.lists[b], b, -1);
    assert c in g.lists[b] <==> Listed(cfg, g.table, b, c, -1);
  }

  // ---------- Allocating ---------- //

  /** A chunk to take slots from is found or made exactly when there is room. */
  lemma ProvideServed(cfg: Config, g: Global, b: nat, grow: Storage)
    requires Inv(cfg, g) && b < |g.lists| && Bounded(cfg, grow) && Reliable(cfg, grow)
    ensures Provide(cfg, g, b, grow).0 <==> FreeRoom(cfg, g.table, b) > 0
  {
    hide ChunkRoom, InvBut, EndOf, Limit, RoomBelow;
    var t := g.table;
    RoomSomewhere(cfg, t, b, |t|);
    if g.lists[b] != [] {
      var c := g.lists[b][0];
      assert c in g.lists[b];
      ListedInTable(cfg, g, b, c);
      RoomIsListed(cfg, g, b, c);
    } else {
      var c := FirstFit(t, 1);
      forall d | 0 <= d < |t| ensures ChunkRoom(cfg, t[d], b) > 0 <==> t[d] == Unused { RoomIsListed(cfg, g, b, d); }
      NewChunkServed(cfg, g, b, grow);
      if c < |t| {
        assert t[c] == Unused;
      } else {
        forall d | 0 <= d < |t| ensures t[d] != Unused { assert !AllUnused(t, d, 1); }
      }
    }
  }

  lemma ListedInTable(cfg: Config, g: Global, b: nat, c: nat)
    requires Inv(cfg, g) && b < |g.lists| && c in g.lists[b]
    ensures NonFull(cfg, g.table, b, c) && g.table[c].marked != {}
  {
    hide Slots, TableOk, InSegment;
    assert ListOk(cfg, g.table, g.lists[b], b, -1);
    assert Listed(cfg, g.table, b, c, -1);
  }

  lemma NewChunkServed(cfg: Config, g: Global, b: nat, grow: Storage)
    requires Inv(cfg, g) && b < |g.lists| && Bounded(cfg, grow) && Reliable(cfg, grow)
    ensures NewChunk(cfg, g, b, grow).0 <==> FirstFit(g.table, 1) < |g.table|
  {
    hide FirstFit, ListsOk, TableOk;
    var c := FirstFit(g.table, 1);
    TableLengthIs(cfg, g);
    if c < |g.table| { EndBelowLimit(cfg, c); } else { PastTheEnd(cfg, c, 1); }
  }

  lemma TableLengthIs(cfg: Config, g: Global)
    requires Inv(cfg, g)
    ensures |g.table| == MaxChunks(cfg)
  {
    hide ListsOk, InSegment;
  }

  /** Slots taken are room lost. */
  lemma MarkRoom(cfg: Config, g: Global, b: nat, n: nat, grow: Storage)
    requires Inv(cfg, g) && b < |g.lists| && Bounded(cfg, grow) && n >= 1 && Provide(cfg, g, b, grow).0
    requires Ready(cfg, Provide(cfg, g, b, grow).1, b)
    ensures var (os, g2) := MarkFront(cfg, Provide(cfg, g, b, grow).1, b, n);
            FreeRoom(cfg, g2.table, b) == FreeRoom(cfg, g.table, b) - |os| && NoNulls(os)
  {
    hide Slots, FirstFree, FirstFit, InvBut, EndOf, FreeRoom, OffsetOf;
    var g1 := Provide(cfg, g, b, grow).1;
    var c, k := g1.lists[b][0], Take(cfg, g1, b, n);
    var marked, slots := g1.table[c].marked, FirstFree(g1.table[c].marked, k);
    FirstFreeCount(marked, k);
    var x := Small(b, marked + Elements(slots));
    assert slots[0] in x.marked;
    if g.lists[b] != [] {
      assert c in g.lists[b];
      ListedInTable(cfg, g, b, c);
    } else {
      UnusedFirst(cfg, g, b, grow);
      assert g1.table[c := x] == g.table[c := x];
    }
    RoomUpdate(cfg, g.table, b, c, x);
  }

  lemma UnusedFirst(cfg: Config, g: Global, b: nat, grow: Storage)
    requires Inv(cfg, g) && b < |g.lists| && g.lists[b] == [] && Bounded(cfg, grow) && Provide(cfg, g, b, grow).0
    ensures var c := FirstFit(g.table, 1);
            && c < |g.table| && g.table[c] == Unused && Provide(cfg, g, b, grow).1.lists[b] == [c]
            && Provide(cfg, g, b, grow).1.table == g.table[c := Small(b, {})]
  {
    hide ListsOk, TableOk;
    TableLengthIs(cfg, g);
    PastTheEnd(cfg, MaxChunks(cfg), 1);
  }

  /** Bulk allocation gives n objects exactly when there is room for n, and then takes that much room. */
  lemma {:induction false} AllocManyServed(cfg: Config, g: Global, b: nat, n: nat, grow: Storage)
    requires Inv(cfg, g) && b < |g.lists| && Bounded(cfg, grow) && Reliable(cfg, grow)
    ensures NoNulls(AllocMany(cfg, g, b, n, grow).0) <==> n <= FreeRoom(cfg, g.table, b)
    ensures n <= FreeRoom(cfg, g.table, b) ==>
              FreeRoom(cfg, AllocMany(cfg, g, b, n, grow).1.table, b) == FreeRoom(cfg, g.table, b) - n
    decreases n
  {
    hide InvBut, Provide, MarkFront, FreeRoom, Reliable, Bounded, MarkedSet, Keeps, ValidConfig;
    if n > 0 {
      ProvideOk(cfg, g, b, grow);
      ProvideServed(cfg, g, b, grow);
      var (ok, g1) := Provide(cfg, g, b, grow);
      if ok {
        MarkFrontOk(cfg, g1, b, n, YoungOf(g, b));
        MarkRoom(cfg, g, b, n, grow);
        var (os, g2) := MarkFront(cfg, g1, b, n);
        AllocManyServed(cfg, g2, b, n - |os|, grow);
        NullsConcat(os, AllocMany(cfg, g2, b, n - |os|, grow).0);
      } else {
        assert AllocMany(cfg, g, b, n, grow).0[0] == Null;
      }
    }
  }

  lemma NullsConcat(a: seq<Offset>, b: seq<Offset>)
    ensures NoNulls(a + b) <==> NoNulls(a) && NoNulls(b)
  {
    if NoNulls(a + b) {
      forall i | 0 <= i < |a| ensures a[i].At? { assert (a + b)[i] == a[i]; }
      forall i | 0 <= i < |b| ensures b[i].At? { assert (a + b)[|a| + i] == b[i]; }
    }
  }

  /** The same one by one. */
  lemma {:induction false} AllocSinglesServed(cfg: Config, g: Global, b: nat, n: nat, grow: Storage)
    requires Inv(cfg, g) && b < |g.lists| && Bounded(cfg, grow) && Reliable(cfg, grow)
    ensures NoNulls(AllocSingles(cfg, g, b, n, grow).0) <==> n <= FreeRoom(cfg, g.table, b)
    decreases n
  {
    hide InvBut, AllocMany, FreeRoom, Reliable, Bounded, Grown;
    if n > 0 {
      AllocManyCorrect(cfg, g, b, 1, grow);
      AllocManyServed(cfg, g, b, 1, grow);
      var (o, g1) := AllocMany(cfg, g, b, 1, grow);
      GrownInv(cfg, g, b, o, g1);
      AllocSinglesServed(cfg, g1, b, n - 1, grow);
      NullsConcat(o, AllocSingles(cfg, g1, b, n - 1, grow).0);
    }
  }

  /** Small objects are allocated exactly when there is room for them. */
  lemma AllocSmallServed(cfg: Config, g: Global, b: nat, n: nat, grow: Storage)
    requires Inv(cfg, g) && b < |g.lists| && Bounded(cfg, grow) && Reliable(cfg, grow)
    ensures NoNulls(AllocSmall(cfg, g, b, n, grow).0) <==> n <= FreeRoom(cfg, g.table, b)
  {
    hide InvBut, AllocMany, AllocSingles, FreeRoom, Reliable, Bounded;
    AllocManyServed(cfg, g, b, n, grow);
    AllocSinglesServed(cfg, g, b, n, grow);
  }

  /** A large object is allocated exactly when some run of unused chunks is long enough. */
  lemma AllocLargeServed(cfg: Config, g: Global, b: nat, grow: Storage)
    requires Inv(cfg, g) && SmallBins(cfg) <= b < NumBins(cfg) && Bounded(cfg, grow) && Reliable(cfg, grow)
    ensures AllocLarge(cfg, g, b, grow).0.At? <==> !NoRoom(cfg, g.table, b)
  {
    hide InvBut, AllocLarge, MarkedSet, Slotted, RunLength, NoRoom, FirstFit, ChunkSize, MaxChunks, Reliable, Extend,
      Limit, EndOf;
    AllocLargeCorrect(cfg, g, b, grow);
    LargeExtends(cfg, g, b, grow);
    TableLengthIs(cfg, g);
    RoomIsFit(cfg, g.table, b);
    var c, n := FirstFit(g.table, RunLength(cfg, b)), RunLength(cfg, b);
    if c < |g.table| {
      LargeObjects(cfg, b);
      assert AllUnused(g.table, c, n);
      EndBelowLimit(cfg, c + n - 1);
      Extends(cfg, g.segment, EndOf(cfg, c + n - 1), grow);
    }
  }

  lemma LargeExtends(cfg: Config, g: Global, b: nat, grow: Storage)
    requires Inv(cfg, g) && SmallBins(cfg) <= b < NumBins(cfg)
    ensures var c, n := FirstFit(g.table, RunLength(cfg, b)), RunLength(cfg, b);
            n >= 1 && (AllocLarge(cfg, g, b, grow).0.At? <==> Extend(g.segment, EndOf(cfg, c + n - 1), grow).0)
  {
    hide InvBut, RunLength, FirstFit, ChunkSize, Extend, EraseAt;
    LargeObjects(cfg, b);
    ProductIs(FirstFit(g.table, RunLength(cfg, b)) + RunLength(cfg, b), ChunkSize(cfg));
  }

  lemma Extends(cfg: Config, segment: nat, required: nat, grow: Storage)
    requires Reliable(cfg, grow) && required < Limit(cfg)
    ensures Extend(segment, required, grow).0
  {
    hide Limit;
  }

  // ---------- Freeing ---------- //

  /** A freed slot is room gained for its bin, and never room lost for another. */
  lemma FreeOneRoom(cfg: Config, g: Global, a: nat, o: Offset, b: nat)
    requires Inv(cfg, g) && a < |g.lists| && b < |g.lists| && (o.At? ==> Slotted(cfg, g.table, o.pos, a))
    ensures FreeRoom(cfg, FreeOne(cfg, g, a, o).table, b) >= FreeRoom(cfg, g.table, b)
    ensures o.At? && a == b ==> FreeRoom(cfg, FreeOne(cfg, g, a, o).table, b) == FreeRoom(cfg, g.table, b) + 1
  {
    hide Slots, OffsetOf, ChunkOf, SlotOf, TableOk, ListsOk, InSegment, FreeRoom, Erase;
    if o.At? {
      var c, k := ChunkOf(cfg, o.pos), SlotOf(cfg, a, o.pos);
      var m := g.table[c].marked;
      var t := g.table[c := Small(a, m - {k})];
      EntryFromTable(cfg, g.table, c);
      MarkOk(cfg, g.table, c, m - {k});
      EraseSmallOk(cfg, t, c);
      TwoSlots(cfg, a);
      SlotCount(cfg, g.table, c);
      assert |m - {k}| == |m| - 1;
      assert t[c := Unused] == g.table[c := Unused];
      RoomUpdate(cfg, g.table, b, c, Small(a, m - {k}));
      RoomUpdate(cfg, g.table, b, c, Unused);
    }
  }

  lemma {:induction false} FreeAllRoom(cfg: Config, g: Global, a: nat, items: seq<Offset>, b: nat)
    requires Inv(cfg, g) && a < |g.lists| && b < |g.lists| && Holds(cfg, g.table, a, items)
    ensures FreeRoom(cfg, FreeAll(cfg, g, a, items).table, b) >= FreeRoom(cfg, g.table, b)
    decreases |items|
  {
    hide MarkedSet, Slotted, InvBut, FreeOne, Holds, Objects, Shrunk, ValidConfig, FreeRoom;
    if items != [] {
      HoldsFirst(cfg, g, a, items);
      FreeOneCorrect(cfg, g, a, items[0]);
      FreeOneRoom(cfg, g, a, items[0], b);
      var g1 := FreeOne(cfg, g, a, items[0]);
      ShrunkInv(cfg, g, Objects([items[0]]), g1);
      HoldsTail(cfg, g, a, items, g1);
      FreeAllRoom(cfg, g1, a, items[1..], b);
    }
  }

  lemma HoldsFirst(cfg: Config, g: Global, a: nat, items: seq<Offset>)
    requires Inv(cfg, g) && Holds(cfg, g.table, a, items) && items != []
    ensures items[0].At? ==> Slotted(cfg, g.table, items[0].pos, a)
  {
    hide MarkedSet, Slotted, InvBut, Objects;
  }

  lemma {:induction false} FreeBlocksRoom(cfg: Config, g: Global, q: Queue, b: nat)
    requires Inv(cfg, g) && HoldsBlocks(cfg, g.table, q) && b < |g.lists|
    ensures FreeRoom(cfg, FreeBlocks(cfg, g, q).table, b) >= FreeRoom(cfg, g.table, b)
    decreases |q|
  {
    hide MarkedSet, Slotted, InvBut, FreeAll, Holds, Objects, Cached, Shrunk, HoldsBlocks, ValidConfig, FreeRoom;
    if q != [] {
      BlockHolds(cfg, g.table, q);
      FreeAllCorrect(cfg, g, q[0].bin, q[0].items);
      FreeAllRoom(cfg, g, q[0].bin, q[0].items, b);
      var g1 := FreeAll(cfg, g, q[0].bin, q[0].items);
      ShrunkInv(cfg, g, Objects(q[0].items), g1);
      HoldsRest(cfg, g, q, g1);
      FreeBlocksRoom(cfg, g1, q[1..], b);
    }
  }

  // ---------- The caches ---------- //

  /** No block holds a null offset. */
  ghost predicate Filled(q: Queue) { forall j :: 0 <= j < |q| ==> NoNulls(q[j].items) }

  lemma RefillServed(s: Setup, g: Global, q: Queue, b: nat, grow: Storage, others: multiset<nat>)
    requires Balanced(s, g, q, others) && CachedBin(s, b) && Bounded(s.cfg, grow) && Reliable(s.cfg, grow)
    requires Filled(q) && b < |g.lists| && RefillCount(s.cfg, b) <= FreeRoom(s.cfg, g.table, b)
    ensures Consistent(s, g, q) && Packed(q)
    ensures Filled(Refill(s, g, q, b, grow).1)
  {
    hide InvBut, Held, MarkedSet, Cached, MakeRoom, Packed, NumBlocks, FreeBlocks, AllocSmall, HoldsBlocks, Sized,
      RefillCount, ObjectSize, ValidConfig, FreeRoom, Reliable, Bounded, Moved, Balanced, Room, NoNulls;
    BalancedFacts(s, g, q, others);
    AffordableRefill(s, b);
    EvictOk(s, g, q, RefillBytes(s.cfg, b), others);
    var (ev, rest) := MakeRoom(s.cfg, s.maxBytes, q, RefillBytes(s.cfg, b));
    FreeBlocksRoom(s.cfg, g, ev, b);
    MovedInv(s.cfg, g, others, FreeBlocks(s.cfg, g, ev));
    AllocSmallServed(s.cfg, FreeBlocks(s.cfg, g, ev), b, RefillCount(s.cfg, b), grow);
    forall j | 0 <= j < |rest| ensures NoNulls(rest[j].items) { assert q[|ev| + j] == rest[j]; }
  }

  /** Whether a pop of bin b needs no refill, or has room for one. */
  ghost predicate PopRoom(s: Setup, t: Table, q: Queue, b: nat)
    requires ValidConfig(s.cfg)
  {
    Active(DropEmpty(q, b), b) >= 0 || RefillCount(s.cfg, b) <= FreeRoom(s.cfg, t, b)
  }

  /** A cache without null offsets that finds room gives an object and stays without. */
  lemma PopServed(s: Setup, g: Global, q: Queue, b: nat, grow: Storage)
    requires Consistent(s, g, q) && CachedBin(s, b) && Bounded(s.cfg, grow) && Reliable(s.cfg, grow)
    requires Filled(q) && PopRoom(s, g.table, q, b)
    ensures var (o, _, q1) := Pop(s, g, q, b, grow); o.At? && Filled(q1)
  {
    hide InvBut, Balanced, Others, DropEmpty, Active, Refill, ValidConfig, FreeRoom, Reliable, Bounded, Filled,
      Consistent, RefillCount;
    ConsistentBalanced(s, g, q);
    BinHasList(s, g, q, b);
    DropBalanced(s, g, q, b, Others(s, g, q));
    FilledDrop(q, b);
    var q0 := DropEmpty(q, b);
    if Active(q0, b) >= 0 {
      FilledTake(q0, b);
    } else {
      BalancedFacts(s, g, q0, Others(s, g, q));
      RefillServed(s, g, q0, b, grow, Others(s, g, q));
      RefillCorrect(s, g, q0, b, grow, Others(s, g, q));
      FilledTake(Refill(s, g, q0, b, grow).1, b);
    }
  }

  lemma BinHasList(s: Setup, g: Global, q: Queue, b: nat)
    requires Consistent(s, g, q) && CachedBin(s, b)
    ensures b < |g.lists|
  {
    hide Consistent;
  }

  lemma FilledDrop(q: Queue, b: nat)
    requires Filled(q)
    ensures Filled(DropEmpty(q, b))
  {
    hide Active, NoNulls;
  }

  lemma FilledTake(q: Queue, b: nat)
    requires Filled(q) && Active(q, b) >= 0 && |q[Active(q, b)].items| > 0
    ensures Top(q, b).At? && Filled(TakeTop(q, b))
  {
    hide Active;
    var i := Active(q, b);
    assert NoNulls(q[i].items);
  }

  lemma FilledPush(q: Queue, b: nat, o: Offset)
    requires Filled(q) && o.At?
    ensures Filled(Push(q, b, o))
  {
    hide Active;
  }

  lemma PushServed(s: Setup, g: Global, q: Queue, b: nat, o: Offset)
    requires Consistent(s, g, q) && CachedBin(s, b) && Filled(q) && o.At?
    ensures Filled(PushObject(s, g, q, b, o).1)
  {
    hide InvBut, Held, MarkedSet, Cached, MakeRoom, Packed, NumBlocks, FreeBlocks, HoldsBlocks, Sized, ObjectSize,
         Moved, Balanced, Others, Consistent, Room, NoNulls, Push;
    ConsistentBalanced(s, g, q);
    BalancedFacts(s, g, q, Others(s, g, q));
    AffordableRefill(s, b);
    EvictOk(s, g, q, ObjectSize(s.cfg, b), Others(s, g, q));
    var (ev, rest) := MakeRoom(s.cfg, s.maxBytes, q, ObjectSize(s.cfg, b));
    forall j | 0 <= j < |rest| ensures NoNulls(rest[j].items) { assert q[|ev| + j] == rest[j]; }
    FilledPush(rest, b, o);
  }

  // ---------- Whole operations and runs ---------- //

  ghost predicate AllFilled(caches: seq<Queue>) { forall i :: 0 <= i < |caches| ==> Filled(caches[i]) }

  /** There is room for a request: a refill for a cached size, one slot for another small one, a run of chunks for
      a large one. */
  ghost predicate HasRoom(s: Setup, w: World, n: nat, i: nat)
    requires ValidConfig(s.cfg) && i < |w.caches|
  {
    var b := BinFor(s.cfg, n);
    if b < 0 then false
    else if b < SmallBins(s.cfg) then
      if b <= s.maxBin then PopRoom(s, w.g.table, w.caches[i], b) else 1 <= FreeRoom(s.cfg, w.g.table, b)
    else !NoRoom(s.cfg, w.g.table, b)
  }

  /** With room, and no null offsets in the caches, a request is met, and there are still none. */
  lemma AllocateServed(s: Setup, w: World, n: nat, i: nat, grow: Storage)
    requires WorldOk(s, w) && i < |w.caches| && Bounded(s.cfg, grow) && Reliable(s.cfg, grow)
    requires AllFilled(w.caches) && n >= 1 && HasRoom(s, w, n, i)
    ensures BinFor(s.cfg, n) >= 0
    ensures var (o, w1) := Allocate(s, w, n, i, grow); o.At? && AllFilled(w1.caches)
  {
    hide Accounts, BinFor, Pop, AllocSmall, AllocLarge, Reliable, Bounded, Consistent, InvBut, Filled, FreeRoom,
      PopRoom, NoRoom;
    var b := BinFor(s.cfg, n);
    if b < SmallBins(s.cfg) {
      if b <= s.maxBin {
        ConsistentCache(s, w, i);
        PopServed(s, w.g, w.caches[i], b, grow);
      } else {
        AllocSmallServed(s.cfg, w.g, b, 1, grow);
      }
    } else {
      BinInRange(s.cfg, n);
      AllocLargeServed(s.cfg, w.g, b, grow);
    }
  }

  /** Large and uncached requests put nothing into the caches. */
  lemma OtherRequests(s: Setup, w: World, n: nat, i: nat, grow: Storage)
    requires WorldOk(s, w) && i < |w.caches| && Bounded(s.cfg, grow) && (n == 0 || BinFor(s.cfg, n) >= 0)
    requires n == 0 || BinFor(s.cfg, n) > s.maxBin || BinFor(s.cfg, n) >= SmallBins(s.cfg)
    ensures Allocate(s, w, n, i, grow).1.caches == w.caches
  {
    hide Accounts, BinFor, Pop, AllocSmall, AllocLarge, Bounded, InvBut;
  }

  lemma DeallocateServed(s: Setup, w: World, o: Offset, i: nat)
    requires WorldOk(s, w) && i < |w.caches| && (o.At? ==> o.pos in w.small || o.pos in w.large) && AllFilled(w.caches)
    ensures AllFilled(Deallocate(s, w, o, i).caches)
  {
    hide Accounts, BinFor, PushObject, FreeAll, Consistent, InvBut, Filled, Holds, ChunkOf, Erase;
    if o.At? {
      DeallocateBranch(s, w, o.pos);
      var b := w.g.table[ChunkOf(s.cfg, o.pos)].bin;
      if b < SmallBins(s.cfg) {
        SmallChunk(s, w, o.pos);
        if b <= s.maxBin {
          ConsistentCache(s, w, i);
          PushServed(s, w.g, w.caches[i], b, o);
        }
      }
    }
  }

  /** Wherever a cached size is requested there is room for a refill, and the storage can be extended. */
  ghost predicate Roomy(s: Setup, w: World, op: Runs.Op)
    requires WorldOk(s, w) && Runs.Legal(s, w, op)
  {
    op.Alloc? && op.n >= 1 && BinFor(s.cfg, op.n) < SmallBins(s.cfg) && BinFor(s.cfg, op.n) <= s.maxBin ==>
      Reliable(s.cfg, op.grow) && HasRoom(s, w, op.n, op.cache)
  }

  lemma StepFilled(s: Setup, w: World, op: Runs.Op)
    requires WorldOk(s, w) && Runs.Legal(s, w, op) && Roomy(s, w, op) && AllFilled(w.caches)
    ensures AllFilled(Runs.Step(s, w, op).caches)
  {
    hide Accounts, Allocate, Deallocate, Runs.FlushFrom, BinFor, Reliable, HasRoom, Filled;
    match op {
      case Alloc(n, cache, grow) =>
        if n >= 1 && BinFor(s.cfg, n) < SmallBins(s.cfg) && BinFor(s.cfg, n) <= s.maxBin {
          AllocateServed(s, w, n, cache, grow);
        } else {
          OtherRequests(s, w, n, cache, grow);
        }
      case Free(o, cache) => DeallocateServed(s, w, o, cache);
      case FlushAllCaches =>
        Runs.FlushedCaches(s, w);
        EmptyFilled(Runs.FlushAll(s, w).caches);
    }
  }

  lemma EmptyFilled(caches: seq<Queue>)
    requires forall i :: 0 <= i < |caches| ==> caches[i] == []
    ensures AllFilled(caches)
  {}

  ghost predicate RoomyRun(s: Setup, w: World, ops: seq<Runs.Op>)
    requires WorldOk(s, w) && Runs.LegalRun(s, w, ops)
    decreases |ops|
  {
    ops == [] || (Roomy(s, w, ops[0])
      && (Runs.StepCorrect(s, w, ops[0]); RoomyRun(s, Runs.Step(s, w, ops[0]), ops[1..])))
  }

  /** Over runs in which there is always room no cache ever holds a null offset. */
  lemma {:induction false} RunFilled(s: Setup, w: World, ops: seq<Runs.Op>)
    requires WorldOk(s, w) && Runs.LegalRun(s, w, ops) && RoomyRun(s, w, ops) && AllFilled(w.caches)
    ensures AllFilled(Runs.Run(s, w, ops).caches)
    decreases |ops|
  {
    hide Accounts, Runs.Step, Runs.Legal, Roomy, AllFilled;
    if ops != [] {
      Runs.StepCorrect(s, w, ops[0]);
      StepFilled(s, w, ops[0]);
      RunFilled(s, Runs.Step(s, w, ops[0]), ops[1..]);
    }
  }

  lemma {:induction false} FilledStack(q: Queue, b: nat)
    requires Filled(q)
    ensures NoNulls(Stack(q, b))
    decreases |q|
  {
    if q != [] {
      var n := |q| - 1;
      assert forall j :: 0 <= j < n ==> q[..n][j] == q[j];
      FilledStack(q[..n], b);
    }
  }

  lemma {:induction false} FilledBins(q: Queue, k: nat)
    requires Filled(q)
    ensures NoNulls(Queries.VisitBins(q, k))
    decreases k
  {
    hide Filled;
    if k > 0 {
      FilledBins(q, k - 1);
      FilledStack(q, k - 1);
      NullsConcat(Queries.VisitBins(q, k - 1), O.Reverse(Stack(q, k - 1)));
    }
  }

  lemma {:induction false} FilledCaches(s: Setup, caches: seq<Queue>)
    requires AllFilled(caches)
    ensures NoNulls(Queries.VisitCaches(s, caches))
    decreases |caches|
  {
    hide Filled, Queries.VisitBins;
    if caches != [] {
      var n := |caches| - 1;
      FilledCaches(s, caches[..n]);
      FilledBins(caches[n], s.maxBin + 1);
      NullsConcat(Queries.VisitCaches(s, caches[..n]), Queries.VisitBins(caches[n], s.maxBin + 1));
    }
  }

  /** So over such a run from a fresh allocator the question whether all memory is deallocated is answered
      exactly: yes, if and only if the client holds nothing. */
  lemma RunAnswers(s: Setup, numCaches: nat, segment: nat, ops: seq<Runs.Op>)
    requires ValidSetup(s) && segment < Limit(s.cfg)
    requires var w0 := Runs.Initial(s, numCaches, segment);
             WorldOk(s, w0) && Runs.LegalRun(s, w0, ops) && RoomyRun(s, w0, ops)
    ensures var w := Runs.Run(s, Runs.Initial(s, numCaches, segment), ops);
            Queries.AllMemoryDeallocated(s, w) <==> w.small == map[] && w.large == map[]
  {
    hide Accounts, Runs.Run, Runs.LegalRun, RoomyRun, AllFilled, Queries.AllMemoryDeallocated, Queries.VisitCaches,
      Limit;
    var w0 := Runs.Initial(s, numCaches, segment);
    EmptyFilled(w0.caches);
    RunFilled(s, w0, ops);
    Runs.RunIsSafe(s, w0, ops);
    var w := Runs.Run(s, w0, ops);
    FilledCaches(s, w.caches);
    Queries.AllDeallocatedMeans(s, w);
  }
}
