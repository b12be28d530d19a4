/** When every extension of the segment succeeds, no chunk is ever registered without a marked slot, so the
    non-full lists are exact (include/metall/kernel/segment_allocator.hpp). */
module Orphans {
  import opened ChunkTable
  import opened BlockQueue
  import opened BinDirectory
  import opened CacheBudget
  import opened FreeSlots
  import opened Ledger
  import opened GlobalAllocator
  import opened LargeAllocation
  import opened CachedAllocator
  import opened Allocator

  ghost predicate NoOrphans(t: Table, but: int := -1) {
    forall c :: 0 <= c < |t| && c != but && t[c].Small? ==> t[c].marked != {}
  }

  /** The storage extends the segment to any size that the chunk table can use. */
  ghost predicate Reliable(cfg: Config, grow: Storage) {
    forall n: nat :: n < Limit(cfg) ==> n <= grow(n)
  }

  /** Without orphans the list of a bin is exactly its chunks with a free slot, each once, and every small
      chunk has a marked slot. */
  lemma ListsExact(cfg: Config, g: Global, b: nat, c: nat)
    requires Inv(cfg, g) && NoOrphans(g.table) && b < |g.lists|
    ensures NoDuplicates(g.lists[b]) && (c in g.lists[b] <==> NonFull(cfg, g.table, b, c))
    ensures c < |g.table| && g.table[c].Small? ==> g.table[c].marked != {}
  {
    hide TableOk, NonFull, InSegment, ValidConfig;
    assert ListOk(cfg, g.table, g.lists[b], b, -1);
    assert c in g.lists[b] <==> Listed(cfg, g.table, b, c, -1);
  }

  // ---------- Allocating ---------- //

  lemma EndBelowLimit(cfg: Config, c: nat)
    requires ValidConfig(cfg) && c < MaxChunks(cfg)
    ensures EndOf(cfg, c) < Limit(cfg)
  {
    assert (c + 1) * ChunkSize(cfg) < (MaxChunks(cfg) + 1) * ChunkSize(cfg);
  }

  lemma ProvideOrphans(cfg: Config, g: Global, b: nat, grow: Storage)
    requires Inv(cfg, g) && b < |g.lists| && Bounded(cfg, grow) && Reliable(cfg, grow) && NoOrphans(g.table)
    ensures var (ok, g1) := Provide(cfg, g, b, grow);
            NoOrphans(g1.table, if ok then YoungOf(g, b) else -1)
  {
    hide Slotted, FirstFit, Limit, EndOf, MaxChunks, ListsOk, InSegment;
    var c := FirstFit(g.table, 1);
    if c < |g.table| { EndBelowLimit(cfg, c); }
  }

  lemma MarkFrontOrphans(cfg: Config, g: Global, b: nat, n: nat, young: int)
    requires InvBut(cfg, g, young) && Ready(cfg, g, b) && n >= 1
    requires NoOrphans(g.table, young) && (young >= 0 ==> g.lists[b] == [young])
    ensures NoOrphans(MarkFront(cfg, g, b, n).1.table)
  {
    hide Slots, FirstFree, TableOk, ListsOk, InSegment, OffsetsOf;
    var c := g.lists[b][0];
    var slots := FirstFree(g.table[c].marked, Take(cfg, g, b, n));
    assert slots[0] in MarkAll(g.table, c, slots)[c].marked;
  }

  lemma {:induction false} AllocManyOrphans(cfg: Config, g: Global, b: nat, n: nat, grow: Storage)
    requires Inv(cfg, g) && b < |g.lists| && Bounded(cfg, grow) && Reliable(cfg, grow) && NoOrphans(g.table)
    ensures NoOrphans(AllocMany(cfg, g, b, n, grow).1.table)
    decreases n
  {
    hide Slotted, MarkedSet, InvBut, Objects, Keeps, Provide, MarkFront, Ready, TableOk, ValidConfig, NoOrphans,
      Reliable, Bounded;
    if n > 0 {
      ProvideOk(cfg, g, b, grow);
      ProvideOrphans(cfg, g, b, grow);
      var (ok, g1) := Provide(cfg, g, b, grow);
      if ok {
        MarkFrontOk(cfg, g1, b, n, YoungOf(g, b));
        MarkFrontOrphans(cfg, g1, b, n, YoungOf(g, b));
        var (os, g2) := MarkFront(cfg, g1, b, n);
        AllocManyOrphans(cfg, g2, b, n - |os|, grow);
      }
    }
  }

  lemma {:induction false} AllocSmallOrphans(cfg: Config, g: Global, b: nat, n: nat, grow: Storage)
    requires Inv(cfg, g) && b < |g.lists| && Bounded(cfg, grow) && Reliable(cfg, grow) && NoOrphans(g.table)
    ensures NoOrphans(AllocSmall(cfg, g, b, n, grow).1.table)
    ensures NoOrphans(AllocSingles(cfg, g, b, n, grow).1.table)
    decreases n
  {
    hide InvBut, AllocMany, NoOrphans, Reliable, Bounded, Grown;
    AllocManyOrphans(cfg, g, b, n, grow);
    if n > 0 {
      AllocManyCorrect(cfg, g, b, 1, grow);
      AllocManyOrphans(cfg, g, b, 1, grow);
      GrownInv(cfg, g, b, AllocMany(cfg, g, b, 1, grow).0, AllocMany(cfg, g, b, 1, grow).1);
      AllocSmallOrphans(cfg, AllocMany(cfg, g, b, 1, grow).1, b, n - 1, grow);
    }
  }

  lemma GrownInv(cfg: Config, g: Global, b: nat, os: seq<Offset>, g1: Global)
    requires Inv(cfg, g) && Grown(cfg, g, b, os, g1)
    ensures Inv(cfg, g1)
  {}

  // ---------- Freeing ---------- //

  /** Freeing never makes an orphan: a chunk that becomes empty is unregistered. */
  lemma FreeOneOrphans(cfg: Config, g: Global, b: nat, o: Offset)
    requires Inv(cfg, g) && b < |g.lists| && (o.At? ==> Slotted(cfg, g.table, o.pos, b)) && NoOrphans(g.table)
    ensures NoOrphans(FreeOne(cfg, g, b, o).table)
  {
    hide Slots, OffsetOf, ChunkOf, SlotOf, TableOk, ListsOk, InSegment, Erased, Erase;
    if o.At? {
      var c, k := ChunkOf(cfg, o.pos), SlotOf(cfg, b, o.pos);
      var t := g.table[c := Small(b, g.table[c].marked - {k})];
      EntryFromTable(cfg, g.table, c);
      MarkOk(cfg, g.table, c, t[c].marked);
      EraseSmallOk(cfg, t, c);
      TwoSlots(cfg, b);
      assert |t[c].marked| == |g.table[c].marked| - 1;
    }
  }

  lemma {:induction false} FreeAllOrphans(cfg: Config, g: Global, b: nat, items: seq<Offset>)
    requires Inv(cfg, g) && b < |g.lists| && Holds(cfg, g.table, b, items) && NoOrphans(g.table)
    ensures NoOrphans(FreeAll(cfg, g, b, items).table)
    decreases |items|
  {
    hide MarkedSet, Slotted, InvBut, FreeOne, Holds, Objects, Shrunk, ValidConfig, NoOrphans;
    if items != [] {
      HoldsFirst(cfg, g.table, b, items);
      FreeOneCorrect(cfg, g, b, items[0]);
      FreeOneOrphans(cfg, g, b, items[0]);
      var g1 := FreeOne(cfg, g, b, items[0]);
      ShrunkInv(cfg, g, Objects([items[0]]), g1);
      HoldsTail(cfg, g, b, items, g1);
      FreeAllOrphans(cfg, g1, b, items[1..]);
    }
  }

  lemma {:induction false} FreeBlocksOrphans(cfg: Config, g: Global, q: Queue)
    requires Inv(cfg, g) && HoldsBlocks(cfg, g.table, q) && NoOrphans(g.table)
    ensures NoOrphans(FreeBlocks(cfg, g, q).table)
    decreases |q|
  {
    hide MarkedSet, Slotted, InvBut, FreeAll, Holds, Objects, Cached, Shrunk, HoldsBlocks, ValidConfig, NoOrphans;
    if q != [] {
      BlockHolds(cfg, g.table, q);
      FreeAllCorrect(cfg, g, q[0].bin, q[0].items);
      FreeAllOrphans(cfg, g, q[0].bin, q[0].items);
      var g1 := FreeAll(cfg, g, q[0].bin, q[0].items);
      ShrunkInv(cfg, g, Objects(q[0].items), g1);
      HoldsRest(cfg, g, q, g1);
      FreeBlocksOrphans(cfg, g1, q[1..]);
    }
  }

  // ---------- The caches ---------- //

  lemma RefillOrphans(s: Setup, g: Global, q: Queue, b: nat, grow: Storage, others: multiset<nat>)
    requires Balanced(s, g, q, others) && CachedBin(s, b) && Bounded(s.cfg, grow) && Reliable(s.cfg, grow)
    requires NoOrphans(g.table)
    ensures Consistent(s, g, q) && Packed(q)
    ensures NoOrphans(Refill(s, g, q, b, grow).0.table)
  {
    hide InvBut, Held, MarkedSet, Cached, MakeRoom, Packed, NumBlocks, FreeBlocks, AllocSmall, HoldsBlocks, Sized,
      RefillCount, ObjectSize, ValidConfig, NoOrphans, Reliable, Bounded, Moved, Balanced, Room;
    BalancedFacts(s, g, q, others);
    AffordableRefill(s, b);
    EvictOk(s, g, q, RefillBytes(s.cfg, b), others);
    var ev := MakeRoom(s.cfg, s.maxBytes, q, RefillBytes(s.cfg, b)).0;
    FreeBlocksOrphans(s.cfg, g, ev);
    MovedInv(s.cfg, g, others, FreeBlocks(s.cfg, g, ev));
    AllocSmallOrphans(s.cfg, FreeBlocks(s.cfg, g, ev), b, RefillCount(s.cfg, b), grow);
  }

  lemma PopOrphans(s: Setup, g: Global, q: Queue, b: nat, grow: Storage)
    requires Consistent(s, g, q) && CachedBin(s, b) && Bounded(s.cfg, grow) && Reliable(s.cfg, grow)
    requires NoOrphans(g.table)
    ensures NoOrphans(Pop(s, g, q, b, grow).1.table)
  {
    hide InvBut, Balanced, Consistent, Others, DropEmpty, Active, Refill, ValidConfig, NoOrphans, Reliable, Bounded,
      CachedBin;
    ConsistentBalanced(s, g, q);
    DropBalanced(s, g, q, b, Others(s, g, q));
    var q0 := DropEmpty(q, b);
    if Active(q0, b) < 0 {
      BalancedFacts(s, g, q0, Others(s, g, q));
      RefillOrphans(s, g, q0, b, grow, Others(s, g, q));
    }
  }

  lemma PushOrphans(s: Setup, g: Global, q: Queue, b: nat, o: Offset)
    requires Consistent(s, g, q) && CachedBin(s, b) && NoOrphans(g.table)
    ensures NoOrphans(PushObject(s, g, q, b, o).0.table)
  {
    hide InvBut, Held, MarkedSet, Cached, MakeRoom, Packed, NumBlocks, FreeBlocks, HoldsBlocks, Sized, ObjectSize,
      NoOrphans, Moved, Balanced, Others, Consistent, Room;
    ConsistentBalanced(s, g, q);
    BalancedFacts(s, g, q, Others(s, g, q));
    AffordableRefill(s, b);
    EvictOk(s, g, q, ObjectSize(s.cfg, b), Others(s, g, q));
    FreeBlocksOrphans(s.cfg, g, MakeRoom(s.cfg, s.maxBytes, q, ObjectSize(s.cfg, b)).0);
  }

  lemma FlushOrphans(s: Setup, g: Global, q: Queue)
    requires Consistent(s, g, q) && NoOrphans(g.table)
    ensures NoOrphans(Flush(s, g, q).table)
  {
    hide InvBut, FreeBlocks, HoldsBlocks, NoOrphans, Balanced, Others, Consistent, FlushOrder;
    ConsistentBalanced(s, g, q);
    BalancedFacts(s, g, q, Others(s, g, q));
    FlushHolds(s, g, q, Others(s, g, q));
    FreeBlocksOrphans(s.cfg, g, FlushOrder(q, s.maxBin + 1));
  }

  // ---------- Whole operations ---------- //

  lemma LargeOrphans(t: Table, u: Table)
    requires SameSmall(t, u) && NoOrphans(t)
    ensures NoOrphans(u)
  {}

  lemma BinInRange(cfg: Config, n: nat)
    requires ValidConfig(cfg)
    ensures BinFor(cfg, n) < NumBins(cfg)
  {}

  lemma AllocateOrphans(s: Setup, w: World, n: nat, i: nat, grow: Storage)
    requires WorldOk(s, w) && i < |w.caches| && (n == 0 || BinFor(s.cfg, n) >= 0)
    requires Bounded(s.cfg, grow) && Reliable(s.cfg, grow) && NoOrphans(w.g.table)
    ensures NoOrphans(Allocate(s, w, n, i, grow).1.g.table)
  {
    hide Accounts, BinFor, Pop, AllocSmall, AllocLarge, NoOrphans, Reliable, Bounded, Consistent, InvBut, MarkedSet,
      Slotted, FirstFit, RunLength;
    if n > 0 {
      var b := BinFor(s.cfg, n);
      if b < SmallBins(s.cfg) {
        if b <= s.maxBin {
          ConsistentCache(s, w, i);
          PopOrphans(s, w.g, w.caches[i], b, grow);
        } else {
          AllocSmallOrphans(s.cfg, w.g, b, 1, grow);
        }
      } else {
        BinInRange(s.cfg, n);
        AllocLargeCorrect(s.cfg, w.g, b, grow);
        LargeOrphans(w.g.table, AllocLarge(s.cfg, w.g, b, grow).1.table);
      }
    }
  }

  lemma DeallocateOrphans(s: Setup, w: World, o: Offset, i: nat)
    requires WorldOk(s, w) && i < |w.caches| && (o.At? ==> o.pos in w.small || o.pos in w.large) && NoOrphans(w.g.table)
    ensures NoOrphans(Deallocate(s, w, o, i).g.table)
  {
    hide Accounts, BinFor, PushObject, FreeAll, NoOrphans, Consistent, InvBut, MarkedSet, Slotted, RunLength, Holds,
      ChunkOf, Erase;
    if o.At? {
      DeallocateBranch(s, w, o.pos);
      var c := ChunkOf(s.cfg, o.pos);
      var b := w.g.table[c].bin;
      if b < SmallBins(s.cfg) {
        SmallChunk(s, w, o.pos);
        if b <= s.maxBin {
          ConsistentCache(s, w, i);
          PushOrphans(s, w.g, w.caches[i], b, o);
        } else {
          SingleHolds(s.cfg, w.g.table, b, o.pos);
          FreeAllOrphans(s.cfg, w.g, b, [o]);
        }
      } else {
        LargeChunk(s, w, o.pos);
        FreeLargeCorrect(s.cfg, w.g, c);
        EntryFromTable(s.cfg, w.g.table, c);
        LargeOrphans(w.g.table, FreeLarge(w.g, c).table);
      }
    }
  }
}
