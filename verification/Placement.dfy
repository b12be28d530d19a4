/** Which slot an allocation gives and where chunks stand in their lists, said from the directories alone
    (include/metall/kernel/segment_allocator.hpp). */
module Placement {
  import opened ChunkTable
  import opened BlockQueue
  import opened FreeSlots
  import opened Ledger
  import opened GlobalAllocator
  import opened LargeAllocation
  import opened BinDirectory
  import U = Utilities

  // ---------- Allocating one object ---------- //

  /** k is the lowest free slot of chunk c. */
  ghost predicate Lowest(t: Table, c: nat, k: nat) {
    && c < |t| && t[c].Small? && k !in t[c].marked
    && forall j: nat :: j < k ==> j in t[c].marked
  }

  /** Slot k of chunk c in front of the list of bin b is given away; a chunk that becomes full leaves the list. */
  ghost function Given(cfg: Config, g: Global, b: nat, c: nat, k: nat): (seq<Offset>, Global)
    requires ValidConfig(cfg) && b < |g.lists| && g.lists[b] != [] && c < |g.table| && g.table[c].Small?
  {
    var marked := g.table[c].marked + {k};
    var lists := if |marked| == Slots(cfg, b) then g.lists[b := g.lists[b][1..]] else g.lists;
    ([At(OffsetOf(cfg, c, b, k))], Global(g.table[c := Small(b, marked)], lists, g.segment))
  }

  /** Slots lie side by side from the start of the chunk, and chunks from the start of the segment. */
  lemma SlotIsAt(cfg: Config, c: nat, b: nat, k: nat)
    requires ValidConfig(cfg)
    ensures OffsetOf(cfg, 0, b, 0) == 0
    ensures OffsetOf(cfg, c + 1, b, k) == OffsetOf(cfg, c, b, k) + ChunkSize(cfg)
    ensures OffsetOf(cfg, c, b, k + 1) == OffsetOf(cfg, c, b, k) + ObjectSize(cfg, b)
    ensures ChunkStart(cfg, c) == OffsetOf(cfg, c, b, 0)
  {
    hide ChunkSize, ObjectSize;
    assert ChunkSize(cfg) * (c + 1) == ChunkSize(cfg) * c + ChunkSize(cfg);
    assert ObjectSize(cfg, b) * (k + 1) == ObjectSize(cfg, b) * k + ObjectSize(cfg, b);
  }

  lemma OneSlot(t: Table, c: nat, k: nat)
    requires Lowest(t, c, k)
    ensures FirstFree(t[c].marked, 1) == [k] && MarkAll(t, c, [k]) == t[c := Small(t[c].bin, t[c].marked + {k})]
  {
    hide LeastFree;
    var marked := t[c].marked;
    var l := LeastFree(marked);
    assert !(l < k) && !(k < l);
    assert FirstFree(marked + {l}, 0) == [];
    assert Elements([k]) == {k};
  }

  lemma FrontChunk(cfg: Config, g: Global, b: nat)
    requires Inv(cfg, g) && b < |g.lists| && g.lists[b] != []
    ensures Ready(cfg, g, b)
  {
    hide Slots, TableOk, InSegment;
    assert g.lists[b][0] in g.lists[b] && ListOk(cfg, g.table, g.lists[b], b, -1);
  }

  lemma MarkLowest(cfg: Config, g: Global, b: nat, k: nat)
    requires ValidConfig(cfg) && Ready(cfg, g, b) && Lowest(g.table, g.lists[b][0], k)
    ensures MarkFront(cfg, g, b, 1) == Given(cfg, g, b, g.lists[b][0], k)
  {
    hide Slots, OffsetOf, FirstFree, Elements, MarkAll;
    var c := g.lists[b][0];
    OneSlot(g.table, c, k);
    assert Take(cfg, g, b, 1) == 1;
    assert OffsetsOf(cfg, c, b, [k]) == [At(OffsetOf(cfg, c, b, k))];
  }

  /** An object of a bin with a list is the lowest free slot of the chunk in front. */
  lemma FromFront(cfg: Config, g: Global, b: nat, k: nat, grow: Storage)
    requires Inv(cfg, g) && b < |g.lists| && g.lists[b] != [] && Bounded(cfg, grow)
    requires Lowest(g.table, g.lists[b][0], k)
    ensures AllocMany(cfg, g, b, 1, grow) == Given(cfg, g, b, g.lists[b][0], k)
  {
    hide Slots, InvBut, MarkFront, Lowest;
    FrontChunk(cfg, g, b);
    MarkLowest(cfg, g, b, k);
    OneFrom(cfg, g, b, grow);
  }

  /** One object is one slot of the chunk that is provided. */
  lemma OneFrom(cfg: Config, g: Global, b: nat, grow: Storage)
    requires Inv(cfg, g) && b < |g.lists| && Bounded(cfg, grow)
    ensures var (ok, g1) := Provide(cfg, g, b, grow);
            && (ok ==> Ready(cfg, g1, b))
            && AllocMany(cfg, g, b, 1, grow) == if ok then MarkFront(cfg, g1, b, 1) else ([Null], g1)
  {
    hide Slots, InvBut, MarkFront, Provide;
    var (ok, g1) := Provide(cfg, g, b, grow);
    ProvideOk(cfg, g, b, grow);
    if ok {
      MarkFrontOk(cfg, g1, b, 1, YoungOf(g, b));
      var (os, g2) := MarkFront(cfg, g1, b, 1);
      BulkNone(cfg, g2, b, grow);
      assert os + [] == os;
    } else {
      assert Nulls(1) == [Null];
    }
  }

  /** c is the lowest unused chunk. */
  ghost predicate LowestUnused(t: Table, c: nat) {
    c < |t| && t[c] == Unused && forall d :: 0 <= d < c ==> t[d] != Unused
  }

  /** The segment once the bytes up to `end` are needed: as it was if they lie in it, else as the storage made it. */
  ghost function Enlarged(segment: nat, end: nat, grow: Storage): nat {
    if end <= segment then segment else grow(end)
  }

  /** An object of a bin without a list is the first slot of the lowest unused chunk, if the segment can be made to
      hold that chunk; if not, the chunk stays registered and unlisted. */
  lemma FromNewChunk(cfg: Config, g: Global, b: nat, c: nat, grow: Storage)
    requires Inv(cfg, g) && b < |g.lists| && g.lists[b] == [] && Bounded(cfg, grow) && LowestUnused(g.table, c)
    ensures var end := ChunkSize(cfg) * c + ChunkSize(cfg);
            var segment := Enlarged(g.segment, end, grow);
            AllocMany(cfg, g, b, 1, grow) ==
              if end <= segment
              then ([At(ChunkSize(cfg) * c)], Global(g.table[c := Small(b, {0})], g.lists[b := [c]], segment))
              else ([Null], g.(table := g.table[c := Small(b, {})]))
  {
    hide Slots, InvBut, MarkFront, ObjectSize, ChunkSize;
    FirstUnusedIs(g.table, c);
    OneFrom(cfg, g, b, grow);
    var (ok, g1) := Provide(cfg, g, b, grow);
    assert EndOf(cfg, c) == ChunkSize(cfg) * c + ChunkSize(cfg) by {
      assert (c + 1) * ChunkSize(cfg) == ChunkSize(cfg) * c + ChunkSize(cfg);
    }
    assert g1.table == g.table[c := Small(b, {})];
    if ok {
      assert g1.lists[b] == [c];
      FirstSlot(cfg, g1, b, c);
      assert g1.table[c := Small(b, {0})] == g.table[c := Small(b, {0})];
    }
  }

  lemma FirstSlot(cfg: Config, g: Global, b: nat, c: nat)
    requires ValidConfig(cfg) && b < |g.lists| == SmallBins(cfg) && g.lists[b] == [c] && c < |g.table|
    requires g.table[c] == Small(b, {})
    ensures Ready(cfg, g, b)
    ensures MarkFront(cfg, g, b, 1) == ([At(ChunkSize(cfg) * c)], g.(table := g.table[c := Small(b, {0})]))
  {
    hide Slots, MarkFront, ChunkSize, ObjectSize;
    TwoSlots(cfg, b);
    assert {} + {0} == {0} && |{0}| == 1;
    MarkLowest(cfg, g, b, 0);
  }

  /** Without an unused chunk nothing is given and nothing changes. */
  lemma NoChunkLeft(cfg: Config, g: Global, b: nat, n: nat, grow: Storage)
    requires Inv(cfg, g) && b < |g.lists| && g.lists[b] == [] && Bounded(cfg, grow)
    requires forall c :: 0 <= c < |g.table| ==> g.table[c] != Unused
    ensures AllocMany(cfg, g, b, n, grow) == (Nulls(n), g)
  {
    hide Slots, ListsOk, TableOk;
    FirstUnusedIs(g.table, |g.table|);
    TableHasAll(cfg, g.table);
    PastTheEnd(cfg, |g.table|, 1);
    assert Nulls(0) == [];
  }

  lemma TableHasAll(cfg: Config, t: Table)
    requires ValidConfig(cfg) && TableOk(cfg, t)
    ensures |t| == MaxChunks(cfg)
  {}

  /** The lowest place where n chunks are unused. */
  ghost predicate LowestRun(t: Table, c: nat, n: nat) {
    n >= 1 && AllUnused(t, c, n) && forall d :: 0 <= d < c ==> !AllUnused(t, d, n)
  }

  /** A large object starts at the lowest place where enough chunks are unused, if the segment can be made to hold
      them; if not, everything is as it was. */
  lemma LargeFrom(cfg: Config, g: Global, b: nat, c: nat, n: nat, grow: Storage)
    requires Inv(cfg, g) && SmallBins(cfg) <= b < NumBins(cfg) && Bounded(cfg, grow)
    requires n == RunLength(cfg, b) && LowestRun(g.table, c, n)
    ensures var end := ChunkStart(cfg, c + n);
            var segment := Enlarged(g.segment, end, grow);
            AllocLarge(cfg, g, b, grow) ==
              if end <= segment
              then (At(ChunkStart(cfg, c)), Global(PutLarge(g.table, c, b, n), g.lists, segment), false)
              else (Null, g, false)
  {
    hide InvBut, RunLength, ChunkSize, ChunkStart, Erase, PutLarge, U.Prod, FirstFit, AllUnused, Bounded, ValidConfig,
      NumBins, SmallBins;
    RunInTable(g.table, c, n);
    FirstFitUnique(g.table, n, c);
    StartAfter(cfg, c + n);
    TableIsOk(cfg, g);
    PutErase(cfg, g.table, c, b);
  }

  lemma StartAfter(cfg: Config, c: nat)
    ensures U.Prod(c, ChunkSize(cfg)) == ChunkStart(cfg, c)
  {
    hide ChunkSize;
    ProductIs(c, ChunkSize(cfg));
    ProductIs(ChunkSize(cfg), c);
  }

  lemma RunInTable(t: Table, c: nat, n: nat)
    requires AllUnused(t, c, n) && n >= 1
    ensures c < |t| && c + n <= |t|
  {}

  lemma TableIsOk(cfg: Config, g: Global)
    requires Inv(cfg, g)
    ensures TableOk(cfg, g.table)
  {
    hide TableOk, ListsOk, InSegment;
  }

  /** Inside the present segment the storage is not asked, and its answer does not matter. */
  lemma StorageNotAsked(cfg: Config, g: Global, b: nat, c: nat, grow: Storage, other: Storage)
    requires Inv(cfg, g) && b < |g.lists| && Bounded(cfg, grow) && Bounded(cfg, other)
    requires g.lists[b] == [] ==> LowestUnused(g.table, c) && ChunkSize(cfg) * c + ChunkSize(cfg) <= g.segment
    ensures AllocMany(cfg, g, b, 1, grow) == AllocMany(cfg, g, b, 1, other)
    ensures AllocMany(cfg, g, b, 1, grow).1.segment == g.segment
  {
    hide Slots, InvBut, ChunkSize;
    if g.lists[b] == [] {
      FromNewChunk(cfg, g, b, c, grow);
      FromNewChunk(cfg, g, b, c, other);
    } else {
      FrontChunk(cfg, g, b);
      var k := LeastFree(g.table[g.lists[b][0]].marked);
      FromFront(cfg, g, b, k, grow);
      FromFront(cfg, g, b, k, other);
    }
  }

  // ---------- Several objects, and failures ---------- //

  /** The bin has no list, and the segment cannot be made to hold the lowest unused chunk. */
  ghost predicate Refused(cfg: Config, g: Global, b: nat, c: nat, grow: Storage) {
    && b < |g.lists| && g.lists[b] == [] && LowestUnused(g.table, c)
    && var end := ChunkSize(cfg) * c + ChunkSize(cfg); Enlarged(g.segment, end, grow) < end
  }

  /** In bulk the first failure is the last: one chunk is left behind, however many objects were asked for. */
  lemma BulkFails(cfg: Config, g: Global, b: nat, n: nat, c: nat, grow: Storage)
    requires Inv(cfg, g) && Bounded(cfg, grow) && Refused(cfg, g, b, c, grow) && n >= 1
    ensures AllocMany(cfg, g, b, n, grow) == (Nulls(n), g.(table := g.table[c := Small(b, {})]))
  {
    hide Slots, InvBut, MarkFront, ChunkSize;
    FirstUnusedIs(g.table, c);
    assert EndOf(cfg, c) == ChunkSize(cfg) * c + ChunkSize(cfg) by {
      assert (c + 1) * ChunkSize(cfg) == ChunkSize(cfg) * c + ChunkSize(cfg);
    }
  }

  /** Up to three objects are allocated one by one, each with its own failure; from four on in bulk. */
  lemma ThresholdIsFour(cfg: Config, g: Global, b: nat, n: nat, c: nat, grow: Storage)
    requires Inv(cfg, g) && Bounded(cfg, grow) && Refused(cfg, g, b, c, grow) && n >= 1
    ensures var g1 := g.(table := g.table[c := Small(b, {})]);
            && Inv(cfg, g1)
            && AllocSmall(cfg, g, b, n, grow) ==
                 if n < 4 then ([Null] + AllocSmall(cfg, g1, b, n - 1, grow).0, AllocSmall(cfg, g1, b, n - 1, grow).1)
                 else (Nulls(n), g1)
  {
    hide Slots, InvBut, AllocMany;
    BulkFails(cfg, g, b, n, c, grow);
    BulkFails(cfg, g, b, 1, c, grow);
    AllocManyCorrect(cfg, g, b, 1, grow);
    assert Nulls(1) == [Null];
  }

  // ---------- Freeing one object ---------- //

  /** A slot of a full chunk puts the chunk in front of its list; the last marked slot of a chunk erases the chunk and
      takes it out of its list; any other slot changes no list. The rest of each list keeps its order. */
  lemma FreedLists(cfg: Config, g: Global, b: nat, p: nat)
    requires Inv(cfg, g) && b < |g.lists| && Slotted(cfg, g.table, p, b)
    ensures var c, g1 := ChunkOf(cfg, p), FreeOne(cfg, g, b, At(p));
            && (forall a :: 0 <= a < |g.lists| && a != b ==> g1.lists[a] == g.lists[a])
            && c < |g.table| && g.table[c].Small?
            && var n := |g.table[c].marked|;
               if n == Slots(cfg, b) then g1.lists[b] == [c] + g.lists[b]
               else if n == 1 then
                 g1.table[c] == Unused &&
                 exists i :: 0 <= i < |g.lists[b]| && g.lists[b][i] == c &&
                             g1.lists[b] == g.lists[b][..i] + g.lists[b][i + 1..]
               else g1.lists[b] == g.lists[b]
  {
    hide Slots, OffsetOf, ChunkOf, SlotOf, TableOk, InSegment, Erase;
    var c, k := ChunkOf(cfg, p), SlotOf(cfg, b, p);
    var marked := g.table[c].marked;
    OneLess(marked, k);
    TwoSlots(cfg, b);
    if |marked| == 1 {
      assert ListOk(cfg, g.table, g.lists[b], b, -1) && Listed(cfg, g.table, b, c, -1);
      var i :| 0 <= i < |g.lists[b]| && g.lists[b][i] == c;
      ErasedAt(g.lists[b], c, i);
      EraseOne(g.table[c := Small(b, {})], c);
    }
  }

  lemma OneLess(marked: set<nat>, k: nat)
    requires k in marked
    ensures |marked| >= 1 && (marked - {k} == {} <==> |marked| == 1)
  {
    assert |marked - {k}| == |marked| - 1;
  }

  lemma EraseOne(t: Table, c: nat)
    requires c < |t| && t[c].Small?
    ensures Erase(t, c)[c] == Unused
  {}

  /** A slot freed from a full chunk is the next one to be allocated, and then everything is as it was. */
  lemma FreedComesBack(cfg: Config, g: Global, b: nat, p: nat, grow: Storage)
    requires Inv(cfg, g) && b < |g.lists| && Slotted(cfg, g.table, p, b) && Bounded(cfg, grow)
    requires |g.table[ChunkOf(cfg, p)].marked| == Slots(cfg, b)
    ensures Inv(cfg, FreeOne(cfg, g, b, At(p)))
    ensures AllocMany(cfg, FreeOne(cfg, g, b, At(p)), b, 1, grow) == ([At(p)], g)
  {
    hide Slots, OffsetOf, ChunkOf, SlotOf, InvBut;
    var c, k := ChunkOf(cfg, p), SlotOf(cfg, b, p);
    var marked := g.table[c].marked;
    FullChunk(cfg, g, c, k);
    FreeOneCorrect(cfg, g, b, At(p));
    var g1 := FreeOne(cfg, g, b, At(p));
    assert g1.lists[b] == [c] + g.lists[b] && g1.table == g.table[c := Small(b, marked - {k})];
    assert Lowest(g1.table, c, k);
    FromFront(cfg, g1, b, k, grow);
    assert (marked - {k}) + {k} == marked;
    assert g1.table[c := Small(b, marked)] == g.table;
    assert g1.lists[b := g1.lists[b][1..]] == g.lists;
  }

  /** All slots of a full chunk are marked. */
  lemma FullChunk(cfg: Config, g: Global, c: nat, k: nat)
    requires Inv(cfg, g) && c < |g.table| && g.table[c].Small? && k in g.table[c].marked
    requires |g.table[c].marked| == Slots(cfg, g.table[c].bin)
    ensures forall j: nat :: j < k ==> j in g.table[c].marked
  {
    hide Slots, ListsOk, InSegment;
    var marked, n := g.table[c].marked, Slots(cfg, g.table[c].bin);
    EntryFromTable(cfg, g.table, c);
    forall j: nat | j < k ensures j in marked {
      var more := marked + {j};
      Within(more, n);
      assert j !in marked ==> |more| == |marked| + 1;
    }
  }

  // ---------- Freeing several objects ---------- //

  /** One offset in a batch is one offset. */
  lemma FreeOnly(cfg: Config, g: Global, b: nat, o: Offset)
    requires Inv(cfg, g) && b < |g.lists| && Holds(cfg, g.table, b, [o])
    ensures (o.At? ==> Slotted(cfg, g.table, o.pos, b)) && FreeAll(cfg, g, b, [o]) == FreeOne(cfg, g, b, o)
  {
    hide InvBut, FreeOne, MarkedSet, Slotted, Objects;
    HoldsFirstOf(cfg, g, b, [o]);
    FreeOneCorrect(cfg, g, b, o);
    HoldsTail(cfg, g, b, [o], FreeOne(cfg, g, b, o));
    assert [o][1..] == [];
  }

  lemma HoldsFirstOf(cfg: Config, g: Global, b: nat, items: seq<Offset>)
    requires Inv(cfg, g) && Holds(cfg, g.table, b, items) && items != []
    ensures items[0].At? ==> Slotted(cfg, g.table, items[0].pos, b)
  {
    hide MarkedSet, Slotted, InvBut, Objects;
  }

  lemma HoldsPart(cfg: Config, t: Table, b: nat, xs: seq<Offset>, ys: seq<Offset>)
    requires ValidConfig(cfg) && Holds(cfg, t, b, xs + ys)
    ensures Holds(cfg, t, b, xs)
  {
    hide MarkedSet, Slotted, Objects;
    ObjectsConcat(xs, ys);
    forall i | 0 <= i < |xs| && xs[i].At? ensures Slotted(cfg, t, xs[i].pos, b) { assert (xs + ys)[i] == xs[i]; }
  }

  /** The offsets of a batch are freed in their order. */
  lemma {:induction false} FreeAllConcat(cfg: Config, g: Global, b: nat, xs: seq<Offset>, ys: seq<Offset>)
    requires Inv(cfg, g) && b < |g.lists| && Holds(cfg, g.table, b, xs + ys)
    ensures Holds(cfg, g.table, b, xs)
    ensures var g1 := FreeAll(cfg, g, b, xs);
            && Inv(cfg, g1) && Holds(cfg, g1.table, b, ys)
            && FreeAll(cfg, g, b, xs + ys) == FreeAll(cfg, g1, b, ys)
    decreases |xs|
  {
    hide MarkedSet, Slotted, InvBut, Objects, FreeOne, Holds, Shrunk, ValidConfig;
    HoldsPart(cfg, g.table, b, xs, ys);
    if xs == [] {
      assert xs + ys == ys;
    } else {
      var all := xs + ys;
      assert all[0] == xs[0] && all[1..] == xs[1..] + ys;
      HoldsFirstOf(cfg, g, b, xs);
      FreeOneCorrect(cfg, g, b, xs[0]);
      var g1 := FreeOne(cfg, g, b, xs[0]);
      FreedInv(cfg, g, Objects([xs[0]]), g1);
      HoldsTail(cfg, g, b, all, g1);
      HoldsTail(cfg, g, b, xs, g1);
      FreeAllConcat(cfg, g1, b, xs[1..], ys);
    }
  }

  lemma FreedInv(cfg: Config, g: Global, os: multiset<nat>, g1: Global)
    requires ValidConfig(cfg) && Shrunk(cfg, g, os, g1)
    ensures Inv(cfg, g1)
  {
    hide MarkedSet, Slotted, InvBut;
  }

  lemma HoldsBlocksPart(cfg: Config, t: Table, p: Queue, q: Queue)
    requires ValidConfig(cfg) && HoldsBlocks(cfg, t, p + q)
    ensures HoldsBlocks(cfg, t, p)
  {
    hide MarkedSet, BlockHeld, Cached;
    CachedConcat(p, q);
    forall j | 0 <= j < |p| ensures BlockHeld(cfg, t, p[j]) { assert (p + q)[j] == p[j]; }
  }

  /** So are blocks. */
  lemma {:induction false} FreeBlocksConcat(cfg: Config, g: Global, p: Queue, q: Queue)
    requires Inv(cfg, g) && HoldsBlocks(cfg, g.table, p + q)
    ensures HoldsBlocks(cfg, g.table, p)
    ensures var g1 := FreeBlocks(cfg, g, p);
            && Inv(cfg, g1) && HoldsBlocks(cfg, g1.table, q)
            && FreeBlocks(cfg, g, p + q) == FreeBlocks(cfg, g1, q)
    decreases |p|
  {
    hide MarkedSet, Slotted, InvBut, Objects, FreeAll, Holds, HoldsBlocks, Shrunk, ValidConfig, Cached;
    HoldsBlocksPart(cfg, g.table, p, q);
    if p == [] {
      assert p + q == q;
    } else {
      var all := p + q;
      assert all[0] == p[0] && all[1..] == p[1..] + q;
      BlockHolds(cfg, g.table, p);
      FreeAllCorrect(cfg, g, p[0].bin, p[0].items);
      var g1 := FreeAll(cfg, g, p[0].bin, p[0].items);
      FreedInv(cfg, g, Objects(p[0].items), g1);
      HoldsRest(cfg, g, all, g1);
      HoldsRest(cfg, g, p, g1);
      FreeBlocksConcat(cfg, g1, p[1..], q);
    }
  }

  /** The objects of one block are freed from its bottom to its top. */
  lemma FreeOneBlock(cfg: Config, g: Global, x: Block)
    requires Inv(cfg, g) && HoldsBlocks(cfg, g.table, [x])
    ensures x.bin < |g.lists| && Holds(cfg, g.table, x.bin, x.items)
    ensures FreeBlocks(cfg, g, [x]) == FreeAll(cfg, g, x.bin, x.items)
  {
    hide MarkedSet, Slotted, InvBut, Objects, FreeAll, Holds, HoldsBlocks, Cached;
    BlockHolds(cfg, g.table, [x]);
    FreeAllCorrect(cfg, g, x.bin, x.items);
    HoldsRest(cfg, g, [x], FreeAll(cfg, g, x.bin, x.items));
    assert [x][1..] == [];
  }
}
