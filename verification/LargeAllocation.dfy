/** Allocating and freeing objects of a chunk or more
    (include/metall/kernel/segment_allocator.hpp, priv_allocate_large_object and priv_deallocate_large_object). */
module LargeAllocation {
  import opened ChunkTable
  import opened BlockQueue
  import opened Ledger
  import opened GlobalAllocator
  import S = SizeClasses
  import U = Utilities

  /** `priv_allocate_large_object`: on failure the number that `insert` gave is erased again, which is past
      the table when no run was found; the flag says so. */
  ghost function AllocLarge(cfg: Config, g: Global, b: nat, grow: Storage): (r: (Offset, Global, bool))
    requires ValidConfig(cfg) && SmallBins(cfg) <= b
  {
    var (c, t) := InsertLarge(cfg, g.table, b);
    var (ok, segment) := Extend(g.segment, U.Prod(c + RunLength(cfg, b), ChunkSize(cfg)), grow);
    if !ok then
      var (u, outside) := EraseAt(t, c);
      (Null, g.(table := u), outside)
    else (At(ChunkStart(cfg, c)), Global(t, g.lists, segment), false)
  }

  /** `priv_deallocate_large_object`. */
  ghost function FreeLarge(g: Global, c: nat): Global
    requires c < |g.table|
  {
    g.(table := Erase(g.table, c))
  }

  /** t and u have the same small chunks. */
  ghost predicate SameSmall(t: Table, u: Table) {
    |u| == |t| && forall c :: 0 <= c < |t| && (t[c].Small? || u[c].Small?) ==> u[c] == t[c]
  }

  lemma SameSmallKeeps(cfg: Config, g: Global, u: Table, segment: nat)
    requires Inv(cfg, g) && SameSmall(g.table, u)
    ensures MarkedSet(cfg, u) == MarkedSet(cfg, g.table)
    ensures forall o: nat, b: nat :: Slotted(cfg, u, o, b) == Slotted(cfg, g.table, o, b)
    ensures ListsOk(cfg, Global(u, g.lists, segment), -1)
  {
    hide MarkedSet, ChunkOf, SlotOf, OffsetOf, TableOk, Slots, ValidConfig;
    DropChunk(cfg, g.table, u);
    forall b: nat | b < |g.lists| ensures ListOk(cfg, u, g.lists[b], b, -1) {
      assert ListOk(cfg, g.table, g.lists[b], b, -1);
      assert forall c: nat :: Listed(cfg, u, b, c, -1) == Listed(cfg, g.table, b, c, -1);
    }
  }

  /** The run of a large object inside the segment. */
  lemma EndOfRun(C: nat, c: nat, n: nat, k: nat, segment: nat)
    requires c <= k < c + n && (c + n) * C <= segment
    ensures (k + 1) * C <= segment
  {
    assert (k + 1) * C <= (c + n) * C;
  }

  /** A large object gets the lowest run of unused chunks that is long enough, all of it in the segment. A
      failed allocation leaves directory, lists and segment as they were: it erases the run it had registered
      if there was one, and exactly if there was none it erases at a number outside the table. */
  lemma AllocLargeCorrect(cfg: Config, g: Global, b: nat, grow: Storage)
    requires Inv(cfg, g) && SmallBins(cfg) <= b < NumBins(cfg) && Bounded(cfg, grow)
    ensures var (o, g1, outside) := AllocLarge(cfg, g, b, grow);
            var c, n := FirstFit(g.table, RunLength(cfg, b)), RunLength(cfg, b);
            && Inv(cfg, g1) && g.segment <= g1.segment && MarkedSet(cfg, g1.table) == MarkedSet(cfg, g.table)
            && (forall p: nat, a: nat :: Slotted(cfg, g1.table, p, a) == Slotted(cfg, g.table, p, a))
            && (o == Null ==> g1 == g)
            && (outside <==> NoRoom(cfg, g.table, b)) && (outside <==> c == |g.table|) && (outside ==> o == Null)
            && (o.At? ==> && n >= 1 && c < |g.table| && AllUnused(g.table, c, n) && o.pos == ChunkSize(cfg) * c
                          && g1.table == PutLarge(g.table, c, b, n) && (c + n) * ChunkSize(cfg) <= g1.segment)
  {
    hide MarkedSet, Slotted, TableOk, ListsOk, ChunkSize, MaxChunks, FirstFit, ValidConfig, ObjectSize, RunLength,
      Erase, U.Prod;
    var t, n := g.table, RunLength(cfg, b);
    LargeObjects(cfg, b);
    InsertLargeOk(cfg, t, b);
    var (c, u) := InsertLarge(cfg, t, b);
    ProductIs(c + n, ChunkSize(cfg));
    ProductIs(ChunkSize(cfg), c);
    var (ok, segment) := Extend(g.segment, (c + n) * ChunkSize(cfg), grow);
    RoomIsFit(cfg, t, b);
    if c < |t| {
      SameSmallKeeps(cfg, g, u, segment);
      PutErase(cfg, t, c, b);
      if ok {
        forall k | c <= k < c + n ensures EndOf(cfg, k) <= segment {
          EndOfRun(ChunkSize(cfg), c, n, k, segment);
        }
      }
    } else {
      PastTheEnd(cfg, c, n);
    }
  }

  /** No run of unused chunks is long enough for an object of bin b. */
  ghost predicate NoRoom(cfg: Config, t: Table, b: nat)
    requires ValidConfig(cfg)
  {
    forall c: nat :: !AllUnused(t, c, RunLength(cfg, b))
  }

  lemma RoomIsFit(cfg: Config, t: Table, b: nat)
    requires ValidConfig(cfg) && SmallBins(cfg) <= b
    ensures NoRoom(cfg, t, b) <==> FirstFit(t, RunLength(cfg, b)) == |t|
  {
    hide RunLength;
    LargeObjects(cfg, b);
    var c := FirstFit(t, RunLength(cfg, b));
    if c < |t| { assert AllUnused(t, c, RunLength(cfg, b)); }
  }

  /** So a request for the whole table goes outside of it as soon as any chunk is in use. */
  lemma WholeTableOutside(cfg: Config, g: Global, b: nat, grow: Storage, c: nat)
    requires Inv(cfg, g) && SmallBins(cfg) <= b < NumBins(cfg) && Bounded(cfg, grow)
    requires RunLength(cfg, b) == |g.table| && c < |g.table| && g.table[c] != Unused
    ensures AllocLarge(cfg, g, b, grow).2
  {
    hide InvBut, AllocLarge, FirstFit, RunLength, MarkedSet, Slotted;
    AllocLargeCorrect(cfg, g, b, grow);
    forall k: nat ensures !AllUnused(g.table, k, |g.table|) {}
  }

  /** There is such a bin wherever the segment may have a power of two of chunks. */
  lemma WholeTableBin(cfg: Config, k: nat)
    requires ValidConfig(cfg) && cfg.maxSize == U.Pow2(cfg.m + k)
    ensures var b := SmallBins(cfg) + k;
            b < NumBins(cfg) && ObjectSize(cfg, b) == cfg.maxSize && RunLength(cfg, b) == MaxChunks(cfg)
  {
    hide RunLength, U.Pow2;
    var b := SmallBins(cfg) + k;
    LargeObjects(cfg, b);
    S.LargeCount(cfg.m, k, 0);
    assert ObjectSize(cfg, b) == cfg.maxSize;
    S.Quotient(cfg.maxSize, ChunkSize(cfg), RunLength(cfg, b));
  }

  lemma ProductIs(a: nat, b: nat)
    ensures U.Prod(a, b) == a * b
  {}

  lemma PastTheEnd(cfg: Config, c: nat, n: nat)
    requires ValidConfig(cfg) && c == MaxChunks(cfg) && n >= 1
    ensures (c + n) * ChunkSize(cfg) >= Limit(cfg)
  {
    hide ChunkSize, MaxChunks;
    assert (c + n) * ChunkSize(cfg) == (c + 1) * ChunkSize(cfg) + (n - 1) * ChunkSize(cfg);
  }

  /** Erasing the run just registered gives the table back. */
  lemma PutErase(cfg: Config, t: Table, c: nat, b: nat)
    requires ValidConfig(cfg) && TableOk(cfg, t) && SmallBins(cfg) <= b < NumBins(cfg)
    requires c < |t| && c == FirstFit(t, RunLength(cfg, b))
    ensures RunLength(cfg, b) >= 1 && AllUnused(t, c, RunLength(cfg, b))
    ensures Erase(PutLarge(t, c, b, RunLength(cfg, b)), c) == t
  {
    hide TableOk, RunLength, ValidConfig, Erase;
    LargeObjects(cfg, b);
    InsertLargeOk(cfg, t, b);
    EraseRun(cfg, PutLarge(t, c, b, RunLength(cfg, b)), c);
  }

  /** Freeing a large object clears its run, which lay in the segment, and nothing else. */
  lemma FreeLargeCorrect(cfg: Config, g: Global, c: nat)
    requires Inv(cfg, g) && c < |g.table| && g.table[c].Head?
    ensures var g1, n := FreeLarge(g, c), RunLength(cfg, g.table[c].bin);
            && Inv(cfg, g1) && MarkedSet(cfg, g1.table) == MarkedSet(cfg, g.table)
            && (forall p: nat, a: nat :: Slotted(cfg, g1.table, p, a) == Slotted(cfg, g.table, p, a))
            && 1 <= n && c + n <= |g.table| && g1.table == Clear(g.table, c, n)
            && (c + n) * ChunkSize(cfg) <= g.segment
  {
    hide MarkedSet, Slotted, TableOk, ListsOk, ChunkSize, MaxChunks, ValidConfig, RunLength, Erase;
    var t := g.table;
    EntryFromTable(cfg, t, c);
    LargeObjects(cfg, t[c].bin);
    EraseRun(cfg, t, c);
    EraseLargeOk(cfg, t, c);
    var n := RunLength(cfg, t[c].bin);
    SameSmallKeeps(cfg, g, Erase(t, c), g.segment);
    assert t[c + n - 1] != Unused && !t[c + n - 1].Small?;
    assert EndOf(cfg, c + n - 1) <= g.segment;
  }

  /** Allocating and freeing a large object restores the chunk table. */
  lemma LargeRoundTrip(cfg: Config, g: Global, b: nat, grow: Storage)
    requires Inv(cfg, g) && SmallBins(cfg) <= b < NumBins(cfg) && Bounded(cfg, grow)
    requires AllocLarge(cfg, g, b, grow).0.At?
    ensures var g1 := AllocLarge(cfg, g, b, grow).1;
            FirstFit(g.table, RunLength(cfg, b)) < |g1.table| &&
            FreeLarge(g1, FirstFit(g.table, RunLength(cfg, b))) == g1.(table := g.table)
  {
    hide TableOk, ListsOk, RunLength, ValidConfig, Erase, MarkedSet, Slotted;
    AllocLargeCorrect(cfg, g, b, grow);
    PutErase(cfg, g.table, FirstFit(g.table, RunLength(cfg, b)), b);
  }
}
