/** Saving the two directories of an allocator and reading them back: everything that is written fits the
    64-bit numbers of the files (include/metall/kernel/segment_allocator.hpp, serialize and deserialize). */
module Persistence {
  import opened ChunkTable
  import opened Ledger
  import opened GlobalAllocator
  import opened CachedAllocator
  import opened Allocator
  import opened Text
  import BD = BinDirectory
  import CD = ChunkDirectory
  import Runs
  import S = SizeClasses
  import U = Utilities

  /** The segment size is a 64-bit number. */
  ghost predicate SizeFits(cfg: Config) { ValidConfig(cfg) && cfg.maxSize <= UINT64_MAX }

  lemma {:induction false} LargeBound(size: nat, maxSize: nat)
    requires size >= 1
    ensures S.NumLarge(size, maxSize) <= if size <= maxSize then maxSize + 1 - size else 0
    decreases if size <= maxSize then maxSize + 1 - size else 0
  {
    if size <= maxSize { LargeBound(2 * size, maxSize); }
  }

  /** Chunk and bin numbers are smaller than the segment size. */
  lemma NumbersFit(cfg: Config)
    requires SizeFits(cfg)
    ensures MaxChunks(cfg) <= UINT64_MAX && SmallBins(cfg) <= NumBins(cfg) <= UINT64_MAX
  {
    hide U.Pow2;
    S.QuotientBounds(cfg.maxSize, ChunkSize(cfg));
    S.TimesMono(1, ChunkSize(cfg), MaxChunks(cfg));
    assert ChunkSize(cfg) * MaxChunks(cfg) == MaxChunks(cfg) * ChunkSize(cfg);
    LargeBound(U.Pow2(cfg.m), cfg.maxSize);
    S.Landmarks(cfg.m, 0);
  }

  /** Bin numbers of chunks in use are bin numbers. */
  lemma BinNumberFits(cfg: Config, t: Table, c: nat)
    requires SizeFits(cfg) && TableOk(cfg, t) && c < |t| && t[c] != Unused
    ensures t[c].bin <= UINT64_MAX
  {
    hide RunLength, NumBins, SmallBins, MaxChunks;
    NumbersFit(cfg);
    assert EntryOk(cfg, t, c);
    if t[c].Body? {
      var h :| 0 <= h < c && InRun(cfg, t, h, c) && t[h].bin == t[c].bin;
      assert EntryOk(cfg, t, h);
    }
  }

  /** Every entry and every list of a consistent allocator can be written. */
  lemma StateFits(cfg: Config, g: Global, es: seq<CD.Entry>)
    requires SizeFits(cfg) && Inv(cfg, g) && CD.EntriesValid(cfg, es) && g.table == CD.TableOf(cfg, es)
    ensures |es| == MaxChunks(cfg) <= UINT64_MAX && BD.Writable(g.lists)
    ensures forall i :: 0 <= i < |es| ==> CD.WritableEntry(cfg, es[i])
  {
    hide TableOk, NumBins, SmallBins, MaxChunks, Slots, CD.EntryValid, CD.ChunkOf, InSegment;
    TableFits(cfg, g.table);
    NumbersFit(cfg);
    forall i | 0 <= i < |es| ensures CD.WritableEntry(cfg, es[i]) {
      assert CD.EntryValid(cfg, es[i]);
      CD.KindOf(cfg, es, i);
      if g.table[i] != Unused { BinNumberFits(cfg, g.table, i); }
    }
    forall b, i | 0 <= b < |g.lists| && 0 <= i < |g.lists[b]| ensures g.lists[b][i] <= UINT64_MAX {
      assert ListOk(cfg, g.table, g.lists[b], b, -1);
      assert g.lists[b][i] in g.lists[b];
    }
  }

  lemma TableFits(cfg: Config, t: Table)
    requires ValidConfig(cfg) && TableOk(cfg, t)
    ensures |t| == MaxChunks(cfg)
  {}

  /** What was saved for a consistent allocator is read back, into fresh directories: all lists in their order,
      and every chunk with its kind, bin, bitmap and count, and the high-water mark. */
  lemma DirectoriesRoundTrip(cfg: Config, g: Global, es: seq<CD.Entry>)
    requires SizeFits(cfg) && Inv(cfg, g) && CD.EntriesValid(cfg, es) && g.table == CD.TableOf(cfg, es)
    ensures BD.LoadBins(BD.Padded([], |g.lists|), BD.SaveBins(g.lists)) == (true, g.lists)
    ensures var (ok, st) := CD.LoadChunks(cfg, CD.Loaded(CD.Reread([], |es|), -1), CD.SaveChunks(es));
            && ok && |es| == MaxChunks(cfg) && CD.EntriesValid(cfg, st.entries)
            && CD.TableOf(cfg, st.entries) == g.table
            && st.last == LastUsed(g.table)
  {
    hide InvBut, CD.EntriesValid, CD.TableOf, LastUsed, BD.SaveBins, BD.LoadBins, CD.SaveChunks, CD.LoadChunks,
      BD.Writable, CD.WritableEntry, CD.Reread;
    StateFits(cfg, g, es);
    BD.BinsRoundTrip(g.lists);
    CD.ChunksRoundTrip(cfg, es);
  }

  /** Empty caches, of which a restored allocator may have another number. */
  lemma OtherCaches(s: Setup, w: World, n: nat)
    requires WorldOk(s, w) && forall i :: 0 <= i < |w.caches| ==> w.caches[i] == []
    ensures WorldOk(s, w.(caches := seq(n, _ => [])))
  {
    hide InvBut, MarkedSet, SmallOk, LargeOk, ValidConfig, TableOk;
    Runs.NothingCached(w.caches);
    Runs.NothingCached(seq(n, _ => []));
  }
}
