/** The segment allocator as it works: methods that change the chunk directory, the bin directory, the
    segment and the caches in place (include/metall/kernel/segment_allocator.hpp). */
module SegmentAllocator {
  import opened ChunkTable
  import opened BlockQueue
  import opened CacheBudget
  import opened FreeSlots
  import opened Ledger
  import opened GlobalAllocator
  import opened LargeAllocation
  import opened CachedAllocator
  import opened Allocator
  import BD = BinDirectory
  import CD = ChunkDirectory
  import O = ObjectCache
  import S = SizeClasses
  import Queries
  import Runs
  import P = PageRelease
  import Persistence
  import R = ResidentPages

  // ---------- Steps of the loops ---------- //

  lemma ManyNone(cfg: Config, g: Global, b: nat, grow: Storage)
    requires Inv(cfg, g) && b < |g.lists| && Bounded(cfg, grow)
    ensures AllocMany(cfg, g, b, 0, grow) == ([], g)
  {}

  lemma ManyFails(cfg: Config, g: Global, b: nat, n: nat, grow: Storage)
    requires Inv(cfg, g) && b < |g.lists| && Bounded(cfg, grow) && n >= 1
    requires !Provide(cfg, g, b, grow).0
    ensures AllocMany(cfg, g, b, n, grow) == (Nulls(n), Provide(cfg, g, b, grow).1)
  {
    hide InvBut, Provide;
  }

  lemma ManyStep(cfg: Config, g: Global, b: nat, n: nat, grow: Storage)
    requires Inv(cfg, g) && b < |g.lists| && Bounded(cfg, grow) && n >= 1
    requires Provide(cfg, g, b, grow).0
    ensures var g1 := Provide(cfg, g, b, grow).1;
            && Ready(cfg, g1, b)
            && var (os, g2) := MarkFront(cfg, g1, b, n);
            && Inv(cfg, g2) && b < |g2.lists| && 1 <= |os| <= n
            && AllocMany(cfg, g, b, n, grow) ==
                 (os + AllocMany(cfg, g2, b, n - |os|, grow).0, AllocMany(cfg, g2, b, n - |os|, grow).1)
  {
    hide InvBut, Provide, MarkFront, Ready, MarkedSet, Slotted, Objects, Keeps;
    ProvideOk(cfg, g, b, grow);
    MarkFrontOk(cfg, Provide(cfg, g, b, grow).1, b, n, YoungOf(g, b));
  }

  /** `done` is the part of the goal allocated so far, with `left` still to come from g. */
  ghost predicate Progress(cfg: Config, goal: (seq<Offset>, Global), done: seq<Offset>, g: Global, b: nat, left: nat,
          grow: Storage) {
    && Inv(cfg, g) && b < |g.lists| && Bounded(cfg, grow)
    && goal == (done + AllocMany(cfg, g, b, left, grow).0, AllocMany(cfg, g, b, left, grow).1)
  }

  lemma ProgressStart(cfg: Config, g: Global, b: nat, n: nat, grow: Storage)
    requires Inv(cfg, g) && b < |g.lists| && Bounded(cfg, grow)
    ensures Progress(cfg, AllocMany(cfg, g, b, n, grow), [], g, b, n, grow)
  {
    hide AllocMany, InvBut;
    assert [] + AllocMany(cfg, g, b, n, grow).0 == AllocMany(cfg, g, b, n, grow).0;
  }

  lemma ProgressFails(cfg: Config, goal: (seq<Offset>, Global), done: seq<Offset>, g: Global, b: nat, left: nat,
          grow: Storage)
    requires ValidConfig(cfg) && b < |g.lists| && Progress(cfg, goal, done, g, b, left, grow) && left >= 1
    requires !Provide(cfg, g, b, grow).0
    ensures goal == (done + Nulls(left), Provide(cfg, g, b, grow).1)
  {
    hide AllocMany, InvBut, Provide;
    ManyFails(cfg, g, b, left, grow);
  }

  lemma ProgressStep(cfg: Config, goal: (seq<Offset>, Global), done: seq<Offset>, g: Global, b: nat, left: nat,
          grow: Storage)
    requires ValidConfig(cfg) && b < |g.lists| && Progress(cfg, goal, done, g, b, left, grow) && left >= 1
    requires Provide(cfg, g, b, grow).0
    ensures var g1 := Provide(cfg, g, b, grow).1;
            && Ready(cfg, g1, b)
            && var (os, g2) := MarkFront(cfg, g1, b, left);
            && 1 <= |os| <= left && Inv(cfg, g2) && Progress(cfg, goal, done + os, g2, b, left - |os|, grow)
  {
    hide AllocMany, InvBut, Provide, MarkFront, Ready;
    ManyStep(cfg, g, b, left, grow);
    var (os, g2) := MarkFront(cfg, Provide(cfg, g, b, grow).1, b, left);
    var rest := AllocMany(cfg, g2, b, left - |os|, grow).0;
    assert done + (os + rest) == (done + os) + rest;
  }

  lemma ProgressEnd(cfg: Config, goal: (seq<Offset>, Global), done: seq<Offset>, g: Global, b: nat, grow: Storage)
    requires Progress(cfg, goal, done, g, b, 0, grow)
    ensures goal == (done, g)
  {
    hide AllocMany, InvBut;
    ManyNone(cfg, g, b, grow);
    assert done + [] == done;
  }

  ghost predicate SinglesLeft(cfg: Config, goal: (seq<Offset>, Global), done: seq<Offset>, g: Global, b: nat,
          left: nat, grow: Storage) {
    && Inv(cfg, g) && b < |g.lists| && Bounded(cfg, grow)
    && goal == (done + AllocSingles(cfg, g, b, left, grow).0, AllocSingles(cfg, g, b, left, grow).1)
  }

  lemma SinglesStart(cfg: Config, g: Global, b: nat, n: nat, grow: Storage)
    requires Inv(cfg, g) && b < |g.lists| && Bounded(cfg, grow)
    ensures SinglesLeft(cfg, AllocSingles(cfg, g, b, n, grow), [], g, b, n, grow)
  {
    hide AllocSingles, InvBut;
    assert [] + AllocSingles(cfg, g, b, n, grow).0 == AllocSingles(cfg, g, b, n, grow).0;
  }

  lemma SinglesStep(cfg: Config, goal: (seq<Offset>, Global), done: seq<Offset>, g: Global, b: nat, left: nat,
          grow: Storage)
    requires SinglesLeft(cfg, goal, done, g, b, left, grow) && left >= 1 && Inv(cfg, g) && b < |g.lists|
             && Bounded(cfg, grow)
    ensures var (o, g1) := AllocMany(cfg, g, b, 1, grow);
            Inv(cfg, g1) && SinglesLeft(cfg, goal, done + o, g1, b, left - 1, grow)
  {
    hide AllocMany, InvBut, MarkedSet, Slotted, Objects, Keeps;
    AllocManyCorrect(cfg, g, b, 1, grow);
    var (o, g1) := AllocMany(cfg, g, b, 1, grow);
    var rest := AllocSingles(cfg, g1, b, left - 1, grow).0;
    assert done + (o + rest) == (done + o) + rest;
  }

  lemma SinglesEnd(cfg: Config, goal: (seq<Offset>, Global), done: seq<Offset>, g: Global, b: nat, grow: Storage)
    requires SinglesLeft(cfg, goal, done, g, b, 0, grow)
    ensures goal == (done, g)
  {
    hide InvBut;
    assert done + [] == done;
  }

  lemma FreeAllStep(cfg: Config, g: Global, b: nat, items: seq<Offset>)
    requires Inv(cfg, g) && b < |g.lists| && Holds(cfg, g.table, b, items) && items != []
    ensures items[0].At? ==> Slotted(cfg, g.table, items[0].pos, b)
    ensures var g1 := FreeOne(cfg, g, b, items[0]);
            && Inv(cfg, g1) && b < |g1.lists| && Holds(cfg, g1.table, b, items[1..])
            && FreeAll(cfg, g, b, items) == FreeAll(cfg, g1, b, items[1..])
  {
    hide InvBut, MarkedSet, Slotted, Objects, FreeOne, Holds, Shrunk, ValidConfig;
    HoldsFirst(cfg, g.table, b, items);
    FreeOneCorrect(cfg, g, b, items[0]);
    var g1 := FreeOne(cfg, g, b, items[0]);
    ShrunkInv(cfg, g, Objects([items[0]]), g1);
    HoldsTail(cfg, g, b, items, g1);
  }

  lemma FreeAllNone(cfg: Config, g: Global, b: nat, items: seq<Offset>)
    requires Inv(cfg, g) && b < |g.lists| && items == [] && Holds(cfg, g.table, b, items)
    ensures FreeAll(cfg, g, b, items) == g
  {
    hide InvBut;
  }

  lemma FreeBlocksStep(cfg: Config, g: Global, q: Queue)
    requires Inv(cfg, g) && HoldsBlocks(cfg, g.table, q) && q != []
    ensures q[0].bin < SmallBins(cfg) && Holds(cfg, g.table, q[0].bin, q[0].items)
    ensures var g1 := FreeAll(cfg, g, q[0].bin, q[0].items);
            && Inv(cfg, g1) && HoldsBlocks(cfg, g1.table, q[1..])
            && FreeBlocks(cfg, g, q) == FreeBlocks(cfg, g1, q[1..])
  {
    hide InvBut, MarkedSet, Objects, FreeAll, Holds, HoldsBlocks, Shrunk, ValidConfig;
    BlockHolds(cfg, g.table, q);
    FreeAllCorrect(cfg, g, q[0].bin, q[0].items);
    var g1 := FreeAll(cfg, g, q[0].bin, q[0].items);
    ShrunkInv(cfg, g, Objects(q[0].items), g1);
    HoldsRest(cfg, g, q, g1);
  }

  lemma FreeBlocksNone(cfg: Config, g: Global, q: Queue)
    requires Inv(cfg, g) && q == [] && HoldsBlocks(cfg, g.table, q)
    ensures FreeBlocks(cfg, g, q) == g
  {
    hide InvBut;
  }

  /** What `pop` is made of. */
  lemma PopPlan(s: Setup, g: Global, q: Queue, b: nat, grow: Storage)
    requires Consistent(s, g, q) && CachedBin(s, b) && Bounded(s.cfg, grow)
    requires RefillBytes(s.cfg, b) <= s.maxBytes && NumBlocks(s.cfg, s.maxBytes) > 0
    ensures var q0 := DropEmpty(q, b);
            var (ev, rest) := MakeRoom(s.cfg, s.maxBytes, q0, RefillBytes(s.cfg, b));
            && (Active(q0, b) >= 0 ==>
                  |q0[Active(q0, b)].items| > 0 && Pop(s, g, q, b, grow) == (Top(q0, b), g, TakeTop(q0, b)))
            && (Active(q0, b) == -1 ==>
                  && HoldsBlocks(s.cfg, g.table, ev)
                  && var g1 := FreeBlocks(s.cfg, g, ev);
                  && Inv(s.cfg, g1) && Room(s.cfg, s.maxBytes, rest, RefillBytes(s.cfg, b))
                  && var (os, g2) := AllocSmall(s.cfg, g1, b, RefillCount(s.cfg, b), grow);
                  var q1 := rest + [Block(b, os)];
                  && Active(q1, b) >= 0 && |q1[Active(q1, b)].items| > 0
                  && Pop(s, g, q, b, grow) == (Top(q1, b), g2, TakeTop(q1, b)))
  {
    hide InvBut, FreeBlocks, HoldsBlocks, AllocSmall, MakeRoom, Consistent, Bytes, Active, DropEmpty, RefillCount,
      ObjectSize, NumBlocks, TakeTop, Top, Balanced, Others, Moved, Packed, Held, Room, CachedBin;
    ConsistentBalanced(s, g, q);
    var others := Others(s, g, q);
    DropBalanced(s, g, q, b, others);
    var q0 := DropEmpty(q, b);
    if Active(q0, b) == -1 {
      BalancedFacts(s, g, q0, others);
      RefillCorrect(s, g, q0, b, grow, others);
      EvictOk(s, g, q0, RefillBytes(s.cfg, b), others);
      MovedInv(s.cfg, g, others, FreeBlocks(s.cfg, g, MakeRoom(s.cfg, s.maxBytes, q0, RefillBytes(s.cfg, b)).0));
    }
  }

  lemma PushPlan(s: Setup, g: Global, q: Queue, b: nat, o: Offset)
    requires Consistent(s, g, q) && CachedBin(s, b)
    requires ObjectSize(s.cfg, b) <= s.maxBytes && NumBlocks(s.cfg, s.maxBytes) > 0
    ensures var (ev, rest) := MakeRoom(s.cfg, s.maxBytes, q, ObjectSize(s.cfg, b));
            && HoldsBlocks(s.cfg, g.table, ev)
            && PushObject(s, g, q, b, o) == (FreeBlocks(s.cfg, g, ev), Push(rest, b, o))
  {
    hide InvBut, FreeBlocks, HoldsBlocks, MakeRoom, Consistent, ObjectSize, NumBlocks, Balanced, Others, Moved,
      Packed, Held, Room, CachedBin, Push;
    ConsistentBalanced(s, g, q);
    BalancedFacts(s, g, q, Others(s, g, q));
    EvictOk(s, g, q, ObjectSize(s.cfg, b), Others(s, g, q));
  }

  lemma FlushPlan(s: Setup, g: Global, q: Queue)
    requires Consistent(s, g, q)
    ensures HoldsBlocks(s.cfg, g.table, FlushOrder(q, s.maxBin + 1))
    ensures Flush(s, g, q) == FreeBlocks(s.cfg, g, FlushOrder(q, s.maxBin + 1))
  {
    hide InvBut, FreeBlocks, HoldsBlocks, Consistent, Balanced, Others, FlushOrder;
    ConsistentBalanced(s, g, q);
    FlushHolds(s, g, q, Others(s, g, q));
  }

  lemma FlushStep(s: Setup, w: World, i: nat)
    requires WorldOk(s, w) && i < |w.caches|
    ensures WorldOk(s, Runs.FlushCache(s, w, i)) && |Runs.FlushCache(s, w, i).caches| == |w.caches|
    ensures Runs.FlushFrom(s, w, i) == Runs.FlushFrom(s, Runs.FlushCache(s, w, i), i + 1)
  {
    hide Accounts, Flush;
    Runs.FlushCacheCorrect(s, w, i);
  }

  lemma FlushEnd(s: Setup, w: World)
    requires WorldOk(s, w)
    ensures Runs.FlushFrom(s, w, |w.caches|) == w
  {
    hide Accounts;
  }

  /** The set holds the offsets of exactly these slots. */
  ghost predicate InBuffer(cfg: Config, refs: seq<SlotRef>, offsets: set<nat>)
    requires ValidConfig(cfg)
  {
    forall o :: o in offsets <==> exists r: SlotRef :: r in refs && o == OffsetOf(cfg, r.chunk, r.bin, r.slot)
  }

  lemma NoneInBuffer(cfg: Config, refs: seq<SlotRef>)
    requires ValidConfig(cfg)
    ensures InBuffer(cfg, refs[..0], {})
  {
    hide OffsetOf;
  }

  lemma OneInBuffer(cfg: Config, refs: seq<SlotRef>, i: nat, offsets: set<nat>)
    requires ValidConfig(cfg) && i < |refs| && InBuffer(cfg, refs[..i], offsets)
    ensures InBuffer(cfg, refs[..i + 1], offsets + {OffsetOf(cfg, refs[i].chunk, refs[i].bin, refs[i].slot)})
  {
    hide OffsetOf;
    assert refs[..i + 1] == refs[..i] + [refs[i]];
    assert refs[i] in refs[..i + 1];
    assert forall r: SlotRef :: r in refs[..i + 1] <==> r in refs[..i] || r == refs[i];
  }

  lemma BufferIsAll(cfg: Config, t: Table, refs: seq<SlotRef>, offsets: set<nat>)
    requires ValidConfig(cfg) && TableOk(cfg, t) && InBuffer(cfg, refs, offsets)
    requires forall r: SlotRef :: r in refs <==> IsMarked(t, r)
    ensures offsets == MarkedSet(cfg, t)
  {
    hide OffsetOf, MarkedSet, TableOk, ChunkOf, SlotOf;
    forall o ensures o in offsets <==> o in MarkedSet(cfg, t) {
      if o in offsets {
        var r: SlotRef :| r in refs && o == OffsetOf(cfg, r.chunk, r.bin, r.slot);
        Runs.MarkedIn(cfg, t, r.chunk, r.slot);
      }
      if Marked(cfg, t, o) {
        var c := ChunkOf(cfg, o);
        var r := SlotRef(c, t[c].bin, SlotOf(cfg, t[c].bin, o));
        assert IsMarked(t, r) && r in refs;
      }
    }
  }

  lemma TickedNone(s: Setup, queues: seq<Queue>, all: set<nat>)
    ensures Queries.Ticked(all, Queries.VisitCaches(s, queues[..0]), all)
  {
    ObjectsOne(Null);
  }

  /** Where there is a body there is a head. */
  lemma HeadsAndBodies(cfg: Config, t: Table)
    requires ValidConfig(cfg) && TableOk(cfg, t)
    ensures Queries.NoLarge(t) <==> forall c :: 0 <= c < |t| ==> !t[c].Head? && !t[c].Body?
  {
    hide RunLength, Slots;
    forall c | 0 <= c < |t| && t[c].Body? ensures !Queries.NoLarge(t) {
      EntryFromTable(cfg, t, c);
      var h :| 0 <= h < c && InRun(cfg, t, h, c) && t[h].bin == t[c].bin;
    }
  }

  lemma BelowLimit(s: Setup, w: World)
    requires WorldOk(s, w)
    ensures ValidSetup(s) && w.g.segment < Limit(s.cfg)
  {
    hide MarkedSet, CachesOk, SmallOk, LargeOk, TableOk, ListsOk, Limit;
  }

  ghost predicate CacheFits(setup: Setup, c: O.ObjectCache)
    reads c
  {
    c.Valid() && c.cfg == setup.cfg && c.maxBytes == setup.maxBytes && |c.heads| == setup.maxBin + 1
  }

  ghost predicate AllFit(setup: Setup, cs: seq<O.ObjectCache>)
    reads cs
  {
    forall i :: 0 <= i < |cs| ==> CacheFits(setup, cs[i])
  }

  ghost function QueueIn(setup: Setup, c: O.ObjectCache): (q: Queue)
    reads c
  {
    if CacheFits(setup, c) then c.Queue() else []
  }

  ghost function QueuesOf(setup: Setup, cs: seq<O.ObjectCache>, k: nat): (qs: seq<Queue>)
    requires k <= |cs|
    reads cs
    ensures |qs| == k && forall i :: 0 <= i < k ==> qs[i] == QueueIn(setup, cs[i])
    decreases k
  {
    if k == 0 then [] else QueuesOf(setup, cs, k - 1) + [QueueIn(setup, cs[k - 1])]
  }

  // ---------- The region of a freed slot ---------- //

  /** The slot at o is the only marked one of a chunk that was not full. */
  ghost predicate FreesChunk(cfg: Config, t: Table, b: nat, o: nat)
    requires ValidConfig(cfg) && Slotted(cfg, t, o, b)
  {
    var c, k := ChunkOf(cfg, o), SlotOf(cfg, b, o);
    |t[c].marked| != Slots(cfg, b) && t[c].marked - {k} == {}
  }

  /** A chunk that stays has lost the slot and nothing else; what is released is told by the slots still marked. */
  lemma ChunkStays(cfg: Config, pg: R.Paging, g: Global, b: nat, o: nat)
    requires Inv(cfg, g) && b < |g.lists| && Slotted(cfg, g.table, o, b) && pg.page > 0
    ensures var c, k := ChunkOf(cfg, o), SlotOf(cfg, b, o);
            var u := FreeOne(cfg, g, b, At(o)).table;
            if FreesChunk(cfg, g.table, b, o) then
              R.ReleasedRange(cfg, pg, g.table, b, o)
                == P.Range(ChunkStart(cfg, c), ChunkStart(cfg, c) + ChunkSize(cfg))
            else
              && k < Slots(cfg, b) && c < |u| && u[c] == Small(b, g.table[c].marked - {k})
              && R.ReleasedRange(cfg, pg, g.table, b, o)
                 == P.FreeRange(pg.page, pg.hint, ChunkStart(cfg, c), ObjectSize(cfg, b), k, u[c].marked)
  {
    hide MarkedSet, TableOk, InvBut, OffsetOf, ObjectSize, ChunkSize, ChunkOf, SlotOf, ChunkStart, Slots, P.FreeRange,
      BD.Erased, ChunkTable.Erase;
    SlottedFacts(cfg, g.table, o, b);
  }

  function SlotBegin(cfg: Config, c: nat, b: nat, k: nat): nat
    requires ValidConfig(cfg)
  {
    P.Nonnegative(k, ObjectSize(cfg, b));
    ChunkStart(cfg, c) + k * ObjectSize(cfg, b)
  }

  /** An edge that lies inside a page. */
  predicate Cuts(edge: nat, page: nat)
    requires page > 0
  {
    edge % page != 0
  }

  /** The pages a region covers, less a first and a last page that have to stay. */
  function Rounded(page: nat, begin: nat, end: nat, keepFirst: bool, keepLast: bool): P.Range
    requires page > 0
  {
    P.Range(if !Cuts(begin, page) then begin
            else if keepFirst then P.RoundUp(begin, page)
            else P.RoundDown(begin, page),
            if !Cuts(end, page) then end else if keepLast then P.RoundDown(end, page) else P.RoundUp(end, page))
  }

  /** The region to free, from which edges have to stay. Where an edge lies inside a page, the bitmap has a bit
      for the neighbour, also after the last slot, where that bit is clear. */
  lemma RangeOf(cfg: Config, page: nat, hint: nat, c: nat, b: nat, k: nat, marked: set<nat>)
    requires R.ValidPaging(cfg, R.Paging(page, hint)) && b < SmallBins(cfg) && k < Slots(cfg, b)
    ensures page > 0
    ensures var size, lo := ObjectSize(cfg, b), SlotBegin(cfg, c, b, k);
            P.FreeRange(page, hint, ChunkStart(cfg, c), size, k, marked) ==
              if size < 2 * page || size < hint then P.Nothing
              else Rounded(page, lo, lo + size, k >= 1 && k - 1 in marked, k + 1 in marked)
    ensures var size, lo := ObjectSize(cfg, b), SlotBegin(cfg, c, b, k);
            !(size < 2 * page || size < hint) ==>
              && (Cuts(lo, page) ==> k >= 1 && CD.InBitmap(cfg, b, k - 1))
              && (Cuts(lo + size, page) ==> CD.InBitmap(cfg, b, k + 1))
  {
    hide ObjectSize, Slots, ChunkSize, ChunkStart, P.RoundUp, P.RoundDown, P.Aligned, CD.InBitmap;
    var size := ObjectSize(cfg, b);
    if size < 2 * page || size < hint { return; }
    R.SlotChunk(cfg, R.Paging(page, hint), c, b, k);
    P.NeighbourExists(page, ChunkStart(cfg, c), ChunkSize(cfg), size, Slots(cfg, b), k);
    if k >= 1 { CD.SlotInBitmap(cfg, b, k - 1); }
    assert (k + 1) * size == k * size + size;
    if Cuts(SlotBegin(cfg, c, b, k) + size, page) { CD.SlotInBitmap(cfg, b, k + 1); }
  }

  ghost predicate Distinct(cs: seq<O.ObjectCache>) {
    forall i, j :: 0 <= i < j < |cs| ==> cs[i] != cs[j]
  }

  /** `priv_allocate_cache`. */
  method NewCaches(setup: Setup, n: nat) returns (cs: seq<O.ObjectCache>)
    requires ValidSetup(setup)
    ensures |cs| == n && Distinct(cs) && forall k :: 0 <= k < n ==> fresh(cs[k])
    ensures AllFit(setup, cs) && forall k :: 0 <= k < n ==> QueueIn(setup, cs[k]) == []
  {
    hide O.ObjectCache.Valid, O.ObjectCache.Queue, O.ObjectCache.Lists;
    cs := [];
    for i := 0 to n
      invariant |cs| == i && Distinct(cs) && forall k :: 0 <= k < i ==> fresh(cs[k]) && allocated(cs[k])
      invariant AllFit(setup, cs) && forall k :: 0 <= k < i ==> QueueIn(setup, cs[k]) == []
    {
      var c := new O.ObjectCache(setup.cfg, setup.maxBytes, setup.maxBin + 1);
      cs := cs + [c];
    }
  }

  class SegmentAllocator {
    const setup: Setup
    const bins: BD.BinDirectory
    const chunks: CD.ChunkDirectory
    const caches: seq<O.ObjectCache>
    var segment: nat
    ghost var small: map<nat, nat>
    ghost var large: map<nat, nat>

    /** The directories are well formed and fit together. */
    ghost predicate Shape()
      reads bins, chunks, chunks.table
    {
      && ValidConfig(setup.cfg) && chunks.Valid() && chunks.cfg == setup.cfg
      && bins.Valid() && bins.numBins == SmallBins(setup.cfg)
    }

    ghost function G(): (g: Global)
      requires Shape()
      reads this`segment, bins, chunks, chunks.table
      ensures |g.lists| == SmallBins(setup.cfg)
    {
      Global(chunks.View(), bins.table, segment)
    }

    /** The caches are well formed, all different, and sized as set up. */
    ghost predicate CachesValid()
      reads caches
    {
      Distinct(caches) && AllFit(setup, caches)
    }

    ghost function Queues(): (qs: seq<Queue>)
      requires CachesValid()
      reads caches
      ensures |qs| == |caches|
      ensures forall i :: 0 <= i < |caches| ==> CacheFits(setup, caches[i]) && qs[i] == caches[i].Queue()
    {
      QueuesOf(setup, caches, |caches|)
    }

    constructor (setup: Setup, numCaches: nat, segment: nat)
      requires ValidSetup(setup) && segment < Limit(setup.cfg)
      ensures Valid() && this.setup == setup && W() == Runs.Initial(setup, numCaches, segment)
      ensures Untouched() && fresh(bins) && fresh(chunks) && fresh(chunks.table)
      ensures forall i :: 0 <= i < |caches| ==> fresh(caches[i])
    {
      hide O.ObjectCache.Valid, O.ObjectCache.Queue, O.ObjectCache.Lists, CD.EntriesValid, CD.TableOf, LastUsed,
        Limit, Accounts;
      this.setup, this.segment, this.small, this.large := setup, segment, map[], map[];
      var cs := NewCaches(setup, numCaches);
      caches := cs;
      bins := new BD.BinDirectory(SmallBins(setup.cfg));
      chunks := new CD.ChunkDirectory(setup.cfg);
      new;
      StartsEmpty(numCaches);
    }

    lemma StartsEmpty(numCaches: nat)
      requires ValidSetup(setup) && segment < Limit(setup.cfg) && Shape() && CachesValid() && small == map[]
               && large == map[]
      requires forall c :: 0 <= c < |G().table| ==> G().table[c] == Unused
      requires forall b :: 0 <= b < |bins.table| ==> bins.table[b] == []
      requires |caches| == numCaches && forall i :: 0 <= i < |caches| ==> Queues()[i] == []
      ensures Valid() && W() == Runs.Initial(setup, numCaches, segment)
    {
      hide O.ObjectCache.Valid, O.ObjectCache.Queue, O.ObjectCache.Lists, CD.EntriesValid, CD.TableOf, LastUsed, Limit,
           Accounts, Queues, QueuesOf;
      Runs.InitialOk(setup, numCaches, segment);
      var w := Runs.Initial(setup, numCaches, segment);
      assert G().table == w.g.table && bins.table == w.g.lists && Queues() == w.caches;
    }

    // ---------- For allocation ---------- //

    /** `priv_extend_segment_without_lock`. */
    method ExtendSegment(headChunkNo: nat, numChunks: nat, grow: Storage) returns (ok: bool)
      modifies this`segment
      ensures (ok, segment) == Extend(old(segment), (headChunkNo + numChunks) * ChunkSize(setup.cfg), grow)
      ensures !ok ==> segment == old(segment)
    {
      var required := (headChunkNo + numChunks) * ChunkSize(setup.cfg);
      if required <= segment { return true; }
      var size := grow(required);
      if size < required { return false; }
      segment := size;
      return true;
    }

    /** `priv_insert_new_small_object_chunk`. */
    method InsertNewSmallObjectChunk(binNo: nat, grow: Storage) returns (ok: bool)
      requires Shape() && binNo < SmallBins(setup.cfg)
      modifies this`segment, bins, chunks, chunks.table
      ensures Shape() && chunks.table == old(chunks.table)
      ensures (ok, G()) == NewChunk(setup.cfg, old(G()), binNo, grow)
    {
      hide CD.EntriesValid, CD.TableOf, LastUsed, ChunkTable.InsertSmall;
      var newChunkNo := chunks.InsertSmall(binNo);
      ok := ExtendSegment(newChunkNo, 1, grow);
      if !ok { return; }
      bins.Insert(binNo, newChunkNo);
    }
  
    /** A chunk with a free slot is at the front of the list, or is put there. */
    method ProvideChunk(binNo: nat, grow: Storage) returns (ok: bool)
      requires Shape() && binNo < SmallBins(setup.cfg)
      modifies this`segment, bins, chunks, chunks.table
      ensures Shape() && chunks.table == old(chunks.table)
      ensures (ok, G()) == Provide(setup.cfg, old(G()), binNo, grow)
    {
      hide CD.EntriesValid, CD.TableOf, LastUsed, NewChunk;
      ok := true;
      if bins.Empty(binNo) { ok := InsertNewSmallObjectChunk(binNo, grow); }
    }

    /** One slot of the front chunk is marked; a chunk that becomes full leaves the list. */
    method TakeSlot(binNo: nat) returns (o: Offset)
      requires Shape() && Ready(setup.cfg, G(), binNo)
      modifies bins, chunks, chunks.table
      ensures Shape() && chunks.table == old(chunks.table)
      ensures ([o], G()) == MarkFront(setup.cfg, old(G()), binNo, 1)
    {
      hide CD.EntriesValid, CD.TableOf, LastUsed, Slots, OffsetOf, MarkFront, LeastFree;
      ghost var g := G();
      var chunkNo := bins.Front(binNo);
      var slotNo := chunks.FindAndMarkSlot(chunkNo);
      var allMarked, _ := chunks.SlotsState(chunkNo);
      if allMarked { bins.Pop(binNo); }
      o := At(OffsetOf(setup.cfg, chunkNo, binNo, slotNo));
      OneSlot(setup.cfg, g, binNo, slotNo);
    }

    /** `priv_allocate_small_object_from_global_without_bin_lock`. */
    method AllocateOneFromGlobal(binNo: nat, grow: Storage) returns (o: Offset)
      requires Shape() && Inv(setup.cfg, G()) && binNo < SmallBins(setup.cfg) && Bounded(setup.cfg, grow)
      modifies this`segment, bins, chunks, chunks.table
      ensures Shape() && chunks.table == old(chunks.table)
      ensures ([o], G()) == AllocMany(setup.cfg, old(G()), binNo, 1, grow)
    {
      hide CD.EntriesValid, CD.TableOf, LastUsed, InvBut, AllocMany, Provide, MarkFront, Ready;
      ghost var g := G();
      var ok := ProvideChunk(binNo, grow);
      if !ok {
        ManyFails(setup.cfg, g, binNo, 1, grow);
        assert Nulls(1) == [Null];
        return Null;
      }
      ManyStep(setup.cfg, g, binNo, 1, grow);
      o := TakeSlot(binNo);
      ManyNone(setup.cfg, G(), binNo, grow);
      assert [o] + [] == [o];
    }

    /** Up to n slots of the front chunk are marked, in bulk. */
    method TakeManySlots(binNo: nat, n: nat) returns (slots: seq<nat>, chunkNo: nat)
      requires Shape() && Ready(setup.cfg, G(), binNo)
      modifies bins, chunks, chunks.table
      ensures Shape() && chunks.table == old(chunks.table)
      ensures (OffsetsOf(setup.cfg, chunkNo, binNo, slots), G()) == MarkFront(setup.cfg, old(G()), binNo, n)
    {
      hide CD.EntriesValid, CD.TableOf, LastUsed, Slots, OffsetOf, FirstFree, OffsetsOf, MarkFront, SmallBins,
        ValidConfig, CD.ChunkDirectory.Valid, CD.ChunkDirectory.View, Elements;
      ghost var g := G();
      chunkNo := bins.Front(binNo);
      slots := chunks.FindAndMarkManySlots(chunkNo, n);
      var allMarked, _ := chunks.SlotsState(chunkNo);
      if allMarked { bins.Pop(binNo); }
      ManySlots(setup.cfg, g, binNo, n, slots);
    }

    /** `priv_allocate_many_small_objects_from_global_without_bin_lock`. */
    method AllocateManyFromGlobal(binNo: nat, n: nat, grow: Storage) returns (allocated_: seq<Offset>)
      requires Shape() && Inv(setup.cfg, G()) && binNo < SmallBins(setup.cfg) && Bounded(setup.cfg, grow)
      modifies this`segment, bins, chunks, chunks.table
      ensures Shape() && chunks.table == old(chunks.table)
      ensures (allocated_, G()) == AllocMany(setup.cfg, old(G()), binNo, n, grow)
    {
      hide CD.EntriesValid, CD.TableOf, LastUsed, InvBut, AllocMany, Provide, MarkFront, Ready, OffsetsOf, Progress;
      ghost var goal := AllocMany(setup.cfg, G(), binNo, n, grow);
      var offsets := Nulls(n);
      var cnt := 0;
      ProgressStart(setup.cfg, G(), binNo, n, grow);
      assert offsets[..0] == [];
      while cnt < n
        invariant 0 <= cnt <= n && |offsets| == n && Shape() && chunks.table == old(chunks.table)
        invariant Inv(setup.cfg, G())
        invariant offsets[cnt..] == Nulls(n - cnt)
        invariant Progress(setup.cfg, goal, offsets[..cnt], G(), binNo, n - cnt, grow)
      {
        ghost var g := G();
        var ok := ProvideChunk(binNo, grow);
        if !ok {
          ProgressFails(setup.cfg, goal, offsets[..cnt], g, binNo, n - cnt, grow);
          assert offsets == offsets[..cnt] + offsets[cnt..];
          return offsets;
        }
        ProgressStep(setup.cfg, goal, offsets[..cnt], g, binNo, n - cnt, grow);
        var slots, chunkNo := TakeManySlots(binNo, n - cnt);
        offsets := StoreOffsets(setup.cfg, offsets, cnt, chunkNo, binNo, slots);
        cnt := cnt + |slots|;
      }
      ProgressEnd(setup.cfg, goal, offsets[..n], G(), binNo, grow);
      assert offsets[..n] == offsets;
      return offsets;
    }

    /** `priv_allocate_small_objects_from_global`. */
    method AllocateFromGlobal(binNo: nat, n: nat, grow: Storage) returns (os: seq<Offset>)
      requires Shape() && Inv(setup.cfg, G()) && binNo < SmallBins(setup.cfg) && Bounded(setup.cfg, grow)
      modifies this`segment, bins, chunks, chunks.table
      ensures Shape() && chunks.table == old(chunks.table)
      ensures (os, G()) == AllocSmall(setup.cfg, old(G()), binNo, n, grow)
    {
      hide CD.EntriesValid, CD.TableOf, LastUsed, InvBut, AllocMany, AllocSingles, SinglesLeft;
      if n >= MANY_ALLOCATIONS_THRESHOLD {
        os := AllocateManyFromGlobal(binNo, n, grow);
        return;
      }
      ghost var goal := AllocSingles(setup.cfg, G(), binNo, n, grow);
      os := [];
      SinglesStart(setup.cfg, G(), binNo, n, grow);
      var i := 0;
      while i < n
        invariant 0 <= i <= n && Shape() && chunks.table == old(chunks.table) && Inv(setup.cfg, G())
        invariant SinglesLeft(setup.cfg, goal, os, G(), binNo, n - i, grow)
      {
        SinglesStep(setup.cfg, goal, os, G(), binNo, n - i, grow);
        var o := AllocateOneFromGlobal(binNo, grow);
        os := os + [o];
        i := i + 1;
      }
      SinglesEnd(setup.cfg, goal, os, G(), binNo, grow);
    }

    // ---------- For deallocation ---------- //

    /** `priv_deallocate_small_object_from_global_without_bin_lock`. */
    method DeallocateOneFromGlobal(o: Offset, binNo: nat) returns (freedChunk: bool)
      requires Shape() && Inv(setup.cfg, G()) && binNo < SmallBins(setup.cfg)
      requires o.At? ==> Slotted(setup.cfg, G().table, o.pos, binNo)
      modifies this`segment, bins, chunks, chunks.table
      ensures Shape() && chunks.table == old(chunks.table)
      ensures G() == FreeOne(setup.cfg, old(G()), binNo, o)
      ensures freedChunk <==> o.At? && FreesChunk(setup.cfg, old(G()).table, binNo, o.pos)
    {
      hide CD.EntriesValid, CD.TableOf, LastUsed, InvBut, ChunkOf, SlotOf, OffsetOf, Slots, BD.Erased, ChunkTable.Erase;
      freedChunk := false;
      if o == Null { return; }
      var chunkNo, slotNo := ChunkOf(setup.cfg, o.pos), SlotOf(setup.cfg, binNo, o.pos);
      var wasFull, _ := chunks.SlotsState(chunkNo);
      chunks.UnmarkSlot(chunkNo, slotNo);
      if wasFull {
        bins.Insert(binNo, chunkNo);
      } else {
        var _, allUnmarked := chunks.SlotsState(chunkNo);
        if allUnmarked {
          var _ := chunks.Erase(chunkNo);
          var _ := bins.Erase(binNo, chunkNo);
          freedChunk := true;
        }
      }
    }

    /** `priv_deallocate_small_objects_from_global`. */
    method DeallocateFromGlobal(binNo: nat, items: seq<Offset>)
      requires Shape() && Inv(setup.cfg, G()) && binNo < SmallBins(setup.cfg)
      requires Holds(setup.cfg, G().table, binNo, items)
      modifies this`segment, bins, chunks, chunks.table
      ensures Shape() && chunks.table == old(chunks.table)
      ensures G() == FreeAll(setup.cfg, old(G()), binNo, items)
    {
      hide CD.EntriesValid, CD.TableOf, LastUsed, InvBut, FreeAll, FreeOne, Holds, Slotted;
      ghost var goal := FreeAll(setup.cfg, G(), binNo, items);
      var i := 0;
      assert items[0..] == items;
      while i < |items|
        invariant 0 <= i <= |items| && Shape() && chunks.table == old(chunks.table) && Inv(setup.cfg, G())
        invariant Holds(setup.cfg, G().table, binNo, items[i..])
        invariant FreeAll(setup.cfg, G(), binNo, items[i..]) == goal
      {
        FreeAllStep(setup.cfg, G(), binNo, items[i..]);
        var _ := DeallocateOneFromGlobal(items[i], binNo);
        assert items[i..][1..] == items[i + 1..];
        i := i + 1;
      }
      FreeAllNone(setup.cfg, G(), binNo, items[i..]);
    }

    /** Whether the page at an edge of a slot, shared with this neighbour, has to stay. */
    method KeepsSharedPage(chunkNo: nat, neighbour: int, edge: nat, page: nat) returns (keep: bool)
      requires Shape() && page > 0 && chunkNo < |G().table| && G().table[chunkNo].Small?
      requires Cuts(edge, page) ==> 0 <= neighbour && CD.InBitmap(setup.cfg, G().table[chunkNo].bin, neighbour)
      ensures keep <==> Cuts(edge, page) && neighbour >= 0 && neighbour in G().table[chunkNo].marked
    {
      hide CD.EntriesValid, CD.TableOf, CD.InBitmap, LastUsed, Slots, Cuts;
      if !Cuts(edge, page) { return false; }
      keep := chunks.MarkedSlot(chunkNo, neighbour);
    }

    /** `priv_free_slot_without_bin_lock`: the region to free, found by looking at the slots next to this one. */
    method FreeSlotRange(binNo: nat, chunkNo: nat, slotNo: nat, page: nat, hint: nat) returns (r: P.Range)
      requires Shape() && R.ValidPaging(setup.cfg, R.Paging(page, hint)) && binNo < SmallBins(setup.cfg)
      requires chunkNo < |G().table| && G().table[chunkNo].Small? && G().table[chunkNo].bin == binNo
      requires slotNo < Slots(setup.cfg, binNo)
      ensures r == P.FreeRange(page, hint, ChunkStart(setup.cfg, chunkNo), ObjectSize(setup.cfg, binNo), slotNo,
                               G().table[chunkNo].marked)
    {
      hide CD.EntriesValid, CD.TableOf, CD.ChunkDirectory.View, CD.ChunkDirectory.Valid, LastUsed, ObjectSize, Slots,
        ChunkSize, ChunkStart, SmallBins;
      hide P.FreeRange, P.RoundUp, P.RoundDown, R.ValidPaging, SlotBegin, Cuts, CD.InBitmap;
      var size := ObjectSize(setup.cfg, binNo);
      var begin := SlotBegin(setup.cfg, chunkNo, binNo, slotNo);
      RangeOf(setup.cfg, page, hint, chunkNo, binNo, slotNo, G().table[chunkNo].marked);
      if size < 2 * page || size < hint { return P.Nothing; }
      var keepFirst := KeepsSharedPage(chunkNo, slotNo - 1, begin, page);
      var keepLast := KeepsSharedPage(chunkNo, slotNo + 1, begin + size, page);
      r := Rounded(page, begin, begin + size, keepFirst, keepLast);
    }

    /** The same as `DeallocateOneFromGlobal` where pages of single slots are given back, too: the region that
        is freed, of the whole chunk or about the slot. */
    method DeallocateOneReleasing(o: Offset, binNo: nat, page: nat, hint: nat) returns (region: P.Range)
      requires Shape() && Inv(setup.cfg, G()) && binNo < SmallBins(setup.cfg)
               && R.ValidPaging(setup.cfg, R.Paging(page, hint))
      requires o.At? ==> Slotted(setup.cfg, G().table, o.pos, binNo)
      modifies this`segment, bins, chunks, chunks.table
      ensures Shape() && chunks.table == old(chunks.table)
      ensures G() == FreeOne(setup.cfg, old(G()), binNo, o)
      ensures region == if o == Null then P.Nothing
                        else R.ReleasedRange(setup.cfg, R.Paging(page, hint), old(G()).table, binNo, o.pos)
    {
      hide CD.EntriesValid, CD.TableOf, CD.ChunkDirectory.View, CD.ChunkDirectory.Valid, LastUsed, ObjectSize, Slots,
        ChunkSize, ChunkStart, SmallBins;
      hide InvBut, ChunkOf, SlotOf, OffsetOf, FreeOne, FreesChunk, Slotted, P.FreeRange, R.ReleasedRange;
      ghost var g := G();
      var freedChunk := DeallocateOneFromGlobal(o, binNo);
      if o == Null { return P.Nothing; }
      var chunkNo, slotNo := ChunkOf(setup.cfg, o.pos), SlotOf(setup.cfg, binNo, o.pos);
      ChunkStays(setup.cfg, R.Paging(page, hint), g, binNo, o.pos);
      if freedChunk {
        var start := ChunkStart(setup.cfg, chunkNo);
        return P.Range(start, start + ChunkSize(setup.cfg));
      }
      region := FreeSlotRange(binNo, chunkNo, slotNo, page, hint);
    }

    // ---------- Large objects ---------- //

    /** `priv_allocate_large_object`. The clean-up after a failure may be called on a number past the table. */
    method AllocateLargeObject(binNo: nat, grow: Storage) returns (o: Offset, outside: bool)
      requires Shape() && SmallBins(setup.cfg) <= binNo < NumBins(setup.cfg)
      modifies this`segment, chunks, chunks.table
      ensures Shape() && chunks.table == old(chunks.table)
      ensures (o, G(), outside) == AllocLarge(setup.cfg, old(G()), binNo, grow)
    {
      hide CD.EntriesValid, CD.TableOf, CD.ChunkDirectory.Valid, LastUsed, ObjectSize, ChunkSize, RunLength,
           EraseAt, InsertLarge, Extend;
      var newChunkNo := chunks.InsertLarge(binNo);
      var numChunks := RunLength(setup.cfg, binNo);
      var ok := ExtendSegment(newChunkNo, numChunks, grow);
      if !ok {
        outside := chunks.Erase(newChunkNo);
        return Null, outside;
      }
      return At(ChunkSize(setup.cfg) * newChunkNo), false;
    }

    /** `priv_deallocate_large_object`. */
    method DeallocateLargeObject(chunkNo: nat)
      requires Shape() && chunkNo < chunks.table.Length && G().table[chunkNo].Head?
      modifies chunks, chunks.table
      ensures Shape() && chunks.table == old(chunks.table)
      ensures G() == FreeLarge(old(G()), chunkNo)
    {
      hide CD.EntriesValid, CD.TableOf, LastUsed, ChunkTable.Erase;
      var _ := chunks.Erase(chunkNo);
    }

    // ---------- With the caches ---------- //

    ghost function W(): World
      requires Shape() && CachesValid()
      reads this, bins, chunks, chunks.table, caches
    {
      World(G(), Queues(), small, large)
    }

    ghost predicate Valid()
      reads this, bins, chunks, chunks.table, caches
    {
      Shape() && CachesValid() && WorldOk(setup, W())
    }

    /** Blocks a cache gives up go back to the chunks, one after the other. */
    method DeallocateBlocks(blocks: seq<Block>)
      requires Shape() && Inv(setup.cfg, G()) && HoldsBlocks(setup.cfg, G().table, blocks)
      modifies this`segment, bins, chunks, chunks.table
      ensures Shape() && chunks.table == old(chunks.table)
      ensures G() == FreeBlocks(setup.cfg, old(G()), blocks)
    {
      hide CD.EntriesValid, CD.TableOf, LastUsed, InvBut, FreeAll, HoldsBlocks, FreeBlocks, Holds;
      ghost var goal := FreeBlocks(setup.cfg, G(), blocks);
      var i := 0;
      assert blocks[0..] == blocks;
      while i < |blocks|
        invariant 0 <= i <= |blocks| && Shape() && chunks.table == old(chunks.table) && Inv(setup.cfg, G())
        invariant HoldsBlocks(setup.cfg, G().table, blocks[i..])
        invariant FreeBlocks(setup.cfg, G(), blocks[i..]) == goal
      {
        FreeBlocksStep(setup.cfg, G(), blocks[i..]);
        DeallocateFromGlobal(blocks[i].bin, blocks[i].items);
        assert blocks[i..][1..] == blocks[i + 1..];
        i := i + 1;
      }
      FreeBlocksNone(setup.cfg, G(), blocks[i..]);
    }

    /** `m_object_cache.pop` with its callbacks. */
    method PopFromCache(cache: O.ObjectCache, binNo: nat, grow: Storage) returns (o: Offset)
      requires Shape() && CacheFits(setup, cache) && Consistent(setup, G(), cache.Queue())
      requires CachedBin(setup, binNo) && Bounded(setup.cfg, grow)
      modifies this`segment, bins, chunks, chunks.table, cache
      ensures Shape() && chunks.table == old(chunks.table) && CacheFits(setup, cache)
      ensures (o, G(), cache.Queue()) == Pop(setup, old(G()), old(cache.Queue()), binNo, grow)
    {
      hide InvBut, FreeBlocks, HoldsBlocks, AllocSmall, MakeRoom, Consistent,
           Bytes, O.ObjectCache.Queue, O.ObjectCache.Lists, CD.ChunkDirectory.Valid, CD.ChunkDirectory.View,
           Active, DropEmpty, RefillCount, ObjectSize, NumBlocks, Pop, TakeTop, Top, Room;
      ghost var g, q := G(), cache.Queue();
      AffordableRefill(setup, binNo);
      PopPlan(setup, g, q, binNo, grow);
      var refill, evicted := cache.PopBegin(binNo);
      var objects := [];
      if refill {
        DeallocateBlocks(evicted);
        objects := AllocateFromGlobal(binNo, RefillCount(setup.cfg, binNo), grow);
      }
      o := cache.PopEnd(binNo, refill, objects);
    }

    /** `m_object_cache.push` with its callback. */
    method PushToCache(cache: O.ObjectCache, binNo: nat, o: Offset)
      requires Shape() && CacheFits(setup, cache) && Consistent(setup, G(), cache.Queue()) && CachedBin(setup, binNo)
      modifies this`segment, bins, chunks, chunks.table, cache
      ensures Shape() && chunks.table == old(chunks.table) && CacheFits(setup, cache)
      ensures (G(), cache.Queue()) == PushObject(setup, old(G()), old(cache.Queue()), binNo, o)
    {
      hide InvBut, FreeBlocks, HoldsBlocks, MakeRoom, Consistent,
           Bytes, O.ObjectCache.Queue, O.ObjectCache.Lists, CD.ChunkDirectory.Valid, CD.ChunkDirectory.View,
           Active, ObjectSize, NumBlocks, PushObject, Push, RefillCount, Room;
      AffordableRefill(setup, binNo);
      PushPlan(setup, G(), cache.Queue(), binNo, o);
      var evicted := cache.MakeRoom(ObjectSize(setup.cfg, binNo));
      DeallocateBlocks(evicted);
      cache.PushEnd(binNo, o);
    }

    /** One cache's share of `m_object_cache.clear`. */
    method FlushOneCache(cache: O.ObjectCache)
      requires Shape() && CacheFits(setup, cache) && Consistent(setup, G(), cache.Queue())
      modifies this`segment, bins, chunks, chunks.table, cache
      ensures Shape() && chunks.table == old(chunks.table) && CacheFits(setup, cache) && cache.Queue() == []
      ensures G() == Flush(setup, old(G()), old(cache.Queue()))
    {
      hide InvBut, FreeBlocks, HoldsBlocks, Consistent,
           Bytes, O.ObjectCache.Queue, O.ObjectCache.Lists, CD.ChunkDirectory.Valid, CD.ChunkDirectory.View,
           FlushOrder, NumBlocks, Flush;
      FlushPlan(setup, G(), cache.Queue());
      var flushed := cache.FlushAllBins();
      DeallocateBlocks(flushed);
      cache.ResetHeaders();
    }

    /** When one cache has changed, its queue has, and no other. */
    twostate lemma OneCacheChanged(i: nat)
      requires old(CachesValid()) && i < |caches| && CacheFits(setup, caches[i])
      requires forall j :: 0 <= j < |caches| && j != i ==> unchanged(caches[j])
      ensures CachesValid() && Queues() == old(Queues())[i := caches[i].Queue()]
    {
      hide O.ObjectCache.Valid, O.ObjectCache.Queue, O.ObjectCache.Lists, Queues, QueuesOf;
      forall j | 0 <= j < |caches| ensures CacheFits(setup, caches[j]) {
        if j != i { CacheUnchanged(caches[j]); }
      }
      forall j | 0 <= j < |caches| && j != i ensures Queues()[j] == old(Queues())[j] {
        CacheUnchanged(caches[j]);
      }
    }

    twostate lemma CacheUnchanged(c: O.ObjectCache)
      requires old(CacheFits(setup, c)) && unchanged(c)
      ensures CacheFits(setup, c) && c.Queue() == old(c.Queue())
    {
      hide O.ListsOf, O.QueueOf, Bytes, NumBlocks;
    }

    /** `priv_allocate_small_object`, for a request of n bytes. */
    method AllocateSmallObject(binNo: nat, cacheNo: nat, grow: Storage, ghost n: nat) returns (o: Offset)
      requires Valid() && cacheNo < |caches| && Bounded(setup.cfg, grow)
      requires n >= 1 && binNo == BinFor(setup.cfg, n) < SmallBins(setup.cfg)
      modifies this, bins, chunks, chunks.table, caches
      ensures Shape() && CachesValid() && chunks.table == old(chunks.table)
      ensures (o, W()) == AllocateSmall(setup, old(W()), n, cacheNo, grow)
    {
      hide O.ObjectCache.Valid, O.ObjectCache.Queue, O.ObjectCache.Lists, CD.ChunkDirectory.Valid,
        CD.ChunkDirectory.View, Queues, QueuesOf, Accounts, Consistent, Pop, AllocSmall, InvBut, BinFor;
      if binNo <= setup.maxBin {
        ConsistentCache(setup, W(), cacheNo);
        o := PopFromCache(caches[cacheNo], binNo, grow);
        OneCacheChanged(cacheNo);
      } else {
        var os := AllocateFromGlobal(binNo, 1, grow);
        o := os[0];
      }
      if o.At? { small := small[o.pos := n]; }
    }

    /** `allocate`. An entry outside the chunk table is accessed exactly when there is no room for a large object. */
    method Allocate(nbytes: nat, cacheNo: nat, grow: Storage) returns (o: Offset, outside: bool)
      requires Valid() && cacheNo < |caches| && Bounded(setup.cfg, grow)
      requires nbytes == 0 || BinFor(setup.cfg, nbytes) >= 0
      modifies this, bins, chunks, chunks.table, caches
      ensures Valid() && chunks.table == old(chunks.table)
      ensures (o, W()) == Allocator.Allocate(setup, old(W()), nbytes, cacheNo, grow)
      ensures outside <==> GoesOutside(setup, old(W()), nbytes)
    {
      hide O.ObjectCache.Valid, O.ObjectCache.Queue, O.ObjectCache.Lists, CD.ChunkDirectory.Valid,
        CD.ChunkDirectory.View, Queues, QueuesOf, Accounts, AllocateSmall, AllocLarge, InvBut, S.SizeIndex, NoRoom,
        FirstFit, RunLength;
      ghost var w := W();
      AllocateCorrect(setup, w, nbytes, cacheNo, grow);
      outside := false;
      if nbytes == 0 { return Null, false; }
      var binNo := S.ObjectSizeIndex(setup.cfg.m, setup.cfg.maxSize, nbytes);
      if binNo < SmallBins(setup.cfg) {
        o := AllocateSmallObject(binNo, cacheNo, grow, nbytes);
      } else {
        AllocLargeCorrect(setup.cfg, w.g, binNo, grow);
        o, outside := AllocateLargeObject(binNo, grow);
        if o.At? { large := large[o.pos := nbytes]; }
      }
      assert (o, W()) == Allocator.Allocate(setup, w, nbytes, cacheNo, grow);
    }

    /** `allocate_aligned`. */
    method AllocateAligned(nbytes: nat, alignment: nat, cacheNo: nat, grow: Storage) returns (o: Offset, outside: bool)
      requires Valid() && cacheNo < |caches| && Bounded(setup.cfg, grow)
      requires Queries.GoodAlignment(setup.cfg, nbytes, alignment) ==> nbytes == 0 || BinFor(setup.cfg, nbytes) >= 0
      modifies this, bins, chunks, chunks.table, caches
      ensures Valid() && chunks.table == old(chunks.table)
      ensures (o, W()) == Queries.AllocateAligned(setup, old(W()), nbytes, alignment, cacheNo, grow)
      ensures o.At? ==> Queries.GoodAlignment(setup.cfg, nbytes, alignment) && o.pos % alignment == 0
      ensures outside <==> Queries.GoodAlignment(setup.cfg, nbytes, alignment) && GoesOutside(setup, old(W()), nbytes)
    {
      hide O.ObjectCache.Valid, O.ObjectCache.Queue, O.ObjectCache.Lists, CD.ChunkDirectory.Valid,
        CD.ChunkDirectory.View, Queues, QueuesOf, Accounts, Allocator.Allocate, InvBut, BinFor, ObjectSize,
        Queries.PowerOf2, NoRoom;
      Queries.AllocateAlignedCorrect(setup, W(), nbytes, alignment, cacheNo, grow);
      if alignment < ObjectSize(setup.cfg, 0) { return Null, false; }
      if !Queries.PowerOf2(alignment) { return Null, false; }
      if alignment > ChunkSize(setup.cfg) { return Null, false; }
      if nbytes % alignment != 0 { return Null, false; }
      o, outside := Allocate(nbytes, cacheNo, grow);
    }

    /** `priv_deallocate_small_object`. */
    method DeallocateSmallObject(p: nat, binNo: nat, cacheNo: nat)
      requires Valid() && cacheNo < |caches| && p in small
      requires ChunkOf(setup.cfg, p) < |G().table| && G().table[ChunkOf(setup.cfg, p)] != Unused
      requires binNo == G().table[ChunkOf(setup.cfg, p)].bin
      modifies this, bins, chunks, chunks.table, caches
      ensures Shape() && CachesValid() && chunks.table == old(chunks.table)
      ensures W() == DeallocateSmall(setup, old(W()), p, cacheNo)
    {
      hide O.ObjectCache.Valid, O.ObjectCache.Queue, O.ObjectCache.Lists, CD.ChunkDirectory.Valid,
        CD.ChunkDirectory.View, Queues, QueuesOf, Accounts, Consistent, PushObject, FreeAll, InvBut, BinFor, Holds,
        ChunkOf, Slotted;
      SmallChunk(setup, W(), p);
      if binNo <= setup.maxBin {
        ConsistentCache(setup, W(), cacheNo);
        PushToCache(caches[cacheNo], binNo, At(p));
        OneCacheChanged(cacheNo);
      } else {
        SingleHolds(setup.cfg, G().table, binNo, p);
        DeallocateFromGlobal(binNo, [At(p)]);
      }
      small := small - {p};
    }

    /** `deallocate`. */
    method Deallocate(o: Offset, cacheNo: nat)
      requires Valid() && cacheNo < |caches| && (o.At? ==> o.pos in small || o.pos in large)
      modifies this, bins, chunks, chunks.table, caches
      ensures Valid() && chunks.table == old(chunks.table)
      ensures W() == Allocator.Deallocate(setup, old(W()), o, cacheNo)
    {
      hide O.ObjectCache.Valid, O.ObjectCache.Queue, O.ObjectCache.Lists, CD.EntriesValid, CD.TableOf, LastUsed,
           Queues, QueuesOf, Accounts, DeallocateSmall, InvBut, BinFor, ChunkOf, ChunkTable.Erase;
      DeallocateCorrect(setup, W(), o, cacheNo);
      if o == Null { return; }
      DeallocateBranch(setup, W(), o.pos);
      var chunkNo := ChunkOf(setup.cfg, o.pos);
      CD.KindOf(setup.cfg, chunks.table[..], chunkNo);
      var binNo := chunks.table[chunkNo].binNo;
      if binNo < SmallBins(setup.cfg) {
        DeallocateSmallObject(o.pos, binNo, cacheNo);
      } else {
        LargeChunk(setup, W(), o.pos);
        DeallocateLargeObject(chunkNo);
        large := large - {o.pos};
      }
    }

    /** `priv_clear_object_cache`. */
    method ClearObjectCache()
      requires Valid()
      modifies this, bins, chunks, chunks.table, caches
      ensures Valid() && chunks.table == old(chunks.table)
      ensures W() == Runs.FlushAll(setup, old(W()))
    {
      hide O.ObjectCache.Valid, O.ObjectCache.Queue, O.ObjectCache.Lists, CD.ChunkDirectory.Valid,
        CD.ChunkDirectory.View, Queues, QueuesOf, Accounts, Consistent, InvBut, Flush, Runs.FlushFrom;
      ghost var goal := Runs.FlushFrom(setup, W(), 0);
      var i := 0;
      while i < |caches|
        invariant 0 <= i <= |caches| && Valid() && chunks.table == old(chunks.table)
        invariant Runs.FlushFrom(setup, W(), i) == goal
      {
        FlushStep(setup, W(), i);
        ConsistentCache(setup, W(), i);
        label Before:
        FlushOneCache(caches[i]);
        OneCacheChanged@Before(i);
        i := i + 1;
      }
      FlushEnd(setup, W());
    }

    // ---------- Is everything deallocated? ---------- //

    /** The offsets of all marked slots. */
    method MarkedOffsets() returns (offsets: set<nat>)
      requires Shape() && Inv(setup.cfg, G())
      ensures offsets == MarkedSet(setup.cfg, G().table)
    {
      hide CD.EntriesValid, CD.TableOf, LastUsed, InvBut, MarkedSet, OffsetOf, InBuffer;
      var marked := chunks.GetAllMarkedSlots();
      offsets := {};
      var i := 0;
      NoneInBuffer(setup.cfg, marked);
      while i < |marked|
        invariant 0 <= i <= |marked| && InBuffer(setup.cfg, marked[..i], offsets)
      {
        OneInBuffer(setup.cfg, marked, i, offsets);
        offsets := offsets + {OffsetOf(setup.cfg, marked[i].chunk, marked[i].bin, marked[i].slot)};
        i := i + 1;
      }
      assert marked[..i] == marked;
      BufferIsAll(setup.cfg, chunks.View(), marked, offsets);
    }

    /** The inner loop over the objects of one bin of one cache. */
    method TickBin(cache: O.ObjectCache, b: nat, left: set<nat>, ghost all: set<nat>, ghost p: seq<Offset>,
            ghost total: seq<Offset>)
      returns (ok: bool, rest: set<nat>)
      requires CacheFits(setup, cache) && b <= setup.maxBin && Queries.Ticked(all, p, left)
      requires forall k :: 0 <= k <= |O.Reverse(Stack(cache.Queue(), b))| ==>
                 p + O.Reverse(Stack(cache.Queue(), b))[..k] <= total
      ensures ok ==> Queries.Ticked(all, p + O.Reverse(Stack(cache.Queue(), b)), rest)
      ensures !ok ==> !Queries.TickOff(all, total)
    {
      hide Bytes, O.ObjectCache.Queue, O.ObjectCache.Lists, Queries.Ticked, Queries.TickOff, Stack;
      var visited := cache.VisitBin(b);
      rest := left;
      var k := 0;
      assert p + visited[..0] == p;
      while k < |visited|
        invariant 0 <= k <= |visited| && Queries.Ticked(all, p + visited[..k], rest)
      {
        var o := visited[k];
        assert visited[..k + 1] == visited[..k] + [o];
        assert p + visited[..k + 1] == (p + visited[..k]) + [o];
        if o == Null || o.pos !in rest {
          Queries.TickedFails(all, p + visited[..k], rest, o, total);
          return false, rest;
        }
        Queries.TickedStep(all, p + visited[..k], rest, o);
        rest := rest - {o.pos};
        k := k + 1;
      }
      assert visited[..k] == visited;
      ok := true;
    }

    /** The bins of one cache. */
    method TickCache(c: nat, left: set<nat>, ghost all: set<nat>) returns (ok: bool, rest: set<nat>)
      requires CachesValid() && c < |caches| && Queries.Ticked(all, Queries.VisitCaches(setup, Queues()[..c]), left)
      ensures ok ==> Queries.Ticked(all, Queries.VisitCaches(setup, Queues()[..c + 1]), rest)
      ensures !ok ==> !Queries.TickOff(all, Queries.VisitCaches(setup, Queues()))
    {
      hide O.ObjectCache.Valid, O.ObjectCache.Queue, O.ObjectCache.Lists, Queues, QueuesOf, Queries.Ticked,
        Queries.TickOff, Queries.VisitCaches, Stack;
      ghost var q, before := Queues()[c], Queries.VisitCaches(setup, Queues()[..c]);
      ghost var total := Queries.VisitCaches(setup, Queues());
      rest := left;
      ok := true;
      var b := 0;
      assert before + Queries.VisitBins(q, 0) == before;
      while b <= setup.maxBin
        invariant 0 <= b <= setup.maxBin + 1 && Queries.Ticked(all, before + Queries.VisitBins(q, b), rest)
      {
        ghost var p := before + Queries.VisitBins(q, b);
        forall k | 0 <= k <= |O.Reverse(Stack(q, b))| ensures p + O.Reverse(Stack(q, b))[..k] <= total {
          Queries.VisitedSoFar(setup, Queues(), c, b, k);
        }
        ok, rest := TickBin(caches[c], b, rest, all, p, total);
        if !ok { return; }
        assert p + O.Reverse(Stack(q, b)) == before + Queries.VisitBins(q, b + 1);
        b := b + 1;
      }
      Queries.VisitOneMore(setup, Queues(), c);
    }

    /** `priv_check_all_small_allocations_are_cached_without_lock`. */
    method AllSmallAllocationsAreCached() returns (ok: bool)
      requires Valid()
      ensures ok == Queries.TickOff(MarkedSet(setup.cfg, G().table), Queries.VisitCaches(setup, Queues()))
    {
      hide O.ObjectCache.Valid, O.ObjectCache.Queue, O.ObjectCache.Lists, CD.ChunkDirectory.Valid,
        CD.ChunkDirectory.View, Queues, QueuesOf, Accounts, InvBut, Queries.Ticked, Queries.TickOff,
        Queries.VisitCaches, MarkedSet;
      var smallAllocs := MarkedOffsets();
      ghost var all := smallAllocs;
      var c := 0;
      TickedNone(setup, Queues(), all);
      while c < |caches|
        invariant 0 <= c <= |caches| && Queries.Ticked(all, Queries.VisitCaches(setup, Queues()[..c]), smallAllocs)
      {
        ok, smallAllocs := TickCache(c, smallAllocs, all);
        if !ok { return; }
        c := c + 1;
      }
      assert Queues()[..c] == Queues();
      Queries.TickedEnd(all, Queries.VisitCaches(setup, Queues()), smallAllocs);
      ok := smallAllocs == {};
    }

    /** `all_memory_deallocated`. */
    method AllMemoryDeallocated() returns (yes: bool)
      requires Valid()
      ensures yes == Queries.AllMemoryDeallocated(setup, W())
      ensures yes <==> && small == map[] && large == map[]
                       && (NoNulls(Queries.VisitCaches(setup, W().caches)) || Runs.AllFree(W().g.table))
    {
      hide O.ObjectCache.Valid, O.ObjectCache.Queue, O.ObjectCache.Lists, CD.EntriesValid, CD.TableOf,
           Queues, QueuesOf, Accounts, InvBut, Queries.TickOff, Queries.VisitCaches, MarkedSet, LastUsed;
      Queries.AllDeallocatedMeans(setup, W());
      if chunks.Size() == 0 { return true; }
      yes := AllSmallAllocationsAreCached();
      if !yes { return; }
      var numLarge := chunks.NumUsedLargeChunks();
      HeadsAndBodies(setup.cfg, chunks.View());
      yes := numLarge == 0;
    }

    // ---------- Saving and restoring ---------- //

    /** `serialize`: the caches are flushed, then both directories are written. */
    method Serialize() returns (binText: string, chunkText: string)
      requires Valid()
      modifies this, bins, chunks, chunks.table, caches
      ensures Valid() && chunks.table == old(chunks.table) && W() == Runs.FlushAll(setup, old(W()))
      ensures MarkedSet(setup.cfg, G().table) == small.Keys && small == old(small) && large == old(large)
      ensures binText == BD.SaveBins(bins.table) && chunkText == CD.SaveChunks(chunks.table[..])
    {
      hide O.ObjectCache.Valid, O.ObjectCache.Queue, O.ObjectCache.Lists, CD.EntriesValid, CD.TableOf, LastUsed,
           Queues, QueuesOf, Accounts, InvBut, MarkedSet, Runs.FlushFrom, AllCached;
      Runs.FlushAllCorrect(setup, W());
      ClearObjectCache();
      binText := bins.Serialize();
      chunkText := chunks.Serialize();
    }

    /** Nothing has been allocated or restored yet. */
    ghost predicate Untouched()
      reads bins, chunks, chunks.table, caches
    {
      && Shape() && CachesValid() && chunks.lastUsedChunkNo == -1
      && (forall c :: 0 <= c < chunks.table.Length ==> chunks.table[c] == CD.INIT)
      && (forall b :: 0 <= b < |bins.table| ==> bins.table[b] == [])
      && forall i :: 0 <= i < |caches| ==> Queues()[i] == []
    }

    /** `deserialize` into a fresh allocator of what `serialize` wrote for entries es and the world w:
        the state of that allocator is back. */
    method Deserialize(binText: string, chunkText: string, ghost es: seq<CD.Entry>, ghost w: World) returns (ok: bool)
      requires Untouched() && Persistence.SizeFits(setup.cfg) && WorldOk(setup, w) && segment == w.g.segment
      requires |w.caches| == |caches| && forall i :: 0 <= i < |w.caches| ==> w.caches[i] == []
      requires CD.EntriesValid(setup.cfg, es) && w.g.table == CD.TableOf(setup.cfg, es)
      requires binText == BD.SaveBins(w.g.lists) && chunkText == CD.SaveChunks(es)
      modifies this`small, this`large, bins, chunks, chunks.table
      ensures ok && Valid() && W() == w
    {
      hide O.ObjectCache.Valid, O.ObjectCache.Queue, O.ObjectCache.Lists, CD.EntriesValid, CD.TableOf, LastUsed,
           Queues, QueuesOf, Accounts, InvBut, BD.SaveBins, BD.LoadBins, CD.SaveChunks, CD.LoadChunks, TableOk;
      Persistence.DirectoriesRoundTrip(setup.cfg, w.g, es);
      assert bins.table == BD.Padded([], |w.g.lists|);
      ok := bins.Deserialize(binText);
      if !ok { return; }
      assert chunks.table[..] == CD.Reread([], |es|);
      ok := chunks.Deserialize(chunkText);
      small, large := w.small, w.large;
      assert Queues() == w.caches;
    }
  }

  /** A new allocator that reads what was written for entries es and the world w, in which nothing is cached. */
  method Reopen(setup: Setup, numCaches: nat, segment: nat, binText: string, chunkText: string,
                ghost es: seq<CD.Entry>, ghost w: World) returns (b: SegmentAllocator)
    requires Persistence.SizeFits(setup.cfg) && WorldOk(setup, w) && segment == w.g.segment
    requires w.caches == seq(numCaches, _ => [])
    requires CD.EntriesValid(setup.cfg, es) && w.g.table == CD.TableOf(setup.cfg, es)
    requires binText == BD.SaveBins(w.g.lists) && chunkText == CD.SaveChunks(es)
    ensures fresh(b) && b.Valid() && b.setup == setup && b.W() == w
  {
    hide O.ObjectCache.Valid, O.ObjectCache.Queue, O.ObjectCache.Lists, CD.EntriesValid, CD.TableOf, LastUsed, Limit,
         SegmentAllocator.Queues, QueuesOf, Accounts, InvBut, BD.SaveBins, CD.SaveChunks;
    BelowLimit(setup, w);
    b := new SegmentAllocator(setup, numCaches, segment);
    var ok := b.Deserialize(binText, chunkText, es, w);
  }

  /** Closing and opening again: what `serialize` writes for any consistent allocator is read back by a new one
      on the same segment, with any number of caches. The new allocator holds for the client exactly what the
      old one did, with the same chunk table and the same lists, and nothing is cached. */
  method SaveAndRestore(a: SegmentAllocator, numCaches: nat) returns (b: SegmentAllocator)
    requires a.Valid() && Persistence.SizeFits(a.setup.cfg)
    modifies a, a.bins, a.chunks, a.chunks.table, a.caches
    ensures fresh(b) && b.Valid() && b.setup == a.setup
    ensures a.Valid() && a.W() == Runs.FlushAll(a.setup, old(a.W()))
    ensures b.W() == a.W().(caches := seq(numCaches, _ => []))
    ensures b.small == old(a.small) && b.large == old(a.large)
    ensures MarkedSet(b.setup.cfg, b.W().g.table) == b.small.Keys
  {
    hide O.ObjectCache.Valid, O.ObjectCache.Queue, O.ObjectCache.Lists, CD.EntriesValid, CD.TableOf, LastUsed,
         SegmentAllocator.Queues, QueuesOf, Accounts, InvBut, BD.SaveBins, CD.SaveChunks, MarkedSet, Runs.FlushFrom;
    Runs.FlushedCaches(a.setup, a.W());
    var binText, chunkText := a.Serialize();
    Persistence.OtherCaches(a.setup, a.W(), numCaches);
    ghost var w := a.W().(caches := seq(numCaches, _ => []));
    b := Reopen(a.setup, numCaches, a.segment, binText, chunkText, a.chunks.table[..], w);
  }

  /** The offsets of the slots found go to the next places of the output array. */
  method StoreOffsets(cfg: Config, offsets: seq<Offset>, cnt: nat, chunkNo: nat, binNo: nat, slots: seq<nat>)
    returns (r: seq<Offset>)
    requires ValidConfig(cfg) && cnt + |slots| <= |offsets| && offsets[cnt..] == Nulls(|offsets| - cnt)
    ensures |r| == |offsets| && r[..cnt + |slots|] == offsets[..cnt] + OffsetsOf(cfg, chunkNo, binNo, slots)
    ensures r[cnt + |slots|..] == Nulls(|offsets| - cnt - |slots|)
  {
    hide OffsetOf, ValidConfig;
    r := offsets;
    var i := 0;
    while i < |slots|
      invariant 0 <= i <= |slots| && |r| == |offsets|
      invariant r[..cnt] == offsets[..cnt] && r[cnt + i..] == offsets[cnt + i..]
      invariant forall k :: 0 <= k < i ==> r[cnt + k] == At(OffsetOf(cfg, chunkNo, binNo, slots[k]))
    {
      r := r[cnt + i := At(OffsetOf(cfg, chunkNo, binNo, slots[i]))];
      i := i + 1;
    }
    assert r[..cnt + i] == r[..cnt] + r[cnt..cnt + i];
    assert r[cnt..cnt + i] == OffsetsOf(cfg, chunkNo, binNo, slots);
    assert offsets[cnt + i..] == offsets[cnt..][i..];
    assert Nulls(|offsets| - cnt)[i..] == Nulls(|offsets| - cnt - i);
  }

  lemma ManySlots(cfg: Config, g: Global, b: nat, n: nat, slots: seq<nat>)
    requires ValidConfig(cfg) && Ready(cfg, g, b)
             && slots == FirstFree(g.table[g.lists[b][0]].marked, Take(cfg, g, b, n))
    ensures var c := g.lists[b][0];
            var marked := g.table[c].marked + Elements(slots);
            && MarkFront(cfg, g, b, n).0 == OffsetsOf(cfg, c, b, slots)
            && MarkFront(cfg, g, b, n).1 ==
                 Global(g.table[c := Small(b, marked)],
                        if |marked| == Slots(cfg, b) then g.lists[b := g.lists[b][1..]] else g.lists, g.segment)
  {
    hide Slots, FirstFree, OffsetOf;
  }

  lemma OneSlot(cfg: Config, g: Global, b: nat, slot: nat)
    requires ValidConfig(cfg) && Ready(cfg, g, b) && slot == LeastFree(g.table[g.lists[b][0]].marked)
    ensures var c := g.lists[b][0];
            var marked := g.table[c].marked + {slot};
            && MarkFront(cfg, g, b, 1).0 == [At(OffsetOf(cfg, c, b, slot))]
            && MarkFront(cfg, g, b, 1).1 ==
                 Global(g.table[c := Small(b, marked)],
                        if |marked| == Slots(cfg, b) then g.lists[b := g.lists[b][1..]] else g.lists, g.segment)
  {
    hide Slots, LeastFree, ObjectSize;
    var c := g.lists[b][0];
    assert FirstFree(g.table[c].marked, 1) == [slot];
    ElementsOne(slot);
  }
}
