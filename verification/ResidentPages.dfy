/** Over any run, a page stays with the process only while something in use lies on it. */
module ResidentPages {
  import opened ChunkTable
  import opened BlockQueue
  import opened Ledger
  import opened GlobalAllocator
  import opened LargeAllocation
  import opened PageRelease
  import S = SizeClasses
  import U = Utilities

  /** The page size, and the smallest object size for which freed slots are released. */
  datatype Paging = Paging(page: nat, hint: nat)

  /** Freed slots of this bin are released page by page. */
  ghost predicate Released(cfg: Config, pg: Paging, b: nat)
    requires ValidConfig(cfg)
  {
    2 * pg.page <= ObjectSize(cfg, b) && pg.hint <= ObjectSize(cfg, b)
  }

  /** A chunk is a whole number of pages. */
  ghost predicate ValidPaging(cfg: Config, pg: Paging) {
    ValidConfig(cfg) && pg.page > 0 && ChunkSize(cfg) % pg.page == 0
  }

  /** Where page q starts. */
  function PageStart(pg: Paging, q: nat): nat { U.Prod(q, pg.page) }

  ghost predicate OnPage(pg: Paging, q: nat, begin: int, end: int) {
    Overlaps(PageStart(pg, q), PageStart(pg, q) + pg.page, begin, end)
  }

  ghost predicate InRange(pg: Paging, q: nat, begin: int, end: int) {
    begin <= PageStart(pg, q) && PageStart(pg, q) + pg.page <= end
  }

  /** The marked slot at p keeps the page: it lies on it, or it is of a bin that is only released chunk by chunk. */
  ghost predicate KeptBy(cfg: Config, pg: Paging, t: Table, q: nat, p: nat, b: nat)
    requires ValidConfig(cfg)
  {
    && Slotted(cfg, t, p, b)
    && (OnPage(pg, q, p, p + ObjectSize(cfg, b))
       || (!Released(cfg, pg, b) && ChunkOf(cfg, PageStart(pg, q)) == ChunkOf(cfg, p)))
  }

  ghost predicate InLarge(cfg: Config, pg: Paging, t: Table, q: nat) {
    var c := ChunkOf(cfg, PageStart(pg, q));
    c < |t| && (t[c].Head? || t[c].Body?)
  }

  ghost predicate PageOk(cfg: Config, pg: Paging, t: Table, q: nat)
    requires ValidConfig(cfg)
  {
    InLarge(cfg, pg, t, q) || exists p: nat, b: nat :: KeptBy(cfg, pg, t, q, p, b)
  }

  ghost predicate PagesOk(cfg: Config, pg: Paging, t: Table, resident: set<nat>)
    requires ValidConfig(cfg)
  {
    forall q :: q in resident ==> PageOk(cfg, pg, t, q)
  }

  // ---------- Operations, with what they release ---------- //

  /** The bytes released when the slot at o is freed: the chunk if it becomes empty, or the range about the slot. */
  ghost function ReleasedRange(cfg: Config, pg: Paging, t: Table, b: nat, o: nat): Range
    requires ValidConfig(cfg) && pg.page > 0 && Slotted(cfg, t, o, b)
  {
    var c, k := ChunkOf(cfg, o), SlotOf(cfg, b, o);
    var rest := t[c].marked - {k};
    if |t[c].marked| != Slots(cfg, b) && rest == {} then Range(ChunkStart(cfg, c), ChunkStart(cfg, c) + ChunkSize(cfg))
    else FreeRange(pg.page, pg.hint, ChunkStart(cfg, c), ObjectSize(cfg, b), k, rest)
  }

  ghost function Without(pg: Paging, resident: set<nat>, r: Range): set<nat> {
    if r.Nothing? then resident else set q | q in resident && !InRange(pg, q, r.begin, r.end)
  }

  lemma SlotChunk(cfg: Config, pg: Paging, c: nat, b: nat, k: nat)
    requires ValidPaging(cfg, pg) && b < SmallBins(cfg) && k < Slots(cfg, b) && Released(cfg, pg, b)
    ensures Aligned(pg.page, ChunkStart(cfg, c), ChunkSize(cfg), ObjectSize(cfg, b), Slots(cfg, b))
    ensures OffsetOf(cfg, c, b, k) == ChunkStart(cfg, c) + k * ObjectSize(cfg, b)
  {
    hide ObjectSize, Slots, ChunkSize, OffsetOf, ChunkStart;
    SlotsFit(cfg, b);
    ChunkOnPages(cfg, pg, c);
    OffsetIs(cfg, c, b, k);
  }

  lemma OffsetIs(cfg: Config, c: nat, b: nat, k: nat)
    requires ValidConfig(cfg)
    ensures OffsetOf(cfg, c, b, k) == ChunkStart(cfg, c) + k * ObjectSize(cfg, b)
  {
    hide ObjectSize, ChunkSize;
    Commutes(ObjectSize(cfg, b), k);
  }

  lemma Commutes(a: nat, b: nat)
    ensures a * b == b * a
  {}

  /** A chunk starts and ends on page boundaries. */
  lemma ChunkOnPages(cfg: Config, pg: Paging, c: nat)
    requires ValidPaging(cfg, pg)
    ensures ChunkStart(cfg, c) % pg.page == 0 && (ChunkStart(cfg, c) + ChunkSize(cfg)) % pg.page == 0
  {
    hide ChunkSize, Slots, ObjectSize;
    ModTimes(ChunkSize(cfg), c, pg.page);
    ModSum(ChunkStart(cfg, c), ChunkSize(cfg), pg.page);
  }

  lemma ModTimes(a: nat, n: nat, p: nat)
    requires p > 0 && a % p == 0
    ensures (a * n) % p == 0
  {
    MultipleIsMod(a, p);
    MultipleIsMod(a * n, p);
    var e: int :| a == e * p;
    assert a * n == (e * n) * p;
  }

  lemma ModSum(a: nat, b: nat, p: nat)
    requires p > 0 && a % p == 0 && b % p == 0
    ensures (a + b) % p == 0
  {
    MultipleIsMod(a, p);
    MultipleIsMod(b, p);
    MultipleIsMod(a + b, p);
    var e: int :| a == e * p;
    var f: int :| b == f * p;
    assert a + b == (e + f) * p;
  }

  /** A page on which an object of chunk c lies is inside chunk c. */
  lemma PageOfChunk(cfg: Config, pg: Paging, q: nat, c: nat, begin: int, end: int)
    requires ValidPaging(cfg, pg) && OnPage(pg, q, begin, end)
    requires ChunkStart(cfg, c) <= begin && end <= ChunkStart(cfg, c) + ChunkSize(cfg)
    ensures InRange(pg, q, ChunkStart(cfg, c), ChunkStart(cfg, c) + ChunkSize(cfg))
            && ChunkOf(cfg, PageStart(pg, q)) == c
  {
    hide Slots, ObjectSize, ChunkSize;
    ChunkOnPages(cfg, pg, c);
    PageInside(pg.page, q, ChunkStart(cfg, c), ChunkStart(cfg, c) + ChunkSize(cfg));
    SplitOffset(ChunkSize(cfg), c, PageStart(pg, q) - ChunkStart(cfg, c));
  }

  lemma PageInside(P: nat, q: nat, lo: nat, hi: nat)
    requires P > 0 && lo % P == 0 && hi % P == 0 && q * P < hi && lo < q * P + P
    ensures lo <= q * P && q * P + P <= hi
  {
    MultipleIsMod(lo, P);
    MultipleIsMod(hi, P);
    assert Multiple(q * P, P);
    if q * P < lo { MultiplesApart(q * P, lo, P); }
    MultiplesApart(q * P, hi, P);
  }

  /** And a page whose number says chunk c is inside chunk c. */
  lemma PageInItsChunk(cfg: Config, pg: Paging, q: nat)
    requires ValidPaging(cfg, pg)
    ensures var c := ChunkOf(cfg, PageStart(pg, q));
            InRange(pg, q, ChunkStart(cfg, c), ChunkStart(cfg, c) + ChunkSize(cfg))
  {
    hide Slots, ObjectSize, ChunkSize;
    var C, c := ChunkSize(cfg), ChunkOf(cfg, PageStart(pg, q));
    S.QuotientBounds(PageStart(pg, q), C);
    Commutes(c, C);
    ChunkOnPages(cfg, pg, c);
    PageInside(pg.page, q, ChunkStart(cfg, c), ChunkStart(cfg, c) + C);
  }

  // ---------- Freeing a slot ---------- //

  /** What is still marked after the slot at o is freed. */
  lemma FreeFacts(cfg: Config, g: Global, b: nat, o: nat)
    requires Inv(cfg, g) && b < SmallBins(cfg) && Slotted(cfg, g.table, o, b)
    ensures var u := FreeOne(cfg, g, b, At(o)).table;
            && SameLarge(g.table, u)
            && (forall p: nat, a: nat :: Slotted(cfg, g.table, p, a) && p != o ==> Slotted(cfg, u, p, a))
  {
    hide Slotted, MarkedSet, TableOk, FreeOne, InvBut, SameLarge;
    FreeTable(cfg, g, b, o);
    var u := FreeOne(cfg, g, b, At(o)).table;
    forall p: nat, a: nat | Slotted(cfg, g.table, p, a) && p != o ensures Slotted(cfg, u, p, a) {
      SlottedMarked(cfg, g.table, p, a);
    }
  }

  /** The other marked slots of the chunk stay marked when the chunk stays. */
  lemma NeighbourStays(cfg: Config, g: Global, b: nat, o: nat, j: nat)
    requires Inv(cfg, g) && b < SmallBins(cfg) && Slotted(cfg, g.table, o, b)
    requires j in g.table[ChunkOf(cfg, o)].marked && j != SlotOf(cfg, b, o)
    ensures var p := OffsetOf(cfg, ChunkOf(cfg, o), b, j);
            && Slotted(cfg, FreeOne(cfg, g, b, At(o)).table, p, b) && ChunkOf(cfg, p) == ChunkOf(cfg, o)
            && j < Slots(cfg, b)
  {
    hide MarkedSet, TableOk, FreeOne, InvBut, OffsetOf, SlotOf, ChunkOf, Slots;
    var c := ChunkOf(cfg, o);
    EntryFromTable(cfg, g.table, c);
    Decode(cfg, c, b, j);
    assert Slotted(cfg, g.table, OffsetOf(cfg, c, b, j), b);
    FreeFacts(cfg, g, b, o);
  }

  lemma FreePage(cfg: Config, pg: Paging, g: Global, b: nat, o: nat, q: nat)
    requires ValidPaging(cfg, pg) && Inv(cfg, g) && b < SmallBins(cfg) && Slotted(cfg, g.table, o, b)
    requires KeptBy(cfg, pg, g.table, q, o, b)
    ensures var r := ReleasedRange(cfg, pg, g.table, b, o);
            (r.Range? && InRange(pg, q, r.begin, r.end)) || PageOk(cfg, pg, FreeOne(cfg, g, b, At(o)).table, q)
  {
    hide MarkedSet, TableOk, FreeOne, InvBut, OffsetOf, SlotOf, Slots, ObjectSize, FreeRange, ChunkSize, InRange,
      OnPage, ChunkOf, ListsOk, InSegment, Erase;
    var c, k := ChunkOf(cfg, o), SlotOf(cfg, b, o);
    var rest := g.table[c].marked - {k};
    SlottedFacts(cfg, g.table, o, b);
    Decode(cfg, c, b, k);
    if |g.table[c].marked| != Slots(cfg, b) && rest == {} {
      WholeChunk(cfg, pg, q, c, b, k);
    } else if !Released(cfg, pg, b) {
      SomeoneStays(cfg, g, b, o);
      var j :| j in rest;
      NeighbourStays(cfg, g, b, o, j);
      OnlyChunk(cfg, pg, q, c, b, k);
      assert KeptBy(cfg, pg, FreeOne(cfg, g, b, At(o)).table, q, OffsetOf(cfg, c, b, j), b);
    } else {
      PageByPage(cfg, pg, g, b, o, q);
    }
  }

  lemma WholeChunk(cfg: Config, pg: Paging, q: nat, c: nat, b: nat, k: nat)
    requires ValidPaging(cfg, pg) && b < SmallBins(cfg) && k < Slots(cfg, b)
    requires OnPage(pg, q, OffsetOf(cfg, c, b, k), OffsetOf(cfg, c, b, k) + ObjectSize(cfg, b))
             || ChunkOf(cfg, PageStart(pg, q)) == c
    ensures InRange(pg, q, ChunkStart(cfg, c), ChunkStart(cfg, c) + ChunkSize(cfg))
  {
    hide ObjectSize, Slots, ChunkSize, InRange, OnPage, ChunkOf;
    if ChunkOf(cfg, PageStart(pg, q)) == c {
      PageInItsChunk(cfg, pg, q);
    } else {
      Decode(cfg, c, b, k);
      PageOfChunk(cfg, pg, q, c, OffsetOf(cfg, c, b, k), OffsetOf(cfg, c, b, k) + ObjectSize(cfg, b));
    }
  }

  lemma OnlyChunk(cfg: Config, pg: Paging, q: nat, c: nat, b: nat, k: nat)
    requires ValidPaging(cfg, pg) && b < SmallBins(cfg) && k < Slots(cfg, b)
    requires OnPage(pg, q, OffsetOf(cfg, c, b, k), OffsetOf(cfg, c, b, k) + ObjectSize(cfg, b))
             || ChunkOf(cfg, PageStart(pg, q)) == c
    ensures ChunkOf(cfg, PageStart(pg, q)) == c
  {
    hide ObjectSize, Slots, ChunkSize, InRange, OnPage, ChunkOf;
    if ChunkOf(cfg, PageStart(pg, q)) != c {
      Decode(cfg, c, b, k);
      PageOfChunk(cfg, pg, q, c, OffsetOf(cfg, c, b, k), OffsetOf(cfg, c, b, k) + ObjectSize(cfg, b));
    }
  }

  /** A full chunk has a second marked slot. */
  lemma SomeoneStays(cfg: Config, g: Global, b: nat, o: nat)
    requires Inv(cfg, g) && b < SmallBins(cfg) && Slotted(cfg, g.table, o, b)
    ensures var c := ChunkOf(cfg, o);
            |g.table[c].marked| == Slots(cfg, b) ==> g.table[c].marked - {SlotOf(cfg, b, o)} != {}
  {
    hide TableOk, InvBut, OffsetOf, SlotOf, Slots, ChunkOf;
    TwoSlots(cfg, b);
    var m, k := g.table[ChunkOf(cfg, o)].marked, SlotOf(cfg, b, o);
    if |m| == Slots(cfg, b) { assert |m - {k}| == |m| - 1; }
  }

  lemma PageByPage(cfg: Config, pg: Paging, g: Global, b: nat, o: nat, q: nat)
    requires ValidPaging(cfg, pg) && Inv(cfg, g) && b < SmallBins(cfg) && Slotted(cfg, g.table, o, b)
    requires Released(cfg, pg, b) && OnPage(pg, q, o, o + ObjectSize(cfg, b))
    ensures var c, k := ChunkOf(cfg, o), SlotOf(cfg, b, o);
            var r := FreeRange(pg.page, pg.hint, ChunkStart(cfg, c), ObjectSize(cfg, b), k, g.table[c].marked - {k});
            (r.Range? && InRange(pg, q, r.begin, r.end)) || PageOk(cfg, pg, FreeOne(cfg, g, b, At(o)).table, q)
  {
    hide MarkedSet, TableOk, FreeOne, InvBut, SlotOf, Slots, ObjectSize, FreeRange, ChunkSize, ChunkOf, OffsetOf,
      ListsOk, InSegment, Aligned, SlotOn, PageOk;
    var c, k := ChunkOf(cfg, o), SlotOf(cfg, b, o);
    var C, size, n := ChunkSize(cfg), ObjectSize(cfg, b), Slots(cfg, b);
    var rest := g.table[c].marked - {k};
    SlottedFacts(cfg, g.table, o, b);
    SlotChunk(cfg, pg, c, b, k);
    SlotOnPage(cfg, pg, q, c, b, k);
    assert Multiple(PageStart(pg, q), pg.page);
    RangeComplete(pg.page, pg.hint, ChunkStart(cfg, c), C, size, n, k, rest, PageStart(pg, q));
    if k + 1 in rest && SlotOn(pg.page, PageStart(pg, q), ChunkStart(cfg, c), size, k + 1) {
      NeighbourKeeps(cfg, pg, g, b, o, q, k + 1);
    } else if k >= 1 && k - 1 in rest && SlotOn(pg.page, PageStart(pg, q), ChunkStart(cfg, c), size, k - 1) {
      NeighbourKeeps(cfg, pg, g, b, o, q, k - 1);
    }
  }

  lemma SlotOnPage(cfg: Config, pg: Paging, q: nat, c: nat, b: nat, k: nat)
    requires ValidConfig(cfg)
    ensures OnPage(pg, q, OffsetOf(cfg, c, b, k), OffsetOf(cfg, c, b, k) + ObjectSize(cfg, b)) <==>
            SlotOn(pg.page, PageStart(pg, q), ChunkStart(cfg, c), ObjectSize(cfg, b), k)
  {
    hide ObjectSize;
    assert ObjectSize(cfg, b) * k == k * ObjectSize(cfg, b);
  }

  lemma NeighbourKeeps(cfg: Config, pg: Paging, g: Global, b: nat, o: nat, q: nat, j: nat)
    requires ValidPaging(cfg, pg) && Inv(cfg, g) && b < SmallBins(cfg) && Slotted(cfg, g.table, o, b)
    requires j in g.table[ChunkOf(cfg, o)].marked && j != SlotOf(cfg, b, o)
    requires SlotOn(pg.page, PageStart(pg, q), ChunkStart(cfg, ChunkOf(cfg, o)), ObjectSize(cfg, b), j)
    ensures PageOk(cfg, pg, FreeOne(cfg, g, b, At(o)).table, q)
  {
    hide MarkedSet, TableOk, FreeOne, InvBut, SlotOf, Slots, ObjectSize, ChunkSize, ChunkOf, OffsetOf, ListsOk,
      InSegment, SlotOn, OnPage;
    NeighbourStays(cfg, g, b, o, j);
    SlotOnPage(cfg, pg, q, ChunkOf(cfg, o), b, j);
    assert KeptBy(cfg, pg, FreeOne(cfg, g, b, At(o)).table, q, OffsetOf(cfg, ChunkOf(cfg, o), b, j), b);
  }

  /** Freeing a slot releases every page that nothing in use lies on any more. */
  lemma FreePages(cfg: Config, pg: Paging, g: Global, b: nat, o: nat, resident: set<nat>)
    requires ValidPaging(cfg, pg) && Inv(cfg, g) && b < SmallBins(cfg) && Slotted(cfg, g.table, o, b)
    requires PagesOk(cfg, pg, g.table, resident)
    ensures PagesOk(cfg, pg, FreeOne(cfg, g, b, At(o)).table,
            Without(pg, resident, ReleasedRange(cfg, pg, g.table, b, o)))
  {
    hide MarkedSet, TableOk, FreeOne, InvBut, ReleasedRange, OnPage, InRange, Slotted, ChunkOf, ValidConfig, ListsOk;
    var u := FreeOne(cfg, g, b, At(o)).table;
    var r := ReleasedRange(cfg, pg, g.table, b, o);
    FreeFacts(cfg, g, b, o);
    forall q | q in Without(pg, resident, r) ensures PageOk(cfg, pg, u, q) {
      assert PageOk(cfg, pg, g.table, q);
      if !InLarge(cfg, pg, g.table, q) {
        var p: nat, a: nat :| KeptBy(cfg, pg, g.table, q, p, a);
        if p == o {
          SameBin(cfg, g.table, o, a, b);
          FreePage(cfg, pg, g, b, o, q);
        } else {
          assert KeptBy(cfg, pg, u, q, p, a);
        }
      }
    }
  }

  lemma SameBin(cfg: Config, t: Table, o: nat, a: nat, b: nat)
    requires ValidConfig(cfg) && Slotted(cfg, t, o, a) && Slotted(cfg, t, o, b)
    ensures a == b
  {}

  /** What is freed with a slot is not empty, lies on page boundaries and inside the chunk, and holds no byte
      of a marked slot; the neighbour looked at is a slot of the chunk if the last slot ends on a page boundary. */
  lemma FreedRangeIsSafe(cfg: Config, pg: Paging, t: Table, b: nat, o: nat)
    requires ValidPaging(cfg, pg) && TableOk(cfg, t) && b < SmallBins(cfg) && Slotted(cfg, t, o, b)
             && Released(cfg, pg, b)
    ensures var c, k := ChunkOf(cfg, o), SlotOf(cfg, b, o);
            var C, size := ChunkSize(cfg), ObjectSize(cfg, b);
            var rest := t[c].marked - {k};
            var r := FreeRange(pg.page, pg.hint, ChunkStart(cfg, c), size, k, rest);
            && r.Range? && Multiple(r.begin, pg.page) && Multiple(r.end, pg.page)
            && ChunkStart(cfg, c) <= r.begin < r.end <= ChunkStart(cfg, c) + C
            && (forall j :: j in rest ==>
                  ChunkStart(cfg, c) + j * size + size <= r.begin || r.end <= ChunkStart(cfg, c) + j * size)
            && ((ChunkStart(cfg, c) + k * size) % pg.page != 0 ==> k >= 1)
            && ((ChunkStart(cfg, c) + k * size + size) % pg.page != 0 ==>
                  (ChunkStart(cfg, c) + Slots(cfg, b) * size) % pg.page != 0 || k + 1 < Slots(cfg, b))
  {
    hide FreeRange, SlotOf, Slots, ObjectSize, ChunkSize, ChunkOf, OffsetOf, Aligned, TableOk;
    var c, k := ChunkOf(cfg, o), SlotOf(cfg, b, o);
    var C, size, n := ChunkSize(cfg), ObjectSize(cfg, b), Slots(cfg, b);
    var rest := t[c].marked - {k};
    SlottedFacts(cfg, t, o, b);
    SlotChunk(cfg, pg, c, b, k);
    NeighbourExists(pg.page, ChunkStart(cfg, c), C, size, n, k);
    RangeBounds(pg.page, pg.hint, ChunkStart(cfg, c), C, size, n, k, rest);
    forall j | j in rest
      ensures var r := FreeRange(pg.page, pg.hint, ChunkStart(cfg, c), size, k, rest);
              ChunkStart(cfg, c) + j * size + size <= r.begin || r.end <= ChunkStart(cfg, c) + j * size
    {
      RangeSparesMarked(pg.page, pg.hint, ChunkStart(cfg, c), C, size, n, k, rest, j);
    }
  }

  /** The slot after a misaligned end exists for every slot of a chunk exactly when the last slot ends on a
      page boundary. */
  lemma LastSlotDecides(page: nat, start: nat, size: nat, n: nat)
    requires page > 0 && n >= 1
    ensures (forall k :: 0 <= k < n && (start + k * size + size) % page != 0 ==> k + 1 < n) <==>
            (start + n * size) % page == 0
  {
    var last := n - 1;
    assert n * size == last * size + size;
  }

  /** It does not for 64 KiB pages in chunks of 2 MiB cut into nine objects of 224 KiB: the slot after the
      last one is looked at, which does not exist. */
  lemma LastSlotMisaligned(cfg: Config, c: nat)
    requires ValidConfig(cfg) && cfg.m == 21
    ensures var b, pg := 59, Paging(65536, 0);
            && b < SmallBins(cfg) && ObjectSize(cfg, b) == 229376 && Slots(cfg, b) == 9
            && ValidPaging(cfg, pg) && Released(cfg, pg, b)
            && (ChunkStart(cfg, c) + Slots(cfg, b) * ObjectSize(cfg, b)) % pg.page != 0
  {
    assert U.Pow2(21) == 2097152 && U.Pow2(17) == 131072 && U.Pow2(15) == 32768;
    S.SmallClassStep(17, 3);
    assert ObjectSize(cfg, 59) == 229376;
    var start := ChunkStart(cfg, c);
    assert start == 65536 * (32 * c);
  }

  // ---------- Runs ---------- //

  /** What may happen to the chunks and pages: slots are taken and given back, large objects come and go,
      and a page is touched through an object that is in use. */
  datatype Op = Take(b: nat, n: nat, grow: Storage) | Give(b: nat, o: nat) | TakeLarge(b: nat, grow: Storage)
              | GiveLarge(c: nat) | Touch(q: nat)

  datatype State = State(g: Global, resident: set<nat>)

  ghost predicate Legal(cfg: Config, pg: Paging, s: State, op: Op)
    requires ValidPaging(cfg, pg)
  {
    match op
    case Take(b, _, grow) => b < SmallBins(cfg) && Bounded(cfg, grow)
    case Give(b, o) => b < SmallBins(cfg) && Slotted(cfg, s.g.table, o, b)
    case TakeLarge(b, grow) => SmallBins(cfg) <= b < NumBins(cfg) && Bounded(cfg, grow)
    case GiveLarge(c) => c < |s.g.table| && s.g.table[c].Head?
    case Touch(q) => PageOk(cfg, pg, s.g.table, q)
  }

  ghost predicate Ok(cfg: Config, pg: Paging, s: State) {
    ValidPaging(cfg, pg) && Inv(cfg, s.g) && PagesOk(cfg, pg, s.g.table, s.resident)
  }

  ghost function Step(cfg: Config, pg: Paging, s: State, op: Op): State
    requires Ok(cfg, pg, s) && Legal(cfg, pg, s, op)
  {
    match op
    case Take(b, n, grow) => s.(g := AllocSmall(cfg, s.g, b, n, grow).1)
    case Give(b, o) => State(FreeOne(cfg, s.g, b, At(o)),
      Without(pg, s.resident, ReleasedRange(cfg, pg, s.g.table, b, o)))
    case TakeLarge(b, grow) => s.(g := AllocLarge(cfg, s.g, b, grow).1)
    case GiveLarge(c) =>
      State(FreeLarge(s.g, c), Without(pg, s.resident,
        Range(ChunkStart(cfg, c), ChunkStart(cfg, c) + ObjectSize(cfg, s.g.table[c].bin))))
    case Touch(q) => s.(resident := s.resident + {q})
  }

  lemma KeptPages(cfg: Config, pg: Paging, t: Table, u: Table, resident: set<nat>)
    requires ValidConfig(cfg) && PagesOk(cfg, pg, t, resident)
    requires forall p: nat, b: nat :: Slotted(cfg, t, p, b) ==> Slotted(cfg, u, p, b)
    requires forall q :: q in resident && InLarge(cfg, pg, t, q) ==> InLarge(cfg, pg, u, q)
    ensures PagesOk(cfg, pg, u, resident)
  {
    hide Slotted, InLarge, OnPage, Released, ChunkOf;
    forall q | q in resident ensures PageOk(cfg, pg, u, q) {
      assert PageOk(cfg, pg, t, q);
      if !InLarge(cfg, pg, t, q) {
        var p: nat, b: nat :| KeptBy(cfg, pg, t, q, p, b);
        assert KeptBy(cfg, pg, u, q, p, b);
      }
    }
  }

  lemma GiveLargePages(cfg: Config, pg: Paging, s: State, c: nat)
    requires Ok(cfg, pg, s) && c < |s.g.table| && s.g.table[c].Head?
    ensures Ok(cfg, pg, Step(cfg, pg, s, GiveLarge(c)))
  {
    hide MarkedSet, TableOk, InvBut, Slotted, ChunkOf, RunLength, ObjectSize, ChunkSize, OnPage, Released, Erase;
    var t, b := s.g.table, s.g.table[c].bin;
    FreeLargeCorrect(cfg, s.g, c);
    var u, n := FreeLarge(s.g, c).table, RunLength(cfg, b);
    EntryFromTable(cfg, t, c);
    LargeObjects(cfg, b);
    var left := Step(cfg, pg, s, GiveLarge(c)).resident;
    forall q | q in left && InLarge(cfg, pg, t, q) ensures InLarge(cfg, pg, u, q) {
      PageInItsChunk(cfg, pg, q);
      var d := ChunkOf(cfg, PageStart(pg, q));
      if c <= d < c + n {
        RunContains(ChunkSize(cfg), c, n, d);
        assert false;
      }
    }
    forall q | q in left ensures PageOk(cfg, pg, t, q) { assert q in s.resident; }
    KeptPages(cfg, pg, t, u, left);
  }

  lemma RunContains(C: nat, c: nat, n: nat, d: nat)
    requires c <= d < c + n
    ensures C * c <= C * d && C * d + C <= C * c + n * C
  {
    S.TimesMono(c, d, C);
    S.TimesMono(d + 1, c + n, C);
    assert C * c == c * C && C * d == d * C && (d + 1) * C == d * C + C && (c + n) * C == c * C + n * C;
  }

  lemma StepPages(cfg: Config, pg: Paging, s: State, op: Op)
    requires Ok(cfg, pg, s) && Legal(cfg, pg, s, op)
    ensures Ok(cfg, pg, Step(cfg, pg, s, op))
  {
    hide MarkedSet, TableOk, InvBut, Slotted, ChunkOf, AllocSmall, FreeOne, AllocLarge, FreeLarge, ReleasedRange,
      Without, PageOk, ValidPaging, ValidConfig, Objects, FirstFit, RunLength, Keeps;
    match op {
      case Take(b, n, grow) =>
        AllocSmallCorrect(cfg, s.g, b, n, grow);
        TakePages(cfg, pg, s, AllocSmall(cfg, s.g, b, n, grow).1);
      case Give(b, o) =>
        FreeOneCorrect(cfg, s.g, b, At(o));
        FreePages(cfg, pg, s.g, b, o, s.resident);
      case TakeLarge(b, grow) =>
        AllocLargeCorrect(cfg, s.g, b, grow);
        TakeLargePages(cfg, pg, s, AllocLarge(cfg, s.g, b, grow).1, FirstFit(s.g.table, RunLength(cfg, b)), b,
          RunLength(cfg, b));
      case GiveLarge(c) => GiveLargePages(cfg, pg, s, c);
      case Touch(q) =>
    }
  }

  lemma TakePages(cfg: Config, pg: Paging, s: State, g1: Global)
    requires Ok(cfg, pg, s) && Keeps(cfg, s.g.table, g1.table)
    ensures PagesOk(cfg, pg, g1.table, s.resident)
  {
    hide MarkedSet, TableOk, InvBut, Slotted, ChunkOf, PageOk, ListsOk;
    KeptPages(cfg, pg, s.g.table, g1.table, s.resident);
  }

  lemma TakeLargePages(cfg: Config, pg: Paging, s: State, g1: Global, c: nat, b: nat, n: nat)
    requires Ok(cfg, pg, s)
    requires forall p: nat, a: nat :: Slotted(cfg, g1.table, p, a) == Slotted(cfg, s.g.table, p, a)
    requires g1.table == s.g.table || (n >= 1 && AllUnused(s.g.table, c, n) && g1.table == PutLarge(s.g.table, c, b, n))
    ensures PagesOk(cfg, pg, g1.table, s.resident)
  {
    hide MarkedSet, TableOk, InvBut, Slotted, ChunkOf, PageOk, ListsOk;
    KeptPages(cfg, pg, s.g.table, g1.table, s.resident);
  }

  ghost predicate LegalRun(cfg: Config, pg: Paging, s: State, ops: seq<Op>)
    requires Ok(cfg, pg, s)
    decreases |ops|
  {
    ops == [] || (Legal(cfg, pg, s, ops[0])
      && (StepPages(cfg, pg, s, ops[0]); LegalRun(cfg, pg, Step(cfg, pg, s, ops[0]), ops[1..])))
  }

  ghost function Run(cfg: Config, pg: Paging, s: State, ops: seq<Op>): State
    requires Ok(cfg, pg, s) && LegalRun(cfg, pg, s, ops)
    decreases |ops|
  {
    if ops == [] then s else
    StepPages(cfg, pg, s, ops[0]);
    Run(cfg, pg, Step(cfg, pg, s, ops[0]), ops[1..])
  }

  /** Over any run: a resident page has a marked slot or a large object on it, or belongs to a chunk in use
      whose objects are too small to be released one by one. */
  lemma {:induction false} RunPages(cfg: Config, pg: Paging, s: State, ops: seq<Op>)
    requires Ok(cfg, pg, s) && LegalRun(cfg, pg, s, ops)
    ensures Ok(cfg, pg, Run(cfg, pg, s, ops))
    decreases |ops|
  {
    hide Ok, Step, Legal;
    if ops != [] {
      StepPages(cfg, pg, s, ops[0]);
      RunPages(cfg, pg, Step(cfg, pg, s, ops[0]), ops[1..]);
    }
  }
}
