/** `all_memory_deallocated` and `allocate_aligned` (include/metall/kernel/segment_allocator.hpp). */
module Queries {
  import opened Utilities
  import opened ChunkTable
  import opened BlockQueue
  import opened CacheBudget
  import opened Ledger
  import opened GlobalAllocator
  import opened CachedAllocator
  import opened Allocator
  import opened Runs
  import S = SizeClasses
  import O = ObjectCache

  // ---------- Is everything deallocated? ---------- //

  /** What the iterators of a cache's first k bins visit. */
  ghost function VisitBins(q: Queue, k: nat): seq<Offset> {
    if k == 0 then [] else VisitBins(q, k - 1) + O.Reverse(Stack(q, k - 1))
  }

  ghost function VisitCaches(s: Setup, caches: seq<Queue>): seq<Offset> {
    if caches == [] then []
    else VisitCaches(s, caches[..|caches| - 1]) + VisitBins(caches[|caches| - 1], s.maxBin + 1)
  }

  lemma {:induction false} ReverseObjects(items: seq<Offset>)
    ensures Objects(O.Reverse(items)) == Objects(items)
    decreases |items|
  {
    if items == [] {
      assert O.Reverse(items) == [];
    } else {
      var n := |items| - 1;
      assert O.Reverse(items) == [items[n]] + O.Reverse(items[..n]);
      ReverseObjects(items[..n]);
      ObjectsConcat([items[n]], O.Reverse(items[..n]));
      ObjectsOne(items[n]);
    }
  }

  lemma {:induction false} StackObjects(q: Queue, b: nat)
    ensures Objects(Stack(q, b)) == Cached(FlushBin(q, b))
    decreases |q|
  {
    hide Objects, Cached;
    ObjectsOne(Null);
    CachedOne(Block(0, []));
    if |q| > 0 {
      var x, rest := q[|q| - 1], q[..|q| - 1];
      StackObjects(rest, b);
      if x.bin == b {
        ObjectsConcat(Stack(rest, b), x.items);
        CachedConcat(Newest(x, b), FlushBin(rest, b));
        CachedOne(x);
      } else {
        assert Stack(q, b) == Stack(rest, b) && FlushBin(q, b) == FlushBin(rest, b);
      }
    }
  }

  lemma {:induction false} VisitBinsObjects(q: Queue, k: nat)
    ensures Objects(VisitBins(q, k)) == Cached(FlushOrder(q, k))
    decreases k
  {
    hide Objects, Cached, Stack, FlushBin;
    if k == 0 {
      ObjectsOne(Null);
      CachedOne(Block(0, []));
    } else {
      VisitBinsObjects(q, k - 1);
      ObjectsConcat(VisitBins(q, k - 1), O.Reverse(Stack(q, k - 1)));
      ReverseObjects(Stack(q, k - 1));
      StackObjects(q, k - 1);
      CachedConcat(FlushOrder(q, k - 1), FlushBin(q, k - 1));
    }
  }

  /** The iterators visit every cached object of every cache exactly as often as it is cached. */
  lemma {:induction false} VisitAll(s: Setup, caches: seq<Queue>)
    requires forall i, j :: 0 <= i < |caches| && 0 <= j < |caches[i]| ==> caches[i][j].bin <= s.maxBin
    ensures Objects(VisitCaches(s, caches)) == AllCached(caches)
    decreases |caches|
  {
    hide Objects, Cached, FlushOrder, VisitBins;
    if caches == [] {
      ObjectsOne(Null);
    } else {
      var n := |caches| - 1;
      VisitAll(s, caches[..n]);
      ObjectsConcat(VisitCaches(s, caches[..n]), VisitBins(caches[n], s.maxBin + 1));
      VisitBinsObjects(caches[n], s.maxBin + 1);
      FlushCorrect(caches[n], s.maxBin + 1);
    }
  }

  /** The loop of `priv_check_all_small_allocations_are_cached_without_lock`: each visited offset must be
      left in the set and is taken out of it; in the end nothing may be left. */
  ghost predicate TickOff(left: set<nat>, visited: seq<Offset>)
    decreases |visited|
  {
    if visited == [] then left == {}
    else visited[0].At? && visited[0].pos in left && TickOff(left - {visited[0].pos}, visited[1..])
  }

  lemma {:induction false} TickOffMeans(left: set<nat>, visited: seq<Offset>)
    ensures TickOff(left, visited) <==> NoNulls(visited) && Objects(visited) == multiset(left)
    decreases |visited|
  {
    hide Objects;
    if visited == [] {
      ObjectsOne(Null);
      assert multiset(left) == multiset{} <==> left == {};
    } else {
      var o, rest := visited[0], visited[1..];
      assert visited == [o] + rest;
      ObjectsConcat([o], rest);
      ObjectsOne(o);
      if o.At? {
        TickOffMeans(left - {o.pos}, rest);
        assert NoNulls(visited) <==> NoNulls(rest) by {
          assert forall i :: 0 <= i < |rest| ==> rest[i] == visited[i + 1];
        }
        if o.pos in left {
          SetMinusOne(left, o.pos);
          if Objects(visited) == multiset(left) { Cancel(Objects(rest), multiset(left - {o.pos}), multiset{o.pos}); }
        } else {
          assert Objects(visited)[o.pos] > 0 && multiset(left)[o.pos] == 0;
        }
      }
    }
  }

  /** The loop has got through p with `left` left of all. */
  ghost predicate Ticked(all: set<nat>, p: seq<Offset>, left: set<nat>) {
    NoNulls(p) && Objects(p) + multiset(left) == multiset(all)
  }

  lemma TickedStep(all: set<nat>, p: seq<Offset>, left: set<nat>, o: Offset)
    requires Ticked(all, p, left) && o.At? && o.pos in left
    ensures Ticked(all, p + [o], left - {o.pos})
  {
    hide Objects;
    ObjectsConcat(p, [o]);
    ObjectsOne(o);
    SetMinusOne(left, o.pos);
    assert Objects(p) + multiset{o.pos} + multiset(left - {o.pos})
      == Objects(p) + (multiset(left - {o.pos}) + multiset{o.pos});
  }

  lemma TickedFails(all: set<nat>, p: seq<Offset>, left: set<nat>, o: Offset, total: seq<Offset>)
    requires Ticked(all, p, left) && !(o.At? && o.pos in left) && p + [o] <= total
    ensures !TickOff(all, total)
  {
    hide Objects, TickOff;
    TickOffMeans(all, total);
    var r := total[|p| + 1..];
    assert total == (p + [o]) + r;
    ObjectsConcat(p + [o], r);
    ObjectsConcat(p, [o]);
    ObjectsOne(o);
    if o == Null {
      assert total[|p|] == Null;
    } else {
      assert multiset(left)[o.pos] == 0;
      assert Objects(total)[o.pos] > (Objects(p) + multiset(left))[o.pos];
    }
  }

  lemma TickedEnd(all: set<nat>, total: seq<Offset>, left: set<nat>)
    requires Ticked(all, total, left)
    ensures TickOff(all, total) <==> left == {}
  {
    hide Objects, TickOff;
    TickOffMeans(all, total);
    if TickOff(all, total) {
      forall x ensures x !in left { assert (Objects(total) + multiset(left))[x] == multiset(all)[x]; }
    } else {
      assert left == {} ==> Objects(total) + multiset(left) == Objects(total);
    }
  }

  lemma {:induction false} VisitBinsPrefix(q: Queue, j: nat, k: nat)
    requires j <= k
    ensures VisitBins(q, j) <= VisitBins(q, k)
    decreases k
  {
    hide Stack;
    if j < k { VisitBinsPrefix(q, j, k - 1); }
  }

  lemma {:induction false} VisitCachesPrefix(s: Setup, caches: seq<Queue>, c: nat)
    requires c <= |caches|
    ensures VisitCaches(s, caches[..c]) <= VisitCaches(s, caches)
    decreases |caches|
  {
    hide VisitBins;
    if c < |caches| {
      var n := |caches| - 1;
      assert caches[..n][..c] == caches[..c];
      VisitCachesPrefix(s, caches[..n], c);
    } else {
      assert caches[..c] == caches;
    }
  }

  /** What is visited up to bin b of cache c and its first k offsets is a prefix of all that is visited. */
  lemma VisitedSoFar(s: Setup, caches: seq<Queue>, c: nat, b: nat, k: nat)
    requires c < |caches| && b <= s.maxBin && k <= |O.Reverse(Stack(caches[c], b))|
    ensures VisitCaches(s, caches[..c]) + VisitBins(caches[c], b)
            + O.Reverse(Stack(caches[c], b))[..k] <= VisitCaches(s, caches)
  {
    hide Stack, VisitCaches;
    var q := caches[c];
    VisitBinsPrefix(q, b + 1, s.maxBin + 1);
    VisitCachesPrefix(s, caches, c + 1);
    VisitOneMore(s, caches, c);
    PrefixOf(VisitCaches(s, caches[..c]), VisitBins(q, b), O.Reverse(Stack(q, b)), k, VisitBins(q, s.maxBin + 1),
             VisitCaches(s, caches));
  }

  lemma VisitOneMore(s: Setup, caches: seq<Queue>, c: nat)
    requires c < |caches|
    ensures VisitCaches(s, caches[..c + 1]) == VisitCaches(s, caches[..c]) + VisitBins(caches[c], s.maxBin + 1)
  {
    hide VisitBins;
    assert caches[..c + 1][..c] == caches[..c];
  }

  lemma PrefixOf(a: seq<Offset>, x: seq<Offset>, part: seq<Offset>, k: nat, y: seq<Offset>, total: seq<Offset>)
    requires k <= |part| && x + part <= y && a + y <= total
    ensures a + x + part[..k] <= total
  {}

  ghost predicate NoLarge(t: Table) { forall c :: 0 <= c < |t| ==> !t[c].Head? }

  /** `all_memory_deallocated`. */
  ghost predicate AllMemoryDeallocated(s: Setup, w: World)
    requires ValidConfig(s.cfg)
  {
    LastUsed(w.g.table) == -1 || (TickOff(MarkedSet(s.cfg, w.g.table), VisitCaches(s, w.caches)) && NoLarge(w.g.table))
  }

  /** The answer is true exactly when the client holds nothing, except that null offsets left in a cache by
      a failed allocation make it false while any chunk is registered. */
  lemma AllDeallocatedMeans(s: Setup, w: World)
    requires WorldOk(s, w)
    ensures AllMemoryDeallocated(s, w) <==>
              && w.small == map[] && w.large == map[]
              && (NoNulls(VisitCaches(s, w.caches)) || AllFree(w.g.table))
  {
    hide MarkedSet, InvBut, SmallOk, AllCached, VisitCaches, ValidConfig, Objects, Sized, TickOff, Held;
    var t, visited := w.g.table, VisitCaches(s, w.caches);
    CachedBins(s, w);
    VisitAll(s, w.caches);
    TickOffMeans(MarkedSet(s.cfg, t), visited);
    LastUsedFree(t);
    LargeEmpty(s.cfg, t, w.large);
    Balance(MarkedSet(s.cfg, t), w.small, AllCached(w.caches));
    if AllFree(t) { FreeHasNoMarks(s.cfg, t); }
  }

  lemma CachedBins(s: Setup, w: World)
    requires WorldOk(s, w)
    ensures forall i, j :: 0 <= i < |w.caches| && 0 <= j < |w.caches[i]| ==> w.caches[i][j].bin <= s.maxBin
  {
    hide MarkedSet, InvBut, SmallOk, LargeOk, AllCached, ValidConfig, Packed, Bytes, NumBlocks, Held;
    forall i, j | 0 <= i < |w.caches| && 0 <= j < |w.caches[i]| ensures w.caches[i][j].bin <= s.maxBin {
      assert Sized(s, w.caches[i]);
    }
  }

  lemma LastUsedFree(t: Table)
    ensures LastUsed(t) == -1 <==> AllFree(t)
  {}

  lemma LargeEmpty(cfg: Config, t: Table, large: map<nat, nat>)
    requires ValidConfig(cfg) && LargeOk(cfg, t, large)
    ensures NoLarge(t) <==> large == map[]
    ensures AllFree(t) ==> large == map[]
  {
    hide BinFor, ChunkOf;
    if NoLarge(t) { assert forall o :: o !in large; }
  }

  lemma Balance(marked: set<nat>, small: map<nat, nat>, cached: multiset<nat>)
    requires multiset(marked) == multiset(small.Keys) + cached + multiset{}
    ensures cached == multiset(marked) <==> small == map[]
    ensures marked == {} ==> small == map[] && cached == multiset{}
  {
    forall o: nat ensures multiset(marked)[o] == multiset(small.Keys)[o] + cached[o] {}
    if cached == multiset(marked) || marked == {} {
      assert forall o: nat :: multiset(small.Keys)[o] == 0;
      assert small.Keys == {};
    }
  }

  lemma FreeHasNoMarks(cfg: Config, t: Table)
    requires ValidConfig(cfg) && AllFree(t)
    ensures MarkedSet(cfg, t) == {}
  {
    hide MarkedSet, ChunkOf, SlotOf, OffsetOf;
  }

  // ---------- A failed allocation ---------- //

  lemma {:induction false} VisitHas(q: Queue, b: nat, k: nat)
    requires b < k && Null in Stack(q, b)
    ensures Null in VisitBins(q, k)
    decreases k
  {
    hide Stack;
    if b < k - 1 {
      VisitHas(q, b, k - 1);
    } else {
      var i :| 0 <= i < |Stack(q, b)| && Stack(q, b)[i] == Null;
      assert O.Reverse(Stack(q, b))[|Stack(q, b)| - 1 - i] == Null;
    }
  }

  const NO_STORAGE: Storage := n => 0

  lemma FailedAlloc(cfg: Config, g: Global, n: nat)
    requires Inv(cfg, g) && AllFree(g.table) && |g.table| >= 1 && |g.lists| >= 1 && g.lists[0] == [] && n >= 8
    requires g.segment < ChunkSize(cfg) && Bounded(cfg, NO_STORAGE)
    ensures AllocSmall(cfg, g, 0, n, NO_STORAGE) == (Nulls(n), g.(table := g.table[0 := Small(0, {})]))
  {
    hide InvBut, TableOk, ValidConfig, MarkFront, MarkedSet;
    FirstUnusedIs(g.table, 0);
    ProvideOk(cfg, g, 0, NO_STORAGE);
  }

  lemma FailedRefillStep(s: Setup, g: Global)
    requires Consistent(s, g, []) && CachedBin(s, 0) && Bounded(s.cfg, NO_STORAGE) && Packed([])
    requires AllFree(g.table) && |g.table| >= 1 && |g.lists| >= 1 && g.lists[0] == [] && g.segment < ChunkSize(s.cfg)
    ensures Refill(s, g, [], 0, NO_STORAGE) ==
              (g.(table := g.table[0 := Small(0, {})]), [Block(0, Nulls(RefillCount(s.cfg, 0)))])
  {
    hide InvBut, TableOk, ValidConfig, MarkedSet, AllocSmall, RefillCount, ObjectSize, NumBlocks, Held, Sized, Packed,
      Bytes, AllFree, HoldsBlocks, Moved, Bounded, CachedBin, Cached, MakeRoom, Room, Nulls;
    ConsistentBalanced(s, g, []);
    AffordableRefill(s, 0);
    EvictOk(s, g, [], RefillBytes(s.cfg, 0), Others(s, g, []));
    var (ev, rest) := MakeRoom(s.cfg, s.maxBytes, [], RefillBytes(s.cfg, 0));
    assert |ev + rest| == 0;
    assert ev == [] && rest == [];
    assert FreeBlocks(s.cfg, g, ev) == g;
    var n := RefillCount(s.cfg, 0);
    FailedAlloc(s.cfg, g, n);
    assert rest + [Block(0, Nulls(n))] == [Block(0, Nulls(n))];
  }

  lemma FailedPop(s: Setup, g: Global)
    requires Consistent(s, g, []) && CachedBin(s, 0) && Bounded(s.cfg, NO_STORAGE)
    requires AllFree(g.table) && |g.table| >= 1 && |g.lists| >= 1 && g.lists[0] == [] && g.segment < ChunkSize(s.cfg)
    ensures Pop(s, g, [], 0, NO_STORAGE) ==
              (Null, g.(table := g.table[0 := Small(0, {})]), [Block(0, Nulls(RefillCount(s.cfg, 0) - 1))])
  {
    hide Consistent, Refill, RefillCount, AllFree, Bounded, CachedBin, Balanced, Others, ChunkSize, InvBut, Active;
    ConsistentBalanced(s, g, []);
    BalancedFacts(s, g, [], Others(s, g, []));
    var n := RefillCount(s.cfg, 0);
    DropBalanced(s, g, [], 0, Others(s, g, []));
    FailedRefillStep(s, g);
    var q := [Block(0, Nulls(n))];
    ActiveUnique(q, 0, 0);
    ActiveUnique([], 0, -1);
    assert DropEmpty([], 0) == [];
    assert Nulls(n)[..n - 1] == Nulls(n - 1);
    assert q[0 := Block(0, Nulls(n - 1))] == [Block(0, Nulls(n - 1))];
  }

  /** A refill that fails leaves null offsets in the cache and a registered chunk without marks. */
  lemma FailedRefill(s: Setup, segment: nat)
    requires ValidSetup(s) && segment < ChunkSize(s.cfg) && WorldOk(s, Initial(s, 1, segment))
    ensures BinFor(s.cfg, 8) == 0 && Bounded(s.cfg, NO_STORAGE)
    ensures var (o, w) := Allocate(s, Initial(s, 1, segment), 8, 0, NO_STORAGE);
            && o == Null && |w.g.table| >= 1 && Orphan(w.g.table, 0)
            && w.caches == [[Block(0, Nulls(RefillCount(s.cfg, 0) - 1))]]
  {
    hide MarkedSet, Accounts, RefillCount, Pop, BinFor, Consistent, InvBut;
    var w := Initial(s, 1, segment);
    LeastBin(s.cfg);
    OneChunk(s.cfg);
    ConsistentCache(s, w, 0);
    FailedPop(s, w.g);
  }

  lemma OneChunk(cfg: Config)
    requires ValidConfig(cfg)
    ensures MaxChunks(cfg) >= 1 && SmallBins(cfg) >= 1
  {
    S.QuotientBounds(cfg.maxSize, ChunkSize(cfg));
  }

  /** So the answer can be false although the client holds nothing: one request on a fresh allocator whose
      storage cannot be extended is enough. */
  lemma DeallocatedButFalse(s: Setup, segment: nat)
    requires ValidSetup(s) && segment < ChunkSize(s.cfg) && segment < Limit(s.cfg)
    ensures WorldOk(s, Initial(s, 1, segment)) && BinFor(s.cfg, 8) == 0 && Bounded(s.cfg, NO_STORAGE)
    ensures var w := Allocate(s, Initial(s, 1, segment), 8, 0, NO_STORAGE).1;
            w.small == map[] && w.large == map[] && !AllMemoryDeallocated(s, w)
  {
    hide Accounts, RefillCount, BinFor, Allocate, AllMemoryDeallocated, Limit, VisitBins;
    InitialOk(s, 1, segment);
    FailedRefill(s, segment);
    AllocateCorrect(s, Initial(s, 1, segment), 8, 0, NO_STORAGE);
    var w := Allocate(s, Initial(s, 1, segment), 8, 0, NO_STORAGE).1;
    AllDeallocatedMeans(s, w);
    var q := w.caches[0];
    assert Stack(q, 0) == [] + q[0].items;
    assert q[0].items[0] == Null;
    VisitHas(q, 0, s.maxBin + 1);
    assert w.caches[..0] == [];
    assert VisitCaches(s, w.caches) == [] + VisitBins(q, s.maxBin + 1);
    assert !NoNulls(VisitCaches(s, w.caches)) by { HasNull(VisitCaches(s, w.caches)); }
    assert w.g.table[0] != Unused;
  }

  lemma HasNull(os: seq<Offset>)
    ensures Null in os ==> !NoNulls(os)
  {}

  lemma LeastBin(cfg: Config)
    requires ValidConfig(cfg)
    ensures BinFor(cfg, 8) == 0
  {
    S.Landmarks(cfg.m, 8);
  }

  // ---------- Aligned allocation ---------- //

  predicate PowerOf2(n: nat) {
    n == 1 || (n > 1 && n % 2 == 0 && PowerOf2(n / 2))
  }

  lemma {:induction false} PowerOf2Means(n: nat)
    ensures PowerOf2(n) <==> exists k: nat :: n == Pow2(k)
    decreases n
  {
    if n == 1 {
      assert n == Pow2(0);
    } else if n > 1 {
      PowerOf2Means(n / 2);
      if PowerOf2(n) {
        var k: nat :| n / 2 == Pow2(k);
        assert n == Pow2(k + 1);
      } else {
        forall k: nat ensures n != Pow2(k) {
          assert k > 0 ==> Pow2(k) == 2 * Pow2(k - 1) && Pow2(k) / 2 == Pow2(k - 1);
        }
      }
    }
  }

  lemma RemainderIsZero(d: nat, n: nat)
    requires d >= 1
    ensures n % d == 0 <==> S.Divides(d, n)
  {
    S.QuotientBounds(n, d);
    if n % d == 0 { assert n == (n / d) * d; }
    if S.Divides(d, n) {
      var e: nat :| n == e * d;
      assert d * e + 0 == n;
      SplitOffset(d, e, 0);
    }
  }

  /** An alignment the allocator accepts: 2^a, at least the smallest class and at most a chunk. */
  lemma AlignmentExponent(cfg: Config, alignment: nat) returns (a: nat)
    requires ValidConfig(cfg) && PowerOf2(alignment) && ObjectSize(cfg, 0) <= alignment <= ChunkSize(cfg)
    ensures 3 <= a <= cfg.m && alignment == Pow2(a) && alignment >= 1
  {
    hide S.ClassSize;
    PowerOf2Means(alignment);
    S.Landmarks(cfg.m, 0);
    a :| alignment == Pow2(a);
    Powers();
    if a < 3 { Pow2Mono(a, 2); }
    if a > cfg.m { Pow2Mono(cfg.m + 1, a); }
  }

  /** Every object whose request is a multiple of an accepted alignment starts at a multiple of it,
      in every bin, chunk and slot. */
  lemma OffsetAligned(s: Setup, w: World, o: nat, a: nat)
    requires WorldOk(s, w) && 3 <= a <= s.cfg.m
    requires (o in w.small && S.Divides(Pow2(a), w.small[o])) || (o in w.large && S.Divides(Pow2(a), w.large[o]))
    ensures S.Divides(Pow2(a), o)
  {
    hide MarkedSet, InvBut, CachesOk, AllCached, S.Divides, ObjectSize, S.IsLeastClass, S.SizeIndex, S.ClassSize;
    var cfg, c := s.cfg, ChunkOf(s.cfg, o);
    S.PowerDivides(a, cfg.m);
    S.DividesTimes(Pow2(a), ChunkSize(cfg), c);
    assert c * ChunkSize(cfg) == ChunkSize(cfg) * c;
    if o in w.large {
      assert IsLarge(cfg, w.g.table, o, w.large[o]);
    }
    if o in w.small && S.Divides(Pow2(a), w.small[o]) {
      assert IsSmall(cfg, w.g.table, o, w.small[o]);
      var b := BinFor(cfg, w.small[o]);
      SlotAligned(cfg, a, w.small[o], b, SlotOf(cfg, b, o));
      DividesSum(Pow2(a), ChunkSize(cfg) * c, ObjectSize(cfg, b) * SlotOf(cfg, b, o));
    }
  }

  lemma SlotAligned(cfg: Config, a: nat, n: nat, b: nat, k: nat)
    requires ValidConfig(cfg) && 3 <= a <= cfg.m && n >= 1 && S.Divides(Pow2(a), n) && b == BinFor(cfg, n)
    ensures S.Divides(Pow2(a), ObjectSize(cfg, b)) && S.Divides(Pow2(a), ObjectSize(cfg, b) * k)
  {
    hide S.Divides, S.ClassSize, S.IsLeastClass;
    S.ClassAligned(cfg.m, a, n, b);
    S.DividesTimes(Pow2(a), ObjectSize(cfg, b), k);
    assert k * ObjectSize(cfg, b) == ObjectSize(cfg, b) * k;
  }

  lemma DividesSum(d: nat, m: nat, n: nat)
    requires S.Divides(d, m) && S.Divides(d, n)
    ensures S.Divides(d, m + n)
  {
    var e: nat :| m == e * d;
    var f: nat :| n == f * d;
    assert m + n == (e + f) * d;
  }

  /** The checks of `allocate_aligned`. */
  predicate GoodAlignment(cfg: Config, n: nat, alignment: nat)
    requires ValidConfig(cfg)
  {
    ObjectSize(cfg, 0) <= alignment <= ChunkSize(cfg) && PowerOf2(alignment) && n % alignment == 0
  }

  /** `allocate_aligned`. */
  ghost function AllocateAligned(s: Setup, w: World, n: nat, alignment: nat, i: nat, grow: Storage)
    : (r: (Offset, World))
    requires WorldOk(s, w) && i < |w.caches| && Bounded(s.cfg, grow)
    requires GoodAlignment(s.cfg, n, alignment) ==> n == 0 || BinFor(s.cfg, n) >= 0
  {
    if GoodAlignment(s.cfg, n, alignment) then Allocate(s, w, n, i, grow) else (Null, w)
  }

  /** The alignment is a power of two from 8 to the chunk size, and divides the request. */
  ghost predicate Accepted(cfg: Config, n: nat, alignment: nat) {
    exists a: nat :: 3 <= a <= cfg.m && alignment == Pow2(a) && S.Divides(Pow2(a), n)
  }

  lemma ChecksMean(cfg: Config, n: nat, alignment: nat)
    requires ValidConfig(cfg)
    ensures GoodAlignment(cfg, n, alignment) <==> Accepted(cfg, n, alignment)
  {
    hide PowerOf2, S.Divides, S.ClassSize;
    S.Landmarks(cfg.m, 0);
    if GoodAlignment(cfg, n, alignment) {
      var a := AlignmentExponent(cfg, alignment);
      RemainderIsZero(alignment, n);
    }
    if Accepted(cfg, n, alignment) {
      var a: nat :| 3 <= a <= cfg.m && alignment == Pow2(a) && S.Divides(Pow2(a), n);
      Powers();
      Pow2Mono(3, a);
      Pow2Mono(a, cfg.m);
      PowerOf2Means(alignment);
      RemainderIsZero(alignment, n);
    }
  }

  /** Exactly these requests are passed on to `allocate`; any other gets null, and nothing happens. */
  lemma AlignedMeans(s: Setup, w: World, n: nat, alignment: nat, i: nat, grow: Storage)
    requires WorldOk(s, w) && i < |w.caches| && Bounded(s.cfg, grow)
    requires Accepted(s.cfg, n, alignment) ==> n == 0 || BinFor(s.cfg, n) >= 0
    ensures GoodAlignment(s.cfg, n, alignment) ==> n == 0 || BinFor(s.cfg, n) >= 0
    ensures AllocateAligned(s, w, n, alignment, i, grow) ==
            if Accepted(s.cfg, n, alignment) then Allocate(s, w, n, i, grow) else (Null, w)
  {
    hide Accounts, Allocate, BinFor, GoodAlignment, Accepted;
    ChecksMean(s.cfg, n, alignment);
  }

  /** Whatever is returned is a multiple of the alignment. */
  lemma AllocateAlignedCorrect(s: Setup, w: World, n: nat, alignment: nat, i: nat, grow: Storage)
    requires WorldOk(s, w) && i < |w.caches| && Bounded(s.cfg, grow)
    requires GoodAlignment(s.cfg, n, alignment) ==> n == 0 || BinFor(s.cfg, n) >= 0
    ensures var (o, w1) := AllocateAligned(s, w, n, alignment, i, grow);
            Obtained(s, w, n, o, w1) && (o.At? ==> GoodAlignment(s.cfg, n, alignment) && o.pos % alignment == 0)
  {
    hide Accounts, Allocate, BinFor, PowerOf2, ChunkSize, ObjectSize;
    if GoodAlignment(s.cfg, n, alignment) {
      var a := AlignmentExponent(s.cfg, alignment);
      AllocateCorrect(s, w, n, i, grow);
      var (o, w1) := Allocate(s, w, n, i, grow);
      if o.At? {
        RemainderIsZero(alignment, n);
        RemainderIsZero(alignment, o.pos);
        assert (w1.small + w1.large)[o.pos] == n && o.pos in w1.small + w1.large;
        OffsetAligned(s, w1, o.pos, a);
      }
    }
  }

  /** The check that the object size is a multiple of the alignment fails in one case only: a request of zero
      bytes with an alignment above the smallest class. */
  lemma AlignedSizeCheck(cfg: Config, n: nat, alignment: nat)
    requires ValidConfig(cfg) && GoodAlignment(cfg, n, alignment) && BinFor(cfg, n) >= 0
    ensures ObjectSize(cfg, BinFor(cfg, n)) % alignment == 0 <==> n != 0 || alignment == ObjectSize(cfg, 0)
  {
    hide PowerOf2, S.Divides, S.ClassSize, S.SizeIndex, S.IsLeastClass;
    var a := AlignmentExponent(cfg, alignment);
    RemainderIsZero(alignment, n);
    RemainderIsZero(alignment, ObjectSize(cfg, BinFor(cfg, n)));
    if n == 0 {
      S.Landmarks(cfg.m, 0);
      S.LeastClassUnique(cfg.m, 0, 0, BinFor(cfg, 0));
      EightOver(alignment);
    } else {
      SlotAligned(cfg, a, n, BinFor(cfg, n), 0);
    }
  }

  lemma EightOver(alignment: nat)
    requires alignment >= 8
    ensures 8 % alignment == 0 <==> alignment == 8
  {
    if alignment > 8 { S.Quotient(8, alignment, 0); }
  }
}
