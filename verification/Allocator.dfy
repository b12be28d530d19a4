/** The whole allocator: `allocate`, `deallocate` and the cache flush over any number of caches, with the
    client's view of what it holds, and what is true over every run
    (include/metall/kernel/segment_allocator.hpp). */
module Allocator {
  import opened ChunkTable
  import opened BlockQueue
  import opened Ledger
  import opened GlobalAllocator
  import opened LargeAllocation
  import opened CachedAllocator
  import S = SizeClasses
  import U = Utilities

  /** The bin of a request; -1 when it is larger than the largest class. */
  function BinFor(cfg: Config, n: nat): int
    requires ValidConfig(cfg)
  {
    S.SizeIndex(cfg.m, cfg.maxSize, n)
  }

  /** The allocator and the client: which offsets it holds, and how many bytes it asked for. */
  datatype World = World(g: Global, caches: seq<Queue>, small: map<nat, nat>, large: map<nat, nat>)

  /** All objects in all caches. */
  ghost function AllCached(caches: seq<Queue>): multiset<nat> {
    if |caches| == 0 then multiset{} else AllCached(caches[..|caches| - 1]) + Cached(caches[|caches| - 1])
  }

  lemma {:induction false} AllCachedUpdate(caches: seq<Queue>, i: nat, q: Queue)
    requires i < |caches|
    ensures AllCached(caches[i := q]) + Cached(caches[i]) == AllCached(caches) + Cached(q)
    decreases |caches|
  {
    hide Cached;
    var n := |caches| - 1;
    if i < n {
      assert caches[i := q][..n] == caches[..n][i := q];
      AllCachedUpdate(caches[..n], i, q);
      Widen(AllCached(caches[..n][i := q]), AllCached(caches[..n]), Cached(caches[i]), Cached(q), Cached(caches[n]));
    } else {
      assert caches[i := q][..n] == caches[..n];
    }
  }

  lemma Widen(a: multiset<nat>, b: multiset<nat>, x: multiset<nat>, y: multiset<nat>, c: multiset<nat>)
    requires a + x == b + y
    ensures (a + c) + x == (b + c) + y && (c + a) + x == (c + b) + y
  {
    assert (a + c) + x == (a + x) + c && (b + c) + y == (b + y) + c;
    assert (c + a) + x == (a + x) + c && (c + b) + y == (b + y) + c;
  }

  // ---------- The invariant ---------- //

  ghost predicate IsSmall(cfg: Config, t: Table, o: nat, n: nat)
    requires ValidConfig(cfg)
  {
    n >= 1 && 0 <= BinFor(cfg, n) < SmallBins(cfg) && Slotted(cfg, t, o, BinFor(cfg, n))
  }

  ghost predicate IsLarge(cfg: Config, t: Table, o: nat, n: nat)
    requires ValidConfig(cfg)
  {
    && n >= 1 && SmallBins(cfg) <= BinFor(cfg, n)
    && ChunkOf(cfg, o) < |t| && o == ChunkSize(cfg) * ChunkOf(cfg, o) && t[ChunkOf(cfg, o)] == Head(BinFor(cfg, n))
  }

  ghost predicate CachesOk(s: Setup, t: Table, caches: seq<Queue>)
    requires ValidConfig(s.cfg)
  {
    forall i :: 0 <= i < |caches| ==> Sized(s, caches[i]) && Held(s.cfg, t, caches[i])
  }

  ghost predicate SmallOk(cfg: Config, t: Table, small: map<nat, nat>)
    requires ValidConfig(cfg)
  {
    forall o :: o in small ==> IsSmall(cfg, t, o, small[o])
  }

  /** The large objects the client holds are exactly those in the table. */
  ghost predicate LargeOk(cfg: Config, t: Table, large: map<nat, nat>)
    requires ValidConfig(cfg)
  {
    && (forall o :: o in large ==> IsLarge(cfg, t, o, large[o]))
    && forall c :: 0 <= c < |t| && t[c].Head? ==> ChunkSize(cfg) * c in large
  }

  /** Everything is accounted for: the marked slots are the disjoint union of what the client holds,
      what the caches hold, and `extra`, which is in nobody's hands at the moment. */
  ghost predicate Accounts(s: Setup, w: World, extra: multiset<nat>): (ok: bool)
    ensures ok ==> ValidSetup(s) && Inv(s.cfg, w.g)
  {
    && ValidSetup(s) && Inv(s.cfg, w.g)
    && CachesOk(s, w.g.table, w.caches) && SmallOk(s.cfg, w.g.table, w.small) && LargeOk(s.cfg, w.g.table, w.large)
    && multiset(MarkedSet(s.cfg, w.g.table)) == multiset(w.small.Keys) + AllCached(w.caches) + extra
  }

  ghost predicate WorldOk(s: Setup, w: World) { Accounts(s, w, multiset{}) }

  /** What is held by the client and by all caches but one. */
  ghost function RestOf(w: World, i: nat): multiset<nat>
    requires i < |w.caches|
  {
    multiset(w.small.Keys) + AllCached(w.caches[i := []])
  }

  lemma RestFacts(w: World, i: nat, q: Queue)
    requires i < |w.caches|
    ensures multiset(w.small.Keys) + AllCached(w.caches[i := q]) == RestOf(w, i) + Cached(q)
    ensures multiset(w.small.Keys) + AllCached(w.caches) == RestOf(w, i) + Cached(w.caches[i])
  {
    hide Cached, AllCached;
    AllCachedUpdate(w.caches, i, []);
    CachedOne(Block(0, []));
    AllCachedUpdate(w.caches[i := []], i, q);
    assert w.caches[i := []][i := q] == w.caches[i := q];
    var keys := multiset(w.small.Keys);
    Widen(AllCached(w.caches[i := q]), AllCached(w.caches[i := []]), multiset{}, Cached(q), keys);
    Widen(AllCached(w.caches), AllCached(w.caches[i := []]), multiset{}, Cached(w.caches[i]), keys);
  }

  lemma {:induction false} CacheAmong(caches: seq<Queue>, j: nat)
    requires j < |caches|
    ensures Cached(caches[j]) <= AllCached(caches)
    decreases |caches|
  {
    hide Cached;
    var n := |caches| - 1;
    if j < n { CacheAmong(caches[..n], j); }
  }

  /** One cache is taken out of the accounts. */
  lemma OpenCache(s: Setup, w: World, i: nat, extra: multiset<nat>)
    requires Accounts(s, w, extra) && i < |w.caches|
    ensures Balanced(s, w.g, w.caches[i], RestOf(w, i) + extra)
  {
    hide InvBut, Sized, Held, Cached, AllCached, MarkedSet, SmallOk, LargeOk, RestOf, ValidConfig, TableOk;
    RestFacts(w, i, []);
  }

  /** And put back after an operation on it. */
  lemma CloseCache(s: Setup, w: World, i: nat, extra: multiset<nat>, g1: Global, q1: Queue, extra1: multiset<nat>)
    requires Accounts(s, w, extra) && i < |w.caches|
    requires Moved(s.cfg, w.g, RestOf(w, i), g1) && Balanced(s, g1, q1, RestOf(w, i) + extra1)
    ensures Accounts(s, w.(g := g1, caches := w.caches[i := q1]), extra1)
  {
    hide InvBut, Sized, Held, Cached, AllCached, MarkedSet, SmallOk, LargeOk, RestOf, ValidConfig, TableOk, Moved;
    RestFacts(w, i, q1);
    forall j | 0 <= j < |w.caches| && j != i ensures Held(s.cfg, g1.table, w.caches[j]) {
      RestHas(w, i, j);
      HeldMoves(s.cfg, w.g, RestOf(w, i), g1, w.caches[j]);
    }
    assert multiset(w.small.Keys) <= RestOf(w, i) by { RestKeys(w, i); }
    ClientMoves(s.cfg, w, RestOf(w, i), g1);
  }

  lemma RestKeys(w: World, i: nat)
    requires i < |w.caches|
    ensures multiset(w.small.Keys) <= RestOf(w, i)
  {
    hide AllCached;
  }

  lemma RestHas(w: World, i: nat, j: nat)
    requires i < |w.caches| && j < |w.caches| && i != j
    ensures Cached(w.caches[j]) <= RestOf(w, i)
  {
    hide Cached, AllCached;
    CacheAmong(w.caches[i := []], j);
  }

  /** What the client holds stays where it is. */
  lemma ClientMoves(cfg: Config, w: World, others: multiset<nat>, g1: Global)
    requires ValidConfig(cfg) && Moved(cfg, w.g, others, g1) && multiset(w.small.Keys) <= others
    requires SmallOk(cfg, w.g.table, w.small) && LargeOk(cfg, w.g.table, w.large)
    ensures SmallOk(cfg, g1.table, w.small) && LargeOk(cfg, g1.table, w.large)
  {
    hide InvBut, Slotted, BinFor, ChunkOf, ValidConfig;
    forall o | o in w.small ensures IsSmall(cfg, g1.table, o, w.small[o]) {
      assert multiset(w.small.Keys)[o] > 0;
    }
  }

  /** An operation that leaves the caches alone. */
  lemma CloseGlobal(s: Setup, w: World, extra: multiset<nat>, g1: Global, extra1: multiset<nat>)
    requires Accounts(s, w, extra)
    requires Moved(s.cfg, w.g, multiset(w.small.Keys) + AllCached(w.caches), g1)
    requires multiset(MarkedSet(s.cfg, g1.table)) == multiset(w.small.Keys) + AllCached(w.caches) + extra1
    ensures Accounts(s, w.(g := g1), extra1)
  {
    hide InvBut, Sized, Held, Cached, AllCached, MarkedSet, SmallOk, LargeOk, ValidConfig, TableOk, Moved;
    var others := multiset(w.small.Keys) + AllCached(w.caches);
    forall j | 0 <= j < |w.caches| ensures Held(s.cfg, g1.table, w.caches[j]) {
      CacheAmong(w.caches, j);
      HeldMoves(s.cfg, w.g, others, g1, w.caches[j]);
    }
    ClientMoves(s.cfg, w, others, g1);
    MovedInv(s.cfg, w.g, others, g1);
  }

  /** An object nobody holds is handed to the client; nobody held it before. */
  lemma HandOver(s: Setup, w: World, p: nat, n: nat)
    requires Accounts(s, w, multiset{p}) && n >= 1 && 0 <= BinFor(s.cfg, n) < SmallBins(s.cfg)
    requires Slotted(s.cfg, w.g.table, p, BinFor(s.cfg, n))
    ensures p !in w.small && p !in w.large && WorldOk(s, w.(small := w.small[p := n]))
  {
    hide InvBut, AllCached, MarkedSet, ValidConfig, TableOk, CachesOk, BinFor, ListsOk;
    var all := multiset(MarkedSet(s.cfg, w.g.table));
    assert all[p] <= 1;
    assert all[p] == multiset(w.small.Keys)[p] + AllCached(w.caches)[p] + 1;
    assert p !in w.small;
    NotBoth(s.cfg, w.g.table, p, BinFor(s.cfg, n));
    assert w.small[p := n].Keys == w.small.Keys + {p};
    SetPlusOne(w.small.Keys, p);
    assert multiset(w.small.Keys) + AllCached(w.caches) + multiset{p} ==
           multiset(w.small.Keys) + multiset{p} + AllCached(w.caches) + multiset{};
  }

  lemma NotBoth(cfg: Config, t: Table, p: nat, b: nat)
    requires ValidConfig(cfg) && Slotted(cfg, t, p, b)
    ensures forall n: nat :: !IsLarge(cfg, t, p, n)
  {
    hide BinFor, OffsetOf, SlotOf;
  }

  /** The client gives a small object back. */
  lemma TakeBack(s: Setup, w: World, p: nat)
    requires WorldOk(s, w) && p in w.small
    ensures Accounts(s, w.(small := w.small - {p}), multiset{p})
    ensures 0 <= BinFor(s.cfg, w.small[p]) < SmallBins(s.cfg)
    ensures Slotted(s.cfg, w.g.table, p, BinFor(s.cfg, w.small[p]))
  {
    hide InvBut, AllCached, MarkedSet, ValidConfig, TableOk, CachesOk, BinFor, ListsOk, LargeOk, Slotted;
    assert IsSmall(s.cfg, w.g.table, p, w.small[p]);
    assert (w.small - {p}).Keys == w.small.Keys - {p};
    SetMinusOne(w.small.Keys, p);
    assert multiset(w.small.Keys - {p}) + multiset{p} + AllCached(w.caches) + multiset{} ==
           multiset(w.small.Keys - {p}) + AllCached(w.caches) + multiset{p};
  }

  // ---------- Allocating ---------- //

  ghost function Received(w: World, o: Offset, n: nat): World {
    if o.At? then w.(small := w.small[o.pos := n]) else w
  }

  lemma ConsistentCache(s: Setup, w: World, i: nat)
    requires WorldOk(s, w) && i < |w.caches|
    ensures Consistent(s, w.g, w.caches[i])
  {
    hide InvBut, Held, MarkedSet, RestOf, ValidConfig, TableOk, Sized, Accounts, Consistent;
    OpenCache(s, w, i, multiset{});
    BalancedFacts(s, w.g, w.caches[i], RestOf(w, i) + multiset{});
  }

  /** `priv_allocate_small_object`: through cache i for the cached bins. */
  ghost function AllocateSmall(s: Setup, w: World, n: nat, i: nat, grow: Storage): (r: (Offset, World))
    requires WorldOk(s, w) && i < |w.caches| && Bounded(s.cfg, grow)
    requires n >= 1 && 0 <= BinFor(s.cfg, n) < SmallBins(s.cfg)
  {
    var b := BinFor(s.cfg, n);
    if b <= s.maxBin then
      ConsistentCache(s, w, i);
      var (o, g1, q1) := Pop(s, w.g, w.caches[i], b, grow);
      (o, Received(w.(g := g1, caches := w.caches[i := q1]), o, n))
    else
      var (os, g1) := AllocSmall(s.cfg, w.g, b, 1, grow);
      (os[0], Received(w.(g := g1), os[0], n))
  }

  /** What allocation promises: everything stays accounted for, and the client gets an offset that
      nobody held; when it fails the client holds what it held. */
  ghost predicate Obtained(s: Setup, w: World, n: nat, o: Offset, w1: World) {
    && WorldOk(s, w1) && w.g.segment <= w1.g.segment
    && (o.At? ==> && o.pos !in w.small && o.pos !in w.large
                  && w1.small + w1.large == (w.small + w.large)[o.pos := n])
    && (o == Null ==> w1.small == w.small && w1.large == w.large)
  }

  lemma AllocateSmallCorrect(s: Setup, w: World, n: nat, i: nat, grow: Storage)
    requires WorldOk(s, w) && i < |w.caches| && Bounded(s.cfg, grow)
    requires n >= 1 && 0 <= BinFor(s.cfg, n) < SmallBins(s.cfg)
    ensures var (o, w1) := AllocateSmall(s, w, n, i, grow); Obtained(s, w, n, o, w1)
  {
    hide InvBut, Held, MarkedSet, RestOf, ValidConfig, TableOk, Sized, Accounts, Pop, AllocSmall, BinFor, Objects,
         AllCached, Slotted, Balanced, Moved, Consistent;
    var b := BinFor(s.cfg, n);
    var (o, w1) := AllocateSmall(s, w, n, i, grow);
    var w0: World;
    if b <= s.maxBin {
      ConsistentCache(s, w, i);
      var (p, g1, q1) := Pop(s, w.g, w.caches[i], b, grow);
      w0 := w.(g := g1, caches := w.caches[i := q1]);
      PopAccounts(s, w, i, b, grow);
    } else {
      w0 := w.(g := AllocSmall(s.cfg, w.g, b, 1, grow).1);
      SingleAccounts(s, w, b, grow);
    }
    ObjectsOne(o);
    if o.At? {
      HandOver(s, w0, o.pos, n);
      UpdateUnion(w.small, w.large, o.pos, n);
    }
  }

  lemma UpdateUnion(a: map<nat, nat>, b: map<nat, nat>, p: nat, n: nat)
    requires p !in b
    ensures a[p := n] + b == (a + b)[p := n]
  {}

  lemma PopAccounts(s: Setup, w: World, i: nat, b: nat, grow: Storage)
    requires WorldOk(s, w) && i < |w.caches| && Bounded(s.cfg, grow) && CachedBin(s, b)
    ensures Consistent(s, w.g, w.caches[i])
    ensures var (o, g1, q1) := Pop(s, w.g, w.caches[i], b, grow);
            && Accounts(s, w.(g := g1, caches := w.caches[i := q1]), Objects([o])) && w.g.segment <= g1.segment
            && (o.At? ==> Slotted(s.cfg, g1.table, o.pos, b))
  {
    hide InvBut, Held, MarkedSet, RestOf, ValidConfig, TableOk, Sized, Accounts, Pop, Objects, Slotted, Balanced,
      CachedBin, Consistent;
    OpenCache(s, w, i, multiset{});
    ConsistentCache(s, w, i);
    var rest := RestOf(w, i);
    assert rest + multiset{} == rest;
    PopCorrect(s, w.g, w.caches[i], b, grow, rest);
    var (o, g1, q1) := Pop(s, w.g, w.caches[i], b, grow);
    CloseCache(s, w, i, multiset{}, g1, q1, Objects([o]));
  }

  lemma SingleAccounts(s: Setup, w: World, b: nat, grow: Storage)
    requires WorldOk(s, w) && Bounded(s.cfg, grow) && b < SmallBins(s.cfg)
    ensures var (os, g1) := AllocSmall(s.cfg, w.g, b, 1, grow);
            && Accounts(s, w.(g := g1), Objects([os[0]])) && w.g.segment <= g1.segment
            && (os[0].At? ==> Slotted(s.cfg, g1.table, os[0].pos, b))
  {
    hide InvBut, MarkedSet, ValidConfig, TableOk, CachesOk, SmallOk, LargeOk, AllocSmall, Objects, Slotted, Keeps,
      AllCached;
    AllocSmallCorrect(s.cfg, w.g, b, 1, grow);
    var (os, g1) := AllocSmall(s.cfg, w.g, b, 1, grow);
    assert os == [os[0]];
    var others := multiset(w.small.Keys) + AllCached(w.caches);
    GrownMoves(s.cfg, w.g, b, os, g1, others);
    assert others + multiset{} == others;
    CloseGlobal(s, w, multiset{}, g1, Objects(os));
  }

  ghost function AllocateLarge(s: Setup, w: World, n: nat, grow: Storage): (r: (Offset, World))
    requires WorldOk(s, w) && Bounded(s.cfg, grow) && n >= 1 && SmallBins(s.cfg) <= BinFor(s.cfg, n)
  {
    var (o, g1, _) := AllocLarge(s.cfg, w.g, BinFor(s.cfg, n), grow);
    (o, w.(g := g1, large := if o.At? then w.large[o.pos := n] else w.large))
  }

  lemma AllocateLargeCorrect(s: Setup, w: World, n: nat, grow: Storage)
    requires WorldOk(s, w) && Bounded(s.cfg, grow) && n >= 1 && SmallBins(s.cfg) <= BinFor(s.cfg, n)
    ensures var (o, w1) := AllocateLarge(s, w, n, grow); Obtained(s, w, n, o, w1)
  {
    hide InvBut, MarkedSet, ValidConfig, TableOk, CachesOk, SmallOk, LargeOk, AllocLarge, Slotted, AllCached,
      FirstFit, RunLength;
    var b := BinFor(s.cfg, n);
    AllocLargeCorrect(s.cfg, w.g, b, grow);
    var (o, g1, _) := AllocLarge(s.cfg, w.g, b, grow);
    SlotsStay(s, w, g1);
    if o.At? {
      var c := FirstFit(w.g.table, RunLength(s.cfg, b));
      LargeAdded(s.cfg, w, c, RunLength(s.cfg, b), n, g1.table);
      assert w.small + w.large[o.pos := n] == (w.small + w.large)[o.pos := n];
    }
  }

  /** When no slot changes, caches and small objects stay accounted for. */
  lemma SlotsStay(s: Setup, w: World, g1: Global)
    requires WorldOk(s, w) && Inv(s.cfg, g1)
    requires MarkedSet(s.cfg, g1.table) == MarkedSet(s.cfg, w.g.table)
    requires forall p: nat, a: nat :: Slotted(s.cfg, g1.table, p, a) == Slotted(s.cfg, w.g.table, p, a)
    ensures CachesOk(s, g1.table, w.caches) && SmallOk(s.cfg, g1.table, w.small)
  {
    hide InvBut, MarkedSet, ValidConfig, TableOk, LargeOk, Slotted, AllCached, BinFor, Sized;
    forall i | 0 <= i < |w.caches| ensures Held(s.cfg, g1.table, w.caches[i]) {
      var q := w.caches[i];
      forall j | 0 <= j < |q| ensures BlockHeld(s.cfg, g1.table, q[j]) { assert BlockHeld(s.cfg, w.g.table, q[j]); }
    }
    forall o | o in w.small ensures IsSmall(s.cfg, g1.table, o, w.small[o]) {}
  }

  lemma LargeAdded(cfg: Config, w: World, c: nat, k: nat, n: nat, u: Table)
    requires ValidConfig(cfg) && SmallOk(cfg, w.g.table, w.small) && LargeOk(cfg, w.g.table, w.large)
    requires n >= 1 && SmallBins(cfg) <= BinFor(cfg, n) && k >= 1 && AllUnused(w.g.table, c, k)
    requires u == PutLarge(w.g.table, c, BinFor(cfg, n), k)
    ensures var o := ChunkSize(cfg) * c;
            o !in w.small && o !in w.large && LargeOk(cfg, u, w.large[o := n])
  {
    hide BinFor;
    var o := ChunkSize(cfg) * c;
    SplitOffset(ChunkSize(cfg), c, 0);
    assert ChunkOf(cfg, o) == c && w.g.table[c] == Unused;
    assert o !in w.small && o !in w.large;
    forall p | p in w.large ensures IsLarge(cfg, u, p, w.large[p]) {
      assert IsLarge(cfg, w.g.table, p, w.large[p]);
    }
  }

  /** `allocate`, through cache i where a cache is used. */
  ghost function Allocate(s: Setup, w: World, n: nat, i: nat, grow: Storage): (r: (Offset, World))
    requires WorldOk(s, w) && i < |w.caches| && Bounded(s.cfg, grow) && (n == 0 || BinFor(s.cfg, n) >= 0)
  {
    if n == 0 then (Null, w)
    else if BinFor(s.cfg, n) < SmallBins(s.cfg) then AllocateSmall(s, w, n, i, grow)
    else AllocateLarge(s, w, n, grow)
  }

  /** The clean-up of this request accesses an entry outside the chunk table: there is no room for it. */
  ghost predicate GoesOutside(s: Setup, w: World, n: nat)
    requires WorldOk(s, w)
  {
    n >= 1 && SmallBins(s.cfg) <= BinFor(s.cfg, n) && NoRoom(s.cfg, w.g.table, BinFor(s.cfg, n))
  }

  /** The bin of a request for as much as the segment may ever have. */
  lemma WholeSegmentBin(cfg: Config, k: nat)
    requires ValidConfig(cfg) && cfg.maxSize == U.Pow2(cfg.m + k)
    ensures cfg.maxSize >= 1 && BinFor(cfg, cfg.maxSize) == SmallBins(cfg) + k
    ensures RunLength(cfg, SmallBins(cfg) + k) == MaxChunks(cfg)
  {
    hide RunLength, MaxChunks, S.ClassSize, S.SizeIndex, S.NumLarge, U.Pow2;
    var b := SmallBins(cfg) + k;
    WholeTableBin(cfg, k);
    S.ClassesIncrease(cfg.m, b - 1, b);
    S.LeastClassBracket(cfg.m, cfg.maxSize, b);
    assert BinFor(cfg, cfg.maxSize) >= 0;
    S.LeastClassUnique(cfg.m, cfg.maxSize, BinFor(cfg, cfg.maxSize), b);
  }

  /** For example that request, while the client holds anything at all. */
  lemma WholeSegmentOutside(s: Setup, w: World, k: nat)
    requires WorldOk(s, w) && s.cfg.maxSize == U.Pow2(s.cfg.m + k) && (w.small != map[] || w.large != map[])
    ensures GoesOutside(s, w, s.cfg.maxSize)
  {
    hide Accounts, BinFor, RunLength, MaxChunks, ChunkOf, U.Pow2;
    WholeSegmentBin(s.cfg, k);
    var p: nat :| p in w.small || p in w.large;
    DeallocateBranch(s, w, p);
    WholeTableUsed(s, w, ChunkOf(s.cfg, p), SmallBins(s.cfg) + k);
  }

  lemma WholeTableUsed(s: Setup, w: World, c: nat, b: nat)
    requires WorldOk(s, w) && c < |w.g.table| && w.g.table[c] != Unused && RunLength(s.cfg, b) == MaxChunks(s.cfg)
    ensures NoRoom(s.cfg, w.g.table, b)
  {
    hide RunLength, MaxChunks, CachesOk, SmallOk, LargeOk, MarkedSet, AllCached;
    forall k: nat ensures !AllUnused(w.g.table, k, |w.g.table|) {}
  }

  lemma AllocateCorrect(s: Setup, w: World, n: nat, i: nat, grow: Storage)
    requires WorldOk(s, w) && i < |w.caches| && Bounded(s.cfg, grow) && (n == 0 || BinFor(s.cfg, n) >= 0)
    ensures var (o, w1) := Allocate(s, w, n, i, grow); Obtained(s, w, n, o, w1) && (n == 0 ==> o == Null && w1 == w)
  {
    hide Accounts, AllocateSmall, AllocateLarge, BinFor;
    if n > 0 {
      if BinFor(s.cfg, n) < SmallBins(s.cfg) {
        AllocateSmallCorrect(s, w, n, i, grow);
      } else {
        AllocateLargeCorrect(s, w, n, grow);
      }
    }
  }

  // ---------- Deallocating ---------- //

  ghost function DeallocateSmall(s: Setup, w: World, p: nat, i: nat): (w1: World)
    requires WorldOk(s, w) && i < |w.caches| && p in w.small
  {
    SmallChunk(s, w, p);
    var b := w.g.table[ChunkOf(s.cfg, p)].bin;
    var small := w.small - {p};
    if b <= s.maxBin then
      ConsistentCache(s, w, i);
      var (g1, q1) := PushObject(s, w.g, w.caches[i], b, At(p));
      w.(g := g1, caches := w.caches[i := q1], small := small)
    else
      SingleHolds(s.cfg, w.g.table, b, p);
      w.(g := FreeAll(s.cfg, w.g, b, [At(p)]), small := small)
  }

  /** The chunk directory knows the bin of a small object. */
  lemma SmallChunk(s: Setup, w: World, p: nat)
    requires WorldOk(s, w) && p in w.small
    ensures var c, b := ChunkOf(s.cfg, p), BinFor(s.cfg, w.small[p]);
            && c < |w.g.table| && w.g.table[c].Small? && w.g.table[c].bin == b < SmallBins(s.cfg)
            && Slotted(s.cfg, w.g.table, p, b)
  {
    hide InvBut, AllCached, MarkedSet, ValidConfig, TableOk, CachesOk, BinFor, ListsOk, LargeOk, OffsetOf, SlotOf;
    TakeBack(s, w, p);
  }

  lemma SingleHolds(cfg: Config, t: Table, b: nat, p: nat)
    requires ValidConfig(cfg) && Slotted(cfg, t, p, b)
    ensures Holds(cfg, t, b, [At(p)])
  {
    hide MarkedSet, OffsetOf, SlotOf, ChunkOf;
    ObjectsOne(At(p));
  }

  lemma DeallocateSmallCorrect(s: Setup, w: World, p: nat, i: nat)
    requires WorldOk(s, w) && i < |w.caches| && p in w.small
    ensures var w1 := DeallocateSmall(s, w, p, i);
            WorldOk(s, w1) && w.g.segment <= w1.g.segment && w1.small == w.small - {p} && w1.large == w.large
  {
    hide InvBut, Held, MarkedSet, RestOf, ValidConfig, TableOk, Sized, Accounts, PushObject, FreeAll, BinFor, Holds,
         Slotted, Balanced, Moved, Consistent, CachedBin;
    SmallChunk(s, w, p);
    TakeBack(s, w, p);
    var b := w.g.table[ChunkOf(s.cfg, p)].bin;
    var w0 := w.(small := w.small - {p});
    if b <= s.maxBin {
      PushAccounts(s, w0, p, b, i);
    } else {
      SingleHolds(s.cfg, w.g.table, b, p);
      FreeAccounts(s, w0, p, b);
    }
  }

  lemma PushAccounts(s: Setup, w: World, p: nat, b: nat, i: nat)
    requires Accounts(s, w, multiset{p}) && i < |w.caches| && b < SmallBins(s.cfg) && b <= s.maxBin
    requires Slotted(s.cfg, w.g.table, p, b)
    ensures Consistent(s, w.g, w.caches[i])
    ensures var (g1, q1) := PushObject(s, w.g, w.caches[i], b, At(p));
            WorldOk(s, w.(g := g1, caches := w.caches[i := q1])) && w.g.segment <= g1.segment
  {
    hide InvBut, Held, MarkedSet, RestOf, ValidConfig, TableOk, Sized, Accounts, PushObject, Slotted, Balanced,
      Consistent;
    OpenCache(s, w, i, multiset{p});
    BalancedFacts(s, w.g, w.caches[i], RestOf(w, i) + multiset{p});
    PushObjectCorrect(s, w.g, w.caches[i], b, p, RestOf(w, i));
    var (g1, q1) := PushObject(s, w.g, w.caches[i], b, At(p));
    assert RestOf(w, i) + multiset{} == RestOf(w, i);
    CloseCache(s, w, i, multiset{p}, g1, q1, multiset{});
  }

  lemma FreeAccounts(s: Setup, w: World, p: nat, b: nat)
    requires Accounts(s, w, multiset{p}) && b < SmallBins(s.cfg)
    requires Slotted(s.cfg, w.g.table, p, b) && Holds(s.cfg, w.g.table, b, [At(p)])
    ensures var g1 := FreeAll(s.cfg, w.g, b, [At(p)]);
            WorldOk(s, w.(g := g1)) && w.g.segment <= g1.segment
  {
    hide InvBut, MarkedSet, ValidConfig, TableOk, CachesOk, SmallOk, LargeOk, FreeAll, Slotted, AllCached, Holds;
    FreeAllCorrect(s.cfg, w.g, b, [At(p)]);
    ObjectsOne(At(p));
    var g1 := FreeAll(s.cfg, w.g, b, [At(p)]);
    var others := multiset(w.small.Keys) + AllCached(w.caches);
    Cancel(multiset(MarkedSet(s.cfg, g1.table)), others, multiset{p});
    ShrunkMoves(s.cfg, w.g, multiset{p}, g1, others);
    CloseGlobal(s, w, multiset{p}, g1, multiset{});
  }

  ghost function DeallocateLarge(s: Setup, w: World, p: nat): (w1: World)
    requires WorldOk(s, w) && p in w.large
  {
    LargeChunk(s, w, p);
    w.(g := FreeLarge(w.g, ChunkOf(s.cfg, p)), large := w.large - {p})
  }

  lemma LargeChunk(s: Setup, w: World, p: nat)
    requires WorldOk(s, w) && p in w.large
    ensures ChunkOf(s.cfg, p) < |w.g.table| && w.g.table[ChunkOf(s.cfg, p)].Head?
  {
    hide InvBut, MarkedSet, ValidConfig, TableOk, CachesOk, SmallOk, AllCached, BinFor, ChunkOf;
    assert IsLarge(s.cfg, w.g.table, p, w.large[p]);
  }

  lemma DeallocateLargeCorrect(s: Setup, w: World, p: nat)
    requires WorldOk(s, w) && p in w.large
    ensures var w1 := DeallocateLarge(s, w, p);
            WorldOk(s, w1) && w1.g.segment == w.g.segment && w1.small == w.small && w1.large == w.large - {p}
  {
    hide InvBut, MarkedSet, ValidConfig, TableOk, CachesOk, SmallOk, LargeOk, Slotted, AllCached, RunLength, ChunkOf,
      Erase;
    LargeChunk(s, w, p);
    var c := ChunkOf(s.cfg, p);
    FreeLargeCorrect(s.cfg, w.g, c);
    SlotsStay(s, w, FreeLarge(w.g, c));
    LargeRemoved(s.cfg, w, p, RunLength(s.cfg, w.g.table[c].bin));
  }

  lemma LargeRemoved(cfg: Config, w: World, p: nat, k: nat)
    requires ValidConfig(cfg) && LargeOk(cfg, w.g.table, w.large) && TableOk(cfg, w.g.table) && p in w.large
    requires ChunkOf(cfg, p) < |w.g.table| && w.g.table[ChunkOf(cfg, p)].Head?
    requires k == RunLength(cfg, w.g.table[ChunkOf(cfg, p)].bin) && 1 <= k && ChunkOf(cfg, p) + k <= |w.g.table|
    ensures LargeOk(cfg, Clear(w.g.table, ChunkOf(cfg, p), k), w.large - {p})
  {
    hide BinFor, RunLength, ValidConfig, TableOk, ChunkOf, ChunkSize;
    var t, c := w.g.table, ChunkOf(cfg, p);
    var u := Clear(t, c, k);
    EntryFromTable(cfg, t, c);
    assert IsLarge(cfg, t, p, w.large[p]);
    forall o | o in w.large && o != p ensures IsLarge(cfg, u, o, w.large[o]) {
      assert IsLarge(cfg, t, o, w.large[o]);
      assert ChunkOf(cfg, o) != c;
    }
    forall d | 0 <= d < |u| && u[d].Head? ensures ChunkSize(cfg) * d in w.large - {p} {
      assert t[d].Head? && d != c;
      TwoChunks(cfg, c, d);
    }
  }

  lemma TwoChunks(cfg: Config, c: nat, d: nat)
    requires ValidConfig(cfg) && c != d
    ensures ChunkSize(cfg) * c != ChunkSize(cfg) * d
  {
    SplitOffset(ChunkSize(cfg), c, 0);
    SplitOffset(ChunkSize(cfg), d, 0);
  }

  /** The bin in the chunk directory tells small from large objects. */
  lemma DeallocateBranch(s: Setup, w: World, p: nat)
    requires WorldOk(s, w) && (p in w.small || p in w.large)
    ensures ChunkOf(s.cfg, p) < |w.g.table| && w.g.table[ChunkOf(s.cfg, p)] != Unused
    ensures p in w.small <==> w.g.table[ChunkOf(s.cfg, p)].bin < SmallBins(s.cfg)
    ensures !(p in w.small && p in w.large)
  {
    hide InvBut, MarkedSet, ValidConfig, TableOk, CachesOk, AllCached, ChunkOf, BinFor, SlotOf, OffsetOf;
    if p in w.small { SmallChunk(s, w, p); }
    if p in w.large {
      assert IsLarge(s.cfg, w.g.table, p, w.large[p]);
    }
  }

  /** `deallocate` of an offset the client holds, through cache i where a cache is used. */
  ghost function Deallocate(s: Setup, w: World, o: Offset, i: nat): (w1: World)
    requires WorldOk(s, w) && i < |w.caches| && (o.At? ==> o.pos in w.small || o.pos in w.large)
  {
    if o == Null then w else
    DeallocateBranch(s, w, o.pos);
    if w.g.table[ChunkOf(s.cfg, o.pos)].bin < SmallBins(s.cfg) then DeallocateSmall(s, w, o.pos, i)
    else DeallocateLarge(s, w, o.pos)
  }

  lemma DeallocateCorrect(s: Setup, w: World, o: Offset, i: nat)
    requires WorldOk(s, w) && i < |w.caches| && (o.At? ==> o.pos in w.small || o.pos in w.large)
    ensures var w1 := Deallocate(s, w, o, i);
            && WorldOk(s, w1) && w.g.segment <= w1.g.segment
            && w1.small + w1.large == (if o.At? then (w.small + w.large) - {o.pos} else w.small + w.large)
            && (o == Null ==> w1 == w)
  {
    hide Accounts, DeallocateSmall, DeallocateLarge;
    if o.At? {
      DeallocateBranch(s, w, o.pos);
      if o.pos in w.small {
        DeallocateSmallCorrect(s, w, o.pos, i);
      } else {
        DeallocateLargeCorrect(s, w, o.pos);
      }
    }
  }
}
