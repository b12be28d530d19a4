/** One object cache on top of the global allocator: `pop` and `push` with the two callbacks carried out
    (include/metall/kernel/object_cache.hpp, include/metall/kernel/segment_allocator.hpp). */
module CachedAllocator {
  import opened ChunkTable
  import opened BlockQueue
  import opened CacheBudget
  import opened Ledger
  import opened GlobalAllocator
  import S = SizeClasses

  /** Chunk and segment size, the byte budget of a cache, and the last bin that is cached. */
  datatype Setup = Setup(cfg: Config, maxBytes: nat, maxBin: nat)

  ghost predicate ValidSetup(s: Setup) {
    && ValidConfig(s.cfg) && s.maxBytes >= 1024
    && forall b :: 0 <= b <= s.maxBin && b < SmallBins(s.cfg) ==> Affordable(s.cfg, s.maxBytes, b)
  }

  /** Objects of this bin go through the caches. */
  ghost predicate CachedBin(s: Setup, b: nat)
    requires ValidConfig(s.cfg)
  {
    b < SmallBins(s.cfg) && b <= s.maxBin
  }

  /** The shape of a cache: packed blocks of cached bins, within the budget and the number of blocks. */
  ghost predicate Sized(s: Setup, q: Queue)
    requires ValidConfig(s.cfg)
  {
    && Packed(q) && Bytes(s.cfg, q) <= s.maxBytes && |q| <= NumBlocks(s.cfg, s.maxBytes)
    && forall j :: 0 <= j < |q| ==> CachedBin(s, q[j].bin)
  }

  /** Every cached offset is that of a marked slot of its block's bin. */
  ghost predicate Held(cfg: Config, t: Table, q: Queue)
    requires ValidConfig(cfg)
  {
    forall j :: 0 <= j < |q| ==> BlockHeld(cfg, t, q[j])
  }

  // ---------- What one operation may do to everyone else ---------- //

  /** From g to g1 the allocator stays sound, the segment only grows, large objects stay,
      and the slots of the offsets in `others` stay what they are. */
  ghost predicate Moved(cfg: Config, g: Global, others: multiset<nat>, g1: Global)
    requires ValidConfig(cfg)
  {
    && Inv(cfg, g1) && SameLarge(g.table, g1.table) && g.segment <= g1.segment
    && forall o: nat, b: nat :: o in others && Slotted(cfg, g.table, o, b) ==> Slotted(cfg, g1.table, o, b)
  }

  lemma GrownMoves(cfg: Config, g: Global, b: nat, os: seq<Offset>, g1: Global, others: multiset<nat>)
    requires Inv(cfg, g) && Grown(cfg, g, b, os, g1)
    ensures Moved(cfg, g, others, g1)
  {
    hide Slotted, InvBut, MarkedSet;
  }

  lemma ShrunkMoves(cfg: Config, g: Global, os: multiset<nat>, g1: Global, others: multiset<nat>)
    requires Inv(cfg, g) && Shrunk(cfg, g, os, g1) && others <= multiset(MarkedSet(cfg, g1.table))
    ensures Moved(cfg, g, others, g1)
  {
    hide Slotted, InvBut, MarkedSet;
    forall o: nat | o in others ensures o in MarkedSet(cfg, g1.table) {
      assert multiset(MarkedSet(cfg, g1.table))[o] > 0;
    }
  }

  lemma MovedTrans(cfg: Config, g: Global, g1: Global, g2: Global, others: multiset<nat>)
    requires ValidConfig(cfg) && Moved(cfg, g, others, g1) && Moved(cfg, g1, others, g2)
    ensures Moved(cfg, g, others, g2)
  {
    hide Slotted, InvBut;
  }

  /** Blocks whose objects are among the others stay held. */
  lemma HeldMoves(cfg: Config, g: Global, others: multiset<nat>, g1: Global, q: Queue)
    requires ValidConfig(cfg) && Moved(cfg, g, others, g1) && Held(cfg, g.table, q) && Cached(q) <= others
    ensures Held(cfg, g1.table, q)
  {
    hide Slotted, InvBut, Cached, Objects;
    forall j | 0 <= j < |q| ensures BlockHeld(cfg, g1.table, q[j]) {
      assert BlockHeld(cfg, g.table, q[j]);
      forall i | 0 <= i < |q[j].items| && q[j].items[i].At?
        ensures Slotted(cfg, g1.table, q[j].items[i].pos, q[j].bin)
      {
        ObjectsMember(q[j].items, i);
        CachedMember(q, j, q[j].items[i].pos);
      }
    }
  }

  lemma HeldParts(cfg: Config, t: Table, p: Queue, q: Queue)
    requires ValidConfig(cfg)
    ensures Held(cfg, t, p + q) <==> Held(cfg, t, p) && Held(cfg, t, q)
  {
    hide BlockHeld;
    if Held(cfg, t, p + q) {
      forall j | 0 <= j < |p| ensures BlockHeld(cfg, t, p[j]) { assert (p + q)[j] == p[j]; }
      forall j | 0 <= j < |q| ensures BlockHeld(cfg, t, q[j]) { assert (p + q)[|p| + j] == q[j]; }
    }
  }

  // ---------- Evicting ---------- //

  /** Eviction: the objects of the oldest blocks go back to the global allocator, the others stay cached. */
  lemma EvictOk(s: Setup, g: Global, q: Queue, need: nat, others: multiset<nat>)
    requires ValidSetup(s) && need <= s.maxBytes && NumBlocks(s.cfg, s.maxBytes) > 0
    requires Inv(s.cfg, g) && Packed(q) && Held(s.cfg, g.table, q)
    requires multiset(MarkedSet(s.cfg, g.table)) == others + Cached(q)
    ensures var (ev, rest) := MakeRoom(s.cfg, s.maxBytes, q, need);
            && HoldsBlocks(s.cfg, g.table, ev)
            && var g1 := FreeBlocks(s.cfg, g, ev);
            && Moved(s.cfg, g, others, g1) && Held(s.cfg, g1.table, rest) && Packed(rest)
            && multiset(MarkedSet(s.cfg, g1.table)) == others + Cached(rest)
  {
    hide Slotted, InvBut, Cached, Objects, MarkedSet, MakeRoom, Packed, NumBlocks, BlockHeld, FreeBlocks, TableOk,
      Room, Shrunk;
    var cfg := s.cfg;
    var (ev, rest) := MakeRoom(cfg, s.maxBytes, q, need);
    HeldParts(cfg, g.table, ev, rest);
    CachedConcat(ev, rest);
    MakeRoomStacks(cfg, s.maxBytes, q, need, 0);
    FreeBlocksCorrect(cfg, g, ev);
    var g1 := FreeBlocks(cfg, g, ev);
    ShrunkLedger(cfg, g, ev, g1, others + Cached(rest));
    ShrunkMoves(cfg, g, Cached(ev), g1, others + Cached(rest));
    HeldMoves(cfg, g, others + Cached(rest), g1, rest);
    FewerOthers(cfg, g, g1, others, Cached(rest));
  }

  lemma FewerOthers(cfg: Config, g: Global, g1: Global, a: multiset<nat>, b: multiset<nat>)
    requires ValidConfig(cfg) && Moved(cfg, g, a + b, g1)
    ensures Moved(cfg, g, a, g1)
  {
    hide Slotted, InvBut;
  }

  lemma ShrunkLedger(cfg: Config, g: Global, ev: Queue, g1: Global, left: multiset<nat>)
    requires ValidConfig(cfg) && Shrunk(cfg, g, Cached(ev), g1)
    requires multiset(MarkedSet(cfg, g.table)) == left + Cached(ev)
    ensures multiset(MarkedSet(cfg, g1.table)) == left
  {
    hide MarkedSet, Cached, InvBut, Slotted;
    Cancel(multiset(MarkedSet(cfg, g1.table)), left, Cached(ev));
  }

  // ---------- Popping ---------- //

  /** The queue after the refill, with the state of the allocator. */
  ghost function Refill(s: Setup, g: Global, q: Queue, b: nat, grow: Storage): (r: (Global, Queue))
    requires ValidSetup(s) && Inv(s.cfg, g) && Held(s.cfg, g.table, q) && Packed(q)
    requires Cached(q) <= multiset(MarkedSet(s.cfg, g.table)) && CachedBin(s, b) && Bounded(s.cfg, grow)
  {
    AffordableRefill(s, b);
    var (ev, rest) := MakeRoom(s.cfg, s.maxBytes, q, RefillBytes(s.cfg, b));
    EvictOk(s, g, q, RefillBytes(s.cfg, b), multiset(MarkedSet(s.cfg, g.table)) - Cached(q));
    var (os, g1) := AllocSmall(s.cfg, FreeBlocks(s.cfg, g, ev), b, RefillCount(s.cfg, b), grow);
    (g1, rest + [Block(b, os)])
  }

  lemma AffordableRefill(s: Setup, b: nat)
    requires ValidSetup(s) && CachedBin(s, b)
    ensures RefillBytes(s.cfg, b) <= s.maxBytes && ObjectSize(s.cfg, b) <= RefillBytes(s.cfg, b)
    ensures NumBlocks(s.cfg, s.maxBytes) > 0
  {
    hide ObjectSize, RefillCount, NumBlocks;
    assert Affordable(s.cfg, s.maxBytes, b);
    SmallestBudget(s.cfg, s.maxBytes);
    S.TimesMono(1, RefillCount(s.cfg, b), ObjectSize(s.cfg, b));
  }

  /** A new block for a bin without one. */
  lemma NewBlockPacked(q: Queue, x: Block)
    requires Packed(q) && Active(q, x.bin) == -1 && |x.items| <= CAPACITY
    ensures Packed(q + [x]) && Active(q + [x], x.bin) == |q|
  {
    hide Active;
    var r := q + [x];
    ActiveUnique(r, x.bin, |q|);
    forall i | 0 <= i < |q| ensures Active(r, q[i].bin) == Active(q, q[i].bin) {
      ActiveUnique(r, q[i].bin, Active(q, q[i].bin));
    }
  }

  lemma NewBlockSized(s: Setup, q: Queue, b: nat, os: seq<Offset>)
    requires ValidSetup(s) && CachedBin(s, b) && Packed(q) && Active(q, b) == -1 && |os| == RefillCount(s.cfg, b)
    requires Room(s.cfg, s.maxBytes, q, RefillBytes(s.cfg, b))
    requires forall j :: 0 <= j < |q| ==> CachedBin(s, q[j].bin)
    ensures Sized(s, q + [Block(b, os)]) && Active(q + [Block(b, os)], b) == |q|
  {
    hide Active, Bytes, NumBlocks, ObjectSize, Packed;
    NewBlockPacked(q, Block(b, os));
    BytesConcat(s.cfg, q, [Block(b, os)]);
    BytesOne(s.cfg, Block(b, os));
  }

  /** The state between operations: the cache is well shaped and holds marked slots, and the marked slots
      are what the cache holds plus what `others` hold. */
  ghost predicate Balanced(s: Setup, g: Global, q: Queue, others: multiset<nat>) {
    && ValidSetup(s) && Inv(s.cfg, g) && Sized(s, q) && Held(s.cfg, g.table, q)
    && multiset(MarkedSet(s.cfg, g.table)) == others + Cached(q)
  }

  /** The same without naming the others. */
  ghost predicate Consistent(s: Setup, g: Global, q: Queue): (ok: bool)
    ensures ok ==> ValidSetup(s) && Inv(s.cfg, g)
  {
    && ValidSetup(s) && Inv(s.cfg, g) && Sized(s, q) && Held(s.cfg, g.table, q)
    && Cached(q) <= multiset(MarkedSet(s.cfg, g.table))
  }

  ghost function Others(s: Setup, g: Global, q: Queue): multiset<nat>
    requires Consistent(s, g, q)
  {
    multiset(MarkedSet(s.cfg, g.table)) - Cached(q)
  }

  lemma ConsistentBalanced(s: Setup, g: Global, q: Queue)
    requires Consistent(s, g, q)
    ensures Balanced(s, g, q, Others(s, g, q))
  {
    hide InvBut, Held, MarkedSet, Cached, Sized, ValidConfig, TableOk;
  }

  lemma BalancedFacts(s: Setup, g: Global, q: Queue, others: multiset<nat>)
    requires Balanced(s, g, q, others)
    ensures ValidSetup(s) && Inv(s.cfg, g) && Held(s.cfg, g.table, q) && Packed(q)
    ensures Cached(q) <= multiset(MarkedSet(s.cfg, g.table))
    ensures multiset(MarkedSet(s.cfg, g.table)) == others + Cached(q)
    ensures Consistent(s, g, q) && Others(s, g, q) == others
  {
    hide InvBut, Held, MarkedSet, Cached, Packed, Bytes, NumBlocks, ValidConfig, TableOk;
  }

  lemma RefillCorrect(s: Setup, g: Global, q: Queue, b: nat, grow: Storage, others: multiset<nat>)
    requires Balanced(s, g, q, others) && CachedBin(s, b) && Bounded(s.cfg, grow) && Active(q, b) == -1
    ensures Held(s.cfg, g.table, q) && Packed(q) && Cached(q) <= multiset(MarkedSet(s.cfg, g.table))
    ensures var (g1, q1) := Refill(s, g, q, b, grow);
            && Moved(s.cfg, g, others, g1) && Balanced(s, g1, q1, others)
            && Active(q1, b) >= 0 && |q1[Active(q1, b)].items| > 0
  {
    hide Slotted, InvBut, Cached, Objects, MarkedSet, MakeRoom, Packed, NumBlocks, Held, BlockHeld, FreeBlocks, TableOk,
         Room, Moved, AllocSmall, Active, Sized, RefillCount, ObjectSize, ValidConfig, Grown;
    var cfg := s.cfg;
    BalancedFacts(s, g, q, others);
    AffordableRefill(s, b);
    EvictOk(s, g, q, RefillBytes(cfg, b), others);
    var (ev, rest) := MakeRoom(cfg, s.maxBytes, q, RefillBytes(cfg, b));
    var g0 := FreeBlocks(cfg, g, ev);
    MovedInv(cfg, g, others, g0);
    AllocSmallCorrect(cfg, g0, b, RefillCount(cfg, b), grow);
    var (os, g1) := AllocSmall(cfg, g0, b, RefillCount(cfg, b), grow);
    MakeRoomActive(cfg, s.maxBytes, q, RefillBytes(cfg, b), b);
    RestCached(s, q, ev, rest);
    NewBlockSized(s, rest, b, os);
    GrownMoves(cfg, g0, b, os, g1, others);
    MovedTrans(cfg, g, g0, g1, others);
    GrownLedger(cfg, g0, rest, b, os, g1, others);
  }

  lemma MovedInv(cfg: Config, g: Global, others: multiset<nat>, g1: Global)
    requires ValidConfig(cfg) && Moved(cfg, g, others, g1)
    ensures Inv(cfg, g1)
  {}

  lemma RestCached(s: Setup, q: Queue, ev: Queue, rest: Queue)
    requires ValidConfig(s.cfg) && Sized(s, q) && q == ev + rest
    ensures forall j :: 0 <= j < |rest| ==> CachedBin(s, rest[j].bin)
  {
    hide Packed, Bytes, NumBlocks, CachedBin;
    forall j | 0 <= j < |rest| ensures CachedBin(s, rest[j].bin) { assert q[|ev| + j] == rest[j]; }
  }

  /** The refilled block holds the slots just allocated. */
  lemma GrownLedger(cfg: Config, g: Global, q: Queue, b: nat, os: seq<Offset>, g1: Global, others: multiset<nat>)
    requires Inv(cfg, g) && b < SmallBins(cfg) && Grown(cfg, g, b, os, g1) && Held(cfg, g.table, q)
    requires multiset(MarkedSet(cfg, g.table)) == others + Cached(q)
    ensures Inv(cfg, g1) && Held(cfg, g1.table, q + [Block(b, os)])
    ensures multiset(MarkedSet(cfg, g1.table)) == others + Cached(q + [Block(b, os)])
  {
    hide Slotted, InvBut, Cached, Objects, MarkedSet, TableOk, ValidConfig, Keeps;
    CachedConcat(q, [Block(b, os)]);
    CachedOne(Block(b, os));
    GrownMoves(cfg, g, b, os, g1, Cached(q));
    HeldMoves(cfg, g, Cached(q), g1, q);
    HeldParts(cfg, g1.table, q, [Block(b, os)]);
  }

  lemma DropBalanced(s: Setup, g: Global, q: Queue, b: nat, others: multiset<nat>)
    requires Balanced(s, g, q, others)
    ensures var r := DropEmpty(q, b);
            Balanced(s, g, r, others) && (Active(r, b) >= 0 ==> |r[Active(r, b)].items| > 0)
  {
    hide Slotted, InvBut, Cached, MarkedSet, Packed, NumBlocks, BlockHeld, Active, Bytes, ValidConfig, CachedBin;
    DropEmptyCorrect(q, b, b);
    CachedDropEmpty(q, b);
    BytesDropEmpty(s.cfg, q, b);
    var r := DropEmpty(q, b);
    forall j | 0 <= j < |r| ensures BlockHeld(s.cfg, g.table, r[j]) && CachedBin(s, r[j].bin) {
      if r != q {
        var i := Active(q, b);
        assert r[j] == if j < i then q[j] else q[j + 1];
      }
    }
  }

  /** `priv_pop`. */
  ghost function Pop(s: Setup, g: Global, q: Queue, b: nat, grow: Storage): (r: (Offset, Global, Queue))
    requires Consistent(s, g, q) && CachedBin(s, b) && Bounded(s.cfg, grow)
  {
    ConsistentBalanced(s, g, q);
    DropBalanced(s, g, q, b, Others(s, g, q));
    var q0 := DropEmpty(q, b);
    if Active(q0, b) >= 0 then (Top(q0, b), g, TakeTop(q0, b)) else
    RefillCorrect(s, g, q0, b, grow, Others(s, g, q));
    var (g1, q1) := Refill(s, g, q0, b, grow);
    (Top(q1, b), g1, TakeTop(q1, b))
  }

  /** The top object leaves the cache. */
  lemma TakeBalanced(s: Setup, g: Global, q: Queue, b: nat, others: multiset<nat>)
    requires Balanced(s, g, q, others) && Active(q, b) >= 0 && |q[Active(q, b)].items| > 0
    ensures Balanced(s, g, TakeTop(q, b), others + Objects([Top(q, b)]))
    ensures Top(q, b).At? ==> Slotted(s.cfg, g.table, Top(q, b).pos, b)
  {
    hide Slotted, InvBut, Cached, MarkedSet, Packed, NumBlocks, Active, Bytes, ValidConfig, CachedBin, Objects,
      ObjectSize;
    TakeTopCorrect(q, b, b);
    CachedTakeTop(q, b);
    BytesTakeTop(s.cfg, q, b);
    var i, r := Active(q, b), TakeTop(q, b);
    assert BlockHeld(s.cfg, g.table, q[i]);
    forall j | 0 <= j < |r| ensures BlockHeld(s.cfg, g.table, r[j]) && CachedBin(s, r[j].bin) {
      assert BlockHeld(s.cfg, g.table, q[j]) && CachedBin(s, q[j].bin);
    }
  }

  /** The object popped goes from the cache to the caller: everything else keeps its owner. */
  lemma PopCorrect(s: Setup, g: Global, q: Queue, b: nat, grow: Storage, others: multiset<nat>)
    requires Balanced(s, g, q, others) && CachedBin(s, b) && Bounded(s.cfg, grow)
    ensures Consistent(s, g, q)
    ensures var (o, g1, q1) := Pop(s, g, q, b, grow);
            && Moved(s.cfg, g, others, g1) && Balanced(s, g1, q1, others + Objects([o]))
            && (o.At? ==> Slotted(s.cfg, g1.table, o.pos, b))
  {
    hide Slotted, InvBut, Active, Balanced, Objects, ValidConfig, CachedBin, Refill, DropEmpty, Consistent, Others;
    BalancedFacts(s, g, q, others);
    DropBalanced(s, g, q, b, others);
    var q0 := DropEmpty(q, b);
    if Active(q0, b) >= 0 {
      MovedSelf(s, g, q, others);
      TakeBalanced(s, g, q0, b, others);
    } else {
      BalancedFacts(s, g, q0, others);
      RefillCorrect(s, g, q0, b, grow, others);
      var (g1, q1) := Refill(s, g, q0, b, grow);
      TakeBalanced(s, g1, q1, b, others);
    }
  }

  lemma MovedSelf(s: Setup, g: Global, q: Queue, others: multiset<nat>)
    requires Balanced(s, g, q, others)
    ensures Moved(s.cfg, g, others, g)
  {
    hide Slotted, InvBut, MarkedSet;
  }

  // ---------- Pushing ---------- //

  /** `priv_push`. */
  ghost function PushObject(s: Setup, g: Global, q: Queue, b: nat, o: Offset): (r: (Global, Queue))
    requires Consistent(s, g, q) && CachedBin(s, b)
  {
    AffordableRefill(s, b);
    ConsistentBalanced(s, g, q);
    EvictOk(s, g, q, ObjectSize(s.cfg, b), Others(s, g, q));
    var (ev, rest) := MakeRoom(s.cfg, s.maxBytes, q, ObjectSize(s.cfg, b));
    (FreeBlocks(s.cfg, g, ev), Push(rest, b, o))
  }

  /** The object pushed goes from the caller to the cache: everything else keeps its owner. */
  lemma PushObjectCorrect(s: Setup, g: Global, q: Queue, b: nat, p: nat, others: multiset<nat>)
    requires Balanced(s, g, q, others + multiset{p}) && CachedBin(s, b) && Slotted(s.cfg, g.table, p, b)
    ensures Consistent(s, g, q)
    ensures var (g1, q1) := PushObject(s, g, q, b, At(p));
            Moved(s.cfg, g, others, g1) && Balanced(s, g1, q1, others)
  {
    hide Slotted, InvBut, Cached, Objects, MarkedSet, MakeRoom, Packed, NumBlocks, BlockHeld, FreeBlocks, TableOk,
         Moved, Active, ObjectSize, ValidConfig, Push, Sized, Room, Held, Bytes;
    var cfg, all := s.cfg, others + multiset{p};
    AffordableRefill(s, b);
    BalancedFacts(s, g, q, all);
    EvictOk(s, g, q, ObjectSize(cfg, b), all);
    var (ev, rest) := MakeRoom(cfg, s.maxBytes, q, ObjectSize(cfg, b));
    var g1 := FreeBlocks(cfg, g, ev);
    RestCached(s, q, ev, rest);
    PushSized(s, rest, b, At(p));
    MovedSlot(cfg, g, all, g1, p, b);
    PushHeld(cfg, g1.table, rest, b, At(p));
    CachedPush(rest, b, At(p));
    ObjectsOne(At(p));
    FewerOthers(cfg, g, g1, others, multiset{p});
  }

  lemma MovedSlot(cfg: Config, g: Global, others: multiset<nat>, g1: Global, p: nat, b: nat)
    requires ValidConfig(cfg) && Moved(cfg, g, others, g1) && p in others && Slotted(cfg, g.table, p, b)
    ensures Inv(cfg, g1) && Slotted(cfg, g1.table, p, b)
  {
    hide Slotted, InvBut;
  }

  lemma PushSized(s: Setup, q: Queue, b: nat, o: Offset)
    requires ValidSetup(s) && CachedBin(s, b) && Packed(q) && Room(s.cfg, s.maxBytes, q, ObjectSize(s.cfg, b))
    requires forall j :: 0 <= j < |q| ==> CachedBin(s, q[j].bin)
    ensures Sized(s, Push(q, b, o))
  {
    hide Active, Bytes, NumBlocks, ObjectSize, Packed, CachedBin;
    PushCorrect(q, b, o, b);
    BytesPush(s.cfg, q, b, o);
  }

  lemma PushHeld(cfg: Config, t: Table, q: Queue, b: nat, o: Offset)
    requires ValidConfig(cfg) && Held(cfg, t, q) && b < SmallBins(cfg) && o.At? && Slotted(cfg, t, o.pos, b)
    ensures Held(cfg, t, Push(q, b, o))
  {
    hide Active, Slotted, ValidConfig;
    var r, i := Push(q, b, o), Active(q, b);
    forall j | 0 <= j < |r| ensures BlockHeld(cfg, t, r[j]) {
      if j < |q| { assert BlockHeld(cfg, t, q[j]); }
    }
  }

  // ---------- Flushing ---------- //

  /** One cache's share of `clear`. */
  ghost function Flush(s: Setup, g: Global, q: Queue): (g1: Global)
    requires Consistent(s, g, q)
  {
    ConsistentBalanced(s, g, q);
    FlushHolds(s, g, q, Others(s, g, q));
    FreeBlocks(s.cfg, g, FlushOrder(q, s.maxBin + 1))
  }

  lemma FlushHolds(s: Setup, g: Global, q: Queue, others: multiset<nat>)
    requires Balanced(s, g, q, others)
    ensures ValidConfig(s.cfg) && HoldsBlocks(s.cfg, g.table, FlushOrder(q, s.maxBin + 1))
    ensures Cached(FlushOrder(q, s.maxBin + 1)) == Cached(q)
  {
    hide Slotted, InvBut, Cached, MarkedSet, Packed, NumBlocks, Bytes, ValidConfig, BlockHeld, FlushOrder;
    FlushCorrect(q, s.maxBin + 1);
    FlushFrom(q, s.maxBin + 1);
    var ev := FlushOrder(q, s.maxBin + 1);
    forall j | 0 <= j < |ev| ensures BlockHeld(s.cfg, g.table, ev[j]) {
      assert ev[j] in ev;
      var i :| 0 <= i < |q| && q[i] == ev[j];
    }
  }

  /** Flushing hands back blocks of the cache only. */
  lemma {:induction false} FlushFrom(q: Queue, n: nat)
    ensures forall x :: x in FlushOrder(q, n) ==> x in q
  {
    if n > 0 {
      FlushFrom(q, n - 1);
      FlushBinFrom(q, n - 1);
    }
  }

  lemma {:induction false} FlushBinFrom(q: Queue, b: nat)
    ensures forall x :: x in FlushBin(q, b) ==> x in q
  {
    if |q| > 0 { FlushBinFrom(q[..|q| - 1], b); }
  }

  /** After a flush the marked slots are exactly those the others hold. */
  lemma FlushEmpties(s: Setup, g: Global, q: Queue, others: multiset<nat>)
    requires Balanced(s, g, q, others)
    ensures Consistent(s, g, q)
    ensures var g1 := Flush(s, g, q);
            Moved(s.cfg, g, others, g1) && Balanced(s, g1, [], others)
  {
    hide Slotted, InvBut, Cached, MarkedSet, NumBlocks, ValidConfig, FlushOrder, FreeBlocks, Shrunk, HoldsBlocks,
      TableOk;
    var ev := FlushOrder(q, s.maxBin + 1);
    BalancedFacts(s, g, q, others);
    FlushHolds(s, g, q, others);
    FreeBlocksCorrect(s.cfg, g, ev);
    var g1 := FreeBlocks(s.cfg, g, ev);
    ShrunkLedger(s.cfg, g, ev, g1, others);
    ShrunkMoves(s.cfg, g, Cached(ev), g1, others);
    CachedOne(Block(0, []));
    EmptyBytes(s.cfg);
  }
}
