/** The sizing of an object cache and its byte budget (include/metall/kernel/object_cache.hpp). */
module CacheBudget {
  import opened ChunkTable
  import opened BlockQueue
  import opened Utilities
  import S = SizeClasses

  // ---------- Sizing ---------- //

  function Min(a: nat, b: nat): nat { if a < b then a else b }

  function Max(a: nat, b: nat): nat { if a < b then b else a }

  /** `comp_chunk_size`: how many objects one refill allocates. */
  function RefillCount(cfg: Config, b: nat): (n: nat)
    requires ValidConfig(cfg)
    ensures 8 <= n <= CAPACITY
  {
    Max(Min(Quot(4096, ObjectSize(cfg, b)), CAPACITY), 8)
  }

  function RefillBytes(cfg: Config, b: nat): nat
    requires ValidConfig(cfg)
  {
    RefillCount(cfg, b) * ObjectSize(cfg, b)
  }

  /** `comp_num_blocks_per_cache`. */
  function NumBlocks(cfg: Config, maxBytes: nat): nat
    requires ValidConfig(cfg)
  {
    Quot(Quot(maxBytes, ObjectSize(cfg, 0)), CAPACITY)
  }

  /** Two refills of the bin fit the budget. */
  ghost predicate Affordable(cfg: Config, maxBytes: nat, b: nat)
    requires ValidConfig(cfg)
  {
    2 * RefillBytes(cfg, b) <= maxBytes
  }

  /** `comp_max_bin_no`: the last bin up to which two refills of each bin fit the budget,
      cut down to the bin of the largest object asked for. */
  method CompMaxBinNo(cfg: Config, maxBytes: nat, maxObjectSize: nat) returns (bin: nat)
    requires ValidConfig(cfg)
    ensures bin <= SmallBins(cfg)
    ensures Affordable(cfg, maxBytes, 0) ==>
              forall b :: 0 <= b <= bin && b < SmallBins(cfg) ==> Affordable(cfg, maxBytes, b)
    ensures !Affordable(cfg, maxBytes, 0) ==> bin == 0
    ensures var index := S.SizeIndex(cfg.m, cfg.maxSize, maxObjectSize);
            && (index != -1 ==> bin <= index)
            && (Affordable(cfg, maxBytes, 0) ==>
                  bin == index || bin == SmallBins(cfg) || !Affordable(cfg, maxBytes, bin + 1))
  {
    hide ObjectSize, S.SizeIndex, S.ClassSize;
    var b := 0;
    while b < SmallBins(cfg)
      invariant 0 <= b <= SmallBins(cfg)
      invariant forall a :: 0 <= a < b ==> Affordable(cfg, maxBytes, a)
    {
      var minRequired := RefillCount(cfg, b) * 2 * ObjectSize(cfg, b);
      assert minRequired == 2 * RefillBytes(cfg, b);
      if maxBytes < minRequired {
        if b == 0 { return 0; }
        b := b - 1;
        break;
      }
      b := b + 1;
    }
    var index := S.ObjectSizeIndex(cfg.m, cfg.maxSize, maxObjectSize);
    bin := if index != -1 && index < b then index else b;
  }

  /** The smallest workable budget: two refills of 8-byte objects. Two blocks then fit as well. */
  lemma SmallestBudget(cfg: Config, maxBytes: nat)
    requires ValidConfig(cfg)
    ensures Affordable(cfg, maxBytes, 0) <==> maxBytes >= 1024
    ensures maxBytes >= 1024 ==> NumBlocks(cfg, maxBytes) >= 2
  {
    S.Landmarks(cfg.m, 0);
  }

  /** A refill is as many objects as fit 4096 bytes, but at least 8 and at most 64. */
  lemma RefillFits(cfg: Config, b: nat)
    requires ValidConfig(cfg)
    ensures var n, size := RefillCount(cfg, b), ObjectSize(cfg, b);
            8 <= n <= 64 && (n * size <= 4096 || n == 8) && (n == 64 || 4096 < (n + 1) * size)
  {
    hide ObjectSize;
    var n, size := RefillCount(cfg, b), ObjectSize(cfg, b);
    var q := Quot(4096, size);
    S.QuotientBounds(4096, size);
    if n <= q { S.TimesMono(n, q, size); }
    if q <= n { S.TimesMono(q + 1, n + 1, size); }
  }

  /** The blocks of a cache hold 64 objects of 8 bytes each, and are as many as fit the budget. */
  lemma BlocksFit(cfg: Config, maxBytes: nat)
    requires ValidConfig(cfg)
    ensures 512 * NumBlocks(cfg, maxBytes) <= maxBytes < 512 * (NumBlocks(cfg, maxBytes) + 1)
  {
    S.Landmarks(cfg.m, 0);
  }

  // ---------- Cached bytes ---------- //

  function BlockBytes(cfg: Config, x: Block): nat
    requires ValidConfig(cfg)
  {
    |x.items| * ObjectSize(cfg, x.bin)
  }

  function Bytes(cfg: Config, q: Queue): nat
    requires ValidConfig(cfg)
  {
    if |q| == 0 then 0 else Bytes(cfg, q[..|q| - 1]) + BlockBytes(cfg, q[|q| - 1])
  }

  lemma {:induction false} BytesConcat(cfg: Config, p: Queue, q: Queue)
    requires ValidConfig(cfg)
    ensures Bytes(cfg, p + q) == Bytes(cfg, p) + Bytes(cfg, q)
    decreases |q|
  {
    hide BlockBytes;
    if |q| == 0 {
      assert p + q == p;
    } else {
      assert (p + q)[..|p + q| - 1] == p + q[..|q| - 1];
      BytesConcat(cfg, p, q[..|q| - 1]);
    }
  }

  lemma BytesOne(cfg: Config, x: Block)
    requires ValidConfig(cfg)
    ensures Bytes(cfg, [x]) == BlockBytes(cfg, x) && Bytes(cfg, []) == 0
  {
    hide BlockBytes;
    assert [x][..0] == [];
  }

  lemma EmptyBytes(cfg: Config)
    requires ValidConfig(cfg)
    ensures Bytes(cfg, []) == 0
  {}

  lemma BytesSplit(cfg: Config, q: Queue, i: nat)
    requires ValidConfig(cfg) && i < |q|
    ensures Bytes(cfg, q) == Bytes(cfg, q[..i]) + BlockBytes(cfg, q[i]) + Bytes(cfg, q[i + 1..])
  {
    hide BlockBytes, Bytes;
    assert q == (q[..i] + [q[i]]) + q[i + 1..];
    BytesConcat(cfg, q[..i] + [q[i]], q[i + 1..]);
    BytesConcat(cfg, q[..i], [q[i]]);
    BytesOne(cfg, q[i]);
  }

  lemma BytesFirst(cfg: Config, q: Queue)
    requires ValidConfig(cfg) && |q| > 0
    ensures Bytes(cfg, q) == BlockBytes(cfg, q[0]) + Bytes(cfg, q[1..])
  {
    hide BlockBytes, Bytes;
    BytesSplit(cfg, q, 0);
    EmptyBytes(cfg);
    assert q[..0] == [];
  }

  lemma BytesReplace(cfg: Config, q: Queue, i: nat, x: Block)
    requires ValidConfig(cfg) && i < |q|
    ensures Bytes(cfg, q[i := x]) + BlockBytes(cfg, q[i]) == Bytes(cfg, q) + BlockBytes(cfg, x)
  {
    hide BlockBytes, Bytes;
    var r := q[i := x];
    assert r[..i] == q[..i] && r[i + 1..] == q[i + 1..];
    BytesSplit(cfg, q, i);
    BytesSplit(cfg, r, i);
  }

  lemma BytesPush(cfg: Config, q: Queue, b: nat, o: Offset)
    requires ValidConfig(cfg)
    ensures Bytes(cfg, Push(q, b, o)) == Bytes(cfg, q) + ObjectSize(cfg, b)
  {
    hide Bytes, Active, ObjectSize;
    var i := Active(q, b);
    if i == -1 || |q[i].items| == CAPACITY {
      BytesConcat(cfg, q, [Block(b, [o])]);
      BytesOne(cfg, Block(b, [o]));
    } else {
      BytesReplace(cfg, q, i, Block(b, q[i].items + [o]));
      assert (|q[i].items| + 1) * ObjectSize(cfg, b) == |q[i].items| * ObjectSize(cfg, b) + ObjectSize(cfg, b);
    }
  }

  lemma BytesTakeTop(cfg: Config, q: Queue, b: nat)
    requires ValidConfig(cfg) && Active(q, b) >= 0 && |q[Active(q, b)].items| > 0
    ensures Bytes(cfg, q) == Bytes(cfg, TakeTop(q, b)) + ObjectSize(cfg, b)
  {
    hide Bytes, Active, ObjectSize;
    var i := Active(q, b);
    var n := |q[i].items| - 1;
    BytesReplace(cfg, q, i, Block(b, q[i].items[..n]));
    assert (n + 1) * ObjectSize(cfg, b) == n * ObjectSize(cfg, b) + ObjectSize(cfg, b);
  }

  lemma BytesDropEmpty(cfg: Config, q: Queue, b: nat)
    requires ValidConfig(cfg)
    ensures Bytes(cfg, DropEmpty(q, b)) == Bytes(cfg, q)
  {
    hide Bytes, Active, ObjectSize;
    var i := Active(q, b);
    if i >= 0 && |q[i].items| == 0 {
      BytesSplit(cfg, q, i);
      BytesConcat(cfg, q[..i], q[i + 1..]);
      assert BlockBytes(cfg, q[i]) == 0;
    }
  }

  // ---------- Making room ---------- //

  /** The budget has room for `need` more bytes, and a block is free. */
  ghost predicate Room(cfg: Config, maxBytes: nat, q: Queue, need: nat)
    requires ValidConfig(cfg)
  {
    Bytes(cfg, q) + need <= maxBytes && |q| < NumBlocks(cfg, maxBytes)
  }

  /** `priv_make_room_for_new_blocks`: evicts oldest blocks until there is room;
      gives back what was evicted and what stays. */
  ghost function MakeRoom(cfg: Config, maxBytes: nat, q: Queue, need: nat): (r: (Queue, Queue))
    requires ValidConfig(cfg) && need <= maxBytes && NumBlocks(cfg, maxBytes) > 0
    ensures r.0 + r.1 == q
    ensures Room(cfg, maxBytes, r.1, need)
    decreases |q|
  {
    if Room(cfg, maxBytes, q, need) then ([], q)
    else
      var r := MakeRoom(cfg, maxBytes, q[1..], need);
      ([q[0]] + r.0, r.1)
  }

  lemma EmptyHasRoom(cfg: Config, maxBytes: nat, q: Queue, need: nat)
    requires ValidConfig(cfg) && need <= maxBytes && NumBlocks(cfg, maxBytes) > 0
    ensures !Room(cfg, maxBytes, q, need) ==> |q| > 0
  {}

  lemma MakeRoomStep(cfg: Config, maxBytes: nat, q: Queue, need: nat)
    requires ValidConfig(cfg) && need <= maxBytes && NumBlocks(cfg, maxBytes) > 0
    ensures Room(cfg, maxBytes, q, need) ==> MakeRoom(cfg, maxBytes, q, need) == ([], q)
    ensures !Room(cfg, maxBytes, q, need) ==>
              |q| > 0 &&
              var r := MakeRoom(cfg, maxBytes, q[1..], need);
              MakeRoom(cfg, maxBytes, q, need) == ([q[0]] + r.0, r.1)
  {
    hide NumBlocks;
    EmptyHasRoom(cfg, maxBytes, q, need);
  }

  lemma MakeRoomActive(cfg: Config, maxBytes: nat, q: Queue, need: nat, b: nat)
    requires ValidConfig(cfg) && need <= maxBytes && NumBlocks(cfg, maxBytes) > 0 && Active(q, b) == -1
    ensures Active(MakeRoom(cfg, maxBytes, q, need).1, b) == -1
  {
    hide MakeRoom, Active, NumBlocks;
    var (ev, rest) := MakeRoom(cfg, maxBytes, q, need);
    forall k | 0 <= k < |rest| ensures rest[k].bin != b { assert q[|ev| + k] == rest[k]; }
    ActiveUnique(rest, b, -1);
  }

  /** Nothing is evicted beyond what is needed: keeping the last evicted block would leave no room. */
  lemma {:induction false} MakeRoomMinimal(cfg: Config, maxBytes: nat, q: Queue, need: nat)
    requires ValidConfig(cfg) && need <= maxBytes && NumBlocks(cfg, maxBytes) > 0
    ensures var (ev, rest) := MakeRoom(cfg, maxBytes, q, need);
            |ev| > 0 ==> !Room(cfg, maxBytes, [ev[|ev| - 1]] + rest, need)
    decreases |q|
  {
    hide Bytes, NumBlocks;
    EmptyHasRoom(cfg, maxBytes, q, need);
    if !Room(cfg, maxBytes, q, need) {
      MakeRoomMinimal(cfg, maxBytes, q[1..], need);
      var r := MakeRoom(cfg, maxBytes, q[1..], need);
      if |r.0| == 0 { assert [q[0]] + r.1 == q; }
    }
  }

  /** What stays is the longest part of the newest blocks that leaves a block free and keeps the budget. */
  lemma MakeRoomExact(cfg: Config, maxBytes: nat, q: Queue, need: nat, k: nat)
    requires ValidConfig(cfg) && need <= maxBytes && NumBlocks(cfg, maxBytes) > 0 && k <= |q|
    ensures |MakeRoom(cfg, maxBytes, q, need).0| <= k <==>
            Bytes(cfg, q[k..]) + need <= maxBytes && |q| - k < NumBlocks(cfg, maxBytes)
  {
    hide Bytes, NumBlocks, MakeRoom;
    var (ev, rest) := MakeRoom(cfg, maxBytes, q, need);
    var e := |ev|;
    if e <= k {
      assert q[k..] == rest[k - e..];
      BytesShrink(cfg, rest, k - e);
    } else {
      MakeRoomMinimal(cfg, maxBytes, q, need);
      assert [ev[e - 1]] + rest == q[e - 1..];
      assert q[k..][e - 1 - k..] == q[e - 1..];
      BytesShrink(cfg, q[k..], e - 1 - k);
    }
  }

  lemma BytesShrink(cfg: Config, q: Queue, k: nat)
    requires ValidConfig(cfg) && k <= |q|
    ensures Bytes(cfg, q[k..]) <= Bytes(cfg, q)
  {
    hide Bytes;
    assert q == q[..k] + q[k..];
    BytesConcat(cfg, q[..k], q[k..]);
  }

  /** The bytes of a cache are those of its objects. */
  lemma BytesAre(cfg: Config, q: Queue, x: Block)
    requires ValidConfig(cfg)
    ensures Bytes(cfg, []) == 0 && Bytes(cfg, q + [x]) == Bytes(cfg, q) + |x.items| * ObjectSize(cfg, x.bin)
  {
    hide Bytes, ObjectSize;
    EmptyBytes(cfg);
    BytesConcat(cfg, q, [x]);
    BytesOne(cfg, x);
  }

  /** Making room only cuts the bottom off each stack. */
  lemma {:induction false} MakeRoomStacks(cfg: Config, maxBytes: nat, q: Queue, need: nat, c: nat)
    requires ValidConfig(cfg) && need <= maxBytes && NumBlocks(cfg, maxBytes) > 0 && Packed(q)
    ensures var (ev, rest) := MakeRoom(cfg, maxBytes, q, need);
            Packed(rest) && Stack(q, c) == Stack(ev, c) + Stack(rest, c)
    decreases |q|
  {
    hide Bytes, NumBlocks, Stack, Active;
    EmptyHasRoom(cfg, maxBytes, q, need);
    if Room(cfg, maxBytes, q, need) {
      EmptyStack(c);
    } else {
      EvictCorrect(q, c);
      MakeRoomStacks(cfg, maxBytes, q[1..], need, c);
      var (ev, rest) := MakeRoom(cfg, maxBytes, q, need);
      StackConcat(ev, rest, c);
    }
  }
}
