/** What the chunk directory says about each chunk, and what registering and erasing chunks means
    (include/metall/kernel/chunk_directory.hpp). */
module ChunkTable {
  import opened Utilities
  import opened SizeClasses

  /** A chunk is 2^m bytes; a segment holds at most maxSize bytes. */
  datatype Config = Config(m: nat, maxSize: nat)

  /** The slot bitmaps hold at most 2^24 bits, so chunks of 8-byte objects end at 2^27 bytes. */
  ghost predicate ValidConfig(cfg: Config) {
    9 <= cfg.m <= 27 && Pow2(cfg.m) <= cfg.maxSize
  }

  function ChunkSize(cfg: Config): (n: nat)
    ensures n >= 1
  {
    Pow2(cfg.m)
  }

  function MaxChunks(cfg: Config): nat { Quot(cfg.maxSize, ChunkSize(cfg)) }

  function SmallBins(cfg: Config): nat
    requires ValidConfig(cfg)
  {
    NumSmall(cfg.m)
  }

  function NumBins(cfg: Config): nat
    requires ValidConfig(cfg)
  {
    NumSizes(cfg.m, cfg.maxSize)
  }

  function ObjectSize(cfg: Config, bin: nat): (s: nat)
    requires ValidConfig(cfg)
    ensures s >= 8
  {
    ClassPositive(cfg.m, bin);
    ClassSize(cfg.m, bin)
  }

  lemma ClassPositive(m: nat, bin: nat)
    requires m >= 9
    ensures ClassSize(m, bin) >= 8
  {
    hide ClassSize;
    Landmarks(m, 0);
    if bin > 0 { ClassesIncrease(m, 0, bin); }
  }

  /** Slots in a chunk of this bin. */
  function Slots(cfg: Config, bin: nat): nat
    requires ValidConfig(cfg)
  {
    Quot(ChunkSize(cfg), ObjectSize(cfg, bin))
  }

  /** Chunks an object of this bin takes up. */
  function RunLength(cfg: Config, bin: nat): (n: nat)
    requires ValidConfig(cfg)
  {
    Quot(ObjectSize(cfg, bin) + ChunkSize(cfg) - 1, ChunkSize(cfg))
  }

  lemma QuotientFacts(C: nat, s: nat)
    requires s >= 8 && 2 * s <= C
    ensures C / s >= 2 && C / s * s <= C && 8 * (C / s) <= C
  {
    QuotientBounds(C, s);
    var n := C / s;
    TimesMono(n + 1, 2, s);
    TimesMono(8, s, n);
    assert s * n == n * s;
  }

  lemma SmallObjects(cfg: Config, bin: nat)
    requires ValidConfig(cfg) && bin < SmallBins(cfg)
    ensures 2 * ObjectSize(cfg, bin) <= ChunkSize(cfg)
    ensures 2 <= Slots(cfg, bin) <= Pow2(24)
    ensures Slots(cfg, bin) * ObjectSize(cfg, bin) <= ChunkSize(cfg)
  {
    hide ClassSize, SmallClass;
    LastSmallClass(cfg.m);
    LastSmallIsClass(cfg.m);
    if bin < NumSmall(cfg.m) - 1 { ClassesIncrease(cfg.m, bin, NumSmall(cfg.m) - 1); }
    QuotientFacts(ChunkSize(cfg), ObjectSize(cfg, bin));
    Pow2Mono(cfg.m, 27);
    assert Pow2(27) == 2 * Pow2(26);
    assert Pow2(26) == 2 * Pow2(25);
  }

  /** A chunk has as many slots as fit, and the table as many chunks. */
  lemma AsManyAsFit(cfg: Config, bin: nat)
    requires ValidConfig(cfg)
    ensures Slots(cfg, bin) * ObjectSize(cfg, bin) <= ChunkSize(cfg) < (Slots(cfg, bin) + 1) * ObjectSize(cfg, bin)
    ensures MaxChunks(cfg) * ChunkSize(cfg) <= cfg.maxSize < (MaxChunks(cfg) + 1) * ChunkSize(cfg)
  {
    hide ObjectSize, ChunkSize;
    QuotientBounds(ChunkSize(cfg), ObjectSize(cfg, bin));
    QuotientBounds(cfg.maxSize, ChunkSize(cfg));
  }

  lemma TwoSlots(cfg: Config, bin: nat)
    requires ValidConfig(cfg) && bin < SmallBins(cfg)
    ensures Slots(cfg, bin) >= 2
  {
    hide Slots;
    SmallObjects(cfg, bin);
  }

  lemma SlotsFit(cfg: Config, bin: nat)
    requires ValidConfig(cfg) && bin < SmallBins(cfg)
    ensures Slots(cfg, bin) * ObjectSize(cfg, bin) <= ChunkSize(cfg)
  {
    hide Slots, ObjectSize;
    SmallObjects(cfg, bin);
  }

  lemma LastSmallIsClass(m: nat)
    requires m >= 9
    ensures ClassSize(m, NumSmall(m) - 1) == SmallClass(NumSmall(m) - 1)
  {}

  lemma LargeObjects(cfg: Config, bin: nat)
    requires ValidConfig(cfg) && SmallBins(cfg) <= bin
    ensures RunLength(cfg, bin) >= 1
    ensures ObjectSize(cfg, bin) == RunLength(cfg, bin) * ChunkSize(cfg)
  {
    var e := bin - NumSmall(cfg.m);
    Pow2Add(e, cfg.m);
    assert cfg.m + e == e + cfg.m;
    var C, n := ChunkSize(cfg), Pow2(e);
    assert ObjectSize(cfg, bin) == n * C;
    Quotient(n * C + C - 1, C, n);
  }

  // ---------- The table ---------- //

  datatype Chunk = Unused | Small(bin: nat, marked: set<nat>) | Head(bin: nat) | Body(bin: nat)

  type Table = seq<Chunk>

  /** c is inside the run of the large object that starts at h. */
  ghost predicate InRun(cfg: Config, t: Table, h: nat, c: nat)
    requires ValidConfig(cfg)
  {
    h < |t| && t[h].Head? && h <= c < h + RunLength(cfg, t[h].bin)
  }

  ghost predicate EntryOk(cfg: Config, t: Table, c: nat)
    requires ValidConfig(cfg) && c < |t|
  {
    match t[c]
    case Unused => true
    case Small(bin, marked) =>
      bin < SmallBins(cfg) && forall k :: k in marked ==> k < Slots(cfg, bin)
    case Head(bin) =>
      && SmallBins(cfg) <= bin < NumBins(cfg)
      && c + RunLength(cfg, bin) <= |t|
      && forall k :: c < k < c + RunLength(cfg, bin) ==> t[k] == Body(bin)
    case Body(bin) =>
      exists h :: 0 <= h < c && InRun(cfg, t, h, c) && t[h].bin == bin
  }

  /** Small chunks hold slots of their bin; every large object is one head and its bodies;
      every body belongs to such a run. */
  ghost predicate TableOk(cfg: Config, t: Table)
    requires ValidConfig(cfg)
  {
    |t| == MaxChunks(cfg) && forall c :: 0 <= c < |t| ==> EntryOk(cfg, t, c)
  }

  datatype SlotRef = SlotRef(chunk: nat, bin: nat, slot: nat)

  /** The slot is in use, in a chunk of that bin. */
  ghost predicate IsMarked(t: Table, r: SlotRef) {
    r.chunk < |t| && t[r.chunk].Small? && t[r.chunk].bin == r.bin && r.slot in t[r.chunk].marked
  }

  /** No two runs share a chunk, and nothing else lies in a run. */
  lemma RunsDisjoint(cfg: Config, t: Table, h: nat, g: nat, c: nat)
    requires ValidConfig(cfg) && TableOk(cfg, t)
    requires InRun(cfg, t, h, c) && InRun(cfg, t, g, c)
    ensures h == g
  {
    assert EntryOk(cfg, t, h) && EntryOk(cfg, t, g);
  }

  /** Each head is followed by exactly its object's bodies: the chunk after the run is not a body. */
  lemma RunEnds(cfg: Config, t: Table, h: nat)
    requires ValidConfig(cfg) && TableOk(cfg, t) && h < |t| && t[h].Head?
    ensures h + RunLength(cfg, t[h].bin) <= |t|
    ensures h + RunLength(cfg, t[h].bin) < |t| ==> !t[h + RunLength(cfg, t[h].bin)].Body?
  {
    assert EntryOk(cfg, t, h);
    var e := h + RunLength(cfg, t[h].bin);
    if e < |t| && t[e].Body? {
      assert EntryOk(cfg, t, e);
      var g :| 0 <= g < e && InRun(cfg, t, g, e) && t[g].bin == t[e].bin;
      LargeObjects(cfg, t[h].bin);
      if g <= h {
        assert InRun(cfg, t, h, h) && InRun(cfg, t, g, h);
        RunsDisjoint(cfg, t, h, g, h);
      } else {
        assert InRun(cfg, t, h, g);
        RunsDisjoint(cfg, t, h, g, g);
      }
      assert false;
    }
  }

  // ---------- Search ---------- //

  ghost predicate AllUnused(t: Table, start: nat, n: nat) {
    start + n <= |t| && forall c :: start <= c < start + n ==> t[c] == Unused
  }

  /** The lowest place at or after i where n unused chunks lie side by side; the table's length if none. */
  ghost function FirstFit(t: Table, n: nat, i: nat := 0): (c: nat)
    requires i <= |t|
    ensures i <= c <= |t|
    ensures c < |t| ==> AllUnused(t, c, n)
    ensures forall s :: i <= s < c ==> !AllUnused(t, s, n)
    decreases |t| - i
  {
    if i == |t| || AllUnused(t, i, n) then i else FirstFit(t, n, i + 1)
  }

  lemma FirstFitUnique(t: Table, n: nat, c: nat)
    requires c <= |t|
    requires c < |t| ==> AllUnused(t, c, n)
    requires forall s :: 0 <= s < c ==> !AllUnused(t, s, n)
    ensures n >= 1 ==> FirstFit(t, n) == c
  {}

  lemma FirstUnusedIs(t: Table, c: nat)
    requires c <= |t| && (c < |t| ==> t[c] == Unused) && forall k :: 0 <= k < c ==> t[k] != Unused
    ensures FirstFit(t, 1) == c
  {
    forall s | 0 <= s < c ensures !AllUnused(t, s, 1) { assert t[s] != Unused; }
    FirstFitUnique(t, 1, c);
  }

  /** The greatest used chunk, -1 if there is none. */
  ghost function LastUsed(t: Table): (c: int)
    ensures -1 <= c < |t|
    ensures c >= 0 ==> t[c] != Unused
    ensures forall k :: c < k < |t| ==> t[k] == Unused
  {
    if |t| == 0 then -1
    else if t[|t| - 1] != Unused then |t| - 1
    else LastUsed(t[..|t| - 1])
  }

  // ---------- Registering and erasing ---------- //

  ghost function PutSmall(t: Table, c: nat, bin: nat): Table
    requires c < |t|
  {
    t[c := Small(bin, {})]
  }

  ghost function PutLarge(t: Table, h: nat, bin: nat, n: nat): (u: Table)
    requires n >= 1 && h + n <= |t|
    ensures |u| == |t|
    ensures forall c :: 0 <= c < |t| ==>
              u[c] == if c == h then Head(bin) else if h < c < h + n then Body(bin) else t[c]
  {
    t[..h] + [Head(bin)] + seq(n - 1, _ => Body(bin)) + t[h + n..]
  }

  /** `insert` for a small bin: the lowest unused chunk, or the table's length when there is none. */
  ghost function InsertSmall(t: Table, bin: nat): (nat, Table) {
    var c := FirstFit(t, 1);
    (c, if c < |t| then PutSmall(t, c, bin) else t)
  }

  ghost function InsertLarge(cfg: Config, t: Table, bin: nat): (nat, Table)
    requires ValidConfig(cfg) && SmallBins(cfg) <= bin
  {
    LargeObjects(cfg, bin);
    var n := RunLength(cfg, bin);
    var c := FirstFit(t, n);
    (c, if c < |t| then PutLarge(t, c, bin, n) else t)
  }

  /** The chunks from c on that are bodies. */
  ghost function BodiesFrom(t: Table, c: nat): (n: nat)
    requires c <= |t|
    ensures c + n <= |t|
    ensures forall k :: c <= k < c + n ==> t[k].Body?
    ensures c + n < |t| ==> !t[c + n].Body?
    decreases |t| - c
  {
    if c < |t| && t[c].Body? then 1 + BodiesFrom(t, c + 1) else 0
  }

  ghost function Clear(t: Table, c: nat, n: nat): (u: Table)
    requires c + n <= |t|
    ensures |u| == |t| && forall k :: 0 <= k < |t| ==> u[k] == if c <= k < c + n then Unused else t[k]
  {
    t[..c] + seq(n, _ => Unused) + t[c + n..]
  }

  lemma ClearStep(t: Table, c: nat, n: nat)
    requires c + n < |t|
    ensures Clear(t, c, n)[c + n := Unused] == Clear(t, c, n + 1)
    ensures t[c := Unused] == Clear(t, c, 1)
  {}

  /** `erase`. */
  ghost function Erase(t: Table, c: nat): Table
    requires c < |t|
  {
    match t[c]
    case Unused => t
    case Small(_, _) => Clear(t, c, 1)
    case _ => Clear(t, c, 1 + BodiesFrom(t, c + 1))
  }

  /** `erase` for any number: nothing checks it. The table, and whether an entry outside of it was accessed. */
  ghost function EraseAt(t: Table, c: nat): (Table, bool) {
    if c < |t| then (Erase(t, c), false) else (t, true)
  }

  /** `erase` on memory that goes on past the n entries of the table. */
  ghost function EraseIn(mem: Table, n: nat, c: nat): Table
    requires n <= |mem| && c < |mem|
  {
    match mem[c]
    case Unused => mem
    case Small(_, _) => Clear(mem, c, 1)
    case _ => Clear(mem, c, 1 + if c < n then BodiesFrom(mem[..n], c + 1) else 0)
  }

  lemma ClearFront(t: Table, past: Table, c: nat, n: nat)
    requires c + n <= |t|
    ensures Clear(t + past, c, n) == Clear(t, c, n) + past
  {}

  lemma EraseInside(t: Table, past: Table, c: nat)
    requires c < |t|
    ensures EraseIn(t + past, |t|, c) == Erase(t, c) + past
  {
    hide BodiesFrom, Clear;
    assert (t + past)[..|t|] == t;
    ClearFront(t, past, c, 1);
    ClearFront(t, past, c, 1 + BodiesFrom(t, c + 1));
  }

  lemma ErasePast(t: Table, past: Table, k: nat)
    requires k < |past|
    ensures EraseIn(t + past, |t|, |t| + k) == t + past[k := Unused]
  {
    hide BodiesFrom;
    var mem := t + past;
    assert mem[|t| + k] == past[k];
    if past[k] == Unused {
      assert past[k := Unused] == past;
    } else {
      assert Clear(mem, |t| + k, 1) == t + past[k := Unused];
    }
  }

  /** Whatever lies past the table: a number inside changes the table only; one outside leaves the table as
      it is and clears what it finds there. */
  lemma EraseAtMeans(t: Table, past: Table, c: nat)
    requires c < |t| + |past|
    ensures var (u, outside) := EraseAt(t, c);
            && outside == (c >= |t|) && |u| == |t|
            && EraseIn(t + past, |t|, c) == u + if outside then past[c - |t| := Unused] else past
  {
    hide BodiesFrom, Clear, EraseIn;
    if c < |t| {
      EraseInside(t, past, c);
    } else {
      ErasePast(t, past, c - |t|);
    }
  }

  /** The assertion at the end of `insert`, that the new chunk lies below the size, holds exactly when there
      was room; a full table breaks it for small objects too. */
  lemma InsertAssertion(cfg: Config, t: Table, bin: nat)
    requires ValidConfig(cfg) && TableOk(cfg, t) && bin < NumBins(cfg)
    ensures var (c, u) := if bin < SmallBins(cfg) then InsertSmall(t, bin) else InsertLarge(cfg, t, bin);
            var n := if bin < SmallBins(cfg) then 1 else RunLength(cfg, bin);
            c < LastUsed(u) + 1 <==> exists k: nat :: AllUnused(t, k, n)
  {
    hide TableOk, RunLength, LastUsed;
    var n := if bin < SmallBins(cfg) then 1 else RunLength(cfg, bin);
    if bin >= SmallBins(cfg) { LargeObjects(cfg, bin); }
    var (c, u) := if bin < SmallBins(cfg) then InsertSmall(t, bin) else InsertLarge(cfg, t, bin);
    if c < |t| {
      assert AllUnused(t, c, n) && u[c] != Unused;
    } else {
      assert LastUsed(u) < |t|;
    }
  }

  /** Erasing a large object clears its own run and nothing else. */
  lemma EraseRun(cfg: Config, t: Table, h: nat)
    requires ValidConfig(cfg) && TableOk(cfg, t) && h < |t| && t[h].Head?
    ensures h + RunLength(cfg, t[h].bin) <= |t|
    ensures Erase(t, h) == Clear(t, h, RunLength(cfg, t[h].bin))
  {
    assert EntryOk(cfg, t, h);
    LargeObjects(cfg, t[h].bin);
    RunEnds(cfg, t, h);
    BodiesFromUnique(t, h + 1, RunLength(cfg, t[h].bin) - 1);
  }

  lemma {:induction false} BodiesFromUnique(t: Table, c: nat, n: nat)
    requires c + n <= |t| && (c + n < |t| ==> !t[c + n].Body?)
    requires forall k :: c <= k < c + n ==> t[k].Body?
    ensures BodiesFrom(t, c) == n
    decreases n
  {
    if n > 0 { BodiesFromUnique(t, c + 1, n - 1); }
  }

  lemma InsertSmallOk(cfg: Config, t: Table, bin: nat)
    requires ValidConfig(cfg) && TableOk(cfg, t) && bin < SmallBins(cfg)
    ensures var (c, u) := InsertSmall(t, bin);
            TableOk(cfg, u) && (c < |t| ==> t[c] == Unused && u == t[c := Small(bin, {})])
  {
    var (c, u) := InsertSmall(t, bin);
    if c < |t| {
      assert t[c] == Unused;
      forall k | 0 <= k < |u| ensures EntryOk(cfg, u, k) {
        assert EntryOk(cfg, t, k);
        if k != c { KeepEntry(cfg, t, u, k); }
      }
    }
  }

  /** An entry that is not Unused keeps its shape when only chunks outside its run change
      from or to Unused. */
  lemma KeepEntry(cfg: Config, t: Table, u: Table, k: nat)
    requires ValidConfig(cfg) && TableOk(cfg, t) && |u| == |t| && k < |t| && u[k] == t[k]
    requires forall c :: 0 <= c < |t| && u[c] != t[c] ==>
               t[c] == Unused || t[c].Small? || (t[c].Head? && !InRun(cfg, t, c, k))
                 || (t[c].Body? && !InRun(cfg, t, k, c))
    ensures EntryOk(cfg, u, k)
  {
    assert EntryOk(cfg, t, k);
    match t[k] {
      case Unused =>
      case Small(_, _) =>
      case Head(bin) =>
        forall j | k < j < k + RunLength(cfg, bin) ensures u[j] == Body(bin) {
          assert t[j] == Body(bin);
          assert InRun(cfg, t, k, j);
        }
      case Body(bin) =>
        var h :| 0 <= h < k && InRun(cfg, t, h, k) && t[h].bin == bin;
        assert u[h] == t[h];
        assert InRun(cfg, u, h, k);
    }
  }

  lemma InsertLargeOk(cfg: Config, t: Table, bin: nat)
    requires ValidConfig(cfg) && TableOk(cfg, t) && SmallBins(cfg) <= bin < NumBins(cfg)
    ensures var (c, u) := InsertLarge(cfg, t, bin);
            TableOk(cfg, u) && (c < |t| ==> AllUnused(t, c, RunLength(cfg, bin)))
  {
    LargeObjects(cfg, bin);
    var n := RunLength(cfg, bin);
    var (c, u) := InsertLarge(cfg, t, bin);
    if c < |t| {
      forall k | 0 <= k < |u| ensures EntryOk(cfg, u, k) {
        assert EntryOk(cfg, t, k);
        if c < k < c + n {
          assert InRun(cfg, u, c, k);
        } else if k != c {
          KeepEntry(cfg, t, u, k);
        }
      }
    }
  }

  lemma EraseSmallOk(cfg: Config, t: Table, c: nat)
    requires ValidConfig(cfg) && TableOk(cfg, t) && c < |t| && t[c].Small?
    ensures TableOk(cfg, Erase(t, c)) && Erase(t, c) == t[c := Unused]
  {
    var u := Erase(t, c);
    assert u == t[c := Unused];
    forall k | 0 <= k < |u| ensures EntryOk(cfg, u, k) {
      if k != c { KeepEntry(cfg, t, u, k); }
    }
  }

  lemma EraseLargeOk(cfg: Config, t: Table, h: nat)
    requires ValidConfig(cfg) && TableOk(cfg, t) && h < |t| && t[h].Head?
    ensures TableOk(cfg, Erase(t, h))
  {
    EraseRun(cfg, t, h);
    var n := RunLength(cfg, t[h].bin);
    var u := Erase(t, h);
    forall k | 0 <= k < |u| ensures EntryOk(cfg, u, k) {
      if !(h <= k < h + n) {
        assert EntryOk(cfg, t, k);
        forall c | 0 <= c < |t| && u[c] != t[c]
          ensures (t[c].Head? && !InRun(cfg, t, c, k)) || (t[c].Body? && !InRun(cfg, t, k, c))
        {
          assert EntryOk(cfg, t, h);
          assert InRun(cfg, t, h, c);
          if t[c].Body? && InRun(cfg, t, k, c) { RunsDisjoint(cfg, t, h, k, c); }
        }
        KeepEntry(cfg, t, u, k);
      }
    }
  }

  lemma MarkOk(cfg: Config, t: Table, c: nat, marked: set<nat>)
    requires ValidConfig(cfg) && TableOk(cfg, t) && c < |t| && t[c].Small?
    requires forall k :: k in marked ==> k < Slots(cfg, t[c].bin)
    ensures TableOk(cfg, t[c := Small(t[c].bin, marked)])
  {
    var u := t[c := Small(t[c].bin, marked)];
    forall k | 0 <= k < |u| ensures EntryOk(cfg, u, k) {
      assert EntryOk(cfg, t, k);
      if k != c { KeepEntry(cfg, t, u, k); }
    }
  }

  /** Registering chunks in a gap or right after the mark moves the mark to the end of the new run
      or leaves it where it was. */
  lemma LastUsedUnique(t: Table, c: int)
    requires -1 <= c < |t| && (c >= 0 ==> t[c] != Unused) && forall k :: c < k < |t| ==> t[k] == Unused
    ensures LastUsed(t) == c
  {}

  lemma MarkAfterClear(t: Table, c: nat, n: nat)
    requires 1 <= n && c + n <= |t| && t[c] != Unused && forall k :: c < k < c + n ==> t[k].Body?
    ensures c + n - 1 == LastUsed(t) ==> forall k :: c + n - 1 < k < |t| ==> Clear(t, c, n)[k] == Unused
    ensures c + n - 1 != LastUsed(t) ==> LastUsed(Clear(t, c, n)) == LastUsed(t)
  {
    assert t[c + n - 1] != Unused;
    if c + n - 1 != LastUsed(t) { LastUsedUnique(Clear(t, c, n), LastUsed(t)); }
  }

  lemma MarkAfterPut(t: Table, u: Table, c: nat, n: nat)
    requires 1 <= n && c + n <= |t| == |u| && u[c + n - 1] != Unused
    requires forall k :: 0 <= k < |t| && !(c <= k < c + n) ==> u[k] == t[k]
    requires forall k :: c <= k < c + n ==> u[k] != Unused
    ensures LastUsed(u) == if c + n - 1 > LastUsed(t) then c + n - 1 else LastUsed(t)
  {
    LastUsedUnique(u, if c + n - 1 > LastUsed(t) then c + n - 1 else LastUsed(t));
  }

  /** The scan for n chunks side by side stands before chunk i: the last `count` chunks were unused,
      and no n chunks ending before i were. */
  ghost predicate Scanned(t: Table, n: nat, i: nat, count: nat) {
    && count < n && count <= i <= |t|
    && (forall c :: i - count <= c < i ==> t[c] == Unused)
    && (count < i ==> t[i - count - 1] != Unused)
    && forall s :: 0 <= s && s + n <= i ==> !AllUnused(t, s, n)
  }

  lemma ScanUsed(t: Table, n: nat, i: nat, count: nat)
    requires Scanned(t, n, i, count) && i < |t| && t[i] != Unused
    ensures Scanned(t, n, i + 1, 0)
  {}

  lemma ScanUnused(t: Table, n: nat, i: nat, count: nat)
    requires Scanned(t, n, i, count) && i < |t| && t[i] == Unused
    ensures count + 1 < n ==> Scanned(t, n, i + 1, count + 1)
    ensures count + 1 == n ==> FirstFit(t, n) == i - count
  {
    if count + 1 == n {
      FirstFitUnique(t, n, i - count);
    } else {
      forall s | 0 <= s && s + n <= i + 1 ensures !AllUnused(t, s, n) {
        if s + n == i + 1 { assert t[i - count - 1] != Unused; }
      }
    }
  }

  lemma ScanEnd(t: Table, n: nat, count: nat)
    requires Scanned(t, n, |t|, count)
    ensures FirstFit(t, n) == |t|
  {
    FirstFitUnique(t, n, |t|);
  }
}
