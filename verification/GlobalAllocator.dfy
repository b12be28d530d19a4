/** The part of the segment allocator below the caches: the chunk table, the non-full chunk lists and the
    segment size (include/metall/kernel/segment_allocator.hpp). */
module GlobalAllocator {
  import opened ChunkTable
  import opened BlockQueue
  import opened FreeSlots
  import opened Ledger
  import opened BinDirectory

  datatype Global = Global(table: Table, lists: seq<seq<nat>>, segment: nat)

  /** How the segment storage answers a request to extend: the size it has afterwards.
      Less than what was asked for means that the extension failed. */
  type Storage = nat -> nat

  /** One byte more than a segment may ever have: a chunk past the end of the table never fits. */
  function Limit(cfg: Config): nat { (MaxChunks(cfg) + 1) * ChunkSize(cfg) }

  ghost predicate Bounded(cfg: Config, grow: Storage) {
    forall n: nat :: n <= grow(n) ==> grow(n) < Limit(cfg)
  }

  /** `priv_extend_segment_without_lock`. */
  ghost function Extend(segment: nat, required: nat, grow: Storage): (bool, nat) {
    if required <= segment then (true, segment)
    else if required <= grow(required) then (true, grow(required))
    else (false, segment)
  }

  // ---------- The invariant ---------- //

  ghost predicate NonFull(cfg: Config, t: Table, b: nat, c: nat)
    requires ValidConfig(cfg)
  {
    c < |t| && t[c].Small? && t[c].bin == b && |t[c].marked| < Slots(cfg, b)
  }

  /** Registered, but without a marked slot: what a failed extension leaves behind. */
  ghost predicate Orphan(t: Table, c: nat) {
    c < |t| && t[c].Small? && t[c].marked == {}
  }

  /** c belongs in the list of bin b. `young` is a chunk registered a moment ago whose first slot is
      about to be marked. */
  ghost predicate Listed(cfg: Config, t: Table, b: nat, c: nat, young: int)
    requires ValidConfig(cfg)
  {
    NonFull(cfg, t, b, c) && (!Orphan(t, c) || c == young)
  }

  /** The list of a bin: no duplicates, and exactly its non-full chunks, orphans excepted. */
  ghost predicate ListOk(cfg: Config, t: Table, list: seq<nat>, b: nat, young: int)
    requires ValidConfig(cfg)
  {
    && NoDuplicates(list)
    && forall c: nat :: c in list <==> Listed(cfg, t, b, c, young)
  }

  ghost predicate ListsOk(cfg: Config, g: Global, young: int)
    requires ValidConfig(cfg)
  {
    forall b :: 0 <= b < |g.lists| ==> ListOk(cfg, g.table, g.lists[b], b, young)
  }

  /** The first offset after chunk c. */
  function EndOf(cfg: Config, c: nat): nat { (c + 1) * ChunkSize(cfg) }

  /** Every chunk in use lies inside the segment, orphans excepted. */
  ghost predicate InSegment(cfg: Config, g: Global, young: int)
  {
    && g.segment < Limit(cfg)
    && forall c :: 0 <= c < |g.table| && !g.table[c].Unused? && (!Orphan(g.table, c) || c == young) ==>
         EndOf(cfg, c) <= g.segment
  }

  ghost predicate InvBut(cfg: Config, g: Global, young: int): (ok: bool)
    ensures ok ==> ValidConfig(cfg) && TableOk(cfg, g.table) && |g.lists| == SmallBins(cfg)
  {
    && ValidConfig(cfg) && TableOk(cfg, g.table) && |g.lists| == SmallBins(cfg)
    && ListsOk(cfg, g, young) && InSegment(cfg, g, young)
  }

  ghost predicate Inv(cfg: Config, g: Global) { InvBut(cfg, g, -1) }

  /** From t to u, large objects stay as they are. */
  ghost predicate SameLarge(t: Table, u: Table) {
    && |u| == |t|
    && forall c :: 0 <= c < |t| && (t[c].Head? || t[c].Body? || u[c].Head? || u[c].Body?) ==> u[c] == t[c]
  }

  /** From t to u, marked slots stay marked and large objects stay as they are. */
  ghost predicate Keeps(cfg: Config, t: Table, u: Table)
    requires ValidConfig(cfg)
  {
    SameLarge(t, u) && forall o: nat, b: nat :: Slotted(cfg, t, o, b) ==> Slotted(cfg, u, o, b)
  }

  // ---------- Allocating small objects ---------- //

  /** `priv_insert_new_small_object_chunk`. When the segment cannot be extended the new chunk stays
      registered but is not listed. */
  ghost function NewChunk(cfg: Config, g: Global, b: nat, grow: Storage): (r: (bool, Global))
    requires ValidConfig(cfg) && b < |g.lists|
    ensures |r.1.lists| == |g.lists|
  {
    var (c, t) := InsertSmall(g.table, b);
    var (ok, segment) := Extend(g.segment, EndOf(cfg, c), grow);
    if !ok then (false, g.(table := t))
    else (true, Global(t, g.lists[b := [c] + g.lists[b]], segment))
  }

  /** A listed chunk to take slots from: the front one, or a new one. */
  ghost function Provide(cfg: Config, g: Global, b: nat, grow: Storage): (r: (bool, Global))
    requires ValidConfig(cfg) && b < |g.lists|
    ensures |r.1.lists| == |g.lists|
  {
    if g.lists[b] != [] then (true, g) else NewChunk(cfg, g, b, grow)
  }

  /** The front chunk of bin b has a free slot. */
  ghost predicate Ready(cfg: Config, g: Global, b: nat)
    requires ValidConfig(cfg)
  {
    b < |g.lists| && g.lists[b] != [] && NonFull(cfg, g.table, b, g.lists[b][0])
  }

  ghost function Take(cfg: Config, g: Global, b: nat, n: nat): (k: nat)
    requires ValidConfig(cfg) && Ready(cfg, g, b)
    ensures k <= n && (n >= 1 ==> k >= 1)
  {
    var free := Slots(cfg, b) - |g.table[g.lists[b][0]].marked|;
    if n < free then n else free
  }

  /** Up to n slots of the front chunk are marked; a chunk that becomes full leaves the list. */
  ghost function MarkFront(cfg: Config, g: Global, b: nat, n: nat): (r: (seq<Offset>, Global))
    requires ValidConfig(cfg) && Ready(cfg, g, b)
    ensures |r.0| == Take(cfg, g, b, n) && |r.1.lists| == |g.lists|
  {
    var c := g.lists[b][0];
    var slots := FirstFree(g.table[c].marked, Take(cfg, g, b, n));
    var t := MarkAll(g.table, c, slots);
    var lists := if |t[c].marked| == Slots(cfg, b) then g.lists[b := g.lists[b][1..]] else g.lists;
    (OffsetsOf(cfg, c, b, slots), Global(t, lists, g.segment))
  }

  /** The chunk that Provide registers, if it has to. */
  ghost function YoungOf(g: Global, b: nat): int
    requires b < |g.lists|
  {
    if g.lists[b] != [] then -1 else FirstFit(g.table, 1)
  }

  lemma ProvideOk(cfg: Config, g: Global, b: nat, grow: Storage)
    requires Inv(cfg, g) && b < |g.lists| && Bounded(cfg, grow)
    ensures var (ok, g1) := Provide(cfg, g, b, grow);
            && Keeps(cfg, g.table, g1.table) && g.segment <= g1.segment
            && MarkedSet(cfg, g1.table) == MarkedSet(cfg, g.table)
            && (!ok ==> Inv(cfg, g1))
            && (ok ==> Ready(cfg, g1, b) && InvBut(cfg, g1, YoungOf(g, b)))
            && (ok && YoungOf(g, b) >= 0 ==> g1.lists[b] == [YoungOf(g, b)])
  {
    hide Slots, Slotted, MarkedSet, TableOk;
    if g.lists[b] == [] {
      NewChunkOk(cfg, g, b, grow);
    } else {
      assert g.lists[b][0] in g.lists[b];
    }
  }

  lemma NewChunkOk(cfg: Config, g: Global, b: nat, grow: Storage)
    requires Inv(cfg, g) && b < |g.lists| && Bounded(cfg, grow) && g.lists[b] == []
    ensures var (ok, g1) := NewChunk(cfg, g, b, grow);
            var c := FirstFit(g.table, 1);
            && Keeps(cfg, g.table, g1.table) && g.segment <= g1.segment
            && MarkedSet(cfg, g1.table) == MarkedSet(cfg, g.table)
            && (!ok ==> Inv(cfg, g1))
            && (ok ==> g1.lists[b] == [c] && Ready(cfg, g1, b) && InvBut(cfg, g1, c))
  {
    hide Slots, Slotted, MarkedSet, TableOk, Keeps, ListsOk, NonFull, FirstFit;
    var c := FirstFit(g.table, 1);
    InsertSmallOk(cfg, g.table, b);
    var (ok, g1) := NewChunk(cfg, g, b, grow);
    if c < |g.table| {
      RegisterKeeps(cfg, g.table, c, b);
      RegisterLists(cfg, g, c, b, g1.segment);
      if ok { RegisterReady(cfg, g1, c, b); }
    } else {
      KeepsSelf(cfg, g.table);
      assert EndOf(cfg, c) == Limit(cfg);
    }
  }

  lemma KeepsSelf(cfg: Config, t: Table)
    requires ValidConfig(cfg)
    ensures Keeps(cfg, t, t)
  {}

  lemma RegisterKeeps(cfg: Config, t: Table, c: nat, b: nat)
    requires ValidConfig(cfg) && c < |t| && t[c] == Unused
    ensures var u := t[c := Small(b, {})];
            Keeps(cfg, t, u) && MarkedSet(cfg, u) == MarkedSet(cfg, t)
  {
    hide OffsetOf, ChunkOf, SlotOf, MarkedSet;
    DropChunk(cfg, t, t[c := Small(b, {})]);
  }

  /** A newly registered chunk is an orphan until it is listed. */
  lemma RegisterLists(cfg: Config, g: Global, c: nat, b: nat, segment: nat)
    requires ValidConfig(cfg) && |g.lists| == SmallBins(cfg) && ListsOk(cfg, g, -1) && b < |g.lists| && g.lists[b] == []
    requires c < |g.table| && g.table[c] == Unused
    ensures var u := g.table[c := Small(b, {})];
            && ListsOk(cfg, g.(table := u), -1)
            && ListsOk(cfg, Global(u, g.lists[b := [c]], segment), c)
  {
    hide Slots;
    var u := g.table[c := Small(b, {})];
    forall a: nat, d: nat | a < |g.lists|
      ensures Listed(cfg, u, a, d, -1) == Listed(cfg, g.table, a, d, -1)
      ensures Listed(cfg, u, a, d, c) == (Listed(cfg, g.table, a, d, -1) || (a == b && d == c))
    {
      if a == b && d == c { TwoSlots(cfg, b); }
    }
    forall a | 0 <= a < |g.lists|
      ensures ListOk(cfg, u, g.lists[a], a, -1) && ListOk(cfg, u, g.lists[b := [c]][a], a, c)
    {
      assert ListOk(cfg, g.table, g.lists[a], a, -1);
    }
  }

  lemma RegisterReady(cfg: Config, g: Global, c: nat, b: nat)
    requires ValidConfig(cfg) && b < |g.lists| && g.lists[b] == [c] && ListsOk(cfg, g, c)
    ensures Ready(cfg, g, b)
  {
    hide Slots;
    assert ListOk(cfg, g.table, g.lists[b], b, c);
    assert c in g.lists[b];
  }

  lemma MarkFrontOk(cfg: Config, g: Global, b: nat, n: nat, young: int)
    requires InvBut(cfg, g, young) && Ready(cfg, g, b) && n >= 1
    requires young >= 0 ==> g.lists[b] == [young]
    ensures var (os, g1) := MarkFront(cfg, g, b, n);
            && Inv(cfg, g1) && Keeps(cfg, g.table, g1.table) && g1.segment == g.segment
            && multiset(MarkedSet(cfg, g1.table)) == multiset(MarkedSet(cfg, g.table)) + Objects(os)
            && forall i :: 0 <= i < |os| ==> os[i].At? && Slotted(cfg, g1.table, os[i].pos, b)
  {
    hide Slots, Slotted, MarkedSet, TableOk, Keeps, ListsOk, FirstFree, Elements, Objects, OffsetOf;
    var t, c := g.table, g.lists[b][0];
    var slots := FirstFree(t[c].marked, Take(cfg, g, b, n));
    FrontSlots(cfg, g, b, n);
    MarkMany(cfg, t, c, slots);
    MarkTable(cfg, t, c, slots);
    MarkLists(cfg, g, b, n, young);
  }

  lemma FrontSlots(cfg: Config, g: Global, b: nat, n: nat)
    requires ValidConfig(cfg) && TableOk(cfg, g.table) && Ready(cfg, g, b) && n >= 1
    ensures var c := g.lists[b][0];
            var marked := g.table[c].marked;
            var slots := FirstFree(marked, Take(cfg, g, b, n));
            && FreshSlots(cfg, g.table, c, slots)
            && |marked + Elements(slots)| == |marked| + |slots|
  {
    hide Slots, FirstFree, Elements;
    var c := g.lists[b][0];
    assert EntryOk(cfg, g.table, c);
    FirstFreeFacts(g.table[c].marked, Take(cfg, g, b, n), Slots(cfg, b));
    FirstFreeCount(g.table[c].marked, Take(cfg, g, b, n));
  }

  lemma MarkTable(cfg: Config, t: Table, c: nat, slots: seq<nat>)
    requires ValidConfig(cfg) && TableOk(cfg, t) && FreshSlots(cfg, t, c, slots)
    ensures TableOk(cfg, MarkAll(t, c, slots)) && Keeps(cfg, t, MarkAll(t, c, slots))
  {
    hide Slots, Slotted, TableOk;
    var u := MarkAll(t, c, slots);
    assert TableOk(cfg, u) by {
      assert EntryOk(cfg, t, c) by { EntryFromTable(cfg, t, c); }
      MarkOk(cfg, t, c, u[c].marked);
    }
    forall o: nat, b: nat | Slotted(cfg, t, o, b) ensures Slotted(cfg, u, o, b) {
      MarkKeeps(cfg, t, u, c, o, b);
    }
  }

  lemma EntryFromTable(cfg: Config, t: Table, c: nat)
    requires ValidConfig(cfg) && TableOk(cfg, t) && c < |t|
    ensures EntryOk(cfg, t, c)
  {}

  /** After marking, the front chunk is listed unless it became full; no other chunk changes. */
  lemma MarkLists(cfg: Config, g: Global, b: nat, n: nat, young: int)
    requires InvBut(cfg, g, young) && Ready(cfg, g, b) && n >= 1
    requires young >= 0 ==> g.lists[b] == [young]
    ensures var g1 := MarkFront(cfg, g, b, n).1;
            ListsOk(cfg, g1, -1) && InSegment(cfg, g1, -1)
  {
    hide Slots, FirstFree, Elements, OffsetsOf, TableOk;
    var g1 := MarkFront(cfg, g, b, n).1;
    var c := g.lists[b][0];
    var u := g1.table;
    FrontSlots(cfg, g, b, n);
    assert |u[c].marked| == |g.table[c].marked| + Take(cfg, g, b, n);
    assert c in g.lists[b];
    forall a | 0 <= a < |g.lists| ensures ListOk(cfg, u, g1.lists[a], a, -1) {
      assert ListOk(cfg, g.table, g.lists[a], a, young);
      assert ListOk(cfg, g.table, g.lists[b], b, young);
      if a == b {
        TailOf(g.lists[b]);
      } else {
        assert forall d: nat :: Listed(cfg, u, a, d, -1) == Listed(cfg, g.table, a, d, young);
      }
    }
  }

  lemma TailOf(list: seq<nat>)
    requires NoDuplicates(list) && list != []
    ensures NoDuplicates(list[1..]) && forall c :: c in list[1..] <==> c in list && c != list[0]
  {
    assert list == [list[0]] + list[1..];
  }

  /** n null offsets. */
  function Nulls(n: nat): (r: seq<Offset>)
    ensures |r| == n && forall i :: 0 <= i < n ==> r[i] == Null
  {
    seq(n, _ => Null)
  }

  /** Allocating n slots of one bin, chunk by chunk; what could not be allocated stays null. */
  ghost function AllocMany(cfg: Config, g: Global, b: nat, n: nat, grow: Storage): (r: (seq<Offset>, Global))
    requires Inv(cfg, g) && b < |g.lists| && Bounded(cfg, grow)
    ensures |r.0| == n
    decreases n
  {
    if n == 0 then ([], g) else
    ProvideOk(cfg, g, b, grow);
    var (ok, g1) := Provide(cfg, g, b, grow);
    if !ok then (Nulls(n), g1) else
    MarkFrontOk(cfg, g1, b, n, YoungOf(g, b));
    var (os, g2) := MarkFront(cfg, g1, b, n);
    var (rest, g3) := AllocMany(cfg, g2, b, n - |os|, grow);
    (os + rest, g3)
  }

  /** From g to g1 the slots of the offsets in os became marked, and nothing else changed for the clients. */
  ghost predicate Grown(cfg: Config, g: Global, b: nat, os: seq<Offset>, g1: Global) {
    && Inv(cfg, g1) && Keeps(cfg, g.table, g1.table) && g.segment <= g1.segment
    && multiset(MarkedSet(cfg, g1.table)) == multiset(MarkedSet(cfg, g.table)) + Objects(os)
    && forall i :: 0 <= i < |os| && os[i].At? ==> Slotted(cfg, g1.table, os[i].pos, b)
  }

  lemma GrownTrans(cfg: Config, g: Global, b: nat, os: seq<Offset>, g1: Global, rest: seq<Offset>, g2: Global)
    requires Inv(cfg, g) && Grown(cfg, g, b, os, g1) && Grown(cfg, g1, b, rest, g2)
    ensures Grown(cfg, g, b, os + rest, g2)
  {
    hide Slotted, MarkedSet, InvBut, Objects;
    ObjectsConcat(os, rest);
    var all := os + rest;
    forall i | 0 <= i < |all| && all[i].At? ensures Slotted(cfg, g2.table, all[i].pos, b) {
      if i < |os| { assert Slotted(cfg, g1.table, os[i].pos, b); } else { assert rest[i - |os|] == all[i]; }
    }
  }

  lemma {:induction false} NullObjects(n: nat)
    ensures Objects(Nulls(n)) == multiset{}
  {
    if n > 0 {
      NullObjects(n - 1);
      assert Nulls(n)[..n - 1] == Nulls(n - 1);
    }
  }

  lemma GrownSame(cfg: Config, g: Global, b: nat, n: nat, g1: Global)
    requires Inv(cfg, g1) && Keeps(cfg, g.table, g1.table) && g.segment <= g1.segment
    requires MarkedSet(cfg, g1.table) == MarkedSet(cfg, g.table)
    ensures Grown(cfg, g, b, Nulls(n), g1)
  {
    hide Slotted, MarkedSet, InvBut, Objects, Keeps;
    NullObjects(n);
  }

  /** Allocation gives each offset to one owner, whatever the storage does. */
  lemma {:induction false} AllocManyCorrect(cfg: Config, g: Global, b: nat, n: nat, grow: Storage)
    requires Inv(cfg, g) && b < |g.lists| && Bounded(cfg, grow)
    ensures var (os, g1) := AllocMany(cfg, g, b, n, grow); Grown(cfg, g, b, os, g1)
    decreases n
  {
    hide Slotted, MarkedSet, InvBut, Objects, Keeps, Provide, MarkFront, Ready, TableOk, ValidConfig;
    if n == 0 {
      KeepsSelf(cfg, g.table);
      GrownSame(cfg, g, b, 0, g);
      assert Nulls(0) == [];
    } else {
      ProvideOk(cfg, g, b, grow);
      var (ok, g1) := Provide(cfg, g, b, grow);
      GrownStep(cfg, g, b, n, grow);
      if ok {
        MarkFrontOk(cfg, g1, b, n, YoungOf(g, b));
        var (os, g2) := MarkFront(cfg, g1, b, n);
        AllocManyCorrect(cfg, g2, b, n - |os|, grow);
        var (rest, g3) := AllocMany(cfg, g2, b, n - |os|, grow);
        GrownTrans(cfg, g, b, os, g2, rest, g3);
      }
    }
  }

  lemma GrownStep(cfg: Config, g: Global, b: nat, n: nat, grow: Storage)
    requires Inv(cfg, g) && b < |g.lists| && Bounded(cfg, grow) && n >= 1
    ensures var (ok, g1) := Provide(cfg, g, b, grow);
            && (!ok ==> Grown(cfg, g, b, Nulls(n), g1))
            && (ok ==> Ready(cfg, g1, b) && Grown(cfg, g, b, MarkFront(cfg, g1, b, n).0, MarkFront(cfg, g1, b, n).1))
  {
    hide Slotted, MarkedSet, InvBut, Objects, Provide, MarkFront, Ready;
    ProvideOk(cfg, g, b, grow);
    var (ok, g1) := Provide(cfg, g, b, grow);
    if ok {
      MarkFrontOk(cfg, g1, b, n, YoungOf(g, b));
    } else {
      GrownSame(cfg, g, b, n, g1);
    }
  }

  // ---------- One by one or in bulk ---------- //

  ghost function AllocSingles(cfg: Config, g: Global, b: nat, n: nat, grow: Storage): (r: (seq<Offset>, Global))
    requires Inv(cfg, g) && b < |g.lists| && Bounded(cfg, grow)
    ensures |r.0| == n
    decreases n
  {
    if n == 0 then ([], g) else
    AllocManyCorrect(cfg, g, b, 1, grow);
    var (o, g1) := AllocMany(cfg, g, b, 1, grow);
    var (rest, g2) := AllocSingles(cfg, g1, b, n - 1, grow);
    (o + rest, g2)
  }

  const MANY_ALLOCATIONS_THRESHOLD := 4

  /** `priv_allocate_small_objects_from_global`. */
  ghost function AllocSmall(cfg: Config, g: Global, b: nat, n: nat, grow: Storage): (r: (seq<Offset>, Global))
    requires Inv(cfg, g) && b < |g.lists| && Bounded(cfg, grow)
    ensures |r.0| == n
  {
    if n >= MANY_ALLOCATIONS_THRESHOLD then AllocMany(cfg, g, b, n, grow) else AllocSingles(cfg, g, b, n, grow)
  }

  lemma {:induction false} AllocSinglesCorrect(cfg: Config, g: Global, b: nat, n: nat, grow: Storage)
    requires Inv(cfg, g) && b < |g.lists| && Bounded(cfg, grow)
    ensures var (os, g1) := AllocSingles(cfg, g, b, n, grow); Grown(cfg, g, b, os, g1)
    decreases n
  {
    hide Slotted, MarkedSet, InvBut, Objects, Keeps, AllocMany, TableOk, ValidConfig;
    AllocManyCorrect(cfg, g, b, if n == 0 then 0 else 1, grow);
    if n == 0 {
      KeepsSelf(cfg, g.table);
      GrownSame(cfg, g, b, 0, g);
      assert Nulls(0) == [];
    } else {
      var (o, g1) := AllocMany(cfg, g, b, 1, grow);
      AllocSinglesCorrect(cfg, g1, b, n - 1, grow);
      var (rest, g2) := AllocSingles(cfg, g1, b, n - 1, grow);
      GrownTrans(cfg, g, b, o, g1, rest, g2);
    }
  }

  /** Each offset handed out belongs to a slot that was free, and no slot is handed out twice. */
  lemma AllocSmallCorrect(cfg: Config, g: Global, b: nat, n: nat, grow: Storage)
    requires Inv(cfg, g) && b < |g.lists| && Bounded(cfg, grow)
    ensures var (os, g1) := AllocSmall(cfg, g, b, n, grow); Grown(cfg, g, b, os, g1)
  {
    hide Grown, AllocMany, AllocSingles;
    AllocManyCorrect(cfg, g, b, n, grow);
    AllocSinglesCorrect(cfg, g, b, n, grow);
  }

  /** Taking n slots of the front chunk is taking one, then the others. */
  lemma MarkFrontSplit(cfg: Config, g: Global, b: nat, n: nat)
    requires ValidConfig(cfg) && TableOk(cfg, g.table) && Ready(cfg, g, b) && n >= 1
    ensures var (o, g1) := MarkFront(cfg, g, b, 1);
            && (Take(cfg, g, b, n) == 1 ==> MarkFront(cfg, g, b, n) == (o, g1))
            && (Take(cfg, g, b, n) >= 2 ==>
                  && n >= 2 && Ready(cfg, g1, b)
                  && MarkFront(cfg, g, b, n) == (o + MarkFront(cfg, g1, b, n - 1).0, MarkFront(cfg, g1, b, n - 1).1))
  {
    hide Slots, TableOk, Elements, OffsetOf;
    var c := g.lists[b][0];
    var marked := g.table[c].marked;
    var k := Take(cfg, g, b, n);
    var p := LeastFree(marked);
    FrontSlots(cfg, g, b, n);
    assert FirstFree(marked, 1) == [p];
    if k >= 2 {
      FrontSlots(cfg, g, b, 1);
      var rest := FirstFree(marked + {p}, k - 1);
      assert FirstFree(marked, k) == [p] + rest;
      ElementsCons(p, rest);
      ElementsOne(p);
      assert marked + Elements([p] + rest) == (marked + {p}) + Elements(rest);
      assert OffsetsOf(cfg, c, b, [p] + rest) == OffsetsOf(cfg, c, b, [p]) + OffsetsOf(cfg, c, b, rest);
      var g1 := MarkFront(cfg, g, b, 1).1;
      assert g1.lists == g.lists && g1.table == g.table[c := Small(b, marked + {p})];
      assert Take(cfg, g1, b, n - 1) == k - 1;
      assert MarkAll(g1.table, c, rest) == MarkAll(g.table, c, [p] + rest);
    }
  }

  ghost predicate NoNulls(os: seq<Offset>) { forall i :: 0 <= i < |os| ==> os[i].At? }

  lemma FailureIsNull(cfg: Config, g: Global, b: nat, n: nat, grow: Storage)
    requires Inv(cfg, g) && b < |g.lists| && Bounded(cfg, grow) && n >= 1 && !Provide(cfg, g, b, grow).0
    ensures !NoNulls(AllocMany(cfg, g, b, n, grow).0)
  {
    hide InvBut, Provide;
    assert AllocMany(cfg, g, b, n, grow).0[0] == Null;
  }

  /** A bulk allocation that succeeds starts like a single one. */
  lemma BulkStep(cfg: Config, g: Global, b: nat, n: nat, grow: Storage)
    requires Inv(cfg, g) && b < |g.lists| && Bounded(cfg, grow) && n >= 1
    requires NoNulls(AllocMany(cfg, g, b, n, grow).0)
    ensures var (o, g1) := AllocMany(cfg, g, b, 1, grow);
            && Inv(cfg, g1) && b < |g1.lists|
            && AllocMany(cfg, g, b, n, grow) ==
                 (o + AllocMany(cfg, g1, b, n - 1, grow).0, AllocMany(cfg, g1, b, n - 1, grow).1)
  {
    hide Slots, Slotted, MarkedSet, InvBut, Objects, Keeps, TableOk, ValidConfig, MarkFront, Take, NewChunk, ListOk,
      NonFull;
    ProvideOk(cfg, g, b, grow);
    var (ok, g1) := Provide(cfg, g, b, grow);
    if !ok {
      FailureIsNull(cfg, g, b, n, grow);
      assert false;
    }
    var y := YoungOf(g, b);
    MarkFrontOk(cfg, g1, b, n, y);
    MarkFrontOk(cfg, g1, b, 1, y);
    MarkFrontSplit(cfg, g1, b, n);
    var (o, gA) := MarkFront(cfg, g1, b, 1);
    assert AllocMany(cfg, g, b, 1, grow) == (o, gA) by {
      assert o + [] == o;
      assert AllocMany(cfg, gA, b, 0, grow) == ([], gA);
    }
    if Take(cfg, g1, b, n) >= 2 {
      var (os, g2) := MarkFront(cfg, gA, b, n - 1);
      ProvideOk(cfg, gA, b, grow);
      MarkFrontOk(cfg, gA, b, n - 1, -1);
      var (rest, g3) := AllocMany(cfg, g2, b, n - 1 - |os|, grow);
      assert AllocMany(cfg, gA, b, n - 1, grow) == (os + rest, g3);
      assert (o + os) + rest == o + (os + rest);
    }
  }

  /** The bulk path gives the same offsets in the same order, and leaves the same state, as one call per
      object, whenever it succeeds. */
  lemma {:induction false} BulkIsSingles(cfg: Config, g: Global, b: nat, n: nat, grow: Storage)
    requires Inv(cfg, g) && b < |g.lists| && Bounded(cfg, grow)
    requires NoNulls(AllocMany(cfg, g, b, n, grow).0)
    ensures AllocSingles(cfg, g, b, n, grow) == AllocMany(cfg, g, b, n, grow)
    decreases n
  {
    hide InvBut, AllocMany;
    if n == 0 {
      BulkNone(cfg, g, b, grow);
    } else {
      BulkStep(cfg, g, b, n, grow);
      var (o, g1) := AllocMany(cfg, g, b, 1, grow);
      var rest := AllocMany(cfg, g1, b, n - 1, grow).0;
      assert forall i :: 0 <= i < |rest| ==> rest[i] == (o + rest)[i + |o|];
      BulkIsSingles(cfg, g1, b, n - 1, grow);
    }
  }

  lemma BulkNone(cfg: Config, g: Global, b: nat, grow: Storage)
    requires Inv(cfg, g) && b < |g.lists| && Bounded(cfg, grow)
    ensures AllocMany(cfg, g, b, 0, grow) == ([], g)
  {}

  // ---------- Freeing small objects ---------- //

  /** `priv_deallocate_small_object_from_global_without_bin_lock`. */
  ghost function FreeOne(cfg: Config, g: Global, b: nat, o: Offset): (g1: Global)
    requires ValidConfig(cfg) && b < |g.lists| && (o.At? ==> Slotted(cfg, g.table, o.pos, b))
    ensures |g1.lists| == |g.lists| && g1.segment == g.segment
  {
    if o == Null then g else
    var c := ChunkOf(cfg, o.pos);
    var wasFull := |g.table[c].marked| == Slots(cfg, b);
    var t := g.table[c := Small(b, g.table[c].marked - {SlotOf(cfg, b, o.pos)})];
    if wasFull then Global(t, g.lists[b := [c] + g.lists[b]], g.segment)
    else if t[c].marked == {} then Global(Erase(t, c), g.lists[b := Erased(g.lists[b], c)], g.segment)
    else g.(table := t)
  }

  /** From g to g1 the slots of the offsets in os became free, and nothing else changed for the clients. */
  ghost predicate Shrunk(cfg: Config, g: Global, os: multiset<nat>, g1: Global)
    requires ValidConfig(cfg)
  {
    && Inv(cfg, g1) && SameLarge(g.table, g1.table) && g1.segment == g.segment
    && multiset(MarkedSet(cfg, g.table)) == multiset(MarkedSet(cfg, g1.table)) + os
    && forall o: nat, b: nat ::
         Slotted(cfg, g.table, o, b) && o in MarkedSet(cfg, g1.table) ==> Slotted(cfg, g1.table, o, b)
  }

  lemma FreeOneCorrect(cfg: Config, g: Global, b: nat, o: Offset)
    requires Inv(cfg, g) && b < |g.lists| && (o.At? ==> Slotted(cfg, g.table, o.pos, b))
    ensures Shrunk(cfg, g, Objects([o]), FreeOne(cfg, g, b, o))
  {
    hide MarkedSet, TableOk, Objects, ListsOk, InSegment, FreeOne, Slotted, SameLarge, ValidConfig;
    ObjectsOne(o);
    if o.At? {
      FreeTable(cfg, g, b, o.pos);
      FreeLists(cfg, g, b, o.pos);
      SetMinusOne(MarkedSet(cfg, g.table), o.pos);
    } else {
      KeepsSelf(cfg, g.table);
      FreeNull(cfg, g, b);
    }
  }

  lemma FreeNull(cfg: Config, g: Global, b: nat)
    requires ValidConfig(cfg) && b < |g.lists|
    ensures FreeOne(cfg, g, b, Null) == g && SameLarge(g.table, g.table)
  {}

  lemma FreeTable(cfg: Config, g: Global, b: nat, p: nat)
    requires Inv(cfg, g) && b < |g.lists| && Slotted(cfg, g.table, p, b)
    ensures var u := FreeOne(cfg, g, b, At(p)).table;
            && TableOk(cfg, u) && SameLarge(g.table, u)
            && p in MarkedSet(cfg, g.table) && MarkedSet(cfg, u) == MarkedSet(cfg, g.table) - {p}
            && forall o: nat, a: nat :: Slotted(cfg, g.table, o, a) && o in MarkedSet(cfg, u) ==> Slotted(cfg, u, o, a)
  {
    hide Slots, OffsetOf, ChunkOf, SlotOf, MarkedSet, TableOk, ListsOk, InSegment, Erased, SameLarge, Erase;
    var c := ChunkOf(cfg, p);
    var t := g.table[c := Small(b, g.table[c].marked - {SlotOf(cfg, b, p)})];
    UnmarkOne(cfg, g.table, p, b);
    EntryFromTable(cfg, g.table, c);
    MarkOk(cfg, g.table, c, t[c].marked);
    EraseSmallOk(cfg, t, c);
    SmallChange(g.table, t, c);
    SmallChange(g.table, t[c := Unused], c);
    if t[c].marked == {} { DropChunk(cfg, t, t[c := Unused]); }
  }

  lemma SmallChange(t: Table, u: Table, c: nat)
    requires |u| == |t| && c < |t| && t[c].Small? && (u[c].Small? || u[c].Unused?)
    requires forall d :: 0 <= d < |t| && d != c ==> u[d] == t[d]
    ensures SameLarge(t, u)
  {}

  lemma FreeLists(cfg: Config, g: Global, b: nat, p: nat)
    requires Inv(cfg, g) && b < |g.lists| && Slotted(cfg, g.table, p, b)
    ensures var g1 := FreeOne(cfg, g, b, At(p));
            ListsOk(cfg, g1, -1) && InSegment(cfg, g1, -1)
  {
    hide Slots, OffsetOf, ChunkOf, SlotOf, TableOk, Erased, Erase, ListOk, NonFull;
    var g1 := FreeOne(cfg, g, b, At(p));
    var c, k := ChunkOf(cfg, p), SlotOf(cfg, b, p);
    var t, u := g.table, g1.table;
    EntryFromTable(cfg, t, c);
    MarkOk(cfg, t, c, t[c].marked - {k});
    EraseSmallOk(cfg, t[c := Small(b, t[c].marked - {k})], c);
    assert forall d :: 0 <= d < |t| && d != c ==> u[d] == t[d];
    assert ListOk(cfg, t, g.lists[b], b, -1);
    FreeList(cfg, g, b, c, k);
    forall a: nat | a < |g.lists| && a != b ensures ListOk(cfg, u, g1.lists[a], a, -1) {
      OtherList(cfg, t, u, g.lists[a], a, c);
    }
  }

  lemma OtherList(cfg: Config, t: Table, u: Table, list: seq<nat>, a: nat, c: nat)
    requires ValidConfig(cfg) && ListOk(cfg, t, list, a, -1)
    requires |u| == |t| && c < |t| && t[c].Small? && t[c].bin != a && (u[c].Small? ==> u[c].bin != a)
    requires forall d :: 0 <= d < |t| && d != c ==> u[d] == t[d]
    ensures ListOk(cfg, u, list, a, -1)
  {
    hide Slots;
    assert forall d: nat :: Listed(cfg, u, a, d, -1) == Listed(cfg, t, a, d, -1);
  }

  /** The list of the bin itself: a full chunk comes back to the front, an empty one goes. */
  lemma FreeList(cfg: Config, g: Global, b: nat, c: nat, k: nat)
    requires ValidConfig(cfg) && TableOk(cfg, g.table) && b < SmallBins(cfg) && b < |g.lists|
    requires ListOk(cfg, g.table, g.lists[b], b, -1)
    requires c < |g.table| && g.table[c].Small? && g.table[c].bin == b && k in g.table[c].marked
    ensures var rest := g.table[c].marked - {k};
            var u := g.table[c := Small(b, rest)];
            && (|g.table[c].marked| == Slots(cfg, b) ==> ListOk(cfg, u, [c] + g.lists[b], b, -1))
            && (|g.table[c].marked| != Slots(cfg, b) && rest == {} ==>
                  ListOk(cfg, u[c := Unused], Erased(g.lists[b], c), b, -1))
            && (|g.table[c].marked| != Slots(cfg, b) && rest != {} ==> ListOk(cfg, u, g.lists[b], b, -1))
  {
    hide Slots, TableOk, Erased, NonFull, ListOk, Listed, ValidConfig;
    var t, list := g.table, g.lists[b];
    TwoSlots(cfg, b);
    SlotCount(cfg, t, c);
    var rest := t[c].marked - {k};
    assert |rest| == |t[c].marked| - 1;
    ChunkListed(cfg, t, c, b);
    ChunkListed(cfg, t[c := Small(b, rest)], c, b);
    if |t[c].marked| == Slots(cfg, b) {
      ListGains(cfg, t, t[c := Small(b, rest)], list, b, c);
    } else if rest == {} {
      ListLoses(cfg, t, t[c := Unused], list, b, c);
      assert t[c := Small(b, rest)][c := Unused] == t[c := Unused];
    } else {
      ListStays(cfg, t, t[c := Small(b, rest)], list, b, c);
    }
  }

  lemma ChunkListed(cfg: Config, t: Table, c: nat, b: nat)
    requires ValidConfig(cfg) && c < |t| && t[c].Small? && t[c].bin == b
    ensures Listed(cfg, t, b, c, -1) <==> |t[c].marked| < Slots(cfg, b) && t[c].marked != {}
  {
    hide Slots;
  }

  ghost predicate DiffersAt(t: Table, u: Table, c: nat) {
    |u| == |t| && c < |t| && forall d :: 0 <= d < |t| && d != c ==> u[d] == t[d]
  }

  lemma OthersListed(cfg: Config, t: Table, u: Table, b: nat, c: nat)
    requires ValidConfig(cfg) && DiffersAt(t, u, c)
    ensures forall d: nat :: d != c ==> Listed(cfg, u, b, d, -1) == Listed(cfg, t, b, d, -1)
  {
    hide Slots;
  }

  lemma ListGains(cfg: Config, t: Table, u: Table, list: seq<nat>, b: nat, c: nat)
    requires ValidConfig(cfg) && ListOk(cfg, t, list, b, -1) && DiffersAt(t, u, c)
    requires !Listed(cfg, t, b, c, -1) && Listed(cfg, u, b, c, -1)
    ensures ListOk(cfg, u, [c] + list, b, -1)
  {
    hide Listed;
    OthersListed(cfg, t, u, b, c);
  }

  lemma ListLoses(cfg: Config, t: Table, u: Table, list: seq<nat>, b: nat, c: nat)
    requires ValidConfig(cfg) && ListOk(cfg, t, list, b, -1) && DiffersAt(t, u, c) && u[c] == Unused
    ensures ListOk(cfg, u, Erased(list, c), b, -1)
  {
    hide Erased, Slots;
    OthersListed(cfg, t, u, b, c);
    ErasedCorrect(list, c);
  }

  lemma ListStays(cfg: Config, t: Table, u: Table, list: seq<nat>, b: nat, c: nat)
    requires ValidConfig(cfg) && ListOk(cfg, t, list, b, -1) && DiffersAt(t, u, c)
    requires Listed(cfg, t, b, c, -1) == Listed(cfg, u, b, c, -1)
    ensures ListOk(cfg, u, list, b, -1)
  {
    hide Listed;
    OthersListed(cfg, t, u, b, c);
  }

  /** A chunk has no more marked slots than slots. */
  lemma SlotCount(cfg: Config, t: Table, c: nat)
    requires ValidConfig(cfg) && TableOk(cfg, t) && c < |t| && t[c].Small?
    ensures |t[c].marked| <= Slots(cfg, t[c].bin)
  {
    hide Slots;
    EntryFromTable(cfg, t, c);
    Within(t[c].marked, Slots(cfg, t[c].bin));
  }

  lemma SetMinusOne(a: set<nat>, x: nat)
    requires x in a
    ensures multiset(a) == multiset(a - {x}) + multiset{x}
  {}

  /** Every offset here is that of a marked slot of bin b, and none occurs twice. */
  ghost predicate Holds(cfg: Config, t: Table, b: nat, items: seq<Offset>)
    requires ValidConfig(cfg)
  {
    && Objects(items) <= multiset(MarkedSet(cfg, t))
    && forall i :: 0 <= i < |items| && items[i].At? ==> Slotted(cfg, t, items[i].pos, b)
  }

  lemma {:induction false} ObjectsMember(items: seq<Offset>, i: nat)
    requires i < |items| && items[i].At?
    ensures items[i].pos in Objects(items)
    decreases |items|
  {
    var n := |items| - 1;
    if i < n { ObjectsMember(items[..n], i); }
  }

  lemma HoldsTail(cfg: Config, g: Global, b: nat, items: seq<Offset>, g1: Global)
    requires ValidConfig(cfg) && Holds(cfg, g.table, b, items) && items != []
    requires Shrunk(cfg, g, Objects([items[0]]), g1)
    ensures Holds(cfg, g1.table, b, items[1..])
    ensures Objects(items) == Objects([items[0]]) + Objects(items[1..])
  {
    hide MarkedSet, Slotted, Objects, InvBut, ValidConfig;
    var rest := items[1..];
    assert items == [items[0]] + rest;
    ObjectsConcat([items[0]], rest);
    Remains(multiset(MarkedSet(cfg, g.table)), multiset(MarkedSet(cfg, g1.table)), Objects([items[0]]), Objects(rest));
    forall i | 0 <= i < |rest| && rest[i].At? ensures Slotted(cfg, g1.table, rest[i].pos, b) {
      assert rest[i] == items[i + 1];
      ObjectsMember(rest, i);
      assert rest[i].pos in multiset(MarkedSet(cfg, g1.table));
    }
  }

  lemma Remains(all: multiset<nat>, left: multiset<nat>, a: multiset<nat>, b: multiset<nat>)
    requires all == left + a && a + b <= all
    ensures b <= left
  {
    forall e ensures b[e] <= left[e] { assert (a + b)[e] <= all[e]; }
  }

  lemma ShrunkTrans(cfg: Config, g: Global, a: multiset<nat>, g1: Global, b: multiset<nat>, g2: Global)
    requires Inv(cfg, g) && Shrunk(cfg, g, a, g1) && Shrunk(cfg, g1, b, g2)
    ensures Shrunk(cfg, g, a + b, g2)
  {
    hide MarkedSet, Slotted, InvBut;
    forall o: nat | o in MarkedSet(cfg, g2.table) ensures o in MarkedSet(cfg, g1.table) {
      assert multiset(MarkedSet(cfg, g2.table))[o] >= 1;
      assert multiset(MarkedSet(cfg, g1.table))[o] >= 1;
    }
  }

  lemma ShrunkSelf(cfg: Config, g: Global)
    requires Inv(cfg, g)
    ensures Shrunk(cfg, g, multiset{}, g)
  {
    hide MarkedSet, Slotted, InvBut;
  }

  /** `priv_deallocate_small_objects_from_global`. */
  ghost function FreeAll(cfg: Config, g: Global, b: nat, items: seq<Offset>): (g1: Global)
    requires Inv(cfg, g) && b < |g.lists| && Holds(cfg, g.table, b, items)
    ensures |g1.lists| == |g.lists|
    decreases |items|
  {
    if items == [] then g else
    FreeOneCorrect(cfg, g, b, items[0]);
    HoldsTail(cfg, g, b, items, FreeOne(cfg, g, b, items[0]));
    FreeAll(cfg, FreeOne(cfg, g, b, items[0]), b, items[1..])
  }

  lemma {:induction false} FreeAllCorrect(cfg: Config, g: Global, b: nat, items: seq<Offset>)
    requires Inv(cfg, g) && b < |g.lists| && Holds(cfg, g.table, b, items)
    ensures Shrunk(cfg, g, Objects(items), FreeAll(cfg, g, b, items))
    decreases |items|
  {
    hide MarkedSet, Slotted, InvBut, FreeOne, Holds, Objects, Shrunk, ValidConfig;
    if items == [] {
      ShrunkSelf(cfg, g);
      ObjectsOne(Null);
    } else {
      HoldsFirst(cfg, g.table, b, items);
      FreeOneCorrect(cfg, g, b, items[0]);
      var g1 := FreeOne(cfg, g, b, items[0]);
      ShrunkInv(cfg, g, Objects([items[0]]), g1);
      HoldsTail(cfg, g, b, items, g1);
      FreeAllCorrect(cfg, g1, b, items[1..]);
      ShrunkTrans(cfg, g, Objects([items[0]]), g1, Objects(items[1..]), FreeAll(cfg, g1, b, items[1..]));
    }
  }

  lemma HoldsFirst(cfg: Config, t: Table, b: nat, items: seq<Offset>)
    requires ValidConfig(cfg) && Holds(cfg, t, b, items) && items != []
    ensures items[0].At? ==> Slotted(cfg, t, items[0].pos, b)
  {}

  lemma ShrunkInv(cfg: Config, g: Global, os: multiset<nat>, g1: Global)
    requires ValidConfig(cfg) && Shrunk(cfg, g, os, g1)
    ensures Inv(cfg, g1)
  {}

  /** Every block holds marked slots of its bin, and no offset occurs twice among all of them. */
  ghost predicate HoldsBlocks(cfg: Config, t: Table, q: Queue)
    requires ValidConfig(cfg)
  {
    && Cached(q) <= multiset(MarkedSet(cfg, t))
    && forall j :: 0 <= j < |q| ==> BlockHeld(cfg, t, q[j])
  }

  ghost predicate BlockHeld(cfg: Config, t: Table, x: Block)
    requires ValidConfig(cfg)
  {
    && x.bin < SmallBins(cfg)
    && forall i :: 0 <= i < |x.items| && x.items[i].At? ==> Slotted(cfg, t, x.items[i].pos, x.bin)
  }

  lemma BlockHolds(cfg: Config, t: Table, q: Queue)
    requires ValidConfig(cfg) && HoldsBlocks(cfg, t, q) && q != []
    ensures q[0].bin < SmallBins(cfg) && Holds(cfg, t, q[0].bin, q[0].items)
    ensures Cached(q) == Objects(q[0].items) + Cached(q[1..])
  {
    hide MarkedSet, Slotted, Objects, Cached, ValidConfig;
    assert BlockHeld(cfg, t, q[0]);
    assert q == [q[0]] + q[1..];
    CachedConcat([q[0]], q[1..]);
    CachedOne(q[0]);
  }

  lemma HoldsRest(cfg: Config, g: Global, q: Queue, g1: Global)
    requires Inv(cfg, g) && HoldsBlocks(cfg, g.table, q) && q != [] && Shrunk(cfg, g, Objects(q[0].items), g1)
    ensures HoldsBlocks(cfg, g1.table, q[1..])
  {
    hide MarkedSet, Slotted, Objects, InvBut, Cached, BlockHeld;
    BlockHolds(cfg, g.table, q);
    var rest := q[1..];
    Remains(multiset(MarkedSet(cfg, g.table)), multiset(MarkedSet(cfg, g1.table)), Objects(q[0].items), Cached(rest));
    forall j | 0 <= j < |rest| ensures BlockHeld(cfg, g1.table, rest[j]) {
      assert BlockHeld(cfg, g.table, q[j + 1]);
      BlockStays(cfg, g, Objects(q[0].items), g1, rest, j);
    }
  }

  /** A block whose offsets stay marked stays a block of marked slots. */
  lemma BlockStays(cfg: Config, g: Global, os: multiset<nat>, g1: Global, q: Queue, j: nat)
    requires ValidConfig(cfg) && Shrunk(cfg, g, os, g1) && j < |q| && BlockHeld(cfg, g.table, q[j])
    requires Cached(q) <= multiset(MarkedSet(cfg, g1.table))
    ensures BlockHeld(cfg, g1.table, q[j])
  {
    hide MarkedSet, Slotted, Objects, InvBut, Cached;
    var items := q[j].items;
    forall i | 0 <= i < |items| && items[i].At? ensures Slotted(cfg, g1.table, items[i].pos, q[j].bin) {
      ObjectsMember(items, i);
      CachedMember(q, j, items[i].pos);
      assert items[i].pos in multiset(MarkedSet(cfg, g1.table));
    }
  }

  lemma {:induction false} CachedMember(q: Queue, j: nat, o: nat)
    requires j < |q| && o in Objects(q[j].items)
    ensures o in Cached(q)
    decreases |q|
  {
    hide Objects;
    var n := |q| - 1;
    if j < n { CachedMember(q[..n], j, o); }
  }

  /** Handing blocks back, one after the other. */
  ghost function FreeBlocks(cfg: Config, g: Global, q: Queue): (g1: Global)
    requires Inv(cfg, g) && HoldsBlocks(cfg, g.table, q)
    ensures |g1.lists| == |g.lists|
    decreases |q|
  {
    if q == [] then g else
    BlockHolds(cfg, g.table, q);
    FreeAllCorrect(cfg, g, q[0].bin, q[0].items);
    HoldsRest(cfg, g, q, FreeAll(cfg, g, q[0].bin, q[0].items));
    FreeBlocks(cfg, FreeAll(cfg, g, q[0].bin, q[0].items), q[1..])
  }

  lemma {:induction false} FreeBlocksCorrect(cfg: Config, g: Global, q: Queue)
    requires Inv(cfg, g) && HoldsBlocks(cfg, g.table, q)
    ensures Shrunk(cfg, g, Cached(q), FreeBlocks(cfg, g, q))
    decreases |q|
  {
    hide MarkedSet, Slotted, InvBut, FreeAll, Holds, Objects, Cached, Shrunk, HoldsBlocks, ValidConfig;
    if q == [] {
      ShrunkSelf(cfg, g);
      CachedOne(Block(0, []));
    } else {
      BlockHolds(cfg, g.table, q);
      FreeAllCorrect(cfg, g, q[0].bin, q[0].items);
      var g1 := FreeAll(cfg, g, q[0].bin, q[0].items);
      ShrunkInv(cfg, g, Objects(q[0].items), g1);
      HoldsRest(cfg, g, q, g1);
      FreeBlocksCorrect(cfg, g1, q[1..]);
      ShrunkTrans(cfg, g, Objects(q[0].items), g1, Cached(q[1..]), FreeBlocks(cfg, g1, q[1..]));
    }
  }
}
