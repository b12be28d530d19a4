/** Runs of the allocator: any sequence of allocations, deallocations of what the client holds, and flushes. */
module Runs {
  import opened ChunkTable
  import opened BlockQueue
  import opened CacheBudget
  import opened Ledger
  import opened GlobalAllocator
  import opened CachedAllocator
  import opened Allocator
  import opened Safety
  import opened Orphans

  // ---------- Flushing all caches ---------- //

  ghost function FlushCache(s: Setup, w: World, i: nat): (w1: World)
    requires WorldOk(s, w) && i < |w.caches|
  {
    ConsistentCache(s, w, i);
    w.(g := Flush(s, w.g, w.caches[i]), caches := w.caches[i := []])
  }

  lemma FlushCacheCorrect(s: Setup, w: World, i: nat)
    requires WorldOk(s, w) && i < |w.caches|
    ensures WorldOk(s, FlushCache(s, w, i)) && w.g.segment <= FlushCache(s, w, i).g.segment
  {
    hide InvBut, Held, MarkedSet, RestOf, ValidConfig, TableOk, Sized, Accounts, Flush, Balanced, Consistent;
    OpenCache(s, w, i, multiset{});
    ConsistentCache(s, w, i);
    assert RestOf(w, i) + multiset{} == RestOf(w, i);
    FlushEmpties(s, w.g, w.caches[i], RestOf(w, i));
    CloseCache(s, w, i, multiset{}, Flush(s, w.g, w.caches[i]), [], multiset{});
  }

  /** `priv_clear_object_cache`, from cache i on. */
  ghost function FlushFrom(s: Setup, w: World, i: nat): (w1: World)
    requires WorldOk(s, w) && i <= |w.caches|
    decreases |w.caches| - i
  {
    if i == |w.caches| then w else
    FlushCacheCorrect(s, w, i);
    FlushFrom(s, FlushCache(s, w, i), i + 1)
  }

  ghost predicate Emptied(caches: seq<Queue>, k: nat) {
    k <= |caches| && forall j :: 0 <= j < k ==> caches[j] == []
  }

  lemma {:induction false} FlushFromKeeps(s: Setup, w: World, i: nat)
    requires WorldOk(s, w) && Emptied(w.caches, i)
    ensures var w1 := FlushFrom(s, w, i);
            && WorldOk(s, w1) && w.g.segment <= w1.g.segment && w1.small == w.small && w1.large == w.large
            && |w1.caches| == |w.caches| && Emptied(w1.caches, |w1.caches|)
    ensures NoOrphans(w.g.table) ==> NoOrphans(FlushFrom(s, w, i).g.table)
    decreases |w.caches| - i
  {
    hide Accounts, NoOrphans, Flush, Consistent;
    if i < |w.caches| {
      FlushCacheCorrect(s, w, i);
      ConsistentCache(s, w, i);
      if NoOrphans(w.g.table) { FlushOrphans(s, w.g, w.caches[i]); }
      FlushFromKeeps(s, FlushCache(s, w, i), i + 1);
    }
  }

  ghost function FlushAll(s: Setup, w: World): (w1: World)
    requires WorldOk(s, w)
  {
    FlushFrom(s, w, 0)
  }

  lemma {:induction false} NothingCached(caches: seq<Queue>)
    requires forall j :: 0 <= j < |caches| ==> caches[j] == []
    ensures AllCached(caches) == multiset{}
    decreases |caches|
  {
    if |caches| > 0 { NothingCached(caches[..|caches| - 1]); }
  }

  /** After a flush the marked slots are exactly the small objects the client holds. */
  lemma FlushAllCorrect(s: Setup, w: World)
    requires WorldOk(s, w)
    ensures var w1 := FlushAll(s, w);
            && WorldOk(s, w1) && w1.small == w.small && w1.large == w.large && AllCached(w1.caches) == multiset{}
            && MarkedSet(s.cfg, w1.g.table) == w1.small.Keys
  {
    hide MarkedSet, InvBut, CachesOk, SmallOk, LargeOk, AllCached, FlushFrom, ValidConfig;
    FlushFromKeeps(s, w, 0);
    var w1 := FlushAll(s, w);
    NothingCached(w1.caches);
    SameSet(MarkedSet(s.cfg, w1.g.table), w1.small.Keys);
  }

  lemma FlushedCaches(s: Setup, w: World)
    requires WorldOk(s, w)
    ensures forall i :: 0 <= i < |FlushAll(s, w).caches| ==> FlushAll(s, w).caches[i] == []
  {
    hide Accounts, FlushFrom;
    FlushFromKeeps(s, w, 0);
  }

  lemma SameSet(a: set<nat>, b: set<nat>)
    requires multiset(a) == multiset(b) + multiset{} + multiset{}
    ensures a == b
  {
    forall x ensures x in a <==> x in b { assert multiset(a)[x] == multiset(b)[x]; }
  }

  // ---------- Everything freed ---------- //

  ghost predicate AllFree(t: Table) { forall c :: 0 <= c < |t| ==> t[c] == Unused }

  /** Once the client has freed everything and the caches are flushed, only orphans are left: the directory
      and the lists are empty again exactly when there are none. */
  lemma EmptyAgain(s: Setup, w: World)
    requires WorldOk(s, w) && w.small == map[] && w.large == map[]
    ensures var g := FlushAll(s, w).g;
            && (forall b :: 0 <= b < |g.lists| ==> g.lists[b] == [])
            && (forall c :: 0 <= c < |g.table| ==> g.table[c] == Unused || Orphan(g.table, c))
            && (AllFree(g.table) <==> NoOrphans(g.table))
  {
    hide MarkedSet, InSegment, CachesOk, SmallOk, AllCached, FlushAll, ValidConfig, Marked, TableOk;
    FlushAllCorrect(s, w);
    var w1 := FlushAll(s, w);
    var t := w1.g.table;
    forall c | 0 <= c < |t| ensures t[c] == Unused || Orphan(t, c) {
      NothingLeft(s, w1, c);
    }
    forall b: nat | b < |w1.g.lists| ensures w1.g.lists[b] == [] {
      var list := w1.g.lists[b];
      assert ListOk(s.cfg, t, list, b, -1);
      EmptyList(s.cfg, t, list, b);
    }
  }

  lemma EmptyList(cfg: Config, t: Table, list: seq<nat>, b: nat)
    requires ValidConfig(cfg) && ListOk(cfg, t, list, b, -1)
    requires forall c :: 0 <= c < |t| ==> t[c] == Unused || Orphan(t, c)
    ensures list == []
  {
    hide Slots;
    assert forall c: nat :: !Listed(cfg, t, b, c, -1);
    if list != [] {
      HasMember(list);
      assert false;
    }
  }

  lemma HasMember(list: seq<nat>)
    requires list != []
    ensures exists c: nat :: c in list
  {
    assert list[0] in list;
  }

  lemma MarkedIn(cfg: Config, t: Table, c: nat, k: nat)
    requires ValidConfig(cfg) && TableOk(cfg, t) && c < |t| && t[c].Small? && k in t[c].marked
    ensures OffsetOf(cfg, c, t[c].bin, k) in MarkedSet(cfg, t)
  {
    hide MarkedSet, OffsetOf, Slots, SlotOf, ChunkOf;
    EntryFromTable(cfg, t, c);
    Decode(cfg, c, t[c].bin, k);
  }

  lemma NothingLeft(s: Setup, w: World, c: nat)
    requires WorldOk(s, w) && w.small == map[] && w.large == map[] && MarkedSet(s.cfg, w.g.table) == {}
    requires c < |w.g.table|
    ensures w.g.table[c] == Unused || Orphan(w.g.table, c)
  {
    hide MarkedSet, ListsOk, InSegment, CachesOk, SmallOk, AllCached, OffsetOf, Slots;
    var t := w.g.table;
    EntryFromTable(s.cfg, t, c);
    match t[c] {
      case Unused =>
      case Head(_) => assert false;
      case Body(_) => assert false;
      case Small(bin, marked) =>
        if marked != {} {
          var k :| k in marked;
          MarkedIn(s.cfg, t, c, k);
          assert false;
        }
    }
  }

  // ---------- Runs ---------- //

  /** One operation, with the cache it happens to use and the storage's answers. */
  datatype Op = Alloc(n: nat, cache: nat, grow: Storage) | Free(offset: Offset, cache: nat) | FlushAllCaches

  /** What the allocator asks of its caller: no request above the largest class, and only offsets
      that it holds are freed. */
  ghost predicate Legal(s: Setup, w: World, op: Op)
    requires ValidConfig(s.cfg)
  {
    match op
    case Alloc(n, cache, grow) => cache < |w.caches| && Bounded(s.cfg, grow) && (n == 0 || BinFor(s.cfg, n) >= 0)
    case Free(o, cache) => cache < |w.caches| && (o.At? ==> o.pos in w.small || o.pos in w.large)
    case FlushAllCaches => true
  }

  ghost function Step(s: Setup, w: World, op: Op): (w1: World)
    requires WorldOk(s, w) && Legal(s, w, op)
  {
    match op
    case Alloc(n, cache, grow) => Allocate(s, w, n, cache, grow).1
    case Free(o, cache) => Deallocate(s, w, o, cache)
    case FlushAllCaches => FlushAll(s, w)
  }

  lemma StepCorrect(s: Setup, w: World, op: Op)
    requires WorldOk(s, w) && Legal(s, w, op)
    ensures WorldOk(s, Step(s, w, op)) && w.g.segment <= Step(s, w, op).g.segment
  {
    hide Accounts, Allocate, Deallocate, FlushFrom, BinFor;
    match op {
      case Alloc(n, cache, grow) => AllocateCorrect(s, w, n, cache, grow);
      case Free(o, cache) => DeallocateCorrect(s, w, o, cache);
      case FlushAllCaches => FlushFromKeeps(s, w, 0);
    }
  }

  /** Every operation asks for what it may ask for. */
  ghost predicate LegalRun(s: Setup, w: World, ops: seq<Op>)
    requires WorldOk(s, w)
    decreases |ops|
  {
    ops == [] || (Legal(s, w, ops[0]) && (StepCorrect(s, w, ops[0]); LegalRun(s, Step(s, w, ops[0]), ops[1..])))
  }

  ghost function Run(s: Setup, w: World, ops: seq<Op>): (w1: World)
    requires WorldOk(s, w) && LegalRun(s, w, ops)
    decreases |ops|
  {
    if ops == [] then w else
    StepCorrect(s, w, ops[0]);
    Run(s, Step(s, w, ops[0]), ops[1..])
  }

  ghost function Initial(s: Setup, numCaches: nat, segment: nat): World
    requires ValidSetup(s)
  {
    World(Global(seq(MaxChunks(s.cfg), _ => Unused), seq(SmallBins(s.cfg), _ => []), segment),
          seq(numCaches, _ => []), map[], map[])
  }

  lemma InitialOk(s: Setup, numCaches: nat, segment: nat)
    requires ValidSetup(s) && segment < Limit(s.cfg)
    ensures WorldOk(s, Initial(s, numCaches, segment)) && NoOrphans(Initial(s, numCaches, segment).g.table)
  {
    hide MarkedSet, NumBlocks, Slots, OffsetOf, SlotOf, ChunkOf, Limit;
    var w := Initial(s, numCaches, segment);
    NothingCached(w.caches);
    EmptyBytes(s.cfg);
    forall o: nat ensures !Marked(s.cfg, w.g.table, o) {}
    assert MarkedSet(s.cfg, w.g.table) == {};
  }

  /** Over every run, whatever caches are used and whatever the storage does: everything is accounted for,
      and what the client holds is safe. */
  lemma {:induction false} RunIsSafe(s: Setup, w: World, ops: seq<Op>)
    requires WorldOk(s, w) && LegalRun(s, w, ops)
    ensures WorldOk(s, Run(s, w, ops)) && Safe(s.cfg, Run(s, w, ops))
    decreases |ops|
  {
    hide Accounts, Step, Legal, Safe;
    if ops == [] {
      WorldIsSafe(s, w);
    } else {
      StepCorrect(s, w, ops[0]);
      RunIsSafe(s, Step(s, w, ops[0]), ops[1..]);
    }
  }

  /** In particular from a fresh allocator. */
  lemma FreshRunIsSafe(s: Setup, numCaches: nat, segment: nat, ops: seq<Op>)
    requires ValidSetup(s) && segment < Limit(s.cfg)
    requires WorldOk(s, Initial(s, numCaches, segment)) && LegalRun(s, Initial(s, numCaches, segment), ops)
    ensures var w := Run(s, Initial(s, numCaches, segment), ops);
            && Safe(s.cfg, w)
            && multiset(MarkedSet(s.cfg, w.g.table)) == multiset(w.small.Keys) + AllCached(w.caches)
  {
    hide LegalRun, Run, InvBut, CachesOk, SmallOk, LargeOk, Safe, AllCached, MarkedSet, Initial, ValidConfig;
    RunIsSafe(s, Initial(s, numCaches, segment), ops);
    var w := Run(s, Initial(s, numCaches, segment), ops);
    assert multiset(w.small.Keys) + AllCached(w.caches) + multiset{} == multiset(w.small.Keys) + AllCached(w.caches);
  }

  // ---------- Runs in which the storage never fails ---------- //

  ghost predicate AllReliable(s: Setup, ops: seq<Op>) {
    forall k :: 0 <= k < |ops| && ops[k].Alloc? ==> Reliable(s.cfg, ops[k].grow)
  }

  lemma StepOrphans(s: Setup, w: World, op: Op)
    requires WorldOk(s, w) && Legal(s, w, op) && (op.Alloc? ==> Reliable(s.cfg, op.grow)) && NoOrphans(w.g.table)
    ensures NoOrphans(Step(s, w, op).g.table)
  {
    hide Accounts, Allocate, Deallocate, FlushFrom, BinFor, NoOrphans, Reliable;
    match op {
      case Alloc(n, cache, grow) => AllocateOrphans(s, w, n, cache, grow);
      case Free(o, cache) => DeallocateOrphans(s, w, o, cache);
      case FlushAllCaches => FlushFromKeeps(s, w, 0);
    }
  }

  /** When extension never fails there are never orphans, so the lists are exact between operations. */
  lemma {:induction false} RunHasNoOrphans(s: Setup, w: World, ops: seq<Op>)
    requires WorldOk(s, w) && LegalRun(s, w, ops) && AllReliable(s, ops) && NoOrphans(w.g.table)
    ensures NoOrphans(Run(s, w, ops).g.table)
    decreases |ops|
  {
    hide Accounts, Step, Legal, NoOrphans, Reliable;
    if ops != [] {
      assert ops[0].Alloc? ==> Reliable(s.cfg, ops[0].grow);
      StepCorrect(s, w, ops[0]);
      StepOrphans(s, w, ops[0]);
      forall k | 0 <= k < |ops[1..]| && ops[1..][k].Alloc? ensures Reliable(s.cfg, ops[1..][k].grow) {
        assert ops[1..][k] == ops[k + 1];
      }
      RunHasNoOrphans(s, Step(s, w, ops[0]), ops[1..]);
    }
  }

  /** From a fresh allocator whose storage never fails: once everything is freed and the caches are flushed,
      no chunk is in use and every list is empty. */
  lemma FreedRunIsEmpty(s: Setup, numCaches: nat, segment: nat, ops: seq<Op>)
    requires ValidSetup(s) && segment < Limit(s.cfg)
    requires WorldOk(s, Initial(s, numCaches, segment)) && LegalRun(s, Initial(s, numCaches, segment), ops)
             && AllReliable(s, ops)
    requires var w := Run(s, Initial(s, numCaches, segment), ops); w.small == map[] && w.large == map[]
    ensures WorldOk(s, Run(s, Initial(s, numCaches, segment), ops))
    ensures var g := FlushAll(s, Run(s, Initial(s, numCaches, segment), ops)).g;
            AllFree(g.table) && forall b :: 0 <= b < |g.lists| ==> g.lists[b] == []
  {
    hide LegalRun, Run, Accounts, Initial, AllReliable, NoOrphans, AllFree, FlushFrom, Limit;
    var start := Initial(s, numCaches, segment);
    InitialOk(s, numCaches, segment);
    RunIsSafe(s, start, ops);
    RunHasNoOrphans(s, start, ops);
    var w := Run(s, start, ops);
    NothingEmptied(w.caches);
    FlushFromKeeps(s, w, 0);
    EmptyAgain(s, w);
  }

  lemma NothingEmptied(caches: seq<Queue>)
    ensures Emptied(caches, 0)
  {}
}
