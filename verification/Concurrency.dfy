/** Threads in the allocator, interleaved at its critical sections: cache locks, one lock per bin, one chunk
    lock (include/metall/kernel/segment_allocator.hpp, include/metall/kernel/object_cache.hpp). */
module Concurrency {
  import opened ChunkTable
  import opened BlockQueue
  import opened FreeSlots
  import opened BinDirectory
  import opened Ledger
  import opened GlobalAllocator

  /** Where a thread is.
      - Rest: in no bin and not at the chunk lock.
      - WaitCache, WaitBin, WaitInsert, WaitErase, WaitLarge: at a lock.
      - InBin: in bin b; `young` is a chunk it has just registered, or -1.
      - JustMarked, JustUnmarked: a slot of chunk c has been marked or unmarked, the list not yet adjusted.
      - Inserting, Registered, InsertedList: with the chunk lock, registering a chunk for bin b.
      - Erasing, Unregistered: with the chunk lock, erasing the empty chunk c; ErasingList: after it, with c
        still in the list of b.
      - InLarge: with the chunk lock, for a large object. */
  datatype Pc =
    | Rest | WaitCache(k: nat) | WaitBin(b: nat) | InBin(b: nat, young: int)
    | JustMarked(b: nat, c: nat) | JustUnmarked(b: nat, c: nat, wasFull: bool)
    | WaitInsert(b: nat) | Inserting(b: nat) | Registered(b: nat, c: nat) | InsertedList(b: nat, c: nat)
    | WaitErase(b: nat, c: nat) | Erasing(b: nat, c: nat) | Unregistered(b: nat, c: nat) | ErasingList(b: nat, c: nat)
    | WaitLarge | InLarge

  /** The cache lock it holds (-1 for none), the slots it owns and the large objects it owns. */
  datatype Thread = Thread(pc: Pc, cache: int, held: set<nat>, large: set<nat>)

  /** The directories, the threads, what each cache owns, and the chunks that failed extensions left behind. */
  datatype State = State(table: Table, lists: seq<seq<nat>>, threads: seq<Thread>, caches: seq<set<nat>>,
    orphans: set<nat>)

  /** The bin whose lock the thread holds; -1 for none. */
  function BinHeld(pc: Pc): int {
    match pc
    case Rest => -1
    case WaitCache(_) => -1
    case WaitBin(_) => -1
    case WaitLarge => -1
    case InLarge => -1
    case _ => pc.b
  }

  predicate ChunkHeld(pc: Pc) {
    pc.Inserting? || pc.Registered? || pc.InsertedList? || pc.Erasing? || pc.Unregistered? || pc.InLarge?
  }

  // ---------- What a bin's list is like ---------- //

  /** A chunk of bin b without marked slots that this thread is about to use or erase. */
  predicate Pins(pc: Pc, c: nat) {
    || (pc.InBin? && pc.young == c) || (pc.JustUnmarked? && pc.c == c) || (pc.Registered? && pc.c == c)
    || (pc.InsertedList? && pc.c == c) || (pc.WaitErase? && pc.c == c) || (pc.Erasing? && pc.c == c)
  }

  /** c belongs in the list of b while its lock is held at pc. */
  ghost predicate InList(cfg: Config, t: Table, b: nat, c: nat, pc: Pc)
    requires ValidConfig(cfg)
  {
    match pc
    case InBin(_, young) => Listed(cfg, t, b, c, young)
    case JustMarked(_, d) => Listed(cfg, t, b, c, -1) || c == d
    case JustUnmarked(_, d, wasFull) => (Listed(cfg, t, b, c, -1) || c == d) && !(wasFull && c == d)
    case InsertedList(_, d) => Listed(cfg, t, b, c, d)
    case WaitErase(_, d) => Listed(cfg, t, b, c, -1) || c == d
    case Erasing(_, d) => Listed(cfg, t, b, c, -1) || c == d
    case Unregistered(_, d) => Listed(cfg, t, b, c, -1) || c == d
    case ErasingList(_, d) => Listed(cfg, t, b, c, -1) || c == d
    case _ => Listed(cfg, t, b, c, -1)
  }

  ghost predicate IsSmallOf(t: Table, c: nat, b: nat) { c < |t| && t[c].Small? && t[c].bin == b }

  /** What the thread knows about the chunk it is dealing with. */
  ghost predicate PcOk(cfg: Config, t: Table, list: seq<nat>, b: nat, pc: Pc)
    requires ValidConfig(cfg)
  {
    match pc
    case InBin(_, young) => young >= 0 ==> list == [young] && IsSmallOf(t, young, b) && t[young].marked == {}
    case JustMarked(_, c) => IsSmallOf(t, c, b) && t[c].marked != {} && list != [] && list[0] == c
    case JustUnmarked(_, c, wasFull) =>
      IsSmallOf(t, c, b) && |t[c].marked| < Slots(cfg, b) && (wasFull ==> t[c].marked != {})
    case WaitInsert(_) => list == []
    case Inserting(_) => list == []
    case Registered(_, c) => list == [] && IsSmallOf(t, c, b) && t[c].marked == {}
    case InsertedList(_, c) => list == [c] && IsSmallOf(t, c, b) && t[c].marked == {}
    case WaitErase(_, c) => IsSmallOf(t, c, b) && t[c].marked == {}
    case Erasing(_, c) => IsSmallOf(t, c, b) && t[c].marked == {}
    case Unregistered(_, c) => !IsSmallOf(t, c, b)
    case ErasingList(_, c) => !IsSmallOf(t, c, b)
    case _ => true
  }

  /** The list of bin b, seen from the holder of its lock, or from Rest when nobody holds it. A chunk of the bin
      without marked slots is an orphan, or else the holder is dealing with it. */
  ghost predicate BinOk(cfg: Config, t: Table, list: seq<nat>, b: nat, pc: Pc, os: set<nat>)
    requires ValidConfig(cfg)
  {
    && NoDuplicates(list) && PcOk(cfg, t, list, b, pc)
    && (forall c: nat :: c in list <==> InList(cfg, t, b, c, pc))
    && forall c: nat :: IsSmallOf(t, c, b) && t[c].marked == {} ==> (Pins(pc, c) <==> c !in os)
  }

  // ---------- The invariant ---------- //

  ghost predicate Holder(s: State, i: nat, b: nat) { i < |s.threads| && BinHeld(s.threads[i].pc) == b }

  ghost predicate NoHolder(s: State, b: nat) { forall i :: 0 <= i < |s.threads| ==> BinHeld(s.threads[i].pc) != b }

  /** No two threads hold the same lock. */
  ghost predicate Exclusive(s: State) {
    && (forall i, j :: 0 <= i < j < |s.threads| && BinHeld(s.threads[i].pc) >= 0 ==>
          BinHeld(s.threads[i].pc) != BinHeld(s.threads[j].pc))
    && (forall i, j :: 0 <= i < j < |s.threads| && ChunkHeld(s.threads[i].pc) ==> !ChunkHeld(s.threads[j].pc))
    && forall i, j :: 0 <= i < j < |s.threads| && s.threads[i].cache >= 0 ==> s.threads[i].cache != s.threads[j].cache
  }

  ghost predicate BinsOk(cfg: Config, s: State)
    requires ValidConfig(cfg)
  {
    forall b: nat :: b < |s.lists| ==>
      && (NoHolder(s, b) ==> BinOk(cfg, s.table, s.lists[b], b, Rest, s.orphans))
      && forall i: nat :: Holder(s, i, b) ==> BinOk(cfg, s.table, s.lists[b], b, s.threads[i].pc, s.orphans)
  }

  ghost function AllHeld(threads: seq<Thread>): multiset<nat> {
    if |threads| == 0 then multiset{} else AllHeld(threads[..|threads| - 1]) + multiset(threads[|threads| - 1].held)
  }

  ghost function AllLarge(threads: seq<Thread>): multiset<nat> {
    if |threads| == 0 then multiset{} else AllLarge(threads[..|threads| - 1]) + multiset(threads[|threads| - 1].large)
  }

  ghost function AllCached(caches: seq<set<nat>>): multiset<nat> {
    if |caches| == 0 then multiset{} else AllCached(caches[..|caches| - 1]) + multiset(caches[|caches| - 1])
  }

  ghost function Heads(t: Table): (hs: set<nat>)
    ensures forall c :: c in hs <==> 0 <= c < |t| && t[c].Head?
  {
    set c | 0 <= c < |t| && t[c].Head?
  }

  /** Every marked slot has exactly one owner, a thread or a cache; every large object has exactly one. */
  ghost predicate Owned(cfg: Config, s: State)
    requires ValidConfig(cfg)
  {
    && multiset(MarkedSet(cfg, s.table)) == AllHeld(s.threads) + AllCached(s.caches)
    && multiset(Heads(s.table)) == AllLarge(s.threads)
  }

  /** An orphan stays a small chunk without marked slots. */
  ghost predicate OrphansOk(t: Table, os: set<nat>) {
    forall c :: c in os ==> c < |t| && t[c].Small? && t[c].marked == {}
  }

  ghost predicate Inv(cfg: Config, s: State) {
    && ValidConfig(cfg) && TableOk(cfg, s.table) && |s.lists| == SmallBins(cfg)
    && (forall i :: 0 <= i < |s.threads| ==> BinHeld(s.threads[i].pc) < |s.lists| && s.threads[i].cache < |s.caches|)
    && Exclusive(s) && BinsOk(cfg, s) && Owned(cfg, s) && OrphansOk(s.table, s.orphans)
  }

  // ---------- Steps ---------- //

  datatype Action =
    | AskCache(k: nat) | GetCache | LeaveCache | TakeCached(o: nat) | PutCached(o: nat)
    | AskBin(b: nat) | GetBin | LeaveBin | Mark | AdjustMarked | Unmark(o: nat) | AdjustUnmarked
    | AskInsert | GetInsert | Register | ExtendFails | ListInsert | LeaveInsert
    | GetErase | EraseChunk | LeaveErase | ListErase
    | AskLarge | GetLarge | TakeLarge(b: nat) | GiveLarge(c: nat) | LeaveLarge
    | HandOver(j: nat, o: nat) | HandOverLarge(j: nat, c: nat)

  ghost predicate ChunkFree(s: State) { forall j :: 0 <= j < |s.threads| ==> !ChunkHeld(s.threads[j].pc) }

  ghost predicate CacheFree(s: State, k: nat) { forall j :: 0 <= j < |s.threads| ==> s.threads[j].cache != k }

  /** Thread i can take this step. */
  ghost predicate Enabled(cfg: Config, s: State, i: nat, a: Action)
    requires ValidConfig(cfg)
  {
    && i < |s.threads|
    && var th := s.threads[i];
    var pc := th.pc;
    match a
    case AskCache(k) => pc.Rest? && th.cache == -1 && k < |s.caches|
    case GetCache => pc.WaitCache? && pc.k < |s.caches| && th.cache == -1 && CacheFree(s, pc.k)
    case LeaveCache => pc.Rest? && th.cache >= 0
    case TakeCached(o) => pc.Rest? && 0 <= th.cache < |s.caches| && o in s.caches[th.cache]
    case PutCached(o) => pc.Rest? && 0 <= th.cache < |s.caches| && o in th.held
    case AskBin(b) => pc.Rest? && b < |s.lists|
    case GetBin => pc.WaitBin? && pc.b < |s.lists| && NoHolder(s, pc.b)
    case LeaveBin => pc.InBin? && pc.young == -1
    case Mark => pc.InBin? && pc.b < |s.lists| && s.lists[pc.b] != []
    case AdjustMarked => pc.JustMarked?
    case Unmark(o) => pc.InBin? && pc.young == -1 && o in th.held && Slotted(cfg, s.table, o, pc.b)
    case AdjustUnmarked => pc.JustUnmarked?
    case AskInsert => pc.InBin? && pc.young == -1 && pc.b < |s.lists| && s.lists[pc.b] == []
    case GetInsert => pc.WaitInsert? && ChunkFree(s)
    case Register => pc.Inserting?
    case ExtendFails => pc.Registered?
    case ListInsert => pc.Registered?
    case LeaveInsert => pc.InsertedList?
    case GetErase => pc.WaitErase? && ChunkFree(s)
    case EraseChunk => pc.Erasing?
    case LeaveErase => pc.Unregistered?
    case ListErase => pc.ErasingList?
    case AskLarge => pc.Rest?
    case GetLarge => pc.WaitLarge? && ChunkFree(s)
    case TakeLarge(b) => pc.InLarge? && SmallBins(cfg) <= b < NumBins(cfg)
    case GiveLarge(c) => pc.InLarge? && c in th.large
    case LeaveLarge => pc.InLarge?
    case HandOver(j, o) => pc.Rest? && j < |s.threads| && j != i && o in th.held
    case HandOverLarge(j, c) => pc.Rest? && j < |s.threads| && j != i && c in th.large
  }

  ghost function SetPc(s: State, i: nat, pc: Pc): State
    requires i < |s.threads|
  {
    s.(threads := s.threads[i := s.threads[i].(pc := pc)])
  }

  /** The state after thread i has marked the lowest free slot of the front chunk of its bin. */
  ghost function DoMark(cfg: Config, s: State, i: nat): State
    requires ValidConfig(cfg) && i < |s.threads| && s.threads[i].pc.InBin? && s.threads[i].pc.b < |s.lists|
    requires s.lists[s.threads[i].pc.b] != []
    requires IsSmallOf(s.table, s.lists[s.threads[i].pc.b][0], s.threads[i].pc.b)
  {
    var th := s.threads[i];
    var b := th.pc.b;
    var c := s.lists[b][0];
    var k := LeastFree(s.table[c].marked);
    s.(table := s.table[c := Small(b, s.table[c].marked + {k})],
       threads := s.threads[i := th.(pc := JustMarked(b, c), held := th.held + {OffsetOf(cfg, c, b, k)})])
  }

  ghost function DoUnmark(cfg: Config, s: State, i: nat, o: nat): State
    requires ValidConfig(cfg) && i < |s.threads| && s.threads[i].pc.InBin?
             && Slotted(cfg, s.table, o, s.threads[i].pc.b)
  {
    var th := s.threads[i];
    var b := th.pc.b;
    var c, k := ChunkOf(cfg, o), SlotOf(cfg, b, o);
    s.(table := s.table[c := Small(b, s.table[c].marked - {k})],
       threads := s.threads[i := th.(pc := JustUnmarked(b, c, |s.table[c].marked| == Slots(cfg, b)),
                                     held := th.held - {o})])
  }

  /** The state after the step. */
  ghost function Do(cfg: Config, s: State, i: nat, a: Action): State
    requires Inv(cfg, s) && Enabled(cfg, s, i, a)
  {
    var th := s.threads[i];
    var pc := th.pc;
    StepDefined(cfg, s, i);
    match a
    case AskCache(k) => SetPc(s, i, WaitCache(k))
    case GetCache => s.(threads := s.threads[i := th.(pc := Rest, cache := pc.k)])
    case LeaveCache => s.(threads := s.threads[i := th.(cache := -1)])
    case TakeCached(o) =>
      s.(threads := s.threads[i := th.(held := th.held + {o})],
        caches := s.caches[th.cache := s.caches[th.cache] - {o}])
    case PutCached(o) =>
      s.(threads := s.threads[i := th.(held := th.held - {o})],
        caches := s.caches[th.cache := s.caches[th.cache] + {o}])
    case AskBin(b) => SetPc(s, i, WaitBin(b))
    case GetBin => SetPc(s, i, InBin(pc.b, -1))
    case LeaveBin => SetPc(s, i, Rest)
    case Mark => DoMark(cfg, s, i)
    case AdjustMarked =>
      var full := |s.table[pc.c].marked| == Slots(cfg, pc.b);
      SetPc(if full then s.(lists := s.lists[pc.b := s.lists[pc.b][1..]]) else s, i, InBin(pc.b, -1))
    case Unmark(o) => DoUnmark(cfg, s, i, o)
    case AdjustUnmarked =>
      if pc.wasFull then SetPc(s.(lists := s.lists[pc.b := [pc.c] + s.lists[pc.b]]), i, InBin(pc.b, -1))
      else if s.table[pc.c].marked == {} then SetPc(s, i, WaitErase(pc.b, pc.c))
      else SetPc(s, i, InBin(pc.b, -1))
    case AskInsert => SetPc(s, i, WaitInsert(pc.b))
    case GetInsert => SetPc(s, i, Inserting(pc.b))
    case Register =>
      var (c, u) := InsertSmall(s.table, pc.b);
      if c == |s.table| then SetPc(s, i, InBin(pc.b, -1)) else SetPc(s.(table := u), i, Registered(pc.b, c))
    case ExtendFails => SetPc(s.(orphans := s.orphans + {pc.c}), i, InBin(pc.b, -1))
    case ListInsert => SetPc(s.(lists := s.lists[pc.b := [pc.c] + s.lists[pc.b]]), i, InsertedList(pc.b, pc.c))
    case LeaveInsert => SetPc(s, i, InBin(pc.b, pc.c))
    case GetErase => SetPc(s, i, Erasing(pc.b, pc.c))
    case EraseChunk => SetPc(s.(table := Erase(s.table, pc.c)), i, Unregistered(pc.b, pc.c))
    case LeaveErase => SetPc(s, i, ErasingList(pc.b, pc.c))
    case ListErase => SetPc(s.(lists := s.lists[pc.b := Erased(s.lists[pc.b], pc.c)]), i, InBin(pc.b, -1))
    case AskLarge => SetPc(s, i, WaitLarge)
    case GetLarge => SetPc(s, i, InLarge)
    case TakeLarge(b) =>
      var (c, u) := InsertLarge(cfg, s.table, b);
      if c == |s.table| then s else s.(table := u, threads := s.threads[i := th.(large := th.large + {c})])
    case GiveLarge(c) => s.(table := Erase(s.table, c), threads := s.threads[i := th.(large := th.large - {c})])
    case LeaveLarge => SetPc(s, i, Rest)
    case HandOver(j, o) => Passed(s, i, j, {o}, {})
    case HandOverLarge(j, c) => Passed(s, i, j, {}, {c})
  }

  /** Thread i has passed slots and large objects to thread j, outside the allocator. */
  ghost function Passed(s: State, i: nat, j: nat, slots: set<nat>, large: set<nat>): State
    requires i < |s.threads| && j < |s.threads|
  {
    var from, to := s.threads[i], s.threads[j];
    s.(threads := s.threads[i := from.(held := from.held - slots, large := from.large - large)]
                           [j := to.(held := to.held + slots, large := to.large + large)])
  }

  /** What a step relies on. */
  lemma StepDefined(cfg: Config, s: State, i: nat)
    requires Inv(cfg, s) && i < |s.threads|
    ensures var pc := s.threads[i].pc;
            && (BinHeld(pc) >= 0 ==>
                  BinHeld(pc) < |s.lists| &&
                  BinOk(cfg, s.table, s.lists[BinHeld(pc)], BinHeld(pc), pc, s.orphans))
            && (pc.InBin? && s.lists[pc.b] != [] ==> IsSmallOf(s.table, s.lists[pc.b][0], pc.b))
            && (forall c :: c in s.threads[i].large ==> c < |s.table| && s.table[c].Head?)
  {
    hide Slots, MarkedSet, TableOk, Owned;
    var pc := s.threads[i].pc;
    if BinHeld(pc) >= 0 { assert Holder(s, i, BinHeld(pc)); }
    if pc.InBin? && s.lists[pc.b] != [] { assert s.lists[pc.b][0] in s.lists[pc.b]; }
    forall c | c in s.threads[i].large ensures c < |s.table| && s.table[c].Head? {
      LargeOwned(cfg, s, i, c);
    }
  }

  lemma LargeOwned(cfg: Config, s: State, i: nat, c: nat)
    requires ValidConfig(cfg) && Owned(cfg, s) && i < |s.threads| && c in s.threads[i].large
    ensures c < |s.table| && s.table[c].Head?
  {
    hide MarkedSet, Heads;
    LargeMember(s.threads, i, c);
    assert multiset(Heads(s.table))[c] > 0;
  }

  lemma {:induction false} LargeMember(threads: seq<Thread>, i: nat, c: nat)
    requires i < |threads| && c in threads[i].large
    ensures c in AllLarge(threads)
    decreases |threads|
  {
    var n := |threads| - 1;
    if i < n { LargeMember(threads[..n], i, c); }
  }

  // ---------- What a step keeps ---------- //

  /** t and u agree on the chunks of bin a. */
  ghost predicate SameBin(t: Table, u: Table, a: nat) {
    |u| == |t| && forall c :: 0 <= c < |t| && (IsSmallOf(t, c, a) || IsSmallOf(u, c, a)) ==> u[c] == t[c]
  }

  lemma OtherBin(cfg: Config, t: Table, u: Table, list: seq<nat>, a: nat, pc: Pc, os: set<nat>, more: set<nat>)
    requires ValidConfig(cfg) && BinOk(cfg, t, list, a, pc, os) && SameBin(t, u, a)
    requires forall c: nat :: IsSmallOf(t, c, a) ==> (c in more <==> c in os)
    ensures BinOk(cfg, u, list, a, pc, more)
  {
    hide Slots;
    forall c: nat, young: int ensures Listed(cfg, u, a, c, young) == Listed(cfg, t, a, c, young) {}
  }

  /** Thread i steps from s to r, dealing with bin b at most: it held the lock of b, takes it, or b is -1. */
  ghost predicate Local(cfg: Config, s: State, r: State, i: nat, b: int)
    requires ValidConfig(cfg)
  {
    && i < |s.threads| == |r.threads| && |r.lists| == |s.lists| && -1 <= b < |s.lists| && |r.table| == |s.table|
    && (forall j :: 0 <= j < |s.threads| && j != i ==> r.threads[j] == s.threads[j])
    && (BinHeld(s.threads[i].pc) == -1 || BinHeld(s.threads[i].pc) == b)
    && (BinHeld(r.threads[i].pc) == -1 || BinHeld(r.threads[i].pc) == b)
    && (b >= 0 ==> BinHeld(s.threads[i].pc) == b || NoHolder(s, b))
    && (forall a: nat :: a < |s.lists| && a != b ==> r.lists[a] == s.lists[a] && SameBin(s.table, r.table, a))
    && forall a: nat, c: nat :: a != b && IsSmallOf(s.table, c, a) ==> (c in r.orphans <==> c in s.orphans)
  }

  /** The pc from which bin b is to be looked at after the step. */
  ghost function After(r: State, i: nat, b: nat): Pc
    requires i < |r.threads|
  {
    if BinHeld(r.threads[i].pc) == b then r.threads[i].pc else Rest
  }

  lemma BinsStep(cfg: Config, s: State, r: State, i: nat, b: int)
    requires ValidConfig(cfg) && BinsOk(cfg, s) && Exclusive(s) && Local(cfg, s, r, i, b)
    requires b >= 0 ==> BinOk(cfg, r.table, r.lists[b], b, After(r, i, b), r.orphans)
    ensures BinsOk(cfg, r)
  {
    hide BinOk, SameBin;
    forall a: nat | a < |r.lists|
      ensures NoHolder(r, a) ==> BinOk(cfg, r.table, r.lists[a], a, Rest, r.orphans)
      ensures forall j: nat :: Holder(r, j, a) ==> BinOk(cfg, r.table, r.lists[a], a, r.threads[j].pc, r.orphans)
    {
      if a != b {
        if NoHolder(r, a) {
          assert NoHolder(s, a);
          OtherBin(cfg, s.table, r.table, s.lists[a], a, Rest, s.orphans, r.orphans);
        }
        forall j: nat | Holder(r, j, a) ensures BinOk(cfg, r.table, r.lists[a], a, r.threads[j].pc, r.orphans) {
          assert j != i && Holder(s, j, a);
          OtherBin(cfg, s.table, r.table, s.lists[a], a, s.threads[j].pc, s.orphans, r.orphans);
        }
      } else {
        forall j: nat | Holder(r, j, a) ensures j == i {}
      }
    }
  }

  /** A lock is kept, given up, or taken when it is free. */
  ghost predicate LocksFair(s: State, r: State, i: nat)
    requires i < |s.threads| == |r.threads|
  {
    var p, q := s.threads[i], r.threads[i];
    && (BinHeld(q.pc) >= 0 && BinHeld(q.pc) != BinHeld(p.pc) ==> NoHolder(s, BinHeld(q.pc)))
    && (ChunkHeld(q.pc) && !ChunkHeld(p.pc) ==> ChunkFree(s))
    && (q.cache >= 0 && q.cache != p.cache ==> CacheFree(s, q.cache))
  }

  lemma ExclusiveStep(s: State, r: State, i: nat)
    requires Exclusive(s) && i < |s.threads| == |r.threads| && LocksFair(s, r, i)
    requires forall j :: 0 <= j < |s.threads| && j != i ==> r.threads[j] == s.threads[j]
    ensures Exclusive(r)
  {
    hide BinHeld, ChunkHeld;
  }

  lemma Finish(cfg: Config, s: State, r: State, i: nat, b: int)
    requires Inv(cfg, s) && Local(cfg, s, r, i, b) && LocksFair(s, r, i)
    requires TableOk(cfg, r.table) && Owned(cfg, r) && |r.caches| == |s.caches| && r.threads[i].cache < |r.caches|
    requires OrphansOk(r.table, r.orphans)
    requires b >= 0 ==> BinOk(cfg, r.table, r.lists[b], b, After(r, i, b), r.orphans)
    ensures Inv(cfg, r)
  {
    hide BinOk, SameBin, TableOk, Owned, BinHeld, ChunkHeld;
    BinsStep(cfg, s, r, i, b);
    ExclusiveStep(s, r, i);
  }

  // ---------- Ownership ---------- //

  lemma {:induction false} HeldUpdate(threads: seq<Thread>, i: nat, th: Thread)
    requires i < |threads|
    ensures AllHeld(threads[i := th]) + multiset(threads[i].held) == AllHeld(threads) + multiset(th.held)
    ensures AllLarge(threads[i := th]) + multiset(threads[i].large) == AllLarge(threads) + multiset(th.large)
    decreases |threads|
  {
    var n := |threads| - 1;
    if i < n {
      assert threads[i := th][..n] == threads[..n][i := th];
      HeldUpdate(threads[..n], i, th);
      Widen(AllHeld(threads[..n][i := th]), AllHeld(threads[..n]), multiset(threads[i].held), multiset(th.held),
        multiset(threads[n].held));
      Widen(AllLarge(threads[..n][i := th]), AllLarge(threads[..n]), multiset(threads[i].large), multiset(th.large),
        multiset(threads[n].large));
    } else {
      assert threads[i := th][..n] == threads[..n];
    }
  }

  lemma Widen(a: multiset<nat>, b: multiset<nat>, x: multiset<nat>, y: multiset<nat>, c: multiset<nat>)
    requires a + x == b + y
    ensures (a + c) + x == (b + c) + y
  {
    assert (a + c) + x == (a + x) + c && (b + c) + y == (b + y) + c;
  }

  lemma {:induction false} CachedUpdate(caches: seq<set<nat>>, k: nat, q: set<nat>)
    requires k < |caches|
    ensures AllCached(caches[k := q]) + multiset(caches[k]) == AllCached(caches) + multiset(q)
    decreases |caches|
  {
    var n := |caches| - 1;
    if k < n {
      assert caches[k := q][..n] == caches[..n][k := q];
      CachedUpdate(caches[..n], k, q);
      Widen(AllCached(caches[..n][k := q]), AllCached(caches[..n]), multiset(caches[k]), multiset(q),
        multiset(caches[n]));
    } else {
      assert caches[k := q][..n] == caches[..n];
    }
  }

  /** A thread whose possessions stay the same. */
  lemma SamePossessions(cfg: Config, s: State, r: State, i: nat)
    requires ValidConfig(cfg) && Owned(cfg, s) && i < |s.threads| && r.caches == s.caches
    requires |r.threads| == |s.threads| && r.threads == s.threads[i := r.threads[i]]
    requires r.threads[i].held == s.threads[i].held && r.threads[i].large == s.threads[i].large
    requires MarkedSet(cfg, r.table) == MarkedSet(cfg, s.table) && Heads(r.table) == Heads(s.table)
    ensures Owned(cfg, r)
  {
    hide MarkedSet, Heads, AllHeld, AllLarge, AllCached;
    HeldUpdate(s.threads, i, r.threads[i]);
    Cancel(AllHeld(r.threads), AllHeld(s.threads), multiset(s.threads[i].held));
    Cancel(AllLarge(r.threads), AllLarge(s.threads), multiset(s.threads[i].large));
  }

  // ---------- Steps that only move the thread ---------- //

  /** How bin b looks to the thread after a step that changes neither table nor list. */
  lemma QuietBin(cfg: Config, t: Table, list: seq<nat>, b: nat, p: Pc, q: Pc, os: set<nat>)
    requires ValidConfig(cfg) && BinOk(cfg, t, list, b, p, os) && TableOk(cfg, t) && b < SmallBins(cfg)
    requires || (p.Rest? && q == InBin(b, -1)) || (p == InBin(b, -1) && q.Rest?)
             || (p == InBin(b, -1) && list == [] && q == WaitInsert(b))
             || (p == WaitInsert(b) && q == Inserting(b)) || (p == Inserting(b) && q == InBin(b, -1))
             || (p.InsertedList? && p.b == b && q == InBin(b, p.c))
             || (p.WaitErase? && p.b == b && q == Erasing(b, p.c))
             || (p.Unregistered? && p.b == b && q == ErasingList(b, p.c))
             || (p.JustMarked? && p.b == b && |t[p.c].marked| != Slots(cfg, b) && q == InBin(b, -1))
             || (p.JustUnmarked? && p.b == b && !p.wasFull && t[p.c].marked == {} && q == WaitErase(b, p.c))
             || (p.JustUnmarked? && p.b == b && !p.wasFull && t[p.c].marked != {} && q == InBin(b, -1))
    ensures BinOk(cfg, t, list, b, q, os)
  {
    hide Slots, TableOk;
    if p.JustMarked? { SlotCount(cfg, t, p.c); }
  }

  /** A step that changes neither the directories nor anyone's possessions. */
  lemma QuietStep(cfg: Config, s: State, i: nat, q: Thread, b: int)
    requires Inv(cfg, s) && i < |s.threads| && -1 <= b < |s.lists|
    requires q.held == s.threads[i].held && q.large == s.threads[i].large && q.cache < |s.caches|
    requires BinHeld(s.threads[i].pc) == -1 || BinHeld(s.threads[i].pc) == b
    requires BinHeld(q.pc) == -1 || BinHeld(q.pc) == b
    requires b >= 0 ==> BinHeld(s.threads[i].pc) == b || NoHolder(s, b)
    requires LocksFair(s, s.(threads := s.threads[i := q]), i)
    requires b >= 0 ==> BinOk(cfg, s.table, s.lists[b], b, if BinHeld(q.pc) == b then q.pc else Rest, s.orphans)
    ensures Inv(cfg, s.(threads := s.threads[i := q]))
  {
    hide BinOk, TableOk, BinHeld, ChunkHeld, MarkedSet, Heads, AllHeld, AllLarge, AllCached;
    var r := s.(threads := s.threads[i := q]);
    SamePossessions(cfg, s, r, i);
    Finish(cfg, s, r, i, b);
  }

  lemma CacheLockKeeps(cfg: Config, s: State, i: nat, a: Action)
    requires Inv(cfg, s) && Enabled(cfg, s, i, a)
    requires a.AskCache? || a.GetCache? || a.LeaveCache? || a.AskBin? || a.AskLarge? || a.GetLarge? || a.LeaveLarge?
    ensures Inv(cfg, Do(cfg, s, i, a))
  {
    hide BinOk, TableOk, MarkedSet, Heads, AllHeld, AllLarge, AllCached, Owned, Exclusive;
    QuietStep(cfg, s, i, Do(cfg, s, i, a).threads[i], -1);
  }

  lemma BinLockKeeps(cfg: Config, s: State, i: nat, a: Action)
    requires Inv(cfg, s) && Enabled(cfg, s, i, a) && (a.GetBin? || a.LeaveBin?)
    ensures Inv(cfg, Do(cfg, s, i, a))
  {
    hide BinOk, TableOk, MarkedSet, Heads, AllHeld, AllLarge, AllCached, Owned, Exclusive;
    StepDefined(cfg, s, i);
    var pc := s.threads[i].pc;
    var b := pc.b;
    if a.GetBin? {
      QuietBin(cfg, s.table, s.lists[b], b, Rest, InBin(b, -1), s.orphans);
    } else {
      QuietBin(cfg, s.table, s.lists[b], b, pc, Rest, s.orphans);
    }
    QuietStep(cfg, s, i, Do(cfg, s, i, a).threads[i], b);
  }

  lemma ChunkLockKeeps(cfg: Config, s: State, i: nat, a: Action)
    requires Inv(cfg, s) && Enabled(cfg, s, i, a)
    requires a.AskInsert? || a.GetInsert? || a.LeaveInsert? || a.GetErase? || a.LeaveErase?
    ensures Inv(cfg, Do(cfg, s, i, a))
  {
    hide BinOk, TableOk, MarkedSet, Heads, AllHeld, AllLarge, AllCached, Owned, Exclusive;
    StepDefined(cfg, s, i);
    var pc, q := s.threads[i].pc, Do(cfg, s, i, a).threads[i];
    QuietBin(cfg, s.table, s.lists[pc.b], pc.b, pc, q.pc, s.orphans);
    QuietStep(cfg, s, i, q, pc.b);
  }

  // ---------- Steps on a list ---------- //

  lemma ListStep(cfg: Config, s: State, i: nat, b: nat, list: seq<nat>, pc: Pc)
    requires Inv(cfg, s) && i < |s.threads| && b < |s.lists| && BinHeld(s.threads[i].pc) == b == BinHeld(pc)
    requires ChunkHeld(pc) ==> ChunkHeld(s.threads[i].pc)
    requires BinOk(cfg, s.table, list, b, pc, s.orphans)
    ensures Inv(cfg, SetPc(s.(lists := s.lists[b := list]), i, pc))
  {
    hide BinOk, TableOk, BinHeld, ChunkHeld, MarkedSet, Heads, AllHeld, AllLarge, AllCached;
    var r := SetPc(s.(lists := s.lists[b := list]), i, pc);
    SamePossessions(cfg, s, r, i);
    Finish(cfg, s, r, i, b);
  }

  lemma MarkedLeaves(cfg: Config, t: Table, list: seq<nat>, b: nat, c: nat, os: set<nat>)
    requires ValidConfig(cfg) && TableOk(cfg, t) && BinOk(cfg, t, list, b, JustMarked(b, c), os)
    ensures c < |t| && t[c].Small? && list != []
    ensures |t[c].marked| == Slots(cfg, b) ==> BinOk(cfg, t, list[1..], b, InBin(b, -1), os)
    ensures |t[c].marked| != Slots(cfg, b) ==> BinOk(cfg, t, list, b, InBin(b, -1), os)
  {
    hide Slots, TableOk;
    SlotCount(cfg, t, c);
    TailOf(list);
  }

  lemma UnmarkedEnters(cfg: Config, t: Table, list: seq<nat>, b: nat, c: nat, os: set<nat>)
    requires ValidConfig(cfg) && BinOk(cfg, t, list, b, JustUnmarked(b, c, true), os)
    ensures BinOk(cfg, t, [c] + list, b, InBin(b, -1), os)
  {
    hide Slots;
    assert Listed(cfg, t, b, c, -1);
    Fronted(list, c);
  }

  lemma Fronted(list: seq<nat>, c: nat)
    requires NoDuplicates(list) && c !in list
    ensures NoDuplicates([c] + list) && forall d :: d in [c] + list <==> d == c || d in list
  {}

  lemma RegisteredEnters(cfg: Config, t: Table, list: seq<nat>, b: nat, c: nat, os: set<nat>)
    requires ValidConfig(cfg) && BinOk(cfg, t, list, b, Registered(b, c), os) && b < SmallBins(cfg)
    ensures BinOk(cfg, t, [c] + list, b, InsertedList(b, c), os)
  {
    hide Slots, Listed;
    TwoSlots(cfg, b);
    YoungListed(cfg, t, b, c);
    Fronted(list, c);
  }

  lemma YoungListed(cfg: Config, t: Table, b: nat, c: nat)
    requires ValidConfig(cfg) && IsSmallOf(t, c, b) && t[c].marked == {} && Slots(cfg, b) >= 1
    ensures forall d: nat :: Listed(cfg, t, b, d, c) <==> Listed(cfg, t, b, d, -1) || d == c
    ensures !Listed(cfg, t, b, c, -1)
  {
    hide Slots;
  }

  lemma ErasedLeaves(cfg: Config, t: Table, list: seq<nat>, b: nat, c: nat, os: set<nat>)
    requires ValidConfig(cfg) && BinOk(cfg, t, list, b, ErasingList(b, c), os)
    ensures BinOk(cfg, t, Erased(list, c), b, InBin(b, -1), os)
  {
    hide Slots, Erased;
    ErasedCorrect(list, c);
  }

  lemma ListKeeps(cfg: Config, s: State, i: nat, a: Action)
    requires Inv(cfg, s) && Enabled(cfg, s, i, a)
    requires a.AdjustMarked? || a.AdjustUnmarked? || a.ListInsert? || a.ListErase?
    ensures Inv(cfg, Do(cfg, s, i, a))
  {
    hide BinOk, TableOk, MarkedSet, Heads, AllHeld, AllLarge, AllCached, Owned, Exclusive, Erased;
    var pc := s.threads[i].pc;
    StepDefined(cfg, s, i);
    var b := pc.b;
    var list := s.lists[b];
    assert s.lists[b := list] == s.lists;
    match a {
      case AdjustMarked =>
        MarkedLeaves(cfg, s.table, list, b, pc.c, s.orphans);
        ListStep(cfg, s, i, b, if |s.table[pc.c].marked| == Slots(cfg, b) then list[1..] else list, InBin(b, -1));
      case AdjustUnmarked =>
        if pc.wasFull {
          UnmarkedEnters(cfg, s.table, list, b, pc.c, s.orphans);
          ListStep(cfg, s, i, b, [pc.c] + list, InBin(b, -1));
        } else {
          UnmarkedKnows(cfg, s.table, list, b, pc.c, s.orphans);
          var q := if s.table[pc.c].marked == {} then WaitErase(b, pc.c) else InBin(b, -1);
          QuietBin(cfg, s.table, list, b, pc, q, s.orphans);
          ListStep(cfg, s, i, b, list, q);
        }
      case ListInsert =>
        RegisteredEnters(cfg, s.table, list, b, pc.c, s.orphans);
        ListStep(cfg, s, i, b, [pc.c] + list, InsertedList(b, pc.c));
      case ListErase =>
        ErasedLeaves(cfg, s.table, list, b, pc.c, s.orphans);
        ListStep(cfg, s, i, b, Erased(list, pc.c), InBin(b, -1));
    }
  }

  lemma UnmarkedKnows(cfg: Config, t: Table, list: seq<nat>, b: nat, c: nat, os: set<nat>)
    requires ValidConfig(cfg) && BinOk(cfg, t, list, b, JustUnmarked(b, c, false), os)
    ensures IsSmallOf(t, c, b)
  {}

  // ---------- Steps on the chunk table ---------- //

  lemma SmallUpdate(t: Table, u: Table, c: nat, b: nat)
    requires c < |t| == |u| && (IsSmallOf(t, c, b) || t[c].Unused?) && u == t[c := u[c]]
    requires u[c].Unused? || (u[c].Small? && u[c].bin == b)
    ensures Heads(u) == Heads(t) && forall a: nat :: a != b ==> SameBin(t, u, a)
  {}

  lemma MarkBin(cfg: Config, t: Table, list: seq<nat>, b: nat, young: int, os: set<nat>)
    requires ValidConfig(cfg) && TableOk(cfg, t) && list != [] && BinOk(cfg, t, list, b, InBin(b, young), os)
    ensures IsSmallOf(t, list[0], b) && (OrphansOk(t, os) ==> list[0] !in os)
    ensures var c := list[0];
            var k := LeastFree(t[c].marked);
            var u := t[c := Small(b, t[c].marked + {k})];
            k < Slots(cfg, b) && TableOk(cfg, u) && BinOk(cfg, u, list, b, JustMarked(b, c), os)
  {
    hide Slots, TableOk, LeastFree;
    var c := list[0];
    assert c in list;
    EntryFromTable(cfg, t, c);
    LeastFreeBelow(t[c].marked, Slots(cfg, b));
    var k := LeastFree(t[c].marked);
    MarkOk(cfg, t, c, t[c].marked + {k});
    var u := t[c := Small(b, t[c].marked + {k})];
    assert k in u[c].marked;
    assert forall d: nat :: d != c ==> Listed(cfg, u, b, d, -1) == Listed(cfg, t, b, d, young);
  }

  lemma MarkSlotKeeps(cfg: Config, s: State, i: nat)
    requires Inv(cfg, s) && Enabled(cfg, s, i, Mark)
    ensures Inv(cfg, Do(cfg, s, i, Mark))
  {
    hide BinOk, TableOk, MarkedSet, Heads, AllHeld, AllLarge, AllCached, Slots, LeastFree, OffsetOf, SameBin;
    StepDefined(cfg, s, i);
    var th := s.threads[i];
    var b := th.pc.b;
    var t, list := s.table, s.lists[b];
    MarkBin(cfg, t, list, b, th.pc.young, s.orphans);
    var c := list[0];
    var k := LeastFree(t[c].marked);
    var o := OffsetOf(cfg, c, b, k);
    LeastFreeOut(t[c].marked);
    MarkOne(cfg, t, c, k);
    SmallUpdate(t, t[c := Small(b, t[c].marked + {k})], c, b);
    var r := Do(cfg, s, i, Mark);
    NotHeld(cfg, s, i, o);
    Gains(cfg, s, r, i, o);
    Finish(cfg, s, r, i, b);
  }

  lemma LeastFreeOut(m: set<nat>)
    ensures LeastFree(m) !in m
  {}

  lemma {:induction false} HeldMember(threads: seq<Thread>, i: nat, o: nat)
    requires i < |threads| && o in threads[i].held
    ensures o in AllHeld(threads)
    decreases |threads|
  {
    var n := |threads| - 1;
    if i < n { HeldMember(threads[..n], i, o); }
  }

  lemma HeldIsMarked(cfg: Config, s: State, i: nat, o: nat)
    requires ValidConfig(cfg) && Owned(cfg, s) && i < |s.threads| && o in s.threads[i].held
    ensures o in MarkedSet(cfg, s.table)
  {
    hide MarkedSet, Heads, AllLarge, AllCached, AllHeld;
    HeldMember(s.threads, i, o);
    assert multiset(MarkedSet(cfg, s.table))[o] > 0;
  }

  lemma NotHeld(cfg: Config, s: State, i: nat, o: nat)
    requires ValidConfig(cfg) && Owned(cfg, s) && i < |s.threads| && o !in MarkedSet(cfg, s.table)
    ensures o !in s.threads[i].held
  {
    hide MarkedSet, Owned;
    if o in s.threads[i].held { HeldIsMarked(cfg, s, i, o); }
  }

  /** One more marked slot, owned by thread i. */
  lemma Gains(cfg: Config, s: State, r: State, i: nat, o: nat)
    requires ValidConfig(cfg) && Owned(cfg, s) && i < |s.threads| == |r.threads| && r.caches == s.caches
    requires r.threads == s.threads[i := r.threads[i]] && r.threads[i].large == s.threads[i].large
    requires o !in s.threads[i].held && r.threads[i].held == s.threads[i].held + {o}
    requires o !in MarkedSet(cfg, s.table) && MarkedSet(cfg, r.table) == MarkedSet(cfg, s.table) + {o}
    requires Heads(r.table) == Heads(s.table)
    ensures Owned(cfg, r)
  {
    hide MarkedSet, Heads, AllHeld, AllLarge, AllCached;
    var h := s.threads[i].held;
    HeldUpdate(s.threads, i, r.threads[i]);
    SetPlusOne(h, o);
    SetPlusOne(MarkedSet(cfg, s.table), o);
    Cancel(AllLarge(r.threads), AllLarge(s.threads), multiset(s.threads[i].large));
    assert AllHeld(r.threads) + multiset(h) == (AllHeld(s.threads) + multiset{o}) + multiset(h);
    Cancel(AllHeld(r.threads), AllHeld(s.threads) + multiset{o}, multiset(h));
    assert (AllHeld(s.threads) + AllCached(s.caches)) + multiset{o}
      == (AllHeld(s.threads) + multiset{o}) + AllCached(s.caches);
  }

  /** One marked slot less, given up by thread i. */
  lemma Loses(cfg: Config, s: State, r: State, i: nat, o: nat)
    requires ValidConfig(cfg) && Owned(cfg, s) && i < |s.threads| == |r.threads| && r.caches == s.caches
    requires r.threads == s.threads[i := r.threads[i]] && r.threads[i].large == s.threads[i].large
    requires o in s.threads[i].held && r.threads[i].held == s.threads[i].held - {o}
    requires o in MarkedSet(cfg, s.table) && MarkedSet(cfg, r.table) == MarkedSet(cfg, s.table) - {o}
    requires Heads(r.table) == Heads(s.table)
    ensures Owned(cfg, r)
  {
    hide MarkedSet, Heads, AllHeld, AllLarge, AllCached;
    var h := r.threads[i].held;
    HeldUpdate(s.threads, i, r.threads[i]);
    SetMinusOne(s.threads[i].held, o);
    SetMinusOne(MarkedSet(cfg, s.table), o);
    Cancel(AllLarge(r.threads), AllLarge(s.threads), multiset(s.threads[i].large));
    assert (AllHeld(r.threads) + multiset{o}) + multiset(h) == AllHeld(s.threads) + multiset(h);
    Cancel(AllHeld(r.threads) + multiset{o}, AllHeld(s.threads), multiset(h));
    assert (AllHeld(r.threads) + AllCached(s.caches)) + multiset{o}
      == (AllHeld(r.threads) + multiset{o}) + AllCached(s.caches);
    Cancel(multiset(MarkedSet(cfg, r.table)), AllHeld(r.threads) + AllCached(s.caches), multiset{o});
  }

  lemma UnmarkBin(cfg: Config, t: Table, list: seq<nat>, b: nat, o: nat, os: set<nat>)
    requires ValidConfig(cfg) && TableOk(cfg, t) && b < SmallBins(cfg) && Slotted(cfg, t, o, b)
             && BinOk(cfg, t, list, b, InBin(b, -1), os)
    requires ChunkOf(cfg, o) !in os
    ensures var c, k := ChunkOf(cfg, o), SlotOf(cfg, b, o);
            var u := t[c := Small(b, t[c].marked - {k})];
            TableOk(cfg, u) && BinOk(cfg, u, list, b, JustUnmarked(b, c, |t[c].marked| == Slots(cfg, b)), os)
  {
    hide Slots, TableOk, OffsetOf, SlotOf, ChunkOf, BinOk;
    var c, k := ChunkOf(cfg, o), SlotOf(cfg, b, o);
    var u := t[c := Small(b, t[c].marked - {k})];
    EntryFromTable(cfg, t, c);
    MarkOk(cfg, t, c, u[c].marked);
    TwoSlots(cfg, b);
    SlotCount(cfg, t, c);
    assert |u[c].marked| == |t[c].marked| - 1;
    FewerMarks(cfg, t, u, list, b, c, os);
  }

  lemma FewerMarks(cfg: Config, t: Table, u: Table, list: seq<nat>, b: nat, c: nat, os: set<nat>)
    requires ValidConfig(cfg) && BinOk(cfg, t, list, b, InBin(b, -1), os) && DiffersAt(t, u, c) && c !in os
    requires IsSmallOf(t, c, b) && IsSmallOf(u, c, b) && |u[c].marked| + 1 == |t[c].marked| <= Slots(cfg, b)
             && Slots(cfg, b) >= 2
    ensures BinOk(cfg, u, list, b, JustUnmarked(b, c, |t[c].marked| == Slots(cfg, b)), os)
  {
    hide Slots, Listed, NoDuplicates;
    ChunkListed(cfg, t, c, b);
    ChunkListed(cfg, u, c, b);
    OthersListed(cfg, t, u, b, c);
  }

  lemma UnmarkKeeps(cfg: Config, s: State, i: nat, o: nat)
    requires Inv(cfg, s) && Enabled(cfg, s, i, Unmark(o))
    ensures Inv(cfg, Do(cfg, s, i, Unmark(o)))
  {
    hide BinOk, TableOk, MarkedSet, Heads, AllHeld, AllLarge, AllCached, Slots, OffsetOf, SameBin, SlotOf, ChunkOf;
    StepDefined(cfg, s, i);
    var b := s.threads[i].pc.b;
    var c, k := ChunkOf(cfg, o), SlotOf(cfg, b, o);
    UnmarkBin(cfg, s.table, s.lists[b], b, o, s.orphans);
    UnmarkOne(cfg, s.table, o, b);
    SmallUpdate(s.table, s.table[c := Small(b, s.table[c].marked - {k})], c, b);
    var r := Do(cfg, s, i, Unmark(o));
    Loses(cfg, s, r, i, o);
    Finish(cfg, s, r, i, b);
  }

  lemma RegisterChunkKeeps(cfg: Config, s: State, i: nat)
    requires Inv(cfg, s) && Enabled(cfg, s, i, Register)
    ensures Inv(cfg, Do(cfg, s, i, Register))
  {
    hide BinOk, TableOk, MarkedSet, Heads, AllHeld, AllLarge, AllCached, Slots, SameBin, FirstFit;
    StepDefined(cfg, s, i);
    var pc := s.threads[i].pc;
    var b, t := pc.b, s.table;
    InsertSmallOk(cfg, t, b);
    var (c, u) := InsertSmall(t, b);
    var r := Do(cfg, s, i, Register);
    if c == |t| {
      QuietBin(cfg, t, s.lists[b], b, pc, InBin(b, -1), s.orphans);
      QuietStep(cfg, s, i, r.threads[i], b);
    } else {
      RegisterBin(cfg, t, s.lists[b], b, c, s.orphans);
      SmallUpdate(t, t[c := Small(b, {})], c, b);
      RegisterKeeps(cfg, t, c, b);
      SamePossessions(cfg, s, r, i);
      Finish(cfg, s, r, i, b);
    }
  }

  lemma RegisterBin(cfg: Config, t: Table, list: seq<nat>, b: nat, c: nat, os: set<nat>)
    requires ValidConfig(cfg) && BinOk(cfg, t, list, b, Inserting(b), os) && c < |t| && t[c] == Unused && c !in os
    ensures BinOk(cfg, t[c := Small(b, {})], list, b, Registered(b, c), os)
  {
    hide Slots;
    var u := t[c := Small(b, {})];
    assert forall d: nat :: Listed(cfg, u, b, d, -1) == Listed(cfg, t, b, d, -1);
  }

  lemma EraseBin(cfg: Config, t: Table, list: seq<nat>, b: nat, c: nat, os: set<nat>)
    requires ValidConfig(cfg) && BinOk(cfg, t, list, b, Erasing(b, c), os)
    ensures IsSmallOf(t, c, b) && t[c].marked == {} && c !in os
            && BinOk(cfg, t[c := Unused], list, b, Unregistered(b, c), os)
  {
    hide Slots;
    var u := t[c := Unused];
    assert forall d: nat :: Listed(cfg, u, b, d, -1) == Listed(cfg, t, b, d, -1);
  }

  lemma EraseKeeps(cfg: Config, s: State, i: nat)
    requires Inv(cfg, s) && Enabled(cfg, s, i, EraseChunk)
    ensures Inv(cfg, Do(cfg, s, i, EraseChunk))
  {
    hide BinOk, TableOk, MarkedSet, Heads, AllHeld, AllLarge, AllCached, Slots, SameBin, Erase;
    StepDefined(cfg, s, i);
    var pc := s.threads[i].pc;
    var b, c, t := pc.b, pc.c, s.table;
    EraseBin(cfg, t, s.lists[b], b, c, s.orphans);
    EraseSmallOk(cfg, t, c);
    SmallUpdate(t, t[c := Unused], c, b);
    DropChunk(cfg, t, t[c := Unused]);
    var r := Do(cfg, s, i, EraseChunk);
    SamePossessions(cfg, s, r, i);
    Finish(cfg, s, r, i, b);
  }

  lemma FailedBin(cfg: Config, t: Table, list: seq<nat>, b: nat, c: nat, os: set<nat>)
    requires ValidConfig(cfg) && BinOk(cfg, t, list, b, Registered(b, c), os)
    ensures IsSmallOf(t, c, b) && t[c].marked == {} && BinOk(cfg, t, list, b, InBin(b, -1), os + {c})
  {
    hide Slots;
  }

  /** An extension that fails leaves its chunk behind, registered and unlisted. */
  lemma FailKeeps(cfg: Config, s: State, i: nat)
    requires Inv(cfg, s) && Enabled(cfg, s, i, ExtendFails)
    ensures Inv(cfg, Do(cfg, s, i, ExtendFails))
  {
    hide BinOk, TableOk, BinHeld, ChunkHeld, MarkedSet, Heads, AllHeld, AllLarge, AllCached;
    StepDefined(cfg, s, i);
    var pc := s.threads[i].pc;
    HeldBins(pc, InBin(pc.b, -1));
    FailedBin(cfg, s.table, s.lists[pc.b], pc.b, pc.c, s.orphans);
    var r := Do(cfg, s, i, ExtendFails);
    SamePossessions(cfg, s, r, i);
    Finish(cfg, s, r, i, pc.b);
  }

  lemma HeldBins(p: Pc, q: Pc)
    requires p.Registered? && q == InBin(p.b, -1)
    ensures BinHeld(p) == p.b == BinHeld(q) && !ChunkHeld(q)
  {}

  // ---------- Large objects and caches ---------- //

  ghost predicate NoSmallChange(t: Table, u: Table) {
    |u| == |t| && forall c :: 0 <= c < |t| && (t[c].Small? || u[c].Small?) ==> u[c] == t[c]
  }

  lemma LargeTables(cfg: Config, t: Table, u: Table)
    requires ValidConfig(cfg) && NoSmallChange(t, u)
    ensures MarkedSet(cfg, u) == MarkedSet(cfg, t) && forall a: nat :: SameBin(t, u, a)
  {
    hide MarkedSet;
    DropChunk(cfg, t, u);
  }

  /** A thread at the chunk lock for a large object changes only large chunks and its own large objects. */
  lemma LargeStep(cfg: Config, s: State, i: nat, u: Table, large: set<nat>)
    requires Inv(cfg, s) && i < |s.threads| && s.threads[i].pc.InLarge? && TableOk(cfg, u) && NoSmallChange(s.table, u)
    requires multiset(Heads(u)) + multiset(s.threads[i].large) == multiset(Heads(s.table)) + multiset(large)
    ensures Inv(cfg, s.(table := u, threads := s.threads[i := s.threads[i].(large := large)]))
  {
    hide BinOk, TableOk, MarkedSet, Heads, AllHeld, AllLarge, AllCached, SameBin;
    var r := s.(table := u, threads := s.threads[i := s.threads[i].(large := large)]);
    LargeTables(cfg, s.table, u);
    HeldUpdate(s.threads, i, r.threads[i]);
    Cancel(AllHeld(r.threads), AllHeld(s.threads), multiset(s.threads[i].held));
    Cancel(AllLarge(r.threads), multiset(Heads(u)), multiset(s.threads[i].large));
    Finish(cfg, s, r, i, -1);
  }

  lemma TakeLargeKeeps(cfg: Config, s: State, i: nat, b: nat)
    requires Inv(cfg, s) && Enabled(cfg, s, i, TakeLarge(b))
    ensures Inv(cfg, Do(cfg, s, i, TakeLarge(b)))
  {
    hide BinOk, BinsOk, Exclusive, TableOk, MarkedSet, AllHeld, AllLarge, AllCached, SameBin, RunLength, Heads, Owned,
         InsertLarge, OrphansOk, NoSmallChange;
    StepDefined(cfg, s, i);
    InsertLargeOk(cfg, s.table, b);
    HeadGained(cfg, s.table, b);
    var (c, u) := InsertLarge(cfg, s.table, b);
    if c < |s.table| {
      var large := s.threads[i].large;
      if c in large { HeadIs(s.table, c); }
      GainBoth(Heads(s.table), large, c);
      LargeStep(cfg, s, i, u, large + {c});
    }
  }

  lemma HeadGained(cfg: Config, t: Table, b: nat)
    requires ValidConfig(cfg) && SmallBins(cfg) <= b
    ensures var (c, u) := InsertLarge(cfg, t, b);
            c <= |t| && (c < |t| ==> NoSmallChange(t, u) && c !in Heads(t) && Heads(u) == Heads(t) + {c})
  {
    hide FirstFit, RunLength;
    LargeObjects(cfg, b);
  }

  lemma HeadIs(t: Table, c: nat)
    ensures c in Heads(t) <==> c < |t| && t[c].Head?
  {}

  lemma GainBoth(a: set<nat>, b: set<nat>, c: nat)
    requires c !in a && c !in b
    ensures multiset(a + {c}) + multiset(b) == multiset(a) + multiset(b + {c})
  {
    SetPlusOne(a, c);
    SetPlusOne(b, c);
    assert (multiset(a) + multiset{c}) + multiset(b) == multiset(a) + (multiset(b) + multiset{c});
  }

  lemma GiveLargeKeeps(cfg: Config, s: State, i: nat, c: nat)
    requires Inv(cfg, s) && Enabled(cfg, s, i, GiveLarge(c))
    ensures Inv(cfg, Do(cfg, s, i, GiveLarge(c)))
  {
    hide BinOk, BinsOk, Exclusive, TableOk, MarkedSet, AllHeld, AllLarge, AllCached, SameBin, RunLength, Erase, Heads,
      Owned, OrphansOk, NoSmallChange;
    StepDefined(cfg, s, i);
    var t, large := s.table, s.threads[i].large;
    EraseLargeOk(cfg, t, c);
    HeadLost(cfg, t, c);
    GainBoth(Heads(t) - {c}, large - {c}, c);
    assert (Heads(t) - {c}) + {c} == Heads(t) && (large - {c}) + {c} == large;
    LargeStep(cfg, s, i, Erase(t, c), large - {c});
  }

  lemma HeadLost(cfg: Config, t: Table, c: nat)
    requires ValidConfig(cfg) && TableOk(cfg, t) && c < |t| && t[c].Head?
    ensures c in Heads(t) && NoSmallChange(t, Erase(t, c)) && Heads(Erase(t, c)) == Heads(t) - {c}
  {
    hide TableOk, RunLength, Erase;
    EntryFromTable(cfg, t, c);
    EraseRun(cfg, t, c);
    LargeObjects(cfg, t[c].bin);
  }

  /** Objects move between a thread and a cache. */
  lemma CacheStep(cfg: Config, s: State, i: nat, k: nat, held: set<nat>, q: set<nat>)
    requires Inv(cfg, s) && i < |s.threads| && s.threads[i].pc.Rest? && k < |s.caches|
    requires multiset(held) + multiset(q) == multiset(s.threads[i].held) + multiset(s.caches[k])
    ensures Inv(cfg, s.(threads := s.threads[i := s.threads[i].(held := held)], caches := s.caches[k := q]))
  {
    hide BinOk, TableOk, MarkedSet, Heads, AllHeld, AllLarge, AllCached;
    var r := s.(threads := s.threads[i := s.threads[i].(held := held)], caches := s.caches[k := q]);
    HeldUpdate(s.threads, i, r.threads[i]);
    CachedUpdate(s.caches, k, q);
    Cancel(AllLarge(r.threads), AllLarge(s.threads), multiset(s.threads[i].large));
    Moved(AllHeld(s.threads), AllHeld(r.threads), AllCached(s.caches), AllCached(r.caches),
      multiset(s.threads[i].held), multiset(held),
          multiset(s.caches[k]), multiset(q));
    Finish(cfg, s, r, i, -1);
  }

  lemma Moved(a: multiset<nat>, a1: multiset<nat>, b: multiset<nat>, b1: multiset<nat>,
              x: multiset<nat>, x1: multiset<nat>, y: multiset<nat>, y1: multiset<nat>)
    requires a1 + x == a + x1 && b1 + y == b + y1 && x1 + y1 == x + y
    ensures a1 + b1 == a + b
  {
    assert (a1 + b1) + (x + y) == (a1 + x) + (b1 + y);
    assert (a + b) + (x1 + y1) == (a + x1) + (b + y1);
    Cancel(a1 + b1, a + b, x + y);
  }

  lemma CacheKeeps(cfg: Config, s: State, i: nat, a: Action)
    requires Inv(cfg, s) && Enabled(cfg, s, i, a) && (a.TakeCached? || a.PutCached?)
    ensures Inv(cfg, Do(cfg, s, i, a))
  {
    hide BinOk, BinsOk, Exclusive, TableOk, MarkedSet, AllHeld, AllLarge, AllCached;
    var th := s.threads[i];
    var q := s.caches[th.cache];
    Disjoint(cfg, s, i, a.o);
    if a.TakeCached? {
      SetPlusOne(th.held, a.o);
      SetMinusOne(q, a.o);
      assert (multiset(th.held) + multiset{a.o}) + multiset(q - {a.o})
        == multiset(th.held) + (multiset(q - {a.o}) + multiset{a.o});
      CacheStep(cfg, s, i, th.cache, th.held + {a.o}, q - {a.o});
    } else {
      SetMinusOne(th.held, a.o);
      SetPlusOne(q, a.o);
      assert multiset(th.held - {a.o}) + (multiset(q) + multiset{a.o})
        == (multiset(th.held - {a.o}) + multiset{a.o}) + multiset(q);
      CacheStep(cfg, s, i, th.cache, th.held - {a.o}, q + {a.o});
    }
  }

  lemma {:induction false} CacheMember(caches: seq<set<nat>>, k: nat, o: nat)
    requires k < |caches| && o in caches[k]
    ensures o in AllCached(caches)
    decreases |caches|
  {
    var n := |caches| - 1;
    if k < n { CacheMember(caches[..n], k, o); }
  }

  /** Whoever owns a slot, a thread or a cache, nobody else does. */
  lemma OneOwner(cfg: Config, s: State, o: nat)
    requires ValidConfig(cfg) && Owned(cfg, s)
    ensures AllHeld(s.threads)[o] + AllCached(s.caches)[o] <= 1
  {
    hide MarkedSet, Heads, AllLarge, AllHeld, AllCached;
    assert multiset(MarkedSet(cfg, s.table))[o] <= 1;
    assert (AllHeld(s.threads) + AllCached(s.caches))[o] == AllHeld(s.threads)[o] + AllCached(s.caches)[o];
  }

  lemma Disjoint(cfg: Config, s: State, i: nat, o: nat)
    requires ValidConfig(cfg) && Owned(cfg, s) && i < |s.threads|
    ensures forall k :: 0 <= k < |s.caches| ==> !(o in s.threads[i].held && o in s.caches[k])
  {
    hide MarkedSet, Heads, AllLarge, AllHeld, AllCached;
    OneOwner(cfg, s, o);
    forall k | 0 <= k < |s.caches| ensures !(o in s.threads[i].held && o in s.caches[k]) {
      if o in s.threads[i].held && o in s.caches[k] {
        HeldMember(s.threads, i, o);
        CacheMember(s.caches, k, o);
      }
    }
  }

  // ---------- Flushing without the lock ---------- //

  /** `clear` by thread i, which takes no lock: it has read `seen` in cache k, hands that to the deallocator, and then
      resets the cache. */
  ghost function Flushed(s: State, i: nat, k: nat, seen: set<nat>): State
    requires i < |s.threads| && k < |s.caches|
  {
    var th := s.threads[i];
    s.(threads := s.threads[i := th.(held := th.held + seen)], caches := s.caches[k := {}])
  }

  /** A flush keeps the invariant if and only if the cache still holds what was read in it. */
  lemma FlushExact(cfg: Config, s: State, i: nat, k: nat, seen: set<nat>)
    requires Inv(cfg, s) && i < |s.threads| && s.threads[i].pc.Rest? && k < |s.caches| && seen !! s.threads[i].held
    ensures Inv(cfg, Flushed(s, i, k, seen)) <==> seen == s.caches[k]
  {
    hide BinOk, BinsOk, Exclusive, TableOk, MarkedSet, Heads, AllHeld, AllLarge, AllCached;
    var held, q := s.threads[i].held, s.caches[k];
    assert multiset(held + seen) == multiset(held) + multiset(seen);
    if seen == q { CacheStep(cfg, s, i, k, held + seen, {}); }
    var r := Flushed(s, i, k, seen);
    if Inv(cfg, r) { SeenIsCached(cfg, s, i, k, seen); }
  }

  lemma SeenIsCached(cfg: Config, s: State, i: nat, k: nat, seen: set<nat>)
    requires ValidConfig(cfg) && Owned(cfg, s) && i < |s.threads| && k < |s.caches| && seen !! s.threads[i].held
    requires Owned(cfg, Flushed(s, i, k, seen))
    ensures seen == s.caches[k]
  {
    hide MarkedSet, Heads, AllHeld, AllLarge, AllCached;
    var r, held := Flushed(s, i, k, seen), s.threads[i].held;
    HeldUpdate(s.threads, i, r.threads[i]);
    CachedUpdate(s.caches, k, {});
    forall o ensures o in seen <==> o in s.caches[k] {
      assert multiset(held + seen)[o] == multiset(held)[o] + multiset(seen)[o];
      SameCount(AllHeld(s.threads), AllHeld(r.threads), AllCached(s.caches), AllCached(r.caches),
                multiset(held), multiset(held + seen), multiset(s.caches[k]), multiset{}, o);
    }
  }

  lemma SameCount(a: multiset<nat>, a1: multiset<nat>, b: multiset<nat>, b1: multiset<nat>,
                  x: multiset<nat>, x1: multiset<nat>, y: multiset<nat>, y1: multiset<nat>, o: nat)
    requires a1 + x == a + x1 && b1 + y == b + y1 && a1 + b1 == a + b
    ensures x1[o] + y1[o] == x[o] + y[o]
  {
    assert (a1 + x)[o] == (a + x1)[o] && (b1 + y)[o] == (b + y1)[o] && (a1 + b1)[o] == (a + b)[o];
  }

  /** So it breaks when another thread, which does hold the lock, takes or puts an object in between. */
  lemma FlushRaces(cfg: Config, s: State, i: nat, j: nat, a: Action)
    requires Inv(cfg, s) && i < |s.threads| && i != j && s.threads[i].pc.Rest?
    requires Enabled(cfg, s, j, a) && (a.TakeCached? || a.PutCached?)
    ensures var k := s.threads[j].cache; !Inv(cfg, Flushed(Do(cfg, s, j, a), i, k, s.caches[k]))
  {
    hide Inv;
    var k, r := s.threads[j].cache, Do(cfg, s, j, a);
    CacheKeeps(cfg, s, j, a);
    CacheChanges(cfg, s, i, j, a);
    FlushExact(cfg, r, i, k, s.caches[k]);
  }

  lemma CacheChanges(cfg: Config, s: State, i: nat, j: nat, a: Action)
    requires Inv(cfg, s) && i < |s.threads| && i != j
    requires Enabled(cfg, s, j, a) && (a.TakeCached? || a.PutCached?)
    ensures var k, r := s.threads[j].cache, Do(cfg, s, j, a);
            && 0 <= k < |s.caches| == |r.caches| && |r.threads| == |s.threads| && r.threads[i] == s.threads[i]
            && r.caches[k] != s.caches[k] && s.caches[k] !! s.threads[i].held
  {
    hide BinOk, BinsOk, Exclusive, TableOk, MarkedSet, AllHeld, AllLarge, AllCached, Owned;
    var k, r := s.threads[j].cache, Do(cfg, s, j, a);
    Disjoint(cfg, s, j, a.o);
    assert a.o in s.caches[k] <==> a.o !in r.caches[k];
    forall o ensures !(o in s.caches[k] && o in s.threads[i].held) { Disjoint(cfg, s, i, o); }
  }

  // ---------- From thread to thread ---------- //

  /** What a thread passes to another changes hands, and nothing else changes. */
  lemma PassKeeps(cfg: Config, s: State, i: nat, j: nat, slots: set<nat>, large: set<nat>)
    requires Inv(cfg, s) && i < |s.threads| && j < |s.threads| && i != j
    requires slots <= s.threads[i].held && large <= s.threads[i].large
    ensures Inv(cfg, Passed(s, i, j, slots, large))
  {
    hide BinOk, TableOk, BinHeld, ChunkHeld, MarkedSet, Heads, AllHeld, AllLarge, AllCached, Owned;
    var r := Passed(s, i, j, slots, large);
    PassOwned(cfg, s, i, j, slots, large);
    forall k | 0 <= k < |s.threads|
      ensures r.threads[k].pc == s.threads[k].pc && r.threads[k].cache == s.threads[k].cache {}
    SamePlaces(cfg, s, r);
  }

  /** Where threads are, and which locks they hold, is all that the lists depend on. */
  lemma SamePlaces(cfg: Config, s: State, r: State)
    requires ValidConfig(cfg) && Exclusive(s) && BinsOk(cfg, s)
    requires r.table == s.table && r.lists == s.lists && r.orphans == s.orphans && |r.threads| == |s.threads|
    requires forall k :: 0 <= k < |s.threads| ==>
               r.threads[k].pc == s.threads[k].pc && r.threads[k].cache == s.threads[k].cache
    ensures Exclusive(r) && BinsOk(cfg, r)
  {
    hide BinOk, BinHeld, ChunkHeld;
    forall b: nat | b < |r.lists|
      ensures NoHolder(r, b) ==> BinOk(cfg, r.table, r.lists[b], b, Rest, r.orphans)
      ensures forall k: nat :: Holder(r, k, b) ==> BinOk(cfg, r.table, r.lists[b], b, r.threads[k].pc, r.orphans)
    {
      if NoHolder(r, b) { assert NoHolder(s, b); }
      forall k: nat | Holder(r, k, b) ensures BinOk(cfg, r.table, r.lists[b], b, r.threads[k].pc, r.orphans) {
        assert Holder(s, k, b);
      }
    }
  }

  lemma PassOwned(cfg: Config, s: State, i: nat, j: nat, slots: set<nat>, large: set<nat>)
    requires ValidConfig(cfg) && Owned(cfg, s) && i < |s.threads| && j < |s.threads| && i != j
    requires slots <= s.threads[i].held && large <= s.threads[i].large
    ensures Owned(cfg, Passed(s, i, j, slots, large))
  {
    hide MarkedSet, Heads, AllHeld, AllLarge, AllCached;
    var from, to := s.threads[i], s.threads[j];
    NotBoth(cfg, s, i, j);
    var from' := from.(held := from.held - slots, large := from.large - large);
    var to' := to.(held := to.held + slots, large := to.large + large);
    var mid := s.threads[i := from'];
    HeldUpdate(s.threads, i, from');
    HeldUpdate(mid, j, to');
    Transfer(from.held, to.held, slots);
    Transfer(from.large, to.large, large);
    Balance(AllHeld(s.threads), AllHeld(mid), AllHeld(mid[j := to']), from.held, from'.held, to.held, to'.held);
    Balance(AllLarge(s.threads), AllLarge(mid), AllLarge(mid[j := to']), from.large, from'.large, to.large, to'.large);
  }

  lemma Transfer(a: set<nat>, b: set<nat>, x: set<nat>)
    requires x <= a && a !! b
    ensures multiset(a - x) + multiset(b + x) == multiset(a) + multiset(b)
  {
    forall e ensures (multiset(a - x) + multiset(b + x))[e] == (multiset(a) + multiset(b))[e] {}
  }

  lemma Balance(m: multiset<nat>, m1: multiset<nat>, m2: multiset<nat>, a: set<nat>, a1: set<nat>, b: set<nat>,
          b1: set<nat>)
    requires m1 + multiset(a) == m + multiset(a1) && m2 + multiset(b) == m1 + multiset(b1)
    requires multiset(a1) + multiset(b1) == multiset(a) + multiset(b)
    ensures m2 == m
  {
    var x := multiset(a) + multiset(b);
    assert m2 + x == (m2 + multiset(b)) + multiset(a);
    assert (m1 + multiset(b1)) + multiset(a) == (m1 + multiset(a)) + multiset(b1);
    assert (m + multiset(a1)) + multiset(b1) == m + (multiset(a1) + multiset(b1));
    Cancel(m2, m, x);
  }

  /** Two threads own nothing in common. */
  lemma NotBoth(cfg: Config, s: State, i: nat, j: nat)
    requires ValidConfig(cfg) && Owned(cfg, s) && i < |s.threads| && j < |s.threads| && i != j
    ensures s.threads[i].held !! s.threads[j].held && s.threads[i].large !! s.threads[j].large
  {
    hide MarkedSet, Heads, AllHeld, AllLarge, AllCached;
    var a, b := if i < j then i else j, if i < j then j else i;
    forall o | o in s.threads[a].held && o in s.threads[b].held ensures false {
      OneOwner(cfg, s, o);
      TwoHolders(s.threads, a, b, o);
    }
    forall c | c in s.threads[a].large && c in s.threads[b].large ensures false {
      assert multiset(Heads(s.table))[c] <= 1;
      TwoLarge(s.threads, a, b, c);
    }
  }

  lemma {:induction false} TwoLarge(threads: seq<Thread>, i: nat, j: nat, c: nat)
    requires i < j < |threads| && c in threads[i].large && c in threads[j].large
    ensures AllLarge(threads)[c] >= 2
    decreases |threads|
  {
    var n := |threads| - 1;
    if j < n { TwoLarge(threads[..n], i, j, c); } else { LargeMember(threads[..n], i, c); }
  }

  lemma HandOverKeeps(cfg: Config, s: State, i: nat, a: Action)
    requires Inv(cfg, s) && Enabled(cfg, s, i, a) && (a.HandOver? || a.HandOverLarge?)
    ensures Inv(cfg, Do(cfg, s, i, a))
  {
    hide Inv;
    if a.HandOver? { PassKeeps(cfg, s, i, a.j, {a.o}, {}); } else { PassKeeps(cfg, s, i, a.j, {}, {a.c}); }
  }

  // ---------- All interleavings ---------- //

  lemma StepKeeps(cfg: Config, s: State, i: nat, a: Action)
    requires Inv(cfg, s) && Enabled(cfg, s, i, a)
    ensures Inv(cfg, Do(cfg, s, i, a))
  {
    hide Inv, Enabled, Do;
    match a {
      case Mark => MarkSlotKeeps(cfg, s, i);
      case Unmark(o) => UnmarkKeeps(cfg, s, i, o);
      case Register => RegisterChunkKeeps(cfg, s, i);
      case ExtendFails => FailKeeps(cfg, s, i);
      case EraseChunk => EraseKeeps(cfg, s, i);
      case TakeLarge(b) => TakeLargeKeeps(cfg, s, i, b);
      case GiveLarge(c) => GiveLargeKeeps(cfg, s, i, c);
      case _ =>
        if a.HandOver? || a.HandOverLarge? {
          HandOverKeeps(cfg, s, i, a);
        } else if a.TakeCached? || a.PutCached? {
          CacheKeeps(cfg, s, i, a);
        } else if a.AdjustMarked? || a.AdjustUnmarked? || a.ListInsert? || a.ListErase? {
          ListKeeps(cfg, s, i, a);
        } else if a.GetBin? || a.LeaveBin? {
          BinLockKeeps(cfg, s, i, a);
        } else if a.AskInsert? || a.GetInsert? || a.LeaveInsert? || a.GetErase? || a.LeaveErase? {
          ChunkLockKeeps(cfg, s, i, a);
        } else {
          CacheLockKeeps(cfg, s, i, a);
        }
    }
  }

  ghost predicate LegalRun(cfg: Config, s: State, run: seq<(nat, Action)>)
    requires Inv(cfg, s)
    decreases |run|
  {
    run == [] ||
    (Enabled(cfg, s, run[0].0, run[0].1) &&
     (StepKeeps(cfg, s, run[0].0, run[0].1); LegalRun(cfg, Do(cfg, s, run[0].0, run[0].1), run[1..])))
  }

  ghost function Run(cfg: Config, s: State, run: seq<(nat, Action)>): State
    requires Inv(cfg, s) && LegalRun(cfg, s, run)
    decreases |run|
  {
    if run == [] then s else
    StepKeeps(cfg, s, run[0].0, run[0].1);
    Run(cfg, Do(cfg, s, run[0].0, run[0].1), run[1..])
  }

  /** Every interleaving of any number of threads keeps the invariant. */
  lemma {:induction false} RunKeeps(cfg: Config, s: State, run: seq<(nat, Action)>)
    requires Inv(cfg, s) && Ordered(s) && LegalRun(cfg, s, run)
    ensures Inv(cfg, Run(cfg, s, run)) && Ordered(Run(cfg, s, run))
    decreases |run|
  {
    hide Inv, Enabled, Do, Ordered;
    if run != [] {
      StepKeeps(cfg, s, run[0].0, run[0].1);
      OrderKept(cfg, s, run[0].0, run[0].1);
      RunKeeps(cfg, Do(cfg, s, run[0].0, run[0].1), run[1..]);
    }
  }

  /** Orphans come from failed extensions only: in a run without one the lists stay exact. */
  lemma {:induction false} OrphansComeFromFailures(cfg: Config, s: State, run: seq<(nat, Action)>)
    requires Inv(cfg, s) && LegalRun(cfg, s, run) && forall k :: 0 <= k < |run| ==> run[k].1 != ExtendFails
    ensures Run(cfg, s, run).orphans == s.orphans
    decreases |run|
  {
    hide Inv, Enabled;
    if run != [] {
      StepKeeps(cfg, s, run[0].0, run[0].1);
      assert Do(cfg, s, run[0].0, run[0].1).orphans == s.orphans;
      OrphansComeFromFailures(cfg, Do(cfg, s, run[0].0, run[0].1), run[1..]);
    }
  }

  ghost function Initial(cfg: Config, numThreads: nat, numCaches: nat): State
    requires ValidConfig(cfg)
  {
    State(seq(MaxChunks(cfg), _ => Unused), seq(SmallBins(cfg), _ => []),
      seq(numThreads, _ => Thread(Rest, -1, {}, {})),
          seq(numCaches, _ => {}), {})
  }

  lemma {:induction false} NothingHeld(threads: seq<Thread>, caches: seq<set<nat>>)
    requires forall i :: 0 <= i < |threads| ==> threads[i].held == {} && threads[i].large == {}
    requires forall k :: 0 <= k < |caches| ==> caches[k] == {}
    ensures AllHeld(threads) == multiset{} && AllLarge(threads) == multiset{} && AllCached(caches) == multiset{}
    decreases |threads| + |caches|
  {
    if |threads| > 0 {
      NothingHeld(threads[..|threads| - 1], caches);
    } else if |caches| > 0 {
      NothingHeld(threads, caches[..|caches| - 1]);
    }
  }

  lemma InitialOk(cfg: Config, numThreads: nat, numCaches: nat)
    requires ValidConfig(cfg)
    ensures Inv(cfg, Initial(cfg, numThreads, numCaches)) && Ordered(Initial(cfg, numThreads, numCaches))
  {
    hide MarkedSet, Slots, OffsetOf, SlotOf, ChunkOf, AllHeld, AllLarge, AllCached;
    var s := Initial(cfg, numThreads, numCaches);
    NothingHeld(s.threads, s.caches);
    forall o: nat ensures !Marked(cfg, s.table, o) {}
    assert MarkedSet(cfg, s.table) == {} && Heads(s.table) == {};
  }

  // ---------- What it means ---------- //

  /** No slot has two owners: not two threads, not a thread and a cache, not two caches; and what is owned is
      marked. */
  lemma NoTwoOwners(cfg: Config, s: State, i: nat, o: nat)
    requires Inv(cfg, s) && i < |s.threads| && o in s.threads[i].held
    ensures o in MarkedSet(cfg, s.table) && forall k :: 0 <= k < |s.caches| ==> o !in s.caches[k]
    ensures forall j :: 0 <= j < |s.threads| && j != i ==> o !in s.threads[j].held
  {
    hide MarkedSet, BinsOk, Exclusive, TableOk, AllHeld, AllLarge, AllCached;
    HeldIsMarked(cfg, s, i, o);
    Disjoint(cfg, s, i, o);
    OneOwner(cfg, s, o);
    forall j | 0 <= j < |s.threads| && j != i ensures o !in s.threads[j].held {
      if o in s.threads[j].held { TwoHolders(s.threads, if i < j then i else j, if i < j then j else i, o); }
    }
  }

  lemma {:induction false} TwoHolders(threads: seq<Thread>, i: nat, j: nat, o: nat)
    requires i < j < |threads| && o in threads[i].held && o in threads[j].held
    ensures AllHeld(threads)[o] >= 2
    decreases |threads|
  {
    var n := |threads| - 1;
    if j < n { TwoHolders(threads[..n], i, j, o); } else { HeldMember(threads[..n], i, o); }
  }

  /** Whenever nobody holds the lock of bin b, its list has no duplicates and is exactly the chunks of that bin
      with a free slot that are not orphans, and the orphans of the bin are exactly its chunks without marked slots. */
  lemma FreeListExact(cfg: Config, s: State, b: nat, c: nat)
    requires Inv(cfg, s) && b < |s.lists| && NoHolder(s, b)
    ensures NoDuplicates(s.lists[b]) && (c in s.lists[b] <==> NonFull(cfg, s.table, b, c) && c !in s.orphans)
    ensures IsSmallOf(s.table, c, b) ==> (s.table[c].marked == {} <==> c in s.orphans)
  {
    hide MarkedSet, Exclusive, TableOk, Owned, Slots;
    assert BinOk(cfg, s.table, s.lists[b], b, Rest, s.orphans);
  }

  /** Between erasing a chunk and taking it off the list, the list still names it, although it is no longer a
      chunk of the bin and may already be one of another; everything else in the list is exact. */
  lemma StaleEntry(cfg: Config, s: State, i: nat, d: nat)
    requires Inv(cfg, s) && i < |s.threads| && s.threads[i].pc.ErasingList?
    ensures var pc := s.threads[i].pc;
            && pc.b < |s.lists| && pc.c in s.lists[pc.b] && !IsSmallOf(s.table, pc.c, pc.b)
            && (d != pc.c ==> (d in s.lists[pc.b] <==> NonFull(cfg, s.table, pc.b, d) && d !in s.orphans))
  {
    hide MarkedSet, Exclusive, TableOk, Owned, Slots;
    StepDefined(cfg, s, i);
  }

  // ---------- Locks ---------- //

  datatype Lock = CacheLock(k: nat) | BinLock(b: nat) | ChunkLock

  function Rank(l: Lock): nat {
    match l
    case CacheLock(_) => 0
    case BinLock(_) => 1
    case ChunkLock => 2
  }

  ghost predicate HoldsLock(th: Thread, l: Lock) {
    match l
    case CacheLock(k) => th.cache == k
    case BinLock(b) => BinHeld(th.pc) == b
    case ChunkLock => ChunkHeld(th.pc)
  }

  ghost predicate WaitsAt(th: Thread, l: Lock) {
    match th.pc
    case WaitCache(k) => l == CacheLock(k)
    case WaitBin(b) => l == BinLock(b)
    case WaitInsert(_) => l == ChunkLock
    case WaitErase(_, _) => l == ChunkLock
    case WaitLarge => l == ChunkLock
    case _ => false
  }

  /** The order cache lock, bin lock, chunk lock: a thread waits only for a lock above all it holds. */
  ghost predicate Ordered(s: State) {
    forall i :: 0 <= i < |s.threads| && s.threads[i].pc.WaitCache? ==> s.threads[i].cache == -1
  }

  lemma WaitsUpward(s: State, i: nat, held: Lock, wanted: Lock)
    requires Ordered(s) && i < |s.threads| && HoldsLock(s.threads[i], held) && WaitsAt(s.threads[i], wanted)
    ensures Rank(held) < Rank(wanted)
  {}

  /** Thread i waits for a lock that thread j holds. */
  ghost predicate WaitsFor(s: State, i: nat, j: nat) {
    i < |s.threads| && j < |s.threads| && exists l: Lock :: WaitsAt(s.threads[i], l) && HoldsLock(s.threads[j], l)
  }

  /** Along any chain of waiting threads the locks waited for rise, so no chain closes. */
  lemma {:induction false} ChainRises(s: State, chain: seq<nat>, l: Lock, m: Lock)
    requires Ordered(s) && |chain| >= 2 && forall k :: 0 <= k < |chain| - 1 ==> WaitsFor(s, chain[k], chain[k + 1])
    requires chain[0] < |s.threads| && chain[|chain| - 1] < |s.threads|
    requires WaitsAt(s.threads[chain[0]], l) && WaitsAt(s.threads[chain[|chain| - 1]], m)
    ensures Rank(l) < Rank(m)
    decreases |chain|
  {
    hide HoldsLock, WaitsAt, Rank;
    assert WaitsFor(s, chain[0], chain[1]);
    var x: Lock :| WaitsAt(s.threads[chain[0]], x) && HoldsLock(s.threads[chain[1]], x);
    SameWait(s.threads[chain[0]], l, x);
    if |chain| == 2 {
      WaitsUpward(s, chain[1], l, m);
    } else {
      assert WaitsFor(s, chain[1], chain[2]);
      var y: Lock :| WaitsAt(s.threads[chain[1]], y) && HoldsLock(s.threads[chain[2]], y);
      WaitsUpward(s, chain[1], l, y);
      forall k | 0 <= k < |chain[1..]| - 1 ensures WaitsFor(s, chain[1..][k], chain[1..][k + 1]) {
        assert WaitsFor(s, chain[k + 1], chain[k + 2]);
      }
      ChainRises(s, chain[1..], y, m);
    }
  }

  lemma SameWait(th: Thread, l: Lock, m: Lock)
    requires WaitsAt(th, l) && WaitsAt(th, m)
    ensures l == m
  {}

  /** No cyclic wait. */
  lemma NoDeadlock(s: State, chain: seq<nat>)
    requires Ordered(s) && |chain| >= 2 && chain[0] == chain[|chain| - 1]
    ensures !forall k :: 0 <= k < |chain| - 1 ==> WaitsFor(s, chain[k], chain[k + 1])
  {
    if forall k :: 0 <= k < |chain| - 1 ==> WaitsFor(s, chain[k], chain[k + 1]) {
      assert WaitsFor(s, chain[0], chain[1]);
      var l: Lock :| WaitsAt(s.threads[chain[0]], l) && HoldsLock(s.threads[chain[1]], l);
      ChainRises(s, chain, l, l);
      assert false;
    }
  }

  lemma OrderKept(cfg: Config, s: State, i: nat, a: Action)
    requires Inv(cfg, s) && Ordered(s) && Enabled(cfg, s, i, a)
    ensures Ordered(Do(cfg, s, i, a))
  {
    hide Inv;
  }
}
