/** A thread that meets no other does, step by step, what the operations on the whole state do: the critical sections of
    `Concurrency` add up to the allocation and deallocation of `GlobalAllocator`. */
module Solo {
  import opened ChunkTable
  import opened BlockQueue
  import opened Ledger
  import opened Placement
  import opened C = Concurrency
  import G = GlobalAllocator
  import F = FreeSlots
  import BD = BinDirectory

  /** Thread i gets from s to r by these steps. */
  ghost predicate Steps(cfg: Config, s: State, i: nat, acts: seq<Action>, r: State)
    requires C.Inv(cfg, s)
    decreases |acts|
  {
    if acts == [] then r == s
    else Enabled(cfg, s, i, acts[0]) &&
         (StepKeeps(cfg, s, i, acts[0]); Steps(cfg, Do(cfg, s, i, acts[0]), i, acts[1..], r))
  }

  /** Such steps are a run of the threads. */
  lemma {:induction false} StepsAreRun(cfg: Config, s: State, i: nat, acts: seq<Action>, r: State)
      returns (run: seq<(nat, Action)>)
    requires C.Inv(cfg, s) && Steps(cfg, s, i, acts, r)
    ensures LegalRun(cfg, s, run) && Run(cfg, s, run) == r && |run| == |acts|
    ensures forall k :: 0 <= k < |run| ==> run[k] == (i, acts[k])
    decreases |acts|
  {
    hide C.Inv, Enabled, Do;
    if acts == [] {
      run := [];
    } else {
      StepKeeps(cfg, s, i, acts[0]);
      var rest := StepsAreRun(cfg, Do(cfg, s, i, acts[0]), i, acts[1..], r);
      run := [(i, acts[0])] + rest;
      assert run[1..] == rest;
    }
  }

  lemma {:induction false} StepsConcat(cfg: Config, s: State, i: nat, a: seq<Action>, m: State, b: seq<Action>,
                                       r: State)
    requires C.Inv(cfg, s) && Steps(cfg, s, i, a, m) && C.Inv(cfg, m) && Steps(cfg, m, i, b, r)
    ensures Steps(cfg, s, i, a + b, r)
    decreases |a|
  {
    hide C.Inv, Enabled, Do;
    if a == [] {
      assert a + b == b;
    } else {
      assert (a + b)[1..] == a[1..] + b;
      StepKeeps(cfg, s, i, a[0]);
      StepsConcat(cfg, Do(cfg, s, i, a[0]), i, a[1..], m, b, r);
    }
  }

  lemma OneStep(cfg: Config, s: State, i: nat, a: Action)
    requires C.Inv(cfg, s) && Enabled(cfg, s, i, a)
    ensures C.Inv(cfg, Do(cfg, s, i, a)) && Steps(cfg, s, i, [a], Do(cfg, s, i, a))
  {
    hide C.Inv, Enabled, Do;
    StepKeeps(cfg, s, i, a);
    var r := Do(cfg, s, i, a);
    assert [a][1..] == [] && Steps(cfg, r, i, [], r);
  }

  /** One more step. */
  lemma Then(cfg: Config, s: State, i: nat, acts: seq<Action>, m: State, a: Action)
    requires C.Inv(cfg, s) && Steps(cfg, s, i, acts, m) && C.Inv(cfg, m) && Enabled(cfg, m, i, a)
    ensures C.Inv(cfg, Do(cfg, m, i, a)) && Steps(cfg, s, i, acts + [a], Do(cfg, m, i, a))
  {
    hide C.Inv, Enabled, Do, Steps;
    OneStep(cfg, m, i, a);
    StepsConcat(cfg, s, i, acts, m, [a], Do(cfg, m, i, a));
  }

  // ---------- Single steps ---------- //

  lemma Enters(cfg: Config, s: State, i: nat, b: nat)
    requires C.Inv(cfg, s) && i < |s.threads| && s.threads[i].pc.Rest? && b < |s.lists| && NoHolder(s, b)
    ensures var r := SetPc(s, i, InBin(b, -1)); C.Inv(cfg, r) && Steps(cfg, s, i, [AskBin(b), GetBin], r)
  {
    hide C.Inv, Steps;
    OneStep(cfg, s, i, AskBin(b));
    var m := SetPc(s, i, WaitBin(b));
    assert Do(cfg, s, i, AskBin(b)) == m;
    Then(cfg, s, i, [AskBin(b)], m, GetBin);
    assert Do(cfg, m, i, GetBin) == SetPc(s, i, InBin(b, -1));
    assert [AskBin(b)] + [GetBin] == [AskBin(b), GetBin];
  }

  lemma Leaves(cfg: Config, s: State, i: nat, acts: seq<Action>, m: State, b: nat)
    requires C.Inv(cfg, s) && Steps(cfg, s, i, acts, m) && C.Inv(cfg, m)
    requires i < |m.threads| && m.threads[i].pc == InBin(b, -1)
    ensures var r := SetPc(m, i, Rest); C.Inv(cfg, r) && Steps(cfg, s, i, acts + [LeaveBin], r)
  {
    hide C.Inv, Steps;
    Then(cfg, s, i, acts, m, LeaveBin);
    assert Do(cfg, m, i, LeaveBin) == SetPc(m, i, Rest);
  }

  /** The directories as the sequential operations see them. */
  ghost function Seen(s: State): G.Global { G.Global(s.table, s.lists, 0) }

  /** The state with these directories, in which thread i is at pc and holds these slots. */
  ghost function With(s: State, g: G.Global, i: nat, pc: Pc, held: set<nat>): State
    requires i < |s.threads|
  {
    s.(table := g.table, lists := g.lists, threads := s.threads[i := s.threads[i].(pc := pc, held := held)])
  }

  lemma FrontIsSmall(cfg: Config, s: State, i: nat, b: nat, young: int)
    requires C.Inv(cfg, s) && i < |s.threads| && s.threads[i].pc == InBin(b, young)
    ensures b < |s.lists| && (s.lists[b] != [] ==> IsSmallOf(s.table, s.lists[b][0], b))
  {
    hide C.Inv, BinOk;
    StepDefined(cfg, s, i);
  }

  /** Marking the lowest free slot of the front chunk, and adjusting the list. */
  lemma Marks(cfg: Config, s: State, i: nat, b: nat, young: int, k: nat)
    requires C.Inv(cfg, s) && i < |s.threads| && s.threads[i].pc == InBin(b, young)
    requires b < |s.lists| && s.lists[b] != [] && Lowest(s.table, s.lists[b][0], k)
    ensures ValidConfig(cfg)
    ensures var c := s.lists[b][0];
            var held := s.threads[i].held + {OffsetOf(cfg, c, b, k)};
            var r := With(s, Given(cfg, Seen(s), b, c, k).1, i, InBin(b, -1), held);
            C.Inv(cfg, r) && Steps(cfg, s, i, [Mark, AdjustMarked], r)
  {
    hide Steps, Slots, OffsetOf, TableOk, Exclusive, BinsOk, Owned, OrphansOk;
    var c := s.lists[b][0];
    FrontIsSmall(cfg, s, i, b, young);
    LowestIs(s.table, c, k);
    OneStep(cfg, s, i, Mark);
    var m := DoMark(cfg, s, i);
    assert Do(cfg, s, i, Mark) == m;
    Then(cfg, s, i, [Mark], m, AdjustMarked);
    var held := s.threads[i].held + {OffsetOf(cfg, c, b, k)};
    assert m.threads[i] == s.threads[i].(pc := JustMarked(b, c), held := held);
    var r := With(s, Given(cfg, Seen(s), b, c, k).1, i, InBin(b, -1), held);
    assert Do(cfg, m, i, AdjustMarked) == r;
    assert [Mark] + [AdjustMarked] == [Mark, AdjustMarked];
  }

  lemma LowestIs(t: Table, c: nat, k: nat)
    requires Lowest(t, c, k)
    ensures F.LeastFree(t[c].marked) == k
  {
    hide F.LeastFree;
    var l := F.LeastFree(t[c].marked);
    assert !(l < k) && !(k < l);
  }

  /** Alone, a thread allocates from the front chunk what the sequential allocation gives. */
  lemma TakesAlone(cfg: Config, s: State, i: nat, b: nat, k: nat)
    requires C.Inv(cfg, s) && i < |s.threads| && s.threads[i].pc.Rest? && b < |s.lists| && NoHolder(s, b)
    requires s.lists[b] != [] && Lowest(s.table, s.lists[b][0], k)
    ensures ValidConfig(cfg) && G.Ready(cfg, Seen(s), b)
    ensures var (os, g) := G.MarkFront(cfg, Seen(s), b, 1);
            var r := With(s, g, i, Rest, s.threads[i].held + {OffsetOf(cfg, s.lists[b][0], b, k)});
            && os == [At(OffsetOf(cfg, s.lists[b][0], b, k))]
            && C.Inv(cfg, r) && Steps(cfg, s, i, [AskBin(b), GetBin, Mark, AdjustMarked, LeaveBin], r)
  {
    hide C.Inv, Steps, Slots, OffsetOf, Lowest, Given, G.MarkFront;
    Enters(cfg, s, i, b);
    var m := SetPc(s, i, InBin(b, -1));
    Marks(cfg, m, i, b, -1, k);
    FrontReady(cfg, m, i, b);
    MarkLowest(cfg, Seen(s), b, k);
    var c := s.lists[b][0];
    var held := s.threads[i].held + {OffsetOf(cfg, c, b, k)};
    var g := Given(cfg, Seen(s), b, c, k).1;
    var n := With(s, g, i, InBin(b, -1), held);
    assert n == With(m, g, i, InBin(b, -1), held);
    StepsConcat(cfg, s, i, [AskBin(b), GetBin], m, [Mark, AdjustMarked], n);
    var acts := [AskBin(b), GetBin] + [Mark, AdjustMarked];
    Leaves(cfg, s, i, acts, n, b);
    assert acts + [LeaveBin] == [AskBin(b), GetBin, Mark, AdjustMarked, LeaveBin];
    assert SetPc(n, i, Rest) == With(s, g, i, Rest, held);
    GivesOne(cfg, Seen(s), b, c, k);
  }

  lemma GivesOne(cfg: Config, g: G.Global, b: nat, c: nat, k: nat)
    requires ValidConfig(cfg) && b < |g.lists| && g.lists[b] != [] && c < |g.table| && g.table[c].Small?
    ensures Given(cfg, g, b, c, k).0 == [At(OffsetOf(cfg, c, b, k))]
  {
    hide Slots, OffsetOf;
  }

  /** The front chunk of a bin one has locked has a free slot. */
  lemma FrontReady(cfg: Config, s: State, i: nat, b: nat)
    requires C.Inv(cfg, s) && i < |s.threads| && s.threads[i].pc == InBin(b, -1) && b < |s.lists| && s.lists[b] != []
    ensures ValidConfig(cfg) && G.Ready(cfg, Seen(s), b)
  {
    hide Slots, TableOk, Exclusive, Owned, OrphansOk;
    StepDefined(cfg, s, i);
    assert s.lists[b][0] in s.lists[b];
  }

  // ---------- A new chunk ---------- //

  /** Registering the lowest unused chunk. */
  lemma Registers(cfg: Config, s: State, i: nat, b: nat, c: nat)
    requires C.Inv(cfg, s) && i < |s.threads| && s.threads[i].pc == InBin(b, -1) && b < |s.lists| && s.lists[b] == []
    requires ChunkFree(s) && LowestUnused(s.table, c)
    ensures var r := SetPc(s.(table := s.table[c := Small(b, {})]), i, Registered(b, c));
            C.Inv(cfg, r) && Steps(cfg, s, i, [AskInsert, GetInsert, Register], r)
  {
    hide C.Inv, Steps;
    FirstUnusedIs(s.table, c);
    OneStep(cfg, s, i, AskInsert);
    var m := SetPc(s, i, WaitInsert(b));
    assert Do(cfg, s, i, AskInsert) == m;
    assert ChunkFree(m);
    Then(cfg, s, i, [AskInsert], m, GetInsert);
    var n := SetPc(s, i, Inserting(b));
    assert Do(cfg, m, i, GetInsert) == n;
    Then(cfg, s, i, [AskInsert] + [GetInsert], n, Register);
    assert Do(cfg, n, i, Register) == SetPc(s.(table := s.table[c := Small(b, {})]), i, Registered(b, c));
    assert [AskInsert] + [GetInsert] + [Register] == [AskInsert, GetInsert, Register];
  }

  lemma Lists(cfg: Config, s: State, i: nat, b: nat, c: nat)
    requires C.Inv(cfg, s) && i < |s.threads| && s.threads[i].pc == Registered(b, c) && b < |s.lists|
    ensures var r := SetPc(s.(lists := s.lists[b := [c] + s.lists[b]]), i, InBin(b, c));
            C.Inv(cfg, r) && Steps(cfg, s, i, [ListInsert, LeaveInsert], r)
  {
    hide C.Inv, Steps;
    OneStep(cfg, s, i, ListInsert);
    var m := SetPc(s.(lists := s.lists[b := [c] + s.lists[b]]), i, InsertedList(b, c));
    assert Do(cfg, s, i, ListInsert) == m;
    Then(cfg, s, i, [ListInsert], m, LeaveInsert);
    assert Do(cfg, m, i, LeaveInsert) == SetPc(s.(lists := s.lists[b := [c] + s.lists[b]]), i, InBin(b, c));
    assert [ListInsert] + [LeaveInsert] == [ListInsert, LeaveInsert];
  }

  /** Alone, and when the extension succeeds, a thread allocates from a new chunk what the sequential allocation gives:
      its first slot. */
  lemma TakesNewAlone(cfg: Config, s: State, i: nat, b: nat, c: nat) returns (acts: seq<Action>)
    requires C.Inv(cfg, s) && i < |s.threads| && s.threads[i].pc.Rest?
    requires b < |s.lists| && NoHolder(s, b) && ChunkFree(s)
    requires s.lists[b] == [] && LowestUnused(s.table, c)
    ensures ValidConfig(cfg)
    ensures var g := G.Global(s.table[c := Small(b, {0})], s.lists[b := [c]], 0);
            var r := With(s, g, i, Rest, s.threads[i].held + {OffsetOf(cfg, c, b, 0)});
            C.Inv(cfg, r) && Steps(cfg, s, i, acts, r)
  {
    hide C.Inv, Steps, Slots, OffsetOf, Given;
    Enters(cfg, s, i, b);
    var m := SetPc(s, i, InBin(b, -1));
    Registers(cfg, m, i, b, c);
    var n := SetPc(m.(table := m.table[c := Small(b, {})]), i, Registered(b, c));
    acts := [AskBin(b), GetBin] + [AskInsert, GetInsert, Register];
    StepsConcat(cfg, s, i, [AskBin(b), GetBin], m, [AskInsert, GetInsert, Register], n);
    Lists(cfg, n, i, b, c);
    var l := SetPc(n.(lists := n.lists[b := [c] + n.lists[b]]), i, InBin(b, c));
    StepsConcat(cfg, s, i, acts, n, [ListInsert, LeaveInsert], l);
    acts := acts + [ListInsert, LeaveInsert];
    assert l.lists[b] == [c];
    Marks(cfg, l, i, b, c, 0);
    FreshChunk(cfg, l, b, c);
    var held := s.threads[i].held + {OffsetOf(cfg, c, b, 0)};
    var g := G.Global(s.table[c := Small(b, {0})], s.lists[b := [c]], 0);
    var e := With(l, Given(cfg, Seen(l), b, c, 0).1, i, InBin(b, -1), held);
    assert l.table[c := Small(b, {0})] == g.table && l.lists == g.lists;
    assert e == With(s, g, i, InBin(b, -1), held);
    StepsConcat(cfg, s, i, acts, l, [Mark, AdjustMarked], e);
    acts := acts + [Mark, AdjustMarked];
    Leaves(cfg, s, i, acts, e, b);
    acts := acts + [LeaveBin];
    assert SetPc(e, i, Rest) == With(s, g, i, Rest, held);
  }

  lemma FreshChunk(cfg: Config, s: State, b: nat, c: nat)
    requires C.Inv(cfg, s) && b < |s.lists| && s.lists[b] == [c] && c < |s.table| && s.table[c] == Small(b, {})
    ensures ValidConfig(cfg)
    ensures Given(cfg, Seen(s), b, c, 0).1 == G.Global(s.table[c := Small(b, {0})], s.lists, 0)
  {
    hide Slots, TableOk, Exclusive, BinsOk, Owned, OrphansOk;
    TwoSlots(cfg, b);
    assert {} + {0} == {0} && |{0}| == 1;
  }

  /** When the extension fails the chunk stays registered and unlisted. */
  lemma FailsAlone(cfg: Config, s: State, i: nat, b: nat, c: nat) returns (acts: seq<Action>)
    requires C.Inv(cfg, s) && i < |s.threads| && s.threads[i].pc.Rest?
    requires b < |s.lists| && NoHolder(s, b) && ChunkFree(s)
    requires s.lists[b] == [] && LowestUnused(s.table, c)
    ensures var r := s.(table := s.table[c := Small(b, {})], orphans := s.orphans + {c});
            C.Inv(cfg, r) && Steps(cfg, s, i, acts, r)
  {
    hide C.Inv, Steps;
    Enters(cfg, s, i, b);
    var m := SetPc(s, i, InBin(b, -1));
    Registers(cfg, m, i, b, c);
    var n := SetPc(m.(table := m.table[c := Small(b, {})]), i, Registered(b, c));
    acts := [AskBin(b), GetBin] + [AskInsert, GetInsert, Register];
    StepsConcat(cfg, s, i, [AskBin(b), GetBin], m, [AskInsert, GetInsert, Register], n);
    Then(cfg, s, i, acts, n, ExtendFails);
    var e := SetPc(n.(orphans := n.orphans + {c}), i, InBin(b, -1));
    assert Do(cfg, n, i, ExtendFails) == e;
    acts := acts + [ExtendFails];
    Leaves(cfg, s, i, acts, e, b);
    acts := acts + [LeaveBin];
    assert SetPc(e, i, Rest) == s.(table := s.table[c := Small(b, {})], orphans := s.orphans + {c});
  }

  // ---------- Freeing ---------- //

  /** Unmarking a slot and adjusting the list, up to the erasing of an empty chunk. */
  lemma Unmarks(cfg: Config, s: State, i: nat, b: nat, o: nat)
    requires C.Inv(cfg, s) && i < |s.threads| && s.threads[i].pc == InBin(b, -1) && b < |s.lists|
    requires o in s.threads[i].held && Slotted(cfg, s.table, o, b)
    ensures var c, held := ChunkOf(cfg, o), s.threads[i].held - {o};
            var marked := s.table[c].marked - {SlotOf(cfg, b, o)};
            var t := s.table[c := Small(b, marked)];
            var full := |s.table[c].marked| == Slots(cfg, b);
            var g := G.Global(t, if full then s.lists[b := [c] + s.lists[b]] else s.lists, 0);
            var r := With(s, g, i, if !full && marked == {} then WaitErase(b, c) else InBin(b, -1), held);
            C.Inv(cfg, r) && Steps(cfg, s, i, [Unmark(o), AdjustUnmarked], r)
  {
    hide Steps, Slots, OffsetOf, SlotOf, ChunkOf, TableOk, Exclusive, BinsOk, Owned, OrphansOk;
    OneStep(cfg, s, i, Unmark(o));
    var m := DoUnmark(cfg, s, i, o);
    assert Do(cfg, s, i, Unmark(o)) == m;
    Then(cfg, s, i, [Unmark(o)], m, AdjustUnmarked);
    var c, held := ChunkOf(cfg, o), s.threads[i].held - {o};
    var marked := s.table[c].marked - {SlotOf(cfg, b, o)};
    var full := |s.table[c].marked| == Slots(cfg, b);
    var g := G.Global(s.table[c := Small(b, marked)], if full then s.lists[b := [c] + s.lists[b]] else s.lists, 0);
    assert Do(cfg, m, i, AdjustUnmarked) ==
           With(s, g, i, if !full && marked == {} then WaitErase(b, c) else InBin(b, -1), held);
    assert [Unmark(o)] + [AdjustUnmarked] == [Unmark(o), AdjustUnmarked];
  }

  /** Erasing an empty chunk from the directory. */
  lemma Unregisters(cfg: Config, s: State, i: nat, b: nat, c: nat)
    requires C.Inv(cfg, s) && i < |s.threads| && s.threads[i].pc == WaitErase(b, c) && ChunkFree(s) && c < |s.table|
    ensures var r := SetPc(s.(table := Erase(s.table, c)), i, Unregistered(b, c));
            C.Inv(cfg, r) && Steps(cfg, s, i, [GetErase, EraseChunk], r)
  {
    hide C.Inv, Steps, Erase;
    OneStep(cfg, s, i, GetErase);
    var m := SetPc(s, i, Erasing(b, c));
    assert Do(cfg, s, i, GetErase) == m;
    Then(cfg, s, i, [GetErase], m, EraseChunk);
    assert Do(cfg, m, i, EraseChunk) == SetPc(s.(table := Erase(s.table, c)), i, Unregistered(b, c));
    assert [GetErase] + [EraseChunk] == [GetErase, EraseChunk];
  }

  /** Taking an erased chunk off its list. */
  lemma Unlists(cfg: Config, s: State, i: nat, b: nat, c: nat)
    requires C.Inv(cfg, s) && i < |s.threads| && s.threads[i].pc == Unregistered(b, c) && b < |s.lists|
    ensures var r := SetPc(s.(lists := s.lists[b := BD.Erased(s.lists[b], c)]), i, InBin(b, -1));
            C.Inv(cfg, r) && Steps(cfg, s, i, [LeaveErase, ListErase], r)
  {
    hide C.Inv, Steps;
    OneStep(cfg, s, i, LeaveErase);
    var m := SetPc(s, i, ErasingList(b, c));
    assert Do(cfg, s, i, LeaveErase) == m;
    Then(cfg, s, i, [LeaveErase], m, ListErase);
    assert Do(cfg, m, i, ListErase) ==
           SetPc(s.(lists := s.lists[b := BD.Erased(s.lists[b], c)]), i, InBin(b, -1));
    assert [LeaveErase] + [ListErase] == [LeaveErase, ListErase];
  }

  /** Erasing an empty chunk and taking it off its list. */
  lemma Erases(cfg: Config, s: State, i: nat, b: nat, c: nat)
    requires C.Inv(cfg, s) && i < |s.threads| && s.threads[i].pc == WaitErase(b, c) && b < |s.lists| && ChunkFree(s)
    requires c < |s.table|
    ensures var g := G.Global(Erase(s.table, c), s.lists[b := BD.Erased(s.lists[b], c)], 0);
            var r := With(s, g, i, InBin(b, -1), s.threads[i].held);
            C.Inv(cfg, r) && Steps(cfg, s, i, [GetErase, EraseChunk] + [LeaveErase, ListErase], r)
  {
    hide C.Inv, Steps, Erase, BD.Erased;
    Unregisters(cfg, s, i, b, c);
    var m := SetPc(s.(table := Erase(s.table, c)), i, Unregistered(b, c));
    Unlists(cfg, m, i, b, c);
    var g := G.Global(Erase(s.table, c), s.lists[b := BD.Erased(s.lists[b], c)], 0);
    var r := With(s, g, i, InBin(b, -1), s.threads[i].held);
    assert r == SetPc(m.(lists := m.lists[b := BD.Erased(m.lists[b], c)]), i, InBin(b, -1));
    StepsConcat(cfg, s, i, [GetErase, EraseChunk], m, [LeaveErase, ListErase], r);
  }

  /** Alone, a thread frees a slot as the sequential deallocation does. */
  lemma FreesAlone(cfg: Config, s: State, i: nat, b: nat, o: nat) returns (acts: seq<Action>)
    requires C.Inv(cfg, s) && i < |s.threads| && s.threads[i].pc.Rest?
    requires b < |s.lists| && NoHolder(s, b) && ChunkFree(s)
    requires o in s.threads[i].held && Slotted(cfg, s.table, o, b)
    ensures ValidConfig(cfg)
    ensures var r := With(s, G.FreeOne(cfg, Seen(s), b, At(o)), i, Rest, s.threads[i].held - {o});
            C.Inv(cfg, r) && Steps(cfg, s, i, acts, r)
  {
    hide Steps, Slots, OffsetOf, SlotOf, ChunkOf, Erase, TableOk, Exclusive, BinsOk, Owned, OrphansOk;
    Enters(cfg, s, i, b);
    var m := SetPc(s, i, InBin(b, -1));
    Unmarks(cfg, m, i, b, o);
    var c, held := ChunkOf(cfg, o), s.threads[i].held - {o};
    var marked := s.table[c].marked - {SlotOf(cfg, b, o)};
    var full := |s.table[c].marked| == Slots(cfg, b);
    var t := s.table[c := Small(b, marked)];
    var g := G.Global(t, if full then s.lists[b := [c] + s.lists[b]] else s.lists, 0);
    var pc := if !full && marked == {} then WaitErase(b, c) else InBin(b, -1);
    var n := With(s, g, i, pc, held);
    assert n == With(m, g, i, pc, held);
    acts := [AskBin(b), GetBin] + [Unmark(o), AdjustUnmarked];
    StepsConcat(cfg, s, i, [AskBin(b), GetBin], m, [Unmark(o), AdjustUnmarked], n);
    var e := n;
    if !full && marked == {} {
      Erases(cfg, n, i, b, c);
      var g1 := G.Global(Erase(t, c), s.lists[b := BD.Erased(s.lists[b], c)], 0);
      e := With(n, g1, i, InBin(b, -1), held);
      StepsConcat(cfg, s, i, acts, n, [GetErase, EraseChunk] + [LeaveErase, ListErase], e);
      acts := acts + ([GetErase, EraseChunk] + [LeaveErase, ListErase]);
    }
    Leaves(cfg, s, i, acts, e, b);
    acts := acts + [LeaveBin];
    assert SetPc(e, i, Rest) == With(s, G.FreeOne(cfg, Seen(s), b, At(o)), i, Rest, held);
  }

  // ---------- Large objects ---------- //

  lemma EntersLarge(cfg: Config, s: State, i: nat)
    requires C.Inv(cfg, s) && i < |s.threads| && s.threads[i].pc.Rest? && ChunkFree(s)
    ensures var r := SetPc(s, i, InLarge); C.Inv(cfg, r) && Steps(cfg, s, i, [AskLarge, GetLarge], r)
  {
    hide C.Inv, Steps;
    OneStep(cfg, s, i, AskLarge);
    var m := SetPc(s, i, WaitLarge);
    assert Do(cfg, s, i, AskLarge) == m;
    assert ChunkFree(m);
    Then(cfg, s, i, [AskLarge], m, GetLarge);
    assert Do(cfg, m, i, GetLarge) == SetPc(s, i, InLarge);
    assert [AskLarge] + [GetLarge] == [AskLarge, GetLarge];
  }

  /** The state in which thread i is outside and owns these large objects, and the table is t. */
  ghost function WithLarge(s: State, t: Table, i: nat, large: set<nat>): State
    requires i < |s.threads|
  {
    s.(table := t, threads := s.threads[i := s.threads[i].(pc := Rest, large := large)])
  }

  /** Alone, a thread takes the lowest run of unused chunks that is long enough. */
  lemma TakesLargeAlone(cfg: Config, s: State, i: nat, b: nat, c: nat)
    requires C.Inv(cfg, s) && i < |s.threads| && s.threads[i].pc.Rest? && ChunkFree(s)
    requires SmallBins(cfg) <= b < NumBins(cfg) && LowestRun(s.table, c, RunLength(cfg, b))
    ensures c + RunLength(cfg, b) <= |s.table|
    ensures var r := WithLarge(s, PutLarge(s.table, c, b, RunLength(cfg, b)), i, s.threads[i].large + {c});
            C.Inv(cfg, r) && Steps(cfg, s, i, [AskLarge, GetLarge] + [TakeLarge(b)] + [LeaveLarge], r)
  {
    hide Steps, RunLength, PutLarge, FirstFit, AllUnused, NumBins, SmallBins, ValidConfig, TableOk, Exclusive, BinsOk,
      Owned, OrphansOk, Slots;
    RunInTable(s.table, c, RunLength(cfg, b));
    FirstFitUnique(s.table, RunLength(cfg, b), c);
    EntersLarge(cfg, s, i);
    var m := SetPc(s, i, InLarge);
    Then(cfg, s, i, [AskLarge, GetLarge], m, TakeLarge(b));
    var r := WithLarge(s, PutLarge(s.table, c, b, RunLength(cfg, b)), i, s.threads[i].large + {c});
    var n := SetPc(r, i, InLarge);
    assert Do(cfg, m, i, TakeLarge(b)) == n;
    Then(cfg, s, i, [AskLarge, GetLarge] + [TakeLarge(b)], n, LeaveLarge);
    assert Do(cfg, n, i, LeaveLarge) == r;
  }

  /** Alone, a thread frees a large object by clearing its run. */
  lemma FreesLargeAlone(cfg: Config, s: State, i: nat, c: nat)
    requires C.Inv(cfg, s) && i < |s.threads| && s.threads[i].pc.Rest? && ChunkFree(s) && c in s.threads[i].large
    ensures ValidConfig(cfg) && c < |s.table| && s.table[c].Head? && c + RunLength(cfg, s.table[c].bin) <= |s.table|
    ensures var r := WithLarge(s, Clear(s.table, c, RunLength(cfg, s.table[c].bin)), i, s.threads[i].large - {c});
            C.Inv(cfg, r) && Steps(cfg, s, i, [AskLarge, GetLarge] + [GiveLarge(c)] + [LeaveLarge], r)
  {
    hide Steps, RunLength, Clear, Erase, TableOk, Exclusive, BinsOk, Owned, OrphansOk;
    StepDefined(cfg, s, i);
    EraseRun(cfg, s.table, c);
    EntersLarge(cfg, s, i);
    var m := SetPc(s, i, InLarge);
    Then(cfg, s, i, [AskLarge, GetLarge], m, GiveLarge(c));
    var r := WithLarge(s, Erase(s.table, c), i, s.threads[i].large - {c});
    var n := SetPc(r, i, InLarge);
    assert Do(cfg, m, i, GiveLarge(c)) == n;
    Then(cfg, s, i, [AskLarge, GetLarge] + [GiveLarge(c)], n, LeaveLarge);
    assert Do(cfg, n, i, LeaveLarge) == r;
  }
}
