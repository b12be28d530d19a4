/** Offsets of slots, and the set of offsets whose slots are marked. */
module Ledger {
  import opened ChunkTable
  import opened BlockQueue
  import opened FreeSlots
  import opened Utilities
  import S = SizeClasses

  // ---------- Offsets ---------- //

  /** The segment offset of slot k of chunk c. */
  function OffsetOf(cfg: Config, c: nat, bin: nat, k: nat): nat
    requires ValidConfig(cfg)
  {
    ChunkSize(cfg) * c + ObjectSize(cfg, bin) * k
  }

  /** Where chunk c starts. */
  function ChunkStart(cfg: Config, c: nat): nat { Prod(ChunkSize(cfg), c) }

  function ChunkOf(cfg: Config, o: nat): nat { Quot(o, ChunkSize(cfg)) }

  function InChunk(cfg: Config, o: nat): nat { Rem(o, ChunkSize(cfg)) }

  function SlotOf(cfg: Config, bin: nat, o: nat): nat
    requires ValidConfig(cfg)
  {
    Quot(InChunk(cfg, o), ObjectSize(cfg, bin))
  }

  lemma SplitOffset(C: nat, c: nat, r: nat)
    requires r < C
    ensures (C * c + r) / C == c && (C * c + r) % C == r
  {
    assert C * c == c * C;
    S.Quotient(C * c + r, C, c);
  }

  lemma SlotFits(C: nat, s: nat, k: nat)
    requires s >= 1 && k < C / s
    ensures s * k + s <= C
  {
    S.QuotientBounds(C, s);
    S.TimesMono(k + 1, C / s, s);
    assert (k + 1) * s == s * k + s;
  }

  /** The chunk and the slot can be read back from the offset. */
  lemma Decode(cfg: Config, c: nat, bin: nat, k: nat)
    requires ValidConfig(cfg) && k < Slots(cfg, bin)
    ensures var o := OffsetOf(cfg, c, bin, k);
            && ChunkOf(cfg, o) == c && SlotOf(cfg, bin, o) == k
            && o % ChunkSize(cfg) == ObjectSize(cfg, bin) * k
            && o + ObjectSize(cfg, bin) <= ChunkSize(cfg) * c + ChunkSize(cfg)
  {
    hide ObjectSize;
    var C, s := ChunkSize(cfg), ObjectSize(cfg, bin);
    SlotFits(C, s, k);
    SplitOffset(C, c, s * k);
    assert s * k == k * s;
    S.Quotient(s * k, s, k);
  }

  /** o is the offset of a marked slot of bin b. */
  ghost predicate Slotted(cfg: Config, t: Table, o: nat, b: nat)
    requires ValidConfig(cfg)
  {
    var c, k := ChunkOf(cfg, o), SlotOf(cfg, b, o);
    c < |t| && t[c].Small? && t[c].bin == b && k in t[c].marked && o == OffsetOf(cfg, c, b, k)
  }

  ghost predicate Marked(cfg: Config, t: Table, o: nat)
    requires ValidConfig(cfg)
  {
    ChunkOf(cfg, o) < |t| && t[ChunkOf(cfg, o)].Small? && Slotted(cfg, t, o, t[ChunkOf(cfg, o)].bin)
  }

  lemma SlottedMarked(cfg: Config, t: Table, o: nat, b: nat)
    requires ValidConfig(cfg)
    ensures Slotted(cfg, t, o, b) ==> Marked(cfg, t, o)
    ensures Marked(cfg, t, o) ==> Slotted(cfg, t, o, t[ChunkOf(cfg, o)].bin)
  {}

  lemma BelowEnd(C: nat, o: nat, n: nat)
    requires C >= 1 && o / C < n
    ensures o < n * C
  {
    S.QuotientBounds(o, C);
    S.TimesMono(o / C + 1, n, C);
    assert (o / C + 1) * C == o / C * C + C;
  }

  /** All offsets whose slots are marked. */
  ghost function MarkedSet(cfg: Config, t: Table): (s: set<nat>)
    requires ValidConfig(cfg)
    ensures forall o :: o in s <==> Marked(cfg, t, o)
  {
    forall o: nat | Marked(cfg, t, o) ensures o < |t| * ChunkSize(cfg) { BelowEnd(ChunkSize(cfg), o, |t|); }
    set o: nat | o < |t| * ChunkSize(cfg) && Marked(cfg, t, o)
  }

  // ---------- Marking and unmarking ---------- //

  lemma SlottedFacts(cfg: Config, t: Table, o: nat, b: nat)
    requires ValidConfig(cfg) && TableOk(cfg, t) && Slotted(cfg, t, o, b)
    ensures b < SmallBins(cfg) && SlotOf(cfg, b, o) < Slots(cfg, b)
  {
    assert EntryOk(cfg, t, ChunkOf(cfg, o));
  }

  /** Marking one more slot adds exactly its offset. */
  lemma MarkOne(cfg: Config, t: Table, c: nat, k: nat)
    requires ValidConfig(cfg) && c < |t| && t[c].Small? && k < Slots(cfg, t[c].bin) && k !in t[c].marked
    ensures var o := OffsetOf(cfg, c, t[c].bin, k);
            var u := t[c := Small(t[c].bin, t[c].marked + {k})];
            o !in MarkedSet(cfg, t) && MarkedSet(cfg, u) == MarkedSet(cfg, t) + {o} && Slotted(cfg, u, o, t[c].bin)
  {
    hide OffsetOf, ChunkOf, SlotOf, Slots, MarkedSet;
    Decode(cfg, c, t[c].bin, k);
  }

  /** Unmarking a slot removes exactly its offset. */
  lemma UnmarkOne(cfg: Config, t: Table, o: nat, b: nat)
    requires ValidConfig(cfg) && TableOk(cfg, t) && Slotted(cfg, t, o, b)
    ensures var c := ChunkOf(cfg, o);
            var u := t[c := Small(b, t[c].marked - {SlotOf(cfg, b, o)})];
            o in MarkedSet(cfg, t) && MarkedSet(cfg, u) == MarkedSet(cfg, t) - {o}
  {
    hide OffsetOf, ChunkOf, SlotOf, Slots, MarkedSet, TableOk;
  }

  /** A chunk without marked slots contributes nothing. */
  lemma DropChunk(cfg: Config, t: Table, u: Table)
    requires ValidConfig(cfg) && |u| == |t|
    requires forall c :: 0 <= c < |t| && u[c] != t[c] ==>
               (t[c].Small? ==> t[c].marked == {}) && (u[c].Small? ==> u[c].marked == {})
    ensures MarkedSet(cfg, u) == MarkedSet(cfg, t)
  {
    hide OffsetOf, ChunkOf, SlotOf, MarkedSet;
    forall o: nat ensures Marked(cfg, u, o) <==> Marked(cfg, t, o) {}
  }

  /** The offsets of some slots of one chunk. */
  function OffsetsOf(cfg: Config, c: nat, bin: nat, slots: seq<nat>): (os: seq<Offset>)
    requires ValidConfig(cfg)
    ensures |os| == |slots| && forall i :: 0 <= i < |slots| ==> os[i] == At(OffsetOf(cfg, c, bin, slots[i]))
  {
    seq(|slots|, i requires 0 <= i < |slots| => At(OffsetOf(cfg, c, bin, slots[i])))
  }

  ghost predicate FreshSlots(cfg: Config, t: Table, c: nat, slots: seq<nat>)
    requires ValidConfig(cfg)
  {
    && c < |t| && t[c].Small?
    && (forall i :: 0 <= i < |slots| ==> slots[i] < Slots(cfg, t[c].bin) && slots[i] !in t[c].marked)
    && forall i, j :: 0 <= i < j < |slots| ==> slots[i] != slots[j]
  }

  function MarkAll(t: Table, c: nat, slots: seq<nat>): Table
    requires c < |t| && t[c].Small?
  {
    t[c := Small(t[c].bin, t[c].marked + Elements(slots))]
  }

  /** Marking several slots of a chunk adds exactly their offsets, once each. */
  lemma {:induction false} MarkMany(cfg: Config, t: Table, c: nat, slots: seq<nat>)
    requires ValidConfig(cfg) && FreshSlots(cfg, t, c, slots)
    ensures var u := MarkAll(t, c, slots);
            && multiset(MarkedSet(cfg, u)) == multiset(MarkedSet(cfg, t)) + Objects(OffsetsOf(cfg, c, t[c].bin, slots))
            && forall i :: 0 <= i < |slots| ==> Slotted(cfg, u, OffsetOf(cfg, c, t[c].bin, slots[i]), t[c].bin)
    decreases |slots|
  {
    hide OffsetOf, ChunkOf, SlotOf, Slots, MarkedSet, Slotted, Elements, Objects;
    var bin := t[c].bin;
    if slots == [] {
      MarkNone(cfg, t, c);
    } else {
      var n := |slots| - 1;
      var k, rest := slots[n], slots[..n];
      assert slots == rest + [k];
      RestFresh(cfg, t, c, rest, k);
      MarkMany(cfg, t, c, rest);
      var u, v := MarkAll(t, c, slots), MarkAll(t, c, rest);
      MarkLast(t, c, rest, k);
      MarkOne(cfg, v, c, k);
      SetPlusOne(MarkedSet(cfg, v), OffsetOf(cfg, c, bin, k));
      ObjectsLast(cfg, c, bin, rest, k);
      forall i | 0 <= i < n ensures Slotted(cfg, u, OffsetOf(cfg, c, bin, slots[i]), bin) {
        assert rest[i] == slots[i];
        MarkKeeps(cfg, v, u, c, OffsetOf(cfg, c, bin, slots[i]), bin);
      }
    }
  }

  lemma SetPlusOne(a: set<nat>, x: nat)
    requires x !in a
    ensures multiset(a + {x}) == multiset(a) + multiset{x}
  {}

  lemma MarkNone(cfg: Config, t: Table, c: nat)
    requires ValidConfig(cfg) && c < |t| && t[c].Small?
    ensures MarkAll(t, c, []) == t && Objects(OffsetsOf(cfg, c, t[c].bin, [])) == multiset{}
  {
    assert t[c].marked + Elements([]) == t[c].marked;
  }

  lemma MarkLast(t: Table, c: nat, rest: seq<nat>, k: nat)
    requires c < |t| && t[c].Small?
    ensures var v := MarkAll(t, c, rest);
            MarkAll(t, c, rest + [k]) == v[c := Small(t[c].bin, v[c].marked + {k})]
  {
    ElementsConcat(rest, [k]);
    assert Elements([k]) == {k};
    assert t[c].marked + Elements(rest + [k]) == (t[c].marked + Elements(rest)) + {k};
  }

  lemma RestFresh(cfg: Config, t: Table, c: nat, rest: seq<nat>, k: nat)
    requires ValidConfig(cfg) && FreshSlots(cfg, t, c, rest + [k])
    ensures FreshSlots(cfg, t, c, rest) && k < Slots(cfg, t[c].bin) && k !in MarkAll(t, c, rest)[c].marked
  {
    hide Slots;
    var all := rest + [k];
    assert all[|rest|] == k;
    forall i | 0 <= i < |rest| ensures rest[i] == all[i] && rest[i] != k {}
  }

  lemma ObjectsLast(cfg: Config, c: nat, bin: nat, rest: seq<nat>, k: nat)
    requires ValidConfig(cfg)
    ensures Objects(OffsetsOf(cfg, c, bin, rest + [k])) ==
            Objects(OffsetsOf(cfg, c, bin, rest)) + multiset{OffsetOf(cfg, c, bin, k)}
  {
    hide OffsetOf;
    var all := OffsetsOf(cfg, c, bin, rest + [k]);
    assert all[..|rest|] == OffsetsOf(cfg, c, bin, rest);
  }

  /** More marks in a chunk leave the marked ones marked. */
  lemma MarkKeeps(cfg: Config, t: Table, u: Table, c: nat, o: nat, b: nat)
    requires ValidConfig(cfg) && |u| == |t| && c < |t| && Slotted(cfg, t, o, b)
    requires forall d :: 0 <= d < |t| && d != c ==> u[d] == t[d]
    requires t[c].Small? ==> u[c].Small? && u[c].bin == t[c].bin && t[c].marked <= u[c].marked
    ensures Slotted(cfg, u, o, b)
  {}
}
