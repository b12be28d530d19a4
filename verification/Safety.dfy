/** What the accounts mean for the client's memory. */
module Safety {
  import opened ChunkTable
  import opened Ledger
  import opened GlobalAllocator
  import opened CachedAllocator
  import opened Allocator
  import S = SizeClasses

  /** The bytes set aside for a request of n bytes. */
  function SizeFor(cfg: Config, n: nat): nat
    requires ValidConfig(cfg) && BinFor(cfg, n) >= 0
  {
    ObjectSize(cfg, BinFor(cfg, n))
  }

  lemma SizeIsEnough(cfg: Config, n: nat)
    requires ValidConfig(cfg) && BinFor(cfg, n) >= 0
    ensures SizeFor(cfg, n) >= n
  {
    hide S.ClassSize;
  }

  ghost predicate Apart(o: nat, k: nat, p: nat, l: nat) { o + k <= p || p + l <= o }

  /** An object of the client: large enough, inside the segment. */
  ghost predicate Fits(cfg: Config, w: World, o: nat, n: nat)
    requires ValidConfig(cfg)
  {
    BinFor(cfg, n) >= 0 && n <= SizeFor(cfg, n) && o + SizeFor(cfg, n) <= w.g.segment
  }

  /** Chunks lo to hi (exclusive) contain the object. */
  ghost predicate Spans(cfg: Config, o: nat, k: nat, lo: nat, hi: nat)
  {
    lo < hi && ChunkSize(cfg) * lo <= o && o + k <= ChunkSize(cfg) * hi
  }

  lemma Ordered(C: nat, a: nat, b: nat)
    requires a <= b
    ensures C * a <= C * b
  {
    S.TimesMono(a, b, C);
    assert C * a == a * C && C * b == b * C;
  }

  lemma SpansApart(cfg: Config, o: nat, k: nat, lo: nat, hi: nat, p: nat, l: nat, low: nat, high: nat)
    requires Spans(cfg, o, k, lo, hi) && Spans(cfg, p, l, low, high) && (hi <= low || high <= lo)
    ensures Apart(o, k, p, l)
  {
    hide ChunkSize;
    if hi <= low { Ordered(ChunkSize(cfg), hi, low); } else { Ordered(ChunkSize(cfg), high, lo); }
  }

  lemma SmallSpans(cfg: Config, t: Table, o: nat, n: nat)
    requires ValidConfig(cfg) && TableOk(cfg, t) && IsSmall(cfg, t, o, n)
    ensures var c := ChunkOf(cfg, o);
            Spans(cfg, o, SizeFor(cfg, n), c, c + 1) && c < |t| && t[c].Small? && t[c].marked != {}
  {
    hide BinFor, ObjectSize, Slots;
    var c, b := ChunkOf(cfg, o), BinFor(cfg, n);
    SlottedFacts(cfg, t, o, b);
    Decode(cfg, c, b, SlotOf(cfg, b, o));
  }

  lemma LargeSpans(cfg: Config, t: Table, o: nat, n: nat)
    requires ValidConfig(cfg) && TableOk(cfg, t) && IsLarge(cfg, t, o, n)
    ensures var h, k := ChunkOf(cfg, o), RunLength(cfg, BinFor(cfg, n));
            && Spans(cfg, o, SizeFor(cfg, n), h, h + k) && h + k <= |t|
            && forall c :: h <= c < h + k ==> InRun(cfg, t, h, c) && (t[c].Head? || t[c].Body?)
  {
    hide BinFor, ObjectSize, RunLength, ChunkOf;
    var h, b := ChunkOf(cfg, o), BinFor(cfg, n);
    LargeObjects(cfg, b);
    EntryFromTable(cfg, t, h);
    assert ChunkSize(cfg) * (h + RunLength(cfg, b)) == ChunkSize(cfg) * h + RunLength(cfg, b) * ChunkSize(cfg);
  }

  lemma SmallApart(cfg: Config, t: Table, o: nat, n: nat, p: nat, m: nat)
    requires ValidConfig(cfg) && TableOk(cfg, t) && IsSmall(cfg, t, o, n) && IsSmall(cfg, t, p, m) && o != p
    ensures Apart(o, SizeFor(cfg, n), p, SizeFor(cfg, m))
  {
    hide BinFor, ObjectSize, Slots, SlotOf, ChunkOf;
    SmallSpans(cfg, t, o, n);
    SmallSpans(cfg, t, p, m);
    var c, d := ChunkOf(cfg, o), ChunkOf(cfg, p);
    if c != d {
      SpansApart(cfg, o, SizeFor(cfg, n), c, c + 1, p, SizeFor(cfg, m), d, d + 1);
    } else {
      var b := BinFor(cfg, n);
      SlotsApart(ObjectSize(cfg, b), SlotOf(cfg, b, o), SlotOf(cfg, b, p));
    }
  }

  lemma SlotsApart(s: nat, j: nat, k: nat)
    requires j != k
    ensures Apart(s * j, s, s * k, s)
  {
    if j < k {
      assert s * (j + 1) <= s * k;
    } else {
      assert s * (k + 1) <= s * j;
    }
  }

  lemma LargeApart(cfg: Config, t: Table, o: nat, n: nat, p: nat, m: nat)
    requires ValidConfig(cfg) && TableOk(cfg, t) && IsLarge(cfg, t, o, n) && IsLarge(cfg, t, p, m) && o != p
    ensures Apart(o, SizeFor(cfg, n), p, SizeFor(cfg, m))
  {
    hide BinFor, ObjectSize, RunLength, ChunkOf, TableOk, ChunkSize;
    LargeSpans(cfg, t, o, n);
    LargeSpans(cfg, t, p, m);
    var h, g := ChunkOf(cfg, o), ChunkOf(cfg, p);
    var k, l := RunLength(cfg, BinFor(cfg, n)), RunLength(cfg, BinFor(cfg, m));
    if h < g + l && g < h + k {
      var c := if h < g then g else h;
      RunsDisjoint(cfg, t, h, g, c);
      assert false;
    }
    SpansApart(cfg, o, SizeFor(cfg, n), h, h + k, p, SizeFor(cfg, m), g, g + l);
  }

  lemma MixedApart(cfg: Config, t: Table, o: nat, n: nat, p: nat, m: nat)
    requires ValidConfig(cfg) && TableOk(cfg, t) && IsSmall(cfg, t, o, n) && IsLarge(cfg, t, p, m)
    ensures Apart(o, SizeFor(cfg, n), p, SizeFor(cfg, m))
  {
    hide BinFor, ObjectSize, RunLength, ChunkOf, TableOk, ChunkSize;
    SmallSpans(cfg, t, o, n);
    LargeSpans(cfg, t, p, m);
    var c, h, k := ChunkOf(cfg, o), ChunkOf(cfg, p), RunLength(cfg, BinFor(cfg, m));
    assert !(h <= c < h + k);
    SpansApart(cfg, o, SizeFor(cfg, n), c, c + 1, p, SizeFor(cfg, m), h, h + k);
  }

  /** The promise to the client: what it holds never overlaps, is large enough and lies in the segment. */
  ghost predicate Safe(cfg: Config, w: World)
    requires ValidConfig(cfg)
  {
    var live := w.small + w.large;
    && (forall o :: o in live ==> Fits(cfg, w, o, live[o]))
    && forall o, p :: o in live && p in live && o != p ==> Apart(o, SizeFor(cfg, live[o]), p, SizeFor(cfg, live[p]))
  }

  lemma WorldIsSafe(s: Setup, w: World)
    requires WorldOk(s, w)
    ensures Safe(s.cfg, w)
  {
    hide InvBut, MarkedSet, ValidConfig, TableOk, CachesOk, AllCached, BinFor, IsSmall, IsLarge, SizeFor, Apart;
    var cfg, t, live := s.cfg, w.g.table, w.small + w.large;
    forall o | o in live ensures Fits(cfg, w, o, live[o]) && (o in w.small ==> o !in w.large) {
      DeallocateBranch(s, w, o);
      if o in w.small { SmallFits(s, w, o); } else { LargeFits(s, w, o); }
    }
    forall o, p | o in live && p in live && o != p
      ensures Apart(o, SizeFor(cfg, live[o]), p, SizeFor(cfg, live[p]))
    {
      if o in w.small {
        assert IsSmall(cfg, t, o, live[o]);
        if p in w.small {
          SmallApart(cfg, t, o, live[o], p, live[p]);
        } else {
          MixedApart(cfg, t, o, live[o], p, live[p]);
        }
      } else if p in w.small {
        MixedApart(cfg, t, p, live[p], o, live[o]);
        ApartBoth(o, SizeFor(cfg, live[o]), p, SizeFor(cfg, live[p]));
      } else {
        LargeApart(cfg, t, o, live[o], p, live[p]);
      }
    }
  }

  lemma ApartBoth(o: nat, k: nat, p: nat, l: nat)
    ensures Apart(o, k, p, l) == Apart(p, l, o, k)
  {}

  lemma SmallFits(s: Setup, w: World, o: nat)
    requires WorldOk(s, w) && o in w.small
    ensures Fits(s.cfg, w, o, w.small[o])
  {
    hide BinFor, ObjectSize, MarkedSet, AllCached, CachesOk, ListsOk, LargeOk, Slotted;
    var cfg, n, c := s.cfg, w.small[o], ChunkOf(s.cfg, o);
    assert IsSmall(cfg, w.g.table, o, n);
    SmallSpans(cfg, w.g.table, o, n);
    SizeIsEnough(cfg, n);
    assert EndOf(cfg, c) <= w.g.segment;
    assert EndOf(cfg, c) == ChunkSize(cfg) * (c + 1);
  }

  lemma LargeFits(s: Setup, w: World, o: nat)
    requires WorldOk(s, w) && o in w.large
    ensures Fits(s.cfg, w, o, w.large[o])
  {
    hide BinFor, ObjectSize, MarkedSet, AllCached, CachesOk, ListsOk, SmallOk, RunLength;
    var cfg, n := s.cfg, w.large[o];
    var h, k := ChunkOf(cfg, o), RunLength(cfg, BinFor(cfg, n));
    assert IsLarge(cfg, w.g.table, o, n);
    LargeSpans(cfg, w.g.table, o, n);
    SizeIsEnough(cfg, n);
    var last := h + k - 1;
    assert !w.g.table[last].Unused?;
    assert EndOf(cfg, last) <= w.g.segment;
    assert EndOf(cfg, last) == ChunkSize(cfg) * (last + 1);
  }
}
