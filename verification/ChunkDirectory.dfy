/** The chunk directory as it is stored: an array of entries scanned and changed in place, and the
    number of the last used chunk (include/metall/kernel/chunk_directory.hpp). */
module ChunkDirectory {
  import opened FreeSlots
  import opened ChunkTable
  import opened Text
  import B = MultilayerBitset
  import S = SizeClasses
  import U = Utilities

  datatype ChunkType = UnusedChunk | SmallChunk | LargeChunkHead | LargeChunkBody

  datatype Entry = Entry(binNo: nat, kind: ChunkType, numOccupiedSlots: nat, slotOccupancy: seq<bv64>)

  const INIT: Entry := Entry(0, UnusedChunk, 0, [])

  /** `init`, which leaves the bin number as it is. */
  function Init(e: Entry): Entry { Entry(e.binNo, UnusedChunk, 0, []) }

  ghost predicate EntryValid(cfg: Config, e: Entry)
    requires ValidConfig(cfg)
  {
    e.kind.SmallChunk? ==>
      && e.binNo < SmallBins(cfg)
      && B.ValidBits(Slots(cfg, e.binNo), e.slotOccupancy)
      && e.numOccupiedSlots == |B.MarkedBits(Slots(cfg, e.binNo), e.slotOccupancy)|
  }

  ghost function ChunkOf(cfg: Config, e: Entry): Chunk
    requires ValidConfig(cfg) && EntryValid(cfg, e)
  {
    match e.kind
    case UnusedChunk => Unused
    case SmallChunk => Small(e.binNo, B.MarkedBits(Slots(cfg, e.binNo), e.slotOccupancy))
    case LargeChunkHead => Head(e.binNo)
    case LargeChunkBody => Body(e.binNo)
  }

  ghost predicate EntriesValid(cfg: Config, es: seq<Entry>)
    requires ValidConfig(cfg)
  {
    forall i :: 0 <= i < |es| ==> EntryValid(cfg, es[i])
  }

  ghost function TableOf(cfg: Config, es: seq<Entry>): (t: Table)
    requires ValidConfig(cfg) && EntriesValid(cfg, es)
    ensures |t| == |es| && forall i :: 0 <= i < |es| ==> t[i] == ChunkOf(cfg, es[i])
  {
    seq(|es|, i requires 0 <= i < |es| => ChunkOf(cfg, es[i]))
  }

  lemma PutEntry(cfg: Config, es: seq<Entry>, i: nat, e: Entry)
    requires ValidConfig(cfg) && EntriesValid(cfg, es) && i < |es| && EntryValid(cfg, e)
    ensures EntriesValid(cfg, es[i := e])
    ensures TableOf(cfg, es[i := e]) == TableOf(cfg, es)[i := ChunkOf(cfg, e)]
  {
    hide EntryValid, ChunkOf;
  }

  lemma InitChunk(cfg: Config, e: Entry)
    requires ValidConfig(cfg)
    ensures EntryValid(cfg, Init(e)) && ChunkOf(cfg, Init(e)) == Unused
  {}

  lemma KindOf(cfg: Config, es: seq<Entry>, i: nat)
    requires ValidConfig(cfg) && EntriesValid(cfg, es) && i < |es|
    ensures var t := TableOf(cfg, es);
            && (es[i].kind.UnusedChunk? <==> t[i].Unused?)
            && (es[i].kind.SmallChunk? <==> t[i].Small?)
            && (es[i].kind.LargeChunkHead? <==> t[i].Head?)
            && (es[i].kind.LargeChunkBody? <==> t[i].Body?)
            && (!t[i].Unused? ==> es[i].binNo == t[i].bin)
  {}

  lemma SmallEntry(cfg: Config, es: seq<Entry>, i: nat)
    requires ValidConfig(cfg) && EntriesValid(cfg, es) && i < |es| && es[i].kind.SmallChunk?
    ensures es[i].binNo < SmallBins(cfg) && B.ValidBits(Slots(cfg, es[i].binNo), es[i].slotOccupancy)
    ensures var marked := B.MarkedBits(Slots(cfg, es[i].binNo), es[i].slotOccupancy);
            TableOf(cfg, es)[i] == Small(es[i].binNo, marked) && es[i].numOccupiedSlots == |marked|
  {
    hide B.ValidBits, B.MarkedBits, Slots;
  }

  // ---------- Saving and restoring ---------- //

  function KindNo(k: ChunkType): (n: nat)
    ensures n <= 3
  {
    match k
    case UnusedChunk => 0
    case SmallChunk => 1
    case LargeChunkHead => 2
    case LargeChunkBody => 3
  }

  function SmallPart(e: Entry): string {
    " " + Decimal(e.numOccupiedSlots) + " " + Numbers(B.Nats(e.slotOccupancy))
  }

  /** The row of a used chunk. */
  function EntryRow(c: nat, e: Entry): string {
    Decimal(c) + " " + Decimal(e.binNo) + " " + Decimal(KindNo(e.kind)) +
    (if e.kind.SmallChunk? then SmallPart(e) else "") + "\n"
  }

  /** The file: one row per used chunk. */
  function SaveChunks(es: seq<Entry>): string {
    if es == [] then ""
    else SaveChunks(es[..|es| - 1]) + (if es[|es| - 1].kind.UnusedChunk? then "" else EntryRow(|es| - 1, es[|es| - 1]))
  }

  datatype Loaded = Loaded(entries: seq<Entry>, last: int)

  datatype LoadStep = Done(ok: bool) | Next(state: Loaded, rest: string)

  function Later(c: nat, last: int): int { if last < c then c else last }

  /** The words of a small chunk's bitmap. */
  ghost function WordCount(cfg: Config, bin: nat): nat
    requires ValidConfig(cfg) && bin < SmallBins(cfg)
  {
    SmallObjects(cfg, bin);
    B.NumAllBlocks(Slots(cfg, bin))
  }

  ghost function LoadSmall(cfg: Config, st: Loaded, c: nat, bin: nat, s: string): (r: LoadStep)
    requires ValidConfig(cfg) && c < |st.entries|
    ensures r.Next? ==> |r.rest| <= |s| && |r.state.entries| == |st.entries|
  {
    if bin >= SmallBins(cfg) then Done(false) else
    var count := ReadNumber(s);
    if count.Failed? || Slots(cfg, bin) < count.n then Done(false) else
    var (line, rest) := GetLine(count.rest);
    if line == "" || line[0] != ' ' then Done(false) else
    var ns := ReadNumbers(line[1..]);
    if |ns| != WordCount(cfg, bin) then Done(false)
    else Next(Loaded(st.entries[c := Entry(bin, SmallChunk, count.n, B.Words(ns))], Later(c, st.last)), rest)
  }

  /** One turn of the loop of `deserialize`. */
  ghost function LoadRow(cfg: Config, st: Loaded, s: string): (r: LoadStep)
    requires ValidConfig(cfg)
    ensures r.Next? ==> |r.rest| < |s| && |r.state.entries| == |st.entries|
  {
    var c := ReadNumber(s);
    if c.Failed? then Done(AtEnd(s)) else
    var bin := ReadNumber(c.rest);
    if bin.Failed? then Done(AtEnd(c.rest)) else
    var kind := ReadNumber(bin.rest);
    if kind.Failed? then Done(AtEnd(bin.rest))
    else if |st.entries| <= c.n then Done(false)
    else if kind.n == 1 then LoadSmall(cfg, st, c.n, bin.n, kind.rest)
    else if kind.n == 2 || kind.n == 3 then
      var e := st.entries[c.n].(binNo := bin.n, kind := if kind.n == 2 then LargeChunkHead else LargeChunkBody);
      Next(Loaded(st.entries[c.n := e], Later(c.n, st.last)), kind.rest)
    else Done(false)
  }

  ghost function LoadChunks(cfg: Config, st: Loaded, s: string): (r: (bool, Loaded))
    requires ValidConfig(cfg)
    ensures |r.1.entries| == |st.entries|
    decreases |s|
  {
    match LoadRow(cfg, st, s)
    case Done(ok) => (ok, st)
    case Next(next, rest) => LoadChunks(cfg, next, rest)
  }

  /** What a fresh entry becomes when the row of e is read. */
  function Restored(e: Entry): Entry {
    match e.kind
    case UnusedChunk => INIT
    case SmallChunk => e
    case _ => INIT.(binNo := e.binNo, kind := e.kind)
  }

  /** The numbers of a used entry fit the file; an unused one is not written. */
  ghost predicate WritableEntry(cfg: Config, e: Entry)
    requires ValidConfig(cfg)
  {
    EntryValid(cfg, e) && (!e.kind.UnusedChunk? ==> e.binNo <= UINT64_MAX)
  }

  lemma LoadEntry(cfg: Config, st: Loaded, c: nat, e: Entry, rest: string)
    requires ValidConfig(cfg) && WritableEntry(cfg, e) && !e.kind.UnusedChunk?
    requires c < |st.entries| && c <= UINT64_MAX && st.entries[c] == INIT
    ensures LoadChunks(cfg, st, EntryRow(c, e) + rest) ==
            LoadChunks(cfg, Loaded(st.entries[c := Restored(e)], Later(c, st.last)), rest)
  {
    hide Decimal, ReadNumber, LoadSmall, SmallPart, EntryValid;
    var end := (if e.kind.SmallChunk? then SmallPart(e) else "") + "\n" + rest;
    var text := EntryRow(c, e) + rest;
    ThreeNumbers(c, e, rest);
    var next := Loaded(st.entries[c := Restored(e)], Later(c, st.last));
    if e.kind.SmallChunk? {
      LoadSmallPart(cfg, st, c, e, rest);
      assert LoadRow(cfg, st, text) == Next(next, rest);
    } else {
      assert end == "\n" + rest;
      assert LoadRow(cfg, st, text) == Next(next, end);
      ChunksAfterSpace(cfg, next, '\n', rest);
    }
  }

  /** The three numbers a row starts with. */
  lemma ThreeNumbers(c: nat, e: Entry, rest: string)
    requires c <= UINT64_MAX && e.binNo <= UINT64_MAX
    ensures var r := ReadNumber(EntryRow(c, e) + rest);
            && r.Got? && r.n == c
            && var r1 := ReadNumber(r.rest);
            && r1.Got? && r1.n == e.binNo
            && ReadNumber(r1.rest) ==
               Got(KindNo(e.kind), (if e.kind.SmallChunk? then SmallPart(e) else "") + "\n" + rest)
  {
    hide Decimal, ReadNumber, SmallPart;
    var end := (if e.kind.SmallChunk? then SmallPart(e) else "") + "\n" + rest;
    EndNotDigit(e, rest);
    var kind := Decimal(KindNo(e.kind)) + end;
    var bin := Decimal(e.binNo) + (" " + kind);
    assert EntryRow(c, e) + rest == Decimal(c) + (" " + bin);
    ReadDecimal(c, " " + bin);
    ReadAfterSpace(' ', bin);
    ReadDecimal(e.binNo, " " + kind);
    ReadAfterSpace(' ', kind);
    ReadDecimal(KindNo(e.kind), end);
  }

  lemma EndNotDigit(e: Entry, rest: string)
    ensures var end := (if e.kind.SmallChunk? then SmallPart(e) else "") + "\n" + rest;
            end != "" && !IsDigit(end[0])
  {
    hide Decimal, Numbers;
  }

  lemma ChunksAfterSpace(cfg: Config, st: Loaded, c: char, s: string)
    requires ValidConfig(cfg) && IsSpace(c)
    ensures LoadChunks(cfg, st, [c] + s) == LoadChunks(cfg, st, s)
  {
    hide ReadNumber, LoadSmall;
    ReadAfterSpace(c, s);
  }

  lemma LoadSmallPart(cfg: Config, st: Loaded, c: nat, e: Entry, rest: string)
    requires ValidConfig(cfg) && WritableEntry(cfg, e) && e.kind.SmallChunk? && c < |st.entries|
    ensures LoadSmall(cfg, st, c, e.binNo, SmallPart(e) + "\n" + rest) ==
            Next(Loaded(st.entries[c := e], Later(c, st.last)), rest)
  {
    hide Decimal, ReadNumber, Numbers, GetLine, ReadNumbers, B.ValidBits, B.MarkedBits, WordCount, Slots, B.Nats,
      B.Words;
    CountFits(cfg, e);
    SmallNumbers(e.numOccupiedSlots, B.Nats(e.slotOccupancy), rest);
    B.WordsOfNats(e.slotOccupancy);
  }

  /** The count and the words of a small chunk's row. */
  lemma SmallNumbers(count: nat, ns: seq<nat>, rest: string)
    requires count <= UINT64_MAX && forall i :: 0 <= i < |ns| ==> ns[i] <= UINT64_MAX
    ensures var line := " " + Numbers(ns);
            && ReadNumber(" " + Decimal(count) + " " + Numbers(ns) + "\n" + rest) == Got(count, line + "\n" + rest)
            && GetLine(line + "\n" + rest) == (line, rest) && ReadNumbers(line[1..]) == ns
  {
    hide Decimal, ReadNumber, Numbers, GetLine, ReadNumbers;
    var line := " " + Numbers(ns);
    var tail := line + "\n" + rest;
    assert " " + Decimal(count) + " " + Numbers(ns) + "\n" + rest == " " + (Decimal(count) + tail);
    ReadAfterSpace(' ', Decimal(count) + tail);
    ReadDecimal(count, tail);
    GetLineOf(line, rest);
    assert line[1..] == Numbers(ns);
    ReadNumbersOf(ns);
  }

  /** The number of occupied slots is at most the number of slots. */
  lemma CountFits(cfg: Config, e: Entry)
    requires ValidConfig(cfg) && EntryValid(cfg, e) && e.kind.SmallChunk?
    ensures e.numOccupiedSlots <= Slots(cfg, e.binNo) <= UINT64_MAX
    ensures 1 <= Slots(cfg, e.binNo) <= U.Pow2(24) && |e.slotOccupancy| == WordCount(cfg, e.binNo)
  {
    hide B.ValidBits, B.MarkedBits, B.NumAllBlocks, Slots;
    SmallObjects(cfg, e.binNo);
    var n := Slots(cfg, e.binNo);
    Within(B.MarkedBits(n, e.slotOccupancy), n);
    U.Powers();
  }

  /** Restored entries, then fresh ones. */
  function Reread(es: seq<Entry>, n: nat): (r: seq<Entry>)
    requires |es| <= n
    ensures |r| == n && forall i :: 0 <= i < n ==> r[i] == if i < |es| then Restored(es[i]) else INIT
  {
    seq(|es|, i requires 0 <= i < |es| => Restored(es[i])) + seq(n - |es|, _ => INIT)
  }

  function LastKept(es: seq<Entry>): int {
    if es == [] then -1
    else if es[|es| - 1].kind.UnusedChunk? then LastKept(es[..|es| - 1])
    else Later(|es| - 1, LastKept(es[..|es| - 1]))
  }

  lemma {:induction false} LoadSaved(cfg: Config, es: seq<Entry>, n: nat, rest: string)
    requires ValidConfig(cfg) && |es| <= n <= UINT64_MAX && forall i :: 0 <= i < |es| ==> WritableEntry(cfg, es[i])
    ensures LoadChunks(cfg, Loaded(Reread([], n), -1), SaveChunks(es) + rest) ==
            LoadChunks(cfg, Loaded(Reread(es, n), LastKept(es)), rest)
    decreases |es|
  {
    hide LoadChunks, EntryRow, WritableEntry;
    if es == [] {
      assert SaveChunks(es) + rest == rest;
    } else {
      var k := |es| - 1;
      var e := es[k];
      var row := if e.kind.UnusedChunk? then "" else EntryRow(k, e);
      assert SaveChunks(es) + rest == SaveChunks(es[..k]) + (row + rest);
      LoadSaved(cfg, es[..k], n, row + rest);
      var mid := Loaded(Reread(es[..k], n), LastKept(es[..k]));
      if e.kind.UnusedChunk? {
        assert row + rest == rest;
        assert Reread(es[..k], n) == Reread(es, n);
      } else {
        LoadEntry(cfg, mid, k, e, rest);
        assert mid.entries[k := Restored(e)] == Reread(es, n);
      }
    }
  }

  lemma {:induction false} LastKeptIs(cfg: Config, es: seq<Entry>)
    requires ValidConfig(cfg) && EntriesValid(cfg, es)
    ensures LastKept(es) == LastUsed(TableOf(cfg, es))
    decreases |es|
  {
    hide EntryValid;
    if es != [] {
      var k := |es| - 1;
      LastKeptIs(cfg, es[..k]);
      KindOf(cfg, es, k);
      assert TableOf(cfg, es)[..k] == TableOf(cfg, es[..k]);
    }
  }

  lemma RestoredSame(cfg: Config, e: Entry)
    requires ValidConfig(cfg) && EntryValid(cfg, e)
    ensures EntryValid(cfg, Restored(e)) && ChunkOf(cfg, Restored(e)) == ChunkOf(cfg, e)
  {
    hide B.ValidBits, B.MarkedBits, Slots;
  }

  /** Reading back what was saved gives the same table, with the same bins, bitmaps and counts, and the same
      high-water mark. */
  lemma ChunksRoundTrip(cfg: Config, es: seq<Entry>)
    requires ValidConfig(cfg) && |es| <= UINT64_MAX && forall i :: 0 <= i < |es| ==> WritableEntry(cfg, es[i])
    ensures var (ok, st) := LoadChunks(cfg, Loaded(Reread([], |es|), -1), SaveChunks(es));
            && ok && st.entries == Reread(es, |es|)
            && EntriesValid(cfg, es) && EntriesValid(cfg, st.entries) && TableOf(cfg, st.entries) == TableOf(cfg, es)
            && st.last == LastUsed(TableOf(cfg, es))
  {
    hide SaveChunks, EntryValid, ChunkOf, Restored, LastUsed, LastKept, ReadNumber;
    LoadSaved(cfg, es, |es|, "");
    assert SaveChunks(es) + "" == SaveChunks(es);
    ReadNothing("");
    assert EntriesValid(cfg, es);
    LastKeptIs(cfg, es);
    var rs := Reread(es, |es|);
    forall i | 0 <= i < |rs| ensures EntryValid(cfg, rs[i]) && ChunkOf(cfg, rs[i]) == ChunkOf(cfg, es[i]) {
      RestoredSame(cfg, es[i]);
    }
  }

  // ---------- The text itself ---------- //

  /** The row of a chunk as numbers: the chunk, its bin, its kind (1 small, 2 head, 3 body of a large object), and for
      a small one the number of marked slots and the words of the bitmap. */
  function ChunkRow(c: nat, e: Entry): seq<nat> {
    match e.kind
    case UnusedChunk => []
    case SmallChunk => [c, e.binNo, 1, e.numOccupiedSlots] + B.Nats(e.slotOccupancy)
    case LargeChunkHead => [c, e.binNo, 2]
    case LargeChunkBody => [c, e.binNo, 3]
  }

  /** The rows of the file: those of the used chunks, in their order. */
  function ChunkRows(es: seq<Entry>): seq<seq<nat>> {
    if es == [] then [] else
    var k := |es| - 1;
    ChunkRows(es[..k]) + (if es[k].kind.UnusedChunk? then [] else [ChunkRow(k, es[k])])
  }

  lemma ThreeAre(a: nat, b: nat, c: nat)
    ensures Numbers([a, b, c]) == Decimal(a) + " " + Decimal(b) + " " + Decimal(c)
  {
    hide Decimal;
    assert [a, b][..1] == [a];
    assert Numbers([a, b]) == Decimal(a) + " " + Decimal(b);
    assert [a, b, c][..2] == [a, b];
  }

  lemma EntryRowIs(c: nat, e: Entry)
    requires !e.kind.UnusedChunk? && (e.kind.SmallChunk? ==> e.slotOccupancy != [])
    ensures EntryRow(c, e) == Numbers(ChunkRow(c, e)) + "\n"
  {
    hide Decimal, Numbers, B.Nats;
    if e.kind.SmallChunk? {
      var ns := B.Nats(e.slotOccupancy);
      FourAre(c, e.binNo, 1, e.numOccupiedSlots);
      NumbersConcat([c, e.binNo, 1, e.numOccupiedSlots], ns);
    } else {
      ThreeAre(c, e.binNo, if e.kind.LargeChunkHead? then 2 else 3);
    }
  }

  lemma FourAre(a: nat, b: nat, c: nat, d: nat)
    ensures Numbers([a, b, c, d]) == Decimal(a) + " " + Decimal(b) + " " + Decimal(c) + " " + Decimal(d)
  {
    hide Decimal;
    ThreeAre(a, b, c);
    assert [a, b, c, d][..3] == [a, b, c];
  }

  lemma WordsThere(cfg: Config, e: Entry)
    requires ValidConfig(cfg) && WritableEntry(cfg, e) && e.kind.SmallChunk?
    ensures e.slotOccupancy != [] && e.numOccupiedSlots <= UINT64_MAX
  {
    hide B.ValidBits, B.MarkedBits, Slots, WordCount;
    CountFits(cfg, e);
    B.BlockCount(Slots(cfg, e.binNo), e.slotOccupancy);
  }

  lemma EntryLine(cfg: Config, c: nat, e: Entry, rest: string)
    requires ValidConfig(cfg) && WritableEntry(cfg, e) && !e.kind.UnusedChunk?
    ensures Lines(EntryRow(c, e) + rest) == [Numbers(ChunkRow(c, e))] + Lines(rest)
  {
    hide EntryRow, Lines, Numbers, WritableEntry, ChunkRow, ValidConfig;
    if e.kind.SmallChunk? { WordsThere(cfg, e); }
    EntryRowIs(c, e);
    FirstLine(Numbers(ChunkRow(c, e)), rest);
  }

  lemma {:induction false} ChunkLinesFrom(cfg: Config, es: seq<Entry>, rest: string)
    requires ValidConfig(cfg) && forall i :: 0 <= i < |es| ==> WritableEntry(cfg, es[i])
    ensures Lines(SaveChunks(es) + rest) == RowLines(ChunkRows(es)) + Lines(rest)
    decreases |es|
  {
    hide EntryRow, Lines, Numbers, WritableEntry, ChunkRow, ValidConfig, RowLines;
    if es == [] {
      assert SaveChunks(es) + rest == rest && RowLines([]) == [];
    } else {
      var k := |es| - 1;
      var row := if es[k].kind.UnusedChunk? then "" else EntryRow(k, es[k]);
      assert SaveChunks(es) + rest == SaveChunks(es[..k]) + (row + rest);
      ChunkLinesFrom(cfg, es[..k], row + rest);
      if es[k].kind.UnusedChunk? {
        assert row + rest == rest;
      } else {
        EntryLine(cfg, k, es[k], rest);
        OneMoreRow(ChunkRows(es[..k]), ChunkRow(k, es[k]), Lines(rest));
      }
    }
  }

  lemma {:induction false} ChunkRowsFit(cfg: Config, es: seq<Entry>, i: nat)
    requires ValidConfig(cfg) && |es| <= UINT64_MAX && forall i :: 0 <= i < |es| ==> WritableEntry(cfg, es[i])
    requires i < |ChunkRows(es)|
    ensures forall j :: 0 <= j < |ChunkRows(es)[i]| ==> ChunkRows(es)[i][j] <= UINT64_MAX
    decreases |es|
  {
    hide WritableEntry;
    var k := |es| - 1;
    if i < |ChunkRows(es[..k])| {
      ChunkRowsFit(cfg, es[..k], i);
    } else {
      RowFits(cfg, k, es[k]);
    }
  }

  lemma RowFits(cfg: Config, c: nat, e: Entry)
    requires ValidConfig(cfg) && WritableEntry(cfg, e) && c <= UINT64_MAX
    ensures forall j :: 0 <= j < |ChunkRow(c, e)| ==> ChunkRow(c, e)[j] <= UINT64_MAX
  {
    hide EntryValid, B.Nats;
    if e.kind.SmallChunk? { WordsThere(cfg, e); }
  }

  /** The file has one line for each used chunk, in order, with the numbers of its row. */
  lemma SavedChunkLines(cfg: Config, es: seq<Entry>)
    requires ValidConfig(cfg) && |es| <= UINT64_MAX && forall i :: 0 <= i < |es| ==> WritableEntry(cfg, es[i])
    ensures var ls, rows := Lines(SaveChunks(es)), ChunkRows(es);
            |ls| == |rows| && forall i :: 0 <= i < |ls| ==> ls[i] == Numbers(rows[i]) && ReadNumbers(ls[i]) == rows[i]
  {
    hide SaveChunks, Numbers, ReadNumbers, ChunkRows, WritableEntry;
    ChunkLinesFrom(cfg, es, "");
    assert SaveChunks(es) + "" == SaveChunks(es) && Lines("") == [];
    var ls := Lines(SaveChunks(es));
    assert ls == RowLines(ChunkRows(es));
    forall i | 0 <= i < |ls| ensures ReadNumbers(ls[i]) == ChunkRows(es)[i] {
      ChunkRowsFit(cfg, es, i);
      ReadNumbersOf(ChunkRows(es)[i]);
    }
  }

  lemma LoadBlankLine(cfg: Config, st: Loaded, l: string, rest: string)
    requires ValidConfig(cfg) && OneLine(l) && Blank(l)
    ensures LoadChunks(cfg, st, l + "\n" + rest) == LoadChunks(cfg, st, rest)
  {
    hide ReadNumber, AtEnd, LoadSmall;
    ReadInLine(l, rest);
  }

  /** The three numbers a line starts with. */
  lemma LineStarts(l: string, c: nat, bin: nat, kind: nat, rest: string) returns (tail: string)
    requires OneLine(l) && HoldsNumbers(l, [c, bin, kind])
    ensures var s := l + "\n" + rest;
            && ReadNumber(s).Got? && ReadNumber(s).n == c
            && var r := ReadNumber(ReadNumber(s).rest);
            && r.Got? && r.n == bin && ReadNumber(r.rest) == Got(kind, tail + "\n" + rest)
    ensures OneLine(tail) && Blank(tail)
  {
    hide ReadNumber, Blank, OneLine, HoldsNumbers;
    assert [c, bin, kind][1..] == [bin, kind] && [bin, kind][1..] == [kind] && [kind][1..] == [];
    FirstNumber(l, [c, bin, kind]);
    ReadInLine(l, rest);
    var l1 := ReadNumber(l).rest;
    FirstNumber(l1, [bin, kind]);
    ReadInLine(l1, rest);
    var l2 := ReadNumber(l1).rest;
    FirstNumber(l2, [kind]);
    ReadInLine(l2, rest);
    tail := ReadNumber(l2).rest;
    NoNumber(tail);
  }

  /** A line with a chunk, a bin and kind 2 or 3 makes the chunk the head or the body of a large object of that bin;
      one with another kind, except 1, is refused. */
  lemma LoadLargeLine(cfg: Config, st: Loaded, l: string, c: nat, bin: nat, kind: nat, rest: string)
    requires ValidConfig(cfg) && OneLine(l) && HoldsNumbers(l, [c, bin, kind]) && kind != 1
    ensures LoadChunks(cfg, st, l + "\n" + rest) ==
            if c < |st.entries| && (kind == 2 || kind == 3) then
              var e := st.entries[c].(binNo := bin, kind := if kind == 2 then LargeChunkHead else LargeChunkBody);
              LoadChunks(cfg, Loaded(st.entries[c := e], if st.last < c then c else st.last), rest)
            else (false, st)
  {
    hide ReadNumber, Blank, OneLine, HoldsNumbers, LoadSmall, AtEnd;
    var tail := LineStarts(l, c, bin, kind, rest);
    if c < |st.entries| && (kind == 2 || kind == 3) {
      var e := st.entries[c].(binNo := bin, kind := if kind == 2 then LargeChunkHead else LargeChunkBody);
      LoadBlankLine(cfg, Loaded(st.entries[c := e], Later(c, st.last)), tail, rest);
    }
  }

  /** A line with a chunk, a bin, kind 1, a count and words makes it a small chunk with that count and bitmap, if bin,
      count and number of words are possible. */
  lemma LoadSmallLine(cfg: Config, st: Loaded, c: nat, bin: nat, count: nat, words: seq<bv64>, rest: string)
    requires ValidConfig(cfg) && c <= UINT64_MAX && bin <= UINT64_MAX && count <= UINT64_MAX && words != []
    ensures LoadChunks(cfg, st, Numbers([c, bin, 1, count] + B.Nats(words)) + "\n" + rest) ==
            if c < |st.entries| && bin < SmallBins(cfg) && count <= Slots(cfg, bin)
               && |words| == WordCount(cfg, bin) then
              var e := Entry(bin, SmallChunk, count, words);
              LoadChunks(cfg, Loaded(st.entries[c := e], if st.last < c then c else st.last), rest)
            else (false, st)
  {
    hide ReadNumber, GetLine, ReadNumbers, Decimal, Numbers, AtEnd, WordCount, Slots, B.Words, B.Nats;
    var e, ws := Entry(bin, SmallChunk, count, words), B.Nats(words);
    B.WordsOfNats(words);
    EntryRowIs(c, e);
    ThreeNumbers(c, e, rest);
    SmallNumbers(count, ws, rest);
    assert SmallPart(e) + "\n" + rest == " " + Decimal(count) + " " + Numbers(ws) + "\n" + rest;
  }

  /** A small entry with another bitmap and the count that goes with it. */
  lemma RemarkedEntry(cfg: Config, e: Entry, words: seq<bv64>, count: nat)
    requires ValidConfig(cfg) && e.kind.SmallChunk? && e.binNo < SmallBins(cfg)
    requires B.ValidBits(Slots(cfg, e.binNo), words) && count == |B.MarkedBits(Slots(cfg, e.binNo), words)|
    ensures var e' := e.(slotOccupancy := words, numOccupiedSlots := count);
            EntryValid(cfg, e') && ChunkOf(cfg, e') == Small(e.binNo, B.MarkedBits(Slots(cfg, e.binNo), words))
  {
    hide B.ValidBits, B.MarkedBits, Slots;
  }

  /** The bitmap of a chunk of this bin has a bit at this position. */
  ghost predicate InBitmap(cfg: Config, bin: nat, slot: nat)
    requires ValidConfig(cfg)
  {
    bin < SmallBins(cfg) && (SmallObjects(cfg, bin); slot < B.Capacity(Slots(cfg, bin)))
  }

  /** Every slot has its bit; and so has the position after the last slot, unless the slots fill the chunk. */
  lemma SlotInBitmap(cfg: Config, bin: nat, slot: nat)
    requires ValidConfig(cfg) && bin < SmallBins(cfg)
    requires slot < Slots(cfg, bin) || (slot == Slots(cfg, bin) && slot * ObjectSize(cfg, bin) != ChunkSize(cfg))
    ensures InBitmap(cfg, bin, slot)
  {
    hide Slots, ObjectSize, ChunkSize, B.Capacity;
    SmallObjects(cfg, bin);
    var n := Slots(cfg, bin);
    B.CapacityFits(n);
    if slot == n && n == B.Capacity(n) {
      var j: nat :| j >= 3 && n == U.Pow2(j);
      PowerFills(cfg, bin, j);
    }
  }

  lemma PowerFills(cfg: Config, bin: nat, j: nat)
    requires ValidConfig(cfg) && bin < SmallBins(cfg) && j >= 3 && Slots(cfg, bin) == U.Pow2(j)
    ensures Slots(cfg, bin) * ObjectSize(cfg, bin) == ChunkSize(cfg)
  {
    hide U.Pow2, S.SmallClass;
    S.QuotientBounds(ChunkSize(cfg), ObjectSize(cfg, bin));
    assert (U.Pow2(j) + 1) * ObjectSize(cfg, bin) == U.Pow2(j) * ObjectSize(cfg, bin) + ObjectSize(cfg, bin);
    S.PowerOfSlots(cfg.m, bin, j);
  }

  /** n bits of a stored bitset are taken in bulk. */
  method MarkMany(words: seq<bv64>, size: nat, n: nat) returns (slots: seq<nat>, marked: seq<bv64>)
    requires B.ValidBits(size, words) && |B.MarkedBits(size, words)| + n <= size
    ensures B.ValidBits(size, marked) && slots == FirstFree(B.MarkedBits(size, words), n)
    ensures B.MarkedBits(size, marked) == B.MarkedBits(size, words) + Elements(slots)
    ensures |B.MarkedBits(size, marked)| == |B.MarkedBits(size, words)| + n
  {
    hide B.ValidBits, B.MarkedBits, FirstFree, Elements;
    var bits := new B.MultilayerBitset.FromWords(words);
    FirstFreeCount(B.MarkedBits(size, words), n);
    slots := bits.FindAndSetMany(size, n);
    marked := bits.words[..];
  }

  /** No entry comes twice. */
  ghost predicate Once(buf: seq<SlotRef>) { forall i, j :: 0 <= i < j < |buf| ==> buf[i] != buf[j] }

  lemma OnceNone()
    ensures Once([])
  {}

  lemma OnceConcat(buf: seq<SlotRef>, more: seq<SlotRef>)
    requires Once(buf) && (|more| == 1 || Once(more)) && forall r :: r in more ==> r !in buf
    ensures Once(buf + more)
  {
    var all := buf + more;
    forall i, j | 0 <= i < j < |all| ensures all[i] != all[j] {
      assert j >= |buf| ==> all[j] == more[j - |buf|] && all[j] in more;
      assert i < |buf| ==> all[i] == buf[i] && all[i] in buf;
    }
  }

  /** The chunks below n that belong to large objects. */
  ghost function LargeBelow(t: Table, n: nat): set<nat>
    requires n <= |t|
  {
    set c | 0 <= c < n && (t[c].Head? || t[c].Body?)
  }

  lemma LargeNone(t: Table)
    ensures LargeBelow(t, 0) == {}
  {}

  lemma LargeStep(t: Table, n: nat)
    requires n < |t|
    ensures |LargeBelow(t, n + 1)| == |LargeBelow(t, n)| + if t[n].Head? || t[n].Body? then 1 else 0
  {
    assert LargeBelow(t, n + 1) == LargeBelow(t, n) + if t[n].Head? || t[n].Body? then {n} else {};
  }

  lemma LargeEnd(t: Table, n: nat)
    requires n <= |t| && forall c :: n <= c < |t| ==> t[c] == Unused
    ensures LargeBelow(t, |t|) == LargeBelow(t, n)
    ensures |LargeBelow(t, n)| == 0 <==> forall c :: 0 <= c < |t| ==> !t[c].Head? && !t[c].Body?
  {
    assert forall c :: 0 <= c < |t| && (t[c].Head? || t[c].Body?) ==> c in LargeBelow(t, n);
  }

  class ChunkDirectory {
    const cfg: Config
    var table: array<Entry>
    var lastUsedChunkNo: int

    ghost predicate Valid()
      reads this, table
    {
      && ValidConfig(cfg)
      && table.Length == MaxChunks(cfg)
      && EntriesValid(cfg, table[..])
      && lastUsedChunkNo == LastUsed(TableOf(cfg, table[..]))
    }

    ghost function View(): (t: Table)
      requires Valid()
      reads this, table
      ensures |t| == table.Length
    {
      TableOf(cfg, table[..])
    }

    constructor (cfg: Config)
      requires ValidConfig(cfg)
      ensures Valid() && this.cfg == cfg && fresh(table)
      ensures forall c :: 0 <= c < |View()| ==> View()[c] == Unused
      ensures forall c :: 0 <= c < table.Length ==> table[c] == INIT
    {
      this.cfg := cfg;
      table := new Entry[MaxChunks(cfg)](_ => INIT);
      lastUsedChunkNo := -1;
      new;
      LastUsedUnique(TableOf(cfg, table[..]), -1);
    }

    /** `size`: one more than the last used chunk, not the number of used chunks. */
    function Size(): (n: nat)
      requires Valid()
      reads this, table
      ensures n <= |View()|
      ensures n > 0 ==> View()[n - 1] != Unused
      ensures forall c :: n <= c < |View()| ==> View()[c] == Unused
    {
      lastUsedChunkNo + 1
    }

    /** `find_next_used_chunk_backward`. */
    method FindNextUsedChunkBackward(start: nat) returns (chunkNo: int)
      requires ValidConfig(cfg) && EntriesValid(cfg, table[..]) && start < table.Length
      requires forall c :: start < c < table.Length ==> TableOf(cfg, table[..])[c] == Unused
      ensures chunkNo == LastUsed(TableOf(cfg, table[..]))
    {
      hide EntriesValid, TableOf, EntryValid, ChunkOf, LastUsed;
      ghost var t := TableOf(cfg, table[..]);
      chunkNo := start;
      while chunkNo >= 0
        invariant -1 <= chunkNo <= start
        invariant forall c :: chunkNo < c < |t| ==> t[c] == Unused
      {
        KindOf(cfg, table[..], chunkNo);
        if table[chunkNo].kind != UnusedChunk { break; }
        chunkNo := chunkNo - 1;
      }
      LastUsedUnique(t, chunkNo);
    }

    method SetEntry(i: nat, e: Entry)
      requires ValidConfig(cfg) && EntriesValid(cfg, table[..]) && i < table.Length && EntryValid(cfg, e)
      modifies table
      ensures EntriesValid(cfg, table[..])
      ensures TableOf(cfg, table[..]) == TableOf(cfg, old(table[..]))[i := ChunkOf(cfg, e)]
    {
      hide EntriesValid, TableOf, EntryValid, ChunkOf;
      ghost var es := table[..];
      PutEntry(cfg, es, i, e);
      table[i] := e;
      assert table[..] == es[i := e];
    }

    /** `entry.init()`. */
    method InitEntry(i: nat)
      requires ValidConfig(cfg) && EntriesValid(cfg, table[..]) && i < table.Length
      modifies table
      ensures EntriesValid(cfg, table[..])
      ensures TableOf(cfg, table[..]) == TableOf(cfg, old(table[..]))[i := Unused]
    {
      hide EntriesValid, TableOf, EntryValid, ChunkOf, Init;
      InitChunk(cfg, table[i]);
      SetEntry(i, Init(table[i]));
    }

    /** `erase`: frees a small chunk, or a large one with the bodies that follow it. The number may lie past
        the table, whose entries are then not touched; what the code finds there is not part of the directory. */
    method Erase(chunkNo: nat) returns (outside: bool)
      requires Valid()
      modifies this`lastUsedChunkNo, table
      ensures Valid() && (View(), outside) == EraseAt(old(View()), chunkNo)
    {
      hide EntriesValid, TableOf, EntryValid, ChunkOf, LastUsed, Init, Clear, BodiesFrom;
      ghost var t := View();
      outside := chunkNo >= table.Length;
      if outside { return; }
      KindOf(cfg, table[..], chunkNo);
      if table[chunkNo].kind == UnusedChunk { return; }
      if table[chunkNo].kind == SmallChunk {
        InitEntry(chunkNo);
        ClearStep(t, chunkNo, 0);
        MarkAfterClear(t, chunkNo, 1);
        if chunkNo == lastUsedChunkNo {
          lastUsedChunkNo := FindNextUsedChunkBackward(chunkNo);
        }
      } else {
        EraseLarge(chunkNo, t);
      }
    }

    method EraseLarge(chunkNo: nat, ghost t: Table)
      requires Valid() && chunkNo < Size() && t == View() && !t[chunkNo].Unused?
      modifies this`lastUsedChunkNo, table
      ensures Valid() && View() == Clear(t, chunkNo, 1 + BodiesFrom(t, chunkNo + 1))
    {
      hide EntriesValid, TableOf, EntryValid, ChunkOf, LastUsed, Clear, BodiesFrom;
      var offset := ClearRun(chunkNo, t);
      MarkAfterClear(t, chunkNo, offset);
      var lastChunkNo := chunkNo + offset - 1;
      if lastChunkNo == lastUsedChunkNo {
        lastUsedChunkNo := FindNextUsedChunkBackward(lastChunkNo);
      }
    }

    /** The loop of `erase`: the head and the bodies after it. */
    method ClearRun(chunkNo: nat, ghost t: Table) returns (offset: nat)
      requires Valid() && chunkNo < Size() && t == View() && !t[chunkNo].Unused?
      modifies table
      ensures EntriesValid(cfg, table[..]) && offset == 1 + BodiesFrom(t, chunkNo + 1)
      ensures TableOf(cfg, table[..]) == Clear(t, chunkNo, offset)
      ensures forall k :: chunkNo < k < chunkNo + offset ==> t[k].Body?
    {
      hide EntriesValid, TableOf, EntryValid, ChunkOf, LastUsed, Clear, BodiesFrom;
      InitEntry(chunkNo);
      ClearStep(t, chunkNo, 0);
      offset := 1;
      while chunkNo + offset < table.Length && table[chunkNo + offset].kind == LargeChunkBody
        invariant 1 <= offset && chunkNo + offset <= table.Length
        invariant EntriesValid(cfg, table[..])
        invariant TableOf(cfg, table[..]) == Clear(t, chunkNo, offset)
        invariant forall k :: chunkNo < k < chunkNo + offset ==> t[k].Body?
      {
        KindOf(cfg, table[..], chunkNo + offset);
        ClearStep(t, chunkNo, offset);
        InitEntry(chunkNo + offset);
        offset := offset + 1;
      }
      if chunkNo + offset < table.Length { KindOf(cfg, table[..], chunkNo + offset); }
      BodiesFromUnique(t, chunkNo + 1, offset - 1);
    }

    /** `priv_insert_small_chunk`. */
    method InsertSmall(binNo: nat) returns (chunkNo: nat)
      requires Valid() && binNo < SmallBins(cfg)
      modifies this`lastUsedChunkNo, table
      ensures Valid() && (chunkNo, View()) == ChunkTable.InsertSmall(old(View()), binNo)
    {
      hide EntriesValid, TableOf, EntryValid, ChunkOf, LastUsed;
      ghost var t := View();
      chunkNo := 0;
      while chunkNo < table.Length
        invariant 0 <= chunkNo <= table.Length && lastUsedChunkNo == LastUsed(t)
        invariant EntriesValid(cfg, table[..]) && TableOf(cfg, table[..]) == t
        invariant forall c :: 0 <= c < chunkNo ==> t[c] != Unused
      {
        KindOf(cfg, table[..], chunkNo);
        if chunkNo > lastUsedChunkNo || table[chunkNo].kind == UnusedChunk {
          InitEntry(chunkNo);
          PutSmallEntry(chunkNo, binNo, t);
          return;
        }
        chunkNo := chunkNo + 1;
      }
      FirstUnusedIs(t, chunkNo);
    }

    method PutSmallEntry(chunkNo: nat, binNo: nat, ghost t: Table)
      requires ValidConfig(cfg) && table.Length == MaxChunks(cfg) && EntriesValid(cfg, table[..])
      requires chunkNo < table.Length && binNo < SmallBins(cfg) && |t| == table.Length
      requires t[chunkNo] == Unused && TableOf(cfg, table[..]) == t && lastUsedChunkNo == LastUsed(t)
      requires forall c :: 0 <= c < chunkNo ==> t[c] != Unused
      modifies this`lastUsedChunkNo, table
      ensures Valid() && (chunkNo, View()) == ChunkTable.InsertSmall(t, binNo)
    {
      hide EntriesValid, TableOf, EntryValid, ChunkOf, LastUsed, FirstFit;
      var e := NewSmallEntry(cfg, binNo);
      SetEntry(chunkNo, e);
      FirstUnusedIs(t, chunkNo);
      MarkAfterPut(t, t[chunkNo := Small(binNo, {})], chunkNo, 1);
      lastUsedChunkNo := if chunkNo > lastUsedChunkNo then chunkNo else lastUsedChunkNo;
    }

    /** `priv_insert_large_chunk`. */
    method InsertLarge(binNo: nat) returns (chunkNo: nat)
      requires Valid() && SmallBins(cfg) <= binNo < NumBins(cfg)
      modifies this`lastUsedChunkNo, table
      ensures Valid() && (chunkNo, View()) == ChunkTable.InsertLarge(cfg, old(View()), binNo)
    {
      hide EntriesValid, TableOf, EntryValid, ChunkOf, LastUsed, FirstFit, ObjectSize, PutLarge, AllUnused;
      ghost var t := View();
      LargeObjects(cfg, binNo);
      var numChunks := RunLength(cfg, binNo);
      var count := 0;
      var i := 0;
      while i < table.Length
        invariant 0 <= i <= table.Length && lastUsedChunkNo == LastUsed(t)
        invariant EntriesValid(cfg, table[..]) && TableOf(cfg, table[..]) == t
        invariant Scanned(t, numChunks, i, count)
      {
        if i > lastUsedChunkNo { InitEntry(i); }
        KindOf(cfg, table[..], i);
        if i <= lastUsedChunkNo && table[i].kind != UnusedChunk {
          ScanUsed(t, numChunks, i, count);
          count := 0;
        } else {
          ScanUnused(t, numChunks, i, count);
          count := count + 1;
          if count == numChunks {
            chunkNo := i - (count - 1);
            PutLargeEntries(chunkNo, binNo, numChunks, t);
            return;
          }
        }
        i := i + 1;
      }
      ScanEnd(t, numChunks, count);
      chunkNo := table.Length;
    }

    method PutLargeEntries(top: nat, binNo: nat, numChunks: nat, ghost t: Table)
      requires ValidConfig(cfg) && table.Length == MaxChunks(cfg) && EntriesValid(cfg, table[..])
      requires TableOf(cfg, table[..]) == t && lastUsedChunkNo == LastUsed(t)
      requires 1 <= numChunks && top + numChunks <= table.Length
      modifies this`lastUsedChunkNo, table
      ensures Valid() && View() == PutLarge(t, top, binNo, numChunks)
    {
      hide EntriesValid, TableOf, LastUsed, PutLarge;
      SetEntry(top, Entry(binNo, LargeChunkHead, table[top].numOccupiedSlots, table[top].slotOccupancy));
      assert PutLarge(t, top, binNo, 1) == t[top := Head(binNo)];
      var offset := 1;
      while offset < numChunks
        invariant 1 <= offset <= numChunks && lastUsedChunkNo == LastUsed(t)
        invariant EntriesValid(cfg, table[..]) && TableOf(cfg, table[..]) == PutLarge(t, top, binNo, offset)
      {
        var e := table[top + offset];
        SetEntry(top + offset, Entry(binNo, LargeChunkBody, e.numOccupiedSlots, e.slotOccupancy));
        assert PutLarge(t, top, binNo, offset)[top + offset := Body(binNo)] == PutLarge(t, top, binNo, offset + 1);
        offset := offset + 1;
      }
      MarkAfterPut(t, PutLarge(t, top, binNo, numChunks), top, numChunks);
      var lastChunkNo := top + numChunks - 1;
      lastUsedChunkNo := if lastChunkNo > lastUsedChunkNo then lastChunkNo else lastUsedChunkNo;
    }

    /** A small chunk gets another bitmap and the count that goes with it. */
    method Remark(chunkNo: nat, words: seq<bv64>, count: nat)
      requires Valid() && chunkNo < table.Length && View()[chunkNo].Small?
      requires var n := Slots(cfg, View()[chunkNo].bin); B.ValidBits(n, words) && count == |B.MarkedBits(n, words)|
      modifies table
      ensures var c := old(View())[chunkNo];
              Valid() && View() == old(View())[chunkNo := Small(c.bin, B.MarkedBits(Slots(cfg, c.bin), words))]
    {
      hide EntriesValid, TableOf, LastUsed, Slots, B.ValidBits, B.MarkedBits, EntryValid, ChunkOf;
      KindOf(cfg, table[..], chunkNo);
      SmallEntry(cfg, table[..], chunkNo);
      var e := table[chunkNo];
      RemarkedEntry(cfg, e, words, count);
      SetEntry(chunkNo, e.(slotOccupancy := words, numOccupiedSlots := count));
      LastUsedUnique(TableOf(cfg, table[..]), lastUsedChunkNo);
    }

    /** `find_and_mark_slot`. */
    method FindAndMarkSlot(chunkNo: nat) returns (slotNo: nat)
      requires Valid() && chunkNo < table.Length && View()[chunkNo].Small?
      requires |View()[chunkNo].marked| < Slots(cfg, View()[chunkNo].bin)
      modifies table
      ensures var c := old(View())[chunkNo];
              && slotNo == LeastFree(c.marked) < Slots(cfg, c.bin)
              && Valid() && View() == old(View())[chunkNo := Small(c.bin, c.marked + {slotNo})]
    {
      hide EntriesValid, TableOf, LastUsed, Slots, B.ValidBits, B.MarkedBits, EntryValid, ChunkOf;
      KindOf(cfg, table[..], chunkNo);
      SmallEntry(cfg, table[..], chunkNo);
      var e := table[chunkNo];
      var bits := new B.MultilayerBitset.FromWords(e.slotOccupancy);
      slotNo := bits.FindAndSet(Slots(cfg, e.binNo));
      Remark(chunkNo, bits.words[..], e.numOccupiedSlots + 1);
    }

    /** `find_and_mark_many_slots`: as many as asked for, or all that are left. */
    method FindAndMarkManySlots(chunkNo: nat, numSlots: nat) returns (slots: seq<nat>)
      requires Valid() && chunkNo < table.Length && View()[chunkNo].Small?
      requires |View()[chunkNo].marked| < Slots(cfg, View()[chunkNo].bin)
      modifies table
      ensures var c := old(View())[chunkNo];
              var free := Slots(cfg, c.bin) - |c.marked|;
              && slots == FirstFree(c.marked, if numSlots < free then numSlots else free)
              && Valid() && View() == old(View())[chunkNo := Small(c.bin, c.marked + Elements(slots))]
    {
      hide EntriesValid, TableOf, LastUsed, Slots, B.ValidBits, B.MarkedBits, FirstFree, EntryValid, ChunkOf;
      KindOf(cfg, table[..], chunkNo);
      SmallEntry(cfg, table[..], chunkNo);
      var e := table[chunkNo];
      var numHolding := Slots(cfg, e.binNo);
      var n := if numSlots < numHolding - e.numOccupiedSlots then numSlots else numHolding - e.numOccupiedSlots;
      var words;
      slots, words := MarkMany(e.slotOccupancy, numHolding, n);
      Remark(chunkNo, words, e.numOccupiedSlots + n);
    }

    /** `unmark_slot`. */
    method UnmarkSlot(chunkNo: nat, slotNo: nat)
      requires Valid() && chunkNo < table.Length && View()[chunkNo].Small? && slotNo in View()[chunkNo].marked
      modifies table
      ensures var c := old(View())[chunkNo];
              Valid() && View() == old(View())[chunkNo := Small(c.bin, c.marked - {slotNo})]
    {
      hide EntriesValid, TableOf, LastUsed, Slots, B.ValidBits, B.MarkedBits, EntryValid, ChunkOf;
      KindOf(cfg, table[..], chunkNo);
      SmallEntry(cfg, table[..], chunkNo);
      var e := table[chunkNo];
      var bits := new B.MultilayerBitset.FromWords(e.slotOccupancy);
      bits.Reset(Slots(cfg, e.binNo), slotNo);
      Remark(chunkNo, bits.words[..], e.numOccupiedSlots - 1);
    }

    /** `all_slots_marked` and `all_slots_unmarked`: the count stands for the bitmap. */
    method SlotsState(chunkNo: nat) returns (allMarked: bool, allUnmarked: bool)
      requires Valid() && chunkNo < table.Length && View()[chunkNo].Small?
      ensures allMarked <==> |View()[chunkNo].marked| == Slots(cfg, View()[chunkNo].bin)
      ensures allUnmarked <==> View()[chunkNo].marked == {}
    {
      hide EntriesValid, TableOf, LastUsed, Slots, B.ValidBits, B.MarkedBits;
      KindOf(cfg, table[..], chunkNo);
      SmallEntry(cfg, table[..], chunkNo);
      var e := table[chunkNo];
      allMarked, allUnmarked := e.numOccupiedSlots == Slots(cfg, e.binNo), e.numOccupiedSlots == 0;
    }

    /** `marked_slot`, for any position in the bitmap; one that is no slot is not marked. */
    method MarkedSlot(chunkNo: nat, slotNo: nat) returns (marked: bool)
      requires Valid() && chunkNo < table.Length && View()[chunkNo].Small?
      requires InBitmap(cfg, View()[chunkNo].bin, slotNo)
      ensures marked <==> slotNo in View()[chunkNo].marked
    {
      hide EntriesValid, TableOf, LastUsed, Slots, B.ValidBits, B.MarkedBits;
      KindOf(cfg, table[..], chunkNo);
      SmallEntry(cfg, table[..], chunkNo);
      var e := table[chunkNo];
      var bits := new B.MultilayerBitset.FromWords(e.slotOccupancy);
      marked := bits.Get(Slots(cfg, e.binNo), slotNo);
    }

    /** `get_all_marked_slots`. */
    method GetAllMarkedSlots() returns (buf: seq<SlotRef>)
      requires Valid()
      ensures Once(buf) && forall r: SlotRef :: r in buf <==> IsMarked(View(), r)
    {
      hide EntriesValid, TableOf, EntryValid, ChunkOf, LastUsed, Once;
      OnceNone();
      ghost var t := View();
      buf := [];
      var chunkNo := 0;
      while chunkNo < Size()
        invariant 0 <= chunkNo <= Size()
        invariant Once(buf) && forall r: SlotRef :: r in buf <==> r.chunk < chunkNo && IsMarked(t, r)
      {
        KindOf(cfg, table[..], chunkNo);
        if table[chunkNo].kind == SmallChunk {
          var more := MarkedSlotsOf(chunkNo);
          OnceConcat(buf, more);
          buf := buf + more;
        }
        chunkNo := chunkNo + 1;
      }
    }

    method MarkedSlotsOf(chunkNo: nat) returns (buf: seq<SlotRef>)
      requires Valid() && chunkNo < table.Length && View()[chunkNo].Small?
      ensures Once(buf) && forall r: SlotRef :: r in buf <==> r.chunk == chunkNo && IsMarked(View(), r)
    {
      hide EntriesValid, TableOf, EntryValid, ChunkOf, LastUsed, Slots, B.ValidBits, B.MarkedBits, Once;
      OnceNone();
      KindOf(cfg, table[..], chunkNo);
      SmallEntry(cfg, table[..], chunkNo);
      var binNo := table[chunkNo].binNo;
      ghost var marked := View()[chunkNo].marked;
      buf := [];
      var i := 0;
      while i < Slots(cfg, binNo)
        invariant 0 <= i <= Slots(cfg, binNo)
        invariant Once(buf)
        invariant forall r: SlotRef ::
                    r in buf <==> r.chunk == chunkNo && r.bin == binNo && r.slot in marked && r.slot < i
      {
        SlotInBitmap(cfg, binNo, i);
        var set_ := MarkedSlot(chunkNo, i);
        if set_ {
          OnceConcat(buf, [SlotRef(chunkNo, binNo, i)]);
          buf := buf + [SlotRef(chunkNo, binNo, i)];
        }
        i := i + 1;
      }
    }

    /** `num_used_large_chunks`. */
    method NumUsedLargeChunks() returns (count: nat)
      requires Valid()
      ensures count == |LargeBelow(View(), |View()|)|
      ensures count == 0 <==> forall c :: 0 <= c < |View()| ==> !View()[c].Head? && !View()[c].Body?
    {
      hide EntriesValid, TableOf, EntryValid, ChunkOf, LastUsed, LargeBelow;
      ghost var t := View();
      count := 0;
      LargeNone(t);
      var chunkNo := 0;
      while chunkNo < Size()
        invariant 0 <= chunkNo <= Size()
        invariant count == |LargeBelow(t, chunkNo)|
      {
        KindOf(cfg, table[..], chunkNo);
        LargeStep(t, chunkNo);
        if table[chunkNo].kind == LargeChunkHead || table[chunkNo].kind == LargeChunkBody { count := count + 1; }
        chunkNo := chunkNo + 1;
      }
      LargeEnd(t, chunkNo);
    }

    /** The row of a used chunk, as `serialize` writes it. */
    method WriteRow(chunkNo: nat) returns (row: string)
      requires Valid() && chunkNo < table.Length && !table[chunkNo].kind.UnusedChunk?
      ensures row == EntryRow(chunkNo, table[chunkNo])
    {
      hide EntriesValid, TableOf, LastUsed, Slots, B.ValidBits, B.MarkedBits, Decimal, Numbers, B.Nats;
      var e := table[chunkNo];
      row := Decimal(chunkNo) + " " + Decimal(e.binNo) + " " + Decimal(KindNo(e.kind));
      if e.kind == SmallChunk {
        SmallEntry(cfg, table[..], chunkNo);
        var bits := new B.MultilayerBitset.FromWords(e.slotOccupancy);
        var words := bits.Serialize(Slots(cfg, e.binNo));
        var part := " " + Decimal(e.numOccupiedSlots) + " " + words;
        assert row + part == row + SmallPart(e);
        row := row + part;
      } else {
        assert row + "" == row;
      }
      row := row + "\n";
    }

    /** `serialize`, the text that is written. */
    method Serialize() returns (text: string)
      requires Valid()
      ensures text == SaveChunks(table[..])
    {
      hide EntriesValid, TableOf, LastUsed, EntryRow;
      text := "";
      var chunkNo := 0;
      while chunkNo < Size()
        invariant 0 <= chunkNo <= Size() && text == SaveChunks(table[..chunkNo])
      {
        assert table[..chunkNo + 1][..chunkNo] == table[..chunkNo];
        if table[chunkNo].kind != UnusedChunk {
          var row := WriteRow(chunkNo);
          text := text + row;
        } else {
          assert text + "" == text;
        }
        chunkNo := chunkNo + 1;
      }
      forall i | chunkNo <= i < table.Length ensures table[..][i].kind.UnusedChunk? { KindOf(cfg, table[..], i); }
      SaveUnused(table[..], chunkNo);
      assert table[..][..chunkNo] == table[..chunkNo];
    }

    /** The rest of a small chunk's row is read into its entry. */
    method ReadSmallRow(chunkNo: nat, binNo: nat, s: string) returns (ok: bool, rest: string)
      requires ValidConfig(cfg) && chunkNo < table.Length
      modifies this`lastUsedChunkNo, table
      ensures var r := LoadSmall(cfg, Loaded(old(table[..]), old(lastUsedChunkNo)), chunkNo, binNo, s);
              (ok ==> r == Next(Loaded(table[..], lastUsedChunkNo), rest)) && (!ok ==> r == Done(false))
    {
      hide ReadNumber, GetLine, ReadNumbers, Slots, WordCount, B.NumAllBlocks, LoadSmall;
      rest := s;
      SmallFails(cfg, Loaded(table[..], lastUsedChunkNo), chunkNo, binNo, s);
      if binNo >= SmallBins(cfg) { return false, rest; }
      var count := ReadNumber(s);
      if count.Failed? { return false, rest; }
      var numSlots := Slots(cfg, binNo);
      if numSlots < count.n { return false, rest; }
      var (line, rest_) := GetLine(count.rest);
      if line == "" || line[0] != ' ' { return false, rest; }
      var numBlocks := CountWords(cfg, binNo);
      if |ReadNumbers(line[1..])| != numBlocks { return false, rest; }
      var words := ReadBitmap(cfg, binNo, line[1..]);
      ghost var es := table[..];
      table[chunkNo] := Entry(binNo, SmallChunk, count.n, words);
      assert table[..] == es[chunkNo := table[chunkNo]];
      lastUsedChunkNo := Later(chunkNo, lastUsedChunkNo);
      return true, rest_;
    }

    /** `deserialize`. A failure leaves the table as far as it got. */
    method Deserialize(text: string) returns (ok: bool)
      requires ValidConfig(cfg)
      modifies this`lastUsedChunkNo, table
      ensures var (ok_, st) := LoadChunks(cfg, Loaded(old(table[..]), old(lastUsedChunkNo)), text);
              ok == ok_ && (ok ==> st == Loaded(table[..], lastUsedChunkNo))
    {
      hide ReadNumber, LoadSmall, Restored;
      ghost var goal := LoadChunks(cfg, Loaded(table[..], lastUsedChunkNo), text);
      var rest := text;
      var c := ReadNumber(rest);
      while c.Got?
        invariant c == ReadNumber(rest) && LoadChunks(cfg, Loaded(table[..], lastUsedChunkNo), rest) == goal
        decreases |rest|
      {
        ghost var st := Loaded(table[..], lastUsedChunkNo);
        var bin := ReadNumber(c.rest);
        if bin.Failed? { return AtEnd(c.rest); }
        var kind := ReadNumber(bin.rest);
        if kind.Failed? { return AtEnd(bin.rest); }
        if table.Length <= c.n { return false; }
        if kind.n == 1 {
          var good, next := ReadSmallRow(c.n, bin.n, kind.rest);
          if !good { return false; }
          rest := next;
        } else if kind.n == 2 || kind.n == 3 {
          table[c.n] := table[c.n].(binNo := bin.n, kind := if kind.n == 2 then LargeChunkHead else LargeChunkBody);
          assert table[..] == st.entries[c.n := table[c.n]];
          lastUsedChunkNo := Later(c.n, lastUsedChunkNo);
          rest := kind.rest;
        } else {
          return false;
        }
        c := ReadNumber(rest);
      }
      ok := AtEnd(rest);
    }
  }

  method CountWords(cfg: Config, binNo: nat) returns (n: nat)
    requires ValidConfig(cfg) && binNo < SmallBins(cfg)
    ensures n == WordCount(cfg, binNo)
  {
    hide Slots, B.NumAllBlocks;
    SmallObjects(cfg, binNo);
    n := B.CountAllBlocks(Slots(cfg, binNo));
  }

  /** The bitmap of a small chunk is read into fresh words. */
  method ReadBitmap(cfg: Config, binNo: nat, text: string) returns (words: seq<bv64>)
    requires ValidConfig(cfg) && binNo < SmallBins(cfg) && |ReadNumbers(text)| == WordCount(cfg, binNo)
    ensures words == B.Words(ReadNumbers(text))
  {
    hide Slots, B.NumAllBlocks, ReadNumbers, B.ValidBits;
    SmallObjects(cfg, binNo);
    var bits := new B.MultilayerBitset.Allocate(Slots(cfg, binNo));
    BitsLength(Slots(cfg, binNo), bits);
    var _, _ := bits.Deserialize(Slots(cfg, binNo), text, 0);
    words := bits.words[..];
  }

  /** The outcomes of reading a small chunk's row. */
  lemma SmallFails(cfg: Config, st: Loaded, c: nat, bin: nat, s: string)
    requires ValidConfig(cfg) && c < |st.entries|
    ensures var count := ReadNumber(s);
            var r := LoadSmall(cfg, st, c, bin, s);
            if bin >= SmallBins(cfg) || count.Failed? || Slots(cfg, bin) < count.n then r == Done(false)
            else
              var (line, rest) := GetLine(count.rest);
              if line == "" || line[0] != ' ' || |ReadNumbers(line[1..])| != WordCount(cfg, bin) then r == Done(false)
              else r == Next(Loaded(st.entries[c := Entry(bin, SmallChunk, count.n, B.Words(ReadNumbers(line[1..])))],
                                    Later(c, st.last)), rest)
  {
    hide ReadNumber, GetLine, ReadNumbers, Slots, WordCount;
  }

  lemma BitsLength(size: nat, bits: B.MultilayerBitset)
    requires bits.Valid(size)
    ensures 1 <= size <= U.Pow2(24) && bits.words.Length == B.NumAllBlocks(size)
  {}

  lemma {:induction false} SaveUnused(es: seq<Entry>, n: nat)
    requires n <= |es| && forall i :: n <= i < |es| ==> es[i].kind.UnusedChunk?
    ensures SaveChunks(es) == SaveChunks(es[..n])
    decreases |es|
  {
    hide EntryRow;
    if n < |es| {
      var k := |es| - 1;
      SaveUnused(es[..k], n);
      assert es[..k][..n] == es[..n];
      assert SaveChunks(es) == SaveChunks(es[..k]) + "";
    } else {
      assert es[..n] == es;
    }
  }

  method NewSmallEntry(cfg: Config, binNo: nat) returns (e: Entry)
    requires ValidConfig(cfg) && binNo < SmallBins(cfg)
    ensures EntryValid(cfg, e) && ChunkOf(cfg, e) == Small(binNo, {})
  {
    hide B.ValidBits, B.MarkedBits, Slots;
    SmallObjects(cfg, binNo);
    var bits := new B.MultilayerBitset.Allocate(Slots(cfg, binNo));
    e := Entry(binNo, SmallChunk, 0, bits.words[..]);
  }
}
