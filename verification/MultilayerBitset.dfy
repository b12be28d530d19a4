/** The slot bitmap as it is stored: one flat array of words, the layers one after the other,
    their sizes looked up in three tables (include/metall/kernel/multilayer_bitset.hpp). */
module MultilayerBitset {
  import opened B = Bits
  import opened FreeSlots
  import opened Utilities
  import opened Text
  import T = BitTree

  const MAX_INDEX: nat := 24

  /** The number of layers needed for 2^idx bits. */
  function NumLayers(idx: nat): nat
    requires idx <= MAX_INDEX
  {
    if idx <= 6 then 1 else if idx <= 12 then 2 else if idx <= 18 then 3 else 4
  }

  /** The number of words above the leaf layer. */
  function NumIndexBlocks(idx: nat): nat
    requires idx <= MAX_INDEX
  {
    match idx
    case 13 => 3 case 14 => 5 case 15 => 9 case 16 => 17 case 17 => 33 case 18 => 65
    case 19 => 131 case 20 => 261 case 21 => 521 case 22 => 1041 case 23 => 2081 case 24 => 4161
    case _ => if idx <= 6 then 0 else 1
  }

  /** The number of words at each layer. */
  function NumBlocks(idx: nat): seq<nat>
    requires idx <= MAX_INDEX
  {
    match idx
    case 7 => [1, 2, 0, 0]
    case 8 => [1, 4, 0, 0]
    case 9 => [1, 8, 0, 0]
    case 10 => [1, 16, 0, 0]
    case 11 => [1, 32, 0, 0]
    case 12 => [1, 64, 0, 0]
    case 13 => [1, 2, 128, 0]
    case 14 => [1, 4, 256, 0]
    case 15 => [1, 8, 512, 0]
    case 16 => [1, 16, 1024, 0]
    case 17 => [1, 32, 2048, 0]
    case 18 => [1, 64, 4096, 0]
    case 19 => [1, 2, 128, 8192]
    case 20 => [1, 4, 256, 16384]
    case 21 => [1, 8, 512, 32768]
    case 22 => [1, 16, 1024, 65536]
    case 23 => [1, 32, 2048, 131072]
    case 24 => [1, 64, 4096, 262144]
    case _ => [1, 0, 0, 0]
  }

  /** Words before layer l. */
  ghost function Start(row: seq<nat>, l: nat): nat
    requires l <= |row|
  {
    if l == 0 then 0 else Start(row, l - 1) + row[l - 1]
  }

  lemma {:induction false} StartMono(row: seq<nat>, l: nat, m: nat)
    requires l < m <= |row|
    ensures Start(row, l) + row[l] <= Start(row, m)
  {
    if l < m - 1 { StartMono(row, l, m - 1); }
  }

  ghost predicate RowFits(row: seq<nat>, layers: nat, indexBlocks: nat, capacity: nat) {
    && |row| == 4 && 1 <= layers <= 4
    && row[0] == 1
    && (forall l :: 1 <= l < layers ==> row[l] <= 64 * row[l - 1])
    && indexBlocks == Start(row, layers - 1)
    && 64 * row[layers - 1] == capacity
  }

  lemma StartValues(row: seq<nat>)
    requires |row| == 4
    ensures Start(row, 0) == 0
    ensures Start(row, 1) == row[0]
    ensures Start(row, 2) == row[0] + row[1]
    ensures Start(row, 3) == row[0] + row[1] + row[2]
    ensures Start(row, 4) == row[0] + row[1] + row[2] + row[3]
  {
    assert Start(row, 1) == Start(row, 0) + row[0];
    assert Start(row, 2) == Start(row, 1) + row[1];
    assert Start(row, 3) == Start(row, 2) + row[2];
    assert Start(row, 4) == Start(row, 3) + row[3];
  }

  lemma TablesFit0(idx: nat)
    requires 0 <= idx <= 6
    ensures RowFits(NumBlocks(idx), NumLayers(idx), NumIndexBlocks(idx), 64)
  {
    StartValues(NumBlocks(idx));
    hide Pow2, Start;
  }

  lemma TablesFit7(idx: nat)
    requires 7 <= idx <= 9
    ensures RowFits(NumBlocks(idx), NumLayers(idx), NumIndexBlocks(idx), Pow2(idx))
  {
    StartValues(NumBlocks(idx));
    Powers();
    hide Pow2, Start;
    if idx == 7 { assert NumBlocks(7) == [1, 2, 0, 0]; }
    if idx == 8 { assert NumBlocks(8) == [1, 4, 0, 0]; }
    if idx == 9 { assert NumBlocks(9) == [1, 8, 0, 0]; }
  }

  lemma TablesFit10(idx: nat)
    requires 10 <= idx <= 12
    ensures RowFits(NumBlocks(idx), NumLayers(idx), NumIndexBlocks(idx), Pow2(idx))
  {
    StartValues(NumBlocks(idx));
    Powers();
    hide Pow2, Start;
    if idx == 10 { assert NumBlocks(10) == [1, 16, 0, 0]; }
    if idx == 11 { assert NumBlocks(11) == [1, 32, 0, 0]; }
    if idx == 12 { assert NumBlocks(12) == [1, 64, 0, 0]; }
  }

  lemma TablesFit13(idx: nat)
    requires 13 <= idx <= 15
    ensures RowFits(NumBlocks(idx), NumLayers(idx), NumIndexBlocks(idx), Pow2(idx))
  {
    StartValues(NumBlocks(idx));
    Powers();
    hide Pow2, Start;
    if idx == 13 { assert NumBlocks(13) == [1, 2, 128, 0]; }
    if idx == 14 { assert NumBlocks(14) == [1, 4, 256, 0]; }
    if idx == 15 { assert NumBlocks(15) == [1, 8, 512, 0]; }
  }

  lemma TablesFit16(idx: nat)
    requires 16 <= idx <= 18
    ensures RowFits(NumBlocks(idx), NumLayers(idx), NumIndexBlocks(idx), Pow2(idx))
  {
    StartValues(NumBlocks(idx));
    Powers();
    hide Pow2, Start;
    if idx == 16 { assert NumBlocks(16) == [1, 16, 1024, 0]; }
    if idx == 17 { assert NumBlocks(17) == [1, 32, 2048, 0]; }
    if idx == 18 { assert NumBlocks(18) == [1, 64, 4096, 0]; }
  }

  lemma TablesFit19(idx: nat)
    requires 19 <= idx <= 21
    ensures RowFits(NumBlocks(idx), NumLayers(idx), NumIndexBlocks(idx), Pow2(idx))
  {
    StartValues(NumBlocks(idx));
    Powers();
    hide Pow2, Start;
    if idx == 19 { assert NumBlocks(19) == [1, 2, 128, 8192]; }
    if idx == 20 { assert NumBlocks(20) == [1, 4, 256, 16384]; }
    if idx == 21 { assert NumBlocks(21) == [1, 8, 512, 32768]; }
  }

  lemma TablesFit22(idx: nat)
    requires 22 <= idx <= 24
    ensures RowFits(NumBlocks(idx), NumLayers(idx), NumIndexBlocks(idx), Pow2(idx))
  {
    StartValues(NumBlocks(idx));
    Powers();
    hide Pow2, Start;
    if idx == 22 { assert NumBlocks(22) == [1, 16, 1024, 65536]; }
    if idx == 23 { assert NumBlocks(23) == [1, 32, 2048, 131072]; }
    if idx == 24 { assert NumBlocks(24) == [1, 64, 4096, 262144]; }
  }

  /** Each column of the three tables describes one tree with room for 2^idx slots. */
  lemma TablesFit(idx: nat)
    requires idx <= MAX_INDEX
    ensures RowFits(NumBlocks(idx), NumLayers(idx), NumIndexBlocks(idx), if idx <= 6 then 64 else Pow2(idx))
  {
    hide RowFits, Pow2, NumBlocks, NumLayers, NumIndexBlocks;
    if idx <= 6 {
      TablesFit0(idx);
    } else if idx <= 9 {
      TablesFit7(idx);
    } else if idx <= 12 {
      TablesFit10(idx);
    } else if idx <= 15 {
      TablesFit13(idx);
    } else if idx <= 18 {
      TablesFit16(idx);
    } else if idx <= 21 {
      TablesFit19(idx);
    } else {
      TablesFit22(idx);
    }
  }

  // ---------- Flat words and layers ---------- //

  ghost function Layer(ws: seq<bv64>, row: seq<nat>, l: nat): seq<bv64>
    requires l < |row| && Start(row, l) + row[l] <= |ws|
  {
    ws[Start(row, l)..Start(row, l) + row[l]]
  }

  lemma LayersInside(row: seq<nat>, layers: nat)
    requires layers <= |row|
    ensures forall l {:trigger Start(row, l)} :: 0 <= l < layers ==> Start(row, l) + row[l] <= Start(row, layers)
  {
    forall l | 0 <= l < layers ensures Start(row, l) + row[l] <= Start(row, layers) { StartMono(row, l, layers); }
  }

  ghost function TreeOf(ws: seq<bv64>, row: seq<nat>, layers: nat): (t: T.Tree)
    requires layers <= |row| && Start(row, layers) <= |ws|
    ensures |t| == layers
    ensures forall l {:trigger t[l]} :: 0 <= l < layers ==>
              Start(row, l) + row[l] <= |ws| && |t[l]| == row[l] && t[l] == Layer(ws, row, l)
  {
    LayersInside(row, layers);
    seq(layers, l requires 0 <= l < layers => Layer(ws, row, l))
  }

  lemma WordOf(ws: seq<bv64>, row: seq<nat>, layers: nat, l: nat, p: nat)
    requires layers <= |row| && Start(row, layers) <= |ws| && l < layers && p < row[l]
    ensures Start(row, l) + p < Start(row, layers)
    ensures TreeOf(ws, row, layers)[l][p] == ws[Start(row, l) + p]
  {
    hide Start;
    LayersInside(row, layers);
    assert TreeOf(ws, row, layers)[l] == Layer(ws, row, l);
  }

  /** Writing one flat word is writing one word of one layer. */
  lemma WriteWord(ws: seq<bv64>, row: seq<nat>, layers: nat, l: nat, p: nat, w: bv64)
    requires layers <= |row| && Start(row, layers) <= |ws| && l < layers && p < row[l]
    ensures Start(row, l) + p < |ws|
    ensures TreeOf(ws[Start(row, l) + p := w], row, layers) == T.PutWord(TreeOf(ws, row, layers), l, p, w)
  {
    hide Start, TreeOf;
    WordOf(ws, row, layers, l, p);
    var vs := ws[Start(row, l) + p := w];
    forall k | 0 <= k < layers
      ensures TreeOf(vs, row, layers)[k] == T.PutWord(TreeOf(ws, row, layers), l, p, w)[k]
    {
      if k < l { StartMono(row, k, l); } else if l < k { StartMono(row, l, k); }
      assert TreeOf(vs, row, layers)[k] == Layer(vs, row, k);
      assert TreeOf(ws, row, layers)[k] == Layer(ws, row, k);
    }
  }

  // ---------- The layer loops ---------- //

  /** numBlocks and numLayers describe the layout of these words. */
  ghost predicate Laid(ws: seq<bv64>, numBlocks: seq<nat>, numLayers: nat)
    ensures Laid(ws, numBlocks, numLayers) ==>
              1 <= numLayers <= |numBlocks| && |ws| == Start(numBlocks, numLayers)
  {
    && 1 <= numLayers <= |numBlocks|
    && |ws| == Start(numBlocks, numLayers)
    && T.Shaped(TreeOf(ws, numBlocks, numLayers))
  }

  /** The leaf bits that are set. */
  ghost function Taken(ws: seq<bv64>, numBlocks: seq<nat>, numLayers: nat): (s: set<nat>)
    requires Laid(ws, numBlocks, numLayers)
    ensures forall b :: b in s ==> b < 64 * numBlocks[numLayers - 1]
  {
    T.Leaf(TreeOf(ws, numBlocks, numLayers))
  }

  lemma LaidShape(ws: seq<bv64>, numBlocks: seq<nat>, numLayers: nat, l: nat)
    requires Laid(ws, numBlocks, numLayers) && l < numLayers
    ensures Start(numBlocks, 0) == 0
    ensures l + 1 < numLayers ==> numBlocks[l + 1] <= 64 * numBlocks[l]
    ensures l > 0 ==> Start(numBlocks, l) == Start(numBlocks, l - 1) + numBlocks[l - 1]
  {
    var t := TreeOf(ws, numBlocks, numLayers);
    assert l + 1 < numLayers ==> |t[l + 1]| <= 64 * |t[l]|;
  }

  lemma LaidWrite(ws: seq<bv64>, numBlocks: seq<nat>, numLayers: nat, l: nat, p: nat, w: bv64)
    requires Laid(ws, numBlocks, numLayers) && l < numLayers && p < numBlocks[l]
    ensures Start(numBlocks, l) + p < |ws|
    ensures ws[Start(numBlocks, l) + p] == TreeOf(ws, numBlocks, numLayers)[l][p]
    ensures var vs := ws[Start(numBlocks, l) + p := w];
            Laid(vs, numBlocks, numLayers) &&
            TreeOf(vs, numBlocks, numLayers) == T.PutWord(TreeOf(ws, numBlocks, numLayers), l, p, w)
  {
    hide Start;
    WordOf(ws, numBlocks, numLayers, l, p);
    WriteWord(ws, numBlocks, numLayers, l, p, w);
    var t := TreeOf(ws, numBlocks, numLayers);
    hide TreeOf;
    assert T.SameShape(t, T.PutWord(t, l, p, w));
  }

  /** The search has come to word p of layer l. */
  ghost predicate Searching(ws: seq<bv64>, numBlocks: seq<nat>, numLayers: nat, l: nat, p: nat) {
    && Laid(ws, numBlocks, numLayers)
    && l < numLayers
    && var t := TreeOf(ws, numBlocks, numLayers);
    && T.Valid(t) && T.HasOpen(t, |t| - 1)
    && T.FirstOpen(t, l, p)
    && T.FindFrom(t, l, p) == LeastFree(T.Leaf(t))
  }

  lemma FindStart(ws: seq<bv64>, numBlocks: seq<nat>, numLayers: nat)
    requires Laid(ws, numBlocks, numLayers)
    requires var t := TreeOf(ws, numBlocks, numLayers);
             T.Valid(t) && T.HasOpen(t, |t| - 1)
    ensures Searching(ws, numBlocks, numLayers, 0, 0)
  {
    hide TreeOf, FullBlock, T.Valid, T.Leaf, Start;
    var t := TreeOf(ws, numBlocks, numLayers);
    T.RootOpen(t);
    T.FindIsLeast(t);
  }

  lemma FindStep(ws: seq<bv64>, numBlocks: seq<nat>, numLayers: nat, l: nat, p: nat)
    requires Searching(ws, numBlocks, numLayers, l, p)
    ensures Start(numBlocks, l) + p < |ws|
    ensures var n := FirstFalseBit(ws[Start(numBlocks, l) + p]) + 64 * p;
            if l + 1 < numLayers
            then Searching(ws, numBlocks, numLayers, l + 1, n)
            else n == LeastFree(Taken(ws, numBlocks, numLayers))
  {
    hide TreeOf, FullBlock, FirstFalseBit, T.Valid, T.Leaf, Start, T.HasOpen, LeastFree, T.PutWord;
    var t := TreeOf(ws, numBlocks, numLayers);
    LaidWrite(ws, numBlocks, numLayers, l, p, 0);
    if l + 1 < numLayers {
      T.OpenAbove(t, l + 1);
      T.FirstOpenStep(t, l, p);
    }
  }

  /** `find_in_multilayers`: one word per layer, from the root down. */
  method FindInMultilayers(words: array<bv64>, numLayers: nat, numBlocks: seq<nat>) returns (bitPos: nat)
    requires Laid(words[..], numBlocks, numLayers)
    requires var t := TreeOf(words[..], numBlocks, numLayers);
             T.Valid(t) && T.HasOpen(t, |t| - 1)
    ensures bitPos == LeastFree(Taken(words[..], numBlocks, numLayers))
  {
    hide *;
    FindStart(words[..], numBlocks, numLayers);
    LaidShape(words[..], numBlocks, numLayers, 0);
    bitPos := 0;
    var numParentBlocks := 0;
    var layer := 0;
    while layer < numLayers
      invariant 0 <= layer <= numLayers
      invariant numParentBlocks == Start(numBlocks, if layer == 0 then 0 else layer - 1)
      invariant layer < numLayers ==> Searching(words[..], numBlocks, numLayers, layer, bitPos)
      invariant layer == numLayers ==> bitPos == LeastFree(Taken(words[..], numBlocks, numLayers))
    {
      LaidShape(words[..], numBlocks, numLayers, layer);
      FindStep(words[..], numBlocks, numLayers, layer, bitPos);
      numParentBlocks := numParentBlocks + if layer == 0 then 0 else numBlocks[layer - 1];
      var blockPos := numParentBlocks + bitPos;
      var firstZeroPosInBlock := FirstFalseBit(words[blockPos]);
      bitPos := firstZeroPosInBlock + 64 * (blockPos - numParentBlocks);
      layer := layer + 1;
    }
  }

  /** What is left of setting bit b of layer l, as a tree. */
  ghost function SetRest(ws: seq<bv64>, numBlocks: seq<nat>, numLayers: nat, l: nat, b: nat): T.Tree
    requires Laid(ws, numBlocks, numLayers) && l < numLayers && b < 64 * numBlocks[l]
  {
    T.SetFrom(TreeOf(ws, numBlocks, numLayers), l, b)
  }

  ghost function ResetRest(ws: seq<bv64>, numBlocks: seq<nat>, numLayers: nat, l: nat, b: nat): T.Tree
    requires Laid(ws, numBlocks, numLayers) && l < numLayers && b < 64 * numBlocks[l]
  {
    T.ResetFrom(TreeOf(ws, numBlocks, numLayers), l, b)
  }

  lemma SetStep(ws: seq<bv64>, numBlocks: seq<nat>, numLayers: nat, l: nat, b: nat)
    requires Laid(ws, numBlocks, numLayers) && l < numLayers && b < 64 * numBlocks[l]
    ensures Start(numBlocks, l) + b / 64 < |ws|
    ensures var w := Set(ws[Start(numBlocks, l) + b / 64], b % 64);
            var vs := ws[Start(numBlocks, l) + b / 64 := w];
            && Laid(vs, numBlocks, numLayers)
            && (FullBlock(w) && l > 0 ==> b / 64 < 64 * numBlocks[l - 1])
            && SetRest(ws, numBlocks, numLayers, l, b) ==
               if FullBlock(w) && l > 0
               then SetRest(vs, numBlocks, numLayers, l - 1, b / 64)
               else TreeOf(vs, numBlocks, numLayers)
  {
    hide Start, FullBlock, Set;
    var t := TreeOf(ws, numBlocks, numLayers);
    var w := Set(t[l][b / 64], b % 64);
    LaidWrite(ws, numBlocks, numLayers, l, b / 64, w);
    if l > 0 { LaidShape(ws, numBlocks, numLayers, l - 1); }
  }

  /** `set_in_multilayers`: sets a leaf bit and carries it up while words become full.
      The bit may be set already. */
  method SetInMultilayers(words: array<bv64>, numLayers: nat, numIndexBlocks: nat, numBlocks: seq<nat>,
                          bitPosInLeaf: nat)
    requires Laid(words[..], numBlocks, numLayers) && numIndexBlocks == Start(numBlocks, numLayers - 1)
    requires bitPosInLeaf < 64 * numBlocks[numLayers - 1]
    modifies words
    ensures Laid(words[..], numBlocks, numLayers)
    ensures TreeOf(words[..], numBlocks, numLayers) ==
            SetRest(old(words[..]), numBlocks, numLayers, numLayers - 1, bitPosInLeaf)
  {
    hide *;
    ghost var goal := SetRest(words[..], numBlocks, numLayers, numLayers - 1, bitPosInLeaf);
    var numParentBlocks := numIndexBlocks;
    var bitPos := bitPosInLeaf;
    var layer := numLayers - 1;
    while layer >= 0
      invariant 0 <= layer < numLayers
      invariant numParentBlocks == Start(numBlocks, layer)
      invariant Laid(words[..], numBlocks, numLayers) && bitPos < 64 * numBlocks[layer]
      invariant SetRest(words[..], numBlocks, numLayers, layer, bitPos) == goal
      decreases layer
    {
      ghost var before := words[..];
      SetStep(before, numBlocks, numLayers, layer, bitPos);
      var blockPos := numParentBlocks + bitPos / 64;
      words[blockPos] := Set(words[blockPos], bitPos % 64);
      assert words[..] == before[blockPos := words[blockPos]];
      if !FullBlock(words[blockPos]) { break; }
      if layer == 0 { break; }
      LaidShape(before, numBlocks, numLayers, layer);
      numParentBlocks := numParentBlocks - numBlocks[layer - 1];
      bitPos := bitPos / 64;
      layer := layer - 1;
    }
  }

  lemma ResetStep(ws: seq<bv64>, numBlocks: seq<nat>, numLayers: nat, l: nat, b: nat)
    requires Laid(ws, numBlocks, numLayers) && l < numLayers && b < 64 * numBlocks[l]
    ensures Start(numBlocks, l) + b / 64 < |ws|
    ensures var w := ws[Start(numBlocks, l) + b / 64];
            var vs := ws[Start(numBlocks, l) + b / 64 := Reset(w, b % 64)];
            && Laid(vs, numBlocks, numLayers)
            && (FullBlock(w) && l > 0 ==> b / 64 < 64 * numBlocks[l - 1])
            && ResetRest(ws, numBlocks, numLayers, l, b) ==
               if FullBlock(w) && l > 0
               then ResetRest(vs, numBlocks, numLayers, l - 1, b / 64)
               else TreeOf(vs, numBlocks, numLayers)
  {
    hide Start, FullBlock, Reset;
    var t := TreeOf(ws, numBlocks, numLayers);
    LaidWrite(ws, numBlocks, numLayers, l, b / 64, Reset(t[l][b / 64], b % 64));
    if l > 0 { LaidShape(ws, numBlocks, numLayers, l - 1); }
  }

  /** `reset_bit_in_multilayers`: clears a leaf bit and the bits above it while words were full. */
  method ResetInMultilayers(words: array<bv64>, numLayers: nat, numIndexBlocks: nat, numBlocks: seq<nat>,
                            bitPosInLeaf: nat)
    requires Laid(words[..], numBlocks, numLayers) && numIndexBlocks == Start(numBlocks, numLayers - 1)
    requires bitPosInLeaf < 64 * numBlocks[numLayers - 1]
    modifies words
    ensures Laid(words[..], numBlocks, numLayers)
    ensures TreeOf(words[..], numBlocks, numLayers) ==
            ResetRest(old(words[..]), numBlocks, numLayers, numLayers - 1, bitPosInLeaf)
  {
    hide *;
    ghost var goal := ResetRest(words[..], numBlocks, numLayers, numLayers - 1, bitPosInLeaf);
    var numParentBlocks := numIndexBlocks;
    var bitPos := bitPosInLeaf;
    var layer := numLayers - 1;
    while layer >= 0
      invariant 0 <= layer < numLayers
      invariant numParentBlocks == Start(numBlocks, layer)
      invariant Laid(words[..], numBlocks, numLayers) && bitPos < 64 * numBlocks[layer]
      invariant ResetRest(words[..], numBlocks, numLayers, layer, bitPos) == goal
      decreases layer
    {
      ghost var before := words[..];
      ResetStep(before, numBlocks, numLayers, layer, bitPos);
      var blockPos := numParentBlocks + bitPos / 64;
      var wasFull := FullBlock(words[blockPos]);
      words[blockPos] := Reset(words[blockPos], bitPos % 64);
      assert words[..] == before[blockPos := words[blockPos]];
      if !wasFull || layer == 0 { break; }
      LaidShape(before, numBlocks, numLayers, layer);
      numParentBlocks := numParentBlocks - numBlocks[layer - 1];
      bitPos := bitPos / 64;
      layer := layer - 1;
    }
  }

  // ---------- Bulk find-and-set ---------- //

  lemma ReadBit(ws: seq<bv64>, numBlocks: seq<nat>, numLayers: nat, b: nat)
    requires Laid(ws, numBlocks, numLayers) && b < 64 * numBlocks[numLayers - 1]
    ensures Start(numBlocks, numLayers - 1) + b / 64 < |ws|
    ensures Get(ws[Start(numBlocks, numLayers - 1) + b / 64], b % 64) <==>
            b in Taken(ws, numBlocks, numLayers)
  {
    hide TreeOf, Get, Start;
    LaidWrite(ws, numBlocks, numLayers, numLayers - 1, b / 64, 0);
    var t := TreeOf(ws, numBlocks, numLayers);
    assert T.SlotSet(t, b) <==> T.BitAt(t, numLayers - 1, b);
  }

  lemma ReadWord(ws: seq<bv64>, numBlocks: seq<nat>, numLayers: nat, p: nat)
    requires Laid(ws, numBlocks, numLayers) && p < numBlocks[numLayers - 1]
    ensures Start(numBlocks, numLayers - 1) + p < |ws|
    ensures FullBlock(ws[Start(numBlocks, numLayers - 1) + p]) <==>
            forall b :: 64 * p <= b < 64 * p + 64 ==> b in Taken(ws, numBlocks, numLayers)
  {
    hide TreeOf, Get, FullBlock, Start;
    LaidWrite(ws, numBlocks, numLayers, numLayers - 1, p, 0);
    var t := TreeOf(ws, numBlocks, numLayers);
    var last := numLayers - 1;
    T.WordFull(t, last, p);
    forall b | 64 * p <= b < 64 * p + 64
      ensures b in T.Leaf(t) <==> T.BitAt(t, last, b)
    {
      assert T.SlotSet(t, b) <==> T.BitAt(t, last, b);
    }
    assert Taken(ws, numBlocks, numLayers) == T.Leaf(t);
  }

  /** Bulk search in progress: `found` are the first of the n lowest slots free at the start,
      they are set now, and the rest are the lowest free ones of the present words. */
  ghost predicate Bulk(ws: seq<bv64>, numBlocks: seq<nat>, numLayers: nat,
                       start: T.Tree, size: nat, n: nat, found: seq<nat>)
    ensures Bulk(ws, numBlocks, numLayers, start, size, n, found) ==>
              Laid(ws, numBlocks, numLayers) && |found| <= n && size <= 64 * numBlocks[numLayers - 1]
  {
    && Laid(ws, numBlocks, numLayers)
    && var t := TreeOf(ws, numBlocks, numLayers);
    && T.Valid(t) && T.Valid(start) && T.SameShape(start, t)
    && (forall b :: b in T.Leaf(start) ==> b < size)
    && |T.Leaf(start)| + n <= size <= 64 * numBlocks[numLayers - 1]
    && |found| <= n
    && T.Leaf(t) == T.Leaf(start) + Elements(found)
    && FirstFree(T.Leaf(start), n) == found + FirstFree(T.Leaf(t), n - |found|)
  }

  lemma BulkRoom(ws: seq<bv64>, numBlocks: seq<nat>, numLayers: nat,
                 start: T.Tree, size: nat, n: nat, found: seq<nat>)
    requires Bulk(ws, numBlocks, numLayers, start, size, n, found) && |found| < n
    ensures LeastFree(Taken(ws, numBlocks, numLayers)) < size
    ensures var t := TreeOf(ws, numBlocks, numLayers);
            T.Valid(t) && T.HasOpen(t, |t| - 1)
  {
    hide T.Valid, T.Leaf, TreeOf, Start;
    var t := TreeOf(ws, numBlocks, numLayers);
    var s := T.Leaf(start);
    var all := FirstFree(s, n);
    FirstFreeFacts(s, n, size);
    assert all[|found|] == FirstFree(T.Leaf(t), n - |found|)[0];
    T.OpenIffNotAllSet(t);
  }

  lemma BulkStart(ws: seq<bv64>, numBlocks: seq<nat>, numLayers: nat, size: nat, n: nat)
    requires Laid(ws, numBlocks, numLayers)
    requires var t := TreeOf(ws, numBlocks, numLayers);
             T.Valid(t) && (forall b :: b in T.Leaf(t) ==> b < size) &&
             |T.Leaf(t)| + n <= size <= 64 * numBlocks[numLayers - 1]
    ensures Bulk(ws, numBlocks, numLayers, TreeOf(ws, numBlocks, numLayers), size, n, [])
  {
    hide T.Valid, T.Leaf, TreeOf, Start;
    var s := T.Leaf(TreeOf(ws, numBlocks, numLayers));
    assert s + Elements([]) == s;
  }

  lemma BulkEnd(ws: seq<bv64>, numBlocks: seq<nat>, numLayers: nat,
                start: T.Tree, size: nat, n: nat, found: seq<nat>)
    requires Bulk(ws, numBlocks, numLayers, start, size, n, found) && |found| == n
    ensures T.Valid(start) && T.RoomFor(start, n)
    ensures (found, TreeOf(ws, numBlocks, numLayers)) == T.FindAndSetTimes(start, n)
  {
    hide T.Valid, T.Leaf, TreeOf, Start;
    assert found + FirstFree(T.Leaf(TreeOf(ws, numBlocks, numLayers)), 0) == found;
    T.ManyIsTimes(start, n, TreeOf(ws, numBlocks, numLayers));
  }

  /** One slot taken from the middle of a word. */
  lemma BulkOne(ws: seq<bv64>, vs: seq<bv64>, numBlocks: seq<nat>, numLayers: nat,
                start: T.Tree, size: nat, n: nat, found: seq<nat>, b: nat)
    requires Bulk(ws, numBlocks, numLayers, start, size, n, found) && |found| < n
    requires b < 64 * numBlocks[numLayers - 1] && b == LeastFree(Taken(ws, numBlocks, numLayers))
    requires Laid(vs, numBlocks, numLayers)
    requires TreeOf(vs, numBlocks, numLayers) == SetRest(ws, numBlocks, numLayers, numLayers - 1, b)
    ensures Bulk(vs, numBlocks, numLayers, start, size, n, found + [b])
    ensures Taken(vs, numBlocks, numLayers) == Taken(ws, numBlocks, numLayers) + {b}
  {
    hide T.Valid, T.Leaf, T.SetFrom, TreeOf, Start, FirstFree;
    var t, u := TreeOf(ws, numBlocks, numLayers), TreeOf(vs, numBlocks, numLayers);
    T.SetSlotCorrect(t, b);
    assert T.SetSlot(t, b) == u;
    assert Run(b, 1) == [b] && Elements([b]) == {b};
    FirstFreeRun(T.Leaf(t), b, 1, n - |found|);
    ElementsConcat(found, [b]);
    assert T.Leaf(start) + Elements(found + [b]) == T.Leaf(u);
    var rest := FirstFree(T.Leaf(u), n - |found| - 1);
    assert (found + [b]) + rest == found + ([b] + rest);
  }

  /** A run of slots taken at once from an empty word. */
  lemma BulkRun(ws: seq<bv64>, us: seq<bv64>, vs: seq<bv64>, numBlocks: seq<nat>, numLayers: nat,
                start: T.Tree, size: nat, n: nat, found: seq<nat>, p: nat, k: nat)
    requires Bulk(ws, numBlocks, numLayers, start, size, n, found)
    requires p < numBlocks[numLayers - 1] && 1 <= k <= 64 && |found| + k <= n
    requires 64 * p == LeastFree(Taken(ws, numBlocks, numLayers))
    requires Start(numBlocks, numLayers - 1) + p < |ws|
    requires EmptyBlock(ws[Start(numBlocks, numLayers - 1) + p])
    requires var i := Start(numBlocks, numLayers - 1) + p;
             us == ws[i := Or(ws[i], GenerateMask(0, k))]
    requires Laid(us, numBlocks, numLayers) && Laid(vs, numBlocks, numLayers)
    requires TreeOf(vs, numBlocks, numLayers) == SetRest(us, numBlocks, numLayers, numLayers - 1, 64 * p + k - 1)
    ensures Bulk(vs, numBlocks, numLayers, start, size, n, found + Run(64 * p, k))
    ensures Taken(vs, numBlocks, numLayers) == Taken(ws, numBlocks, numLayers) + Elements(Run(64 * p, k))
  {
    hide T.Valid, T.Leaf, T.SetFrom, TreeOf, Start, Or, GenerateMask, EmptyBlock, T.OrMask, Elements, Run, FirstFree;
    var t, v := TreeOf(ws, numBlocks, numLayers), TreeOf(vs, numBlocks, numLayers);
    RunTree(ws, us, vs, numBlocks, numLayers, p, k);
    var run := Run(64 * p, k);
    FirstFreeRun(T.Leaf(t), 64 * p, k, n - |found|);
    ElementsConcat(found, run);
    assert T.Leaf(start) + Elements(found) + Elements(run) == T.Leaf(start) + (Elements(found) + Elements(run));
    var rest := FirstFree(T.Leaf(v), n - |found| - k);
    assert (found + run) + rest == found + (run + rest);
  }

  lemma RunTree(ws: seq<bv64>, us: seq<bv64>, vs: seq<bv64>, numBlocks: seq<nat>, numLayers: nat, p: nat, k: nat)
    requires Laid(ws, numBlocks, numLayers) && T.Valid(TreeOf(ws, numBlocks, numLayers))
    requires p < numBlocks[numLayers - 1] && 1 <= k <= 64
    requires Start(numBlocks, numLayers - 1) + p < |ws|
    requires EmptyBlock(ws[Start(numBlocks, numLayers - 1) + p])
    requires var i := Start(numBlocks, numLayers - 1) + p;
             us == ws[i := Or(ws[i], GenerateMask(0, k))]
    requires Laid(us, numBlocks, numLayers) && Laid(vs, numBlocks, numLayers)
    requires TreeOf(vs, numBlocks, numLayers) == SetRest(us, numBlocks, numLayers, numLayers - 1, 64 * p + k - 1)
    ensures var t, v := TreeOf(ws, numBlocks, numLayers), TreeOf(vs, numBlocks, numLayers);
            && T.SameShape(t, v) && T.Valid(v) && T.Leaf(v) == T.Leaf(t) + Elements(Run(64 * p, k))
            && forall b :: 64 * p <= b < 64 * p + k ==> b !in T.Leaf(t)
  {
    hide T.Valid, T.Leaf, T.SetFrom, TreeOf, Start, Or, GenerateMask, EmptyBlock;
    var t := TreeOf(ws, numBlocks, numLayers);
    var i := Start(numBlocks, numLayers - 1) + p;
    LaidWrite(ws, numBlocks, numLayers, numLayers - 1, p, Or(ws[i], GenerateMask(0, k)));
    assert TreeOf(us, numBlocks, numLayers) == T.OrMask(t, p, k);
    T.MaskedRun(t, p, k);
    RunIsFree(t, p, k);
  }

  lemma RunIsFree(t: T.Tree, p: nat, k: nat)
    requires T.Shaped(t) && p < |t[|t| - 1]| && EmptyBlock(t[|t| - 1][p]) && k <= 64
    ensures forall b :: 64 * p <= b < 64 * p + k ==> b !in T.Leaf(t)
  {
    EmptyBlockBits(t[|t| - 1][p]);
    forall b | 64 * p <= b < 64 * p + k ensures b !in T.Leaf(t) {
      assert !Get(t[|t| - 1][p], b % 64);
    }
  }

  /** The next free slot after word p has been filled: in word p + 1, or wherever the index leads. */
  lemma BulkNext(ws: seq<bv64>, numBlocks: seq<nat>, numLayers: nat,
                 start: T.Tree, size: nat, n: nat, found: seq<nat>, p: nat)
    requires Bulk(ws, numBlocks, numLayers, start, size, n, found) && |found| < n
    requires p < numBlocks[numLayers - 1]
    requires forall b :: 0 <= b < 64 * p + 64 ==> b in Taken(ws, numBlocks, numLayers)
    ensures p + 1 < numBlocks[numLayers - 1]
    ensures Start(numBlocks, numLayers - 1) + p + 1 < |ws|
    ensures var w := ws[Start(numBlocks, numLayers - 1) + p + 1];
            !FullBlock(w) ==> 64 * (p + 1) + FirstFalseBit(w) == LeastFree(Taken(ws, numBlocks, numLayers))
  {
    hide Bulk, Laid, TreeOf, T.Leaf, Start, FullBlock, FirstFalseBit, Get;
    BulkRoom(ws, numBlocks, numLayers, start, size, n, found);
    var s := Taken(ws, numBlocks, numLayers);
    assert LeastFree(s) >= 64 * p + 64;
    ReadWord(ws, numBlocks, numLayers, p + 1);
    var w := ws[Start(numBlocks, numLayers - 1) + (p + 1)];
    if !FullBlock(w) {
      FirstFalseBitIsFirst(w);
      var f := 64 * (p + 1) + FirstFalseBit(w);
      forall b: nat | b <= f ensures b in s <==> b < f {
        if b >= 64 * (p + 1) { ReadBit(ws, numBlocks, numLayers, b); }
      }
      LeastFreeUnique(s, f);
    }
  }

  lemma EmptyWordFirst(ws: seq<bv64>, numBlocks: seq<nat>, numLayers: nat, b: nat)
    requires Laid(ws, numBlocks, numLayers) && b < 64 * numBlocks[numLayers - 1]
    requires b == LeastFree(Taken(ws, numBlocks, numLayers))
    requires Start(numBlocks, numLayers - 1) + b / 64 < |ws|
    requires EmptyBlock(ws[Start(numBlocks, numLayers - 1) + b / 64])
    ensures b == 64 * (b / 64)
  {
    hide Start, Laid, TreeOf, T.Leaf;
    ReadBit(ws, numBlocks, numLayers, 64 * (b / 64));
    GetNot(0, 0);
  }

  lemma RunCovers(s: set<nat>, start: nat, k: nat)
    requires forall b: nat :: b < start ==> b in s
    ensures forall b: nat :: b < start + k ==> b in s + Elements(Run(start, k))
  {
    forall b: nat | start <= b < start + k ensures b in Run(start, k) { assert Run(start, k)[b - start] == b; }
  }

  /** The empty-word branch of `find_and_set_many_in_multilayers`: takes up to a word's slots at once. */
  method TakeFromEmptyWord(words: array<bv64>, numLayers: nat, numIndexBlocks: nat, numBlocks: seq<nat>,
                           ghost start: T.Tree, ghost size: nat, n: nat, sofar: seq<nat>, blockPos: nat)
    returns (found: seq<nat>)
    requires |sofar| < n && Bulk(words[..], numBlocks, numLayers, start, size, n, sofar)
    requires numIndexBlocks == Start(numBlocks, numLayers - 1) && blockPos < numBlocks[numLayers - 1]
    requires blockPos + numIndexBlocks < words.Length && EmptyBlock(words[blockPos + numIndexBlocks])
    requires 64 * blockPos == LeastFree(Taken(words[..], numBlocks, numLayers))
    modifies words
    ensures |sofar| < |found| <= n
    ensures Bulk(words[..], numBlocks, numLayers, start, size, n, found)
    ensures |found| < n ==>
              forall b :: 0 <= b < 64 * blockPos + 64 ==> b in Taken(words[..], numBlocks, numLayers)
  {
    hide *;
    var globalBlockPos := blockPos + numIndexBlocks;
    ghost var ws := words[..];
    found := sofar;
    var bitPos := 64 * blockPos;
    var k := if n - |sofar| < 64 then n - |sofar| else 64;
    var i := 0;
    while i < k
      invariant 0 <= i <= k && bitPos == 64 * blockPos + i
      invariant found == sofar + Run(64 * blockPos, i)
    {
      found := found + [bitPos];
      i, bitPos := i + 1, bitPos + 1;
      assert Run(64 * blockPos, i) == Run(64 * blockPos, i - 1) + [bitPos - 1];
    }
    LaidWrite(ws, numBlocks, numLayers, numLayers - 1, blockPos, Or(ws[globalBlockPos], GenerateMask(0, k)));
    words[globalBlockPos] := Or(words[globalBlockPos], GenerateMask(0, k));
    ghost var us := words[..];
    assert us == ws[globalBlockPos := Or(ws[globalBlockPos], GenerateMask(0, k))];
    SetInMultilayers(words, numLayers, numIndexBlocks, numBlocks, bitPos - 1);
    BulkRun(ws, us, words[..], numBlocks, numLayers, start, size, n, sofar, blockPos, k);
    RunCovers(Taken(ws, numBlocks, numLayers), 64 * blockPos, k);
  }

  /** The other branch: takes the clear bits of a partly filled word one by one. */
  method TakeFromWord(words: array<bv64>, numLayers: nat, numIndexBlocks: nat, numBlocks: seq<nat>,
                      ghost start: T.Tree, ghost size: nat, n: nat, sofar: seq<nat>, bitPos0: nat)
    returns (found: seq<nat>)
    requires |sofar| < n && Bulk(words[..], numBlocks, numLayers, start, size, n, sofar)
    requires numIndexBlocks == Start(numBlocks, numLayers - 1)
    requires bitPos0 == LeastFree(Taken(words[..], numBlocks, numLayers)) < 64 * numBlocks[numLayers - 1]
    requires bitPos0 / 64 + numIndexBlocks < words.Length
    modifies words
    ensures |sofar| < |found| <= n
    ensures Bulk(words[..], numBlocks, numLayers, start, size, n, found)
    ensures |found| < n ==>
              forall b :: 0 <= b < 64 * (bitPos0 / 64) + 64 ==> b in Taken(words[..], numBlocks, numLayers)
  {
    hide *;
    found := sofar;
    var bitPos := bitPos0;
    var globalBlockPos := bitPos / 64 + numIndexBlocks;
    var i := bitPos % 64;
    while i < 64
      invariant i <= 64 && bitPos0 <= bitPos == 64 * (bitPos0 / 64) + i && |sofar| <= |found| < n
      invariant Bulk(words[..], numBlocks, numLayers, start, size, n, found)
      invariant bitPos == bitPos0 ==> bitPos !in Taken(words[..], numBlocks, numLayers)
      invariant bitPos > bitPos0 ==> |sofar| < |found|
      invariant forall b :: 0 <= b < bitPos ==> b in Taken(words[..], numBlocks, numLayers)
    {
      ReadBit(words[..], numBlocks, numLayers, bitPos);
      if !Get(words[globalBlockPos], i) {
        ghost var ws := words[..];
        LeastFreeUnique(Taken(ws, numBlocks, numLayers), bitPos);
        SetInMultilayers(words, numLayers, numIndexBlocks, numBlocks, bitPos);
        BulkOne(ws, words[..], numBlocks, numLayers, start, size, n, found, bitPos);
        found := found + [bitPos];
        if |found| == n { return; }
      }
      i, bitPos := i + 1, bitPos + 1;
    }
  }

  /** `find_and_set_many_in_multilayers`: whole runs from empty words, bit by bit from the others. */
  method FindAndSetManyInMultilayers(words: array<bv64>, numLayers: nat, numIndexBlocks: nat, numBlocks: seq<nat>,
                                     ghost size: nat, numRequestedBits: nat)
    returns (found: seq<nat>)
    requires Laid(words[..], numBlocks, numLayers) && numIndexBlocks == Start(numBlocks, numLayers - 1)
    requires Bulk(words[..], numBlocks, numLayers, TreeOf(words[..], numBlocks, numLayers), size, numRequestedBits, [])
    requires 0 < numRequestedBits
    modifies words
    ensures |found| == numRequestedBits
    ensures Bulk(words[..], numBlocks, numLayers, TreeOf(old(words[..]), numBlocks, numLayers), size,
                 numRequestedBits, found)
  {
    hide *;
    ghost var start := TreeOf(words[..], numBlocks, numLayers);
    var n := numRequestedBits;
    BulkRoom(words[..], numBlocks, numLayers, start, size, n, []);
    var bitPos := FindInMultilayers(words, numLayers, numBlocks);
    found := [];
    while true
      invariant |found| < n
      invariant Bulk(words[..], numBlocks, numLayers, start, size, n, found)
      invariant bitPos == LeastFree(Taken(words[..], numBlocks, numLayers)) < size
      decreases n - |found|
    {
      var blockPos := bitPos / 64;
      var globalBlockPos := blockPos + numIndexBlocks;
      ReadWord(words[..], numBlocks, numLayers, blockPos);
      if EmptyBlock(words[globalBlockPos]) {
        EmptyWordFirst(words[..], numBlocks, numLayers, bitPos);
        found := TakeFromEmptyWord(words, numLayers, numIndexBlocks, numBlocks, start, size, n, found, blockPos);
      } else {
        found := TakeFromWord(words, numLayers, numIndexBlocks, numBlocks, start, size, n, found, bitPos);
      }
      if |found| == n { return; }
      BulkNext(words[..], numBlocks, numLayers, start, size, n, found, blockPos);
      BulkRoom(words[..], numBlocks, numLayers, start, size, n, found);
      if FullBlock(words[globalBlockPos + 1]) {
        bitPos := FindInMultilayers(words, numLayers, numBlocks);
      } else {
        var bitPosInBlock := FirstFalseBit(words[globalBlockPos + 1]);
        bitPos := (blockPos + 1) * 64 + bitPosInBlock;
      }
    }
  }

  // ---------- The bitset ---------- //

  function IndexFor(size: nat): (idx: nat)
    requires 1 <= size <= Pow2(MAX_INDEX)
    ensures idx <= MAX_INDEX
    ensures size <= Pow2(idx) && (idx > 0 ==> Pow2(idx - 1) < size)
  {
    IndexInTable(size);
    CeilLog2(size)
  }

  lemma IndexInTable(size: nat)
    requires 1 <= size <= Pow2(MAX_INDEX)
    ensures CeilLog2(size) <= MAX_INDEX
  {
    hide Pow2;
    var idx := CeilLog2(size);
    if idx > MAX_INDEX { Pow2Mono(MAX_INDEX, idx - 1); }
  }

  /** What the tables promise about a bitset of `size` bits. */
  lemma SizeFits(size: nat)
    requires 1 <= size <= Pow2(MAX_INDEX)
    ensures var idx := IndexFor(size);
            && RowFits(NumBlocks(idx), NumLayers(idx), NumIndexBlocks(idx), if idx <= 6 then 64 else Pow2(idx))
            && size <= 64 * NumBlocks(idx)[NumLayers(idx) - 1]
            && (size <= 64 ==> NumLayers(idx) == 1 && Start(NumBlocks(idx), 1) == 1)
  {
    hide Pow2, NumBlocks, NumIndexBlocks, Start;
    var idx := IndexFor(size);
    TablesFit(idx);
    StartValues(NumBlocks(idx));
    Powers();
    if idx <= 6 { Pow2Mono(idx, 6); } else { Pow2Mono(6, idx - 1); }
  }

  ghost function NumAllBlocks(size: nat): nat
    requires 1 <= size <= Pow2(MAX_INDEX)
  {
    SizeFits(size);
    Start(NumBlocks(IndexFor(size)), NumLayers(IndexFor(size)))
  }

  /** The column of the tables is what the code computes: the number of trailing zeros of the next power of two. */
  lemma IndexComputed(size: nat)
    requires 1 <= size <= Pow2(MAX_INDEX)
    ensures IndexFor(size) == TrailingZeros(NextPowerOf2(Word(size)))
  {
    hide Pow2, CeilLog2, TrailingZeros, NextPowerOf2, Word;
    Pow2Mono(MAX_INDEX, 63);
    TableIndexCorrect(size);
  }

  /** How many bits the words of a bitset of `size` bits have room for. */
  function Capacity(size: nat): nat
    requires 1 <= size <= Pow2(MAX_INDEX)
  {
    if IndexFor(size) <= 6 then 64 else Pow2(IndexFor(size))
  }

  /** The capacity is that of the lowest layer; the bits need all of it only for certain powers of two. */
  lemma CapacityFits(size: nat)
    requires 1 <= size <= Pow2(MAX_INDEX)
    ensures var idx := IndexFor(size); RowFits(NumBlocks(idx), NumLayers(idx), NumIndexBlocks(idx), Capacity(size))
    ensures size <= Capacity(size)
    ensures size == Capacity(size) ==> exists j: nat :: j >= 3 && size == Pow2(j)
  {
    hide NumBlocks, NumLayers, NumIndexBlocks, Start;
    SizeFits(size);
    assert size == 64 ==> size == Pow2(6);
    if IndexFor(size) > 6 { assert size == Capacity(size) ==> size == Pow2(IndexFor(size)); }
  }

  /** The words of a bitset of `size` bits, as a tree. */
  ghost function ViewOf(size: nat, ws: seq<bv64>): (t: T.Tree)
    requires 1 <= size <= Pow2(MAX_INDEX) && |ws| == NumAllBlocks(size)
    ensures |t| >= 1
  {
    SizeFits(size);
    TreeOf(ws, NumBlocks(IndexFor(size)), NumLayers(IndexFor(size)))
  }

  /** A bitset of `size` bits: exact index words, and no bit set past the end. */
  ghost predicate ValidBits(size: nat, ws: seq<bv64>)
    ensures ValidBits(size, ws) ==>
              1 <= size <= Pow2(MAX_INDEX) && |ws| == NumAllBlocks(size) && T.Valid(ViewOf(size, ws))
  {
    && 1 <= size <= Pow2(MAX_INDEX)
    && |ws| == NumAllBlocks(size)
    && T.Valid(ViewOf(size, ws))
    && forall b :: b in T.Leaf(ViewOf(size, ws)) ==> b < size
  }

  /** The positions that are set. */
  ghost function MarkedBits(size: nat, ws: seq<bv64>): (s: set<nat>)
    requires ValidBits(size, ws)
    ensures forall b :: b in s ==> b < size
  {
    T.Leaf(ViewOf(size, ws))
  }

  lemma ViewLaid(size: nat, ws: seq<bv64>)
    requires 1 <= size <= Pow2(MAX_INDEX) && |ws| == NumAllBlocks(size)
    ensures var idx := IndexFor(size);
            && Laid(ws, NumBlocks(idx), NumLayers(idx))
            && NumIndexBlocks(idx) == Start(NumBlocks(idx), NumLayers(idx) - 1)
            && size <= 64 * NumBlocks(idx)[NumLayers(idx) - 1]
            && ViewOf(size, ws) == TreeOf(ws, NumBlocks(idx), NumLayers(idx))
            && |ViewOf(size, ws)[|ViewOf(size, ws)| - 1]| == NumBlocks(idx)[NumLayers(idx) - 1]
  {
    hide NumBlocks, NumLayers, NumIndexBlocks, Start, Pow2, TreeOf;
    SizeFits(size);
    var idx := IndexFor(size);
    var t := TreeOf(ws, NumBlocks(idx), NumLayers(idx));
    assert |t[0]| == 1;
  }

  /** With a free slot left, the search finds the lowest one, inside the bitset. */
  lemma ValidSearch(size: nat, ws: seq<bv64>)
    requires ValidBits(size, ws) && |MarkedBits(size, ws)| < size
    ensures var t := ViewOf(size, ws);
            && T.Valid(t) && T.RoomFor(t, 1) && T.HasOpen(t, |t| - 1)
            && T.FindAndSet(t).0 == LeastFree(MarkedBits(size, ws)) < size
  {
    hide NumBlocks, NumLayers, NumIndexBlocks, Start, Pow2, TreeOf, T.Leaf, ViewOf;
    ViewLaid(size, ws);
    var t := ViewOf(size, ws);
    T.RoomMeansOpen(t);
    T.FindAndSetCorrect(t);
    LeastFreeBelow(T.Leaf(t), size);
  }

  lemma ValidAfterSet(size: nat, ws: seq<bv64>, vs: seq<bv64>, b: nat)
    requires ValidBits(size, ws) && b < size && |vs| == |ws|
    requires var t := ViewOf(size, ws);
             b < 64 * |t[|t| - 1]| ==> ViewOf(size, vs) == T.SetSlot(t, b)
    ensures ValidBits(size, vs) && MarkedBits(size, vs) == MarkedBits(size, ws) + {b}
  {
    hide NumBlocks, NumLayers, NumIndexBlocks, Start, Pow2, TreeOf, T.Leaf, T.SetFrom, ViewOf;
    ViewLaid(size, ws);
    T.SetSlotCorrect(ViewOf(size, ws), b);
  }

  lemma ValidAfterReset(size: nat, ws: seq<bv64>, vs: seq<bv64>, b: nat)
    requires ValidBits(size, ws) && b < size && |vs| == |ws|
    requires var t := ViewOf(size, ws);
             b < 64 * |t[|t| - 1]| ==> ViewOf(size, vs) == T.ResetSlot(t, b)
    ensures ValidBits(size, vs) && MarkedBits(size, vs) == MarkedBits(size, ws) - {b}
  {
    hide NumBlocks, NumLayers, NumIndexBlocks, Start, Pow2, TreeOf, T.Leaf, T.ResetFrom, ViewOf;
    ViewLaid(size, ws);
    T.ResetSlotCorrect(ViewOf(size, ws), b);
  }

  method CountAllBlocks(size: nat) returns (numBlocks: nat)
    requires 1 <= size <= Pow2(MAX_INDEX)
    ensures numBlocks == NumAllBlocks(size)
  {
    SizeFits(size);
    hide NumBlocks, NumLayers, NumIndexBlocks, Pow2;
    var idx := IndexFor(size);
    numBlocks := 0;
    var layer := 0;
    while layer < NumLayers(idx)
      invariant 0 <= layer <= NumLayers(idx) && numBlocks == Start(NumBlocks(idx), layer)
    {
      numBlocks := numBlocks + NumBlocks(idx)[layer];
      layer := layer + 1;
    }
  }

  // ---------- A bitset that fits one word ---------- //

  lemma SingleWord(size: nat, ws: seq<bv64>)
    requires 1 <= size <= 64 && size <= Pow2(MAX_INDEX) && |ws| == NumAllBlocks(size)
    ensures |ws| == 1 && ViewOf(size, ws) == [[ws[0]]]
  {
    hide NumBlocks, NumIndexBlocks, Pow2, NumLayers;
    SizeFits(size);
    var idx := IndexFor(size);
    var t := TreeOf(ws, NumBlocks(idx), NumLayers(idx));
    assert t[0] == Layer(ws, NumBlocks(idx), 0);
    assert Layer(ws, NumBlocks(idx), 0) == ws == [ws[0]];
    assert t == [[ws[0]]];
  }

  lemma SingleSet(w: bv64, b: nat)
    requires b < 64
    ensures T.Shaped([[w]]) && T.SetSlot([[w]], b) == [[Set(w, b)]]
    ensures T.ResetSlot([[w]], b) == [[Reset(w, b)]]
  {
    hide Set, Reset, FullBlock;
    var t: T.Tree := [[w]];
    assert |t[0]| == 1 && b / 64 == 0 && b % 64 == b;
    forall v: bv64 ensures T.PutWord(t, 0, 0, v) == [[v]] {
      assert t[0][0 := v] == [v];
    }
  }

  lemma SingleFind(w: bv64)
    requires T.Valid([[w]]) && T.RoomFor([[w]], 1)
    ensures T.FindAndSet([[w]]) == (FirstFalseBit(w), [[Set(w, FirstFalseBit(w))]])
    ensures FirstFalseBit(w) < 64
  {
    hide FirstFalseBit, Set, FullBlock, T.Leaf, T.SetFrom;
    var t: T.Tree := [[w]];
    assert t[0] == [w];
    T.RoomMeansOpen(t);
    T.RootOpen(t);
    assert !FullBlock(w);
    FirstFalseBitIsFirst(w);
    assert T.Find(t) == T.NextPosition(t, 0, 0) == FirstFalseBit(w);
    SingleSet(w, FirstFalseBit(w));
  }

  lemma OneLayer(size: nat)
    requires 1 <= size <= 64 && size <= Pow2(MAX_INDEX)
    ensures NumLayers(IndexFor(size)) == 1 && Start(NumBlocks(IndexFor(size)), 0) == 0
  {
    hide NumBlocks, NumIndexBlocks, Pow2, NumLayers;
    SizeFits(size);
  }

  lemma ManyRoom(size: nat, ws: seq<bv64>, n: nat)
    requires ValidBits(size, ws) && |MarkedBits(size, ws)| + n <= size
    ensures T.Valid(ViewOf(size, ws)) && T.RoomFor(ViewOf(size, ws), n)
  {
    hide NumBlocks, NumLayers, NumIndexBlocks, Start, Pow2, TreeOf, T.Leaf, ViewOf;
    ViewLaid(size, ws);
  }

  lemma ManyResult(size: nat, ws: seq<bv64>, vs: seq<bv64>, n: nat)
    requires ValidBits(size, ws) && |MarkedBits(size, ws)| + n <= size && |vs| == |ws|
    requires T.Valid(ViewOf(size, ws)) && T.RoomFor(ViewOf(size, ws), n)
    requires ViewOf(size, vs) == T.FindAndSetTimes(ViewOf(size, ws), n).1
    ensures ValidBits(size, vs)
    ensures T.FindAndSetTimes(ViewOf(size, ws), n).0 == FirstFree(MarkedBits(size, ws), n)
    ensures MarkedBits(size, vs) == MarkedBits(size, ws) + Elements(FirstFree(MarkedBits(size, ws), n))
  {
    hide NumBlocks, NumLayers, NumIndexBlocks, Start, Pow2, TreeOf, T.Leaf, ViewOf;
    T.FindAndSetTimesCorrect(ViewOf(size, ws), n);
    FirstFreeFacts(MarkedBits(size, ws), n, size);
  }

  /** The words of an all-clear bitset. */
  lemma ZeroWords(size: nat, ws: seq<bv64>)
    requires 1 <= size <= Pow2(MAX_INDEX) && |ws| == NumAllBlocks(size)
    requires forall i :: 0 <= i < |ws| ==> ws[i] == 0
    ensures ValidBits(size, ws) && MarkedBits(size, ws) == {}
  {
    hide NumBlocks, NumLayers, NumIndexBlocks, Start, Pow2, T.Valid, T.Leaf;
    ViewLaid(size, ws);
    T.EmptyTree(ViewOf(size, ws));
  }

  // ---------- The class ---------- //

  function ToNat(w: bv64): (n: nat)
    ensures n <= UINT64_MAX
  {
    w as nat
  }

  function ToWord(n: nat): bv64
    requires n <= UINT64_MAX
  {
    n as bv64
  }

  lemma BackToWord(w: bv64)
    ensures ToWord(ToNat(w)) == w
  {}

  /** The words as numbers. */
  function Nats(ws: seq<bv64>): (ns: seq<nat>)
    ensures |ns| == |ws| && forall i :: 0 <= i < |ws| ==> ns[i] == ToNat(ws[i]) && ns[i] <= UINT64_MAX
  {
    seq(|ws|, i requires 0 <= i < |ws| => ToNat(ws[i]))
  }

  /** Numbers as words. */
  function Words(ns: seq<nat>): (ws: seq<bv64>)
    requires forall i :: 0 <= i < |ns| ==> ns[i] <= UINT64_MAX
    ensures |ws| == |ns| && forall i :: 0 <= i < |ns| ==> ws[i] == ToWord(ns[i])
  {
    seq(|ns|, i requires 0 <= i < |ns| => ToWord(ns[i]))
  }

  /** The words after ws was written over the first of them; words past the end are dropped. */
  function Overwrite(before: seq<bv64>, ws: seq<bv64>): (after: seq<bv64>)
    ensures |after| == |before|
    ensures forall i :: 0 <= i < |before| ==> after[i] == if i < |ws| then ws[i] else before[i]
  {
    if |ws| <= |before| then ws + before[|ws|..] else ws[..|before|]
  }

  lemma WordsOfNats(ws: seq<bv64>)
    ensures Words(Nats(ws)) == ws
  {
    hide ToNat, ToWord;
    forall i | 0 <= i < |ws| ensures Words(Nats(ws))[i] == ws[i] { BackToWord(ws[i]); }
  }

  lemma NumbersStep(ns: seq<nat>, i: nat)
    requires i < |ns|
    ensures Numbers(ns[..i + 1]) == if i == 0 then Decimal(ns[0]) else Numbers(ns[..i]) + " " + Decimal(ns[i])
  {
    hide Decimal;
    assert ns[..i + 1][..i] == ns[..i];
  }

  class MultilayerBitset {
    var words: array<bv64>

    ghost predicate Valid(size: nat)
      reads this, words
    {
      ValidBits(size, words[..])
    }

    ghost function Marked(size: nat): set<nat>
      requires Valid(size)
      reads this, words
    {
      MarkedBits(size, words[..])
    }

    ghost function View(size: nat): T.Tree
      requires Valid(size)
      reads this, words
    {
      ViewOf(size, words[..])
    }

    /** The bitset a stored word sequence stands for. */
    constructor FromWords(ws: seq<bv64>)
      ensures words[..] == ws && fresh(words)
    {
      words := new bv64[|ws|](i requires 0 <= i < |ws| => ws[i]);
    }

    /** `allocate`: an all-clear bitset. */
    constructor Allocate(size: nat)
      requires 1 <= size <= Pow2(MAX_INDEX)
      ensures Valid(size) && Marked(size) == {} && fresh(words)
    {
      hide ValidBits, MarkedBits, NumAllBlocks, Pow2;
      var numBlocks := CountAllBlocks(size);
      words := new bv64[numBlocks](_ => 0);
      new;
      ZeroWords(size, words[..]);
    }

    /** `find_and_set`: takes the lowest clear bit. */
    method FindAndSet(size: nat) returns (pos: nat)
      requires Valid(size) && |Marked(size)| < size
      modifies words
      ensures pos == LeastFree(old(Marked(size))) < size
      ensures Valid(size) && Marked(size) == old(Marked(size)) + {pos}
    {
      hide NumBlocks, NumLayers, NumIndexBlocks, NumAllBlocks, Start, Pow2, TreeOf, ViewOf, ValidBits, Laid,
           T.Leaf, T.Valid, T.SetFrom, T.FindAndSet, Set, FirstFalseBit, FullBlock;
      ghost var ws := words[..];
      ValidSearch(size, ws);
      ViewLaid(size, ws);
      if size <= 64 {
        SingleWord(size, ws);
        SingleFind(words[0]);
        SingleSet(words[0], FirstFalseBit(words[0]));
        pos := FirstFalseBit(words[0]);
        words[0] := Set(words[0], pos);
        SingleWord(size, words[..]);
      } else {
        var idx := IndexFor(size);
        pos := FindInMultilayers(words, NumLayers(idx), NumBlocks(idx));
        SetInMultilayers(words, NumLayers(idx), NumIndexBlocks(idx), NumBlocks(idx), pos);
        ViewLaid(size, words[..]);
      }
      ValidAfterSet(size, ws, words[..], pos);
    }

    /** `reset`: clears one bit. */
    method Reset(size: nat, bitPos: nat)
      requires Valid(size) && bitPos < size
      modifies words
      ensures Valid(size) && Marked(size) == old(Marked(size)) - {bitPos}
    {
      hide NumBlocks, NumLayers, NumIndexBlocks, NumAllBlocks, Start, Pow2, TreeOf, ViewOf, ValidBits, Laid,
           T.Leaf, T.Valid, T.ResetFrom, B.Reset, FullBlock;
      ghost var ws := words[..];
      ViewLaid(size, ws);
      if size <= 64 {
        SingleWord(size, ws);
        SingleSet(words[0], bitPos);
        words[0] := B.Reset(words[0], bitPos);
        SingleWord(size, words[..]);
      } else {
        var idx := IndexFor(size);
        ResetInMultilayers(words, NumLayers(idx), NumIndexBlocks(idx), NumBlocks(idx), bitPos);
        ViewLaid(size, words[..]);
      }
      ValidAfterReset(size, ws, words[..], bitPos);
    }

    /** `get`: reads one leaf bit; past the size, but in the words, it is clear. */
    method Get(size: nat, bitPos: nat) returns (marked: bool)
      requires Valid(size) && bitPos < Capacity(size)
      ensures marked <==> bitPos in Marked(size)
    {
      hide NumBlocks, NumLayers, NumIndexBlocks, NumAllBlocks, Start, Pow2, TreeOf, ViewOf, ValidBits, Laid,
           T.Leaf, T.Valid, B.Get, Capacity;
      ViewLaid(size, words[..]);
      CapacityFits(size);
      var idx := IndexFor(size);
      ReadBit(words[..], NumBlocks(idx), NumLayers(idx), bitPos);
      if size <= 64 {
        SingleWord(size, words[..]);
        OneLayer(size);
        marked := B.Get(words[0], bitPos);
      } else {
        marked := B.Get(words[NumIndexBlocks(idx) + bitPos / 64], bitPos % 64);
      }
    }

    /** `find_and_set_many`: the same bits, in the same order, and the same words - index words
        included - as that many single find-and-sets. */
    method FindAndSetMany(size: nat, numBitsToFind: nat) returns (found: seq<nat>)
      requires Valid(size) && |Marked(size)| + numBitsToFind <= size
      modifies words
      ensures Valid(size)
      ensures old(T.Valid(View(size)) && T.RoomFor(View(size), numBitsToFind))
      ensures (found, View(size)) == old(T.FindAndSetTimes(View(size), numBitsToFind))
      ensures found == FirstFree(old(Marked(size)), numBitsToFind)
      ensures Marked(size) == old(Marked(size)) + Elements(found)
    {
      hide NumBlocks, NumLayers, NumIndexBlocks, NumAllBlocks, Start, Pow2, TreeOf, ViewOf, ValidBits, Laid,
           T.Leaf, T.Valid, T.SetFrom, T.FindAndSet, Set, FirstFalseBit, FullBlock;
      ghost var ws := words[..];
      ViewLaid(size, ws);
      ManyRoom(size, ws, numBitsToFind);
      if numBitsToFind == 0 {
        found := [];
      } else if size <= 64 {
        found := FindAndSetManyInSingleBlock(size, numBitsToFind);
      } else {
        var idx := IndexFor(size);
        BulkStart(ws, NumBlocks(idx), NumLayers(idx), size, numBitsToFind);
        found := FindAndSetManyInMultilayers(words, NumLayers(idx), NumIndexBlocks(idx), NumBlocks(idx), size,
          numBitsToFind);
        BulkEnd(words[..], NumBlocks(idx), NumLayers(idx), ViewOf(size, ws), size, numBitsToFind, found);
        ViewLaid(size, words[..]);
      }
      ManyResult(size, ws, words[..], numBitsToFind);
    }

    method FindAndSetManyInSingleBlock(size: nat, numBitsToFind: nat) returns (found: seq<nat>)
      requires Valid(size) && size <= 64 && |Marked(size)| + numBitsToFind <= size
      requires T.Valid(View(size)) && T.RoomFor(View(size), numBitsToFind)
      modifies words
      ensures words.Length == old(words.Length)
      ensures (found, ViewOf(size, words[..])) == old(T.FindAndSetTimes(View(size), numBitsToFind))
    {
      hide NumBlocks, NumLayers, NumIndexBlocks, NumAllBlocks, Start, Pow2, TreeOf, ViewOf, ValidBits, Laid,
           T.Leaf, T.Valid, T.SetFrom, T.FindAndSet, Set, FirstFalseBit, FullBlock;
      found := [];
      ghost var t := View(size);
      SingleWord(size, words[..]);
      assert found + T.FindAndSetTimes(t, numBitsToFind).0 == T.FindAndSetTimes(t, numBitsToFind).0;
      var i := 0;
      while i < numBitsToFind
        invariant 0 <= i <= numBitsToFind && words.Length == 1
        invariant ViewOf(size, words[..]) == [[words[0]]]
        invariant T.Valid([[words[0]]]) && T.RoomFor([[words[0]]], numBitsToFind - i)
        invariant var rest := T.FindAndSetTimes([[words[0]]], numBitsToFind - i);
                  (found + rest.0, rest.1) == T.FindAndSetTimes(t, numBitsToFind)
      {
        ghost var w := words[0];
        T.FindAndSetCorrect([[w]]);
        SingleFind(w);
        var pos := FirstFalseBit(words[0]);
        words[0] := Set(words[0], pos);
        SingleWord(size, words[..]);
        ghost var rest := T.FindAndSetTimes([[words[0]]], numBitsToFind - i - 1);
        assert T.FindAndSetTimes([[w]], numBitsToFind - i) == ([pos] + rest.0, rest.1);
        assert found + ([pos] + rest.0) == (found + [pos]) + rest.0;
        found := found + [pos];
        i := i + 1;
      }
      assert found + [] == found;
    }

    /** `serialize`: all words, index words included, as decimal numbers. */
    method Serialize(size: nat) returns (text: string)
      requires Valid(size)
      ensures text == Numbers(Nats(words[..]))
    {
      hide ValidBits, NumAllBlocks, Numbers, Decimal, Pow2, ToNat, Nats, OneLine;
      ghost var ns := Nats(words[..]);
      BlockCount(size, words[..]);
      if size <= 64 {
        NumbersStep(ns, 0);
        assert ns[..1] == ns;
        return Decimal(ToNat(words[0]));
      }
      var numBlocks := CountAllBlocks(size);
      text := "";
      var i := 0;
      while i < numBlocks
        invariant 0 <= i <= numBlocks && (i == 0 ==> text == "") && (i > 0 ==> text == Numbers(ns[..i]))
      {
        NumbersStep(ns, i);
        if i != 0 { text := text + " "; }
        text := text + Decimal(ToNat(words[i]));
        i := i + 1;
      }
      assert ns[..i] == ns;
    }

    /** `deserialize` of any text. One word is read for a bitset of one word; `junk` is what the variable holds if
        there is no number to read. For a tree the words are read in order. A text with too few of them is refused,
        with the words it had written, and one with too many after one word was written past the end. */
    method Deserialize(size: nat, text: string, junk: bv64) returns (ok: bool, outside: bool)
      requires 1 <= size <= Pow2(MAX_INDEX) && words.Length == NumAllBlocks(size)
      modifies words
      ensures ok <==> size <= 64 || |ReadNumbers(text)| == NumAllBlocks(size)
      ensures outside <==> size > 64 && |ReadNumbers(text)| > NumAllBlocks(size)
      ensures var ws := Words(ReadNumbers(text));
              words[..] == if size <= 64 && ws == [] then [junk] else Overwrite(old(words[..]), ws)
    {
      hide NumAllBlocks, ReadNumber, ReadNumbers, Pow2, ToWord, Words, Overwrite;
      BlockCountPositive(size);
      ReadNumbersStep(text);
      ghost var before, ns := words[..], ReadNumbers(text);
      outside := false;
      var r := ReadNumber(text);
      if size <= 64 {
        words[0] := if r.Got? then ToWord(r.n) else junk;
        assert words[..] == if ns == [] then [junk] else Overwrite(before, Words(ns));
        return true, false;
      }
      var numBlocks := CountAllBlocks(size);
      ok, outside := ReadWords(text, numBlocks);
    }

    /** The loop of `deserialize` for a tree. */
    method ReadWords(text: string, numBlocks: nat) returns (ok: bool, outside: bool)
      requires words.Length == numBlocks
      modifies words
      ensures ok <==> |ReadNumbers(text)| == numBlocks
      ensures outside <==> |ReadNumbers(text)| > numBlocks
      ensures words[..] == Overwrite(old(words[..]), Words(ReadNumbers(text)))
    {
      hide ReadNumber, ReadNumbers, ToWord, Words, Overwrite;
      ghost var before, ns := words[..], ReadNumbers(text);
      ReadNumbersStep(text);
      outside := false;
      var r := ReadNumber(text);
      var count := 0;
      while r.Got?
        invariant 0 <= count <= |ns| && count <= numBlocks + 1 && numBlocks == words.Length
        invariant (r.Got? ==> [r.n] + ReadNumbers(r.rest) == ns[count..]) && (r.Failed? ==> count == |ns|)
        invariant r.Got? ==> r.n <= UINT64_MAX
        invariant outside <==> count > numBlocks
        invariant forall i :: 0 <= i < words.Length ==> words[i] == if i < count then Words(ns)[i] else before[i]
        decreases |ns| - count
      {
        if numBlocks < count {
          assert words[..] == Overwrite(before, Words(ns));
          return false, outside;
        }
        assert ns[count..][0] == r.n && ns[count..][1..] == ns[count + 1..];
        if count < numBlocks { words[count] := ToWord(r.n); } else { outside := true; }
        count := count + 1;
        var rest := r.rest;
        assert ReadNumbers(rest) == ns[count..];
        ReadNumbersStep(rest);
        r := ReadNumber(rest);
      }
      assert words[..] == Overwrite(before, Words(ns));
      ok := count == numBlocks;
    }
  }

  lemma BlockCount(size: nat, ws: seq<bv64>)
    requires ValidBits(size, ws)
    ensures 1 <= size <= Pow2(MAX_INDEX) && |ws| == NumAllBlocks(size) >= 1 && (size <= 64 ==> |ws| == 1)
  {
    BlockCountPositive(size);
  }

  lemma BlockCountPositive(size: nat)
    requires 1 <= size <= Pow2(MAX_INDEX)
    ensures NumAllBlocks(size) >= 1 && (size <= 64 ==> NumAllBlocks(size) == 1)
  {
    hide NumBlocks, NumIndexBlocks, Pow2, NumLayers, Start;
    SizeFits(size);
    var idx := IndexFor(size);
    StartMono(NumBlocks(idx), NumLayers(idx) - 1, NumLayers(idx));
  }
}
