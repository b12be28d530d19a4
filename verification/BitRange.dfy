/** Setting or clearing a range of bits in an array of words (include/metall/detail/bitset.hpp). */
module BitRange {
  import opened Bits

  /** Bit i of the array, counted from the most significant bit of its first word. */
  predicate BitAt(ws: seq<bv64>, i: nat)
    requires i < 64 * |ws|
  {
    Get(ws[i / 64], i % 64)
  }

  function Apply(w: bv64, mask: bv64, setMode: bool): bv64 { if setMode then Or(w, mask) else Minus(w, mask) }

  lemma ApplyBits(w: bv64, start: nat, n: nat, setMode: bool, i: nat)
    requires 1 <= start + n <= 64 && i < 64
    ensures Get(Apply(w, GenerateMask(start, n), setMode), i) == if start <= i < start + n then setMode else Get(w, i)
  {
    hide Mask, Or, Minus, GenerateMask, Meets;
    GetMask(start, n, i);
    var mask := GenerateMask(start, n);
    if setMode {
      GetOr(w, mask, i);
    } else {
      MaskFacts(i);
      MinusMeets(w, mask, Mask(i));
    }
  }

  /** Word k has its final bits. */
  ghost predicate WordDone(before: bv64, after: bv64, k: nat, start: nat, n: nat, setMode: bool) {
    forall i :: 0 <= i < 64 ==> Get(after, i) == if start <= 64 * k + i < start + n then setMode else Get(before, i)
  }

  /** Word k when the bits from s to s + m of it are updated. */
  lemma MaskedWord(w: bv64, k: nat, start: nat, n: nat, setMode: bool, s: nat, m: nat)
    requires 1 <= s + m <= 64
    requires s == if start <= 64 * k then 0 else start - 64 * k
    requires s + m == if 64 * k + 64 <= start + n then 64 else start + n - 64 * k
    ensures WordDone(w, Apply(w, GenerateMask(s, m), setMode), k, start, n, setMode)
  {
    hide Apply, GenerateMask, Get;
    forall i | 0 <= i < 64
      ensures Get(Apply(w, GenerateMask(s, m), setMode), i) ==
              if start <= 64 * k + i < start + n then setMode else Get(w, i)
    {
      ApplyBits(w, s, m, setMode, i);
    }
  }

  lemma WholeWord(w: bv64, k: nat, start: nat, n: nat, setMode: bool)
    requires start <= 64 * k && 64 * k + 64 <= start + n
    ensures WordDone(w, if setMode then ONES else 0, k, start, n, setMode)
  {
    hide Get;
    EmptyBlockBits(0);
    FullBlockBits(ONES);
    assert EmptyBlock(0) && FullBlock(ONES);
  }

  lemma OtherWord(w: bv64, k: nat, start: nat, n: nat, setMode: bool)
    requires 64 * k + 64 <= start || start + n <= 64 * k
    ensures WordDone(w, w, k, start, n, setMode)
  {}

  lemma AllDone(before: seq<bv64>, after: seq<bv64>, start: nat, n: nat, setMode: bool)
    requires |after| == |before|
    requires forall k :: 0 <= k < |before| ==> WordDone(before[k], after[k], k, start, n, setMode)
    ensures forall i :: 0 <= i < 64 * |before| ==>
              BitAt(after, i) == if start <= i < start + n then setMode else BitAt(before, i)
  {
    hide Get;
    forall i | 0 <= i < 64 * |before|
      ensures BitAt(after, i) == if start <= i < start + n then setMode else BitAt(before, i)
    {
      assert WordDone(before[i / 64], after[i / 64], i / 64, start, n, setMode);
    }
  }

  /** No bits at the start of a word: the mask is empty, and every word stays as it is, if and only if the overflow
      is zero. Where a shift takes its distance modulo the width, the overflow is 1 and the mask is the whole word. */
  lemma NoBits(overflow: bv64)
    ensures (forall w, setMode :: Apply(w, NoBitsMask(overflow), setMode) == w) <==> overflow == 0
    ensures NoBitsMask(1) == ONES
  {
    var mask := NoBitsMask(overflow);
    assert mask == 0 <==> overflow == 0;
    assert Apply(0, mask, true) == mask;
    forall w ensures Or(w, 0) == w && Minus(w, 0) == w {}
  }

  /** The branch for several words: head, middle and tail. */
  method UpdateSeveral(bitset: array<bv64>, start: nat, n: nat, setMode: bool)
    requires start + n <= 64 * bitset.Length && start % 64 + n > 64
    modifies bitset
    ensures forall k :: 0 <= k < bitset.Length ==> WordDone(old(bitset[k]), bitset[k], k, start, n, setMode)
  {
    hide Apply, GenerateMask, WordDone;
    ghost var ws := bitset[..];
    var first, local, last := start / 64, start % 64, (start + n - 1) / 64;
    forall k | 0 <= k < bitset.Length && !(first <= k <= last) ensures WordDone(ws[k], ws[k], k, start, n, setMode) {
      OtherWord(ws[k], k, start, n, setMode);
    }
    MaskedWord(ws[first], first, start, n, setMode, local, 64 - local);
    bitset[first] := Apply(bitset[first], GenerateMask(local, 64 - local), setMode);
    var numBlocks := last - first + 1;
    var i := 0;
    while i < numBlocks - 2
      invariant 0 <= i <= numBlocks - 2
      invariant forall k :: first <= k <= first + i ==> WordDone(ws[k], bitset[k], k, start, n, setMode)
      invariant forall k :: 0 <= k < bitset.Length && !(first <= k <= first + i) ==> bitset[k] == ws[k]
    {
      WholeWord(ws[first + i + 1], first + i + 1, start, n, setMode);
      bitset[i + first + 1] := if setMode then ONES else 0;
      i := i + 1;
    }
    var toFill := (start + n - 1) % 64 + 1;
    MaskedWord(ws[last], last, start, n, setMode, 0, toFill);
    bitset[last] := Apply(bitset[last], GenerateMask(0, toFill), setMode);
  }

  /** `update_n_bits`: exactly the n bits from `start` on take the new value, in one word or across several. No bits at
      the start of a word are updated with the mask that a shift by the whole width gives. */
  method UpdateNBits(bitset: array<bv64>, start: nat, n: nat, setMode: bool, overflow: bv64)
    requires start + n <= 64 * bitset.Length && start < 64 * bitset.Length
    modifies bitset
    ensures 1 <= n || start % 64 != 0 || overflow == 0 ==>
              forall i :: 0 <= i < 64 * bitset.Length ==>
                BitAt(bitset[..], i) == if start <= i < start + n then setMode else BitAt(old(bitset[..]), i)
    ensures n == 0 && start % 64 == 0 ==>
              var k := start / 64;
              bitset[..] == old(bitset[..])[k := Apply(old(bitset[k]), NoBitsMask(overflow), setMode)]
  {
    hide Get, Apply, GenerateMask, WordDone, BitAt, NoBitsMask;
    ghost var ws := bitset[..];
    var first, local := start / 64, start % 64;
    if local + n > 64 {
      UpdateSeveral(bitset, start, n, setMode);
      AllDone(ws, bitset[..], start, n, setMode);
    } else if local + n > 0 {
      MaskedWord(ws[first], first, start, n, setMode, local, n);
      forall k | 0 <= k < bitset.Length && k != first ensures WordDone(ws[k], ws[k], k, start, n, setMode) {
        OtherWord(ws[k], k, start, n, setMode);
      }
      bitset[first] := Apply(bitset[first], GenerateMask(local, n), setMode);
      AllDone(ws, bitset[..], start, n, setMode);
    } else {
      NoBits(overflow);
      bitset[first] := Apply(bitset[first], NoBitsMask(overflow), setMode);
      assert bitset[..] == ws[first := bitset[first]];
      assert overflow == 0 ==> bitset[first] == ws[first] && bitset[..] == ws;
    }
  }
}
