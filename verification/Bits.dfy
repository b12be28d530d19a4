/** 64-bit words seen as rows of bits, bit 0 at the most significant end
    (include/metall/detail/bitset.hpp, include/metall/detail/utilities.hpp). */
module Bits {

  const BLOCK_SIZE: nat := 64
  const TOP: bv64 := 0x8000_0000_0000_0000
  const ONES: bv64 := 0xFFFF_FFFF_FFFF_FFFF

  /** `1 << (63 - i)`, written as the top bit moved down i places. */
  function Mask(i: nat): bv64 {
    if i == 0 then TOP else Half(Mask(i - 1))
  }

  function Half(m: bv64): bv64 { m >> 1 }

  function And(a: bv64, b: bv64): bv64 { a & b }

  predicate Meets(a: bv64, b: bv64) { And(a, b) != 0 }

  function Or(a: bv64, b: bv64): bv64 { a | b }

  function Minus(a: bv64, b: bv64): bv64 { a & !b }

  predicate Get(w: bv64, i: nat) { Meets(w, Mask(i)) }

  function Set(w: bv64, i: nat): bv64 { Or(w, Mask(i)) }

  function Reset(w: bv64, i: nat): bv64 { Minus(w, Mask(i)) }

  predicate FullBlock(w: bv64) { w + 1 == 0 }

  predicate EmptyBlock(w: bv64) { w == 0 }

  /** The bits after a single-bit mask. */
  function Below(m: bv64): bv64 { m - 1 }

  /** `generate_mask<64>(start, n)`. */
  function GenerateMask(start: nat, n: nat): bv64
    requires 1 <= start + n <= 64
  {
    var x := if start == 0 then ONES else Below(Mask(start - 1));
    var tailMask := Below(Mask(start + n - 1));
    Minus(x, tailMask)
  }

  /** `generate_mask<64>(0, 0)`. It shifts 1 by the whole width, which the language does not define: the machine
      gives `overflow`. */
  function NoBitsMask(overflow: bv64): bv64 { Minus(ONES, Below(overflow)) }

  /** `clzll`: the number of clear bits before the first set one, from bit i on. */
  function LeadingZeros(w: bv64, i: nat := 0): (z: nat)
    requires i <= 64
    ensures i <= z <= 64
    ensures forall j :: i <= j < z ==> !Get(w, j)
    ensures z < 64 ==> Get(w, z)
    decreases 64 - i
  {
    if i == 64 || Get(w, i) then i else LeadingZeros(w, i + 1)
  }

  function FirstFalseBit(w: bv64): nat {
    if EmptyBlock(w) then 0 else LeadingZeros(!w)
  }

  // ---------- Single-bit masks ---------- //

  ghost predicate OneBit(m: bv64) { m != 0 && m & (m - 1) == 0 }

  ghost function Amount(i: nat): bv7 { if i == 0 then 0 else More(Amount(i - 1)) }

  lemma {:induction false} AmountIs(i: nat)
    requires i <= 64
    ensures Amount(i) as int == i
  {
    if i > 0 {
      AmountIs(i - 1);
      assert Amount(i) == Amount(i - 1) + 1;
      assert Amount(i - 1) <= 63;
    }
  }

  ghost predicate Small(a: bv7) { a < 64 }

  /** The top bit moved down. */
  ghost function Down(a: bv7): bv64 {
    if a < 64 then TOP >> a else 0
  }

  ghost function More(a: bv7): bv7 { a + 1 }

  lemma DownStep(a: bv7)
    requires Small(a) && Small(More(a))
    ensures Half(Down(a)) == Down(More(a)) && OneBit(Down(More(a)))
  {}

  lemma DownStart()
    ensures Down(0) == TOP && OneBit(TOP)
  {}

  lemma AmountSmall(i: nat)
    requires i < 64
    ensures Small(Amount(i))
  {
    AmountIs(i);
  }

  lemma {:induction false} MaskDown(i: nat)
    requires i < 64
    ensures Mask(i) == Down(Amount(i)) && OneBit(Mask(i))
  {
    hide OneBit, Down, Small, Half, More;
    if i == 0 {
      DownStart();
    } else {
      MaskDown(i - 1);
      AmountSmall(i - 1);
      AmountSmall(i);
      DownStep(Amount(i - 1));
    }
  }

  lemma MaskFacts(i: nat)
    requires i < 64
    ensures OneBit(Mask(i))
  {
    hide OneBit, Down, Half;
    MaskDown(i);
  }

  predicate Less(a: bv64, b: bv64) { a < b }

  lemma HalfLess(m: bv64, n: bv64)
    requires OneBit(m)
    ensures Less(Half(m), m) && (Less(m, n) ==> Less(Half(m), n))
  {}

  lemma LessOneWay(a: bv64, b: bv64)
    ensures !(Less(a, b) && Less(b, a))
  {}

  lemma {:induction false} MaskOrder(i: nat, j: nat)
    requires i < j < 64
    ensures Less(Mask(j), Mask(i))
  {
    hide OneBit, Less, Half;
    MaskFacts(j - 1);
    HalfLess(Mask(j - 1), Mask(i));
    if i < j - 1 {
      MaskOrder(i, j - 1);
    }
  }

  lemma DownToOne(a: bv7)
    requires a as int == 63
    ensures Down(a) == 1
  {
    assert a == 63;
  }

  lemma LowestMask()
    ensures Mask(63) == 1
  {
    hide Down, Mask, Amount, OneBit;
    MaskDown(63);
    AmountIs(63);
    DownToOne(Amount(63));
  }

  lemma BelowOneBit(m: bv64, x: bv64)
    requires OneBit(m) && Less(x, m)
    ensures !Meets(x, m) && !Meets(m, x)
  {}

  lemma MasksDisjoint(i: nat, j: nat)
    requires i < 64 && j < 64
    ensures Meets(Mask(i), Mask(j)) <==> i == j
  {
    hide Mask, OneBit, Less, Meets;
    MaskFacts(i);
    MaskFacts(j);
    if i < j {
      MaskOrder(i, j);
      BelowOneBit(Mask(i), Mask(j));
    } else if j < i {
      MaskOrder(j, i);
      BelowOneBit(Mask(j), Mask(i));
    } else {
      MeetsItself(Mask(i));
    }
  }

  lemma MeetsItself(m: bv64)
    requires OneBit(m)
    ensures Meets(m, m)
  {}

  // ---------- What each word operation does to the bits ---------- //

  lemma OrDistributes(w: bv64, v: bv64, m: bv64)
    ensures And(Or(w, v), m) == Or(And(w, m), And(v, m))
  {
    assert (w | v) & m == (w & m) | (v & m);
  }

  lemma OrZero(a: bv64, b: bv64)
    ensures Or(a, b) == 0 <==> a == 0 && b == 0
  {}

  lemma OrMeets(w: bv64, v: bv64, m: bv64)
    ensures Meets(Or(w, v), m) <==> Meets(w, m) || Meets(v, m)
  {
    hide And, Or;
    OrDistributes(w, v, m);
    OrZero(And(w, m), And(v, m));
  }

  lemma OneBitOrNone(v: bv64, m: bv64)
    requires OneBit(m)
    ensures And(v, m) == 0 || And(v, m) == m
  {}

  lemma MinusByMask(w: bv64, v: bv64, m: bv64)
    ensures And(v, m) == 0 ==> And(Minus(w, v), m) == And(w, m)
    ensures And(v, m) == m ==> And(Minus(w, v), m) == 0
  {}

  lemma MinusMeets(w: bv64, v: bv64, m: bv64)
    requires OneBit(m)
    ensures Meets(Minus(w, v), m) <==> Meets(w, m) && !Meets(v, m)
  {
    hide And, Minus;
    OneBitOrNone(v, m);
    MinusByMask(w, v, m);
  }

  lemma NotMeets(w: bv64, m: bv64)
    requires OneBit(m)
    ensures Meets(!w, m) <==> !Meets(w, m)
    ensures Meets(ONES, m) && !Meets(0, m)
  {}

  lemma GetOr(w: bv64, v: bv64, i: nat)
    ensures Get(Or(w, v), i) <==> Get(w, i) || Get(v, i)
  {
    hide Mask, Meets, Or;
    OrMeets(w, v, Mask(i));
  }

  lemma GetSet(w: bv64, i: nat, j: nat)
    requires i < 64 && j < 64
    ensures Get(Set(w, i), j) <==> i == j || Get(w, j)
  {
    hide Mask, Meets, Or;
    MasksDisjoint(i, j);
    OrMeets(w, Mask(i), Mask(j));
  }

  lemma GetReset(w: bv64, i: nat, j: nat)
    requires i < 64 && j < 64
    ensures Get(Reset(w, i), j) <==> i != j && Get(w, j)
  {
    hide Mask, Meets, Minus, OneBit;
    MaskFacts(j);
    MasksDisjoint(i, j);
    MinusMeets(w, Mask(i), Mask(j));
  }

  lemma GetNot(w: bv64, i: nat)
    requires i < 64
    ensures Get(!w, i) <==> !Get(w, i)
    ensures Get(ONES, i) && !Get(0, i)
  {
    hide Mask, Meets, OneBit;
    MaskFacts(i);
    NotMeets(w, Mask(i));
  }

  lemma LowerHalf(d: bv64, m: bv64)
    requires OneBit(m) && OneBit(Half(m)) && Less(d, m) && !Meets(d, Half(m))
    ensures Less(d, Half(m))
  {}

  ghost function Difference(a: bv64, b: bv64): bv64 { Or(Minus(a, b), Minus(b, a)) }

  lemma DifferenceBit(a: bv64, b: bv64, m: bv64)
    requires OneBit(m)
    ensures Meets(Difference(a, b), m) <==> Meets(a, m) != Meets(b, m)
  {
    hide OneBit, Meets, Or, Minus;
    OrMeets(Minus(a, b), Minus(b, a), m);
    MinusMeets(a, b, m);
    MinusMeets(b, a, m);
  }

  lemma TopBitClear(d: bv64)
    requires !Meets(d, TOP)
    ensures Less(d, TOP)
  {}

  lemma {:induction false} AgreePrefix(a: bv64, b: bv64, k: nat)
    requires k < 64
    requires forall i :: 0 <= i <= k ==> (Get(a, i) <==> Get(b, i))
    ensures Less(Difference(a, b), Mask(k))
  {
    hide Meets, OneBit, Less, Half, Difference;
    MaskFacts(k);
    assert Get(a, k) <==> Get(b, k);
    DifferenceBit(a, b, Mask(k));
    if k == 0 {
      TopBitClear(Difference(a, b));
    } else {
      AgreePrefix(a, b, k - 1);
      MaskFacts(k - 1);
      LowerHalf(Difference(a, b), Mask(k - 1));
    }
  }

  lemma NoDifference(a: bv64, b: bv64)
    requires Less(Difference(a, b), 1)
    ensures a == b
  {
    hide Or, Minus;
    OrZero(Minus(a, b), Minus(b, a));
    BothMinus(a, b);
  }

  lemma BothMinus(a: bv64, b: bv64)
    requires Minus(a, b) == 0 && Minus(b, a) == 0
    ensures a == b
  {}

  /** A word is its bits. */
  lemma WordExtensional(a: bv64, b: bv64)
    requires forall i :: 0 <= i < 64 ==> (Get(a, i) <==> Get(b, i))
    ensures a == b
  {
    hide Get, Less, Difference, Mask;
    AgreePrefix(a, b, 63);
    LowestMask();
    NoDifference(a, b);
  }

  lemma FullBlockBits(w: bv64)
    ensures FullBlock(w) <==> forall i :: 0 <= i < 64 ==> Get(w, i)
  {
    if FullBlock(w) {
      assert w == ONES;
      forall i | 0 <= i < 64 ensures Get(w, i) { GetNot(w, i); }
    }
    if forall i :: 0 <= i < 64 ==> Get(w, i) {
      forall i | 0 <= i < 64 ensures Get(w, i) <==> Get(ONES, i) { GetNot(w, i); }
      WordExtensional(w, ONES);
    }
  }

  lemma EmptyBlockBits(w: bv64)
    ensures EmptyBlock(w) <==> forall i :: 0 <= i < 64 ==> !Get(w, i)
  {
    if forall i :: 0 <= i < 64 ==> !Get(w, i) {
      forall i | 0 <= i < 64 ensures Get(w, i) <==> Get(0, i) { GetNot(w, i); }
      WordExtensional(w, 0);
    }
  }

  /** The leading-zero trick finds the first clear bit of any word that is not full. */
  lemma FirstFalseBitIsFirst(w: bv64)
    requires !FullBlock(w)
    ensures FirstFalseBit(w) < 64
    ensures !Get(w, FirstFalseBit(w))
    ensures forall j :: 0 <= j < FirstFalseBit(w) ==> Get(w, j)
  {
    FullBlockBits(w);
    forall i | 0 <= i < 64 ensures Get(!w, i) <==> !Get(w, i) { GetNot(w, i); }
    if EmptyBlock(w) { GetNot(w, 0); }
  }

  lemma BelowContains(m: bv64, n: bv64)
    requires OneBit(m) && OneBit(n) && Less(n, m)
    ensures Meets(Below(m), n)
  {
    assert (m - 1) & n == n;
  }

  lemma BelowIsLess(m: bv64, n: bv64)
    requires OneBit(m) && !Less(n, m)
    ensures Less(Below(m), n)
  {}

  lemma BelowMeets(m: bv64, n: bv64)
    requires OneBit(m) && OneBit(n)
    ensures Meets(Below(m), n) <==> Less(n, m)
  {
    hide Below, OneBit;
    if Less(n, m) { BelowContains(m, n); } else { BelowIsLess(m, n); BelowOneBit(n, Below(m)); }
  }

  lemma MaskCompare(i: nat, j: nat)
    requires i < 64 && j < 64
    ensures Meets(Below(Mask(i)), Mask(j)) <==> i < j
  {
    hide Mask, Meets, OneBit, Below, Less;
    MaskFacts(i);
    MaskFacts(j);
    LessOneWay(Mask(i), Mask(j));
    if i < j { MaskOrder(i, j); } else if j < i { MaskOrder(j, i); }
    BelowMeets(Mask(i), Mask(j));
  }

  lemma GetMask(start: nat, n: nat, i: nat)
    requires 1 <= start + n <= 64 && i < 64
    ensures Get(GenerateMask(start, n), i) <==> start <= i < start + n
  {
    hide Mask, Meets, OneBit, Below, Minus;
    MaskFacts(i);
    NotMeets(0, Mask(i));
    MaskCompare(start + n - 1, i);
    if start > 0 { MaskCompare(start - 1, i); }
    var x := if start == 0 then ONES else Below(Mask(start - 1));
    MinusMeets(x, Below(Mask(start + n - 1)), Mask(i));
  }
}
