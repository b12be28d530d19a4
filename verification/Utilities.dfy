/** Powers of two and the bit tricks of include/metall/detail/utilities.hpp. */
module Utilities {
  import opened Bits

  function Pow2(k: nat): (p: nat)
    ensures p >= 1
  {
    if k == 0 then 1 else 2 * Pow2(k - 1)
  }

  function Quot(a: nat, b: nat): nat
    requires b >= 1
  {
    a / b
  }

  function Rem(a: nat, b: nat): nat
    requires b >= 1
  {
    a % b
  }

  function Prod(a: nat, b: nat): nat { a * b }

  /** The least k with size <= 2^k. */
  function CeilLog2(size: nat, k: nat := 0): (r: nat)
    requires k > 0 ==> Pow2(k - 1) < size
    ensures size <= Pow2(r) && (r > 0 ==> Pow2(r - 1) < size)
    decreases if size > Pow2(k) then size - Pow2(k) else 0
  {
    if size <= Pow2(k) then k else CeilLog2(size, k + 1)
  }

  lemma {:induction false} Pow2Mono(i: nat, j: nat)
    requires i <= j
    ensures Pow2(i) <= Pow2(j)
    ensures i < j ==> 2 * Pow2(i) <= Pow2(j)
  {
    if i < j { Pow2Mono(i, j - 1); }
  }

  // ---------- next_power_of_2 ---------- //

  /** Copies the highest set bit of x into every lower position. */
  function Fill(x: bv64): bv64 {
    var x1 := x | (x >> 1);
    var x2 := x1 | (x1 >> 2);
    var x3 := x2 | (x2 >> 4);
    var x4 := x3 | (x3 >> 8);
    var x5 := x4 | (x4 >> 16);
    x5 | (x5 >> 32)
  }

  function Successor(x: bv64): bv64 { x + 1 }

  function Predecessor(x: bv64): bv64 { x - 1 }

  function NextPowerOf2(n: bv64): bv64 { Successor(Fill(Predecessor(n))) }

  /** m is the highest set bit of x. */
  ghost predicate Highest(x: bv64, m: bv64) { m <= x && x - m < m }

  /** The bit m and all lower ones. */
  ghost function DownFrom(m: bv64): bv64 { m + (m - 1) }

  /** The k bits from m downwards (fewer if m is lower than that). */
  ghost function Upper(m: bv64, k: bv7): bv64
    requires k <= 64
  {
    var all := m + (m - 1);
    all - (all >> k)
  }

  /** m is the highest bit of x, and the k bits from m downwards are all set. */
  ghost predicate Smeared(x: bv64, m: bv64, k: bv7)
    requires k <= 64
  {
    m <= x && x - m < m && x & Upper(m, k) == Upper(m, k)
  }

  lemma Smear1(x: bv64, m: bv64)
    requires OneBit(m) && m <= x && x - m < m
    ensures Smeared(x | (x >> 1), m, 2)
  {}

  lemma Smear2(x: bv64, m: bv64)
    requires OneBit(m) && Smeared(x, m, 2)
    ensures Smeared(x | (x >> 2), m, 4)
  {}

  lemma Smear4(x: bv64, m: bv64)
    requires OneBit(m) && Smeared(x, m, 4)
    ensures Smeared(x | (x >> 4), m, 8)
  {}

  lemma Smear8(x: bv64, m: bv64)
    requires OneBit(m) && Smeared(x, m, 8)
    ensures Smeared(x | (x >> 8), m, 16)
  {}

  lemma Smear16(x: bv64, m: bv64)
    requires OneBit(m) && Smeared(x, m, 16)
    ensures Smeared(x | (x >> 16), m, 32)
  {}

  lemma Smear32(x: bv64, m: bv64)
    requires OneBit(m) && Smeared(x, m, 32)
    ensures x | (x >> 32) == m + (m - 1)
  {}

  lemma FillCorrect(x: bv64, m: bv64)
    requires OneBit(m) && Highest(x, m)
    ensures Fill(x) == DownFrom(m)
  {
    hide OneBit, Smeared;
    var x1 := x | (x >> 1);
    Smear1(x, m);
    var x2 := x1 | (x1 >> 2);
    Smear2(x1, m);
    var x3 := x2 | (x2 >> 4);
    Smear4(x2, m);
    var x4 := x3 | (x3 >> 8);
    Smear8(x3, m);
    var x5 := x4 | (x4 >> 16);
    Smear16(x4, m);
    Smear32(x5, m);
  }

  /** For every 64-bit n and power m with m < n <= 2m the result is 2m. */
  lemma NextPowerOf2Correct(n: bv64, m: bv64)
    requires OneBit(m) && Highest(Predecessor(n), m)
    ensures NextPowerOf2(n) == Successor(DownFrom(m))
  {
    hide OneBit, Fill, Highest, Successor, DownFrom, Predecessor;
    FillCorrect(Predecessor(n), m);
  }

  /** `ctzll`, which is all of `log2_dynamic`: the number of clear low bits, i of them already counted. */
  function TrailingZeros(m: bv64, i: nat := 0): nat
    requires i <= 64
    decreases 64 - i
  {
    if i == 64 || Odd(m) then i else TrailingZeros(Half(m), i + 1)
  }

  predicate Odd(m: bv64) { m & 1 == 1 }

  /** The word with only the bit worth 2^k. */
  ghost function Bit(k: nat): bv64
    requires k <= 63
  {
    Mask(63 - k)
  }

  function Double(m: bv64): bv64 { m << 1 }

  lemma HalfDouble(m: bv64)
    requires OneBit(m) && OneBit(Half(m))
    ensures Double(Half(m)) == m && !Odd(m)
  {}

  lemma BitDouble(k: nat)
    requires 1 <= k <= 63
    ensures OneBit(Bit(k - 1)) && OneBit(Bit(k)) && Double(Bit(k - 1)) == Bit(k)
    ensures Half(Bit(k)) == Bit(k - 1) && !Odd(Bit(k))
  {
    hide OneBit, Half, Double, Odd;
    MaskFacts(63 - k);
    MaskFacts(64 - k);
    HalfDouble(Mask(63 - k));
  }

  lemma {:induction false} BitZeros(k: nat, i: nat)
    requires i + k <= 63
    ensures TrailingZeros(Bit(k), i) == i + k
    decreases k
  {
    hide OneBit, Half, Double;
    if k == 0 {
      LowestMask();
    } else {
      BitDouble(k);
      hide Bit, Odd;
      BitZeros(k - 1, i + 1);
    }
  }

  // ---------- Numbers as words ---------- //

  function AddDigit(w: bv64, odd: bool): bv64 { (w << 1) | (if odd then 1 else 0) }

  /** The word with the binary digits of n. */
  function Word(n: nat): bv64 {
    if n == 0 then 0 else AddDigit(Word(n / 2), n % 2 == 1)
  }

  lemma OneLessDigit(w: bv64)
    ensures Predecessor(AddDigit(w, true)) == AddDigit(w, false)
    ensures Predecessor(AddDigit(w, false)) == AddDigit(Predecessor(w), true)
  {}

  lemma NoDigit()
    ensures AddDigit(0, false) == 0
  {}

  lemma {:induction false} OneLess(n: nat)
    requires n >= 1
    ensures Predecessor(Word(n)) == Word(n - 1)
  {
    hide AddDigit, Predecessor;
    OneLessDigit(Word(n / 2));
    NoDigit();
    if n % 2 == 0 {
      OneLess(n / 2);
      assert (n - 1) / 2 == n / 2 - 1 && (n - 1) % 2 == 1;
    } else {
      assert (n - 1) / 2 == n / 2 && (n - 1) % 2 == 0;
    }
  }

  /** The bit m is set in w, and no higher one. */
  ghost predicate TopBit(w: bv64, m: bv64) { w & m != 0 && w & !(m | (m - 1)) == 0 }

  lemma TopBitDigit(w: bv64, m: bv64, odd: bool)
    requires OneBit(m) && OneBit(Double(m)) && TopBit(w, m)
    ensures TopBit(AddDigit(w, odd), Double(m))
  {}

  lemma TopBitOne()
    ensures TopBit(AddDigit(0, true), 1)
  {}

  lemma TopIsHighest(w: bv64, m: bv64)
    requires OneBit(m) && TopBit(w, m)
    ensures Highest(w, m)
  {}

  /** The highest digit of a number is the highest bit of its word. */
  lemma {:induction false} TopDigit(x: nat, k: nat)
    requires k <= 63 && Pow2(k) <= x < Pow2(k + 1)
    ensures TopBit(Word(x), Bit(k))
    decreases k
  {
    hide AddDigit, TopBit, OneBit, Bit, Double;
    if k == 0 {
      TopBitOne();
      BitOne();
      WordOne();
    } else {
      TopDigit(x / 2, k - 1);
      BitDouble(k);
      TopBitDigit(Word(x / 2), Bit(k - 1), x % 2 == 1);
    }
  }

  lemma BitOne()
    ensures Bit(0) == 1
  {
    LowestMask();
  }

  lemma WordOne()
    ensures Word(1) == AddDigit(0, true)
  {
    hide AddDigit;
    assert Word(0) == 0;
  }

  lemma Doubled(m: bv64)
    ensures Successor(DownFrom(m)) == Double(m)
  {}

  lemma NextOfOne()
    ensures TrailingZeros(NextPowerOf2(AddDigit(0, true))) == 0
  {}

  /** For every size from 1 to 2^63 the two bit tricks give the rounded-up logarithm. */
  lemma TableIndexCorrect(size: nat)
    requires 1 <= size <= Pow2(63)
    ensures TrailingZeros(NextPowerOf2(Word(size))) == CeilLog2(size) <= 63
  {
    hide NextPowerOf2, Highest, Successor, DownFrom, TrailingZeros, Bit, OneBit, AddDigit, Pow2, TopBit,
         Predecessor, Double, Word;
    var k := CeilLog2(size);
    if k > 63 { Pow2Mono(63, k - 1); }
    if k == 0 {
      PowerOne();
      WordOne();
      NextOfOne();
    } else {
      OneLess(size);
      TopDigit(size - 1, k - 1);
      BitDouble(k);
      TopIsHighest(Word(size - 1), Bit(k - 1));
      NextPowerOf2Correct(Word(size), Bit(k - 1));
      Doubled(Bit(k - 1));
      BitZeros(k, 0);
    }
  }

  lemma PowerOne()
    ensures Pow2(0) == 1
  {}

  /** The powers of two that occur as numbers. */
  lemma Powers()
    ensures Pow2(0) == 1 && Pow2(1) == 2 && Pow2(2) == 4 && Pow2(3) == 8 && Pow2(4) == 16
    ensures Pow2(5) == 32 && Pow2(6) == 64 && Pow2(7) == 128 && Pow2(8) == 256 && Pow2(9) == 512
    ensures Pow2(10) == 1024 && Pow2(11) == 2048 && Pow2(12) == 4096 && Pow2(13) == 8192 && Pow2(14) == 16384
    ensures Pow2(15) == 32768 && Pow2(16) == 65536 && Pow2(17) == 131072 && Pow2(18) == 262144 && Pow2(19) == 524288
    ensures Pow2(20) == 1048576 && Pow2(21) == 2097152 && Pow2(22) == 4194304 && Pow2(23) == 8388608
            && Pow2(24) == 16777216
  {
    assert Pow2(2) == 4;
    assert Pow2(4) == 16;
    assert Pow2(6) == 64;
    assert Pow2(8) == 256;
    assert Pow2(10) == 1024;
    assert Pow2(12) == 4096;
    assert Pow2(14) == 16384;
    assert Pow2(16) == 65536;
    assert Pow2(18) == 262144;
    assert Pow2(20) == 1048576;
    assert Pow2(22) == 4194304;
    assert Pow2(24) == 16777216;
  }
}
