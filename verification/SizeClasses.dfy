/** The table of object sizes and the index of a request in it
    (include/metall/kernel/object_size_manager.hpp). A chunk is 2^m bytes, m >= 9. */
module SizeClasses {
  import opened Utilities

  const CLASS1: seq<nat> :=
    [8, 10, 12, 14, 16, 20, 24, 28, 32, 40, 48, 56, 64, 80, 96, 112, 128, 160, 192, 224, 256]

  const MIN_CLASS2_OFFSET: nat := 64

  /** The small sizes in closed form: four steps between each power of two and the next. */
  function SmallClass(i: nat): nat {
    Pow2((i + 3) / 4) * (5 + (i + 3) % 4)
  }

  function NumSmall(m: nat): nat
    requires m >= 9
  {
    4 * m - 15
  }

  function NumLarge(size: nat, maxSize: nat): nat
    requires size >= 1
    decreases if size <= maxSize then maxSize + 1 - size else 0
  {
    if size <= maxSize then 1 + NumLarge(2 * size, maxSize) else 0
  }

  function NumSizes(m: nat, maxSize: nat): nat
    requires m >= 9
  {
    NumSmall(m) + NumLarge(Pow2(m), maxSize)
  }

  function ClassSize(m: nat, i: nat): nat
    requires m >= 9
  {
    if i < NumSmall(m) then SmallClass(i) else Pow2(m + (i - NumSmall(m)))
  }

  function SizeTable(m: nat, maxSize: nat): (t: seq<nat>)
    requires m >= 9
    ensures |t| == NumSizes(m, maxSize)
    ensures forall i :: 0 <= i < |t| ==> t[i] == ClassSize(m, i)
  {
    seq(NumSizes(m, maxSize), i requires 0 <= i < NumSizes(m, maxSize) => ClassSize(m, i))
  }

  // ---------- Building the table ---------- //

  lemma Class1Closed(i: nat)
    requires i < |CLASS1|
    ensures CLASS1[i] == SmallClass(i)
  {
    Powers();
  }

  /** Step j of the four above 2^k. */
  lemma SmallClassStep(k: nat, j: nat)
    requires k >= 3 && j <= 4
    ensures SmallClass(4 * (k - 3) + j) == Pow2(k) + j * Pow2(k - 2)
  {
    var i := 4 * (k - 3) + j;
    assert Pow2(k) == 4 * Pow2(k - 2) && Pow2(k - 2) == 2 * Pow2(k - 3);
    if j == 0 {
      assert (i + 3) / 4 == k - 3 && (i + 3) % 4 == 3;
    } else {
      assert (i + 3) / 4 == k - 2 && (i + 3) % 4 == j - 1;
    }
  }

  /** x is a power of two from 8 to half a chunk, or one of the three steps of a quarter between one and the next. */
  ghost predicate QuarterStep(m: nat, k: nat, j: nat, x: nat) {
    3 <= k <= m - 1 && j <= 3 && (k == m - 1 ==> j == 0) && x == Pow2(k) + j * Pow2(k - 2)
  }

  /** These are the small sizes. */
  lemma SmallSizesAre(m: nat, x: nat)
    requires m >= 9
    ensures (exists i: nat :: i < NumSmall(m) && SmallClass(i) == x) <==>
            exists k: nat, j: nat :: QuarterStep(m, k, j, x)
  {
    if i: nat :| i < NumSmall(m) && SmallClass(i) == x {
      SmallClassStep(i / 4 + 3, i % 4);
      assert QuarterStep(m, i / 4 + 3, i % 4, x);
    }
    if k: nat, j: nat :| QuarterStep(m, k, j, x) {
      SmallClassStep(k, j);
      assert SmallClass(4 * (k - 3) + j) == x;
    }
  }

  /** The power 2^k and i quarters of it. */
  ghost function Quarters(k: nat, i: nat): nat
    requires k >= 2
  {
    Pow2(k) + i * Pow2(k - 2)
  }

  lemma QuarterMore(k: nat, i: nat)
    requires k >= 2
    ensures Quarters(k, 0) == Pow2(k) && Quarters(k, 4) == Pow2(k + 1)
    ensures Quarters(k, i + 1) == Quarters(k, i) + Pow2(k - 2) && Pow2(k) <= Quarters(k, i)
    ensures i <= 4 ==> Quarters(k, i) <= Pow2(k + 1)
  {}

  lemma Doubling(k: nat)
    ensures Pow2(k + 1) == 2 * Pow2(k)
  {}

  /** `num_class2_small_sizes`. */
  method CountClass2(m: nat) returns (count: nat)
    requires m >= 9
    ensures |CLASS1| + count == NumSmall(m)
  {
    hide Pow2, Quarters;
    Powers();
    Doubling(m - 1);
    var maxSmall := Pow2(m) / 2;
    assert maxSmall == Pow2(m - 1);
    var size := CLASS1[|CLASS1| - 1];
    var offset := MIN_CLASS2_OFFSET;
    count := 0;
    ghost var k := 8;
    Pow2Mono(8, m - 1);
    while size <= maxSmall
      invariant 8 <= k <= m - 1
      invariant count == 4 * (k - 8) && offset >= 1
      invariant (size == Pow2(k) && offset == Pow2(k - 2)) || (size > maxSmall && k == m - 1)
      decreases m - k, if size <= maxSmall then 1 else 0
    {
      Doubling(k - 2);
      QuarterMore(k, 0);
      if k < m - 1 { Pow2Mono(k + 1, m - 1); }
      var i := 0;
      while i < 4
        invariant 0 <= i <= 4 && size == Quarters(k, i) <= maxSmall && count == 4 * (k - 8) + i
        invariant i > 0 ==> k < m - 1
      {
        QuarterMore(k, i);
        QuarterMore(k, i + 1);
        size := size + offset;
        if size > maxSmall { break; }
        count := count + 1;
        i := i + 1;
      }
      offset := offset * 2;
      if k < m - 1 { k := k + 1; }
    }
    Pow2Mono(k, m - 1);
  }

  lemma QuarterClass(k: nat, i: nat)
    requires k >= 3 && i <= 4
    ensures SmallClass(4 * (k - 3) + i) == Quarters(k, i)
  {
    SmallClassStep(k, i);
  }

  /** `init_size_table`. */
  method InitSizeTable(m: nat, maxSize: nat) returns (table: array<nat>)
    requires m >= 9
    ensures table[..] == SizeTable(m, maxSize)
  {
    var class2 := CountClass2(m);
    var large := CountLarge(m, maxSize);
    table := new nat[|CLASS1| + class2 + large];
    var index := 0;
    while index < |CLASS1|
      invariant 0 <= index <= |CLASS1|
      invariant forall i :: 0 <= i < index ==> table[i] == SmallClass(i)
    {
      Class1Closed(index);
      table[index] := CLASS1[index];
      index := index + 1;
    }
    index := FillClass2(m, table);
    var size := Pow2(m);
    var i := 0;
    while i < large
      invariant 0 <= i <= large && index == NumSmall(m) + i && size == Pow2(m + i)
      invariant forall k :: 0 <= k < index ==> table[k] == ClassSize(m, k)
    {
      table[index] := size;
      size := size * 2;
      i, index := i + 1, index + 1;
    }
  }

  /** `num_large_sizes`. */
  method CountLarge(m: nat, maxSize: nat) returns (count: nat)
    requires m >= 9
    ensures count == NumLarge(Pow2(m), maxSize)
  {
    count := 0;
    var size := Pow2(m);
    while size <= maxSize
      invariant size >= 1 && count + NumLarge(size, maxSize) == NumLarge(Pow2(m), maxSize)
      decreases if size <= maxSize then maxSize + 1 - size else 0
    {
      count := count + 1;
      size := size * 2;
    }
  }

  /** The jemalloc-style middle part of `init_size_table`. */
  method FillClass2(m: nat, table: array<nat>) returns (index: nat)
    requires m >= 9 && table.Length >= NumSmall(m)
    requires forall i :: 0 <= i < |CLASS1| ==> table[i] == SmallClass(i)
    modifies table
    ensures index == NumSmall(m)
    ensures forall i :: 0 <= i < index ==> table[i] == SmallClass(i)
  {
    hide SmallClass, Pow2, Quarters;
    Powers();
    Doubling(m - 1);
    var maxSmall := Pow2(m) / 2;
    var size := CLASS1[|CLASS1| - 1];
    var offset := MIN_CLASS2_OFFSET;
    index := |CLASS1|;
    ghost var k := 8;
    Pow2Mono(8, m - 1);
    while size <= maxSmall
      invariant 8 <= k <= m - 1
      invariant index == 4 * (k - 3) + 1 && offset >= 1
      invariant (size == Pow2(k) && offset == Pow2(k - 2)) || (size > maxSmall && k == m - 1)
      invariant forall i :: 0 <= i < index ==> table[i] == SmallClass(i)
      decreases m - k, if size <= maxSmall then 1 else 0
    {
      Doubling(k - 2);
      QuarterMore(k, 0);
      if k < m - 1 { Pow2Mono(k + 1, m - 1); }
      var i := 0;
      while i < 4
        invariant 0 <= i <= 4 && size == Quarters(k, i) <= maxSmall && index == 4 * (k - 3) + 1 + i
        invariant i > 0 ==> k < m - 1
        invariant forall j :: 0 <= j < index ==> table[j] == SmallClass(j)
      {
        QuarterMore(k, i);
        QuarterMore(k, i + 1);
        size := size + offset;
        if size > maxSmall { break; }
        QuarterClass(k, i + 1);
        table[index] := size;
        index := index + 1;
        i := i + 1;
      }
      offset := offset * 2;
      if k < m - 1 { k := k + 1; }
    }
    Pow2Mono(k, m - 1);
  }

  // ---------- The table is strictly increasing ---------- //

  lemma SmallClassGrows(i: nat)
    ensures SmallClass(i) < SmallClass(i + 1)
  {
    var e := (i + 3) / 4;
    assert i + 3 == 4 * e + (i + 3) % 4;
    if (i + 3) % 4 == 3 {
      assert (i + 4) / 4 == e + 1 && (i + 4) % 4 == 0;
      assert Pow2(e + 1) == 2 * Pow2(e);
    } else {
      assert (i + 4) / 4 == e && (i + 4) % 4 == (i + 3) % 4 + 1;
    }
  }

  lemma LastSmallClass(m: nat)
    requires m >= 9
    ensures SmallClass(NumSmall(m) - 1) == Pow2(m - 1)
  {
    SmallClassStep(m - 1, 0);
  }

  lemma ClassGrows(m: nat, i: nat)
    requires m >= 9
    ensures ClassSize(m, i) < ClassSize(m, i + 1)
  {
    if i + 1 < NumSmall(m) {
      SmallClassGrows(i);
    } else if i + 1 == NumSmall(m) {
      LastSmallClass(m);
    }
  }

  /** No two classes coincide and the order of bins is the order of sizes. */
  lemma {:induction false} ClassesIncrease(m: nat, i: nat, j: nat)
    requires m >= 9 && i < j
    ensures ClassSize(m, i) < ClassSize(m, j)
  {
    ClassGrows(m, j - 1);
    if i < j - 1 { ClassesIncrease(m, i, j - 1); }
  }

  // ---------- The index of a request ---------- //

  /** i is the first class that holds `size` bytes. */
  ghost predicate IsLeastClass(m: nat, size: nat, i: nat)
    requires m >= 9
  {
    size <= ClassSize(m, i) && forall j :: 0 <= j < i ==> ClassSize(m, j) < size
  }

  lemma LeastClassBracket(m: nat, size: nat, i: nat)
    requires m >= 9 && size <= ClassSize(m, i) && (i > 0 ==> ClassSize(m, i - 1) < size)
    ensures IsLeastClass(m, size, i)
  {
    forall j | 0 <= j < i ensures ClassSize(m, j) < size {
      if j < i - 1 { ClassesIncrease(m, j, i - 1); }
    }
  }

  /** `find_in_size_table`: a scan from `offset`. */
  method FindInSizeTable(m: nat, maxSize: nat, size: nat, offset: nat) returns (index: int)
    requires m >= 9
    requires forall j :: 0 <= j < offset && j < NumSizes(m, maxSize) ==> ClassSize(m, j) < size
    ensures index == -1 || (0 <= index < NumSizes(m, maxSize) && IsLeastClass(m, size, index))
    ensures index == -1 <==> forall j :: 0 <= j < NumSizes(m, maxSize) ==> ClassSize(m, j) < size
  {
    var i := offset;
    while i < NumSizes(m, maxSize)
      invariant forall j :: 0 <= j < i && j < NumSizes(m, maxSize) ==> ClassSize(m, j) < size
    {
      if size <= ClassSize(m, i) { return i; }
      i := i + 1;
    }
    return -1;
  }

  /** The position of the highest set bit; `clzll(x)` is 63 minus this. */
  function FloorLog2(x: nat): (k: nat)
    requires x >= 1
    ensures Pow2(k) <= x < Pow2(k + 1)
  {
    if x == 1 then 0 else
    var k := FloorLog2(x / 2);
    k + 1
  }

  lemma FloorLog2Unique(x: nat, k: nat)
    requires Pow2(k) <= x < Pow2(k + 1)
    ensures FloorLog2(x) == k
  {
    var r := FloorLog2(x);
    if r < k { Pow2Mono(r + 1, k); } else if k < r { Pow2Mono(k + 1, r); }
  }

  function CountLeadingZeros(x: nat): (z: nat)
    requires 1 <= x < Pow2(64)
    ensures z <= 63
  {
    FloorBelow(x, 64);
    63 - FloorLog2(x)
  }

  lemma FloorBelow(x: nat, k: nat)
    requires 1 <= x < Pow2(k)
    ensures FloorLog2(x) < k
  {
    if FloorLog2(x) >= k { Pow2Mono(k, FloorLog2(x)); }
  }

  /** `size + (1 << (61 - z)) - 1`: the request moved just past the step below the next class. */
  function Rounded(size: nat): (r: nat)
    requires 8 <= size <= 256
    ensures size <= r <= 320
  {
    SmallInWord(size);
    size + Pow2(61 - CountLeadingZeros(size)) - 1
  }

  /** `4 * (60 - y) + ((r >> (61 - y)) & 3)`, with shifts and mask written as / and %. */
  function StepIndex(r: nat): (i: nat)
    requires 8 <= r <= 1024
  {
    SmallInWord(r);
    var y := CountLeadingZeros(r);
    4 * (60 - y) + (r / Pow2(61 - y)) % 4
  }

  lemma SmallInWord(x: nat)
    ensures x <= 1024 ==> x < Pow2(64)
    ensures 8 <= x <= 1024 ==> CountLeadingZeros(x) <= 60
    ensures 8 <= x <= 256 ==> Pow2(61 - CountLeadingZeros(x)) <= 64
  {
    Powers();
    Pow2Mono(12, 64);
    if 8 <= x <= 1024 {
      var k := FloorLog2(x);
      if k < 3 { Pow2Mono(k + 1, 3); }
      if x <= 256 {
        if k > 8 { Pow2Mono(9, k); }
        if k >= 2 { Pow2Mono(k - 2, 6); }
      }
    }
  }

  lemma StepIndexIs(r: nat, k: nat)
    requires 8 <= r <= 1024 && k >= 3 && Pow2(k) <= r < Pow2(k + 1)
    ensures StepIndex(r) == 4 * (k - 3) + (r / Pow2(k - 2)) % 4
  {
    hide Pow2;
    FloorLog2Unique(r, k);
    SmallInWord(r);
  }

  lemma QuotientBounds(a: nat, q: nat)
    requires q >= 1
    ensures a / q * q <= a < a / q * q + q
  {}

  lemma TimesMono(a: nat, b: nat, q: nat)
    ensures a <= b ==> a * q <= b * q
  {}

  lemma Quotient(a: nat, q: nat, d: nat)
    requires q >= 1 && d * q <= a < d * q + q
    ensures a / q == d
  {
    QuotientBounds(a, q);
    var e := a / q;
    TimesMono(e + 1, d, q);
    TimesMono(d + 1, e, q);
  }

  /** A request in the j-th step above 2^k belongs to class 4(k - 3) + j. */
  lemma StepClassLeast(m: nat, size: nat, k: nat, j: nat)
    requires m >= 9 && 3 <= k <= m - 2 && 1 <= j <= 4
    requires Pow2(k) + (j - 1) * Pow2(k - 2) < size <= Pow2(k) + j * Pow2(k - 2)
    ensures 4 * (k - 3) + j < NumSmall(m) && IsLeastClass(m, size, 4 * (k - 3) + j)
  {
    SmallClassStep(k, j);
    SmallClassStep(k, j - 1);
    LeastClassBracket(m, size, 4 * (k - 3) + j);
  }

  lemma RoundedIs(size: nat, k: nat)
    requires 8 <= size <= 256 && k >= 2 && Pow2(k) <= size < Pow2(k + 1)
    ensures Rounded(size) == size + Pow2(k - 2) - 1
  {
    hide Pow2;
    FloorLog2Unique(size, k);
    SmallInWord(size);
  }

  lemma BitTrickExact(m: nat, k: nat)
    requires m >= 9 && 4 <= k <= 8 && 8 < Pow2(k) <= 256
    ensures IsLeastClass(m, Pow2(k), StepIndex(Rounded(Pow2(k))))
  {
    hide SmallClass, ClassSize, IsLeastClass, StepIndex, Rounded;
    var q := Pow2(k - 2);
    assert Pow2(k) == 4 * q && Pow2(k + 1) == 8 * q && q == 2 * Pow2(k - 3) && Pow2(k - 1) == 2 * q;
    RoundedIs(Pow2(k), k);
    Quotient(5 * q - 1, q, 4);
    StepIndexIs(Rounded(Pow2(k)), k);
    StepClassLeast(m, Pow2(k), k - 1, 4);
  }

  lemma BitTrickMiddle(m: nat, size: nat, k: nat, q: nat, j: nat)
    requires m >= 9 && 8 < size <= 256 && 3 <= k <= 7 && q == Pow2(k - 2) >= 2 && 1 <= j <= 3
    requires Pow2(k) == 4 * q && Pow2(k + 1) == 8 * q && 3 * q + j * q < size <= 4 * q + j * q
    ensures IsLeastClass(m, size, StepIndex(Rounded(size)))
  {
    hide Pow2, SmallClass, ClassSize, IsLeastClass, StepIndex, Rounded;
    TimesMono(j, 3, q);
    assert (4 + j) * q == 4 * q + j * q;
    assert (j - 1) * q == j * q - q;
    RoundedIs(size, k);
    Quotient(size + q - 1, q, 4 + j);
    StepIndexIs(Rounded(size), k);
    StepClassLeast(m, size, k, j);
  }

  lemma BitTrickUpper(m: nat, size: nat, k: nat, q: nat)
    requires m >= 9 && 8 < size <= 256 && 3 <= k <= 7 && q == Pow2(k - 2) >= 2
    requires Pow2(k - 1) == 2 * q && Pow2(k) == 4 * q && Pow2(k + 1) == 8 * q && Pow2(k + 2) == 16 * q
    requires 7 * q < size < 8 * q
    ensures IsLeastClass(m, size, StepIndex(Rounded(size)))
  {
    hide Pow2, SmallClass, ClassSize, IsLeastClass, StepIndex, Rounded;
    RoundedIs(size, k);
    Quotient(size + q - 1, 2 * q, 4);
    StepIndexIs(Rounded(size), k + 1);
    StepClassLeast(m, size, k, 4);
  }

  /** For sizes up to 256 the leading-zero formula gives the least class that holds the request. */
  lemma BitTrickIsLeast(m: nat, size: nat)
    requires m >= 9 && 8 < size <= 256
    ensures IsLeastClass(m, size, StepIndex(Rounded(size)))
  {
    hide SmallClass, ClassSize, IsLeastClass, StepIndex, Rounded;
    Powers();
    var k := FloorLog2(size);
    if k < 3 { Pow2Mono(k + 1, 3); }
    if k > 8 { Pow2Mono(9, k); }
    var q := Pow2(k - 2);
    assert Pow2(k - 1) == 2 * q;
    assert Pow2(k) == 4 * q;
    assert Pow2(k + 1) == 8 * q;
    assert Pow2(k + 2) == 16 * q;
    assert k == 8 ==> q == 64;
    if size == 4 * q {
      BitTrickExact(m, k);
    } else if size <= 7 * q {
      BitTrickMiddle(m, size, k, q, if size <= 5 * q then 1 else if size <= 6 * q then 2 else 3);
    } else {
      BitTrickUpper(m, size, k, q);
    }
  }

  lemma LastClassLarge(m: nat, maxSize: nat)
    requires m >= 9 && Pow2(m) <= maxSize
    ensures NumSizes(m, maxSize) > NumSmall(m) && Pow2(m) <= ClassSize(m, NumSizes(m, maxSize) - 1)
  {
    assert NumLarge(Pow2(m), maxSize) >= 1;
    Pow2Mono(m, m + (NumSizes(m, maxSize) - 1 - NumSmall(m)));
  }

  /** The last class decides whether a request fits at all. */
  lemma LastClassDecides(m: nat, maxSize: nat, size: nat)
    requires m >= 9 && Pow2(m) <= maxSize
    ensures NumSizes(m, maxSize) > NumSmall(m)
    ensures ClassSize(m, NumSizes(m, maxSize) - 1) < size <==>
            forall j :: 0 <= j < NumSizes(m, maxSize) ==> ClassSize(m, j) < size
    ensures size <= Pow2(m) ==> size <= ClassSize(m, NumSizes(m, maxSize) - 1)
  {
    hide ClassSize, NumSizes;
    LastClassLarge(m, maxSize);
    var last := NumSizes(m, maxSize) - 1;
    forall j | 0 <= j < last ensures ClassSize(m, j) < ClassSize(m, last) { ClassesIncrease(m, j, last); }
  }

  lemma LeastInRange(m: nat, size: nat, i: nat, last: nat)
    requires m >= 9 && IsLeastClass(m, size, i) && size <= ClassSize(m, last)
    ensures i <= last
  {}

  lemma Landmarks(m: nat, size: nat)
    requires m >= 9
    ensures ClassSize(m, 0) == 8 && CLASS1[|CLASS1| - 1] == 256 <= Pow2(m)
    ensures size <= 8 ==> IsLeastClass(m, size, 0)
    ensures 256 < size ==> forall j :: 0 <= j < |CLASS1| ==> ClassSize(m, j) < size
  {
    Powers();
    Pow2Mono(8, m);
    Class1Closed(20);
    forall j | 0 <= j < |CLASS1| ensures ClassSize(m, j) <= 256 {
      if j < 20 { ClassesIncrease(m, j, 20); }
    }
  }

  /** A full linear search, the plain meaning of the index. */
  function SizeIndex(m: nat, maxSize: nat, size: nat, i: nat := 0): (index: int)
    requires m >= 9
    requires forall j :: 0 <= j < i && j < NumSizes(m, maxSize) ==> ClassSize(m, j) < size
    ensures index == -1 || (0 <= index < NumSizes(m, maxSize) && IsLeastClass(m, size, index))
    ensures index == -1 <==> forall j :: 0 <= j < NumSizes(m, maxSize) ==> ClassSize(m, j) < size
    decreases NumSizes(m, maxSize) - i
  {
    if i >= NumSizes(m, maxSize) then -1
    else if size <= ClassSize(m, i) then i
    else SizeIndex(m, maxSize, size, i + 1)
  }

  lemma LeastClassUnique(m: nat, size: nat, i: nat, j: nat)
    requires m >= 9 && IsLeastClass(m, size, i) && IsLeastClass(m, size, j)
    ensures i == j
  {}

  /** `object_size_index`: the short cuts agree with the linear search, on every request. */
  method ObjectSizeIndex(m: nat, maxSize: nat, size: nat) returns (index: int)
    requires m >= 9 && Pow2(m) <= maxSize
    ensures index == SizeIndex(m, maxSize, size)
    ensures index == -1 || (0 <= index < NumSizes(m, maxSize) && IsLeastClass(m, size, index))
    ensures index == -1 <==> ClassSize(m, NumSizes(m, maxSize) - 1) < size
  {
    hide ClassSize, SmallClass, IsLeastClass, StepIndex, Rounded, NumLarge, SizeIndex;
    LastClassDecides(m, maxSize, size);
    Landmarks(m, size);
    var linear := SizeIndex(m, maxSize, size);
    if size <= ClassSize(m, 0) {
      LeastClassUnique(m, size, linear, 0);
      return 0;
    }
    if size <= CLASS1[|CLASS1| - 1] {
      BitTrickIsLeast(m, size);
      index := StepIndex(Rounded(size));
      LeastInRange(m, size, index, NumSizes(m, maxSize) - 1);
      LeastClassUnique(m, size, linear, index);
      return;
    }
    index := FindInSizeTable(m, maxSize, size, |CLASS1|);
    if index != -1 { LeastClassUnique(m, size, linear, index); }
  }

  // ---------- Waste ---------- //

  /** Every class but the first is one step above a power of two. */
  lemma SmallClassSplit(i: nat)
    requires i >= 1
    ensures var k, j := 3 + (i - 1) / 4, (i - 1) % 4 + 1;
            && SmallClass(i) == Pow2(k) + j * Pow2(k - 2)
            && SmallClass(i - 1) == Pow2(k) + (j - 1) * Pow2(k - 2)
            && Pow2(k) == 4 * Pow2(k - 2)
  {
    var k, j := 3 + (i - 1) / 4, (i - 1) % 4 + 1;
    assert i == 4 * (k - 3) + j;
    SmallClassStep(k, j);
    SmallClassStep(k, j - 1);
  }

  /** From 8 bytes to half a chunk, less than a fifth of an object is unused. */
  lemma SmallWaste(m: nat, size: nat, i: nat)
    requires m >= 9 && 8 <= size <= Pow2(m - 1) && IsLeastClass(m, size, i)
    ensures i < NumSmall(m) && 4 * (ClassSize(m, i) - size) < size
  {
    hide SmallClass, Pow2;
    LastSmallClass(m);
    assert ClassSize(m, NumSmall(m) - 1) == Pow2(m - 1);
    LeastInRange(m, size, i, NumSmall(m) - 1);
    if i == 0 {
      Landmarks(m, size);
    } else {
      SmallClassSplit(i);
      assert ClassSize(m, i - 1) < size;
      var k, j := 3 + (i - 1) / 4, (i - 1) % 4 + 1;
      WasteStep(Pow2(k - 2), j, size);
    }
  }

  lemma WasteStep(q: nat, j: nat, size: nat)
    requires j >= 1 && 4 * q + (j - 1) * q < size <= 4 * q + j * q
    ensures 4 * (4 * q + j * q - size) < size
  {
    assert j * q == (j - 1) * q + q;
  }

  /** Above half a chunk, the object is less than twice the request. */
  lemma LargeWaste(m: nat, size: nat, i: nat)
    requires m >= 9 && Pow2(m - 1) < size && IsLeastClass(m, size, i)
    ensures NumSmall(m) <= i && ClassSize(m, i) < 2 * size
  {
    LastSmallClass(m);
    if i < NumSmall(m) {
      if i < NumSmall(m) - 1 { ClassesIncrease(m, i, NumSmall(m) - 1); }
      assert false;
    }
    assert ClassSize(m, i - 1) < size;
    assert ClassSize(m, i) == 2 * ClassSize(m, i - 1);
  }

  // ---------- Alignment ---------- //

  ghost predicate Divides(d: nat, n: nat) { exists e: nat :: n == e * d }

  lemma {:induction false} Pow2Add(a: nat, b: nat)
    ensures Pow2(a + b) == Pow2(a) * Pow2(b)
  {
    if b > 0 {
      Pow2Add(a, b - 1);
      assert a + (b - 1) == a + b - 1;
    }
  }

  lemma PowerDivides(a: nat, b: nat)
    requires a <= b
    ensures Divides(Pow2(a), Pow2(b))
  {
    Pow2Add(b - a, a);
  }

  lemma DividesTimes(d: nat, n: nat, f: nat)
    requires Divides(d, n)
    ensures Divides(d, f * n)
  {
    var e: nat :| n == e * d;
    assert f * n == (f * e) * d;
  }

  lemma DividesTrans(d: nat, n: nat, p: nat)
    requires Divides(d, n) && Divides(n, p)
    ensures Divides(d, p)
  {
    var f: nat :| p == f * n;
    DividesTimes(d, n, f);
  }

  lemma EvenMultiple(q: nat, e: nat, j: nat)
    requires q >= 1 && (3 + j) * q < e * (2 * q) <= (4 + j) * q
    ensures e * (2 * q) == (4 + j) * q
  {
    assert e * (2 * q) == (2 * e) * q;
    TimesMono(2 * e, 3 + j, q);
    TimesMono(5 + j, 2 * e, q);
  }

  lemma SmallAligned(m: nat, a: nat, nbytes: nat, i: nat)
    requires m >= 9 && 3 <= a && 1 <= nbytes && Divides(Pow2(a), nbytes)
    requires IsLeastClass(m, nbytes, i) && 1 <= i < NumSmall(m)
    ensures Divides(Pow2(a), ClassSize(m, i))
  {
    hide IsLeastClass, Divides, SmallClass;
    SmallClassSplit(i);
    var k, j := 3 + (i - 1) / 4, (i - 1) % 4 + 1;
    var q := Pow2(k - 2);
    assert ClassSize(m, i) == (4 + j) * q && ClassSize(m, i - 1) == (3 + j) * q;
    if a <= k - 2 {
      PowerDivides(a, k - 2);
      DividesTimes(Pow2(a), q, 4 + j);
    } else {
      PowerDivides(k - 1, a);
      assert Pow2(k - 1) == 2 * q;
      DividesTrans(2 * q, Pow2(a), nbytes);
      ExactStep(m, nbytes, i, q, j);
    }
  }

  lemma ExactStep(m: nat, nbytes: nat, i: nat, q: nat, j: nat)
    requires m >= 9 && i >= 1 && q >= 1 && Divides(2 * q, nbytes) && IsLeastClass(m, nbytes, i)
    requires ClassSize(m, i) == (4 + j) * q && ClassSize(m, i - 1) == (3 + j) * q
    ensures nbytes == ClassSize(m, i)
  {
    hide ClassSize;
    var e: nat :| nbytes == e * (2 * q);
    EvenMultiple(q, e, j);
  }

  /** A request that is a multiple of a power of two gets an object size that is one too. */
  lemma ClassAligned(m: nat, a: nat, nbytes: nat, i: nat)
    requires m >= 9 && 3 <= a <= m && 1 <= nbytes && Divides(Pow2(a), nbytes) && IsLeastClass(m, nbytes, i)
    ensures Divides(Pow2(a), ClassSize(m, i))
  {
    if i >= NumSmall(m) {
      PowerDivides(a, m + (i - NumSmall(m)));
    } else if i == 0 {
      Landmarks(m, nbytes);
      Powers();
      Pow2Mono(3, a);
      var e: nat :| nbytes == e * Pow2(a);
      TimesMono(1, e, Pow2(a));
      assert e >= 1;
      assert nbytes == ClassSize(m, 0);
    } else {
      SmallAligned(m, a, nbytes, i);
    }
  }

  /** Up to 2^(m + k) there are k + 1 doublings of 2^m. */
  lemma {:induction false} LargeCount(m: nat, k: nat, i: nat)
    requires i <= k
    ensures NumLarge(Pow2(m + i), Pow2(m + k)) == k + 1 - i
    decreases k - i
  {
    Pow2Mono(m + i, m + k);
    if i < k {
      LargeCount(m, k, i + 1);
      assert Pow2(m + i + 1) == 2 * Pow2(m + i);
    } else {
      assert NumLarge(2 * Pow2(m + i), Pow2(m + k)) == 0;
    }
  }

  lemma {:induction false} SmallClassMono(i: nat, j: nat)
    requires i <= j
    ensures 8 <= SmallClass(i) <= SmallClass(j)
    decreases j
  {
    hide SmallClass;
    if i < j {
      SmallClassMono(i, j - 1);
      SmallClassGrows(j - 1);
    } else if i > 0 {
      SmallClassMono(i - 1, i - 1);
      SmallClassGrows(i - 1);
    } else {
      Class1Closed(0);
    }
  }

  /** No small class lies strictly between seven and eight eighths of a power of two. */
  lemma BelowPower(i: nat, e: nat)
    requires e >= 4 && SmallClass(i) < Pow2(e)
    ensures 8 * SmallClass(i) <= 7 * Pow2(e)
  {
    hide SmallClass;
    SmallClassStep(e - 1, 4);
    SmallClassStep(e - 1, 3);
    assert Pow2(e) == 2 * Pow2(e - 1) && Pow2(e - 1) == 4 * Pow2(e - 3);
    var top := 4 * (e - 4) + 4;
    if i >= top { SmallClassMono(top, i); } else { SmallClassMono(i, top - 1); }
  }

  /** When eight or more slots fit n parts of 2^e bytes and one more does not, a slot is a part. */
  lemma SlotIsPart(n: nat, i: nat, e: nat)
    requires n >= 8 && n * SmallClass(i) <= n * Pow2(e) < (n + 1) * SmallClass(i)
    ensures SmallClass(i) == Pow2(e)
  {
    hide SmallClass, Pow2;
    var size, P := SmallClass(i), Pow2(e);
    SmallClassMono(i, i);
    assert n * P == P * n && n * size == size * n && (P + 1) * n == P * n + n;
    if size > P { TimesMono(P + 1, size, n); }
    if size < P {
      if e < 4 { SmallPower(e); }
      BelowPower(i, e);
      FewSlots(n, size, P);
    }
  }

  lemma SmallPower(e: nat)
    requires e < 4
    ensures Pow2(e) <= 8 && Pow2(3) == 8
  {
    Pow2Mono(e, 3);
  }

  /** When a power of two of slots, eight or more, fit 2^m bytes and one more does not, they fill them. */
  lemma PowerOfSlots(m: nat, i: nat, j: nat)
    requires j >= 3 && Pow2(j) * SmallClass(i) <= Pow2(m) < (Pow2(j) + 1) * SmallClass(i)
    ensures Pow2(j) * SmallClass(i) == Pow2(m)
  {
    hide SmallClass, Pow2;
    SmallPower(3);
    Pow2Mono(3, j);
    SmallClassMono(i, i);
    if j > m { Pow2Mono(m, j); }
    TimesMono(2, SmallClass(i), Pow2(j));
    assert SmallClass(i) * Pow2(j) == Pow2(j) * SmallClass(i);
    Pow2Add(j, m - j);
    SlotIsPart(Pow2(j), i, m - j);
  }

  lemma FewSlots(n: nat, size: nat, P: nat)
    requires n >= 8 && 8 * size <= 7 * P
    ensures (n + 1) * size <= n * P
  {
    TimesMono(8 * size, 7 * P, n + 1);
    TimesMono(7, n, P);
    assert (8 * size) * (n + 1) == 8 * ((n + 1) * size) && (7 * P) * (n + 1) == 7 * (n * P) + 7 * P;
  }
}
