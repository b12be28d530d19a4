/** Giving pages back to the system when a slot is freed (include/metall/kernel/segment_allocator.hpp,
    priv_free_slot_without_bin_lock; include/metall/detail/utilities.hpp, round_up and round_down). */
module PageRelease {
  import opened Ledger
  import S = SizeClasses

  // ---------- Rounding ---------- //

  /** Integer division that truncates towards zero. */
  function TruncDiv(a: int, b: int): int
    requires b > 0
  {
    if a >= 0 then a / b else -((-a) / b)
  }

  function RoundUp(x: int, base: int): int
    requires base > 0
  {
    TruncDiv(x + (if x >= 0 then base - 1 else 0), base) * base
  }

  function RoundDown(x: int, base: int): int
    requires base > 0
  {
    TruncDiv(x - (if x < 0 then base - 1 else 0), base) * base
  }

  ghost predicate Multiple(x: int, base: int) { exists e: int :: x == e * base }

  lemma DivBounds(a: int, b: int)
    requires b > 0 && a >= 0
    ensures (a / b) * b <= a < (a / b) * b + b
  {
    S.QuotientBounds(a, b);
  }

  /** The least multiple that is not below, and the greatest that is not above, also for negative numbers. */
  lemma RoundingCorrect(x: int, base: int)
    requires base > 0
    ensures Multiple(RoundUp(x, base), base) && x <= RoundUp(x, base) < x + base
    ensures Multiple(RoundDown(x, base), base) && x - base < RoundDown(x, base) <= x
  {
    if x >= 0 {
      DivBounds(x + base - 1, base);
      DivBounds(x, base);
    } else {
      DivBounds(-x, base);
      DivBounds(-x + base - 1, base);
      assert -((-x) / base) * base == -(((-x) / base) * base);
      assert -((-x + base - 1) / base) * base == -(((-x + base - 1) / base) * base);
    }
  }

  /** Two multiples less than one step apart are the same. */
  lemma MultiplesApart(x: int, y: int, base: int)
    requires base > 0 && Multiple(x, base) && Multiple(y, base) && x < y
    ensures x + base <= y
  {
    var e: int :| x == e * base;
    var f: int :| y == f * base;
    if f <= e { ScaleMono(f, e, base); } else { ScaleMono(e + 1, f, base); }
  }

  lemma ScaleMono(a: int, b: int, base: int)
    requires a <= b && base > 0
    ensures a * base <= b * base && (a + 1) * base == a * base + base && (a - 1) * base == a * base - base
  {
    Nonnegative(b - a, base);
    assert (b - a) * base == b * base - a * base;
  }

  lemma Nonnegative(a: nat, b: nat)
    ensures a * b >= 0
  {}

  lemma MultipleIsMod(x: nat, base: nat)
    requires base > 0
    ensures Multiple(x, base) <==> x % base == 0
  {
    S.QuotientBounds(x, base);
    if x % base == 0 { assert x == (x / base) * base; }
    if Multiple(x, base) {
      var e: int :| x == e * base;
      if e < 0 {
        ScaleMono(e, -1, base);
        assert false;
      }
      SplitOffset(base, e, 0);
      assert base * e == e * base;
    }
  }

  // ---------- The range to free ---------- //

  /** Nothing, or the bytes from begin up to end. */
  datatype Range = Nothing | Range(begin: int, end: int)

  /** The part of `priv_free_slot_without_bin_lock` before the region is freed: slot k of size bytes in a
      chunk that starts at `start`. */
  function FreeRange(page: nat, hint: nat, start: nat, size: nat, k: nat, marked: set<nat>): Range
    requires page > 0
  {
    if size < 2 * page || size < hint then Nothing else
    var lo := start + k * size;
    var hi := lo + size;
    Range(if lo % page == 0 then lo else if k >= 1 && k - 1 in marked then RoundUp(lo, page) else RoundDown(lo, page),
          if hi % page == 0 then hi else if k + 1 in marked then RoundDown(hi, page) else RoundUp(hi, page))
  }

  /** Slots of two pages and more are released, unless they are smaller than asked for. */
  lemma ReleasedExactly(page: nat, hint: nat, start: nat, size: nat, k: nat, marked: set<nat>)
    requires page > 0
    ensures FreeRange(page, hint, start, size, k, marked).Range? <==> page + page <= size && hint <= size
  {}

  /** A chunk of n slots of two pages or more, whose start and end lie on page boundaries. */
  ghost predicate Aligned(page: nat, start: nat, chunk: nat, size: nat, n: nat) {
    && page > 0 && 2 * page <= size && n * size <= chunk
    && start % page == 0 && (start + chunk) % page == 0
  }

  lemma SlotOrder(size: nat, j: nat, k: nat)
    requires j < k
    ensures j * size + size <= k * size
  {
    S.TimesMono(j + 1, k, size);
    assert (j + 1) * size == j * size + size;
  }

  /** The first slot starts on a page boundary. A neighbour after a misaligned end is a slot of the chunk if
      the last slot ends on a page boundary; in any case the chunk does not end there. */
  lemma NeighbourExists(page: nat, start: nat, chunk: nat, size: nat, n: nat, k: nat)
    requires Aligned(page, start, chunk, size, n) && k < n
    ensures (start + k * size) % page != 0 ==> k >= 1
    ensures (start + k * size + size) % page != 0 ==> (start + n * size) % page != 0 || k + 1 < n
    ensures (start + k * size + size) % page != 0 ==> k * size + size != chunk
  {
    assert 0 * size == 0;
    assert (k + 1) * size == k * size + size;
  }

  /** Where the range lies: about the slot, never out of the chunk, on page boundaries, and not empty. */
  lemma RangeBounds(page: nat, hint: nat, start: nat, chunk: nat, size: nat, n: nat, k: nat, marked: set<nat>)
    requires Aligned(page, start, chunk, size, n) && hint <= size && k < n
    ensures var r := FreeRange(page, hint, start, size, k, marked);
            var lo := start + k * size;
            && r.Range? && Multiple(r.begin, page) && Multiple(r.end, page)
            && start <= r.begin < r.end <= start + chunk
            && lo - page < r.begin < lo + page && lo + size - page < r.end < lo + size + page
            && (k >= 1 && k - 1 in marked ==> lo <= r.begin) && (k + 1 in marked ==> r.end <= lo + size)
  {
    hide RoundUp, RoundDown, Multiple;
    var lo := start + k * size;
    var hi := lo + size;
    var r := FreeRange(page, hint, start, size, k, marked);
    SlotOrderLast(size, k, n);
    Nonnegative(k, size);
    RoundingCorrect(lo, page);
    RoundingCorrect(hi, page);
    MultipleIsMod(start, page);
    MultipleIsMod(start + chunk, page);
    MultipleIsMod(lo, page);
    MultipleIsMod(hi, page);
    if r.begin < start { MultiplesApart(r.begin, start, page); }
    if r.end > start + chunk { MultiplesApart(start + chunk, r.end, page); }
  }

  lemma SlotOrderLast(size: nat, k: nat, n: nat)
    requires k < n
    ensures k * size + size <= n * size
  {
    SlotOrder(size, k, n);
  }

  /** No byte of a marked slot is freed. */
  lemma RangeSparesMarked(page: nat, hint: nat, start: nat, chunk: nat, size: nat, n: nat, k: nat, marked: set<nat>,
          j: nat)
    requires Aligned(page, start, chunk, size, n) && hint <= size && k < n && k !in marked && j in marked
    ensures var r := FreeRange(page, hint, start, size, k, marked);
            r.Range? && (start + j * size + size <= r.begin || r.end <= start + j * size)
  {
    hide FreeRange, Multiple;
    RangeBounds(page, hint, start, chunk, size, n, k, marked);
    if j < k {
      SlotOrder(size, j, k);
      if j + 1 < k { SlotOrder(size, j, k - 1); SlotOrder(size, k - 1, k); }
    } else {
      SlotOrder(size, k, j);
      if k + 1 < j { SlotOrder(size, k, k + 1); SlotOrder(size, k + 1, j); }
    }
  }

  ghost predicate Overlaps(a: int, b: int, c: int, d: int) { a < d && c < b }

  /** Slot j lies on the page that starts at q. */
  ghost predicate SlotOn(page: nat, q: int, start: nat, size: nat, j: int) {
    Overlaps(q, q + page, start + j * size, start + j * size + size)
  }

  /** Every page the slot touches is freed, unless a marked slot touches it as well. */
  lemma RangeComplete(page: nat, hint: nat, start: nat, chunk: nat, size: nat, n: nat, k: nat, marked: set<nat>, q: int)
    requires Aligned(page, start, chunk, size, n) && hint <= size && k < n
    requires Multiple(q, page) && SlotOn(page, q, start, size, k)
    ensures var r := FreeRange(page, hint, start, size, k, marked);
            && r.Range?
            && ((r.begin <= q && q + page <= r.end)
                || (k >= 1 && k - 1 in marked && SlotOn(page, q, start, size, k - 1))
                || (k + 1 in marked && SlotOn(page, q, start, size, k + 1)))
  {
    hide Multiple, RoundUp, RoundDown;
    RangeBounds(page, hint, start, chunk, size, n, k, marked);
    var r := FreeRange(page, hint, start, size, k, marked);
    var lo := start + k * size;
    var hi := lo + size;
    RoundingCorrect(lo, page);
    RoundingCorrect(hi, page);
    assert (k + 1) * size == k * size + size;
    assert k >= 1 ==> (k - 1) * size == k * size - size;
    if q < r.begin {
      MultiplesApart(q, r.begin, page);
    } else if q + page > r.end {
      NextPage(q, page);
      MultiplesApart(r.end, q + page, page);
    }
  }

  lemma NextPage(q: int, page: int)
    requires Multiple(q, page)
    ensures Multiple(q + page, page)
  {
    var e: int :| q == e * page;
    assert q + page == (e + 1) * page;
  }
}
