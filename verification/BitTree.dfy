/** The layered slot bitmap as a value: layer 0 is one word, the last layer holds the slots,
    and bit q of layer l - 1 says that word q of layer l is full
    (include/metall/kernel/multilayer_bitset.hpp). */
module BitTree {
  import opened Bits
  import opened FreeSlots

  type Tree = seq<seq<bv64>>

  ghost predicate Shaped(t: Tree) {
    && |t| >= 1
    && |t[0]| == 1
    && forall l :: 1 <= l < |t| ==> |t[l]| <= 64 * |t[l - 1]|
  }

  ghost predicate SameShape(s: Tree, t: Tree) {
    |s| == |t| && forall l :: 0 <= l < |s| ==> |s[l]| == |t[l]|
  }

  ghost predicate BitAt(t: Tree, l: nat, b: nat)
    requires l < |t| && b < 64 * |t[l]|
  {
    Get(t[l][b / 64], b % 64)
  }

  ghost predicate Link(t: Tree, l: nat, q: nat)
    requires 1 <= l < |t| && q < 64 * |t[l - 1]|
  {
    BitAt(t, l - 1, q) <==> q < |t[l]| && FullBlock(t[l][q])
  }

  /** A parent bit is set exactly when its child word exists and is full. */
  ghost predicate Valid(t: Tree) {
    && Shaped(t)
    && forall l, q :: 1 <= l < |t| && 0 <= q < 64 * |t[l - 1]| ==> Link(t, l, q)
  }

  ghost predicate SlotSet(t: Tree, b: nat)
    requires |t| >= 1
  {
    b < 64 * |t[|t| - 1]| && BitAt(t, |t| - 1, b)
  }

  /** The slots that are set. */
  ghost function Leaf(t: Tree): set<nat>
    requires |t| >= 1
  {
    set b: nat | b < 64 * |t[|t| - 1]| && SlotSet(t, b)
  }

  lemma WordFull(t: Tree, l: nat, p: nat)
    requires l < |t| && p < |t[l]|
    ensures FullBlock(t[l][p]) <==> forall b :: 64 * p <= b < 64 * p + 64 ==> BitAt(t, l, b)
  {
    FullBlockBits(t[l][p]);
    hide Get, FullBlock;
    if forall b :: 64 * p <= b < 64 * p + 64 ==> BitAt(t, l, b) {
      forall i | 0 <= i < 64 ensures Get(t[l][p], i) { assert BitAt(t, l, 64 * p + i); }
    }
  }

  // ---------- Search from the root ---------- //

  /** p is the first word of layer l that is not full. */
  ghost predicate FirstOpen(t: Tree, l: nat, p: nat)
    requires l < |t|
  {
    p < |t[l]| && !FullBlock(t[l][p]) && forall q :: 0 <= q < p ==> FullBlock(t[l][q])
  }

  ghost predicate HasOpen(t: Tree, l: nat)
    requires l < |t|
  {
    exists p :: 0 <= p < |t[l]| && !FullBlock(t[l][p])
  }

  lemma {:induction false} OpenAbove(t: Tree, l: nat)
    requires Valid(t) && l < |t| && HasOpen(t, |t| - 1)
    ensures HasOpen(t, l)
    decreases |t| - l
  {
    hide Get, FullBlock;
    if l < |t| - 1 {
      OpenAbove(t, l + 1);
      var q :| 0 <= q < |t[l + 1]| && !FullBlock(t[l + 1][q]);
      assert Link(t, l + 1, q);
      WordFull(t, l, q / 64);
    }
  }

  function NextPosition(t: Tree, l: nat, p: nat): nat
    requires l < |t| && p < |t[l]|
  {
    FirstFalseBit(t[l][p]) + 64 * p
  }

  lemma FirstOpenBit(t: Tree, l: nat, p: nat)
    requires l < |t| && FirstOpen(t, l, p)
    ensures NextPosition(t, l, p) < 64 * |t[l]|
    ensures !BitAt(t, l, NextPosition(t, l, p))
    ensures forall b :: 0 <= b < NextPosition(t, l, p) ==> BitAt(t, l, b)
  {
    FirstFalseBitIsFirst(t[l][p]);
    hide Get, FullBlock, FirstFalseBit;
    var n := NextPosition(t, l, p);
    assert n / 64 == p && n % 64 == FirstFalseBit(t[l][p]);
    forall b | 0 <= b < n ensures BitAt(t, l, b) {
      if b / 64 < p { WordFull(t, l, b / 64); }
    }
  }

  lemma FirstOpenStep(t: Tree, l: nat, p: nat)
    requires Valid(t) && l < |t| - 1 && HasOpen(t, l + 1) && FirstOpen(t, l, p)
    ensures FirstOpen(t, l + 1, NextPosition(t, l, p))
  {
    hide Get, FullBlock, FirstFalseBit;
    FirstOpenBit(t, l, p);
    var n := NextPosition(t, l, p);
    var o :| 0 <= o < |t[l + 1]| && !FullBlock(t[l + 1][o]);
    assert Link(t, l + 1, o);
    assert Link(t, l + 1, n);
    var child := t[l + 1];
    forall q | 0 <= q < n ensures FullBlock(child[q]) { assert Link(t, l + 1, q); }
  }

  /** `find_in_multilayers` from layer l on. */
  function FindFrom(t: Tree, l: nat, p: nat): (b: nat)
    requires Valid(t) && HasOpen(t, |t| - 1) && l < |t| && FirstOpen(t, l, p)
    decreases |t| - l
  {
    var n := NextPosition(t, l, p);
    if l == |t| - 1 then n else
    OpenAbove(t, l + 1);
    FirstOpenStep(t, l, p);
    FindFrom(t, l + 1, n)
  }

  lemma RootOpen(t: Tree)
    requires Valid(t) && HasOpen(t, |t| - 1)
    ensures FirstOpen(t, 0, 0)
  {
    OpenAbove(t, 0);
  }

  function Find(t: Tree): nat
    requires Valid(t) && HasOpen(t, |t| - 1)
  {
    RootOpen(t);
    FindFrom(t, 0, 0)
  }

  lemma {:induction false} FindFromIsLeast(t: Tree, l: nat, p: nat)
    requires Valid(t) && HasOpen(t, |t| - 1) && l < |t| && FirstOpen(t, l, p)
    ensures FindFrom(t, l, p) == LeastFree(Leaf(t)) < 64 * |t[|t| - 1]|
    decreases |t| - l
  {
    hide Get, FullBlock, FirstFalseBit;
    if l == |t| - 1 {
      FirstOpenBit(t, l, p);
      LeastFreeUnique(Leaf(t), NextPosition(t, l, p));
    } else {
      OpenAbove(t, l + 1);
      FirstOpenStep(t, l, p);
      FindFromIsLeast(t, l + 1, NextPosition(t, l, p));
    }
  }

  /** The search over index words finds the least clear slot. */
  lemma FindIsLeast(t: Tree)
    requires Valid(t) && HasOpen(t, |t| - 1)
    ensures Find(t) == LeastFree(Leaf(t)) < 64 * |t[|t| - 1]|
  {
    RootOpen(t);
    FindFromIsLeast(t, 0, 0);
  }

  lemma OpenIffNotAllSet(t: Tree)
    requires Shaped(t)
    ensures HasOpen(t, |t| - 1) <==> LeastFree(Leaf(t)) < 64 * |t[|t| - 1]|
  {
    hide Get, FullBlock;
    var last := |t| - 1;
    if HasOpen(t, last) {
      var p :| 0 <= p < |t[last]| && !FullBlock(t[last][p]);
      WordFull(t, last, p);
      var b :| 64 * p <= b < 64 * p + 64 && !BitAt(t, last, b);
      assert b !in Leaf(t);
    }
    var f := LeastFree(Leaf(t));
    if f < 64 * |t[last]| {
      WordFull(t, last, f / 64);
      assert !BitAt(t, last, f);
    }
  }

  // ---------- Setting and clearing one slot ---------- //

  function PutWord(t: Tree, l: nat, p: nat, w: bv64): Tree
    requires l < |t| && p < |t[l]|
  {
    t[l := t[l][p := w]]
  }

  /** `set_in_multilayers` from layer l up. */
  function SetFrom(t: Tree, l: nat, b: nat): (r: Tree)
    requires Shaped(t) && l < |t| && b < 64 * |t[l]|
    ensures SameShape(t, r)
    decreases l
  {
    var w := Set(t[l][b / 64], b % 64);
    var u := PutWord(t, l, b / 64, w);
    if !FullBlock(w) || l == 0 then u else SetFrom(u, l - 1, b / 64)
  }

  /** `reset_bit_in_multilayers` from layer l up. */
  function ResetFrom(t: Tree, l: nat, b: nat): (r: Tree)
    requires Shaped(t) && l < |t| && b < 64 * |t[l]|
    ensures SameShape(t, r)
    decreases l
  {
    var w := t[l][b / 64];
    var u := PutWord(t, l, b / 64, Reset(w, b % 64));
    if !FullBlock(w) || l == 0 then u else ResetFrom(u, l - 1, b / 64)
  }

  lemma PutSetBits(t: Tree, l: nat, b: nat)
    requires Shaped(t) && l < |t| && b < 64 * |t[l]|
    ensures var u := PutWord(t, l, b / 64, Set(t[l][b / 64], b % 64));
            SameShape(t, u) && Shaped(u) &&
            forall k, c :: 0 <= k < |t| && 0 <= c < 64 * |t[k]| ==>
              (BitAt(u, k, c) <==> (k == l && c == b) || BitAt(t, k, c))
  {
    hide Get, Set;
    var u := PutWord(t, l, b / 64, Set(t[l][b / 64], b % 64));
    forall k, c | 0 <= k < |t| && 0 <= c < 64 * |t[k]|
      ensures BitAt(u, k, c) <==> (k == l && c == b) || BitAt(t, k, c)
    {
      if k == l && c / 64 == b / 64 {
        GetSet(t[l][b / 64], b % 64, c % 64);
      }
    }
  }

  lemma PutResetBits(t: Tree, l: nat, b: nat)
    requires Shaped(t) && l < |t| && b < 64 * |t[l]|
    ensures var u := PutWord(t, l, b / 64, Reset(t[l][b / 64], b % 64));
            SameShape(t, u) && Shaped(u) &&
            forall k, c :: 0 <= k < |t| && 0 <= c < 64 * |t[k]| ==>
              (BitAt(u, k, c) <==> !(k == l && c == b) && BitAt(t, k, c))
  {
    hide Get, Reset;
    var u := PutWord(t, l, b / 64, Reset(t[l][b / 64], b % 64));
    forall k, c | 0 <= k < |t| && 0 <= c < 64 * |t[k]|
      ensures BitAt(u, k, c) <==> !(k == l && c == b) && BitAt(t, k, c)
    {
      if k == l && c / 64 == b / 64 {
        GetReset(t[l][b / 64], b % 64, c % 64);
      }
    }
  }

  /** All links hold but those at (l + 1, b) and (l, b / 64). */
  ghost predicate LinksBut(t: Tree, l: nat, b: nat)
    requires Shaped(t) && l < |t| && b < 64 * |t[l]|
  {
    forall k, q :: 1 <= k < |t| && 0 <= q < 64 * |t[k - 1]| && (k, q) != (l + 1, b) && (k, q) != (l, b / 64)
      ==> Link(t, k, q)
  }

  /** What holds when layer l is about to get bit b: the child that b stands for is full,
      and the word's own parent bit is not ahead of it. */
  ghost predicate Rising(t: Tree, l: nat, b: nat)
    requires Shaped(t) && l < |t| && b < 64 * |t[l]|
  {
    && LinksBut(t, l, b)
    && (l + 1 < |t| ==> b < |t[l + 1]| && FullBlock(t[l + 1][b]))
    && (l > 0 && BitAt(t, l - 1, b / 64) ==> FullBlock(t[l][b / 64]))
  }

  /** After layer l got bit b, the one link that may be open is the word's own. */
  lemma RisingLinks(t: Tree, l: nat, b: nat)
    requires Shaped(t) && l < |t| && b < 64 * |t[l]| && Rising(t, l, b)
    ensures var u := PutWord(t, l, b / 64, Set(t[l][b / 64], b % 64));
            Shaped(u) &&
            forall k, q :: 1 <= k < |u| && 0 <= q < 64 * |u[k - 1]| && (k, q) != (l, b / 64) ==> Link(u, k, q)
  {
    hide Get, Set, FullBlock;
    var u := PutWord(t, l, b / 64, Set(t[l][b / 64], b % 64));
    PutSetBits(t, l, b);
    forall k, q | 1 <= k < |u| && 0 <= q < 64 * |u[k - 1]| && (k, q) != (l, b / 64)
      ensures Link(u, k, q)
    {
      if (k, q) != (l + 1, b) { assert Link(t, k, q); }
    }
  }

  /** A word that is not full leaves its parent bit clear. */
  lemma RisingEnds(t: Tree, l: nat, b: nat)
    requires Shaped(t) && 0 < l < |t| && b < 64 * |t[l]| && Rising(t, l, b)
    ensures var u := PutWord(t, l, b / 64, Set(t[l][b / 64], b % 64));
            !FullBlock(u[l][b / 64]) ==> b / 64 < 64 * |u[l - 1]| && Link(u, l, b / 64)
  {
    hide Get, Set, FullBlock;
    var u := PutWord(t, l, b / 64, Set(t[l][b / 64], b % 64));
    PutSetBits(t, l, b);
    WordFull(t, l, b / 64);
    WordFull(u, l, b / 64);
    assert BitAt(u, l - 1, b / 64) <==> BitAt(t, l - 1, b / 64);
  }

  lemma RisingStep(t: Tree, l: nat, b: nat)
    requires Shaped(t) && l < |t| && b < 64 * |t[l]| && Rising(t, l, b)
    ensures var u := PutWord(t, l, b / 64, Set(t[l][b / 64], b % 64));
            Shaped(u) &&
            if FullBlock(u[l][b / 64]) && l > 0 then Rising(u, l - 1, b / 64) else Valid(u)
  {
    hide Get, Set, FullBlock, BitAt;
    var u := PutWord(t, l, b / 64, Set(t[l][b / 64], b % 64));
    RisingLinks(t, l, b);
    if l > 0 { RisingEnds(t, l, b); }
    if l > 1 {
      var q := b / 64 / 64;
      assert q < |u[l - 1]| <= 64 * |u[l - 2]|;
      assert Link(u, l - 1, q);
    }
  }

  lemma {:induction false} SetFromValid(t: Tree, l: nat, b: nat)
    requires Shaped(t) && l < |t| && b < 64 * |t[l]| && Rising(t, l, b)
    ensures Valid(SetFrom(t, l, b))
    decreases l
  {
    hide Get, Set, FullBlock;
    RisingStep(t, l, b);
    var u := PutWord(t, l, b / 64, Set(t[l][b / 64], b % 64));
    if FullBlock(u[l][b / 64]) && l > 0 {
      SetFromValid(u, l - 1, b / 64);
    }
  }

  lemma {:induction false} SetFromBelow(t: Tree, l: nat, b: nat)
    requires Shaped(t) && l < |t| && b < 64 * |t[l]|
    ensures forall k :: l < k < |t| ==> SetFrom(t, l, b)[k] == t[k]
    ensures SetFrom(t, l, b)[l] == t[l][b / 64 := Set(t[l][b / 64], b % 64)]
    decreases l
  {
    hide Get, Set, FullBlock;
    var u := PutWord(t, l, b / 64, Set(t[l][b / 64], b % 64));
    if FullBlock(u[l][b / 64]) && l > 0 {
      SetFromBelow(u, l - 1, b / 64);
    }
  }

  function SetSlot(t: Tree, b: nat): Tree
    requires Shaped(t) && b < 64 * |t[|t| - 1]|
  {
    SetFrom(t, |t| - 1, b)
  }

  function ResetSlot(t: Tree, b: nat): Tree
    requires Shaped(t) && b < 64 * |t[|t| - 1]|
  {
    ResetFrom(t, |t| - 1, b)
  }

  lemma SetSlotLeaf(t: Tree, b: nat)
    requires Shaped(t) && b < 64 * |t[|t| - 1]|
    ensures Leaf(SetSlot(t, b)) == Leaf(t) + {b}
  {
    hide Get, Set, FullBlock;
    var last := |t| - 1;
    SetFromBelow(t, last, b);
    PutSetBits(t, last, b);
    var u := PutWord(t, last, b / 64, Set(t[last][b / 64], b % 64));
    assert SetSlot(t, b)[last] == u[last];
    forall c: nat | c < 64 * |t[last]|
      ensures BitAt(SetSlot(t, b), last, c) <==> BitAt(u, last, c)
    {}
  }

  /** Setting a slot keeps the index exact and adds just that slot. */
  lemma SetSlotCorrect(t: Tree, b: nat)
    requires Valid(t) && b < 64 * |t[|t| - 1]|
    ensures SameShape(t, SetSlot(t, b))
    ensures Valid(SetSlot(t, b)) && Leaf(SetSlot(t, b)) == Leaf(t) + {b}
  {
    hide Get, Set, FullBlock;
    var last := |t| - 1;
    if last > 0 { assert Link(t, last, b / 64); }
    SetFromValid(t, last, b);
    SetSlotLeaf(t, b);
  }

  /** What holds when layer l is about to lose bit b: only the child that b stands for is off. */
  ghost predicate Falling(t: Tree, l: nat, b: nat)
    requires Shaped(t) && l < |t| && b < 64 * |t[l]|
  {
    && (forall k, q :: 1 <= k < |t| && 0 <= q < 64 * |t[k - 1]| && (k, q) != (l + 1, b) ==> Link(t, k, q))
    && (l + 1 < |t| && b < |t[l + 1]| ==> !FullBlock(t[l + 1][b]))
  }

  lemma FallingStep(t: Tree, l: nat, b: nat)
    requires Shaped(t) && l < |t| && b < 64 * |t[l]| && Falling(t, l, b)
    ensures var u := PutWord(t, l, b / 64, Reset(t[l][b / 64], b % 64));
            Shaped(u) &&
            if FullBlock(t[l][b / 64]) && l > 0 then Falling(u, l - 1, b / 64) else Valid(u)
  {
    hide Get, Reset, FullBlock;
    var u := PutWord(t, l, b / 64, Reset(t[l][b / 64], b % 64));
    PutResetBits(t, l, b);
    WordFull(t, l, b / 64);
    WordFull(u, l, b / 64);
    assert !BitAt(u, l, b);
    if l > 0 { assert Link(t, l, b / 64); }
    forall k, q | 1 <= k < |u| && 0 <= q < 64 * |u[k - 1]| && (k, q) != (l, b / 64)
      ensures Link(u, k, q)
    {
      if (k, q) != (l + 1, b) { assert Link(t, k, q); }
    }
  }

  lemma {:induction false} ResetFromValid(t: Tree, l: nat, b: nat)
    requires Shaped(t) && l < |t| && b < 64 * |t[l]| && Falling(t, l, b)
    ensures Valid(ResetFrom(t, l, b))
    decreases l
  {
    hide Get, Reset, FullBlock;
    FallingStep(t, l, b);
    var u := PutWord(t, l, b / 64, Reset(t[l][b / 64], b % 64));
    if FullBlock(t[l][b / 64]) && l > 0 {
      ResetFromValid(u, l - 1, b / 64);
    }
  }

  lemma {:induction false} ResetFromBelow(t: Tree, l: nat, b: nat)
    requires Shaped(t) && l < |t| && b < 64 * |t[l]|
    ensures forall k :: l < k < |t| ==> ResetFrom(t, l, b)[k] == t[k]
    ensures ResetFrom(t, l, b)[l] == t[l][b / 64 := Reset(t[l][b / 64], b % 64)]
    decreases l
  {
    hide Get, Reset, FullBlock;
    var u := PutWord(t, l, b / 64, Reset(t[l][b / 64], b % 64));
    if FullBlock(t[l][b / 64]) && l > 0 {
      ResetFromBelow(u, l - 1, b / 64);
    }
  }

  /** Clearing a slot keeps the index exact and removes just that slot. */
  lemma ResetSlotCorrect(t: Tree, b: nat)
    requires Valid(t) && b < 64 * |t[|t| - 1]|
    ensures SameShape(t, ResetSlot(t, b))
    ensures Valid(ResetSlot(t, b)) && Leaf(ResetSlot(t, b)) == Leaf(t) - {b}
  {
    hide Get, Reset, FullBlock;
    var last := |t| - 1;
    ResetFromValid(t, last, b);
    ResetFromBelow(t, last, b);
    PutResetBits(t, last, b);
    var u := PutWord(t, last, b / 64, Reset(t[last][b / 64], b % 64));
    assert ResetSlot(t, b)[last] == u[last];
    forall c: nat | c < 64 * |t[last]|
      ensures BitAt(ResetSlot(t, b), last, c) <==> BitAt(u, last, c)
    {}
  }

  // ---------- The leaves determine the whole tree ---------- //

  lemma SameBitsSameLayer(s: Tree, t: Tree, l: nat)
    requires SameShape(s, t) && l < |s|
    requires forall b :: 0 <= b < 64 * |s[l]| ==> (BitAt(s, l, b) <==> BitAt(t, l, b))
    ensures s[l] == t[l]
  {
    hide Get;
    forall p | 0 <= p < |s[l]| ensures s[l][p] == t[l][p] {
      forall i | 0 <= i < 64 ensures Get(s[l][p], i) <==> Get(t[l][p], i) {
        var b := 64 * p + i;
        assert BitAt(s, l, b) <==> BitAt(t, l, b);
      }
      WordExtensional(s[l][p], t[l][p]);
    }
  }

  lemma {:induction false} SameAbove(s: Tree, t: Tree, l: nat)
    requires Valid(s) && Valid(t) && SameShape(s, t) && l < |s|
    requires s[|s| - 1] == t[|t| - 1]
    ensures s[l] == t[l]
    decreases |s| - l
  {
    hide Get, FullBlock;
    if l < |s| - 1 {
      SameAbove(s, t, l + 1);
      forall b | 0 <= b < 64 * |s[l]| ensures BitAt(s, l, b) <==> BitAt(t, l, b) {
        assert Link(s, l + 1, b);
        assert Link(t, l + 1, b);
      }
      SameBitsSameLayer(s, t, l);
    }
  }

  /** Two exact trees of one shape with the same slots set are equal, index words included. */
  lemma LeavesDetermineTree(s: Tree, t: Tree)
    requires Valid(s) && Valid(t) && SameShape(s, t) && Leaf(s) == Leaf(t)
    ensures s == t
  {
    hide Get, FullBlock;
    var last := |s| - 1;
    forall b | 0 <= b < 64 * |s[last]| ensures BitAt(s, last, b) <==> BitAt(t, last, b) {
      assert b in Leaf(s) <==> b in Leaf(t);
    }
    SameBitsSameLayer(s, t, last);
    forall l | 0 <= l < |s| ensures s[l] == t[l] { SameAbove(s, t, l); }
  }

  // ---------- Finding and setting one slot, then many ---------- //

  ghost predicate RoomFor(t: Tree, n: nat)
    requires |t| >= 1
  {
    |Leaf(t)| + n <= 64 * |t[|t| - 1]|
  }

  lemma RoomMeansOpen(t: Tree)
    requires Shaped(t) && RoomFor(t, 1)
    ensures HasOpen(t, |t| - 1)
  {
    LeastFreeBelow(Leaf(t), 64 * |t[|t| - 1]|);
    OpenIffNotAllSet(t);
  }

  function FindAndSet(t: Tree): (r: (nat, Tree))
    requires Valid(t) && RoomFor(t, 1)
  {
    RoomMeansOpen(t);
    FindIsLeast(t);
    var b := Find(t);
    (b, SetSlot(t, b))
  }

  lemma FindAndSetCorrect(t: Tree)
    requires Valid(t) && RoomFor(t, 1)
    ensures FindAndSet(t).0 == LeastFree(Leaf(t))
    ensures var u := FindAndSet(t).1;
            SameShape(t, u) && Valid(u) && Leaf(u) == Leaf(t) + {LeastFree(Leaf(t))}
  {
    RoomMeansOpen(t);
    FindIsLeast(t);
    SetSlotCorrect(t, Find(t));
  }

  /** n single find-and-sets, one after the other. */
  function FindAndSetTimes(t: Tree, n: nat): (r: (seq<nat>, Tree))
    requires Valid(t) && RoomFor(t, n)
    decreases n
  {
    if n == 0 then ([], t) else
    FindAndSetCorrect(t);
    var (b, u) := FindAndSet(t);
    var (bs, v) := FindAndSetTimes(u, n - 1);
    ([b] + bs, v)
  }

  lemma {:induction false} FindAndSetTimesCorrect(t: Tree, n: nat)
    requires Valid(t) && RoomFor(t, n)
    ensures FindAndSetTimes(t, n).0 == FirstFree(Leaf(t), n)
    ensures var u := FindAndSetTimes(t, n).1;
            SameShape(t, u) && Valid(u) && Leaf(u) == Leaf(t) + Elements(FirstFree(Leaf(t), n))
    decreases n
  {
    hide BitAt, Valid, Leaf, SetSlot;
    if n > 0 {
      FindAndSetCorrect(t);
      var (b, u) := FindAndSet(t);
      FindAndSetTimesCorrect(u, n - 1);
      ElementsCons(b, FirstFree(Leaf(u), n - 1));
    }
  }

  /** Any exact tree with the n lowest free slots added is the tree n single steps give. */
  lemma ManyIsTimes(t: Tree, n: nat, u: Tree)
    requires Valid(t) && RoomFor(t, n)
    requires Valid(u) && SameShape(t, u) && Leaf(u) == Leaf(t) + Elements(FirstFree(Leaf(t), n))
    ensures FindAndSetTimes(t, n) == (FirstFree(Leaf(t), n), u)
  {
    FindAndSetTimesCorrect(t, n);
    LeavesDetermineTree(FindAndSetTimes(t, n).1, u);
  }

  function OrMask(t: Tree, p: nat, k: nat): Tree
    requires |t| >= 1 && p < |t[|t| - 1]| && 1 <= k <= 64
  {
    PutWord(t, |t| - 1, p, Or(t[|t| - 1][p], GenerateMask(0, k)))
  }

  lemma OrMaskBits(t: Tree, p: nat, k: nat)
    requires Shaped(t) && p < |t[|t| - 1]| && 1 <= k <= 64
    ensures SameShape(t, OrMask(t, p, k))
    ensures forall b :: 0 <= b < 64 * |t[|t| - 1]| ==>
              (SlotSet(OrMask(t, p, k), b) <==> SlotSet(t, b) || 64 * p <= b < 64 * p + k)
  {
    hide Get, Or, GenerateMask;
    var last := |t| - 1;
    var u := OrMask(t, p, k);
    forall b | 0 <= b < 64 * |t[last]|
      ensures SlotSet(u, b) <==> SlotSet(t, b) || 64 * p <= b < 64 * p + k
    {
      if b / 64 == p {
        GetOr(t[last][p], GenerateMask(0, k), b % 64);
        GetMask(0, k, b % 64);
      }
    }
  }

  lemma OrMaskRising(t: Tree, p: nat, k: nat)
    requires Valid(t) && p < |t[|t| - 1]| && EmptyBlock(t[|t| - 1][p]) && 1 <= k <= 64
    ensures Shaped(OrMask(t, p, k)) && Rising(OrMask(t, p, k), |t| - 1, 64 * p + k - 1)
  {
    var last := |t| - 1;
    assert !FullBlock(t[last][p]);
    hide Get, Or, GenerateMask, EmptyBlock, FullBlock;
    var u := OrMask(t, p, k);
    if last > 0 {
      assert Link(t, last, p);
      assert BitAt(u, last - 1, p) <==> BitAt(t, last - 1, p);
    }
    forall l, q | 1 <= l < |u| && 0 <= q < 64 * |u[l - 1]| && (l, q) != (last, p)
      ensures Link(u, l, q)
    {
      assert Link(t, l, q);
    }
    assert (64 * p + k - 1) / 64 == p;
  }

  /** Or-ing a k-bit mask into an empty leaf word and then re-setting its last bit
      is the same as taking those k slots. */
  lemma MaskedRun(t: Tree, p: nat, k: nat)
    requires Valid(t) && p < |t[|t| - 1]| && EmptyBlock(t[|t| - 1][p]) && 1 <= k <= 64
    ensures var v := SetSlot(OrMask(t, p, k), 64 * p + k - 1);
            SameShape(t, v) && Valid(v) && Leaf(v) == Leaf(t) + Elements(Run(64 * p, k))
  {
    var u := OrMask(t, p, k);
    var run := Run(64 * p, k);
    OrMaskBits(t, p, k);
    OrMaskRising(t, p, k);
    SetFromValid(u, |t| - 1, 64 * p + k - 1);
    SetSlotLeaf(u, 64 * p + k - 1);
    hide Get, Set, FullBlock, OrMask, SlotSet, SetSlot, Valid;
    forall b | 64 * p <= b < 64 * p + k ensures b in run { assert run[b - 64 * p] == b; }
    assert Leaf(u) == Leaf(t) + Elements(run);
    assert run[k - 1] == 64 * p + k - 1;
  }

  /** A tree with no slot set. */
  lemma EmptyTree(t: Tree)
    requires Shaped(t) && forall l, p :: 0 <= l < |t| && 0 <= p < |t[l]| ==> t[l][p] == 0
    ensures Valid(t) && Leaf(t) == {}
  {
    forall l, b | 0 <= l < |t| && 0 <= b < 64 * |t[l]| ensures !BitAt(t, l, b) {
      GetNot(0, b % 64);
    }
    hide Get;
    forall l, q | 1 <= l < |t| && 0 <= q < 64 * |t[l - 1]| ensures Link(t, l, q) {
      assert !BitAt(t, l - 1, q);
    }
  }
}
