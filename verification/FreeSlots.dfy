/** The plain meaning of slot search: lowest positions not yet in a set. */
module FreeSlots {

  lemma {:induction false} InitialSegment(s: set<nat>, i: nat)
    requires forall q: nat :: q < i ==> q in s
    ensures i <= |s|
  {
    if i > 0 {
      var rest := s - {i - 1};
      assert forall q: nat :: q < i - 1 ==> q in rest;
      InitialSegment(rest, i - 1);
    }
  }

  lemma {:induction false} Within(s: set<nat>, n: nat)
    requires forall k :: k in s ==> k < n
    ensures |s| <= n
    decreases n
  {
    if n == 0 {
      assert s == {};
    } else {
      Within(s - {n - 1}, n - 1);
    }
  }

  /** The least position at or after i that is not in s, when all before i are. */
  function LeastFree(s: set<nat>, i: nat := 0): (p: nat)
    requires forall q: nat :: q < i ==> q in s
    ensures p !in s && forall q: nat :: q < p ==> q in s
    decreases |s| + 1 - i
  {
    if i in s then
      InitialSegment(s, i + 1);
      LeastFree(s, i + 1)
    else i
  }

  lemma LeastFreeUnique(s: set<nat>, p: nat)
    requires p !in s && forall q: nat :: q < p ==> q in s
    ensures LeastFree(s) == p
  {}

  /** n lowest free positions, lowest first. */
  function FirstFree(s: set<nat>, n: nat): (ps: seq<nat>)
    ensures |ps| == n
    decreases n
  {
    if n == 0 then [] else
    var p := LeastFree(s);
    [p] + FirstFree(s + {p}, n - 1)
  }

  function Elements(ps: seq<nat>): (r: set<nat>)
  {
    set p | p in ps
  }

  /** While fewer than `size` positions below `size` are taken, the next one is below it. */
  lemma LeastFreeBelow(s: set<nat>, size: nat)
    requires |s| < size && forall p :: p in s ==> p < size
    ensures LeastFree(s) < size
  {
    InitialSegment(s, LeastFree(s));
  }

  /** The positions taken were free, stay below `size` and come in increasing order. */
  lemma {:induction false} FirstFreeFacts(s: set<nat>, n: nat, size: nat)
    requires forall p :: p in s ==> p < size
    requires |s| + n <= size
    ensures forall k :: 0 <= k < n ==> FirstFree(s, n)[k] !in s && FirstFree(s, n)[k] < size
    ensures forall j, k :: 0 <= j < k < n ==> FirstFree(s, n)[j] < FirstFree(s, n)[k]
    decreases n
  {
    if n > 0 {
      var p := LeastFree(s);
      LeastFreeBelow(s, size);
      FirstFreeFacts(s + {p}, n - 1, size);
      var rest := FirstFree(s + {p}, n - 1);
      var all := FirstFree(s, n);
      assert all == [p] + rest;
      forall k | 0 <= k < n ensures all[k] !in s && all[k] < size && (k > 0 ==> p < all[k]) {
        if k > 0 { assert all[k] == rest[k - 1]; }
      }
      forall j, k | 0 <= j < k < n ensures all[j] < all[k] {
        if j > 0 { assert all[j] == rest[j - 1] && all[k] == rest[k - 1]; }
      }
    }
  }

  lemma {:induction false} FirstFreeCount(s: set<nat>, n: nat)
    ensures |s + Elements(FirstFree(s, n))| == |s| + n
    decreases n
  {
    if n == 0 {
      assert s + Elements(FirstFree(s, n)) == s;
    } else {
      var p := LeastFree(s);
      FirstFreeCount(s + {p}, n - 1);
      ElementsCons(p, FirstFree(s + {p}, n - 1));
      assert s + Elements(FirstFree(s, n)) == (s + {p}) + Elements(FirstFree(s + {p}, n - 1));
    }
  }

  lemma {:induction false} SubsetCount(s: set<nat>, t: set<nat>)
    requires s <= t
    ensures |s| <= |t|
    decreases |s|
  {
    if s != {} {
      var x :| x in s;
      SubsetCount(s - {x}, t - {x});
    }
  }

  lemma ElementsCons(p: nat, ps: seq<nat>)
    ensures Elements([p] + ps) == {p} + Elements(ps)
  {
    assert forall q :: q in [p] + ps <==> q == p || q in ps;
  }

  lemma ElementsNone()
    ensures Elements([]) == {}
  {}

  lemma ElementsOne(p: nat)
    ensures Elements([p]) == {p}
  {
    assert [p][0] == p;
  }

  lemma ElementsConcat(ps: seq<nat>, qs: seq<nat>)
    ensures Elements(ps + qs) == Elements(ps) + Elements(qs)
  {
    assert forall q :: q in ps + qs <==> q in ps || q in qs;
  }

  /** A run of k free positions right after a full prefix is what the search takes next. */
  lemma {:induction false} FirstFreeRun(s: set<nat>, start: nat, k: nat, n: nat)
    requires k <= n
    requires forall q: nat :: q < start ==> q in s
    requires forall q: nat :: start <= q < start + k ==> q !in s
    ensures FirstFree(s, n) == Run(start, k) + FirstFree(s + Elements(Run(start, k)), n - k)
    decreases k
  {
    hide Elements, Run;
    if k == 0 {
      ElementsNone();
      assert s + Elements(Run(start, k)) == s;
    } else {
      LeastFreeUnique(s, start);
      FirstFreeRun(s + {start}, start + 1, k - 1, n - 1);
      assert Run(start, k) == [start] + Run(start + 1, k - 1);
      ElementsCons(start, Run(start + 1, k - 1));
      assert s + Elements(Run(start, k)) == (s + {start}) + Elements(Run(start + 1, k - 1));
    }
  }

  function Run(start: nat, k: nat): (ps: seq<nat>)
    ensures |ps| == k && forall i :: 0 <= i < k ==> ps[i] == start + i
  {
    seq(k, i => start + i)
  }
}
