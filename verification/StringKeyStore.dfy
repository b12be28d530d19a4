/** A multimap from strings that keeps its items under 64-bit ids: a key's id is its hash, or the next id that
    is free (include/metall/container/string_key_store.hpp). */
module StringKeyStore {
  import F = FreeSlots

  /** The id that stands for no key. */
  const MAX_ID: nat := 0xFFFF_FFFF_FFFF_FFFF

  /** Some hash function of strings with 64-bit values. */
  type Hash = string -> nat

  ghost predicate ValidHash(hash: Hash) { forall k: string :: hash(k) <= MAX_ID }

  /** `priv_increment_internal_id`; the sum wraps at 64 bits before the remainder is taken. */
  function Increment(id: nat): (r: nat)
    requires id <= MAX_ID
    ensures r < MAX_ID
  {
    ((id + 1) % (MAX_ID + 1)) % MAX_ID
  }

  /** `priv_hash_key`. */
  function Home(hash: Hash, key: string): (id: nat)
    requires hash(key) <= MAX_ID
    ensures id < MAX_ID
  {
    if hash(key) == MAX_ID then Increment(MAX_ID) else hash(key)
  }

  /** The id d steps after h, going round. */
  function Step(h: nat, d: nat): (r: nat)
    ensures r < MAX_ID
  {
    (h + d) % MAX_ID
  }

  lemma IncrementSteps(h: nat, d: nat)
    requires h < MAX_ID
    ensures Step(h, 0) == h && Increment(Step(h, d)) == Step(h, d + 1)
  {}

  /** A key's id is its hash, or 0 if that is the number that stands for no key; after the last id comes 0 again. */
  lemma IdsMean(hash: Hash, key: string, id: nat)
    requires hash(key) <= MAX_ID && id < MAX_ID
    ensures Home(hash, key) == if hash(key) == 0xFFFF_FFFF_FFFF_FFFF then 0 else hash(key)
    ensures Increment(id) == Step(id, 1) == if id == 0xFFFF_FFFF_FFFF_FFFE then 0 else id + 1
  {}

  // ---------- The items ---------- //

  datatype Item<V> = Item(id: nat, key: string, value: V)

  /** Where the first item with this id is; the end if there is none. */
  function FindItem<V>(es: seq<Item<V>>, id: nat, i: nat := 0): (k: nat)
    requires i <= |es|
    ensures i <= k <= |es| && (k < |es| ==> es[k].id == id) && forall j :: i <= j < k ==> es[j].id != id
    decreases |es| - i
  {
    if i == |es| || es[i].id == id then i else FindItem(es, id, i + 1)
  }

  ghost predicate Occupied<V>(es: seq<Item<V>>, id: nat) { exists i :: 0 <= i < |es| && es[i].id == id }

  ghost predicate HasKey<V>(es: seq<Item<V>>, key: string) { exists i :: 0 <= i < |es| && es[i].key == key }

  /** The values of the items with this id, and of those with this key: the plain meaning of the multimap. */
  function ValuesAt<V>(es: seq<Item<V>>, id: nat): seq<V> {
    if es == [] then [] else ValuesAt(es[..|es| - 1], id) + (if es[|es| - 1].id == id then [es[|es| - 1].value] else [])
  }

  function ValuesOf<V>(es: seq<Item<V>>, key: string): seq<V> {
    if es == [] then []
    else ValuesOf(es[..|es| - 1], key) + (if es[|es| - 1].key == key then [es[|es| - 1].value] else [])
  }

  function Pairs<V>(es: seq<Item<V>>): (ps: seq<(string, V)>)
    ensures |ps| == |es| && forall i :: 0 <= i < |es| ==> ps[i] == (es[i].key, es[i].value)
  {
    seq(|es|, i requires 0 <= i < |es| => (es[i].key, es[i].value))
  }

  // ---------- The probe invariant ---------- //

  /** An item at this id can be reached from h in at most `reach` steps over occupied ids. */
  ghost predicate Reachable<V>(es: seq<Item<V>>, h: nat, id: nat, reach: nat) {
    exists d: nat :: d <= reach && id == Step(h, d) && forall e: nat :: e < d ==> Occupied(es, Step(h, e))
  }

  /** One id per key and one key per id, and every item can be reached from its key's home. */
  ghost predicate ProbeOk<V>(es: seq<Item<V>>, hash: Hash, reach: nat) {
    && ValidHash(hash) && (forall i :: 0 <= i < |es| ==> es[i].id < MAX_ID)
    && (forall i, j :: 0 <= i < |es| && 0 <= j < |es| ==> (es[i].id == es[j].id <==> es[i].key == es[j].key))
    && forall i :: 0 <= i < |es| ==> Reachable(es, Home(hash, es[i].key), es[i].id, reach)
  }

  ghost predicate UniqueKeys<V>(es: seq<Item<V>>) {
    forall i, j :: 0 <= i < j < |es| ==> es[i].key != es[j].key
  }

  /** `priv_find_internal_id` from distance d on. */
  function FindIdFrom<V>(es: seq<Item<V>>, h: nat, key: string, reach: nat, d: nat): (id: nat)
    requires d <= reach + 1
    ensures id <= MAX_ID
    decreases reach + 1 - d
  {
    if d > reach then MAX_ID else
    var k := FindItem(es, Step(h, d));
    if k == |es| then MAX_ID
    else if es[k].key == key then Step(h, d)
    else FindIdFrom(es, h, key, reach, d + 1)
  }

  function FindId<V>(es: seq<Item<V>>, hash: Hash, key: string, reach: nat): (id: nat)
    requires hash(key) <= MAX_ID
    ensures id <= MAX_ID
  {
    FindIdFrom(es, Home(hash, key), key, reach, 0)
  }

  lemma {:induction false} FindIdFromCorrect<V>(es: seq<Item<V>>, hash: Hash, key: string, reach: nat, d: nat)
    requires ProbeOk(es, hash, reach) && d <= reach + 1
    requires forall e: nat, i :: e < d && 0 <= i < |es| && es[i].id == Step(Home(hash, key), e) ==> es[i].key != key
    requires forall e: nat :: e < d ==> Occupied(es, Step(Home(hash, key), e))
    ensures var id := FindIdFrom(es, Home(hash, key), key, reach, d);
            && (forall i :: 0 <= i < |es| && es[i].key == key ==> es[i].id == id)
            && (id == MAX_ID <==> !HasKey(es, key))
    decreases reach + 1 - d
  {
    hide Home;
    var h := Home(hash, key);
    forall i | 0 <= i < |es| && es[i].key == key
      ensures exists D: nat ::
                d <= D <= reach && es[i].id == Step(h, D) && forall e: nat :: e < D ==> Occupied(es, Step(h, e))
    {
      assert Reachable(es, h, es[i].id, reach);
    }
    if d <= reach {
      var k := FindItem(es, Step(h, d));
      if k < |es| && es[k].key != key {
        assert Occupied(es, Step(h, d));
        forall i | 0 <= i < |es| && es[i].id == Step(h, d) ensures es[i].key != key { assert es[i].id == es[k].id; }
        FindIdFromCorrect(es, hash, key, reach, d + 1);
      } else if k == |es| {
        assert !Occupied(es, Step(h, d));
      }
    }
  }

  /** With the probe invariant a key is found exactly when it is there, and under its one id. */
  lemma FindIdCorrect<V>(es: seq<Item<V>>, hash: Hash, key: string, reach: nat)
    requires ProbeOk(es, hash, reach)
    ensures var id := FindId(es, hash, key, reach);
            && (forall i :: 0 <= i < |es| && es[i].key == key ==> es[i].id == id)
            && (forall i :: 0 <= i < |es| && es[i].id == id ==> es[i].key == key)
            && (id == MAX_ID <==> !HasKey(es, key))
  {
    hide Home;
    FindIdFromCorrect(es, hash, key, reach, 0);
    var id := FindId(es, hash, key, reach);
    if id != MAX_ID {
      var k :| 0 <= k < |es| && es[k].key == key;
      assert es[k].id == id;
    }
  }

  lemma {:induction false} SameValues<V>(es: seq<Item<V>>, id: nat, key: string)
    requires forall i :: 0 <= i < |es| ==> (es[i].id == id <==> es[i].key == key)
    ensures ValuesAt(es, id) == ValuesOf(es, key)
    decreases |es|
  {
    if es != [] { SameValues(es[..|es| - 1], id, key); }
  }

  // ---------- Adding items ---------- //

  lemma OccupiedMore<V>(es: seq<Item<V>>, x: Item<V>, id: nat)
    ensures Occupied(es, id) ==> Occupied(es + [x], id)
    ensures Occupied(es + [x], x.id)
  {
    if Occupied(es, id) {
      var i :| 0 <= i < |es| && es[i].id == id;
      assert (es + [x])[i].id == id;
    }
    assert (es + [x])[|es|].id == x.id;
  }

  lemma ReachableMore<V>(es: seq<Item<V>>, x: Item<V>, h: nat, id: nat, reach: nat, more: nat)
    requires Reachable(es, h, id, reach) && reach <= more
    ensures Reachable(es + [x], h, id, more)
  {
    hide Occupied, Step;
    var d: nat :| d <= reach && id == Step(h, d) && forall e: nat :: e < d ==> Occupied(es, Step(h, e));
    forall e: nat | e < d ensures Occupied(es + [x], Step(h, e)) { OccupiedMore(es, x, Step(h, e)); }
  }

  /** A new item goes to its key's id, or for a new key to the first free id after its home. */
  lemma AddOk<V>(es: seq<Item<V>>, hash: Hash, reach: nat, x: Item<V>, d: nat)
    requires ProbeOk(es, hash, reach) && x.id < MAX_ID
    requires if HasKey(es, x.key) then forall i :: 0 <= i < |es| && es[i].key == x.key ==> es[i].id == x.id
             else !Occupied(es, x.id) && x.id == Step(Home(hash, x.key), d)
                  && forall e: nat :: e < d ==> Occupied(es, Step(Home(hash, x.key), e))
    ensures ProbeOk(es + [x], hash, if !HasKey(es, x.key) && reach < d then d else reach)
  {
    hide Home, Step, Reachable;
    var more := if !HasKey(es, x.key) && reach < d then d else reach;
    var r := es + [x];
    forall i | 0 <= i < |r| ensures Reachable(r, Home(hash, r[i].key), r[i].id, more) {
      if i < |es| {
        ReachableMore(es, x, Home(hash, es[i].key), es[i].id, reach, more);
      } else if HasKey(es, x.key) {
        var j :| 0 <= j < |es| && es[j].key == x.key;
        ReachableMore(es, x, Home(hash, x.key), x.id, reach, more);
      } else {
        AddReachable(es, x, Home(hash, x.key), d, more);
      }
    }
    forall i, j | 0 <= i < |r| && 0 <= j < |r| ensures r[i].id == r[j].id <==> r[i].key == r[j].key {
      if HasKey(es, x.key) {
        var k :| 0 <= k < |es| && es[k].key == x.key;
        assert es[k].id == x.id;
      }
    }
  }

  lemma AddReachable<V>(es: seq<Item<V>>, x: Item<V>, h: nat, d: nat, more: nat)
    requires x.id == Step(h, d) && d <= more && forall e: nat :: e < d ==> Occupied(es, Step(h, e))
    ensures Reachable(es + [x], h, x.id, more)
  {
    hide Occupied, Step;
    forall e: nat | e < d ensures Occupied(es + [x], Step(h, e)) { OccupiedMore(es, x, Step(h, e)); }
  }

  lemma ReplaceOk<V>(es: seq<Item<V>>, hash: Hash, reach: nat, k: nat, value: V)
    requires ProbeOk(es, hash, reach) && k < |es|
    ensures ProbeOk(es[k := es[k].(value := value)], hash, reach)
  {
    hide Home, Step;
    var r := es[k := es[k].(value := value)];
    forall i | 0 <= i < |r| ensures Reachable(r, Home(hash, r[i].key), r[i].id, reach) {
      assert Reachable(es, Home(hash, es[i].key), es[i].id, reach);
      forall id: nat | Occupied(es, id) ensures Occupied(r, id) {
        var j :| 0 <= j < |es| && es[j].id == id;
        assert r[j].id == id;
      }
    }
  }

  lemma ValuesAdd<V>(es: seq<Item<V>>, x: Item<V>, key: string)
    ensures ValuesOf(es + [x], key) == if x.key == key then ValuesOf(es, key) + [x.value] else ValuesOf(es, key)
  {
    assert (es + [x])[..|es|] == es;
  }

  lemma {:induction false} ValuesNone<V>(es: seq<Item<V>>, key: string)
    requires !HasKey(es, key)
    ensures ValuesOf(es, key) == []
    decreases |es|
  {
    if es != [] {
      assert es[|es| - 1].key != key;
      var rest := es[..|es| - 1];
      forall i | 0 <= i < |rest| ensures rest[i].key != key { assert es[i].key != key; }
      ValuesNone(rest, key);
    }
  }

  /** With unique keys a key has at most one value, and replacing it changes nothing else. */
  lemma {:induction false} ValuesReplace<V>(es: seq<Item<V>>, k: nat, value: V, key: string)
    requires UniqueKeys(es) && k < |es|
    ensures ValuesOf(es[k := es[k].(value := value)], key) == if es[k].key == key then [value] else ValuesOf(es, key)
    decreases |es|
  {
    var n := |es| - 1;
    var r := es[k := es[k].(value := value)];
    if k < n {
      assert r[..n] == es[..n][k := es[k].(value := value)];
      ValuesReplace(es[..n], k, value, key);
    } else {
      assert r[..n] == es[..n];
      if es[k].key == key { ValuesNone(es[..n], key); }
    }
  }

  // ---------- A free id exists ---------- //

  /** All ids are occupied once the probe has gone round. */
  lemma GoneRound<V>(es: seq<Item<V>>, h: nat)
    requires h < MAX_ID && forall e: nat :: e < MAX_ID ==> Occupied(es, Step(h, e))
    ensures |es| >= MAX_ID
  {
    var ids := Ids(es);
    forall q: nat | q < MAX_ID ensures q in ids {
      var e := if q >= h then q - h else q + MAX_ID - h;
      assert Step(h, e) == q;
      assert Occupied(es, q);
    }
    F.InitialSegment(ids, MAX_ID);
    IdsCount(es);
  }

  ghost function Ids<V>(es: seq<Item<V>>): (s: set<nat>)
    ensures forall id :: id in s <==> Occupied(es, id)
  {
    set i | 0 <= i < |es| :: es[i].id
  }

  lemma {:induction false} IdsCount<V>(es: seq<Item<V>>)
    ensures |Ids(es)| <= |es|
    decreases |es|
  {
    if es == [] {
      assert Ids(es) == {};
    } else {
      var n := |es| - 1;
      IdsCount(es[..n]);
      forall id | id in Ids(es) ensures id in Ids(es[..n]) + {es[n].id} {
        var i :| 0 <= i < |es| && es[i].id == id;
        if i < n { assert es[..n][i].id == id; }
      }
      F.SubsetCount(Ids(es), Ids(es[..n]) + {es[n].id});
    }
  }

  // ---------- Erasing ---------- //

  function Without<V>(es: seq<Item<V>>, id: nat): (r: seq<Item<V>>)
    ensures |r| <= |es|
  {
    if es == [] then [] else Without(es[..|es| - 1], id) + (if es[|es| - 1].id == id then [] else [es[|es| - 1]])
  }

  lemma {:induction false} WithoutFacts<V>(es: seq<Item<V>>, id: nat, key: string)
    requires forall i :: 0 <= i < |es| ==> (es[i].id == id <==> es[i].key == key)
    ensures |Without(es, id)| + |ValuesOf(es, key)| == |es| && ValuesOf(Without(es, id), key) == []
    ensures forall k: string :: k != key ==> ValuesOf(Without(es, id), k) == ValuesOf(es, k)
    decreases |es|
  {
    if es != [] {
      var n := |es| - 1;
      var w := Without(es[..n], id);
      WithoutFacts(es[..n], id, key);
      if es[n].id != id {
        assert (w + [es[n]])[..|w|] == w;
      } else {
        assert w + [] == w;
      }
    }
  }

  lemma {:induction false} WithoutMember<V>(es: seq<Item<V>>, id: nat, x: Item<V>)
    ensures x in Without(es, id) <==> x in es && x.id != id
    decreases |es|
  {
    if es != [] {
      var n := |es| - 1;
      WithoutMember(es[..n], id, x);
      assert es == es[..n] + [es[n]];
    }
  }

  /** How many steps id is after h. */
  function Distance(h: nat, id: nat): (d: nat)
    requires h < MAX_ID && id < MAX_ID
    ensures d < MAX_ID && Step(h, d) == id
  {
    if id >= h then id - h else id + MAX_ID - h
  }

  lemma DistanceLeast(h: nat, d: nat)
    requires h < MAX_ID
    ensures Distance(h, Step(h, d)) <= d
  {}

  lemma ReachableMeans<V>(es: seq<Item<V>>, h: nat, id: nat, reach: nat)
    requires h < MAX_ID && id < MAX_ID
    ensures Reachable(es, h, id, reach) <==>
            Distance(h, id) <= reach && forall e: nat :: e < Distance(h, id) ==> Occupied(es, Step(h, e))
  {
    hide Step, Occupied;
    if Reachable(es, h, id, reach) {
      var d: nat :| d <= reach && id == Step(h, d) && forall e: nat :: e < d ==> Occupied(es, Step(h, e));
      DistanceLeast(h, d);
    }
  }

  /** id x lies on the way from h to id. */
  predicate OnTheWay(h: nat, id: nat, x: nat)
    requires h < MAX_ID && id < MAX_ID && x < MAX_ID
  {
    Distance(h, x) < Distance(h, id)
  }

  /** Every key that is there is found, and no other. */
  ghost predicate Finds<V>(es: seq<Item<V>>, hash: Hash, reach: nat)
    requires ValidHash(hash)
  {
    forall key: string :: FindId(es, hash, key, reach) != MAX_ID <==> HasKey(es, key)
  }

  /** Erasing the items of one id breaks the probe invariant, and with it some lookup, exactly when that id
      was on the way to an item that stays. */
  lemma EraseBreaks<V>(es: seq<Item<V>>, hash: Hash, reach: nat, id: nat)
    requires ProbeOk(es, hash, reach) && id < MAX_ID && Occupied(es, id)
    ensures Finds(Without(es, id), hash, reach) <==>
            forall x :: x in es && x.id != id ==> !OnTheWay(Home(hash, x.key), x.id, id)
    ensures Finds(Without(es, id), hash, reach) <==> ProbeOk(Without(es, id), hash, reach)
  {
    hide Home, FindId, OnTheWay, Occupied, Reachable;
    var r := Without(es, id);
    if forall x :: x in es && x.id != id ==> !OnTheWay(Home(hash, x.key), x.id, id) {
      EraseKeeps(es, hash, reach, id);
      forall key: string ensures FindId(r, hash, key, reach) != MAX_ID <==> HasKey(r, key) {
        FindIdCorrect(r, hash, key, reach);
      }
    } else {
      var x :| x in es && x.id != id && OnTheWay(Home(hash, x.key), x.id, id);
      EraseLoses(es, hash, reach, id, x);
      assert !Finds(r, hash, reach);
      if ProbeOk(r, hash, reach) { FindIdCorrect(r, hash, x.key, reach); }
    }
  }

  lemma StillOccupied<V>(es: seq<Item<V>>, id: nat, q: nat)
    ensures Occupied(Without(es, id), q) <==> Occupied(es, q) && q != id
  {
    var r := Without(es, id);
    if Occupied(es, q) && q != id {
      var i :| 0 <= i < |es| && es[i].id == q;
      WithoutMember(es, id, es[i]);
      var j :| 0 <= j < |r| && r[j] == es[i];
    }
    if Occupied(r, q) {
      var i :| 0 <= i < |r| && r[i].id == q;
      WithoutMember(es, id, r[i]);
      var j :| 0 <= j < |es| && es[j] == r[i];
    }
  }

  lemma EraseKeeps<V>(es: seq<Item<V>>, hash: Hash, reach: nat, id: nat)
    requires ProbeOk(es, hash, reach) && id < MAX_ID
    requires forall x :: x in es && x.id != id ==> !OnTheWay(Home(hash, x.key), x.id, id)
    ensures ProbeOk(Without(es, id), hash, reach)
  {
    hide Home, Reachable, Occupied, Step;
    var r := Without(es, id);
    forall i | 0 <= i < |r| ensures r[i] in es && r[i].id != id { WithoutMember(es, id, r[i]); }
    forall i | 0 <= i < |r| ensures Reachable(r, Home(hash, r[i].key), r[i].id, reach) {
      var x := r[i];
      var h := Home(hash, x.key);
      var j :| 0 <= j < |es| && es[j] == x;
      ReachableMeans(es, h, x.id, reach);
      ReachableMeans(r, h, x.id, reach);
      forall e: nat | e < Distance(h, x.id) ensures Occupied(r, Step(h, e)) {
        StillOccupied(es, id, Step(h, e));
        DistanceLeast(h, e);
      }
    }
  }

  /** A hole on the way to x makes x's key unfindable. */
  lemma EraseLoses<V>(es: seq<Item<V>>, hash: Hash, reach: nat, id: nat, x: Item<V>)
    requires ProbeOk(es, hash, reach) && id < MAX_ID && x in es && x.id != id && OnTheWay(Home(hash, x.key), x.id, id)
    ensures HasKey(Without(es, id), x.key) && FindId(Without(es, id), hash, x.key, reach) == MAX_ID
  {
    hide Home, Reachable, Step;
    var r := Without(es, id);
    var h := Home(hash, x.key);
    WithoutMember(es, id, x);
    var j :| 0 <= j < |r| && r[j] == x;
    var k :| 0 <= k < |es| && es[k] == x;
    ReachableMeans(es, h, x.id, reach);
    StillOccupied(es, id, id);
    forall i, e: nat | 0 <= i < |r| && e < Distance(h, id) && r[i].id == Step(h, e) ensures r[i].key != x.key {
      WithoutMember(es, id, r[i]);
      var l :| 0 <= l < |es| && es[l] == r[i];
      DistanceLeast(h, e);
    }
    StopsAtHole(r, h, x.key, reach, 0, Distance(h, id));
  }

  lemma {:induction false} StopsAtHole<V>(es: seq<Item<V>>, h: nat, key: string, reach: nat, d: nat, hole: nat)
    requires d <= hole <= reach && !Occupied(es, Step(h, hole))
    requires forall i, e: nat :: 0 <= i < |es| && e < hole && es[i].id == Step(h, e) ==> es[i].key != key
    ensures FindIdFrom(es, h, key, reach, d) == MAX_ID
    decreases hole - d
  {
    hide Step;
    var k := FindItem(es, Step(h, d));
    if d < hole { StopsAtHole(es, h, key, reach, d + 1, hole); }
  }

  // ---------- Copying with an allocator ---------- //

  /** The allocator-extended copy and move constructors take over the items but not the reach, which starts at
      0 again: the copy finds what it holds exactly when every item is at its key's home. */
  lemma CopyFinds<V>(es: seq<Item<V>>, hash: Hash, reach: nat)
    requires ProbeOk(es, hash, reach)
    ensures Finds(es, hash, 0) <==> forall x :: x in es ==> x.id == Home(hash, x.key)
  {
    hide Home, FindId, Reachable, Step;
    if forall x :: x in es ==> x.id == Home(hash, x.key) {
      forall i | 0 <= i < |es| ensures Reachable(es, Home(hash, es[i].key), es[i].id, 0) {
        assert es[i] in es;
        AtHome(es, Home(hash, es[i].key));
      }
      forall key: string ensures FindId(es, hash, key, 0) != MAX_ID <==> HasKey(es, key) {
        FindIdCorrect(es, hash, key, 0);
      }
    } else {
      var x :| x in es && x.id != Home(hash, x.key);
      var k :| 0 <= k < |es| && es[k] == x;
      NotAtHome(es, hash, x.key, x.id);
      assert HasKey(es, x.key);
      assert !Finds(es, hash, 0);
    }
  }

  lemma AtHome<V>(es: seq<Item<V>>, h: nat)
    requires h < MAX_ID
    ensures Reachable(es, h, h, 0)
  {
    IncrementSteps(h, 0);
    assert h == Step(h, 0);
  }

  lemma NotAtHome<V>(es: seq<Item<V>>, hash: Hash, key: string, id: nat)
    requires ValidHash(hash) && id != Home(hash, key)
    requires forall i :: 0 <= i < |es| && es[i].key == key ==> es[i].id == id
    ensures FindId(es, hash, key, 0) == MAX_ID
  {
    hide Home, Step;
    var h := Home(hash, key);
    IncrementSteps(h, 0);
    var k := FindItem(es, Step(h, 0));
  }

  /** Two keys with the same hash: the second one is lost in such a copy. */
  lemma CopyLoses(hash: Hash)
    requires ValidHash(hash) && hash("a") == 5 && hash("b") == 5
    ensures ProbeOk([Item(5, "a", 0), Item(6, "b", 0)], hash, 1) && !Finds([Item(5, "a", 0), Item(6, "b", 0)], hash, 0)
  {
    hide Finds, ProbeOk;
    var es := [Item(5, "a", 0), Item(6, "b", 0)];
    TwoItems(hash);
    CopyFinds(es, hash, 1);
    assert es[1] in es && es[1].id != Home(hash, es[1].key);
  }

  lemma TwoItems(hash: Hash)
    requires ValidHash(hash) && hash("a") == 5 && hash("b") == 5
    ensures ProbeOk([Item(5, "a", 0), Item(6, "b", 0)], hash, 1)
  {
    hide Finds, Home, Step;
    var es := [Item(5, "a", 0), Item(6, "b", 0)];
    FirstSteps(hash);
    assert "a" != "b" by { assert "a"[0] != "b"[0]; }
    assert es[0].id == 5;
    assert Occupied(es, Step(5, 0));
    assert Reachable(es, 5, Step(5, 0), 1);
    assert Reachable(es, 5, Step(5, 1), 1);
  }

  lemma FirstSteps(hash: Hash)
    requires ValidHash(hash) && hash("a") == 5 && hash("b") == 5
    ensures Step(5, 0) == 5 && Step(5, 1) == 6 && Home(hash, "a") == 5 && Home(hash, "b") == 5
  {}

  /** And erasing the first one makes the second one unfindable, although it is still there. */
  lemma EraseLosesExample(hash: Hash)
    requires ValidHash(hash) && hash("a") == 5 && hash("b") == 5
    ensures var es := [Item(5, "a", 0), Item(6, "b", 0)];
            ProbeOk(es, hash, 1) && !Finds(Without(es, 5), hash, 1)
  {
    hide Finds, ProbeOk;
    var es := [Item(5, "a", 0), Item(6, "b", 0)];
    TwoItems(hash);
    assert es[0].id == 5 && es[1] in es;
    EraseBreaks(es, hash, 1, 5);
    assert OnTheWay(Home(hash, "b"), 6, 5);
  }

  // ---------- States in which some key may be lost ---------- //

  /** One key per id, and with unique keys one item per id. Every operation keeps this, erasing included. */
  ghost predicate Sound<V>(es: seq<Item<V>>, unique: bool) {
    && (forall i :: 0 <= i < |es| ==> es[i].id < MAX_ID)
    && (forall i, j :: 0 <= i < |es| && 0 <= j < |es| && es[i].id == es[j].id ==> es[i].key == es[j].key)
    && (unique ==> forall i, j :: 0 <= i < j < |es| ==> es[i].id != es[j].id)
  }

  /** What is found is an item with the key, in any state. */
  lemma {:induction false} FoundHasKey<V>(es: seq<Item<V>>, h: nat, key: string, reach: nat, d: nat)
    requires d <= reach + 1
    ensures var id := FindIdFrom(es, h, key, reach, d);
            id != MAX_ID ==> exists i :: 0 <= i < |es| && es[i].id == id && es[i].key == key
    decreases reach + 1 - d
  {
    hide Step;
    if d <= reach {
      var k := FindItem(es, Step(h, d));
      if k < |es| && es[k].key != key { FoundHasKey(es, h, key, reach, d + 1); }
    }
  }

  /** So in a sound state no lookup gives a value of another key. */
  lemma FoundIsSound<V>(es: seq<Item<V>>, hash: Hash, key: string, reach: nat, unique: bool)
    requires Sound(es, unique) && hash(key) <= MAX_ID
    ensures var id := FindId(es, hash, key, reach);
            && (id != MAX_ID ==> Occupied(es, id)) && (forall i :: 0 <= i < |es| && es[i].id == id ==> es[i].key == key)
            && forall v :: v in ValuesAt(es, id) ==> v in ValuesOf(es, key)
  {
    hide Home, FindIdFrom, ValuesAt, ValuesOf;
    var id := FindId(es, hash, key, reach);
    FoundHasKey(es, Home(hash, key), key, reach, 0);
    forall v | v in ValuesAt(es, id) ensures v in ValuesOf(es, key) { ValueHasKey(es, id, key, v); }
  }

  lemma {:induction false} ValueHasKey<V>(es: seq<Item<V>>, id: nat, key: string, v: V)
    requires v in ValuesAt(es, id) && forall i :: 0 <= i < |es| && es[i].id == id ==> es[i].key == key
    ensures v in ValuesOf(es, key)
    decreases |es|
  {
    var n := |es| - 1;
    if v in ValuesAt(es[..n], id) {
      forall i | 0 <= i < n && es[..n][i].id == id ensures es[..n][i].key == key { assert es[i].id == id; }
      ValueHasKey(es[..n], id, key, v);
    }
  }

  lemma SoundAdd<V>(es: seq<Item<V>>, unique: bool, x: Item<V>)
    requires Sound(es, unique) && x.id < MAX_ID
             && (forall i :: 0 <= i < |es| && es[i].id == x.id ==> es[i].key == x.key)
    requires unique ==> !Occupied(es, x.id)
    ensures Sound(es + [x], unique)
  {}

  lemma SoundReplace<V>(es: seq<Item<V>>, unique: bool, k: nat, value: V)
    requires Sound(es, unique) && k < |es|
    ensures Sound(es[k := es[k].(value := value)], unique)
  {}

  lemma {:induction false} SoundWithout<V>(es: seq<Item<V>>, unique: bool, id: nat)
    requires Sound(es, unique)
    ensures Sound(Without(es, id), unique)
    decreases |es|
  {
    if es != [] {
      var n := |es| - 1;
      forall i | 0 <= i < n ensures es[..n][i] == es[i] {}
      SoundWithout(es[..n], unique, id);
      var r := Without(es[..n], id);
      if es[n].id == id {
        assert r + [] == r;
      } else {
        forall i | 0 <= i < |r| ensures r[i] in es[..n] { WithoutMember(es[..n], id, r[i]); }
        SoundAdd(r, unique, es[n]);
      }
    }
  }

  lemma ValidIsSound<V>(es: seq<Item<V>>, hash: Hash, reach: nat, unique: bool)
    requires ProbeOk(es, hash, reach) && (unique ==> UniqueKeys(es))
    ensures Sound(es, unique)
  {
    hide Reachable, Home;
  }

  lemma {:induction false} NoneWithout<V>(es: seq<Item<V>>)
    requires forall i :: 0 <= i < |es| ==> es[i].id != MAX_ID
    ensures Without(es, MAX_ID) == es
    decreases |es|
  {
    if es != [] {
      var n := |es| - 1;
      assert forall i :: 0 <= i < n ==> es[..n][i] == es[i];
      NoneWithout(es[..n]);
      assert es[n].id != MAX_ID && Without(es, MAX_ID) == Without(es[..n], MAX_ID) + [es[n]];
      hide Without;
      assert es == es[..n] + [es[n]];
    }
  }

  // ---------- What a search may find ---------- //

  ghost predicate ItemAt<V>(es: seq<Item<V>>, id: nat, key: string) {
    exists i :: 0 <= i < |es| && es[i].id == id && es[i].key == key
  }

  ghost predicate OtherAt<V>(es: seq<Item<V>>, id: nat, key: string) {
    exists i :: 0 <= i < |es| && es[i].id == id && es[i].key != key
  }

  /** A search for the key from distance d on may answer id, whichever of the items with one id it looks at. */
  ghost predicate MayFind<V>(es: seq<Item<V>>, h: nat, key: string, reach: nat, d: nat, id: nat)
    requires d <= reach + 1
    decreases reach + 1 - d
  {
    if d > reach || !Occupied(es, Step(h, d)) then id == MAX_ID
    else || (id == Step(h, d) && ItemAt(es, id, key))
         || (OtherAt(es, Step(h, d), key) && MayFind(es, h, key, reach, d + 1, id))
  }

  ghost predicate MayMiss<V>(es: seq<Item<V>>, hash: Hash, key: string, reach: nat)
    requires hash(key) <= MAX_ID
  {
    MayFind(es, Home(hash, key), key, reach, 0, MAX_ID)
  }

  ghost predicate OneKeyPerId<V>(es: seq<Item<V>>) {
    forall i, j :: 0 <= i < |es| && 0 <= j < |es| && es[i].id == es[j].id ==> es[i].key == es[j].key
  }

  /** With one key per id there is one answer. */
  lemma {:induction false} OneAnswer<V>(es: seq<Item<V>>, h: nat, key: string, reach: nat, d: nat, id: nat)
    requires d <= reach + 1 && OneKeyPerId(es)
    ensures MayFind(es, h, key, reach, d, id) <==> id == FindIdFrom(es, h, key, reach, d)
    decreases reach + 1 - d
  {
    hide Step;
    if d <= reach {
      var k := FindItem(es, Step(h, d));
      assert Occupied(es, Step(h, d)) <==> k < |es|;
      OneAnswer(es, h, key, reach, d + 1, id);
    }
  }

  /** A search may miss a key if at every id that is occupied there is an item with another. */
  lemma {:induction false} Misses<V>(es: seq<Item<V>>, h: nat, key: string, reach: nat, d: nat)
    requires d <= reach + 1
    requires forall i :: 0 <= i < |es| ==> OtherAt(es, es[i].id, key)
    ensures MayFind(es, h, key, reach, d, MAX_ID)
    decreases reach + 1 - d
  {
    hide Step;
    if d <= reach { Misses(es, h, key, reach, d + 1); }
  }

  /** An item with another key does not disturb a search that succeeds, unless it shares the id. */
  lemma {:induction false} FoundStays<V>(es: seq<Item<V>>, x: Item<V>, h: nat, key: string, reach: nat, more: nat,
                                         d: nat, id: nat)
    requires d <= reach + 1 && reach <= more && OneKeyPerId(es) && x.key != key && !ItemAt(es, x.id, key)
    requires FindIdFrom(es, h, key, reach, d) != MAX_ID && MayFind(es + [x], h, key, more, d, id)
    ensures id == FindIdFrom(es, h, key, reach, d)
    decreases reach + 1 - d
  {
    hide Step;
    var r, q := es + [x], Step(h, d);
    var k := FindItem(es, q);
    assert r[k].id == q && Occupied(r, q);
    if es[k].key == key {
      assert ItemAt(es, q, key);
      assert !OtherAt(r, q, key);
    } else {
      assert !ItemAt(r, q, key);
      FoundStays(es, x, h, key, reach, more, d + 1, id);
    }
  }

  lemma {:induction false} NothingToFind<V>(es: seq<Item<V>>, h: nat, key: string, reach: nat, d: nat, id: nat)
    requires d <= reach + 1 && !HasKey(es, key) && MayFind(es, h, key, reach, d, id)
    ensures id == MAX_ID
    decreases reach + 1 - d
  {
    hide Step;
    if d <= reach && id != MAX_ID { NothingToFind(es, h, key, reach, d + 1, id); }
  }

  // ---------- Keys that are stored as C strings ---------- //

  /** A C string: up to the first NUL character. */
  function CString(key: string): (r: string)
    ensures r == key <==> Clean(key)
    ensures Clean(r) && |r| <= |key|
  {
    if key == "" || key[0] == '\0' then "" else
    var rest := CString(key[1..]);
    assert key == [key[0]] + key[1..];
    [key[0]] + rest
  }

  predicate Clean(key: string) { '\0' !in key }

  /** The key as `insert` stores it: what is read as a C string where the view starts. The view is followed by
      `tail`, and that by a NUL character. */
  function StoredKey(key: string, tail: string): string { CString(key + tail) }

  /** The view has no NUL character and is followed by one. */
  predicate Terminated(key: string, tail: string) { Clean(key) && (tail == "" || tail[0] == '\0') }

  /** Exactly then the key is stored as it is. */
  lemma {:induction false} StoredWhole(key: string, tail: string)
    ensures StoredKey(key, tail) == key <==> Terminated(key, tail)
    decreases |key|
  {
    if key == "" {
      assert key + tail == tail;
    } else {
      assert (key + tail)[0] == key[0] && (key + tail)[1..] == key[1..] + tail && key == [key[0]] + key[1..];
      StoredWhole(key[1..], tail);
    }
  }

  // ---------- What insert does ---------- //

  /** `insert` of a key and a value under the id found or made for the key. */
  function Inserted<V>(es: seq<Item<V>>, unique: bool, id: nat, key: string, tail: string, value: V): seq<Item<V>> {
    var k := FindItem(es, id);
    if unique && |ValuesAt(es, id)| == 1 && k < |es| then es[k := es[k].(value := value)]
    else es + [Item(id, StoredKey(key, tail), value)]
  }

  lemma {:induction false} NoneAt<V>(es: seq<Item<V>>, id: nat)
    ensures |ValuesAt(es, id)| == 0 <==> !Occupied(es, id)
    decreases |es|
  {
    if es != [] {
      var n := |es| - 1;
      NoneAt(es[..n], id);
      assert forall i :: 0 <= i < n ==> es[..n][i] == es[i];
      assert Occupied(es, id) <==> Occupied(es[..n], id) || es[n].id == id;
    }
  }

  lemma {:induction false} OneAt<V>(es: seq<Item<V>>, id: nat)
    requires forall i, j :: 0 <= i < j < |es| ==> es[i].id != es[j].id
    ensures |ValuesAt(es, id)| == if Occupied(es, id) then 1 else 0
    decreases |es|
  {
    NoneAt(es, id);
    if es != [] {
      var n := |es| - 1;
      OneAt(es[..n], id);
      assert forall i :: 0 <= i < n ==> es[..n][i] == es[i];
      assert es[n].id == id ==> !Occupied(es[..n], id);
    }
  }

  lemma InsertSound<V>(es: seq<Item<V>>, unique: bool, id: nat, key: string, tail: string, value: V)
    requires Sound(es, unique) && Terminated(key, tail) && id < MAX_ID
    requires forall i :: 0 <= i < |es| && es[i].id == id ==> es[i].key == key
    ensures Sound(Inserted(es, unique, id, key, tail, value), unique)
  {
    hide ValuesAt, StoredKey, Terminated;
    StoredWhole(key, tail);
    if unique { OneAt(es, id); }
    var k := FindItem(es, id);
    assert k < |es| <==> Occupied(es, id);
    if unique && |ValuesAt(es, id)| == 1 && k < |es| {
      SoundReplace(es, unique, k, value);
    } else {
      SoundAdd(es, unique, Item(id, key, value));
    }
  }

  /** The insert does what it should: the key is stored as it is, or need not be stored. */
  ghost predicate Right<V>(es: seq<Item<V>>, unique: bool, key: string, tail: string) {
    Terminated(key, tail) || (unique && HasKey(es, key))
  }

  /** In a valid state the key then gets the value, and no other key is affected. */
  lemma InsertValid<V>(es: seq<Item<V>>, hash: Hash, reach: nat, unique: bool, id: nat, key: string, tail: string,
                       value: V)
    requires ProbeOk(es, hash, reach) && (unique ==> UniqueKeys(es)) && Right(es, unique, key, tail)
    requires ProbeOk(es + [Item(id, key, value)], hash, reach)
    requires forall i :: 0 <= i < |es| ==> (es[i].id == id <==> es[i].key == key)
    ensures var r := Inserted(es, unique, id, key, tail, value);
            && ProbeOk(r, hash, reach) && (unique ==> UniqueKeys(r)) && HasKey(r, key)
            && (!unique ==> Pairs(r) == Pairs(es) + [(key, value)])
            && forall k: string :: ValuesOf(r, k) ==
                 if k != key then ValuesOf(es, k) else if unique then [value] else ValuesOf(es, k) + [value]
  {
    hide ProbeOk, ValuesOf, ValuesAt, StoredKey, Terminated, Sound;
    StoredWhole(key, tail);
    var r, k, x := Inserted(es, unique, id, key, tail, value), FindItem(es, id), Item(id, key, value);
    if unique {
      ValidIsSound(es, hash, reach, unique);
      UniqueIds(es);
      OneAt(es, id);
    }
    if unique && k < |es| {
      assert Occupied(es, id);
      ReplaceOk(es, hash, reach, k, value);
      assert r[k].key == key;
      forall q: string ensures ValuesOf(r, q) == if q != key then ValuesOf(es, q) else [value] {
        ValuesReplace(es, k, value, q);
      }
    } else {
      assert r == es + [x] && r[|es|].key == key;
      if k == |es| { NoSuchKey(es, id, key); }
      if unique {
        ValuesNone(es, key);
        UniqueAdd(es, x);
      }
      forall q: string ensures ValuesOf(r, q) == if q == key then ValuesOf(es, q) + [value] else ValuesOf(es, q) {
        ValuesAdd(es, x, q);
      }
    }
  }

  lemma UniqueIds<V>(es: seq<Item<V>>)
    requires Sound(es, true)
    ensures forall i, j :: 0 <= i < j < |es| ==> es[i].id != es[j].id
  {}

  /** If not, an item with another key joins the id. */
  lemma InsertedOther<V>(es: seq<Item<V>>, unique: bool, id: nat, key: string, tail: string, value: V)
    requires !Right(es, unique, key, tail) && (unique ==> UniqueKeys(es))
    requires forall i :: 0 <= i < |es| ==> (es[i].id == id <==> es[i].key == key)
    ensures var s := StoredKey(key, tail);
            s != key && Inserted(es, unique, id, key, tail, value) == es + [Item(id, s, value)]
  {
    hide ValuesAt, StoredKey, Terminated;
    StoredWhole(key, tail);
    NoneAt(es, id);
    if Occupied(es, id) { assert HasKey(es, key); }
  }

  /** After an insert into a valid state the key is found, whichever items are looked at, if and only if the
      insert does what it should. */
  lemma InsertFinds<V>(es: seq<Item<V>>, hash: Hash, reach: nat, unique: bool, id: nat, key: string, tail: string,
                       value: V)
    requires ProbeOk(es, hash, reach) && (unique ==> UniqueKeys(es))
    requires ProbeOk(es + [Item(id, key, value)], hash, reach)
    requires forall i :: 0 <= i < |es| ==> (es[i].id == id <==> es[i].key == key)
    ensures !MayMiss(Inserted(es, unique, id, key, tail, value), hash, key, reach) <==> Right(es, unique, key, tail)
  {
    hide Home, Reachable, Right, ValuesAt, FindIdFrom, StoredKey, MayFind;
    var r, h := Inserted(es, unique, id, key, tail, value), Home(hash, key);
    if Right(es, unique, key, tail) {
      InsertValid(es, hash, reach, unique, id, key, tail, value);
      FindIdCorrect(r, hash, key, reach);
      OneAnswer(r, h, key, reach, 0, MAX_ID);
    } else {
      InsertedOther(es, unique, id, key, tail, value);
      assert r[|es|].id == id && r[|es|].key != key;
      forall i | 0 <= i < |r| ensures OtherAt(r, r[i].id, key) {
        if r[i].id == id { assert OtherAt(r, id, key); } else { assert r[i].key != key; }
      }
      Misses(r, h, key, reach, 0);
    }
  }

  /** Whatever items are looked at, every key outside `except` has in r the id and the values it had in es. */
  ghost predicate Undisturbed<V>(es: seq<Item<V>>, before: nat, r: seq<Item<V>>, reach: nat, hash: Hash,
                                 except: set<string>)
    requires ValidHash(hash)
  {
    forall k: string, id: nat :: k !in except && MayFind(r, Home(hash, k), k, reach, 0, id) ==>
      id == FindId(es, hash, k, before) && Kept(es, r, k, id)
  }

  ghost predicate Kept<V>(es: seq<Item<V>>, r: seq<Item<V>>, k: string, id: nat) {
    if id < MAX_ID then ValuesAt(r, id) == ValuesOf(es, k) else !HasKey(es, k)
  }

  /** An insert that does not do what it should leaves all keys alone but the one inserted and the one stored. */
  lemma OthersFind<V>(es: seq<Item<V>>, hash: Hash, before: nat, reach: nat, unique: bool, id: nat, key: string,
                      tail: string, value: V)
    requires ProbeOk(es, hash, before) && before <= reach && (unique ==> UniqueKeys(es))
    requires forall i :: 0 <= i < |es| ==> (es[i].id == id <==> es[i].key == key)
    requires !Right(es, unique, key, tail)
    ensures Undisturbed(es, before, Inserted(es, unique, id, key, tail, value), reach, hash,
                        {key, StoredKey(key, tail)})
  {
    hide Right, Kept, StoredKey, Reachable;
    InsertedOther(es, unique, id, key, tail, value);
    var x := Item(id, StoredKey(key, tail), value);
    var r := es + [x];
    forall k: string, found: nat | k !in {key, x.key} && MayFind(r, Home(hash, k), k, reach, 0, found)
      ensures found == FindId(es, hash, k, before) && Kept(es, r, k, found)
    {
      OtherFinds(es, hash, before, reach, x, k, found);
    }
  }

  lemma OtherFinds<V>(es: seq<Item<V>>, hash: Hash, before: nat, reach: nat, x: Item<V>, k: string, found: nat)
    requires ProbeOk(es, hash, before) && before <= reach && k != x.key && !ItemAt(es, x.id, k)
    requires MayFind(es + [x], Home(hash, k), k, reach, 0, found)
    ensures found == FindId(es, hash, k, before) && Kept(es, es + [x], k, found)
  {
    hide Home, Reachable, ValuesAt, ValuesOf, FindIdFrom, MayFind;
    FindIdCorrect(es, hash, k, before);
    if HasKey(es, k) {
      FoundStays(es, x, Home(hash, k), k, before, reach, 0, found);
      var i :| 0 <= i < |es| && es[i].key == k;
      assert es[i].id == found && ItemAt(es, found, k) && found != x.id;
      SameValues(es, found, k);
      assert ValuesAt(es, found) + [] == ValuesAt(es, found);
      ValuesAtAdd(es, x, found);
    } else {
      assert !HasKey(es + [x], k);
      NothingToFind(es + [x], Home(hash, k), k, reach, 0, found);
    }
  }

  lemma ValuesAtAdd<V>(es: seq<Item<V>>, x: Item<V>, id: nat)
    ensures ValuesAt(es + [x], id) == ValuesAt(es, id) + if x.id == id then [x.value] else []
  {
    assert (es + [x])[..|es|] == es;
  }

  /** For example a key with a NUL character, inserted into an empty store, is not found. */
  lemma CutOffExample(hash: Hash, id: nat, tail: string)
    requires ValidHash(hash) && id < MAX_ID
    ensures var r := Inserted<int>([], false, id, "a\0b", tail, 7);
            r == [Item(id, "a", 7)] && MayMiss(r, hash, "a\0b", 0)
  {
    hide Home, MayFind;
    var key := "a\0b" + tail;
    assert key[0] == 'a' && key[1..] == "\0b" + tail && CString(key[1..]) == "";
    assert CString(key) == "a";
    var r := [Item(id, "a", 7)];
    assert |"a"| != |"a\0b"| && OtherAt(r, id, "a\0b") by { assert r[0].id == id; }
    Misses(r, Home(hash, "a\0b"), "a\0b", 0, 0);
  }

  /** Nor is the first half of a longer text: the whole text is stored. */
  lemma RunOnExample(hash: Hash, id: nat)
    requires ValidHash(hash) && id < MAX_ID
    ensures var r := Inserted<int>([], false, id, "ab", "c", 7);
            r == [Item(id, "abc", 7)] && MayMiss(r, hash, "ab", 0)
  {
    hide Home, MayFind;
    assert "ab" + "c" == "abc" && Clean("abc") && |"ab"| != |"abc"|;
    var r := [Item(id, "abc", 7)];
    assert OtherAt(r, id, "ab") by { assert r[0].id == id; }
    Misses(r, Home(hash, "ab"), "ab", 0, 0);
  }

  // ---------- Other orders ---------- //

  lemma {:induction false} ValuesConcat<V>(es: seq<Item<V>>, fs: seq<Item<V>>, key: string)
    ensures ValuesOf(es + fs, key) == ValuesOf(es, key) + ValuesOf(fs, key)
    decreases |fs|
  {
    if fs == [] {
      assert es + fs == es;
    } else {
      var n := |fs| - 1;
      assert es + fs == (es + fs[..n]) + [fs[n]];
      ValuesConcat(es, fs[..n], key);
      ValuesAdd(es + fs[..n], fs[n], key);
    }
  }

  /** The same items in another order give every key the same values in another order. */
  lemma {:induction false} Reordered<V>(es: seq<Item<V>>, fs: seq<Item<V>>, key: string)
    requires multiset(es) == multiset(fs)
    ensures multiset(ValuesOf(es, key)) == multiset(ValuesOf(fs, key)) && multiset(Pairs(es)) == multiset(Pairs(fs))
    decreases |es|
  {
    if es == [] {
      assert |multiset(fs)| == 0;
    } else {
      hide ValuesOf, Pairs;
      var n := |es| - 1;
      assert es[n] in multiset(fs);
      var j :| 0 <= j < |fs| && fs[j] == es[n];
      ItemTaken(es, n);
      ItemTaken(fs, j);
      assert es[..n] + es[n + 1..] == es[..n];
      var rest := fs[..j] + fs[j + 1..];
      assert multiset(es[..n]) == multiset(es) - multiset{es[n]};
      assert multiset(rest) == multiset(fs) - multiset{es[n]};
      Reordered(es[..n], rest, key);
      TakenOut(es, n, key);
      TakenOut(fs, j, key);
    }
  }

  lemma ItemTaken<V>(fs: seq<Item<V>>, j: nat)
    requires j < |fs|
    ensures multiset(fs) == multiset(fs[..j] + fs[j + 1..]) + multiset{fs[j]}
  {
    assert fs == fs[..j] + [fs[j]] + fs[j + 1..];
  }

  lemma TakenOut<V>(fs: seq<Item<V>>, j: nat, key: string)
    requires j < |fs|
    ensures var rest := fs[..j] + fs[j + 1..];
            && multiset(ValuesOf(fs, key)) ==
                 multiset(ValuesOf(rest, key)) + (if fs[j].key == key then multiset{fs[j].value} else multiset{})
            && multiset(Pairs(fs)) == multiset(Pairs(rest)) + multiset{(fs[j].key, fs[j].value)}
  {
    hide ValuesOf;
    var a, x, b := fs[..j], fs[j], fs[j + 1..];
    assert fs == (a + [x]) + b;
    ValuesConcat(a + [x], b, key);
    ValuesAdd(a, x, key);
    ValuesConcat(a, b, key);
    PairsTaken(fs, j);
  }

  lemma PairsTaken<V>(fs: seq<Item<V>>, j: nat)
    requires j < |fs|
    ensures multiset(Pairs(fs)) == multiset(Pairs(fs[..j] + fs[j + 1..])) + multiset{(fs[j].key, fs[j].value)}
  {
    hide Pairs;
    var a, x, b := fs[..j], fs[j], fs[j + 1..];
    var p := [(x.key, x.value)];
    assert fs == a + ([x] + b);
    PairsConcat(a, [x] + b);
    PairsConcat([x], b);
    PairsConcat(a, b);
    assert Pairs([x]) == p;
    assert Pairs(fs) == Pairs(a) + (p + Pairs(b));
  }

  lemma PairsConcat<V>(es: seq<Item<V>>, fs: seq<Item<V>>)
    ensures Pairs(es + fs) == Pairs(es) + Pairs(fs)
  {
    hide Pairs;
  }

  // ---------- The container ---------- //

  class StringKeyStore<V> {
    const unique: bool
    const hash: Hash
    var items: seq<Item<V>>
    var maxIdProbeDistance: nat

    ghost predicate Valid()
      reads this
    {
      ProbeOk(items, hash, maxIdProbeDistance) && (unique ==> UniqueKeys(items))
    }

    constructor (unique: bool, hash: Hash)
      requires ValidHash(hash)
      ensures Valid() && items == [] && this.unique == unique && this.hash == hash
    {
      this.unique, this.hash, items, maxIdProbeDistance := unique, hash, [], 0;
    }

    /** `priv_find_internal_id`. */
    method FindInternalId(key: string) returns (id: nat)
      requires ValidHash(hash)
      ensures id == FindId(items, hash, key, maxIdProbeDistance)
    {
      hide Home, Step, Increment;
      ghost var h := Home(hash, key);
      id := Home(hash, key);
      IncrementSteps(h, 0);
      var d := 0;
      while d <= maxIdProbeDistance
        invariant 0 <= d <= maxIdProbeDistance + 1 && id == Step(h, d)
        invariant FindIdFrom(items, h, key, maxIdProbeDistance, d) == FindId(items, hash, key, maxIdProbeDistance)
      {
        var k := FindItem(items, id);
        if k == |items| { break; }
        if items[k].key == key { return; }
        IncrementSteps(h, d);
        id := Increment(id);
        d := d + 1;
      }
      id := MAX_ID;
    }

    /** `priv_generate_internal_id`: the first free id from the key's home on. */
    method GenerateInternalId(key: string) returns (id: nat, ghost distance: nat)
      requires ValidHash(hash) && |items| < MAX_ID
      modifies this`maxIdProbeDistance
      ensures id == Step(Home(hash, key), distance) && !Occupied(items, id)
      ensures forall e: nat :: e < distance ==> Occupied(items, Step(Home(hash, key), e))
      ensures maxIdProbeDistance == if old(maxIdProbeDistance) < distance then distance else old(maxIdProbeDistance)
    {
      hide Home, Step, Increment;
      ghost var h := Home(hash, key);
      id := Home(hash, key);
      IncrementSteps(h, 0);
      var d := 0;
      while FindItem(items, id) < |items|
        invariant id == Step(h, d) && d <= MAX_ID && maxIdProbeDistance == old(maxIdProbeDistance)
        invariant forall e: nat :: e < d ==> Occupied(items, Step(h, e))
        decreases MAX_ID - d
      {
        assert Occupied(items, Step(h, d));
        if d == MAX_ID { GoneRound(items, h); }
        IncrementSteps(h, d);
        id := Increment(id);
        d := d + 1;
      }
      distance := d;
      if maxIdProbeDistance < d { maxIdProbeDistance := d; }
    }

    /** `priv_find_or_generate_internal_id`. */
    method FindOrGenerateInternalId(key: string, ghost value: V) returns (id: nat)
      requires ValidHash(hash) && |items| < MAX_ID
      modifies this`maxIdProbeDistance
      ensures id < MAX_ID && old(maxIdProbeDistance) <= maxIdProbeDistance
      ensures var found := FindId(items, hash, key, old(maxIdProbeDistance));
              if found < MAX_ID then id == found && maxIdProbeDistance == old(maxIdProbeDistance)
              else !Occupied(items, id)
      ensures old(Valid()) ==> && Valid() && ProbeOk(items + [Item(id, key, value)], hash, maxIdProbeDistance)
                               && forall i :: 0 <= i < |items| ==> (items[i].id == id <==> items[i].key == key)
    {
      hide Home, Step, FindId, Reachable;
      ghost var valid := Valid();
      id := FindInternalId(key);
      if valid { FindIdCorrect(items, hash, key, maxIdProbeDistance); }
      if id == MAX_ID {
        ghost var distance;
        ghost var reach := maxIdProbeDistance;
        id, distance := GenerateInternalId(key);
        if valid {
          AddOk(items, hash, reach, Item(id, key, value), distance);
          Wider(items, hash, reach, maxIdProbeDistance);
        }
      } else if valid {
        AddOk(items, hash, maxIdProbeDistance, Item(id, key, value), 0);
      }
    }

    /** `insert` of a key and a value, where the view of the key is followed by `tail` in memory. In any state it
        adds one item or replaces a value. In a valid one the key gets the value, no other key is affected, and the
        key is found, if and only if the view has no NUL character and is followed by one, or the value is
        replaced. Otherwise only the key that is stored, and the one that should be, may be affected. */
    method Insert(key: string, tail: string, value: V)
      requires ValidHash(hash) && |items| < MAX_ID
      modifies this
      ensures |items| <= |old(items)| + 1
      ensures exists id: nat :: id < MAX_ID && items == Inserted(old(items), unique, id, key, tail, value)
      ensures Terminated(key, tail) && old(Sound(items, unique)) ==> Sound(items, unique)
      ensures old(Valid()) && Right(old(items), unique, key, tail) ==>
                && Valid()
                && (!unique ==> Pairs(items) == Pairs(old(items)) + [(key, value)])
                && forall k: string :: ValuesOf(items, k) ==
                     if k != key then ValuesOf(old(items), k)
                     else if unique then [value]
                     else ValuesOf(old(items), k) + [value]
      ensures old(Valid()) ==>
                (!MayMiss(items, hash, key, maxIdProbeDistance) <==> Right(old(items), unique, key, tail))
      ensures old(Valid()) && !Right(old(items), unique, key, tail) ==>
                Undisturbed(old(items), old(maxIdProbeDistance), items, maxIdProbeDistance, hash,
                            {key, StoredKey(key, tail)})
    {
      hide ProbeOk, ValuesOf, ValuesAt, FindId, Sound, StoredKey, Terminated, UniqueKeys, Right, MayMiss,
        Undisturbed;
      ghost var es, valid, reach := items, Valid(), maxIdProbeDistance;
      var id := FindOrGenerateInternalId(key, value);
      if Terminated(key, tail) && Sound(es, unique) {
        FoundIsSound(es, hash, key, reach, unique);
        SameKeyAt(es, id, key, FindId(es, hash, key, reach));
        InsertSound(es, unique, id, key, tail, value);
      }
      if valid {
        InsertFinds(es, hash, maxIdProbeDistance, unique, id, key, tail, value);
        if Right(es, unique, key, tail) {
          InsertValid(es, hash, maxIdProbeDistance, unique, id, key, tail, value);
        } else {
          OthersFind(es, hash, reach, maxIdProbeDistance, unique, id, key, tail, value);
        }
      }
      var k := FindItem(items, id);
      if unique && |ValuesAt(items, id)| == 1 && k < |items| {
        items := items[k := items[k].(value := value)];
      } else {
        items := items + [Item(id, StoredKey(key, tail), value)];
      }
      assert items == Inserted(es, unique, id, key, tail, value);
    }

    /** `insert` of a key with the default value, which stores the whole key. */
    method InsertDefault(key: string, default_: V) returns (inserted: bool)
      requires ValidHash(hash) && |items| < MAX_ID
      modifies this
      ensures old(Sound(items, unique)) ==> Sound(items, unique)
      ensures !inserted ==> items == old(items)
      ensures old(Valid()) ==>
                && Valid() && (inserted <==> !(unique && HasKey(old(items), key)))
                && (inserted ==> forall k: string :: ValuesOf(items, k) ==
                                   if k == key then ValuesOf(old(items), k) + [default_] else ValuesOf(old(items), k))
    {
      hide ProbeOk, ValuesOf, ValuesAt, FindId, Sound, UniqueKeys;
      ghost var es, valid, reach := items, Valid(), maxIdProbeDistance;
      var id := FindOrGenerateInternalId(key, default_);
      ghost var x := Item(id, key, default_);
      if unique { NoneAt(es, id); }
      if Sound(es, unique) {
        FoundIsSound(es, hash, key, reach, unique);
        SameKeyAt(es, id, key, FindId(es, hash, key, reach));
        SoundOne(es, unique, id);
      }
      if valid {
        ValidIsSound(es, hash, reach, unique);
        SoundOne(es, unique, id);
        OccupiedIsThere(es, id, key);
      }
      if unique && |ValuesAt(items, id)| == 1 { return false; }
      if Sound(es, unique) { SoundAdd(es, unique, x); }
      if valid && unique { UniqueAdd(es, x); }
      forall q: string
        ensures ValuesOf(es + [x], q) == if q == key then ValuesOf(es, q) + [default_] else ValuesOf(es, q)
      {
        ValuesAdd(es, x, q);
      }
      items := items + [Item(id, key, default_)];
      return true;
    }

    /** `clear`, in any state. */
    method Clear()
      requires ValidHash(hash)
      modifies this
      ensures Valid() && items == []
    {
      items, maxIdProbeDistance := [], 0;
    }

    /** `count`. */
    method Count(key: string) returns (n: nat)
      requires ValidHash(hash)
      ensures Valid() ==> n == |ValuesOf(items, key)|
      ensures n == |ValuesAt(items, FindId(items, hash, key, maxIdProbeDistance))|
    {
      hide FindId;
      var id := FindInternalId(key);
      if Valid() {
        FindIdCorrect(items, hash, key, maxIdProbeDistance);
        SameValues(items, id, key);
      }
      n := |ValuesAt(items, id)|;
    }

    /** `find`: the position of an item with the key, or the end. In a sound state it may miss the key, but never
        gives an item of another. */
    method Find(key: string) returns (position: nat)
      requires ValidHash(hash)
      ensures position <= |items|
      ensures Sound(items, unique) ==> position < |items| ==> items[position].key == key
      ensures Valid() ==>
                && (position < |items| ==> items[position].key == key)
                && (position == |items| <==> ValuesOf(items, key) == [])
    {
      hide FindId, Sound, ValuesOf, ValuesAt;
      var id := FindInternalId(key);
      position := FindItem(items, id);
      if Sound(items, unique) { FoundIsSound(items, hash, key, maxIdProbeDistance, unique); }
      if Valid() {
        FindIdCorrect(items, hash, key, maxIdProbeDistance);
        if position < |items| { ValuesSome(items, position); } else { ValuesNone(items, key); }
      }
    }

    /** `equal_range`: the values of all items with the key; in a sound state, of some of them and of no others. */
    method EqualRange(key: string) returns (values: seq<V>)
      requires ValidHash(hash)
      ensures Valid() ==> values == ValuesOf(items, key)
      ensures Sound(items, unique) ==> forall v :: v in values ==> v in ValuesOf(items, key)
    {
      hide FindId, Sound, ValuesOf, ValuesAt;
      var id := FindInternalId(key);
      if Sound(items, unique) { FoundIsSound(items, hash, key, maxIdProbeDistance, unique); }
      if Valid() {
        FindIdCorrect(items, hash, key, maxIdProbeDistance);
        SameValues(items, id, key);
      }
      values := ValuesAt(items, id);
    }

    /** `erase` of a key: from a valid state its items are gone and all others stay, but they may no longer be
        found. A key that is not found is left alone, in any state. */
    method Erase(key: string) returns (n: nat)
      requires ValidHash(hash)
      modifies this`items
      ensures old(Sound(items, unique)) ==> Sound(items, unique)
      ensures n == |old(items)| - |items|
      ensures old(Valid()) ==>
                && n == |ValuesOf(old(items), key)|
                && (forall k: string :: ValuesOf(items, k) == if k == key then [] else ValuesOf(old(items), k))
                && (!HasKey(old(items), key) ==> items == old(items))
                && var id := FindId(old(items), hash, key, maxIdProbeDistance);
                   id < MAX_ID ==>
                     (Valid() <==> forall x :: x in old(items) && x.id != id ==> !OnTheWay(Home(hash, x.key), x.id, id))
    {
      hide FindId, Home, OnTheWay, ValuesOf, Without, Sound;
      var id := FindInternalId(key);
      if Sound(items, unique) { SoundWithout(items, unique, id); }
      if Valid() {
        FindIdCorrect(items, hash, key, maxIdProbeDistance);
        WithoutFacts(items, id, key);
        if id < MAX_ID {
          KeyIsThere(items, id, key);
          EraseBreaks(items, hash, maxIdProbeDistance, id);
          if unique { UniqueWithout(items, id); }
        } else {
          NoneWithout(items);
        }
      }
      n := |items| - |Without(items, id)|;
      items := Without(items, id);
    }

    /** `rehash`, from any state: all items are inserted again, in whatever order the old table is walked. If no key
        has a NUL character, the probe invariant holds again, and the pairs stay, or with unique keys each key keeps
        exactly one of its values. Keys with one are cut off: all keys are found again if and only if there is none. */
    method Rehash(order: seq<Item<V>>)
      requires ValidHash(hash) && |items| < MAX_ID && multiset(order) == multiset(items)
      modifies this
      ensures AllClean(old(items)) ==>
                && Valid() && (!unique ==> multiset(Pairs(items)) == multiset(Pairs(old(items))))
                && forall k: string :: if unique then OneOf(ValuesOf(items, k), ValuesOf(old(items), k))
                                       else multiset(ValuesOf(items, k)) == multiset(ValuesOf(old(items), k))
      ensures !unique ==> Pairs(items) == CutOff(order)
      ensures (forall x :: x in old(items) ==> !MayMiss(items, hash, x.key, maxIdProbeDistance)) <==>
              AllClean(old(items))
    {
      hide ValuesOf, ValuesAt, OneOf, Refilled, AllClean, ProbeOk, Sound, FindId, Pairs, Clean, Right, Terminated,
        MayFind, MayMiss, CutOff, StoredKey;
      ghost var start := items;
      ghost var clean := AllClean(start);
      SameLength(order, start);
      items := [];
      EmptyOk<V>(hash, maxIdProbeDistance);
      RefillStart(order, unique);
      var i := 0;
      while i < |order|
        invariant 0 <= i <= |order| && |items| <= i && AllClean(items)
        invariant clean ==> Valid() && Refilled(items, order[..i], unique)
        invariant !unique ==> Pairs(items) == CutOff(order[..i])
      {
        if clean { CleanItem(start, order, i); }
        ghost var before := items;
        Insert(order[i].key, "", order[i].value);
        ghost var id: nat :| id < MAX_ID && items == Inserted(before, unique, id, order[i].key, "", order[i].value);
        InsertedClean(before, unique, id, order[i].key, "", order[i].value);
        CutOffStep(before, unique, id, order, i);
        if clean { RefillStep(before, items, order, i, unique); }
        i := i + 1;
      }
      assert order[..i] == order;
      if clean { RefillEnd(items, order, start, unique); }
      Refound(start, items, hash, maxIdProbeDistance, unique);
    }
  }

  /** The items as pairs, with the keys as C strings. */
  function CutOff<V>(es: seq<Item<V>>): (ps: seq<(string, V)>)
    ensures |ps| == |es|
  {
    seq(|es|, i requires 0 <= i < |es| => (CString(es[i].key), es[i].value))
  }

  lemma CutOffStep<V>(before: seq<Item<V>>, unique: bool, id: nat, order: seq<Item<V>>, i: nat)
    requires i < |order| && (!unique ==> Pairs(before) == CutOff(order[..i]))
    ensures !unique ==> Pairs(Inserted(before, unique, id, order[i].key, "", order[i].value)) == CutOff(order[..i + 1])
  {
    var key := order[i].key;
    assert key + "" == key;
    if !unique {
      PairsConcat(before, [Item(id, CString(key), order[i].value)]);
      assert CutOff(order[..i + 1]) == CutOff(order[..i]) + [(CString(key), order[i].value)];
    }
  }

  /** Only keys without NUL characters are ever stored by it. */
  lemma InsertedClean<V>(es: seq<Item<V>>, unique: bool, id: nat, key: string, tail: string, value: V)
    requires AllClean(es)
    ensures AllClean(Inserted(es, unique, id, key, tail, value))
  {
    hide ValuesAt, CString;
  }

  /** Where all keys stored are C strings, the keys that were there before are all found only if they are, too. */
  lemma Refound<V>(start: seq<Item<V>>, es: seq<Item<V>>, hash: Hash, reach: nat, unique: bool)
    requires ValidHash(hash) && AllClean(es)
    requires AllClean(start) ==> ProbeOk(es, hash, reach)
    requires AllClean(start) ==>
               forall k: string :: if unique then OneOf(ValuesOf(es, k), ValuesOf(start, k))
                                   else multiset(ValuesOf(es, k)) == multiset(ValuesOf(start, k))
    ensures (forall x :: x in start ==> !MayMiss(es, hash, x.key, reach)) <==> AllClean(start)
  {
    hide ValuesOf, ProbeOk, MayFind, Home;
    if AllClean(start) {
      forall x | x in start ensures !MayMiss(es, hash, x.key, reach) { KeyStays(start, es, hash, reach, unique, x); }
    } else {
      var i :| 0 <= i < |start| && !Clean(start[i].key);
      var key := start[i].key;
      forall j | 0 <= j < |es| ensures OtherAt(es, es[j].id, key) { assert es[j].key != key; }
      Misses(es, Home(hash, key), key, reach, 0);
      assert start[i] in start;
    }
  }

  lemma KeyStays<V>(start: seq<Item<V>>, es: seq<Item<V>>, hash: Hash, reach: nat, unique: bool, x: Item<V>)
    requires ProbeOk(es, hash, reach) && x in start
    requires if unique then OneOf(ValuesOf(es, x.key), ValuesOf(start, x.key))
             else multiset(ValuesOf(es, x.key)) == multiset(ValuesOf(start, x.key))
    ensures !MayMiss(es, hash, x.key, reach)
  {
    hide ValuesOf, MayFind, Home, Reachable, FindIdFrom;
    var i :| 0 <= i < |start| && start[i] == x;
    ValuesSome(start, i);
    assert |ValuesOf(es, x.key)| > 0 by {
      if !unique { assert |multiset(ValuesOf(es, x.key))| == |multiset(ValuesOf(start, x.key))|; }
    }
    if !HasKey(es, x.key) { ValuesNone(es, x.key); }
    FindIdCorrect(es, hash, x.key, reach);
    OneAnswer(es, Home(hash, x.key), x.key, reach, 0, MAX_ID);
  }

  ghost predicate AllClean<V>(es: seq<Item<V>>) { forall i :: 0 <= i < |es| ==> Clean(es[i].key) }

  /** vs is one of ws, or nothing if ws is nothing. */
  ghost predicate OneOf<V>(vs: seq<V>, ws: seq<V>) {
    if ws == [] then vs == [] else |vs| == 1 && vs[0] in ws
  }

  /** What has been inserted again so far. */
  ghost predicate Refilled<V>(es: seq<Item<V>>, done: seq<Item<V>>, unique: bool) {
    && (!unique ==> Pairs(es) == Pairs(done))
    && forall k: string :: ValuesOf(es, k) == if unique then LastOf(ValuesOf(done, k)) else ValuesOf(done, k)
  }

  lemma RefillStart<V>(order: seq<Item<V>>, unique: bool)
    ensures Refilled([], order[..0], unique)
  {}

  lemma EmptyOk<V>(hash: Hash, reach: nat)
    requires ValidHash(hash)
    ensures ProbeOk<V>([], hash, reach) && AllClean<V>([])
  {}

  lemma RefillStep<V>(before: seq<Item<V>>, after: seq<Item<V>>, order: seq<Item<V>>, i: nat, unique: bool)
    requires i < |order| && Refilled(before, order[..i], unique)
    requires var x := order[i];
             && (!unique ==> Pairs(after) == Pairs(before) + [(x.key, x.value)])
             && forall k: string :: ValuesOf(after, k) ==
                  if k != x.key then ValuesOf(before, k)
                  else if unique then [x.value]
                  else ValuesOf(before, k) + [x.value]
    ensures Refilled(after, order[..i + 1], unique)
  {
    hide ValuesOf;
    var x := order[i];
    assert order[..i + 1] == order[..i] + [x];
    assert Pairs(order[..i + 1]) == Pairs(order[..i]) + [(x.key, x.value)];
    forall k: string
      ensures ValuesOf(after, k) ==
              if unique then LastOf(ValuesOf(order[..i + 1], k)) else ValuesOf(order[..i + 1], k)
    {
      ValuesAdd(order[..i], x, k);
    }
  }

  lemma RefillEnd<V>(es: seq<Item<V>>, order: seq<Item<V>>, start: seq<Item<V>>, unique: bool)
    requires Refilled(es, order, unique) && multiset(order) == multiset(start)
    ensures !unique ==> multiset(Pairs(es)) == multiset(Pairs(start))
    ensures forall k: string :: if unique then OneOf(ValuesOf(es, k), ValuesOf(start, k))
                                else multiset(ValuesOf(es, k)) == multiset(ValuesOf(start, k))
  {
    hide ValuesOf;
    Reordered(order, start, "");
    forall k: string ensures if unique then OneOf(ValuesOf(es, k), ValuesOf(start, k))
                             else multiset(ValuesOf(es, k)) == multiset(ValuesOf(start, k))
    {
      Reordered(order, start, k);
      LastIsOne(ValuesOf(order, k), ValuesOf(start, k));
    }
  }

  lemma LastIsOne<V>(vs: seq<V>, ws: seq<V>)
    requires multiset(vs) == multiset(ws)
    ensures OneOf(LastOf(vs), ws)
  {
    if vs == [] {
      assert |multiset(ws)| == 0;
    } else {
      assert vs[|vs| - 1] in multiset(ws);
    }
  }

  lemma SameLength<V>(es: seq<Item<V>>, fs: seq<Item<V>>)
    requires multiset(es) == multiset(fs)
    ensures |es| == |fs|
  {
    assert |multiset(es)| == |es| && |multiset(fs)| == |fs|;
  }

  lemma CleanItem<V>(start: seq<Item<V>>, order: seq<Item<V>>, i: nat)
    requires AllClean(start) && multiset(order) == multiset(start) && i < |order|
    ensures Terminated(order[i].key, "") && forall es: seq<Item<V>>, unique :: Right(es, unique, order[i].key, "")
  {
    assert order[i] in multiset(order);
    assert order[i] in start;
  }

  /** An id found for a key, or a free one, is shared with items of the key only. */
  lemma SameKeyAt<V>(es: seq<Item<V>>, id: nat, key: string, found: nat)
    requires if found < MAX_ID then id == found else !Occupied(es, id)
    requires forall i :: 0 <= i < |es| && es[i].id == found ==> es[i].key == key
    ensures forall i :: 0 <= i < |es| && es[i].id == id ==> es[i].key == key
  {}

  lemma SoundOne<V>(es: seq<Item<V>>, unique: bool, id: nat)
    requires Sound(es, unique)
    ensures unique ==> |ValuesAt(es, id)| == if Occupied(es, id) then 1 else 0
  {
    if unique { OneAt(es, id); }
  }

  lemma OccupiedIsThere<V>(es: seq<Item<V>>, id: nat, key: string)
    requires forall i :: 0 <= i < |es| ==> (es[i].id == id <==> es[i].key == key)
    ensures Occupied(es, id) <==> HasKey(es, key)
  {}

  lemma NoSuchKey<V>(es: seq<Item<V>>, id: nat, key: string)
    requires forall i :: 0 <= i < |es| ==> (es[i].id == id <==> es[i].key == key)
    requires FindItem(es, id) == |es|
    ensures !HasKey(es, key)
  {}

  lemma UniqueAdd<V>(es: seq<Item<V>>, x: Item<V>)
    requires UniqueKeys(es) && !HasKey(es, x.key)
    ensures UniqueKeys(es + [x])
  {}

  function LastOf<V>(vs: seq<V>): seq<V> { if vs == [] then [] else [vs[|vs| - 1]] }

  lemma Wider<V>(es: seq<Item<V>>, hash: Hash, reach: nat, more: nat)
    requires ProbeOk(es, hash, reach) && reach <= more
    ensures ProbeOk(es, hash, more)
  {
    hide Home, Step;
    forall i | 0 <= i < |es| ensures Reachable(es, Home(hash, es[i].key), es[i].id, more) {
      assert Reachable(es, Home(hash, es[i].key), es[i].id, reach);
    }
  }

  lemma {:induction false} ValuesSome<V>(es: seq<Item<V>>, i: nat)
    requires i < |es|
    ensures ValuesOf(es, es[i].key) != []
    decreases |es|
  {
    var n := |es| - 1;
    if i < n {
      assert es[..n][i] == es[i];
      ValuesSome(es[..n], i);
    }
  }

  lemma KeyIsThere<V>(es: seq<Item<V>>, id: nat, key: string)
    requires HasKey(es, key) && forall i :: 0 <= i < |es| ==> (es[i].id == id <==> es[i].key == key)
    ensures Occupied(es, id)
  {
    var i :| 0 <= i < |es| && es[i].key == key;
    assert es[i].id == id;
  }

  lemma {:induction false} UniqueWithout<V>(es: seq<Item<V>>, id: nat)
    requires UniqueKeys(es)
    ensures UniqueKeys(Without(es, id))
    decreases |es|
  {
    if es != [] {
      var n := |es| - 1;
      UniqueWithout(es[..n], id);
      var r := Without(es[..n], id);
      forall i | 0 <= i < |r| ensures r[i].key != es[n].key {
        WithoutMember(es[..n], id, r[i]);
        var j :| 0 <= j < n && es[..n][j] == r[i];
      }
    }
  }
}
