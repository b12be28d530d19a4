/** The breadth-first search as it runs: the vertices of a level are looked at by concurrent iterations, and the
    bits of the filter share words, so that a store may undo others and redo undone ones (bench/bfs/kernel.hpp). */
module ParallelBfs {
  import opened Bfs
  import F = FreeSlots

  /** Where the iteration for one vertex is: before its tests, at neighbour k, having read the filter bit of
      neighbour k as clear, having read its level as infinite too, having written the level, having loaded the
      word of the filter bit, or at its end. */
  datatype Place =
    | Start
    | At(k: nat)
    | Clear(k: nat)
    | Infinite(k: nat)
    | Written(k: nat)
    | Loaded(k: nat, word: seq<bool>)
    | Done

  datatype State = State(level: seq<nat>, visited: seq<bool>, place: seq<Place>, found: bool)

  ghost predicate PlaceOk(g: Graph, s: nat, p: Place)
    requires s < |g|
  {
    match p
    case At(k) => k <= |g[s]|
    case Clear(k) => k < |g[s]|
    case Infinite(k) => k < |g[s]|
    case Written(k) => k < |g[s]|
    case Loaded(k, word) => k < |g[s]| && |word| == |g|
    case _ => true
  }

  ghost predicate Shaped(g: Graph, st: State) {
    && ValidGraph(g) && |st.level| == |st.visited| == |st.place| == |g|
    && forall s :: 0 <= s < |g| ==> PlaceOk(g, s, st.place[s])
  }

  /** The bits that share a word of the filter. */
  const WORD: nat := 64

  /** A store to the filter: the word with bit w, as it was loaded, with that bit set. What others have stored to it
      since is lost, and what others have lost of it since is back. */
  ghost function Stored(visited: seq<bool>, w: nat, word: seq<bool>): (r: seq<bool>)
    requires |word| == |visited|
    ensures |r| == |visited|
    ensures forall v :: 0 <= v < |r| ==>
              r[v] == if v / WORD == w / WORD then word[v] || v == w else visited[v]
  {
    seq(|visited|, v requires 0 <= v < |visited| => if v / WORD == w / WORD then word[v] || v == w else visited[v])
  }

  /** One read or write of the iteration for vertex s. */
  ghost function Step(g: Graph, n: nat, st: State, s: nat): (r: State)
    requires Shaped(g, st) && s < |g|
    ensures Shaped(g, r)
  {
    match st.place[s]
    case Start => Goes(st, s, if |g[s]| == 0 || st.level[s] != n then Done else At(0))
    case At(k) =>
      Goes(st, s, if k == |g[s]| then Done else if st.visited[g[s][k]] then At(k + 1) else Clear(k))
    case Clear(k) => Goes(st, s, if st.level[g[s][k]] != INFINITE_LEVEL then At(k + 1) else Infinite(k))
    case Infinite(k) => Goes(st.(level := st.level[g[s][k] := (n + 1) % 65536]), s, Written(k))
    case Written(k) => Goes(st, s, Loaded(k, st.visited))
    case Loaded(k, word) => Goes(st.(visited := Stored(st.visited, g[s][k], word), found := true), s, At(k + 1))
    case Done => st
  }

  ghost function Goes(st: State, s: nat, p: Place): State
    requires s < |st.place|
  {
    st.(place := st.place[s := p])
  }

  ghost predicate Vertices(g: Graph, run: seq<nat>) { forall i :: 0 <= i < |run| ==> run[i] < |g| }

  /** Any interleaving of the iterations for a level: whose step is next. */
  ghost function Run(g: Graph, n: nat, st: State, run: seq<nat>): (r: State)
    requires Shaped(g, st) && Vertices(g, run)
    ensures Shaped(g, r)
    decreases |run|
  {
    if run == [] then st else Run(g, n, Step(g, n, st, run[0]), run[1..])
  }

  ghost predicate AllDone(st: State) { forall s :: 0 <= s < |st.place| ==> st.place[s] == Done }

  ghost function Begin(level: seq<nat>, visited: seq<bool>): State {
    State(level, visited, seq(|level|, _ => Start), false)
  }

  /** The steps an iteration may still take. */
  ghost function Left(g: Graph, s: nat, p: Place): nat
    requires s < |g| && PlaceOk(g, s, p)
  {
    match p
    case Start => 5 * |g[s]| + 2
    case At(k) => 5 * (|g[s]| - k) + 1
    case Clear(k) => 5 * (|g[s]| - k)
    case Infinite(k) => 5 * (|g[s]| - k) - 1
    case Written(k) => 5 * (|g[s]| - k) - 2
    case Loaded(k, _) => 5 * (|g[s]| - k) - 3
    case Done => 0
  }

  /** No iteration waits for another: each of its steps brings it nearer to its end, and delays no other. */
  lemma IterationEnds(g: Graph, n: nat, st: State, s: nat)
    requires Shaped(g, st) && s < |g|
    ensures var r := Step(g, n, st, s);
            && (forall u :: 0 <= u < |g| && u != s ==> r.place[u] == st.place[u])
            && (st.place[s] != Done ==> Left(g, s, r.place[s]) < Left(g, s, st.place[s]))
  {
    assert PlaceOk(g, s, st.place[s]);
  }

  lemma {:induction false} RunConcat(g: Graph, n: nat, st: State, a: seq<nat>, b: seq<nat>)
    requires Shaped(g, st) && Vertices(g, a) && Vertices(g, b)
    ensures Vertices(g, a + b) && Run(g, n, st, a + b) == Run(g, n, Run(g, n, st, a), b)
    decreases |a|
  {
    hide Step, Shaped;
    if a == [] {
      assert a + b == b;
    } else {
      assert (a + b)[1..] == a[1..] + b;
      RunConcat(g, n, Step(g, n, st, a[0]), a[1..], b);
    }
  }

  lemma {:induction false} FinishOne(g: Graph, n: nat, st: State, s: nat) returns (run: seq<nat>)
    requires Shaped(g, st) && s < |g|
    ensures Vertices(g, run) && Run(g, n, st, run).place == st.place[s := Done]
    decreases Left(g, s, st.place[s])
  {
    hide Step;
    if st.place[s] == Done {
      run := [];
      assert st.place[s := Done] == st.place;
    } else {
      IterationEnds(g, n, st, s);
      var rest := FinishOne(g, n, Step(g, n, st, s), s);
      run := [s] + rest;
      assert run[1..] == rest;
    }
  }

  /** So the iterations of a level can always all be brought to their end. */
  lemma {:induction false} FinishAll(g: Graph, n: nat, st: State, k: nat) returns (run: seq<nat>)
    requires Shaped(g, st) && k <= |g| && forall s :: 0 <= s < k ==> st.place[s] == Done
    ensures Vertices(g, run) && AllDone(Run(g, n, st, run))
    decreases |g| - k
  {
    if k == |g| {
      run := [];
    } else {
      hide Step, Run;
      var a := FinishOne(g, n, st, k);
      var b := FinishAll(g, n, Run(g, n, st, a), k + 1);
      RunConcat(g, n, st, a, b);
      run := a + b;
    }
  }

  // ---------- One level ---------- //

  /** Level n can be told from the infinite one, and so can the next if any vertex is there. */
  ghost predicate Tellable(g: Graph, source: nat, n: nat)
    requires ValidGraph(g) && source < |g|
  {
    n < INFINITE_LEVEL && (n + 1 == INFINITE_LEVEL ==> Near(g, source, n + 1) == Near(g, source, n))
  }

  /** Vertices within n steps have their distance; the others are at the next level, or have no level yet. */
  ghost predicate VertexOk(g: Graph, source: nat, n: nat, level: seq<nat>, v: nat)
    requires ValidGraph(g) && source < |g| && v < |level|
  {
    if v in Near(g, source, n) then
      level[v] <= n && v in Near(g, source, level[v]) && (level[v] > 0 ==> v !in Near(g, source, level[v] - 1))
    else level[v] == INFINITE_LEVEL || (level[v] == n + 1 && v in Near(g, source, n + 1))
  }

  /** The first k neighbours of s have a level. */
  ghost predicate Past(g: Graph, level: seq<nat>, s: nat, k: nat)
    requires ValidGraph(g) && s < |g| == |level|
  {
    k <= |g[s]| && forall j :: 0 <= j < k ==> level[g[s][j]] != INFINITE_LEVEL
  }

  ghost predicate IterationOk(g: Graph, source: nat, n: nat, level: seq<nat>, s: nat, p: Place)
    requires ValidGraph(g) && source < |g| == |level| && s < |g|
  {
    match p
    case Start => true
    case At(k) => AtLevel(g, source, n, s) && Past(g, level, s, k)
    case Clear(k) => AtLevel(g, source, n, s) && Past(g, level, s, k)
    case Infinite(k) => AtLevel(g, source, n, s) && Past(g, level, s, k) && Fresh(g, source, n, s, k)
    case Written(k) => AtLevel(g, source, n, s) && Past(g, level, s, k + 1) && Fresh(g, source, n, s, k)
    case Loaded(k, word) =>
      AtLevel(g, source, n, s) && Past(g, level, s, k + 1) && Fresh(g, source, n, s, k) && BitsOk(level, word)
    case Done => AtLevel(g, source, n, s) ==> Past(g, level, s, |g[s]|)
  }

  /** Bits are set only for vertices that have a level. */
  ghost predicate BitsOk(level: seq<nat>, visited: seq<bool>) {
    && |visited| == |level|
    && forall v :: 0 <= v < |level| && visited[v] ==> level[v] != INFINITE_LEVEL
  }

  /** Neighbour k of s was not near. */
  ghost predicate Fresh(g: Graph, source: nat, n: nat, s: nat, k: nat)
    requires ValidGraph(g) && source < |g| && s < |g|
  {
    k < |g[s]| && g[s][k] !in Near(g, source, n)
  }

  /** A level has been written, and the filter and the flag are to be. */
  ghost predicate Marking(p: Place) { p.Written? || p.Loaded? }

  /** Nothing has been found, or a vertex has. */
  ghost predicate FoundOk(g: Graph, source: nat, n: nat, st: State)
    requires ValidGraph(g) && source < |g| == |st.level|
  {
    && (st.found ==> Near(g, source, n + 1) != Near(g, source, n))
    && (|| st.found || (exists s :: 0 <= s < |st.place| && Marking(st.place[s]))
        || forall v :: 0 <= v < |g| && v !in Near(g, source, n) ==> st.level[v] == INFINITE_LEVEL)
  }

  ghost predicate Inv(g: Graph, source: nat, n: nat, st: State) {
    && Shaped(g, st) && source < |g| && Tellable(g, source, n) && FoundOk(g, source, n, st)
    && (forall v :: 0 <= v < |g| ==> VertexOk(g, source, n, st.level, v))
    && BitsOk(st.level, st.visited)
    && forall s :: 0 <= s < |g| ==> IterationOk(g, source, n, st.level, s, st.place[s])
  }

  /** A level says whether a vertex is at depth n. */
  lemma LevelTells(g: Graph, source: nat, n: nat, level: seq<nat>, v: nat)
    requires ValidGraph(g) && source < |g| && v < |g| == |level| && Tellable(g, source, n)
    requires VertexOk(g, source, n, level, v)
    ensures level[v] == n <==> AtLevel(g, source, n, v)
  {
    hide Near;
    if level[v] < n && v in Near(g, source, n) { NearMono(g, source, level[v], n - 1); }
  }

  /** A fresh neighbour of a vertex at depth n is within n + 1 steps. */
  lemma FreshIsNext(g: Graph, source: nat, n: nat, s: nat, k: nat)
    requires ValidGraph(g) && source < |g| && s < |g| && AtLevel(g, source, n, s) && Fresh(g, source, n, s, k)
    requires Tellable(g, source, n)
    ensures g[s][k] in Near(g, source, n + 1) && Near(g, source, n + 1) != Near(g, source, n) && n + 1 < INFINITE_LEVEL
  {
    hide Near;
    NearStep(g, source, n);
    assert g[s][k] in g[s];
    assert Adjacent(g, Near(g, source, n), g[s][k]);
  }

  /** A step that reads. */
  lemma ReadKeeps(g: Graph, source: nat, n: nat, st: State, s: nat)
    requires Inv(g, source, n, st) && s < |g| && !st.place[s].Infinite? && !st.place[s].Loaded?
    ensures Inv(g, source, n, Step(g, n, st, s))
  {
    hide Near, AtLevel, VertexOk, Tellable;
    LevelTells(g, source, n, st.level, s);
    var p := st.place[s];
    assert IterationOk(g, source, n, st.level, s, p) && PlaceOk(g, s, p);
    if p.Clear? {
      var w := g[s][p.k];
      assert VertexOk(g, source, n, st.level, w);
      InfiniteIsFresh(g, source, n, st.level, w);
    }
    var r := Step(g, n, st, s);
    assert IterationOk(g, source, n, r.level, s, r.place[s]);
    forall u | 0 <= u < |g| && Marking(st.place[u]) ensures Marking(r.place[u]) {}
  }

  lemma InfiniteIsFresh(g: Graph, source: nat, n: nat, level: seq<nat>, w: nat)
    requires ValidGraph(g) && source < |g| && w < |g| == |level| && Tellable(g, source, n)
    requires VertexOk(g, source, n, level, w)
    ensures level[w] == INFINITE_LEVEL ==> w !in Near(g, source, n)
  {
    hide Near;
  }

  /** The level is written, perhaps for the second time. */
  lemma WriteLevelKeeps(g: Graph, source: nat, n: nat, st: State, s: nat)
    requires Inv(g, source, n, st) && s < |g| && st.place[s].Infinite?
    ensures Inv(g, source, n, Step(g, n, st, s))
  {
    hide Near, AtLevel, Tellable;
    var k := st.place[s].k;
    assert IterationOk(g, source, n, st.level, s, st.place[s]) && PlaceOk(g, s, st.place[s]);
    FreshIsNext(g, source, n, s, k);
    var r := Step(g, n, st, s);
    forall v | 0 <= v < |g| ensures VertexOk(g, source, n, r.level, v) {
      assert VertexOk(g, source, n, st.level, v);
    }
    assert Marking(r.place[s]);
    assert FoundOk(g, source, n, r);
    forall u | 0 <= u < |g| ensures IterationOk(g, source, n, r.level, u, r.place[u]) {
      assert IterationOk(g, source, n, st.level, u, st.place[u]);
    }
  }

  /** A word of the filter is stored, perhaps undoing other stores, and redoing some that were undone. */
  lemma WriteFilterKeeps(g: Graph, source: nat, n: nat, st: State, s: nat)
    requires Inv(g, source, n, st) && s < |g| && st.place[s].Loaded?
    ensures Inv(g, source, n, Step(g, n, st, s))
  {
    hide Near, AtLevel, Tellable, VertexOk;
    var k := st.place[s].k;
    assert IterationOk(g, source, n, st.level, s, st.place[s]) && PlaceOk(g, s, st.place[s]);
    FreshIsNext(g, source, n, s, k);
    var r := Step(g, n, st, s);
    forall u | 0 <= u < |g| ensures IterationOk(g, source, n, r.level, u, r.place[u]) {
      assert IterationOk(g, source, n, st.level, u, st.place[u]);
    }
  }

  lemma {:induction false} RunKeeps(g: Graph, source: nat, n: nat, st: State, run: seq<nat>)
    requires Inv(g, source, n, st) && Vertices(g, run)
    ensures Inv(g, source, n, Run(g, n, st, run))
    decreases |run|
  {
    hide Inv, Step;
    if run != [] {
      StepKeeps(g, source, n, st, run[0]);
      RunKeeps(g, source, n, Step(g, n, st, run[0]), run[1..]);
    }
  }

  /** Every step of every iteration keeps the levels right. */
  lemma StepKeeps(g: Graph, source: nat, n: nat, st: State, s: nat)
    requires Inv(g, source, n, st) && s < |g|
    ensures Shaped(g, st) && Inv(g, source, n, Step(g, n, st, s))
  {
    hide Inv, Step;
    InvShaped(g, source, n, st);
    if st.place[s].Infinite? {
      WriteLevelKeeps(g, source, n, st, s);
    } else if st.place[s].Loaded? {
      WriteFilterKeeps(g, source, n, st, s);
    } else {
      ReadKeeps(g, source, n, st, s);
    }
  }

  lemma InvShaped(g: Graph, source: nat, n: nat, st: State)
    requires Inv(g, source, n, st)
    ensures Shaped(g, st) && source < |g|
  {}

  /** Levels and filter between two levels: the filter may lack vertices that have a level. */
  ghost predicate Ready(g: Graph, source: nat, n: nat, level: seq<nat>, visited: seq<bool>) {
    ValidGraph(g) && source < |g| && LevelsOk(g, source, n, level) && BitsOk(level, visited)
  }

  lemma LevelBegins(g: Graph, source: nat, n: nat, level: seq<nat>, visited: seq<bool>)
    requires Ready(g, source, n, level, visited) && Tellable(g, source, n)
    ensures Inv(g, source, n, Begin(level, visited))
  {
    hide Near, Tellable;
  }

  /** However the iterations of a level interleave: when all are at their end, exactly the vertices within n + 1
      steps have a level, which is their distance, and the flag says whether there are new ones. */
  lemma LevelEnds(g: Graph, source: nat, n: nat, st: State)
    requires Inv(g, source, n, st) && AllDone(st)
    ensures Ready(g, source, n + 1, st.level, st.visited)
    ensures st.found <==> Near(g, source, n + 1) != Near(g, source, n)
  {
    hide Near, Tellable;
    NearMono(g, source, n, n + 1);
    forall v | 0 <= v < |g|
      ensures if v in Near(g, source, n + 1) then
                st.level[v] <= n + 1 && v in Near(g, source, st.level[v]) &&
                (st.level[v] > 0 ==> v !in Near(g, source, st.level[v] - 1))
              else st.level[v] == INFINITE_LEVEL
      ensures v in Near(g, source, n + 1) && v !in Near(g, source, n) ==> st.level[v] != INFINITE_LEVEL
    {
      assert VertexOk(g, source, n, st.level, v);
      NextHasLevel(g, source, n, st, v);
    }
    if Near(g, source, n + 1) != Near(g, source, n) {
      var v :| v in Near(g, source, n + 1) && v !in Near(g, source, n);
    }
  }

  lemma NextHasLevel(g: Graph, source: nat, n: nat, st: State, v: nat)
    requires Inv(g, source, n, st) && AllDone(st) && v < |g|
    ensures v in Near(g, source, n + 1) && v !in Near(g, source, n) ==> st.level[v] != INFINITE_LEVEL
  {
    hide Near, VertexOk, Tellable;
    if v in Near(g, source, n + 1) && v !in Near(g, source, n) {
      var u := Before(g, source, n, v);
      assert IterationOk(g, source, n, st.level, u, st.place[u]);
      var j :| 0 <= j < |g[u]| && g[u][j] == v;
    }
  }

  /** A vertex first reached in step n + 1 is a neighbour of one first reached in step n. */
  lemma Before(g: Graph, source: nat, n: nat, v: nat) returns (u: nat)
    requires ValidGraph(g) && source < |g| && v in Near(g, source, n + 1) && v !in Near(g, source, n)
    ensures u < |g| && AtLevel(g, source, n, u) && v in g[u]
  {
    hide Near;
    NearStep(g, source, n);
    u :| u in Near(g, source, n) && u < |g| && v in g[u];
    if n > 0 { NearStep(g, source, n - 1); }
  }

  // ---------- The whole search ---------- //

  /** A search that ends: for each level an interleaving in which all iterations come to their end; the levels and
      the number returned. */
  ghost predicate Search(g: Graph, n: nat, level: seq<nat>, visited: seq<bool>, runs: seq<seq<nat>>,
                         level': seq<nat>, last: nat)
    requires ValidGraph(g) && |level| == |visited| == |g|
    decreases |runs|
  {
    && runs != [] && Vertices(g, runs[0])
    && var st := Run(g, n, Begin(level, visited), runs[0]);
       && AllDone(st)
       && if st.found then Search(g, (n + 1) % 65536, st.level, st.visited, runs[1..], level', last)
          else |runs| == 1 && level' == st.level && last == n
  }

  /** Some passes of a search: in each all iterations come to their end, and only the last may find nothing. */
  ghost predicate Passes(g: Graph, n: nat, level: seq<nat>, visited: seq<bool>, runs: seq<seq<nat>>)
    requires ValidGraph(g) && |level| == |visited| == |g|
    decreases |runs|
  {
    runs == [] ||
    (&& Vertices(g, runs[0])
     && var st := Run(g, n, Begin(level, visited), runs[0]);
        && AllDone(st)
        && if st.found then Passes(g, (n + 1) % 65536, st.level, st.visited, runs[1..]) else |runs| == 1)
  }

  lemma {:induction false} SearchShape(g: Graph, n: nat, level: seq<nat>, visited: seq<bool>, runs: seq<seq<nat>>,
                                       level': seq<nat>, last: nat)
    requires ValidGraph(g) && |level| == |visited| == |g| && Search(g, n, level, visited, runs, level', last)
    ensures |level'| == |g|
    decreases |runs|
  {
    hide Run;
    var st := Run(g, n, Begin(level, visited), runs[0]);
    if st.found { SearchShape(g, (n + 1) % 65536, st.level, st.visited, runs[1..], level', last); }
  }

  /** If no vertex is too far, the next level can be told from the infinite one. */
  lemma NotTooFar(g: Graph, source: nat, n: nat, v: nat)
    requires ValidGraph(g) && source < |g| && !TooFar(g, source) && AtLevel(g, source, n, v) && v < |g|
    ensures n != INFINITE_LEVEL
  {
    hide Near, IsDistance;
    FirstNear(g, source, v, n);
  }

  lemma IsTellable(g: Graph, source: nat, n: nat)
    requires ValidGraph(g) && source < |g| && !TooFar(g, source) && n < INFINITE_LEVEL
    ensures Tellable(g, source, n)
  {
    hide Near, TooFar;
    NearMono(g, source, n, n + 1);
    if Near(g, source, n + 1) != Near(g, source, n) {
      var v :| v in Near(g, source, n + 1) && v !in Near(g, source, n);
      NotTooFar(g, source, n + 1, v);
    }
  }

  ghost predicate Correct(g: Graph, source: nat, level: seq<nat>, last: nat) {
    && |level| == |g|
    && (forall v :: 0 <= v < |g| ==> Answer(g, source, v, level[v]))
    && (exists v :: 0 <= v < |g| && level[v] == last)
    && forall v :: 0 <= v < |g| && level[v] != INFINITE_LEVEL ==> level[v] <= last
  }

  lemma {:induction false} SearchFrom(g: Graph, source: nat, n: nat, level: seq<nat>, visited: seq<bool>, w: nat,
                                      runs: seq<seq<nat>>, level': seq<nat>, last: nat)
    requires Ready(g, source, n, level, visited) && !TooFar(g, source) && n < INFINITE_LEVEL
    requires w < |g| && AtLevel(g, source, n, w) && Search(g, n, level, visited, runs, level', last)
    ensures Correct(g, source, level', last) && last == n + |runs| - 1
    decreases |runs|
  {
    hide Near, AtLevel, TooFar, Run, Answer, LevelsOk;
    ReadyShape(g, source, n, level, visited);
    OnePass(g, source, n, level, visited, runs[0]);
    var st := Run(g, n, Begin(level, visited), runs[0]);
    if st.found {
      var v :| 0 <= v < |g| && AtLevel(g, source, n + 1, v);
      SearchFrom(g, source, n + 1, st.level, st.visited, v, runs[1..], level', last);
    } else {
      Finished(g, source, n, st.level, w);
    }
  }

  lemma NewVertex(g: Graph, source: nat, n: nat) returns (v: nat)
    requires ValidGraph(g) && source < |g| && Near(g, source, n + 1) != Near(g, source, n)
    ensures v < |g| && AtLevel(g, source, n + 1, v)
  {
    hide Near;
    NearMono(g, source, n, n + 1);
    v :| v in Near(g, source, n + 1) && v !in Near(g, source, n);
  }

  lemma Finished(g: Graph, source: nat, n: nat, level: seq<nat>, w: nat)
    requires ValidGraph(g) && source < |g| && n < INFINITE_LEVEL && LevelsOk(g, source, n + 1, level)
    requires Near(g, source, n + 1) == Near(g, source, n) && w < |g| && AtLevel(g, source, n, w)
    ensures Correct(g, source, level, n)
  {
    hide Near, Answer;
    assert LevelsOk(g, source, n, level);
    forall v | 0 <= v < |g| ensures Answer(g, source, v, level[v]) { Answers(g, source, n, level, v); }
    if level[w] < n { NearMono(g, source, level[w], n - 1); }
  }

  /** Some vertex is n steps away. */
  ghost predicate Reaches(g: Graph, source: nat, n: nat)
    requires ValidGraph(g) && source < |g|
  {
    exists v :: 0 <= v < |g| && AtLevel(g, source, n, v)
  }

  /** One pass from level n on. */
  lemma OnePass(g: Graph, source: nat, n: nat, level: seq<nat>, visited: seq<bool>, run: seq<nat>)
    requires Ready(g, source, n, level, visited) && !TooFar(g, source) && n < INFINITE_LEVEL && Vertices(g, run)
    requires |level| == |visited| == |g| && AllDone(Run(g, n, Begin(level, visited), run))
    ensures var st := Run(g, n, Begin(level, visited), run);
            && Ready(g, source, n + 1, st.level, st.visited)
            && (st.found <==> Near(g, source, n + 1) != Near(g, source, n))
            && (st.found ==> n + 1 < INFINITE_LEVEL && Reaches(g, source, n + 1))
  {
    hide Near, AtLevel, TooFar, Inv, Run, Tellable, LevelsOk;
    IsTellable(g, source, n);
    LevelBegins(g, source, n, level, visited);
    InvShaped(g, source, n, Begin(level, visited));
    RunKeeps(g, source, n, Begin(level, visited), run);
    LevelEnds(g, source, n, Run(g, n, Begin(level, visited), run));
    if Near(g, source, n + 1) != Near(g, source, n) {
      var v := NewVertex(g, source, n);
      NotTooFar(g, source, n + 1, v);
    }
  }

  /** There are never more passes than vertices: each that finds something is one step further away. */
  lemma {:induction false} PassesEnd(g: Graph, source: nat, n: nat, level: seq<nat>, visited: seq<bool>, w: nat,
                                     runs: seq<seq<nat>>)
    requires Ready(g, source, n, level, visited) && !TooFar(g, source) && n < INFINITE_LEVEL
    requires w < |g| && AtLevel(g, source, n, w) && Passes(g, n, level, visited, runs)
    ensures n + |runs| <= |g|
    decreases |runs|
  {
    hide Near, AtLevel, TooFar, Run, LevelsOk;
    DepthNeedsVertices(g, source, n, w);
    F.Within(Near(g, source, n), |g|);
    ReadyShape(g, source, n, level, visited);
    if runs != [] {
      OnePass(g, source, n, level, visited, runs[0]);
      var st := Run(g, n, Begin(level, visited), runs[0]);
      if st.found {
        var v :| 0 <= v < |g| && AtLevel(g, source, n + 1, v);
        PassesEnd(g, source, n + 1, st.level, st.visited, v, runs[1..]);
      }
    }
  }

  /** And a search can always be brought to its end. */
  lemma {:induction false} SomeSearch(g: Graph, source: nat, n: nat, level: seq<nat>, visited: seq<bool>, w: nat)
      returns (runs: seq<seq<nat>>, level': seq<nat>, last: nat)
    requires Ready(g, source, n, level, visited) && !TooFar(g, source) && n < INFINITE_LEVEL
    requires w < |g| && AtLevel(g, source, n, w)
    ensures |level| == |visited| == |g| && Search(g, n, level, visited, runs, level', last)
    decreases INFINITE_LEVEL - n
  {
    hide Near, AtLevel, TooFar, Run, LevelsOk;
    ReadyShape(g, source, n, level, visited);
    var run := FinishAll(g, n, Begin(level, visited), 0);
    OnePass(g, source, n, level, visited, run);
    var st := Run(g, n, Begin(level, visited), run);
    if st.found {
      var v :| 0 <= v < |g| && AtLevel(g, source, n + 1, v);
      var rest;
      rest, level', last := SomeSearch(g, source, n + 1, st.level, st.visited, v);
      runs := [run] + rest;
      assert runs[1..] == rest;
    } else {
      runs, level', last := [run], st.level, n;
    }
  }

  lemma ReadyShape(g: Graph, source: nat, n: nat, level: seq<nat>, visited: seq<bool>)
    requires Ready(g, source, n, level, visited)
    ensures |level| == |visited| == |g| && Shaped(g, Begin(level, visited))
  {
    hide Near;
  }

  /** `kernel` ends: if no vertex is 65535 steps away there are at most as many passes as vertices, whatever the
      interleavings, and a finished search exists. */
  lemma KernelEnds(g: Graph, source: nat, level: seq<nat>, visited: seq<bool>)
    requires ValidGraph(g) && source < |g| == |level| == |visited| && !TooFar(g, source)
    requires forall v :: 0 <= v < |g| ==>
               level[v] == (if v == source then 0 else INFINITE_LEVEL) && (visited[v] <==> v == source)
    ensures forall runs :: Passes(g, 0, level, visited, runs) ==> |runs| <= |g|
    ensures exists runs, level', last :: Search(g, 0, level, visited, runs, level', last)
  {
    hide Passes, Search, TooFar;
    assert Ready(g, source, 0, level, visited) && AtLevel(g, source, 0, source);
    forall runs | Passes(g, 0, level, visited, runs) ensures |runs| <= |g| {
      PassesEnd(g, source, 0, level, visited, source, runs);
    }
    var runs, level', last := SomeSearch(g, source, 0, level, visited, source);
  }

  /** No level at all is right for a vertex that is too far. */
  lemma NoAnswer(g: Graph, source: nat, w: nat, level: nat)
    requires IsDistance(g, source, w, INFINITE_LEVEL)
    ensures !Answer(g, source, w, level)
  {
    hide Walk;
  }

  /** `kernel` on any number of threads: however the iterations interleave at their reads and writes, those of the
      words of the filter included, a search that ends gives the distances if and only if no vertex is 65535 steps
      away, and then returns the greatest finite one, after one pass more. */
  lemma KernelCorrect(g: Graph, source: nat, level: seq<nat>, visited: seq<bool>, runs: seq<seq<nat>>,
                      level': seq<nat>, last: nat)
    requires ValidGraph(g) && source < |g| == |level| == |visited|
    requires forall v :: 0 <= v < |g| ==>
               level[v] == (if v == source then 0 else INFINITE_LEVEL) && (visited[v] <==> v == source)
    requires Search(g, 0, level, visited, runs, level', last)
    ensures |level'| == |g|
    ensures (forall v :: 0 <= v < |g| ==> Answer(g, source, v, level'[v])) <==> !TooFar(g, source)
    ensures !TooFar(g, source) ==> Correct(g, source, level', last) && |runs| == last + 1
  {
    hide Search, IsDistance, Answer;
    SearchShape(g, 0, level, visited, runs, level', last);
    if TooFar(g, source) {
      var w :| 0 <= w < |g| && IsDistance(g, source, w, INFINITE_LEVEL);
      NoAnswer(g, source, w, level'[w]);
    } else {
      SearchFrom(g, source, 0, level, visited, source, runs, level', last);
    }
  }
}
