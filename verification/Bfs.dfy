/** Level-synchronous breadth-first search, with the vertices of a level in order (bench/bfs/kernel.hpp). */
module Bfs {
  import F = FreeSlots

  /** The neighbours of each vertex. */
  type Graph = seq<seq<nat>>

  const INFINITE_LEVEL: nat := 65535

  ghost predicate ValidGraph(g: Graph) {
    forall u, k :: 0 <= u < |g| && 0 <= k < |g[u]| ==> g[u][k] < |g|
  }

  // ---------- Distances ---------- //

  /** p is a walk from u to v along edges. */
  ghost predicate Walk(g: Graph, p: seq<nat>, u: nat, v: nat) {
    && |p| >= 1 && p[0] == u && p[|p| - 1] == v && (forall i :: 0 <= i < |p| ==> p[i] < |g|)
    && forall i :: 0 <= i < |p| - 1 ==> p[i + 1] in g[p[i]]
  }

  /** A shortest walk from u to v has n edges. */
  ghost predicate IsDistance(g: Graph, u: nat, v: nat, n: nat) {
    && (exists p: seq<nat> :: Walk(g, p, u, v) && |p| == n + 1)
    && forall p: seq<nat> :: Walk(g, p, u, v) ==> |p| >= n + 1
  }

  ghost predicate Adjacent(g: Graph, s: set<nat>, v: nat) { exists u :: u in s && u < |g| && v in g[u] }

  ghost function Next(g: Graph, s: set<nat>): (r: set<nat>)
    ensures forall v :: v in r <==> 0 <= v < |g| && Adjacent(g, s, v)
  {
    set v | 0 <= v < |g| && Adjacent(g, s, v)
  }

  /** The vertices within n steps of the source. */
  ghost function Near(g: Graph, source: nat, n: nat): (s: set<nat>)
    requires ValidGraph(g) && source < |g|
    ensures source in s && forall v :: v in s ==> v < |g|
  {
    if n == 0 then {source} else
    Near(g, source, n - 1) + Next(g, Near(g, source, n - 1))
  }

  lemma NearStep(g: Graph, source: nat, n: nat)
    requires ValidGraph(g) && source < |g|
    ensures Near(g, source, n + 1) == Near(g, source, n) + Next(g, Near(g, source, n))
  {}

  lemma {:induction false} NearMono(g: Graph, source: nat, m: nat, n: nat)
    requires ValidGraph(g) && source < |g| && m <= n
    ensures Near(g, source, m) <= Near(g, source, n)
    decreases n
  {
    hide Next, Near;
    if m < n {
      NearMono(g, source, m, n - 1);
      NearStep(g, source, n - 1);
    }
  }

  lemma Stay(g: Graph, source: nat)
    requires source < |g|
    ensures Walk(g, [source], source, source)
  {}

  lemma Extend(g: Graph, q: seq<nat>, source: nat, u: nat, v: nat)
    requires Walk(g, q, source, u) && v < |g| && v in g[u]
    ensures Walk(g, q + [v], source, v)
  {
    var p := q + [v];
    forall i | 0 <= i < |p| - 1 ensures p[i + 1] in g[p[i]] {
      if i < |q| - 1 { assert q[i + 1] in g[q[i]]; }
    }
  }

  /** What is near can be walked to, in no more steps. */
  lemma {:induction false} WalkTo(g: Graph, source: nat, n: nat, v: nat) returns (p: seq<nat>)
    requires ValidGraph(g) && source < |g| && v in Near(g, source, n)
    ensures Walk(g, p, source, v) && |p| <= n + 1
    decreases n
  {
    hide Next, Walk;
    if n == 0 {
      p := [source];
      Stay(g, source);
    } else if v in Near(g, source, n - 1) {
      p := WalkTo(g, source, n - 1, v);
    } else {
      var u :| u in Near(g, source, n - 1) && u < |g| && v in g[u];
      var q := WalkTo(g, source, n - 1, u);
      p := q + [v];
      Extend(g, q, source, u, v);
    }
  }

  /** And what can be walked to is near. */
  lemma {:induction false} WalkIsNear(g: Graph, source: nat, p: seq<nat>, v: nat)
    requires ValidGraph(g) && source < |g| && Walk(g, p, source, v)
    ensures v in Near(g, source, |p| - 1)
    decreases |p|
  {
    if |p| > 1 {
      var q := p[..|p| - 1];
      var u := p[|p| - 2];
      assert Walk(g, q, source, u);
      WalkIsNear(g, source, q, u);
      assert v in g[u];
    }
  }

  /** First near at n means distance n. */
  lemma FirstNear(g: Graph, source: nat, v: nat, n: nat)
    requires ValidGraph(g) && source < |g| && v in Near(g, source, n) && (n > 0 ==> v !in Near(g, source, n - 1))
    ensures IsDistance(g, source, v, n)
  {
    hide Walk, Near;
    forall p: seq<nat> | Walk(g, p, source, v) ensures |p| >= n + 1 {
      WalkLength(g, p, source, v);
      WalkIsNear(g, source, p, v);
      if |p| - 1 < n { NearMono(g, source, |p| - 1, n - 1); }
    }
    var p := WalkTo(g, source, n, v);
    assert |p| == n + 1;
  }

  lemma WalkLength(g: Graph, p: seq<nat>, u: nat, v: nat)
    requires Walk(g, p, u, v)
    ensures |p| >= 1
  {}

  /** When a step adds nothing, no later one does. */
  lemma {:induction false} NearStops(g: Graph, source: nat, m: nat, n: nat)
    requires ValidGraph(g) && source < |g| && Near(g, source, m + 1) == Near(g, source, m) && m <= n
    ensures Near(g, source, n) == Near(g, source, m)
    decreases n
  {
    hide Next, Near;
    if m < n {
      NearStops(g, source, m, n - 1);
      NearStep(g, source, n - 1);
      NearStep(g, source, m);
    }
  }

  // ---------- Levels ---------- //

  /** The levels after the search has got to depth n: everything within n steps has its distance, and the
      rest is infinite. */
  ghost predicate LevelsOk(g: Graph, source: nat, n: nat, level: seq<nat>)
    requires ValidGraph(g) && source < |g|
  {
    && |level| == |g|
    && forall v :: 0 <= v < |g| ==>
         if v in Near(g, source, n) then
           level[v] <= n && v in Near(g, source, level[v]) && (level[v] > 0 ==> v !in Near(g, source, level[v] - 1))
         else level[v] == INFINITE_LEVEL
  }

  /** In the middle of a level: besides, the unvisited neighbours of the first s vertices of level n, and the
      first k neighbours of vertex s, have level n + 1. */
  ghost predicate Seen(g: Graph, source: nat, n: nat, s: nat, k: nat, w: nat)
    requires ValidGraph(g) && source < |g|
  {
    && w !in Near(g, source, n)
    && ((exists u :: 0 <= u < s && u < |g| && AtLevel(g, source, n, u) && w in g[u])
        || (s < |g| && AtLevel(g, source, n, s) && exists j :: 0 <= j < k && j < |g[s]| && g[s][j] == w))
  }

  ghost predicate AtLevel(g: Graph, source: nat, n: nat, u: nat)
    requires ValidGraph(g) && source < |g|
  {
    u in Near(g, source, n) && (n > 0 ==> u !in Near(g, source, n - 1))
  }

  ghost predicate Partial(g: Graph, source: nat, n: nat, s: nat, k: nat, level: seq<nat>)
    requires ValidGraph(g) && source < |g|
  {
    && |level| == |g|
    && forall v :: 0 <= v < |g| ==>
         if v in Near(g, source, n) then
           level[v] <= n && v in Near(g, source, level[v]) && (level[v] > 0 ==> v !in Near(g, source, level[v] - 1))
         else level[v] == if Seen(g, source, n, s, k, v) then n + 1 else INFINITE_LEVEL
  }

  /** Levels and filter between two levels. */
  ghost predicate Between(g: Graph, source: nat, n: nat, level: seq<nat>, visited: seq<bool>)
    requires ValidGraph(g) && source < |g|
  {
    && LevelsOk(g, source, n, level) && |visited| == |g|
    && forall v :: 0 <= v < |g| ==> (visited[v] <==> v in Near(g, source, n))
  }

  lemma StartLevel(g: Graph, source: nat, n: nat, level: seq<nat>, visited: seq<bool>)
    requires ValidGraph(g) && source < |g| && Between(g, source, n, level, visited) && n < INFINITE_LEVEL
    ensures Middle(g, source, n, 0, 0, level, visited)
  {
    hide Near;
  }

  /** A level tells whether a vertex is at depth n. */
  lemma LevelMeans(g: Graph, source: nat, n: nat, s: nat, k: nat, level: seq<nat>, u: nat)
    requires ValidGraph(g) && source < |g| && Partial(g, source, n, s, k, level) && u < |g| && n < INFINITE_LEVEL
    ensures level[u] == n <==> AtLevel(g, source, n, u)
  {
    hide Near, Seen;
    if level[u] < n && u in Near(g, source, n) { NearMono(g, source, level[u], n - 1); }
  }

  /** The filter in the middle of a level: what is near, and what has been seen. */
  ghost predicate FilterOk(g: Graph, source: nat, n: nat, s: nat, k: nat, visited: seq<bool>)
    requires ValidGraph(g) && source < |g|
  {
    && |visited| == |g|
    && forall v :: 0 <= v < |g| ==> (visited[v] <==> v in Near(g, source, n) || Seen(g, source, n, s, k, v))
  }

  /** Levels and filter in the middle of a level that can still be told from the infinite one. */
  ghost predicate Middle(g: Graph, source: nat, n: nat, s: nat, k: nat, level: seq<nat>, visited: seq<bool>)
    requires ValidGraph(g) && source < |g|
  {
    n < INFINITE_LEVEL && Partial(g, source, n, s, k, level) && FilterOk(g, source, n, s, k, visited)
  }

  /** The k-th neighbour of vertex s is looked at. */
  lemma LookAt(g: Graph, source: nat, n: nat, s: nat, k: nat, level: seq<nat>, visited: seq<bool>)
    requires ValidGraph(g) && source < |g| && Middle(g, source, n, s, k, level, visited)
    requires s < |g| && AtLevel(g, source, n, s) && k < |g[s]|
    ensures var w := g[s][k];
            && w < |g| == |level| == |visited|
            && (!visited[w] ==>
                  level[w] == INFINITE_LEVEL &&
                  Middle(g, source, n, s, k + 1, level[w := n + 1], visited[w := true]))
            && (visited[w] ==> Middle(g, source, n, s, k + 1, level, visited))
  {
    hide Near, AtLevel;
    var w := g[s][k];
    forall v | 0 <= v < |g| && v != w ensures Seen(g, source, n, s, k + 1, v) == Seen(g, source, n, s, k, v) {}
    assert w !in Near(g, source, n) ==> Seen(g, source, n, s, k + 1, w);
  }

  lemma NextSource(g: Graph, source: nat, n: nat, s: nat, k: nat, level: seq<nat>, visited: seq<bool>)
    requires ValidGraph(g) && source < |g| && Middle(g, source, n, s, k, level, visited) && s < |g|
    requires AtLevel(g, source, n, s) ==> k == |g[s]|
    ensures Middle(g, source, n, s + 1, 0, level, visited)
  {
    hide Near, AtLevel;
    forall v | 0 <= v < |g| ensures Seen(g, source, n, s + 1, 0, v) == Seen(g, source, n, s, k, v) {
      if AtLevel(g, source, n, s) && v in g[s] {
        var j :| 0 <= j < |g[s]| && g[s][j] == v;
      }
    }
  }

  /** After a whole level the unvisited neighbours of depth n are depth n + 1. */
  lemma AllSeen(g: Graph, source: nat, n: nat, w: nat)
    requires ValidGraph(g) && source < |g| && w < |g|
    ensures Seen(g, source, n, |g|, 0, w) <==> w in Near(g, source, n + 1) && w !in Near(g, source, n)
  {
    hide Next;
    if w in Near(g, source, n + 1) && w !in Near(g, source, n) {
      var u :| u in Near(g, source, n) && u < |g| && w in g[u];
      assert AtLevel(g, source, n, u);
    }
  }

  lemma EndLevel(g: Graph, source: nat, n: nat, level: seq<nat>, visited: seq<bool>)
    requires ValidGraph(g) && source < |g| && Middle(g, source, n, |g|, 0, level, visited)
    ensures Between(g, source, n + 1, level, visited)
  {
    hide Seen, Near;
    NearMono(g, source, n, n + 1);
    forall v | 0 <= v < |g|
      ensures if v in Near(g, source, n + 1) then
                level[v] <= n + 1 && v in Near(g, source, level[v]) &&
                (level[v] > 0 ==> v !in Near(g, source, level[v] - 1))
              else level[v] == INFINITE_LEVEL
      ensures visited[v] <==> v in Near(g, source, n + 1)
    {
      AllSeen(g, source, n, v);
    }
  }

  lemma Grows(g: Graph, source: nat, n: nat, w: nat)
    requires ValidGraph(g) && source < |g| && |Near(g, source, n)| >= n + 1
    requires w in Near(g, source, n + 1) && w !in Near(g, source, n)
    ensures |Near(g, source, n + 1)| >= n + 2
  {
    hide Near;
    NearMono(g, source, n, n + 1);
    F.SubsetCount(Near(g, source, n) + {w}, Near(g, source, n + 1));
  }

  /** What the search promises for a vertex. */
  ghost predicate Answer(g: Graph, source: nat, v: nat, level: nat) {
    if level == INFINITE_LEVEL then forall p: seq<nat> :: !Walk(g, p, source, v) else IsDistance(g, source, v, level)
  }

  /** Some vertex is so far away that its distance is the number that stands for infinite. */
  ghost predicate TooFar(g: Graph, source: nat) {
    exists v :: 0 <= v < |g| && IsDistance(g, source, v, INFINITE_LEVEL)
  }

  lemma Answers(g: Graph, source: nat, n: nat, level: seq<nat>, v: nat)
    requires ValidGraph(g) && source < |g| && n < INFINITE_LEVEL && v < |g|
    requires LevelsOk(g, source, n, level) && Near(g, source, n + 1) == Near(g, source, n)
    ensures Answer(g, source, v, level[v])
  {
    hide Near, Walk, IsDistance;
    if v in Near(g, source, n) {
      FirstNear(g, source, v, level[v]);
    } else {
      forall p: seq<nat> ensures !Walk(g, p, source, v) {
        if Walk(g, p, source, v) {
          WalkLength(g, p, source, v);
          WalkIsNear(g, source, p, v);
          if |p| - 1 <= n { NearMono(g, source, |p| - 1, n); } else { NearStops(g, source, n, |p| - 1); }
        }
      }
    }
  }

  /** When a step below the infinite level adds nothing, no vertex is too far. */
  lemma NoneTooFar(g: Graph, source: nat, n: nat)
    requires ValidGraph(g) && source < |g| && n < INFINITE_LEVEL && Near(g, source, n + 1) == Near(g, source, n)
    ensures !TooFar(g, source)
  {
    hide Near, Walk;
    forall v | 0 <= v < |g| ensures !IsDistance(g, source, v, INFINITE_LEVEL) {
      if IsDistance(g, source, v, INFINITE_LEVEL) {
        var p: seq<nat> :| Walk(g, p, source, v) && |p| == INFINITE_LEVEL + 1;
        WalkIsNear(g, source, p, v);
        NearStops(g, source, n, INFINITE_LEVEL);
        var q := WalkTo(g, source, n, v);
        assert false;
      }
    }
  }

  /** A vertex at depth n needs n + 1 vertices. */
  lemma {:induction false} DepthNeedsVertices(g: Graph, source: nat, n: nat, v: nat)
    requires ValidGraph(g) && source < |g| && AtLevel(g, source, n, v)
    ensures |Near(g, source, n)| >= n + 1
    decreases n
  {
    hide Next;
    if n == 1 {
      DepthNeedsVertices(g, source, 0, source);
      Grows(g, source, 0, v);
    } else if n > 1 {
      assert Near(g, source, n - 1) != Near(g, source, n - 2);
      NearMono(g, source, n - 2, n - 1);
      var u :| u in Near(g, source, n - 1) && u !in Near(g, source, n - 2);
      DepthNeedsVertices(g, source, n - 1, u);
      Grows(g, source, n - 1, v);
    }
  }

  /** Up to 65535 vertices none is too far. */
  lemma FewVertices(g: Graph, source: nat)
    requires ValidGraph(g) && source < |g| <= INFINITE_LEVEL
    ensures !TooFar(g, source)
  {
    hide Near, Walk;
    forall v | 0 <= v < |g| ensures !IsDistance(g, source, v, INFINITE_LEVEL) {
      if IsDistance(g, source, v, INFINITE_LEVEL) {
        DistanceIsDepth(g, source, v, INFINITE_LEVEL);
        DepthNeedsVertices(g, source, INFINITE_LEVEL, v);
        F.Within(Near(g, source, INFINITE_LEVEL), |g|);
        assert false;
      }
    }
  }

  /** The vertices 0 to n in a row. */
  function Row(n: nat): Graph { seq(n + 1, i => if i < n then [i + 1] else []) }

  lemma {:induction false} WalkInRow(n: nat, p: seq<nat>, v: nat, i: nat)
    requires Walk(Row(n), p, 0, v) && i < |p|
    ensures p[i] == i
  {
    if i > 0 {
      WalkInRow(n, p, v, i - 1);
      assert p[i - 1 + 1] in Row(n)[p[i - 1]];
    }
  }

  lemma RowDistance(n: nat)
    ensures ValidGraph(Row(n)) && IsDistance(Row(n), 0, n, n)
  {
    var p: seq<nat> := seq(n + 1, i => i);
    assert Walk(Row(n), p, 0, n) by {
      forall i | 0 <= i < |p| - 1 ensures p[i + 1] in Row(n)[p[i]] {
        assert Row(n)[i] == [i + 1];
      }
    }
    forall q: seq<nat> | Walk(Row(n), q, 0, n) ensures |q| >= n + 1 {
      WalkInRow(n, q, n, |q| - 1);
    }
  }

  /** With 65536 vertices one can be: the last of a row. */
  lemma RowIsTooFar()
    ensures ValidGraph(Row(INFINITE_LEVEL)) && |Row(INFINITE_LEVEL)| == 65536 && TooFar(Row(INFINITE_LEVEL), 0)
  {
    hide IsDistance;
    RowDistance(INFINITE_LEVEL);
  }

  lemma DistanceIsDepth(g: Graph, source: nat, v: nat, n: nat)
    requires ValidGraph(g) && source < |g| && IsDistance(g, source, v, n)
    ensures AtLevel(g, source, n, v)
  {
    hide Near, Walk;
    var p: seq<nat> :| Walk(g, p, source, v) && |p| == n + 1;
    WalkIsNear(g, source, p, v);
    if n > 0 && v in Near(g, source, n - 1) {
      var q := WalkTo(g, source, n - 1, v);
    }
  }

  /** A vertex at depth 65535 has got the infinite level, although it can be reached. */
  lemma GotLost(g: Graph, source: nat, level: seq<nat>, visited: seq<bool>, w: nat)
    requires ValidGraph(g) && source < |g| && Between(g, source, INFINITE_LEVEL, level, visited)
    requires w < |g| && AtLevel(g, source, INFINITE_LEVEL, w)
    ensures visited[w] && level[w] == INFINITE_LEVEL && IsDistance(g, source, w, INFINITE_LEVEL)
  {
    hide Near, IsDistance;
    FirstNear(g, source, w, INFINITE_LEVEL);
    if level[w] < INFINITE_LEVEL { NearMono(g, source, level[w], INFINITE_LEVEL - 1); }
  }

  lemma LostIsWrong(g: Graph, source: nat, w: nat)
    requires w < |g| && IsDistance(g, source, w, INFINITE_LEVEL)
    ensures !Answer(g, source, w, INFINITE_LEVEL) && TooFar(g, source)
  {
    hide Walk;
  }

  // ---------- The search ---------- //

  ghost function Unvisited(visited: seq<bool>): set<nat> { set v | 0 <= v < |visited| && !visited[v] }

  /** Vertices once visited stay visited and keep their level. */
  ghost predicate Kept(level: seq<nat>, visited: seq<bool>, level': seq<nat>, visited': seq<bool>) {
    && |level| == |visited| == |level'| == |visited'|
    && forall v :: 0 <= v < |level| && visited[v] ==> visited'[v] && level'[v] == level[v]
  }

  /** A pass that finds nothing changes nothing; one that finds something leaves fewer vertices. */
  ghost predicate Progress(found: bool, level: seq<nat>, visited: seq<bool>, level': seq<nat>, visited': seq<bool>) {
    && Kept(level, visited, level', visited')
    && (found ==> exists v :: 0 <= v < |visited| && !visited[v] && visited'[v])
    && (!found ==> level' == level && visited' == visited)
  }

  lemma ProgressMeans(found: bool, level: seq<nat>, visited: seq<bool>, level': seq<nat>, visited': seq<bool>)
    requires Progress(found, level, visited, level', visited')
    ensures Kept(level, visited, level', visited') && (!found ==> level' == level && visited' == visited)
    ensures found ==> |Unvisited(visited')| < |Unvisited(visited)|
  {
    if !found { return; }
    var v :| 0 <= v < |visited| && !visited[v] && visited'[v];
    F.SubsetCount(Unvisited(visited'), Unvisited(visited) - {v});
  }

  class BfsData {
    var level: seq<nat>
    var visitedFilter: seq<bool>

    /** `initialize`: only the source has a level. */
    constructor (maxVertexId: nat, source: nat)
      requires source <= maxVertexId
      ensures |level| == |visitedFilter| == maxVertexId + 1
      ensures forall v :: 0 <= v <= maxVertexId ==>
                level[v] == (if v == source then 0 else INFINITE_LEVEL) && (visitedFilter[v] <==> v == source)
    {
      level := seq(maxVertexId + 1, _ => INFINITE_LEVEL)[source := 0];
      visitedFilter := seq(maxVertexId + 1, _ => false)[source := true];
    }

    /** The neighbours of one vertex of the current level. */
    method VisitNeighbours(g: Graph, s: nat, currentLevel: nat, ghost source: nat, ghost exact: bool)
      returns (found: bool)
      requires ValidGraph(g) && source < |g| && s < |g| == |level| == |visitedFilter|
      requires exact ==>
                 Middle(g, source, currentLevel, s, 0, level, visitedFilter) && AtLevel(g, source, currentLevel, s)
      modifies this
      ensures Progress(found, old(level), old(visitedFilter), level, visitedFilter)
      ensures exact ==> Middle(g, source, currentLevel, s, |g[s]|, level, visitedFilter)
    {
      hide Near, AtLevel, Partial, FilterOk;
      found := false;
      var k := 0;
      while k < |g[s]|
        invariant 0 <= k <= |g[s]| && Progress(found, old(level), old(visitedFilter), level, visitedFilter)
        invariant exact ==> Middle(g, source, currentLevel, s, k, level, visitedFilter)
      {
        if exact { LookAt(g, source, currentLevel, s, k, level, visitedFilter); }
        var neighbour := g[s][k];
        if !visitedFilter[neighbour] && level[neighbour] == INFINITE_LEVEL {
          level := level[neighbour := (currentLevel + 1) % 65536];
          visitedFilter := visitedFilter[neighbour := true];
          found := true;
        }
        k := k + 1;
      }
    }

    /** The loop over all vertices for one level. */
    method VisitLevel(g: Graph, currentLevel: nat, ghost source: nat, ghost exact: bool)
      returns (visitedNewVertex: bool)
      requires ValidGraph(g) && source < |g| == |level| == |visitedFilter|
      requires exact ==> currentLevel < INFINITE_LEVEL && Between(g, source, currentLevel, level, visitedFilter)
      modifies this
      ensures Progress(visitedNewVertex, old(level), old(visitedFilter), level, visitedFilter)
      ensures exact ==> Between(g, source, currentLevel + 1, level, visitedFilter)
    {
      hide Near, AtLevel, Partial, FilterOk, Between;
      visitedNewVertex := false;
      if exact { StartLevel(g, source, currentLevel, level, visitedFilter); }
      var s := 0;
      while s < |level|
        invariant 0 <= s <= |g| && Progress(visitedNewVertex, old(level), old(visitedFilter), level, visitedFilter)
        invariant exact ==> Middle(g, source, currentLevel, s, 0, level, visitedFilter)
      {
        if exact { LevelMeans(g, source, currentLevel, s, 0, level, s); }
        if |g[s]| != 0 && level[s] == currentLevel {
          var found := VisitNeighbours(g, s, currentLevel, source, exact);
          visitedNewVertex := visitedNewVertex || found;
          if exact { NextSource(g, source, currentLevel, s, |g[s]|, level, visitedFilter); }
        } else {
          if exact { NextSource(g, source, currentLevel, s, 0, level, visitedFilter); }
        }
        s := s + 1;
      }
      if exact { EndLevel(g, source, currentLevel, level, visitedFilter); }
    }

    /** `kernel`: on every graph the search ends. The levels are the distances exactly when no vertex is
        65535 steps away, the number that stands for infinite; then the greatest finite one is returned. */
    method Kernel(g: Graph, ghost source: nat) returns (currentLevel: nat)
      requires ValidGraph(g) && source < |g| == |level| == |visitedFilter|
      requires forall v :: 0 <= v < |g| ==>
                 level[v] == (if v == source then 0 else INFINITE_LEVEL) && (visitedFilter[v] <==> v == source)
      modifies this
      ensures |level| == |g|
      ensures (forall v :: 0 <= v < |g| ==> Answer(g, source, v, level[v])) <==> !TooFar(g, source)
      ensures !TooFar(g, source) ==> exists v :: 0 <= v < |g| && level[v] == currentLevel
      ensures !TooFar(g, source) ==> forall v :: 0 <= v < |g| && level[v] != INFINITE_LEVEL ==> level[v] <= currentLevel
    {
      hide Near, AtLevel, IsDistance, LevelsOk, Answer, TooFar, Progress, Between;
      currentLevel := 0;
      FirstLevel(g, source, level, visitedFilter);
      ghost var exact := true;
      ghost var w: nat := source;
      while true
        invariant |level| == |visitedFilter| == |g| && w < |g|
        invariant exact ==>
                    && currentLevel < INFINITE_LEVEL && level[w] == currentLevel
                    && Between(g, source, currentLevel, level, visitedFilter)
        invariant !exact ==> visitedFilter[w] && level[w] == INFINITE_LEVEL && IsDistance(g, source, w, INFINITE_LEVEL)
        decreases |Unvisited(visitedFilter)|
      {
        ghost var level0, visited0 := level, visitedFilter;
        var visitedNewVertex := VisitLevel(g, currentLevel, source, exact);
        ProgressMeans(visitedNewVertex, level0, visited0, level, visitedFilter);
        if !visitedNewVertex {
          if exact { Finished(g, source, currentLevel, level, visitedFilter); } else { LostIsWrong(g, source, w); }
          break;
        }
        if exact {
          w := NewLevel(g, source, currentLevel, level0, visited0, level, visitedFilter);
          if currentLevel + 1 == INFINITE_LEVEL {
            GotLost(g, source, level, visitedFilter, w);
            exact := false;
          }
        }
        currentLevel := (currentLevel + 1) % 65536;
      }
    }
  }

  lemma FirstLevel(g: Graph, source: nat, level: seq<nat>, visited: seq<bool>)
    requires ValidGraph(g) && source < |g| == |level| == |visited|
    requires forall v :: 0 <= v < |g| ==>
               level[v] == (if v == source then 0 else INFINITE_LEVEL) && (visited[v] <==> v == source)
    ensures Between(g, source, 0, level, visited)
  {}

  /** Vertices found after level n are at depth n + 1. */
  lemma NewLevel(g: Graph, source: nat, n: nat, level: seq<nat>, visited: seq<bool>, level': seq<nat>,
          visited': seq<bool>) returns (w: nat)
    requires ValidGraph(g) && source < |g| && Between(g, source, n, level, visited)
             && Between(g, source, n + 1, level', visited')
    requires Progress(true, level, visited, level', visited')
    ensures w < |g| == |level'| && AtLevel(g, source, n + 1, w) && level'[w] == n + 1
  {
    hide Near;
    w :| 0 <= w < |visited| && !visited[w] && visited'[w];
    if level'[w] <= n { NearMono(g, source, level'[w], n); }
  }

  /** Levels and filter that are right for n and for n + 1 mean that nothing new is near. */
  lemma NoNewLevel(g: Graph, source: nat, n: nat, level: seq<nat>, visited: seq<bool>)
    requires ValidGraph(g) && source < |g| && Between(g, source, n, level, visited)
             && Between(g, source, n + 1, level, visited)
    ensures Near(g, source, n + 1) == Near(g, source, n)
  {
    hide Near;
  }

  lemma LevelsBound(g: Graph, source: nat, n: nat, level: seq<nat>, v: nat)
    requires ValidGraph(g) && source < |g| && LevelsOk(g, source, n, level) && v < |g|
    ensures level[v] != INFINITE_LEVEL ==> level[v] <= n
  {
    hide Near;
  }

  /** What a finished search means. */
  lemma Finished(g: Graph, source: nat, n: nat, level: seq<nat>, visited: seq<bool>)
    requires ValidGraph(g) && source < |g| && n < INFINITE_LEVEL
    requires Between(g, source, n, level, visited) && Between(g, source, n + 1, level, visited)
    ensures !TooFar(g, source) && |level| == |g|
    ensures forall v :: 0 <= v < |g| ==>
              Answer(g, source, v, level[v]) && (level[v] != INFINITE_LEVEL ==> level[v] <= n)
  {
    hide Near, Answer, TooFar;
    NoNewLevel(g, source, n, level, visited);
    NoneTooFar(g, source, n);
    forall v | 0 <= v < |g| ensures Answer(g, source, v, level[v]) && (level[v] != INFINITE_LEVEL ==> level[v] <= n) {
      Answers(g, source, n, level, v);
      LevelsBound(g, source, n, level, v);
    }
  }
}
