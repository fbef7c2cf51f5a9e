// The k-shortest-paths search of the library (`CQYKShortestPaths` in
// QYKShortestPaths.cpp): results are taken from the front of an ordered
// set of candidates; after each result, the arcs leaving its vertices
// are cut from a copy of the graph, distances to the target are
// computed on the reversed copy, and the arcs are restored vertex by
// vertex from the target back to the deviation vertex, each restored
// vertex possibly yielding a new candidate.

module KShortestPaths {
  import opened Common
  import opened DirectedPaths
  import opened DirectedGraphs
  import opened ShortestPaths

  /** `std::find`: the first position of `x`, or `|s|`. */
  function IndexOf(s: seq<int>, x: int): (k: nat)
    ensures k <= |s|
    ensures k < |s| ==> s[k] == x
    ensures forall l :: 0 <= l < k ==> s[l] != x
  {
    if s == [] then 0 else if s[0] == x then 0 else 1 + IndexOf(s[1..], x)
  }

  /** The vertices before the first occurrence of `x`, collected one by
      one (QYKShortestPaths.cpp:237-240). */
  method PrefixBefore(vs: seq<int>, x: int) returns (prefix: seq<int>)
    requires x in vs
    ensures prefix == vs[..IndexOf(vs, x)]
  {
    var idx := 0;
    prefix := [];
    while vs[idx] != x
      invariant 0 <= idx <= IndexOf(vs, x) && prefix == vs[..idx]
      decreases IndexOf(vs, x) - idx
    {
      prefix := prefix + [vs[idx]];
      idx := idx + 1;
    }
  }

  /** The first occurrence of `s` in `vs` is followed by `e`. The source
      reads past the end when `s` is the last vertex; that case is
      treated here as not followed. */
  predicate FollowedBy(vs: seq<int>, s: int, e: int)
  {
    IndexOf(vs, s) + 1 < |vs| && vs[IndexOf(vs, s) + 1] == e
  }

  /** On a path that repeats no vertex, "the first `s` is followed by
      `e`" is "the arc (s, e) is on the path". */
  lemma FollowedByOnSimplePath(vs: seq<int>, s: int, e: int)
    requires NoDuplicates(vs)
    ensures FollowedBy(vs, s, e) <==> exists k :: 0 <= k < |vs| - 1 && vs[k] == s && vs[k + 1] == e
  {
    if exists k :: 0 <= k < |vs| - 1 && vs[k] == s && vs[k + 1] == e {
      var k :| 0 <= k < |vs| - 1 && vs[k] == s && vs[k + 1] == e;
      assert IndexOf(vs, s) == k;
    }
  }

  /** The weights after `_ReverseEdgesInGraph`: every pair of distinct
      vertices below V takes the weight of the opposite pair. */
  function ReversedWeight(m: WeightMap, V: nat, a: int, b: int): Cost
  {
    if 0 <= a < V && 0 <= b < V && a != b then Weight(m, b, a) else Weight(m, a, b)
  }

  /** Reversing twice restores every weight. */
  lemma ReverseInvolution(m0: WeightMap, m1: WeightMap, m2: WeightMap, V: nat)
    requires forall a, b :: Weight(m1, a, b) == ReversedWeight(m0, V, a, b)
    requires forall a, b :: Weight(m2, a, b) == ReversedWeight(m1, V, a, b)
    ensures forall a, b :: Weight(m2, a, b) == Weight(m0, a, b)
  {
    forall a, b ensures Weight(m2, a, b) == Weight(m0, a, b) {
      assert Weight(m1, b, a) == ReversedWeight(m0, V, b, a);
    }
  }

  /** The weights after `_DetermineCost2Target` cuts the arcs leaving
      `rows` toward vertices below V. */
  function PrunedWeight(m: WeightMap, rows: seq<int>, V: nat, a: int, b: int): Cost
  {
    if a in rows && 0 <= b < V then Inf else Weight(m, a, b)
  }

  /** Pair (a, b) has been swapped by the reversal loop when it stands at
      row i, column j. */
  predicate Swapped(a: int, b: int, i: int, j: int)
  {
    0 <= b < a && (a < i || (a == i && b < j))
  }

  /** The integers 0..V-1. */
  function Range(V: nat): (r: set<int>)
    ensures forall x :: x in r <==> 0 <= x < V
    ensures |r| == V
  {
    if V == 0 then {} else Range(V - 1) + {V - 1}
  }

  /** A repetition-free list of vertices below V has at most V entries. */
  lemma DistinctBounded(s: seq<int>, V: nat)
    requires NoDuplicates(s)
    requires forall k :: 0 <= k < |s| ==> 0 <= s[k] < V
    ensures |s| <= V
  {
    DistinctCardinality(s);
    var e := set x | x in s;
    assert e <= Range(V);
    assert Range(V) == e + (Range(V) - e);
  }

  /** The weights while the reversal loop stands at row i, column j. */
  function PartialReverse(m0: WeightMap, i: int, j: int, a: int, b: int): Cost
  {
    if Swapped(a, b, i, j) || Swapped(b, a, i, j) then Weight(m0, b, a) else Weight(m0, a, b)
  }

  /** `m` with the weights of (i, j) and (j, i) exchanged. */
  function SwapWeights(m: WeightMap, i: int, j: int): WeightMap
  {
    m[(i, j) := Weight(m, j, i)][(j, i) := Weight(m, i, j)]
  }

  /** One step of the reversal loop. */
  lemma SwapStep(m: WeightMap, m0: WeightMap, i: int, j: int)
    requires 0 <= j < i
    requires forall a, b :: Weight(m, a, b) == PartialReverse(m0, i, j, a, b)
    ensures forall a, b :: Weight(SwapWeights(m, i, j), a, b) == PartialReverse(m0, i, j + 1, a, b)
    ensures Weight(m, i, j).Inf? && Weight(m, j, i).Inf? ==>
              forall a, b :: Weight(m, a, b) == PartialReverse(m0, i, j + 1, a, b)
  {
    var m' := SwapWeights(m, i, j);
    forall a, b ensures Weight(m', a, b) == PartialReverse(m0, i, j + 1, a, b) {
      if (a, b) == (j, i) {
        assert Weight(m', a, b) == Weight(m, i, j) == Weight(m0, i, j);
      } else if (a, b) == (i, j) {
        assert Weight(m', a, b) == Weight(m, j, i) == Weight(m0, j, i);
      } else {
        assert Weight(m', a, b) == Weight(m, a, b);
      }
    }
  }

  /** The distance a map records, `DISCONNECT` when it has none. */
  function Dist(d: map<int, Cost>, v: int): Cost
  {
    if v in d then d[v] else Inf
  }

  /** The next node a pair of maps records (see `GetNextNodeId`). */
  function NextOf(d: map<int, Cost>, nx: map<int, int>, v: int): int
  {
    if v !in d then DEADEND else if v in nx then nx[v] else 0
  }

  /** The arc from `v` to its next node is connected, and the next
      node's distance plus its weight is at most `v`'s distance. */
  ghost predicate LinkedIn(d: map<int, Cost>, nx: map<int, int>, e: WeightMap, v: int)
  {
    var n := NextOf(d, nx, v);
    Weight(e, v, n).Fin? && Dist(d, n).Plus(Weight(e, v, n)).AtMost(Dist(d, v))
  }

  /** Relative to `d0`, no distance has grown, and every vertex whose
      distance changed is linked. */
  ghost predicate Relabelled(d0: map<int, Cost>, d: map<int, Cost>, nx: map<int, int>, e: WeightMap)
  {
    (forall v :: Dist(d, v).AtMost(Dist(d0, v)))
    && (forall v :: Dist(d, v) != Dist(d0, v) ==> LinkedIn(d, nx, e, v))
  }

  lemma CostMonotone(a: Cost, b: Cost, c: Cost, w: Cost)
    ensures a.AtMost(b) && b.AtMost(c) ==> a.AtMost(c)
    ensures a.AtMost(b) ==> a.Plus(w).AtMost(b.Plus(w))
  {
  }

  /** Lowering the distance of `i` through the arc into `cur` keeps the
      relabelling invariant. */
  lemma RelaxPreserves(d0: map<int, Cost>, d: map<int, Cost>, nx: map<int, int>, e: WeightMap, i: int, cur: int)
    requires Relabelled(d0, d, nx, e)
    requires Weight(e, i, cur).Fin? && Dist(d, cur).Plus(Weight(e, i, cur)).Below(Dist(d, i))
    ensures Relabelled(d0, d[i := Dist(d, cur).Plus(Weight(e, i, cur))], nx[i := cur], e)
  {
    var c := Dist(d, cur).Plus(Weight(e, i, cur));
    var d' := d[i := c];
    var nx' := nx[i := cur];
    assert cur != i;
    forall v ensures Dist(d', v).AtMost(Dist(d0, v)) {
      CostMonotone(Dist(d', v), Dist(d, v), Dist(d0, v), Inf);
    }
    forall v | Dist(d', v) != Dist(d0, v) ensures LinkedIn(d', nx', e, v) {
      if v != i {
        var n := NextOf(d, nx, v);
        assert NextOf(d', nx', v) == n;
        assert Dist(d', n).AtMost(Dist(d, n));
        CostMonotone(Dist(d', n), Dist(d, n), Dist(d, v), Weight(e, v, n));
        CostMonotone(Dist(d', n).Plus(Weight(e, v, n)), Dist(d, n).Plus(Weight(e, v, n)), Dist(d, v), Inf);
      }
    }
  }

  /** Every path of `ps` costs its weight in `m`. */
  ghost predicate PathsPriced(ps: seq<DirectedPath>, m: WeightMap)
  {
    forall p :: p in ps ==> p.cost == PathWeight(m, p.vertices)
  }

  /** Appending a priced path to priced paths keeps them priced. */
  lemma PricedExtended(ps: seq<DirectedPath>, qs: seq<DirectedPath>, m: WeightMap)
    requires |qs| == |ps| + 1 && qs[..|ps|] == ps
    requires qs[|ps|].cost == PathWeight(m, qs[|ps|].vertices)
    ensures PathsPriced(ps, m) ==> PathsPriced(qs, m)
  {
    if PathsPriced(ps, m) {
      forall p | p in qs
        ensures p.cost == PathWeight(m, p.vertices)
      {
        var k :| 0 <= k < |qs| && qs[k] == p;
        if k < |ps| {
          assert ps[k] == p;
        }
      }
    }
  }

  /** What a query for `k` paths from `s` to `t` over weights `m`
      yields: when at least one path is asked for, a first path exactly
      when the target can be reached, and then one no vertex list from
      `s` to `t` undercuts; every returned path with vertices runs from
      `s` to `t`, costs its weight, and costs no less than the first. */
  ghost predicate SearchResult(paths: seq<DirectedPath>, m: WeightMap, s: int, t: int, k: int)
  {
    (k >= 1 ==> (Reachable(m, s, t) <==> |paths| > 0 && paths[0].vertices != []))
    && (k >= 1 && Reachable(m, s, t) ==> Cheapest(paths[0], m, s, t))
    && (forall i :: 0 <= i < |paths| && paths[i].vertices != [] ==>
          Runs(paths[i].vertices, s, t) && paths[i].cost == PathWeight(m, paths[i].vertices)
          && paths[0].cost.AtMost(paths[i].cost))
  }

  /** Four vertices: the hops 0-1, 1-2, 2-3 at cost 1 and a direct arc
      0-3 at cost 3. Every arc costs the difference of its endpoints. */
  function TiedWeights(): WeightMap
  {
    map[(0, 1) := Fin(1), (1, 2) := Fin(1), (2, 3) := Fin(1), (0, 3) := Fin(3)]
  }

  /** Over `TiedWeights`, a finite walk costs its last vertex minus its first. */
  lemma {:induction false} TiedWalkCost(vs: seq<int>)
    requires |vs| > 0
    ensures PathWeight(TiedWeights(), vs).Fin? ==> PathWeight(TiedWeights(), vs).n == vs[|vs| - 1] - vs[0]
    decreases |vs|
  {
    if |vs| >= 2 {
      TiedWalkCost(vs[..|vs| - 1]);
    }
  }

  /** Two cheapest paths from 0 to 3 whose comparator order is the
      reverse of the order a shortest-path query may return them in: the
      query may return the four-vertex path first (both cost 3), and the
      direct arc, found by deviation, orders before it as a shorter path
      of the same cost. The search's results are therefore ordered by
      cost from the first, but not by the comparator. */
  lemma TiedPathsOutOfKeyOrder()
    ensures Cheapest(DirectedPath(0, Fin(3), [0, 1, 2, 3]), TiedWeights(), 0, 3)
    ensures Cheapest(DirectedPath(1, Fin(3), [0, 3]), TiedWeights(), 0, 3)
    ensures PathLess(DirectedPath(1, Fin(3), [0, 3]), DirectedPath(0, Fin(3), [0, 1, 2, 3]))
  {
    var m := TiedWeights();
    assert [0, 1, 2, 3][..3] == [0, 1, 2] && [0, 1, 2][..2] == [0, 1] && [0, 1][..1] == [0];
    assert PathWeight(m, [0, 1]) == Fin(1);
    assert PathWeight(m, [0, 1, 2]) == Fin(2);
    assert PathWeight(m, [0, 1, 2, 3]) == Fin(3);
    assert [0, 3][..1] == [0];
    assert PathWeight(m, [0, 3]) == Fin(3);
    forall vs | Runs(vs, 0, 3)
      ensures Fin(3).AtMost(PathWeight(m, vs))
    {
      TiedWalkCost(vs);
    }
  }

  /** No two paths have the same (cost, length, id) key. */
  predicate DistinctKeys(ps: seq<DirectedPath>)
  {
    forall a, b :: 0 <= a < b < |ps| ==> !SameKey(ps[a], ps[b])
  }

  /** Every candidate and result runs from `source` to `target`, the
      candidates' keys are distinct, the deviation map is keyed by ids
      below the number of paths so far, and each candidate's deviation
      vertex lies on it. */
  ghost predicate PoolValid(candidates: seq<DirectedPath>, results: seq<DirectedPath>,
                            deviatedNode: map<int, int>, source: int, target: int)
  {
    (forall k :: 0 <= k < |candidates| ==> Runs(candidates[k].vertices, source, target))
    && (forall k :: 0 <= k < |results| ==> Runs(results[k].vertices, source, target))
    && DistinctKeys(candidates)
    && (forall id :: id in deviatedNode ==> 0 <= id < |candidates| + |results|)
    && (forall k :: 0 <= k < |candidates| ==>
          candidates[k].id in deviatedNode && deviatedNode[candidates[k].id] in candidates[k].vertices)
  }

  /** A new candidate whose id is the number of paths so far shares no key
      with the pool, and adding it with its deviation vertex keeps the
      pool valid. */
  lemma InsertKeepsPool(candidates: seq<DirectedPath>, results: seq<DirectedPath>,
                        deviatedNode: map<int, int>, source: int, target: int, p: DirectedPath, start: int)
    requires PoolValid(candidates, results, deviatedNode, source, target)
    requires Runs(p.vertices, source, target) && p.id == |candidates| + |results| && start in p.vertices
    ensures forall k :: 0 <= k < |candidates| ==> !SameKey(candidates[k], p)
    ensures PoolValid(candidates + [p], results, deviatedNode[p.id := start], source, target)
  {
    var c, d := candidates + [p], deviatedNode[p.id := start];
    forall k | 0 <= k < |c| ensures c[k].id in d && d[c[k].id] in c[k].vertices {
      if k < |candidates| {
        assert candidates[k].id in deviatedNode;
      }
    }
  }

  /** Removing a minimal element: none of the rest orders before it,
      and with distinct keys it orders before all of the rest, which
      keeps distinct keys. */
  lemma RemoveMinimal(c: seq<DirectedPath>, best: nat)
    requires best < |c|
    requires forall j :: 0 <= j < |c| ==> !PathLess(c[j], c[best])
    ensures DistinctKeys(c) ==> DistinctKeys(RemoveAt(c, best))
    ensures DistinctKeys(c) ==> forall k :: 0 <= k < |c| - 1 ==> PathLess(c[best], RemoveAt(c, best)[k])
  {
    var r := RemoveAt(c, best);
    if DistinctKeys(c) {
      forall k | 0 <= k < |r| ensures PathLess(c[best], r[k]) {
        var j := if k < best then k else k + 1;
        PathLessStrictTotal(c[j], c[best], c[best]);
      }
      forall a, b | 0 <= a < b < |r| ensures !SameKey(r[a], r[b]) {
        assert r[a] == c[if a < best then a else a + 1];
        assert r[b] == c[if b < best then b else b + 1];
      }
    }
  }

  class KShortestPathSearch {
    const graph: DirectedGraph
    const source: nat
    const target: int
    const topK: int
    var intermediate: DirectedGraph?
    var sp: ShortestPath?
    var results: seq<DirectedPath>
    var candidates: seq<DirectedPath>
    var deviatedNode: map<int, int>

    constructor (g: DirectedGraph, s: nat, t: int, k: int)
      ensures graph == g && source == s && target == t && topK == k
      ensures intermediate == null && sp == null && results == [] && candidates == [] && deviatedNode == map[]
    {
      graph := g;
      source := s;
      target := t;
      topK := k;
      intermediate := null;
      sp := null;
      results := [];
      candidates := [];
      deviatedNode := map[];
    }

    /** The search's invariant: every candidate and result runs from the
        source to the target; candidate keys are distinct; ids handed out
        so far are below the number of candidates plus results; and every
        candidate has a recorded deviation vertex that lies on it. */
    ghost predicate Valid()
      reads this
    {
      PoolValid(candidates, results, deviatedNode, source, target)
    }

    /** `std::set::insert` of a candidate: ignored when a candidate with
        the same key is already there. */
    method InsertCandidate(p: DirectedPath)
      modifies this`candidates
      ensures (exists k :: 0 <= k < |old(candidates)| && SameKey(old(candidates)[k], p)) ==> candidates == old(candidates)
      ensures (forall k :: 0 <= k < |old(candidates)| ==> !SameKey(old(candidates)[k], p)) ==> candidates == old(candidates) + [p]
      ensures results == old(results) && deviatedNode == old(deviatedNode)
      ensures intermediate == old(intermediate) && sp == old(sp)
    {
      var k := 0;
      while k < |candidates|
        invariant 0 <= k <= |candidates|
        invariant forall l :: 0 <= l < k ==> !SameKey(candidates[l], p)
      {
        if SameKey(candidates[k], p) {
          return;
        }
        k := k + 1;
      }
      candidates := candidates + [p];
    }

    /** Move the first element of the candidate set to the results: a
        candidate no other candidate orders before, and, keys being
        distinct, the least one. */
    method TakeNext() returns (cur: DirectedPath)
      requires |candidates| > 0 && Valid()
      modifies this
      ensures cur in old(candidates) && results == old(results) + [cur]
      ensures multiset(candidates) + multiset{cur} == multiset(old(candidates))
      ensures forall k :: 0 <= k < |candidates| ==> PathLess(cur, candidates[k])
      ensures Valid() && cur.id in deviatedNode && deviatedNode[cur.id] in cur.vertices
      ensures deviatedNode == old(deviatedNode) && intermediate == old(intermediate) && sp == old(sp)
    {
      var c := candidates;
      var best := 0;
      var i := 1;
      while i < |c|
        invariant 0 <= best < |c| && 1 <= i <= |c| && best < i
        invariant forall j :: 0 <= j < i ==> !PathLess(c[j], c[best])
        invariant candidates == c && results == old(results) && deviatedNode == old(deviatedNode)
        invariant intermediate == old(intermediate) && sp == old(sp)
      {
        if PathLess(c[i], c[best]) {
          forall j | 0 <= j < i ensures !PathLess(c[j], c[i]) {
            PathLessStrictTotal(c[j], c[i], c[best]);
          }
          PathLessStrictTotal(c[i], c[i], c[i]);
          best := i;
        }
        i := i + 1;
      }
      RemoveMinimal(c, best);
      cur := c[best];
      candidates := RemoveAt(c, best);
      results := results + [cur];
    }

    /** Some result has `start`, at its first occurrence, followed by
        `end`. */
    predicate UsedInResults(start: int, end: int)
      reads this
    {
      exists r :: 0 <= r < |results| && FollowedBy(results[r].vertices, start, end)
    }

    /** `_EdgeHasBeenUsed` (QYKShortestPaths.cpp:343-367). */
    method EdgeHasBeenUsed(start: int, end: int) returns (b: bool)
      ensures b <==> UsedInResults(start, end)
    {
      var i := 0;
      while i < |results|
        invariant 0 <= i <= |results|
        invariant forall r :: 0 <= r < i ==> !FollowedBy(results[r].vertices, start, end)
      {
        var list := results[i].vertices;
        var loc := 0;
        while loc < |list| && list[loc] != start
          invariant 0 <= loc <= |list|
          invariant forall l :: 0 <= l < loc ==> list[l] != start
        {
          loc := loc + 1;
        }
        assert loc == IndexOf(list, start);
        if loc < |list| {
          loc := loc + 1;
          if loc < |list| && list[loc] == end {
            return true;
          }
        }
        i := i + 1;
      }
      return false;
    }

    /** Exchange the weights of (i, j) and (j, i) when either is
        connected; the number of finite arcs among the first V vertices
        stays the same. */
    method SwapIfConnected(g: DirectedGraph, i: int, j: int)
      requires 0 <= j < i < g.numberOfVertices
      modifies g
      ensures g.edges == if Weight(old(g.edges), i, j).Fin? || Weight(old(g.edges), j, i).Fin?
                         then SwapWeights(old(g.edges), i, j) else old(g.edges)
      ensures g.numberOfVertices == old(g.numberOfVertices) && g.numberOfEdges == old(g.numberOfEdges)
      ensures |FiniteCells(g.edges, g.numberOfVertices)| == |FiniteCells(old(g.edges), g.numberOfVertices)|
      ensures FiniteInRange(old(g.edges), g.numberOfVertices) ==> FiniteInRange(g.edges, g.numberOfVertices)
    {
      var V := g.numberOfVertices;
      if g.GetWeight(i, j).Fin? || g.GetWeight(j, i).Fin? {
        var tmp := g.GetWeight(i, j);
        FiniteCellsUpdate(g.edges, V, i, j, g.GetWeight(j, i));
        g.SetWeight(i, j, g.GetWeight(j, i));
        FiniteCellsUpdate(g.edges, V, j, i, tmp);
        g.SetWeight(j, i, tmp);
      }
    }

    /** `_ReverseEdgesInGraph` (QYKShortestPaths.cpp:321-338): swap the
        weights of (i, j) and (j, i) for every pair of distinct vertices
        where either is connected. The counters stay, and so does the
        number of finite arcs. */
    method ReverseEdgesInGraph(g: DirectedGraph)
      modifies g
      ensures forall a, b :: g.GetWeight(a, b) == ReversedWeight(old(g.edges), g.numberOfVertices, a, b)
      ensures g.numberOfVertices == old(g.numberOfVertices) && g.numberOfEdges == old(g.numberOfEdges)
      ensures old(g.Counted()) ==> g.Counted()
    {
      ghost var m0 := g.edges;
      var V := g.GetNumberOfVertices();
      var i := 0;
      while i < V
        invariant 0 <= i <= V
        invariant g.numberOfVertices == V && g.numberOfEdges == old(g.numberOfEdges)
        invariant forall a, b :: Weight(g.edges, a, b) == PartialReverse(m0, i, 0, a, b)
        invariant |FiniteCells(g.edges, V)| == |FiniteCells(m0, V)|
        invariant FiniteInRange(m0, V) ==> FiniteInRange(g.edges, V)
      {
        var j := 0;
        while j < i
          invariant 0 <= j <= i
          invariant g.numberOfVertices == V && g.numberOfEdges == old(g.numberOfEdges)
          invariant forall a, b :: Weight(g.edges, a, b) == PartialReverse(m0, i, j, a, b)
          invariant |FiniteCells(g.edges, V)| == |FiniteCells(m0, V)|
          invariant FiniteInRange(m0, V) ==> FiniteInRange(g.edges, V)
        {
          SwapStep(g.edges, m0, i, j);
          SwapIfConnected(g, i, j);
          j := j + 1;
        }
        assert forall a, b :: PartialReverse(m0, i, i, a, b) == PartialReverse(m0, i + 1, 0, a, b);
        i := i + 1;
      }
      assert forall a, b :: PartialReverse(m0, V, 0, a, b) == ReversedWeight(m0, V, a, b);
    }

    /** Disconnect every arc from `remove` to a vertex below V, counting
        down the edge counter for each that was connected. */
    method CutRow(g: DirectedGraph, remove: int)
      requires g.Counted()
      modifies g
      ensures g.numberOfVertices == old(g.numberOfVertices) && g.Counted()
      ensures forall a, b :: Weight(g.edges, a, b) ==
                if a == remove && 0 <= b < g.numberOfVertices then Inf else Weight(old(g.edges), a, b)
    {
      var V := g.GetNumberOfVertices();
      var j := 0;
      while j < V
        invariant 0 <= j <= V
        invariant g.numberOfVertices == V && g.Counted()
        invariant forall a, b :: Weight(g.edges, a, b) == if a == remove && 0 <= b < j then Inf else Weight(old(g.edges), a, b)
      {
        var count := g.GetNumberOfEdges();
        if g.GetWeight(remove, j).Fin? {
          FiniteCellsUpdate(g.edges, V, remove, j, Inf);
          g.SetWeight(remove, j, Inf);
          count := count - 1;
        }
        g.SetNumberOfEdges(count);
        j := j + 1;
      }
    }

    /** Disconnect the arcs leaving each vertex of `rows`. */
    method CutRows(g: DirectedGraph, rows: seq<int>)
      requires g.Counted()
      modifies g
      ensures g.numberOfVertices == old(g.numberOfVertices) && g.Counted()
      ensures forall a, b :: Weight(g.edges, a, b) == PrunedWeight(old(g.edges), rows, g.numberOfVertices, a, b)
    {
      ghost var m0 := g.edges;
      var V := g.GetNumberOfVertices();
      var i := 0;
      while i < |rows|
        invariant 0 <= i <= |rows|
        invariant g.numberOfVertices == V && g.Counted()
        invariant forall a, b :: Weight(g.edges, a, b) == PrunedWeight(m0, rows[..i], V, a, b)
      {
        CutRow(g, rows[i]);
        assert rows[..i + 1] == rows[..i] + [rows[i]];
        i := i + 1;
      }
      assert rows[..i] == rows;
    }

    /** Reverse `g`, build a shortest-path tree from the target on it,
        and reverse `g` back: the weights end as they began, and the
        tree's arcs are arcs of `g` read backwards. */
    method TreeToTarget(g: DirectedGraph, dijkstra: Dijkstra) returns (tree: ShortestPath)
      requires SoundDijkstra(dijkstra)
      requires g.Counted() && 0 <= target < g.numberOfVertices
      modifies g
      ensures fresh(tree) && tree.graph == g
      ensures g.numberOfVertices == old(g.numberOfVertices) && g.Counted()
      ensures forall a, b :: Weight(g.edges, a, b) == Weight(old(g.edges), a, b)
      ensures tree.Tree() && tree.sourceNodeId == target && tree.treeVertices == g.numberOfVertices
      ensures |tree.treeArcs| == |tree.treeWeights|
      ensures forall k :: 0 <= k < |tree.treeArcs| ==>
                Weight(g.edges, tree.treeArcs[k].1, tree.treeArcs[k].0) == Fin(tree.treeWeights[k])
    {
      var V := g.GetNumberOfVertices();
      ghost var m0 := g.edges;
      ReverseEdgesInGraph(g);
      ghost var reversed := g.edges;
      tree := new ShortestPath(g);
      FiniteCellsMembers(reversed, V);
      tree.ConstructPathTree(target, dijkstra);
      ReverseEdgesInGraph(g);
      ReverseInvolution(m0, reversed, g.edges, V);
      forall k | 0 <= k < |tree.treeArcs|
        ensures Weight(g.edges, tree.treeArcs[k].1, tree.treeArcs[k].0) == Fin(tree.treeWeights[k])
      {
        assert tree.treeArcs[k] in FiniteCells(reversed, V);
      }
    }

    /** `_DetermineCost2Target` (QYKShortestPaths.cpp:150-186): on the
        intermediate graph, disconnect every arc leaving a path vertex
        other than the last, reverse the graph, run Dijkstra from the
        target, and reverse back. The graph ends with exactly the cut arcs
        removed; the new tree's arcs are the remaining arcs reversed. */
    method DetermineCost2Target(vertices: seq<int>, dijkstra: Dijkstra)
      requires SoundDijkstra(dijkstra)
      requires intermediate != null && intermediate != graph && intermediate.Counted()
      requires 0 <= target < intermediate.numberOfVertices
      modifies this, intermediate
      ensures intermediate == old(intermediate) && sp != null && fresh(sp) && sp.graph == intermediate
      ensures intermediate.numberOfVertices == old(intermediate.numberOfVertices) && intermediate.Counted()
      ensures forall a, b :: intermediate.GetWeight(a, b) ==
                PrunedWeight(old(intermediate.edges), if |vertices| > 0 then vertices[..|vertices| - 1] else [],
                             intermediate.numberOfVertices, a, b)
      ensures sp.Tree() && sp.sourceNodeId == target && sp.treeVertices == intermediate.numberOfVertices
      ensures |sp.treeArcs| == |sp.treeWeights|
      ensures forall k :: 0 <= k < |sp.treeArcs| ==>
                intermediate.GetWeight(sp.treeArcs[k].1, sp.treeArcs[k].0) == Fin(sp.treeWeights[k])
      ensures results == old(results) && candidates == old(candidates) && deviatedNode == old(deviatedNode)
    {
      var g := intermediate;
      CutRows(g, if |vertices| > 0 then vertices[..|vertices| - 1] else []);
      var tree := TreeToTarget(g, dijkstra);
      sp := tree;
    }

    /** `_UpdateWeight4CostUntilNode` (QYKShortestPaths.cpp:285-316): a
        worklist pass from `node` over the arcs into each listed vertex,
        lowering a vertex's distance when the arc into a listed vertex
        gives a shorter route and recording that vertex as its next node.
        No distance grows, and every vertex whose distance changed is
        linked to a next node that bounds it. */
    method UpdateWeight4CostUntilNode(node: int)
      requires sp != null && intermediate != null
      modifies sp
      ensures Relabelled(old(sp.distanceMap), sp.distanceMap, sp.nextNodeMap, intermediate.edges)
      ensures sp.arcs == old(sp.arcs) && sp.weights == old(sp.weights) && sp.sourceNodeId == old(sp.sourceNodeId)
    {
      var V := intermediate.GetNumberOfVertices();
      var list := [node];
      var pos := 0;
      ghost var d0 := sp.distanceMap;
      while pos < |list|
        invariant 0 < |list| && 0 <= pos <= |list| && list[0] == node
        invariant NoDuplicates(list) && forall k :: 1 <= k < |list| ==> 0 <= list[k] < V
        invariant Relabelled(d0, sp.distanceMap, sp.nextNodeMap, intermediate.edges)
        invariant sp.arcs == old(sp.arcs) && sp.weights == old(sp.weights) && sp.sourceNodeId == old(sp.sourceNodeId)
        decreases V + 1 - pos
      {
        DistinctBounded(list[1..], V);
        var cur := list[pos];
        pos := pos + 1;
        var i := 0;
        while i < V
          invariant 0 <= i <= V && 0 < pos <= |list| && list[0] == node
          invariant NoDuplicates(list) && forall k :: 1 <= k < |list| ==> 0 <= list[k] < V
          invariant Relabelled(d0, sp.distanceMap, sp.nextNodeMap, intermediate.edges)
          invariant sp.arcs == old(sp.arcs) && sp.weights == old(sp.weights) && sp.sourceNodeId == old(sp.sourceNodeId)
        {
          var edgeWeight := intermediate.GetWeight(i, cur);
          var costNode := sp.GetDistance(i);
          var costCurNode := sp.GetDistance(cur);
          if edgeWeight.Fin? && costCurNode.Plus(edgeWeight).Below(costNode) {
            RelaxPreserves(d0, sp.distanceMap, sp.nextNodeMap, intermediate.edges, i, cur);
            sp.SetDistance(i, costCurNode.Plus(edgeWeight));
            sp.SetNextNodeId(i, cur);
            if i !in list {
              list := list + [i];
            }
          }
          i := i + 1;
        }
      }
    }

    /** The weights after the first pass of `_RestoreEdges4CostAjustment`
        has looked at the vertices below `upTo`: an arc of the original
        graph from `start` to a vertex other than `start` and `end` is put
        back, unless this is the deviation vertex and a result already
        uses the arc. */
    ghost function FirstPassWeight(e0: WeightMap, start: int, end: int, isDeviated: bool, upTo: int, a: int, b: int): Cost
      reads this, graph
    {
      if a == start && b != start && b != end && 0 <= b < upTo
         && Weight(graph.edges, start, b).Fin? && !(isDeviated && UsedInResults(start, b))
      then Weight(graph.edges, start, b)
      else Weight(e0, a, b)
    }

    /** The first pass of `_RestoreEdges4CostAjustment`
        (QYKShortestPaths.cpp:191-222): restore the arcs leaving `start`
        and lower its distance when a restored arc gives a shorter route.
        Only `start`'s distance changes, and it changes exactly when
        `updated`; then it is linked to a restored neighbour. */
    method RestoreArcsFrom(start: int, end: int, isDeviated: bool) returns (updated: bool)
      requires intermediate != null && sp != null && intermediate != graph
      modifies intermediate, sp
      ensures intermediate.numberOfVertices == old(intermediate.numberOfVertices)
      ensures forall a, b :: Weight(intermediate.edges, a, b) ==
                FirstPassWeight(old(intermediate.edges), start, end, isDeviated, intermediate.numberOfVertices, a, b)
      ensures forall v :: v != start ==> Dist(sp.distanceMap, v) == Dist(old(sp.distanceMap), v)
      ensures updated ==> Dist(sp.distanceMap, start).Below(Dist(old(sp.distanceMap), start))
      ensures !updated ==> Dist(sp.distanceMap, start) == Dist(old(sp.distanceMap), start)
      ensures updated ==> LinkedIn(sp.distanceMap, sp.nextNodeMap, intermediate.edges, start)
    {
      var V := intermediate.GetNumberOfVertices();
      ghost var e0 := intermediate.edges;
      ghost var d0 := sp.distanceMap;
      updated := false;
      var i := 0;
      while i < V
        invariant 0 <= i <= V && intermediate.numberOfVertices == V
        invariant forall a, b :: Weight(intermediate.edges, a, b) == FirstPassWeight(e0, start, end, isDeviated, i, a, b)
        invariant forall v :: v != start ==> Dist(sp.distanceMap, v) == Dist(d0, v)
        invariant updated ==> Dist(sp.distanceMap, start).Below(Dist(d0, start))
        invariant !updated ==> Dist(sp.distanceMap, start) == Dist(d0, start)
        invariant updated ==> 0 <= NextOf(sp.distanceMap, sp.nextNodeMap, start) < i
        invariant updated ==> LinkedIn(sp.distanceMap, sp.nextNodeMap, intermediate.edges, start)
      {
        ghost var e1 := intermediate.edges;
        if i != end && i != start {
          ghost var d1 := sp.distanceMap;
          var lowered := RestoreArc(start, i, isDeviated);
          if lowered {
            CostMonotone(Dist(sp.distanceMap, start), Dist(d1, start), Dist(d0, start), Inf);
            updated := true;
          }
        }
        forall a, b ensures Weight(intermediate.edges, a, b) == FirstPassWeight(e0, start, end, isDeviated, i + 1, a, b) {
          if (a, b) != (start, i) {
            assert Weight(intermediate.edges, a, b) == Weight(e1, a, b);
          }
        }
        i := i + 1;
      }
    }

    /** One step of the first pass: restore the arc from `start` to `i`
        if the original graph has it (and, at the deviation vertex, no
        result uses it), and route `start` through `i` when that is
        shorter. */
    method RestoreArc(start: int, i: int, isDeviated: bool) returns (lowered: bool)
      requires intermediate != null && sp != null && intermediate != graph && i != start
      modifies intermediate, sp
      ensures intermediate.numberOfVertices == old(intermediate.numberOfVertices)
      ensures intermediate.edges ==
                if Weight(graph.edges, start, i).Fin? && !(isDeviated && UsedInResults(start, i))
                then old(intermediate.edges)[(start, i) := Weight(graph.edges, start, i)] else old(intermediate.edges)
      ensures lowered ==> Weight(graph.edges, start, i).Fin? && !(isDeviated && UsedInResults(start, i))
      ensures lowered ==> Dist(old(sp.distanceMap), i).Fin?
                          && sp.distanceMap == old(sp.distanceMap)[start := Weight(graph.edges, start, i).Plus(Dist(old(sp.distanceMap), i))]
                          && sp.nextNodeMap == old(sp.nextNodeMap)[start := i]
                          && Weight(graph.edges, start, i).Plus(Dist(old(sp.distanceMap), i)).Below(Dist(old(sp.distanceMap), start))
      ensures !lowered ==> sp.distanceMap == old(sp.distanceMap) && sp.nextNodeMap == old(sp.nextNodeMap)
    {
      lowered := false;
      var edgeWeight := graph.GetWeight(start, i);
      if edgeWeight.Fin? {
        var used := false;
        if isDeviated {
          used := EdgeHasBeenUsed(start, i);
        }
        if !used {
          intermediate.SetWeight(start, i, edgeWeight);
          var nodeCost := sp.GetDistance(i);
          if nodeCost.Fin? && edgeWeight.Plus(nodeCost).Below(sp.GetDistance(start)) {
            sp.SetDistance(start, edgeWeight.Plus(nodeCost));
            sp.SetNextNodeId(start, i);
            lowered := true;
          }
        }
      }
    }

    /** A candidate built from `vertices` at `start`: the given id, the
        original graph's weight as cost, the vertices before the first
        `start` kept, then `start`, ending at the target. */
    ghost predicate Deviation(p: DirectedPath, vertices: seq<int>, start: int, id: int)
      reads graph
    {
      var idx := IndexOf(vertices, start);
      p.id == id && p.cost == PathWeight(graph.edges, p.vertices)
      && idx + 1 < |p.vertices| && p.vertices[..idx] == vertices[..idx] && p.vertices[idx] == start
      && p.vertices[|p.vertices| - 1] == target
    }

    /** The next-node walk of `_RestoreEdges4CostAjustment`
        (QYKShortestPaths.cpp:245-252): from `start`, follow the recorded
        next nodes until the target is next. `reached` is false when the
        target is not met within V + 1 links. */
    method WalkToTarget(start: int) returns (walk: seq<int>, reached: bool)
      requires sp != null
      ensures |walk| > 0 && walk[0] == start
      ensures forall k :: 0 <= k < |walk| - 1 ==> sp.GetNextNodeId(walk[k]) == walk[k + 1]
      ensures reached ==> sp.GetNextNodeId(walk[|walk| - 1]) == target
      ensures forall k :: 0 <= k < |walk| - 1 ==> sp.GetNextNodeId(walk[k]) != target
    {
      walk := [start];
      var next := sp.GetNextNodeId(start);
      var fuel := graph.GetNumberOfVertices() + 1;
      while next != target && fuel > 0
        invariant |walk| > 0 && walk[0] == start && next == sp.GetNextNodeId(walk[|walk| - 1])
        invariant forall k :: 0 <= k < |walk| - 1 ==> sp.GetNextNodeId(walk[k]) == walk[k + 1]
        invariant forall k :: 0 <= k < |walk| - 1 ==> sp.GetNextNodeId(walk[k]) != target
        decreases fuel
      {
        walk := walk + [next];
        next := sp.GetNextNodeId(next);
        fuel := fuel - 1;
      }
      reached := next == target;
    }

    /** The cost loop of `_RestoreEdges4CostAjustment`
        (QYKShortestPaths.cpp:255-260): the original graph's weight of
        the vertex list. */
    method PriceOnGraph(np: seq<int>) returns (cost: Cost)
      ensures cost == PathWeight(graph.edges, np)
    {
      cost := Fin(0);
      if |np| == 0 {
        return;
      }
      var j := 0;
      while j < |np| - 1
        invariant 0 <= j <= |np| - 1 && cost == PathWeight(graph.edges, np[..j + 1])
      {
        assert np[..j + 2][..j + 1] == np[..j + 1];
        cost := cost.Plus(graph.GetWeight(np[j], np[j + 1]));
        j := j + 1;
      }
      assert np[..j + 1] == np;
    }

    /** The candidate part of `_RestoreEdges4CostAjustment`
        (QYKShortestPaths.cpp:225-264): the vertices of `vertices` before
        `start`, then the next-node links from `start` until the target,
        priced on the original graph, with id the number of candidates
        plus results; the id's deviation vertex is `start`. A walk that
        has not met the target after V + 1 links adds nothing. */
    method BuildCandidate(vertices: seq<int>, start: int)
      requires sp != null && Valid() && start in vertices && Runs(vertices, source, target)
      modifies this
      ensures sp == old(sp) && intermediate == old(intermediate) && results == old(results) && Valid()
      ensures candidates == old(candidates)
              || (|candidates| == |old(candidates)| + 1 && candidates[..|old(candidates)|] == old(candidates)
                  && Deviation(candidates[|old(candidates)|], vertices, start, |old(candidates)| + |old(results)|)
                  && forall k :: IndexOf(vertices, start) <= k < |candidates[|old(candidates)|].vertices| - 1 ==>
                       sp.GetNextNodeId(candidates[|old(candidates)|].vertices[k]) == candidates[|old(candidates)|].vertices[k + 1])
    {
      var prefix := PrefixBefore(vertices, start);
      var walk, reached := WalkToTarget(start);
      if !reached {
        return;
      }
      AddDeviation(vertices, start, prefix, walk);
    }

    /** Price `prefix + walk + [target]` on the original graph and insert
        it as a candidate whose deviation vertex is `start`
        (QYKShortestPaths.cpp:252-263). */
    method AddDeviation(vertices: seq<int>, start: int, prefix: seq<int>, walk: seq<int>)
      requires sp != null && Valid() && start in vertices && Runs(vertices, source, target)
      requires prefix == vertices[..IndexOf(vertices, start)]
      requires |walk| > 0 && walk[0] == start
      requires forall k :: 0 <= k < |walk| - 1 ==> sp.GetNextNodeId(walk[k]) == walk[k + 1]
      requires sp.GetNextNodeId(walk[|walk| - 1]) == target
      modifies this`candidates, this`deviatedNode
      ensures Valid()
      ensures candidates == old(candidates)
              || (|candidates| == |old(candidates)| + 1 && candidates[..|old(candidates)|] == old(candidates)
                  && Deviation(candidates[|old(candidates)|], vertices, start, |old(candidates)| + |results|)
                  && forall k :: IndexOf(vertices, start) <= k < |candidates[|old(candidates)|].vertices| - 1 ==>
                       sp.GetNextNodeId(candidates[|old(candidates)|].vertices[k]) == candidates[|old(candidates)|].vertices[k + 1])
    {
      ghost var idx := |prefix|;
      var np := prefix + walk + [target];
      forall k | idx <= k < |np| - 1 ensures sp.GetNextNodeId(np[k]) == np[k + 1] {
        assert np[k] == walk[k - idx];
        if k - idx < |walk| - 1 {
          assert np[k + 1] == walk[k + 1 - idx];
        }
      }
      var cost := PriceOnGraph(np);
      var id := |candidates| + |results|;
      var p := DirectedPath(id, cost, np);
      assert Runs(np, source, target) by {
        if idx == 0 { assert vertices[0] == start; } else { assert np[0] == vertices[0]; }
      }
      assert np[idx] == start;
      assert np[..idx] == vertices[..idx];
      InsertKeepsPool(candidates, results, deviatedNode, source, target, p, start);
      InsertCandidate(p);
      deviatedNode := deviatedNode[id := start];
    }

    /** The first pass and the candidate of `_RestoreEdges4CostAjustment`
        (QYKShortestPaths.cpp:191-264); `costStart` is `start`'s distance
        right after the first pass. */
    method CandidatePass(vertices: seq<int>, start: int, end: int, isDeviated: bool) returns (costStart: Cost)
      requires intermediate != null && sp != null && intermediate != graph
      requires Valid() && start in vertices && Runs(vertices, source, target)
      modifies this, intermediate, sp
      ensures intermediate == old(intermediate) && sp == old(sp) && results == old(results) && Valid()
      ensures intermediate.numberOfVertices == old(intermediate.numberOfVertices)
      ensures forall a, b :: Weight(intermediate.edges, a, b) ==
                FirstPassWeight(old(intermediate.edges), start, end, isDeviated, intermediate.numberOfVertices, a, b)
      ensures candidates == old(candidates)
              || (|candidates| == |old(candidates)| + 1 && candidates[..|old(candidates)|] == old(candidates)
                  && Deviation(candidates[|old(candidates)|], vertices, start, |old(candidates)| + |old(results)|))
    {
      var updated := RestoreArcsFrom(start, end, isDeviated);
      costStart := sp.GetDistance(start);
      if costStart.Fin? {
        if updated {
          UpdateWeight4CostUntilNode(start);
        }
        BuildCandidate(vertices, start);
      }
    }

    /** The closing step of `_RestoreEdges4CostAjustment`
        (QYKShortestPaths.cpp:266-280): restore the arc from `start` to
        `end`, and route `start` through it when that is shorter than
        `costStart`. Only that arc's weight changes. */
    method RestoreLastArc(start: int, end: int, costStart: Cost)
      requires intermediate != null && sp != null && intermediate != graph
      modifies intermediate, sp
      ensures intermediate.numberOfVertices == old(intermediate.numberOfVertices)
      ensures forall a, b :: Weight(intermediate.edges, a, b) ==
                if (a, b) == (start, end) then Weight(graph.edges, start, end) else Weight(old(intermediate.edges), a, b)
    {
      var edgeWeight := graph.GetWeight(start, end);
      var costEnd := sp.GetDistance(end);
      intermediate.SetWeight(start, end, edgeWeight);
      if edgeWeight.Plus(costEnd).Below(costStart) {
        sp.SetDistance(start, edgeWeight.Plus(costEnd));
        sp.SetNextNodeId(start, end);
        UpdateWeight4CostUntilNode(start);
      }
    }

    /** `_RestoreEdges4CostAjustment` (QYKShortestPaths.cpp:191-281):
        restore the arcs leaving `start` (the first pass), possibly add a
        candidate through `start`, then restore the arc from `start` to
        `end` and lower `start`'s distance through it when that is
        shorter than `start`'s distance after the first pass. */
    method RestoreEdges4CostAdjustment(vertices: seq<int>, start: int, end: int, isDeviated: bool)
      requires intermediate != null && sp != null && intermediate != graph
      requires Valid() && start in vertices && Runs(vertices, source, target)
      modifies this, intermediate, sp
      ensures intermediate == old(intermediate) && sp == old(sp) && results == old(results) && Valid()
      ensures intermediate.numberOfVertices == old(intermediate.numberOfVertices)
      ensures forall a, b :: Weight(intermediate.edges, a, b) ==
                if (a, b) == (start, end) then Weight(graph.edges, start, end)
                else FirstPassWeight(old(intermediate.edges), start, end, isDeviated, intermediate.numberOfVertices, a, b)
      ensures candidates == old(candidates)
              || (|candidates| == |old(candidates)| + 1 && candidates[..|old(candidates)|] == old(candidates)
                  && Deviation(candidates[|old(candidates)|], vertices, start, |old(candidates)| + |old(results)|))
      ensures PathsPriced(old(candidates), graph.edges) ==> PathsPriced(candidates, graph.edges)
    {
      var costStart := CandidatePass(vertices, start, end, isDeviated);
      ghost var e1 := intermediate.edges;
      RestoreLastArc(start, end, costStart);
      assert forall a, b :: Weight(intermediate.edges, a, b) ==
                (if (a, b) == (start, end) then Weight(graph.edges, start, end) else Weight(e1, a, b));
      if candidates != old(candidates) {
        PricedExtended(old(candidates), candidates, graph.edges);
      }
    }

    /** One deviation round of `_SearchTopKShortestPaths`
        (QYKShortestPaths.cpp:124-142): on a fresh copy of the graph, cut
        the arcs of `cur` and compute distances to the target, then
        restore arcs from the second-to-last vertex of `cur` back to its
        deviation vertex, which is restored last. Results stay; candidates
        may only be added. */
    method DeviateFrom(cur: DirectedPath, dijkstra: Dijkstra)
      requires SoundDijkstra(dijkstra)
      requires Valid() && graph.Counted() && 0 <= target < graph.numberOfVertices
      requires Runs(cur.vertices, source, target) && cur.id in deviatedNode && deviatedNode[cur.id] in cur.vertices
      modifies this
      ensures Valid() && results == old(results)
      ensures |candidates| >= |old(candidates)| && candidates[..|old(candidates)|] == old(candidates)
      ensures PathsPriced(old(candidates), graph.edges) ==> PathsPriced(candidates, graph.edges)
    {
      var deviated := if cur.id in deviatedNode then deviatedNode[cur.id] else 0;
      var vs := cur.vertices;
      var copy := new DirectedGraph.Copy(graph);
      intermediate := copy;
      DetermineCost2Target(vs, dijkstra);
      var i := |vs| - 2;
      while i >= 0 && vs[i] != deviated
        invariant -1 <= i <= |vs| - 2
        invariant intermediate == copy && sp != null && fresh(sp) && intermediate != graph
        invariant Valid() && results == old(results)
        invariant |candidates| >= |old(candidates)| && candidates[..|old(candidates)|] == old(candidates)
        invariant PathsPriced(old(candidates), graph.edges) ==> PathsPriced(candidates, graph.edges)
        decreases i + 1
      {
        RestoreEdges4CostAdjustment(vs, vs[i], vs[i + 1], false);
        i := i - 1;
      }
      RestoreEdges4CostAdjustment(vs, deviated, vs[i + 1], true);
    }

    /** The main loop of `_SearchTopShortestPaths`
        (QYKShortestPaths.cpp:105-145): move the least candidate to the
        results and deviate from it, until there are no candidates or
        `topK` results. */
    method SelectPaths(ghost first: DirectedPath, dijkstra: Dijkstra)
      requires SoundDijkstra(dijkstra)
      requires Valid() && graph.Counted() && 0 <= target < graph.numberOfVertices
      requires results == [] && candidates == [first] && PathsPriced(candidates, graph.edges)
      modifies this
      ensures |results| <= if topK < 0 then 0 else topK
      ensures topK > 0 ==> |results| > 0 && results[0] == first
      ensures topK <= 0 ==> results == []
      ensures forall k :: 0 <= k < |results| ==> Runs(results[k].vertices, source, target)
      ensures PathsPriced(results, graph.edges)
    {
      ghost var V := graph.numberOfVertices;
      var curPathId := 0;
      while |candidates| != 0 && curPathId < topK
        invariant Valid() && graph.Counted() && graph.numberOfVertices == V
        invariant curPathId == |results| && |results| <= if topK < 0 then 0 else topK
        invariant results == [] ==> candidates == [first]
        invariant |results| > 0 ==> results[0] == first
        invariant PathsPriced(candidates, graph.edges) && PathsPriced(results, graph.edges)
        decreases topK - curPathId
      {
        ghost var before := candidates;
        var cur := TakeNext();
        assert forall p :: p in candidates ==> p in multiset(before);
        if |results| == topK {
          break;
        }
        curPathId := curPathId + 1;
        DeviateFrom(cur, dijkstra);
      }
    }

    /** `GetTopKShortestPaths` and `_SearchTopKShortestPaths`
        (QYKShortestPaths.cpp:67-146): the shortest path seeds the
        candidates with id 0 and deviation vertex `source`; then, while
        there are candidates and fewer than `topK` results, the least
        candidate becomes a result and, unless `topK` results are
        reached, is deviated from. Without a path to the target
        (`first.id < 0`) there are no results; otherwise the first result
        is that shortest path, there are at most `topK` results, and each
        runs from the source to the target. */
    method GetTopKShortestPaths(dijkstra: Dijkstra) returns (paths: seq<DirectedPath>, ghost first: DirectedPath)
      requires SoundDijkstra(dijkstra)
      requires graph.Counted() && source < graph.numberOfVertices
      requires results == [] && candidates == [] && deviatedNode == map[]
      modifies this
      ensures paths == results
      ensures (target < 0 || target >= graph.numberOfVertices) ==> first.id == -1
      ensures first.id >= 0 ==> first.id == 0 && first.cost.Fin? && Runs(first.vertices, source, target)
      ensures first.id < 0 || topK <= 0 ==> paths == []
      ensures first.id >= 0 && topK > 0 ==> |paths| > 0 && paths[0] == first
      ensures |paths| <= if topK < 0 then 0 else topK
      ensures forall k :: 0 <= k < |paths| ==> Runs(paths[k].vertices, source, target)
      ensures SearchResult(paths, graph.edges, source, target, topK)
    {
      var V := graph.GetNumberOfVertices();
      var tree := new ShortestPath(graph);
      sp := tree;
      FiniteCellsMembers(graph.edges, V);
      var shortest := tree.GetShortestPath(source, target, dijkstra);
      first := shortest;
      if shortest.id < 0 {
        return results, first;
      }
      shortest := shortest.(id := 0);
      first := shortest;
      assert shortest.vertices[0] == source;
      assert PoolValid([shortest], [], map[0 := source], source, target);
      candidates := [shortest];
      deviatedNode := map[0 := source];
      SelectPaths(first, dijkstra);
      paths := results;
      assert Cheapest(first, graph.edges, source, target);
      forall i | 0 <= i < |paths|
        ensures paths[i].cost == PathWeight(graph.edges, paths[i].vertices) && first.cost.AtMost(paths[i].cost)
      {
        assert paths[i] in paths;
        assert Runs(paths[i].vertices, source, target);
      }
    }
  }
}
