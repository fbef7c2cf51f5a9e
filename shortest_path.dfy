// Single-source shortest paths of the k-shortest-paths library
// (`CQYShortestPath` in QYShortestPath.h/.cpp). Boost's
// `dijkstra_shortest_paths` is not modelled; it is an oracle passed in
// as a function and constrained only by what it computes: a
// shortest-path tree over the arcs it is handed.

module ShortestPaths {
  import opened Common
  import opened DirectedPaths
  import opened DirectedGraphs

  /** `CQYDirectedGraph::DEADEND`. */
  const DEADEND: int := -1

  predicate ArcsInRange(arcs: seq<(int, int)>, V: nat)
  {
    forall k :: 0 <= k < |arcs| ==> 0 <= arcs[k].0 < V && 0 <= arcs[k].1 < V
  }

  /** `idx` lists arc positions that form a walk from `s` to `v`. */
  ghost predicate IsWalk(arcs: seq<(int, int)>, s: int, v: int, idx: seq<nat>)
    decreases |idx|
  {
    if idx == [] then v == s
    else
      var last := idx[|idx| - 1];
      last < |arcs| && arcs[last].1 == v && IsWalk(arcs, s, arcs[last].0, idx[..|idx| - 1])
  }

  ghost function WalkWeight(ws: seq<nat>, idx: seq<nat>): nat
    requires forall k :: 0 <= k < |idx| ==> idx[k] < |ws|
    decreases |idx|
  {
    if idx == [] then 0 else WalkWeight(ws, idx[..|idx| - 1]) + ws[idx[|idx| - 1]]
  }

  /** What `dijkstra_shortest_paths` leaves in its distance and
      predecessor arrays for source `s` over arcs `arcs` with weights `ws`:
      the source at distance 0 and its own predecessor; no arc can
      shorten a distance; every other reached vertex has distance equal
      to its predecessor's plus the weight of an arc between them;
      unreached vertices are at `DISCONNECT` and are their own
      predecessor; and following predecessors from a reached vertex
      strictly descends in some rank, so it reaches the source. */
  ghost predicate IsShortestPathTree(arcs: seq<(int, int)>, ws: seq<nat>, V: nat, s: nat, dist: seq<Cost>, pred: seq<int>)
  {
    Relaxed(arcs, ws, V, s, dist) && |pred| == V && pred[s] == s
    && (forall v :: 0 <= v < V && dist[v].Inf? ==> pred[v] == v)
    && (forall v :: 0 <= v < V && v != s && dist[v].Fin? ==>
          0 <= pred[v] < V && dist[pred[v]].Fin? && Step(arcs, ws, dist, pred[v], v))
    && (exists rank: seq<nat> :: |rank| == V &&
          forall v :: 0 <= v < V && v != s && dist[v].Fin? ==> 0 <= pred[v] < V && rank[pred[v]] < rank[v])
  }

  /** The source is at distance 0 and no arc can shorten a distance. */
  ghost predicate Relaxed(arcs: seq<(int, int)>, ws: seq<nat>, V: nat, s: nat, dist: seq<Cost>)
  {
    |arcs| == |ws| && |dist| == V && s < V && dist[s] == Fin(0)
    && forall k :: 0 <= k < |arcs| && 0 <= arcs[k].0 < V && 0 <= arcs[k].1 < V ==>
         dist[arcs[k].1].AtMost(dist[arcs[k].0].Plus(Fin(ws[k])))
  }

  /** Some arc from `u` to `v` accounts exactly for the distance gap. */
  ghost predicate Step(arcs: seq<(int, int)>, ws: seq<nat>, dist: seq<Cost>, u: int, v: int)
    requires |arcs| == |ws|
  {
    0 <= u < |dist| && 0 <= v < |dist| && dist[u].Fin? && dist[v].Fin? &&
    exists k :: 0 <= k < |arcs| && arcs[k] == (u, v) && dist[v].n == dist[u].n + ws[k]
  }

  /** `v` is a reached vertex other than the source whose predecessor is `u`. */
  ghost predicate PredLink(pred: seq<int>, dist: seq<Cost>, s: int, u: int, v: int)
  {
    0 <= v < |pred| && 0 <= v < |dist| && pred[v] == u && v != s && dist[v].Fin?
  }

  /** The oracle for Boost's Dijkstra: arcs, weights, vertex count and
      source in; distances and predecessors out. */
  type Dijkstra = (seq<(int, int)>, seq<nat>, nat, nat) -> (seq<Cost>, seq<int>)

  ghost predicate SoundDijkstra(dijkstra: Dijkstra)
  {
    forall arcs, ws, V, s ::
      |arcs| == |ws| && s < V && ArcsInRange(arcs, V) ==>
        IsShortestPathTree(arcs, ws, V, s, dijkstra(arcs, ws, V, s).0, dijkstra(arcs, ws, V, s).1)
  }

  /** The tree distances are shortest: no walk from the source reaches
      a vertex more cheaply than its distance. */
  lemma {:induction false} DistanceIsMinimal(arcs: seq<(int, int)>, ws: seq<nat>, V: nat, s: nat,
                                             dist: seq<Cost>, v: int, idx: seq<nat>)
    requires Relaxed(arcs, ws, V, s, dist) && ArcsInRange(arcs, V)
    requires IsWalk(arcs, s, v, idx)
    ensures forall k :: 0 <= k < |idx| ==> idx[k] < |ws|
    ensures 0 <= v < V && dist[v].Fin? && dist[v].n <= WalkWeight(ws, idx)
    decreases |idx|
  {
    if idx != [] {
      var last := idx[|idx| - 1];
      var p := idx[..|idx| - 1];
      var u := arcs[last].0;
      DistanceIsMinimal(arcs, ws, V, s, dist, u, p);
      assert forall k :: 0 <= k < |p| ==> p[k] == idx[k];
      NoArcShortens(arcs, ws, V, s, dist, last);
      assert WalkWeight(ws, idx) == WalkWeight(ws, p) + ws[last];
    }
  }

  /** The arc at position `k` cannot shorten its head's distance. */
  lemma NoArcShortens(arcs: seq<(int, int)>, ws: seq<nat>, V: nat, s: nat, dist: seq<Cost>, k: nat)
    requires Relaxed(arcs, ws, V, s, dist) && ArcsInRange(arcs, V)
    requires k < |arcs|
    ensures 0 <= arcs[k].0 < V && 0 <= arcs[k].1 < V
    ensures dist[arcs[k].1].AtMost(dist[arcs[k].0].Plus(Fin(ws[k])))
  {
  }

  /** Each arc of `arcs` weighs in `ws` what `m` gives it. */
  ghost predicate Priced(arcs: seq<(int, int)>, ws: seq<nat>, m: WeightMap)
  {
    |arcs| == |ws| && forall k :: 0 <= k < |arcs| ==> Fin(ws[k]) == Weight(m, arcs[k].0, arcs[k].1)
  }

  /** Some vertex list from `s` to `t` has a finite weight in `m`. */
  ghost predicate Reachable(m: WeightMap, s: int, t: int)
  {
    exists vs :: Runs(vs, s, t) && PathWeight(m, vs).Fin?
  }

  /** `p` runs from `s` to `t`, costs its weight in `m`, and no vertex
      list from `s` to `t` weighs less. */
  ghost predicate Cheapest(p: DirectedPath, m: WeightMap, s: int, t: int)
  {
    Runs(p.vertices, s, t) && p.cost == PathWeight(m, p.vertices)
    && forall vs :: Runs(vs, s, t) ==> p.cost.AtMost(PathWeight(m, vs))
  }

  /** With the arcs being every finite pair of `m` at its weight, no
      vertex list from the source weighs less than the tree distance of
      its last vertex. */
  lemma {:induction false} NoWalkShorter(arcs: seq<(int, int)>, ws: seq<nat>, V: nat, s: nat,
                                         dist: seq<Cost>, m: WeightMap, vs: seq<int>)
    requires Relaxed(arcs, ws, V, s, dist) && Priced(arcs, ws, m) && FiniteInRange(m, V)
    requires forall a, b :: 0 <= a < V && 0 <= b < V && Weight(m, a, b).Fin? ==> (a, b) in arcs
    requires |vs| > 0 && vs[0] == s
    ensures PathWeight(m, vs).Fin? ==> 0 <= vs[|vs| - 1] < V && dist[vs[|vs| - 1]].AtMost(PathWeight(m, vs))
    decreases |vs|
  {
    if |vs| >= 2 && PathWeight(m, vs).Fin? {
      var init := vs[..|vs| - 1];
      var a, b := vs[|vs| - 2], vs[|vs| - 1];
      NoWalkShorter(arcs, ws, V, s, dist, m, init);
      assert init[|init| - 1] == a;
      assert PathWeight(m, vs) == PathWeight(m, init).Plus(Weight(m, a, b));
      assert (a, b) in m && m[(a, b)].Fin?;
      var k :| 0 <= k < |arcs| && arcs[k] == (a, b);
      assert dist[b].AtMost(dist[a].Plus(Fin(ws[k])));
    }
  }

  /** A list of tight steps from a vertex at distance 0 weighs the
      distance of its last vertex. */
  lemma {:induction false} StepsPriced(arcs: seq<(int, int)>, ws: seq<nat>, dist: seq<Cost>, m: WeightMap, vs: seq<int>)
    requires Priced(arcs, ws, m)
    requires |vs| > 0 && 0 <= vs[0] < |dist| && dist[vs[0]] == Fin(0)
    requires forall k :: 0 <= k < |vs| - 1 ==> Step(arcs, ws, dist, vs[k], vs[k + 1])
    ensures 0 <= vs[|vs| - 1] < |dist| && PathWeight(m, vs) == dist[vs[|vs| - 1]]
    decreases |vs|
  {
    if |vs| >= 2 {
      var init := vs[..|vs| - 1];
      assert forall k :: 0 <= k < |init| ==> init[k] == vs[k];
      StepsPriced(arcs, ws, dist, m, init);
      var a, b := vs[|vs| - 2], vs[|vs| - 1];
      assert Step(arcs, ws, dist, a, b);
      var j :| 0 <= j < |arcs| && arcs[j] == (a, b) && dist[b].n == dist[a].n + ws[j];
      assert PathWeight(m, vs) == PathWeight(m, init).Plus(Weight(m, a, b));
    }
  }

  class ShortestPath {
    const graph: DirectedGraph
    var arcs: seq<(int, int)>
    var weights: seq<nat>
    var distanceMap: map<int, Cost>
    var nextNodeMap: map<int, int>
    var sourceNodeId: int
    // The inputs of the last Dijkstra run.
    ghost var treeArcs: seq<(int, int)>
    ghost var treeWeights: seq<nat>
    ghost var treeVertices: nat

    /** Construction and `_Init` (QYShortestPath.cpp:39-67): no source
        yet, and the finite arcs between the graph's vertices in
        row-major order with their weights. */
    constructor (g: DirectedGraph)
      ensures graph == g && sourceNodeId == -1
      ensures arcs == FiniteCells(g.edges, g.numberOfVertices)
      ensures |weights| == |arcs| && forall k :: 0 <= k < |arcs| ==> Fin(weights[k]) == Weight(g.edges, arcs[k].0, arcs[k].1)
      ensures distanceMap == map[] && nextNodeMap == map[]
      ensures Mirrors()
    {
      var m := g.edges;
      var V := g.numberOfVertices;
      var es: seq<(int, int)> := [];
      var ws: seq<nat> := [];
      var i := 0;
      while i != V
        invariant 0 <= i <= V
        invariant es == Cells(m, V, i)
        invariant |ws| == |es| && forall k :: 0 <= k < |es| ==> Fin(ws[k]) == Weight(m, es[k].0, es[k].1)
      {
        var j := 0;
        while j != V
          invariant 0 <= j <= V
          invariant es == Cells(m, V, i) + RowCells(m, i, j)
          invariant |ws| == |es| && forall k :: 0 <= k < |es| ==> Fin(ws[k]) == Weight(m, es[k].0, es[k].1)
        {
          if g.GetWeight(i, j) != Inf {
            es := es + [(i, j)];
            ws := ws + [g.GetWeight(i, j).n];
          }
          j := j + 1;
        }
        i := i + 1;
      }
      graph := g;
      sourceNodeId := -1;
      arcs := es;
      weights := ws;
      distanceMap := map[];
      nextNodeMap := map[];
      treeArcs := [];
      treeWeights := [];
      treeVertices := 0;
    }

    /** The collected arcs are the graph's finite pairs, in row-major
        order, each with its weight. */
    ghost predicate Mirrors()
      reads this, graph
    {
      arcs == FiniteCells(graph.edges, graph.numberOfVertices) && Priced(arcs, weights, graph.edges)
    }

    /** `GetDistance`: `DISCONNECT` for a vertex without an entry. */
    function GetDistance(i: int): (d: Cost)
      reads this
      ensures i !in distanceMap ==> d == Inf
      ensures i in distanceMap ==> d == distanceMap[i]
    {
      if i in distanceMap then distanceMap[i] else Inf
    }

    /** `GetNextNodeId`: `DEADEND` when the distance map lacks the
        vertex, whatever the next-node map holds; `std::map::operator[]`
        reads 0 for a vertex with a distance but no next node. */
    function GetNextNodeId(i: int): (n: int)
      reads this
      ensures i !in distanceMap ==> n == DEADEND
      ensures i in distanceMap && i in nextNodeMap ==> n == nextNodeMap[i]
      ensures i in distanceMap && i !in nextNodeMap ==> n == 0
    {
      if i !in distanceMap then DEADEND else if i in nextNodeMap then nextNodeMap[i] else 0
    }

    method SetDistance(i: int, v: Cost)
      modifies this
      ensures GetDistance(i) == v
      ensures distanceMap == old(distanceMap)[i := v]
      ensures nextNodeMap == old(nextNodeMap) && sourceNodeId == old(sourceNodeId)
      ensures arcs == old(arcs) && weights == old(weights)
      ensures treeArcs == old(treeArcs) && treeWeights == old(treeWeights) && treeVertices == old(treeVertices)
    {
      distanceMap := distanceMap[i := v];
    }

    /** `SetNextNodeId`: read back by `GetNextNodeId` when the vertex has
        a distance. */
    method SetNextNodeId(i: int, v: int)
      modifies this
      ensures i in distanceMap ==> GetNextNodeId(i) == v
      ensures i !in distanceMap ==> GetNextNodeId(i) == DEADEND
      ensures nextNodeMap == old(nextNodeMap)[i := v]
      ensures distanceMap == old(distanceMap) && sourceNodeId == old(sourceNodeId)
      ensures arcs == old(arcs) && weights == old(weights)
      ensures treeArcs == old(treeArcs) && treeWeights == old(treeWeights) && treeVertices == old(treeVertices)
    {
      nextNodeMap := nextNodeMap[i := v];
    }

    ghost function Distances(): seq<Cost>
      reads this
    {
      var d := distanceMap;
      seq(treeVertices, i => if i in d then d[i] else Inf)
    }

    ghost function NextNodes(): seq<int>
      reads this
    {
      var d := distanceMap;
      var n := nextNodeMap;
      seq(treeVertices, i => if i !in d then DEADEND else if i in n then n[i] else 0)
    }

    /** The maps hold a shortest-path tree from `sourceNodeId` over the
        arcs of the last Dijkstra run. */
    ghost predicate Tree()
      reads this
    {
      0 <= sourceNodeId && ArcsInRange(treeArcs, treeVertices)
      && (forall i :: 0 <= i < treeVertices ==> i in distanceMap)
      && IsShortestPathTree(treeArcs, treeWeights, treeVertices, sourceNodeId, Distances(), NextNodes())
    }

    /** `ConstructPathTree` and `_DijkstraShortestPathsAlg`
        (QYShortestPath.cpp:128-176): hand the first `GetNumberOfEdges()`
        collected arcs to Dijkstra and copy its distances and
        predecessors into the maps for every vertex. */
    method ConstructPathTree(src: nat, dijkstra: Dijkstra)
      requires SoundDijkstra(dijkstra)
      requires src < graph.numberOfVertices
      requires 0 <= graph.numberOfEdges <= |arcs| == |weights|
      requires ArcsInRange(arcs, graph.numberOfVertices)
      modifies this
      ensures arcs == old(arcs) && weights == old(weights)
      ensures sourceNodeId == src && Tree()
      ensures treeArcs == arcs[..graph.numberOfEdges] && treeWeights == weights[..graph.numberOfEdges]
      ensures treeVertices == graph.numberOfVertices
    {
      var n := graph.numberOfEdges;
      var V := graph.numberOfVertices;
      sourceNodeId := src;
      treeArcs := arcs[..n];
      treeWeights := weights[..n];
      treeVertices := V;
      var result := dijkstra(arcs[..n], weights[..n], V, src);
      var dist := result.0;
      var pred := result.1;
      assert IsShortestPathTree(treeArcs, treeWeights, V, src, dist, pred);
      CopyTree(dist, pred, V);
      assert forall k :: 0 <= k < V ==> Distances()[k] == dist[k];
      assert forall k :: 0 <= k < V ==> NextNodes()[k] == pred[k];
      assert Distances() == dist;
      assert NextNodes() == pred;
    }

    /** The copy loop of `_DijkstraShortestPathsAlg`
        (QYShortestPath.cpp:165-175): the distance and the predecessor of
        every vertex below `V` go into the maps. */
    method CopyTree(dist: seq<Cost>, pred: seq<int>, V: nat)
      requires |dist| == V && |pred| == V
      modifies this`distanceMap, this`nextNodeMap
      ensures forall k :: 0 <= k < V ==> k in distanceMap && distanceMap[k] == dist[k]
      ensures forall k :: 0 <= k < V ==> k in nextNodeMap && nextNodeMap[k] == pred[k]
    {
      var i := 0;
      while i < V
        invariant 0 <= i <= V
        invariant forall k :: 0 <= k < i ==> k in distanceMap && distanceMap[k] == dist[k]
        invariant forall k :: 0 <= k < i ==> k in nextNodeMap && nextNodeMap[k] == pred[k]
      {
        distanceMap := distanceMap[i := dist[i]];
        nextNodeMap := nextNodeMap[i := pred[i]];
        i := i + 1;
      }
    }

    /** `vs` runs from the source to `target` along predecessor links,
        each link an arc whose weight is the distance gap. */
    ghost predicate TreePath(vs: seq<int>, target: int)
      reads this
    {
      |vs| > 0 && vs[0] == sourceNodeId && vs[|vs| - 1] == target
      && |treeArcs| == |treeWeights|
      && forall k :: 0 <= k < |vs| - 1 ==>
           GetNextNodeId(vs[k + 1]) == vs[k] && Step(treeArcs, treeWeights, Distances(), vs[k], vs[k + 1])
    }

    /** `_GetShortestPath` (QYShortestPath.cpp:73-109): id -1 for a target
        outside the graph, id -2 for an unreached target, otherwise id 0,
        the target's distance as cost and the tree path to the target. */
    method GetPathTo(target: int) returns (p: DirectedPath)
      requires Tree() && treeVertices == graph.numberOfVertices
      ensures target < 0 || target >= graph.numberOfVertices ==> p == DirectedPath(-1, Inf, [])
      ensures 0 <= target < graph.numberOfVertices && GetDistance(target) == Inf ==> p == DirectedPath(-2, Inf, [])
      ensures 0 <= target < graph.numberOfVertices && GetDistance(target) != Inf ==>
                p.id == 0 && p.cost == GetDistance(target) && TreePath(p.vertices, target)
    {
      if target >= graph.numberOfVertices || target < 0 {
        return DirectedPath(-1, Inf, []);
      }
      if distanceMap[target] == Inf {
        return DirectedPath(-2, Inf, []);
      }
      ghost var dist := Distances();
      ghost var pred := NextNodes();
      ghost var V := treeVertices;
      ghost var s := sourceNodeId;
      assert IsShortestPathTree(treeArcs, treeWeights, V, s, dist, pred);
      ghost var rank: seq<nat> :| |rank| == V &&
        forall v :: 0 <= v < V && v != s && dist[v].Fin? ==> 0 <= pred[v] < V && rank[pred[v]] < rank[v];
      assert forall v :: 0 <= v < V ==> GetNextNodeId(v) == pred[v];
      var list := WalkToSource(target, dist, pred, rank);
      p := DirectedPath(0, distanceMap[target], list);
      ChainIsTreePath(list, target, dist, pred);
    }

    /** The loop of `_GetShortestPath` (QYShortestPath.cpp:90-104): follow
        the next-node links back from `target` until the source, which
        goes in front. `rank` decreases along every link. */
    method WalkToSource(target: int, ghost dist: seq<Cost>, ghost pred: seq<int>, ghost rank: seq<nat>)
      returns (list: seq<int>)
      requires |pred| == treeVertices && |dist| == treeVertices
      requires forall v :: 0 <= v < treeVertices ==> GetNextNodeId(v) == pred[v]
      requires |rank| == treeVertices && 0 <= sourceNodeId < treeVertices
      requires 0 <= target < treeVertices && dist[target].Fin?
      requires forall v :: 0 <= v < treeVertices && v != sourceNodeId && dist[v].Fin? ==>
                 0 <= pred[v] < treeVertices && dist[pred[v]].Fin? && rank[pred[v]] < rank[v]
      requires pred[sourceNodeId] == sourceNodeId
      ensures |list| > 0 && list[0] == sourceNodeId && list[|list| - 1] == target
      ensures forall k :: 0 <= k < |list| ==> 0 <= list[k] < treeVertices
      ensures forall k :: 0 <= k < |list| - 1 ==>
                PredLink(pred, dist, sourceNodeId, list[k], list[k + 1])
    {
      ghost var V := treeVertices;
      var cur := target;
      list := [target];
      while true
        invariant 0 <= cur < V && dist[cur].Fin?
        invariant |list| > 0 && list[0] == cur && list[|list| - 1] == target
        invariant forall k :: 0 <= k < |list| ==> 0 <= list[k] < V
        invariant forall k :: 0 <= k < |list| - 1 ==>
                    PredLink(pred, dist, sourceNodeId, list[k], list[k + 1])
        decreases rank[cur]
      {
        var next := GetNextNodeId(cur);
        if next == sourceNodeId {
          if cur != sourceNodeId {
            list := [sourceNodeId] + list;
          }
          break;
        } else {
          cur := next;
          list := [cur] + list;
        }
      }
    }

    /** A chain of predecessor links from the source to `target` through
        reached vertices is a path of the tree: each link is a tight arc. */
    lemma ChainIsTreePath(list: seq<int>, target: int, dist: seq<Cost>, pred: seq<int>)
      requires dist == Distances() && pred == NextNodes() && |treeArcs| == |treeWeights| && |pred| == treeVertices
      requires forall v :: 0 <= v < treeVertices && v != sourceNodeId && dist[v].Fin? ==>
                 0 <= pred[v] < treeVertices && Step(treeArcs, treeWeights, dist, pred[v], v)
      requires |list| > 0 && list[0] == sourceNodeId && list[|list| - 1] == target
      requires forall k :: 0 <= k < |list| ==> 0 <= list[k] < treeVertices
      requires forall k :: 0 <= k < |list| - 1 ==>
                 PredLink(pred, dist, sourceNodeId, list[k], list[k + 1])
      ensures TreePath(list, target)
    {
      forall k | 0 <= k < |list| - 1
        ensures GetNextNodeId(list[k + 1]) == list[k] && Step(treeArcs, treeWeights, dist, list[k], list[k + 1])
      {
        assert PredLink(pred, dist, sourceNodeId, list[k], list[k + 1]);
      }
    }

    /** When the last Dijkstra run saw every finite arc of the graph, the
        path `GetPathTo` returns is empty exactly when the target cannot
        be reached, and otherwise weighs no more than any vertex list
        from the source to the target. */
    lemma ReturnedIsCheapest(target: int, p: DirectedPath)
      requires Tree() && treeVertices == graph.numberOfVertices
      requires Mirrors() && graph.Counted() && treeArcs == arcs && treeWeights == weights
      requires target < 0 || target >= graph.numberOfVertices || GetDistance(target) == Inf ==> p.vertices == []
      requires 0 <= target < graph.numberOfVertices && GetDistance(target) != Inf ==>
                 p.cost == GetDistance(target) && TreePath(p.vertices, target)
      ensures Reachable(graph.edges, sourceNodeId, target) <==> p.vertices != []
      ensures p.vertices != [] ==> Cheapest(p, graph.edges, sourceNodeId, target)
    {
      var m, V, s, dist := graph.edges, graph.numberOfVertices, sourceNodeId, Distances();
      FiniteCellsMembers(m, V);
      assert Relaxed(arcs, weights, V, s, dist);
      if Reachable(m, s, target) {
        var vs :| Runs(vs, s, target) && PathWeight(m, vs).Fin?;
        NoWalkShorter(arcs, weights, V, s, dist, m, vs);
        assert GetDistance(target) == dist[target];
      }
      if p.vertices != [] {
        var vs := p.vertices;
        StepsPriced(arcs, weights, dist, m, vs);
        assert PathWeight(m, vs) == p.cost;
        forall ws | Runs(ws, s, target) ensures p.cost.AtMost(PathWeight(m, ws)) {
          NoWalkShorter(arcs, weights, V, s, dist, m, ws);
        }
      }
    }

    /** `GetShortestPath` (QYShortestPath.cpp:114-123): Dijkstra runs
        again only for a source other than the one last used. */
    method GetShortestPath(src: nat, target: int, dijkstra: Dijkstra) returns (p: DirectedPath)
      requires SoundDijkstra(dijkstra)
      requires src < graph.numberOfVertices
      requires 0 <= graph.numberOfEdges <= |arcs| == |weights|
      requires ArcsInRange(arcs, graph.numberOfVertices)
      requires sourceNodeId == src ==> Tree() && treeVertices == graph.numberOfVertices
      modifies this
      ensures arcs == old(arcs) && weights == old(weights)
      ensures old(sourceNodeId) == src ==>
                distanceMap == old(distanceMap) && nextNodeMap == old(nextNodeMap) && treeArcs == old(treeArcs)
      ensures sourceNodeId == src && Tree() && treeVertices == graph.numberOfVertices
      ensures old(sourceNodeId) != src ==> treeArcs == arcs[..graph.numberOfEdges]
      ensures target < 0 || target >= graph.numberOfVertices ==> p == DirectedPath(-1, Inf, [])
      ensures 0 <= target < graph.numberOfVertices && GetDistance(target) == Inf ==> p == DirectedPath(-2, Inf, [])
      ensures 0 <= target < graph.numberOfVertices && GetDistance(target) != Inf ==>
                p.id == 0 && p.cost == GetDistance(target) && TreePath(p.vertices, target)
      ensures Mirrors() && graph.Counted() && (old(sourceNodeId) != src || old(treeArcs == arcs && treeWeights == weights)) ==>
                (Reachable(graph.edges, src, target) <==> p.vertices != [])
                && (p.vertices != [] ==> Cheapest(p, graph.edges, src, target))
    {
      if sourceNodeId != src {
        ConstructPathTree(src, dijkstra);
      }
      p := GetPathTo(target);
      if Mirrors() && graph.Counted() && treeArcs == arcs && treeWeights == weights {
        ReturnedIsCheapest(target, p);
      }
    }
  }
}
