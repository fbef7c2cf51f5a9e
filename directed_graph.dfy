// The directed graph of the k-shortest-paths library (`CQYDirectedGraph`
// in QYDirectedGraph.h/.cpp): a map from vertex pairs to weights, where
// a missing pair reads as `DISCONNECT` (here `Inf`), together with the
// input records of QYInclude.h it is built from.

module DirectedGraphs {
  import opened Common

  /** `kShortestPathEdges`. The float cost is modelled as a natural number. */
  datatype KspEdge = KspEdge(src: nat, dest: nat, cost: nat)

  /** `kShortestPathParms`; `total_edges` is the length of `edgeList`. */
  datatype KspParams = KspParams(srcNode: nat, destNode: nat, kPaths: nat, totalNodes: nat, edgeList: seq<KspEdge>)

  type WeightMap = map<(int, int), Cost>

  /** The weight a map reads as (`GetWeight`). */
  function Weight(m: WeightMap, i: int, j: int): Cost
  {
    if (i, j) in m then m[(i, j)] else Inf
  }

  function Key(e: KspEdge): (int, int)
  {
    (e.src, e.dest)
  }

  /** The map built by inserting the edges in order with `map::insert`,
      which leaves an existing pair untouched. */
  function FirstWins(es: seq<KspEdge>): WeightMap
    decreases |es|
  {
    if es == [] then map[]
    else
      var m := FirstWins(es[..|es| - 1]);
      var e := es[|es| - 1];
      if Key(e) in m then m else m[Key(e) := Fin(e.cost)]
  }

  /** The edge map has an entry exactly for the pairs some edge names. */
  lemma {:induction false} FirstWinsKeys(es: seq<KspEdge>)
    ensures forall key :: key in FirstWins(es) <==> exists k :: 0 <= k < |es| && Key(es[k]) == key
    decreases |es|
  {
    if es != [] {
      var p := es[..|es| - 1];
      FirstWinsKeys(p);
      assert forall k :: 0 <= k < |p| ==> p[k] == es[k];
      forall key | key in FirstWins(es) ensures exists k :: 0 <= k < |es| && Key(es[k]) == key {
        if key in FirstWins(p) {
          var k :| 0 <= k < |p| && Key(p[k]) == key;
          assert Key(es[k]) == key;
        }
      }
      forall key | exists k :: 0 <= k < |es| && Key(es[k]) == key ensures key in FirstWins(es) {
        var k :| 0 <= k < |es| && Key(es[k]) == key;
        if k < |p| {
          assert Key(p[k]) == key;
        }
      }
    }
  }

  /** The entry of a pair holds the weight of the first edge naming it. */
  lemma {:induction false} FirstWinsValues(es: seq<KspEdge>, k: nat)
    requires k < |es|
    requires forall l :: 0 <= l < k ==> Key(es[l]) != Key(es[k])
    ensures Key(es[k]) in FirstWins(es) && FirstWins(es)[Key(es[k])] == Fin(es[k].cost)
    decreases |es|
  {
    var p := es[..|es| - 1];
    FirstWinsKeys(p);
    if k < |p| {
      assert p[k] == es[k];
      assert forall l :: 0 <= l < k ==> p[l] == es[l];
      FirstWinsValues(p, k);
    } else {
      forall l | 0 <= l < |p| ensures Key(p[l]) != Key(es[k]) {
        assert p[l] == es[l];
      }
    }
  }

  /** Every weight the constructor stores is finite. */
  lemma {:induction false} FirstWinsFinite(es: seq<KspEdge>)
    ensures forall key :: key in FirstWins(es) ==> FirstWins(es)[key].Fin?
    decreases |es|
  {
    if es != [] {
      FirstWinsFinite(es[..|es| - 1]);
    }
  }

  /** The largest edge cost, 0 for no edges (`m_dMaxWeight` starts at 0). */
  function MaxCost(es: seq<KspEdge>): (r: nat)
    ensures forall k :: 0 <= k < |es| ==> es[k].cost <= r
    ensures es == [] ==> r == 0
    ensures es != [] ==> exists k :: 0 <= k < |es| && es[k].cost == r
    decreases |es|
  {
    if es == [] then 0
    else
      var m := MaxCost(es[..|es| - 1]);
      assert forall k :: 0 <= k < |es| - 1 ==> es[..|es| - 1][k] == es[k];
      if es[|es| - 1].cost > m then es[|es| - 1].cost else m
  }

  /** The smallest edge cost, `DISCONNECT` for no edges. */
  function MinCost(es: seq<KspEdge>): (r: Cost)
    ensures r.Fin? <==> es != []
    ensures forall k :: 0 <= k < |es| ==> r.n <= es[k].cost
    ensures es != [] ==> exists k :: 0 <= k < |es| && es[k].cost == r.n
    decreases |es|
  {
    if es == [] then Inf
    else
      var m := MinCost(es[..|es| - 1]);
      assert forall k :: 0 <= k < |es| - 1 ==> es[..|es| - 1][k] == es[k];
      if Fin(es[|es| - 1].cost).Below(m) then Fin(es[|es| - 1].cost) else m
  }

  // The finite arcs among vertices 0..V-1 in row-major order: the arc
  // list `CQYShortestPath::_Init` hands to Dijkstra.

  /** Finite arcs (i, c) for c < j. */
  function RowCells(m: WeightMap, i: int, j: nat): seq<(int, int)>
    decreases j
  {
    if j == 0 then []
    else RowCells(m, i, j - 1) + (if Weight(m, i, j - 1).Fin? then [(i, j - 1)] else [])
  }

  /** Finite arcs of rows 0..i-1 with columns below V. */
  function Cells(m: WeightMap, V: nat, i: nat): seq<(int, int)>
    decreases i
  {
    if i == 0 then [] else Cells(m, V, i - 1) + RowCells(m, i - 1, V)
  }

  function FiniteCells(m: WeightMap, V: nat): seq<(int, int)>
  {
    Cells(m, V, V)
  }

  predicate NoDuplicates<T(==)>(s: seq<T>)
  {
    forall a, b :: 0 <= a < b < |s| ==> s[a] != s[b]
  }

  function Indicator(c: Cost): nat
  {
    if c.Fin? then 1 else 0
  }

  lemma {:induction false} RowCellsMembers(m: WeightMap, i: int, j: nat)
    ensures forall p :: p in RowCells(m, i, j) <==> p.0 == i && 0 <= p.1 < j && Weight(m, p.0, p.1).Fin?
    ensures NoDuplicates(RowCells(m, i, j))
    decreases j
  {
    if j > 0 {
      RowCellsMembers(m, i, j - 1);
    }
  }

  lemma {:induction false} CellsMembers(m: WeightMap, V: nat, i: nat)
    ensures forall p :: p in Cells(m, V, i) <==> 0 <= p.0 < i && 0 <= p.1 < V && Weight(m, p.0, p.1).Fin?
    ensures NoDuplicates(Cells(m, V, i))
    decreases i
  {
    if i > 0 {
      CellsMembers(m, V, i - 1);
      RowCellsMembers(m, i - 1, V);
      var a := Cells(m, V, i - 1);
      var b := RowCells(m, i - 1, V);
      forall x, y | 0 <= x < y < |a + b| ensures (a + b)[x] != (a + b)[y] {
        if y >= |a| && x < |a| {
          assert (a + b)[x] in a && (a + b)[y] in b;
        } else if x >= |a| {
          assert (a + b)[x] == b[x - |a|] && (a + b)[y] == b[y - |a|];
        }
      }
    }
  }

  /** `FiniteCells` lists exactly the finite arcs among vertices below V,
      each once. */
  lemma FiniteCellsMembers(m: WeightMap, V: nat)
    ensures forall p :: p in FiniteCells(m, V) <==> 0 <= p.0 < V && 0 <= p.1 < V && Weight(m, p.0, p.1).Fin?
    ensures NoDuplicates(FiniteCells(m, V))
  {
    CellsMembers(m, V, V);
  }

  lemma {:induction false} RowCellsUpdate(m: WeightMap, i: int, j: nat, a: int, b: int, x: Cost)
    ensures |RowCells(m[(a, b) := x], i, j)| + (if a == i && 0 <= b < j then Indicator(Weight(m, a, b)) else 0)
            == |RowCells(m, i, j)| + (if a == i && 0 <= b < j then Indicator(x) else 0)
    decreases j
  {
    if j > 0 {
      RowCellsUpdate(m, i, j - 1, a, b, x);
    }
  }

  lemma {:induction false} CellsUpdate(m: WeightMap, V: nat, i: nat, a: int, b: int, x: Cost)
    ensures |Cells(m[(a, b) := x], V, i)| + (if 0 <= a < i && 0 <= b < V then Indicator(Weight(m, a, b)) else 0)
            == |Cells(m, V, i)| + (if 0 <= a < i && 0 <= b < V then Indicator(x) else 0)
    decreases i
  {
    if i > 0 {
      CellsUpdate(m, V, i - 1, a, b, x);
      RowCellsUpdate(m, i - 1, V, a, b, x);
    }
  }

  /** Writing one cell changes the number of finite arcs by the change
      of that cell's finiteness. */
  lemma FiniteCellsUpdate(m: WeightMap, V: nat, a: int, b: int, x: Cost)
    requires 0 <= a < V && 0 <= b < V
    ensures |FiniteCells(m[(a, b) := x], V)| + Indicator(Weight(m, a, b)) == |FiniteCells(m, V)| + Indicator(x)
  {
    CellsUpdate(m, V, V, a, b, x);
  }

  lemma {:induction false} DistinctCardinality<T>(s: seq<T>)
    requires NoDuplicates(s)
    ensures |set x | x in s| == |s|
    decreases |s|
  {
    if s != [] {
      var p := s[..|s| - 1];
      DistinctCardinality(p);
      assert (set x | x in s) == (set x | x in p) + {s[|s| - 1]} by {
        assert s == p + [s[|s| - 1]];
      }
      assert s[|s| - 1] !in p;
    }
  }

  /** Every pair with a finite weight lies among vertices 0..V-1. */
  predicate FiniteInRange(m: WeightMap, V: nat)
  {
    forall key :: key in m && m[key].Fin? ==> 0 <= key.0 < V && 0 <= key.1 < V
  }

  /** A vertex list runs from `s` to `t`. */
  predicate Runs(vs: seq<int>, s: int, t: int)
  {
    |vs| > 0 && vs[0] == s && vs[|vs| - 1] == t
  }

  /** The sum of the weights of consecutive vertex pairs, saturating at
      `DISCONNECT`. */
  function PathWeight(m: WeightMap, vs: seq<int>): Cost
    decreases |vs|
  {
    if |vs| < 2 then Fin(0) else PathWeight(m, vs[..|vs| - 1]).Plus(Weight(m, vs[|vs| - 2], vs[|vs| - 1]))
  }

  /** A map of finite weights between vertices below V has as many
      finite arcs as entries. */
  lemma FiniteCellsCount(m: WeightMap, V: nat)
    requires FiniteInRange(m, V)
    requires forall key :: key in m ==> m[key].Fin?
    ensures |FiniteCells(m, V)| == |m|
  {
    FiniteCellsMembers(m, V);
    DistinctCardinality(FiniteCells(m, V));
    assert (set x | x in FiniteCells(m, V)) == m.Keys;
  }

  /** Every edge of the input joins two of its `total_nodes` vertices. */
  predicate EndpointsInRange(params: KspParams)
  {
    forall k :: 0 <= k < |params.edgeList| ==>
      params.edgeList[k].src < params.totalNodes && params.edgeList[k].dest < params.totalNodes
  }

  /** The loop of the constructor (QYDirectedGraph.cpp:57-77): the first
      entry per arc wins, and the weight bounds are tracked. */
  method ScanEdges(es: seq<KspEdge>) returns (m: WeightMap, maxW: nat, minW: Cost)
    ensures m == FirstWins(es)
    ensures maxW == MaxCost(es) && minW == MinCost(es)
  {
    m := map[];
    maxW := 0;
    minW := Inf;
    var a := 0;
    while a < |es|
      invariant 0 <= a <= |es|
      invariant m == FirstWins(es[..a])
      invariant maxW == MaxCost(es[..a]) && minW == MinCost(es[..a])
    {
      assert es[..a + 1][..a] == es[..a];
      var e := es[a];
      if Key(e) !in m {
        m := m[Key(e) := Fin(e.cost)];
      }
      if e.cost > maxW {
        maxW := e.cost;
      }
      if Fin(e.cost).Below(minW) {
        minW := Fin(e.cost);
      }
      a := a + 1;
    }
    assert es[..a] == es;
  }

  /** With every endpoint below the vertex count, each entry of the first
      wins map is a finite arc between vertices, one per entry. */
  lemma FirstWinsCounted(params: KspParams)
    requires EndpointsInRange(params)
    ensures FiniteInRange(FirstWins(params.edgeList), params.totalNodes)
    ensures |FiniteCells(FirstWins(params.edgeList), params.totalNodes)| == |FirstWins(params.edgeList)|
  {
    var es := params.edgeList;
    var m := FirstWins(es);
    FirstWinsKeys(es);
    FirstWinsFinite(es);
    assert FiniteInRange(m, params.totalNodes) by {
      forall key | key in m && m[key].Fin? ensures 0 <= key.0 < params.totalNodes && 0 <= key.1 < params.totalNodes {
        var k :| 0 <= k < |es| && Key(es[k]) == key;
      }
    }
    FiniteCellsCount(m, params.totalNodes);
  }

  class DirectedGraph {
    var edges: WeightMap
    var numberOfVertices: nat
    var numberOfEdges: int
    var maxWeight: nat
    var minWeight: Cost

    /** The edge counter equals the number of finite arcs, and every
        finite arc joins two of the graph's vertices: then Dijkstra is
        handed every arc. */
    ghost predicate Counted()
      reads this
    {
      numberOfEdges == |FiniteCells(edges, numberOfVertices)| && FiniteInRange(edges, numberOfVertices)
    }

    /** Build from `kShortestPathParms` (QYDirectedGraph.cpp:49-78). */
    constructor FromParams(params: KspParams)
      ensures numberOfVertices == params.totalNodes
      ensures edges == FirstWins(params.edgeList)
      ensures numberOfEdges == |edges|
      ensures maxWeight == MaxCost(params.edgeList) && minWeight == MinCost(params.edgeList)
      ensures EndpointsInRange(params) ==> Counted()
    {
      var m, maxW, minW := ScanEdges(params.edgeList);
      numberOfVertices := params.totalNodes;
      edges := m;
      numberOfEdges := |m|;
      maxWeight := maxW;
      minWeight := minW;
      new;
      if EndpointsInRange(params) {
        FirstWinsCounted(params);
      }
    }

    /** Copy construction (QYDirectedGraph.cpp:80-93): the vertex count,
        the edge counter and a fresh copy of the edge map. The source
        does not copy the weight bounds; the copy gets placeholder
        bounds that no contract exposes. */
    constructor Copy(g: DirectedGraph)
      ensures edges == g.edges && numberOfVertices == g.numberOfVertices && numberOfEdges == g.numberOfEdges
      ensures g.Counted() ==> Counted()
    {
      edges := g.edges;
      numberOfVertices := g.numberOfVertices;
      numberOfEdges := g.numberOfEdges;
      maxWeight := 0;
      minWeight := Inf;
    }

    /** `GetWeight`: `DISCONNECT` for a pair without an entry. */
    function GetWeight(i: int, j: int): (w: Cost)
      reads this
      ensures (i, j) !in edges ==> w == Inf
      ensures (i, j) in edges ==> w == edges[(i, j)]
    {
      Weight(edges, i, j)
    }

    /** `SetWeight`: the one pair reads back the new weight, every other
        pair and the counters are unchanged. */
    method SetWeight(i: int, j: int, v: Cost)
      modifies this
      ensures edges == old(edges)[(i, j) := v]
      ensures GetWeight(i, j) == v
      ensures forall a, b :: (a, b) != (i, j) ==> GetWeight(a, b) == old(GetWeight(a, b))
      ensures numberOfEdges == old(numberOfEdges) && numberOfVertices == old(numberOfVertices)
      ensures maxWeight == old(maxWeight) && minWeight == old(minWeight)
    {
      edges := edges[(i, j) := v];
    }

    /** `RemoveEdge`: erase the pair if present; otherwise nothing changes. */
    method RemoveEdge(i: int, j: int)
      modifies this
      ensures edges == old(edges) - {(i, j)}
      ensures (i, j) !in old(edges) ==> edges == old(edges)
      ensures GetWeight(i, j) == Inf
      ensures forall a, b :: (a, b) != (i, j) ==> GetWeight(a, b) == old(GetWeight(a, b))
      ensures numberOfEdges == old(numberOfEdges) && numberOfVertices == old(numberOfVertices)
      ensures maxWeight == old(maxWeight) && minWeight == old(minWeight)
    {
      if (i, j) in edges {
        edges := edges - {(i, j)};
      }
    }

    /** `AddEdge`: insert the pair or overwrite its weight. */
    method AddEdge(i: int, j: int, weight: Cost)
      modifies this
      ensures edges == old(edges)[(i, j) := weight]
      ensures GetWeight(i, j) == weight
      ensures forall a, b :: (a, b) != (i, j) ==> GetWeight(a, b) == old(GetWeight(a, b))
      ensures numberOfEdges == old(numberOfEdges) && numberOfVertices == old(numberOfVertices)
      ensures maxWeight == old(maxWeight) && minWeight == old(minWeight)
    {
      edges := edges[(i, j) := weight];
    }

    function GetNumberOfVertices(): nat
      reads this
    {
      numberOfVertices
    }

    function GetNumberOfEdges(): int
      reads this
    {
      numberOfEdges
    }

    /** `SetNumberOfEdges`: `GetNumberOfEdges` reads the value back. */
    method SetNumberOfEdges(v: int)
      modifies this
      ensures GetNumberOfEdges() == v
      ensures edges == old(edges) && numberOfVertices == old(numberOfVertices)
      ensures maxWeight == old(maxWeight) && minWeight == old(minWeight)
    {
      numberOfEdges := v;
    }
  }

  /** The copy is a separate map: writing a weight of the copy leaves the
      original's weights as they were. */
  method CopyIsIndependent(g: DirectedGraph, i: int, j: int, v: Cost) returns (copy: DirectedGraph)
    ensures fresh(copy)
    ensures copy.GetWeight(i, j) == v
    ensures g.edges == old(g.edges)
  {
    copy := new DirectedGraph.Copy(g);
    copy.SetWeight(i, j, v);
  }
}
