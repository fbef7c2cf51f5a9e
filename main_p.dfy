// The library's entry point (MainP.cpp): one Dijkstra query when a
// single path is asked for, the k-shortest-paths search otherwise, and
// the packing of the paths found into the caller's flat arrays.

module MainP {
  import opened Common
  import opened DirectedPaths
  import opened DirectedGraphs
  import opened ShortestPaths
  import opened KShortestPaths

  /** A path `copyResults` keeps: at least one vertex and fewer than the
      `total_nodes` of the query. */
  predicate Kept(p: DirectedPath, totalNodes: nat)
  {
    0 < |p.vertices| < totalNodes
  }

  /** The paths `copyResults` evidently means to keep: the kept ones, in
      order. */
  function Filter(ps: seq<DirectedPath>, totalNodes: nat): (r: seq<DirectedPath>)
    ensures |r| <= |ps|
    decreases |ps|
  {
    if ps == [] then []
    else if Kept(ps[0], totalNodes) then [ps[0]] + Filter(ps[1..], totalNodes)
    else Filter(ps[1..], totalNodes)
  }

  /** `Filter` keeps exactly the paths of `ps` that are to be kept. */
  lemma {:induction false} FilterSound(ps: seq<DirectedPath>, totalNodes: nat)
    ensures forall k :: 0 <= k < |Filter(ps, totalNodes)| ==>
              Kept(Filter(ps, totalNodes)[k], totalNodes) && Filter(ps, totalNodes)[k] in ps
    ensures forall p :: p in ps && Kept(p, totalNodes) ==> p in Filter(ps, totalNodes)
    decreases |ps|
  {
    if ps != [] {
      FilterSound(ps[1..], totalNodes);
      assert forall p :: p in ps ==> p == ps[0] || p in ps[1..];
    }
  }

  /** The erase loop of `copyResults` (MainP.cpp:47-61) as written,
      looking at position `i`: after an erase the iterator is reset to
      `begin()` and then advanced by the loop, so the new first path is
      never looked at. */
  function EraseAsWritten(ps: seq<DirectedPath>, totalNodes: nat, i: nat): seq<DirectedPath>
    decreases |ps|, |ps| - i
  {
    if i >= |ps| then ps
    else if !Kept(ps[i], totalNodes) then
      var rest := ps[..i] + ps[i + 1..];
      if |rest| == 0 then rest else EraseAsWritten(rest, totalNodes, 1)
    else EraseAsWritten(ps, totalNodes, i + 1)
  }

  /** The loop as written removes every path it should except possibly
      the first, and leaves a list it has nothing to remove from alone. */
  lemma {:induction false} EraseAsWrittenTail(ps: seq<DirectedPath>, totalNodes: nat, i: nat)
    requires forall k :: 1 <= k < i && k < |ps| ==> Kept(ps[k], totalNodes)
    ensures forall k :: 1 <= k < |EraseAsWritten(ps, totalNodes, i)| ==> Kept(EraseAsWritten(ps, totalNodes, i)[k], totalNodes)
    ensures (forall k :: i <= k < |ps| ==> Kept(ps[k], totalNodes)) ==> EraseAsWritten(ps, totalNodes, i) == ps
    decreases |ps|, |ps| - i
  {
    if i < |ps| {
      if !Kept(ps[i], totalNodes) {
        var rest := ps[..i] + ps[i + 1..];
        if |rest| != 0 {
          EraseAsWrittenTail(rest, totalNodes, 1);
        }
      } else {
        EraseAsWrittenTail(ps, totalNodes, i + 1);
      }
    }
  }

  /** Four routers, two paths through all of them ahead of the direct
      one: the loop as written erases the first, skips the second, which
      stays although it has `total_nodes` vertices, and keeps the third. */
  lemma EraseAsWrittenKeepsLongPath()
    ensures var p1 := DirectedPath(0, Fin(3), [0, 1, 2, 3]);
            var p2 := DirectedPath(1, Fin(3), [0, 2, 1, 3]);
            var p3 := DirectedPath(2, Fin(5), [0, 3]);
            EraseAsWritten([p1, p2, p3], 4, 0) == [p2, p3] && !Kept(p2, 4) && Filter([p1, p2, p3], 4) == [p3]
  {
    var p1 := DirectedPath(0, Fin(3), [0, 1, 2, 3]);
    var p2 := DirectedPath(1, Fin(3), [0, 2, 1, 3]);
    var p3 := DirectedPath(2, Fin(5), [0, 3]);
    assert [p1, p2, p3][..0] + [p1, p2, p3][1..] == [p2, p3];
    assert EraseAsWritten([p2, p3], 4, 1) == EraseAsWritten([p2, p3], 4, 2) == [p2, p3];
    assert [p1, p2, p3][1..] == [p2, p3] && [p2, p3][1..] == [p3] && [p3][1..] == [];
    assert Filter([p3], 4) == [p3];
  }

  /** The erase loop of `copyResults` as evidently intended: a path that
      is erased is followed by a look at the path now at its position. */
  method EraseInvalid(ps: seq<DirectedPath>, totalNodes: nat) returns (kept: seq<DirectedPath>)
    ensures kept == Filter(ps, totalNodes)
  {
    kept := ps;
    var i := 0;
    while i < |kept|
      invariant 0 <= i <= |kept|
      invariant Filter(ps, totalNodes) == kept[..i] + Filter(kept[i..], totalNodes)
      decreases |kept| - i
    {
      ghost var before := kept;
      FilterAt(kept, i, totalNodes);
      if !Kept(kept[i], totalNodes) {
        kept := kept[..i] + kept[i + 1..];
        assert kept[..i] == before[..i] && kept[i..] == before[i + 1..];
      } else {
        assert kept[..i + 1] == kept[..i] + [kept[i]];
        i := i + 1;
      }
    }
    assert kept[..i] == kept;
  }

  /** `Filter` from position `i` looks at `s[i]` and goes on from `i + 1`. */
  lemma FilterAt(s: seq<DirectedPath>, i: nat, totalNodes: nat)
    requires i < |s|
    ensures Filter(s[i..], totalNodes) ==
              (if Kept(s[i], totalNodes) then [s[i]] else []) + Filter(s[i + 1..], totalNodes)
  {
    assert s[i..][0] == s[i] && s[i..][1..] == s[i + 1..];
  }

  /** Where row `a` starts in `pathinfo`: each row has room for
      `totalNodes - 1` vertices, so row `a` starts `a` rows of that width
      in. */
  function RowStart(totalNodes: int, a: nat): int
  {
    if a == 0 then 0 else RowStart(totalNodes, a - 1) + (totalNodes - 1)
  }

  /** The position of vertex `b` of row `a` in `pathinfo`. */
  function Slot(totalNodes: int, a: nat, b: int): int
  {
    RowStart(totalNodes, a) + b
  }

  /** The row start is the source's index `a * (total_nodes - 1)`. */
  lemma {:induction false} RowStartIsProduct(totalNodes: int, a: nat)
    ensures RowStart(totalNodes, a) == a * (totalNodes - 1)
  {
    if a > 0 {
      RowStartIsProduct(totalNodes, a - 1);
      assert (a - 1) * (totalNodes - 1) + (totalNodes - 1) == a * (totalNodes - 1);
    }
  }

  /** One more row is `width` further on. */
  lemma RowStep(totalNodes: nat, a: nat)
    requires 1 <= totalNodes
    ensures RowStart(totalNodes, a + 1) == RowStart(totalNodes, a) + (totalNodes - 1)
  {
  }

  /** Rows are laid out one after the other: row `a` starts no earlier
      than the end of row `r`. */
  lemma {:induction false} RowsInOrder(totalNodes: nat, r: nat, a: nat)
    requires 1 <= totalNodes && r < a
    ensures RowStart(totalNodes, r) + (totalNodes - 1) <= RowStart(totalNodes, a)
    decreases a - r
  {
    RowStep(totalNodes, r);
    if r + 1 < a {
      RowsInOrder(totalNodes, r + 1, a);
    }
  }

  /** The inner loop of `copyResults` (MainP.cpp:69-72): the vertices of
      one path, as `unsigned short`, from `base` on. */
  method CopyRow(info: array<nat>, base: int, vs: seq<int>)
    requires 0 <= base && base + |vs| <= info.Length
    modifies info
    ensures forall b :: 0 <= b < |vs| ==> info[base + b] == vs[b] % 0x1_0000
    ensures forall idx :: 0 <= idx < info.Length && !(base <= idx < base + |vs|) ==> info[idx] == old(info[idx])
  {
    var b := 0;
    while b < |vs|
      invariant 0 <= b <= |vs|
      invariant forall c :: 0 <= c < b ==> info[base + c] == vs[c] % 0x1_0000
      invariant forall idx :: 0 <= idx < info.Length && !(base <= idx < base + b) ==> info[idx] == old(info[idx])
    {
      info[base + b] := vs[b] % 0x1_0000;
      b := b + 1;
    }
  }

  /** One pass of the outer loop of `copyResults` (MainP.cpp:65-73):
      the cost, the length and the vertices of kept path `a`. */
  method PackRow(p: DirectedPath, a: nat, totalNodes: nat, kPaths: nat,
                 pathinfo: array<nat>, pathcost: array<Cost>, pathlen: array<nat>)
    requires Kept(p, totalNodes) && a < kPaths && a < pathcost.Length && a < pathlen.Length
    requires RowStart(totalNodes, kPaths) <= pathinfo.Length
    requires pathinfo != pathlen
    modifies pathinfo, pathcost, pathlen
    ensures 0 <= RowStart(totalNodes, a) && RowStart(totalNodes, a + 1) <= pathinfo.Length
    ensures RowStart(totalNodes, a + 1) == RowStart(totalNodes, a) + (totalNodes - 1)
    ensures pathcost[..] == old(pathcost[..])[a := p.cost]
    ensures pathlen[..] == old(pathlen[..])[a := |p.vertices|]
    ensures forall b :: 0 <= b < |p.vertices| ==> pathinfo[Slot(totalNodes, a, b)] == p.vertices[b] % 0x1_0000
    ensures forall idx :: 0 <= idx < pathinfo.Length && !(RowStart(totalNodes, a) <= idx < RowStart(totalNodes, a) + |p.vertices|) ==>
              pathinfo[idx] == old(pathinfo[idx])
  {
    pathcost[a] := p.cost;
    pathlen[a] := |p.vertices|;
    RowStep(totalNodes, a);
    if a + 1 < kPaths {
      RowsInOrder(totalNodes, a + 1, kPaths);
    }
    if 0 < a {
      RowsInOrder(totalNodes, 0, a);
    }
    CopyRow(pathinfo, RowStart(totalNodes, a), p.vertices);
  }

  /** What the outer loop of `copyResults` has written after `a` rows. */
  ghost predicate RowsPacked(k: seq<DirectedPath>, a: nat, totalNodes: nat,
                             info: seq<nat>, info0: seq<nat>, cost: seq<Cost>, len: seq<nat>)
  {
    a <= |k| && a <= |cost| && a <= |len| && |info| == |info0|
    && (forall r :: 0 <= r < a ==> cost[r] == k[r].cost && len[r] == |k[r].vertices|)
    && (forall r, b :: 0 <= r < a && 0 <= b < |k[r].vertices| ==>
          0 <= Slot(totalNodes, r, b) < |info| && info[Slot(totalNodes, r, b)] == k[r].vertices[b] % 0x1_0000)
    && (forall r, c :: 0 <= r < a && |k[r].vertices| <= c < totalNodes - 1 ==>
          0 <= Slot(totalNodes, r, c) < |info| && info[Slot(totalNodes, r, c)] == info0[Slot(totalNodes, r, c)])
    && (forall idx :: 0 <= idx < |info| && RowStart(totalNodes, a) <= idx ==> info[idx] == info0[idx])
  }

  /** The outer loop of `copyResults` (MainP.cpp:63-73) over the kept
      paths `k`. */
  method PackRows(k: seq<DirectedPath>, totalNodes: nat, kPaths: nat,
                  pathinfo: array<nat>, pathcost: array<Cost>, pathlen: array<nat>)
    requires |k| <= kPaths && kPaths <= pathcost.Length && kPaths <= pathlen.Length
    requires forall r :: 0 <= r < |k| ==> Kept(k[r], totalNodes)
    requires RowStart(totalNodes, kPaths) <= pathinfo.Length
    requires pathinfo != pathlen
    modifies pathinfo, pathcost, pathlen
    ensures RowsPacked(k, |k|, totalNodes, pathinfo[..], old(pathinfo[..]), pathcost[..], pathlen[..])
    ensures pathcost[|k|..] == old(pathcost[|k|..]) && pathlen[|k|..] == old(pathlen[|k|..])
  {
    var a := 0;
    while a < |k|
      invariant 0 <= a <= |k|
      invariant RowsPacked(k, a, totalNodes, pathinfo[..], old(pathinfo[..]), pathcost[..], pathlen[..])
      invariant pathcost[a..] == old(pathcost[a..]) && pathlen[a..] == old(pathlen[a..])
    {
      ghost var before := pathinfo[..];
      PackRow(k[a], a, totalNodes, kPaths, pathinfo, pathcost, pathlen);
      forall r, b | 0 <= r < a && 0 <= b < totalNodes - 1
        ensures 0 <= Slot(totalNodes, r, b) < RowStart(totalNodes, a)
      {
        RowsInOrder(totalNodes, r, a);
        if 0 < r {
          RowsInOrder(totalNodes, 0, r);
        }
      }
      a := a + 1;
    }
  }

  /** The padding loop of `copyResults` (MainP.cpp:75-78). */
  method PadRows(from: nat, kPaths: nat, pathcost: array<Cost>, pathlen: array<nat>)
    requires from <= kPaths <= pathcost.Length && kPaths <= pathlen.Length
    modifies pathcost, pathlen
    ensures forall d :: 0 <= d < pathcost.Length ==> pathcost[d] == if from <= d < kPaths then Inf else old(pathcost[d])
    ensures forall d :: 0 <= d < pathlen.Length ==> pathlen[d] == if from <= d < kPaths then 0 else old(pathlen[d])
  {
    var d := from;
    while d < kPaths
      invariant from <= d <= kPaths
      invariant forall r :: 0 <= r < pathcost.Length ==> pathcost[r] == if from <= r < d then Inf else old(pathcost[r])
      invariant forall r :: 0 <= r < pathlen.Length ==> pathlen[r] == if from <= r < d then 0 else old(pathlen[r])
    {
      pathcost[d] := Inf;
      pathlen[d] := 0;
      d := d + 1;
    }
  }

  /** `copyResults` (MainP.cpp:45-79), with the erase loop as evidently
      intended: the kept paths go, in order, to the slots of the three
      arrays, path a's vertices at `pathinfo[a * (total_nodes - 1) + b]`;
      the slots from the number kept up to `k_paths` get cost `+inf` and
      length 0 (`numeric_limits<int>::infinity()` is 0); nothing else is
      written. */
  method CopyResults(paths: seq<DirectedPath>, totalNodes: nat, kPaths: nat,
                     pathinfo: array<nat>, pathcost: array<Cost>, pathlen: array<nat>)
    returns (ghost kept: seq<DirectedPath>)
    requires |paths| <= kPaths && kPaths <= pathcost.Length && kPaths <= pathlen.Length
    requires totalNodes >= 1 ==> kPaths * (totalNodes - 1) <= pathinfo.Length
    requires pathinfo != pathlen
    modifies pathinfo, pathcost, pathlen
    ensures kept == Filter(paths, totalNodes)
    ensures RowsPacked(kept, |kept|, totalNodes, pathinfo[..], old(pathinfo[..]), pathcost[..], pathlen[..])
    ensures forall d :: |kept| <= d < pathcost.Length ==> pathcost[d] == if d < kPaths then Inf else old(pathcost[d])
    ensures forall d :: |kept| <= d < pathlen.Length ==> pathlen[d] == if d < kPaths then 0 else old(pathlen[d])
  {
    var k := EraseInvalid(paths, totalNodes);
    kept := k;
    FilterSound(paths, totalNodes);
    if k == [] {
      assert RowsPacked(k, 0, totalNodes, pathinfo[..], old(pathinfo[..]), pathcost[..], pathlen[..]);
    } else {
      assert Kept(k[0], totalNodes);
      RowStartIsProduct(totalNodes, kPaths);
      PackRows(k, totalNodes, kPaths, pathinfo, pathcost, pathlen);
    }
    ghost var info := pathinfo[..];
    ghost var cost := pathcost[..];
    ghost var len := pathlen[..];
    PadRows(|k|, kPaths, pathcost, pathlen);
    assert pathinfo[..] == info;
    assert pathcost[..|k|] == cost[..|k|] && pathlen[..|k|] == len[..|k|];
  }

  /** The paths that `calc_k_shortest_paths` packs: one Dijkstra query
      for `k_paths == 1`, the k-shortest-paths search otherwise. */
  method ComputePaths(params: KspParams, dijkstra: Dijkstra) returns (paths: seq<DirectedPath>)
    requires SoundDijkstra(dijkstra)
    requires EndpointsInRange(params) && params.srcNode < params.totalNodes
    ensures |paths| <= if params.kPaths == 1 then 1 else params.kPaths
    ensures forall a :: 0 <= a < |paths| && paths[a].vertices != [] ==> Runs(paths[a].vertices, params.srcNode, params.destNode)
    ensures params.kPaths == 1 ==> |paths| == 1
    ensures SearchResult(paths, FirstWins(params.edgeList), params.srcNode, params.destNode, params.kPaths)
  {
    var dg := new DirectedGraph.FromParams(params);
    FiniteCellsMembers(dg.edges, dg.numberOfVertices);
    paths := PathsOn(dg, params.srcNode, params.destNode, params.kPaths, dijkstra);
  }

  /** The query of `calc_k_shortest_paths` (MainP.cpp:20-39) on the
      graph built from the parameters. */
  method PathsOn(dg: DirectedGraph, src: nat, dest: int, kPaths: nat, dijkstra: Dijkstra) returns (paths: seq<DirectedPath>)
    requires SoundDijkstra(dijkstra)
    requires dg.Counted() && src < dg.numberOfVertices
    ensures |paths| <= if kPaths == 1 then 1 else kPaths
    ensures forall a :: 0 <= a < |paths| && paths[a].vertices != [] ==> Runs(paths[a].vertices, src, dest)
    ensures kPaths == 1 ==> |paths| == 1
    ensures SearchResult(paths, dg.edges, src, dest, kPaths)
  {
    if kPaths == 1 {
      var sp := new ShortestPath(dg);
      var p := sp.GetShortestPath(src, dest, dijkstra);
      paths := [p];
      assert p.vertices != [] ==> Cheapest(p, dg.edges, src, dest);
    } else {
      var ksp := new KShortestPathSearch(dg, src, dest, kPaths);
      ghost var first;
      paths, first := ksp.GetTopKShortestPaths(dijkstra);
    }
  }

  /** `calc_k_shortest_paths` (MainP.cpp:16-41): build the graph from the
      parameters, compute the paths, and pack them. Every packed path runs
      from `src_node` to `dest_node`, at most `k_paths` of them. */
  method CalcKShortestPaths(params: KspParams, dijkstra: Dijkstra,
                            pathinfo: array<nat>, pathcost: array<Cost>, pathlen: array<nat>)
    returns (ghost kept: seq<DirectedPath>, ghost found: seq<DirectedPath>)
    requires SoundDijkstra(dijkstra)
    requires EndpointsInRange(params) && params.srcNode < params.totalNodes
    requires params.kPaths <= pathcost.Length && params.kPaths <= pathlen.Length
    requires params.kPaths * (params.totalNodes - 1) <= pathinfo.Length
    requires pathinfo != pathlen
    modifies pathinfo, pathcost, pathlen
    ensures |kept| <= params.kPaths
    ensures forall a :: 0 <= a < |kept| ==> Kept(kept[a], params.totalNodes) && Runs(kept[a].vertices, params.srcNode, params.destNode)
    ensures RowsPacked(kept, |kept|, params.totalNodes, pathinfo[..], old(pathinfo[..]), pathcost[..], pathlen[..])
    ensures forall d :: |kept| <= d < params.kPaths ==> pathcost[d] == Inf && pathlen[d] == 0
    ensures SearchResult(found, FirstWins(params.edgeList), params.srcNode, params.destNode, params.kPaths)
    ensures kept == Filter(found, params.totalNodes)
    ensures |found| > 0 && Kept(found[0], params.totalNodes) ==> |kept| > 0 && kept[0] == found[0]
  {
    var paths := ComputePaths(params, dijkstra);
    found := paths;
    kept := CopyResults(paths, params.totalNodes, params.kPaths, pathinfo, pathcost, pathlen);
    FilterSound(paths, params.totalNodes);
  }
}
