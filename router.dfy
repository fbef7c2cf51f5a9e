// A router (Router.h, Router.cpp): its outgoing edges, the adjacency table
// from destination router to edge index, the per-router failure counters
// used by adaptive QoS, and the two cumulative probability tables that
// pick an outgoing edge (ACO) and a traffic destination.

module Routers {
  import opened Common
  import opened Edges

  /** The value `generateDestination` returns when no interval holds the
      draw: `-1` converted to `unsigned int`. */
  const NO_DESTINATION: nat := 0xFFFF_FFFF

  function Destinations(es: seq<Edge>): (d: seq<nat>)
    ensures |d| == |es|
    ensures forall i :: 0 <= i < |es| ==> d[i] == es[i].destinationIndex
  {
    if es == [] then [] else Destinations(es[..|es| - 1]) + [es[|es| - 1].destinationIndex]
  }

  /** Index of the last entry equal to `r`, or -1. */
  function LastIndexOf(d: seq<nat>, r: nat): (k: int)
    ensures -1 <= k < |d|
    ensures k >= 0 ==> d[k] == r && forall j :: k < j < |d| ==> d[j] != r
    ensures k == -1 ==> forall j :: 0 <= j < |d| ==> d[j] != r
  {
    if d == [] then -1
    else if d[|d| - 1] == r then |d| - 1
    else LastIndexOf(d[..|d| - 1], r)
  }

  /** Index of the first edge whose destination is `r`, if any. */
  function FirstEdgeTo(es: seq<Edge>, r: nat): (k: Option<nat>)
    ensures k.Some? ==> k.value < |es| && es[k.value].destinationIndex == r &&
                        forall j :: 0 <= j < k.value ==> es[j].destinationIndex != r
    ensures k.None? ==> forall j :: 0 <= j < |es| ==> es[j].destinationIndex != r
  {
    if es == [] then None
    else if es[0].destinationIndex == r then Some(0)
    else match FirstEdgeTo(es[1..], r)
         case None => None
         case Some(k) => Some(k + 1)
  }

  /** `chooseEdge` on the cumulative table `probs`: edge 0 when
      `p <= probs[0]`, otherwise the edge after the first `r` with
      `probs[r] < p <= probs[r+1]`. The source's scan reads one slot past
      the table when no such `r` exists; the model answers "no edge". */
  function ChooseEdgeIndex(probs: seq<real>, p: real): (k: Option<nat>)
    requires |probs| > 0
    ensures k == Some(0) <==> p <= probs[0]
    ensures k.Some? && k.value > 0 ==>
              k.value < |probs| && probs[k.value - 1] < p <= probs[k.value] &&
              forall r :: 0 <= r < k.value - 1 ==> !(probs[r] < p <= probs[r + 1])
    ensures k.None? ==> p > probs[0] && forall r :: 0 <= r < |probs| - 1 ==> !(probs[r] < p <= probs[r + 1])
  {
    if p <= probs[0] then Some(0) else ScanUpper(probs, p, 0)
  }

  function ScanUpper(probs: seq<real>, p: real, r: nat): (k: Option<nat>)
    requires r < |probs|
    decreases |probs| - r
    ensures k.Some? ==> r < k.value < |probs| && probs[k.value - 1] < p <= probs[k.value] &&
                        forall j :: r <= j < k.value - 1 ==> !(probs[j] < p <= probs[j + 1])
    ensures k.None? ==> forall j :: r <= j < |probs| - 1 ==> !(probs[j] < p <= probs[j + 1])
  {
    if r + 1 >= |probs| then None
    else if probs[r] < p <= probs[r + 1] then Some(r + 1)
    else ScanUpper(probs, p, r + 1)
  }

  predicate Nondecreasing(s: seq<real>)
  {
    forall i, j :: 0 <= i <= j < |s| ==> s[i] <= s[j]
  }

  /** On a nondecreasing table ending in 1.0, every draw `p <= 1` picks
      an edge. */
  lemma {:induction false} ChooseEdgeTotal(probs: seq<real>, p: real)
    requires |probs| > 0 && Nondecreasing(probs) && probs[|probs| - 1] == 1.0 && p <= 1.0
    ensures ChooseEdgeIndex(probs, p).Some?
  {
    if p > probs[0] {
      var r := 0;
      while r + 1 < |probs| && !(probs[r] < p <= probs[r + 1])
        invariant 0 <= r < |probs| && probs[r] < p
      {
        r := r + 1;
      }
      assert r + 1 < |probs|;
    }
  }

  /** `generateDestination`: 0 when `p < probs[0]`, otherwise `r + 1`
      for the first `r` with `probs[r] < p < probs[r+1]`, otherwise the
      unsigned image of -1. The bounds are strict on both sides. */
  function GenerateDestinationIndex(probs: seq<real>, p: real): (k: nat)
    requires 0 < |probs| <= NO_DESTINATION
    ensures k == 0 <==> p < probs[0]
    ensures k != NO_DESTINATION && k > 0 ==>
              k < |probs| && probs[k - 1] < p < probs[k] &&
              forall r :: 0 <= r < k - 1 ==> !(probs[r] < p < probs[r + 1])
    ensures k == NO_DESTINATION ==> p >= probs[0] && forall r :: 0 <= r < |probs| - 1 ==> !(probs[r] < p < probs[r + 1])
  {
    if p < probs[0] then 0 else ScanOpen(probs, p, 0)
  }

  function ScanOpen(probs: seq<real>, p: real, r: nat): (k: nat)
    requires r < |probs| <= NO_DESTINATION
    decreases |probs| - r
    ensures k != NO_DESTINATION ==>
              r < k < |probs| && probs[k - 1] < p < probs[k] &&
              forall j :: r <= j < k - 1 ==> !(probs[j] < p < probs[j + 1])
    ensures k == NO_DESTINATION ==> forall j :: r <= j < |probs| - 1 ==> !(probs[j] < p < probs[j + 1])
  {
    if r + 1 >= |probs| then NO_DESTINATION
    else if probs[r] < p < probs[r + 1] then r + 1
    else ScanOpen(probs, p, r + 1)
  }

  lemma DivideMonotone(a: real, b: real, t: real)
    requires a <= b && t > 0.0
    ensures a / t <= b / t
  {
  }

  lemma DivideAdd(a: real, b: real, t: real)
    requires t != 0.0
    ensures a / t + b / t == (a + b) / t
  {
  }

  lemma DivideSelf(t: real)
    requires t != 0.0
    ensures t / t == 1.0
  {
  }

  function Sum(w: seq<real>): real
  {
    if w == [] then 0.0 else Sum(w[..|w| - 1]) + w[|w| - 1]
  }

  /** Entry `i` of the cumulative table built from weights `w` with total
      `t`: the share of the first `i + 1` weights. */
  function CumulativeShares(w: seq<real>, t: real): (c: seq<real>)
    requires t != 0.0
    ensures |c| == |w|
  {
    seq(|w|, i requires 0 <= i < |w| => Sum(w[..i + 1]) / t)
  }

  lemma {:induction false} SumNonnegMonotone(w: seq<real>, i: nat, j: nat)
    requires forall k :: 0 <= k < |w| ==> w[k] >= 0.0
    requires i <= j <= |w|
    ensures Sum(w[..i]) <= Sum(w[..j])
    decreases j - i
  {
    if i < j {
      SumNonnegMonotone(w, i, j - 1);
      assert w[..j][..j - 1] == w[..j - 1];
    }
  }

  lemma CumulativeSharesMonotone(w: seq<real>, t: real)
    requires t > 0.0
    requires forall k :: 0 <= k < |w| ==> w[k] >= 0.0
    ensures Nondecreasing(CumulativeShares(w, t))
  {
    var c := CumulativeShares(w, t);
    forall i, j | 0 <= i <= j < |c| ensures c[i] <= c[j] {
      SumNonnegMonotone(w, i + 1, j + 1);
      DivideMonotone(Sum(w[..i + 1]), Sum(w[..j + 1]), t);
    }
  }

  lemma CumulativeSharesRepeat(w: seq<real>, t: real, k: nat)
    requires t != 0.0 && 0 < k < |w| && w[k] == 0.0
    ensures CumulativeShares(w, t)[k] == CumulativeShares(w, t)[k - 1]
  {
    assert w[..k + 1][..k] == w[..k];
    assert Sum(w[..k + 1]) == Sum(w[..k]);
  }

  /** The cumulative table of nonnegative weights over their positive
      total is nondecreasing, ends in exactly 1, and repeats the previous
      entry wherever the weight is 0. */
  lemma CumulativeSharesShape(w: seq<real>, t: real)
    requires |w| > 0 && t > 0.0 && t == Sum(w)
    requires forall k :: 0 <= k < |w| ==> w[k] >= 0.0
    ensures Nondecreasing(CumulativeShares(w, t))
    ensures CumulativeShares(w, t)[|w| - 1] == 1.0
    ensures forall k :: 0 < k < |w| && w[k] == 0.0 ==>
              CumulativeShares(w, t)[k] == CumulativeShares(w, t)[k - 1]
    ensures w[0] == 0.0 ==> CumulativeShares(w, t)[0] == 0.0
  {
    CumulativeSharesMonotone(w, t);
    assert w[..|w|] == w;
    assert CumulativeShares(w, t)[|w| - 1] == Sum(w[..|w|]) / t;
    assert Sum(w[..|w|]) == t;
    DivideSelf(t);
    forall k | 0 < k < |w| && w[k] == 0.0
      ensures CumulativeShares(w, t)[k] == CumulativeShares(w, t)[k - 1]
    {
      CumulativeSharesRepeat(w, t, k);
    }
    assert w[..1][..0] == [];
    assert Sum(w[..1]) == w[0];
    assert CumulativeShares(w, t)[0] == Sum(w[..1]) / t;
  }

  /** Weight of destination `r` seen from router `own`: 0 for itself,
      otherwise 1, the span count of the shortest path, or its inverse. */
  function DestinationWeight(dist: DestinationDistribution, own: nat, r: nat, spans: nat): real
    requires dist == InverseDistance && r != own ==> spans > 0
  {
    if r == own then 0.0
    else match dist
         case Distance => spans as real
         case InverseDistance => 1.0 / (spans as real)
         case Uniform => 1.0
  }

  /** A table whose entry for router `own` repeats its predecessor (or is 0
      at index 0) never selects `own` for a nonnegative draw. */
  lemma GenerateDestinationNeverSelf(probs: seq<real>, own: nat, p: real)
    requires own < |probs| <= NO_DESTINATION && p >= 0.0
    requires own == 0 ==> probs[0] == 0.0
    requires own > 0 ==> probs[own] == probs[own - 1]
    ensures GenerateDestinationIndex(probs, p) != own
  {
  }

  /** The weights `generateProbabilities` gives the routers, in order. */
  function DestinationWeights(dist: DestinationDistribution, own: nat, spans: seq<nat>): (w: seq<real>)
    requires forall r :: 0 <= r < |spans| && r != own ==> spans[r] > 0
    ensures |w| == |spans|
  {
    seq(|spans|, r requires 0 <= r < |spans| => DestinationWeight(dist, own, r, spans[r]))
  }

  /** The destination table built from `DestinationWeights`: the total
      is positive, the table nondecreasing and ending at 1.0, and the
      entry of router `own` repeats its predecessor (0 at index 0), so no
      nonnegative draw selects `own`. */
  lemma DestinationTable(dist: DestinationDistribution, own: nat, spans: seq<nat>)
    requires own < |spans| && 2 <= |spans| <= 0x1_0000
    requires forall r :: 0 <= r < |spans| && r != own ==> spans[r] > 0
    ensures Sum(DestinationWeights(dist, own, spans)) > 0.0
    ensures var w := DestinationWeights(dist, own, spans);
      var c := CumulativeShares(w, Sum(w));
      Nondecreasing(c) && c[|w| - 1] == 1.0
      && (own > 0 ==> c[own] == c[own - 1]) && (own == 0 ==> c[0] == 0.0)
      && forall p :: p >= 0.0 ==> GenerateDestinationIndex(c, p) != own
  {
    var w := DestinationWeights(dist, own, spans);
    PositiveTotal(w, if own == 0 then 1 else 0);
    CumulativeSharesShape(w, Sum(w));
    var c := CumulativeShares(w, Sum(w));
    forall p | p >= 0.0 ensures GenerateDestinationIndex(c, p) != own {
      GenerateDestinationNeverSelf(c, own, p);
    }
  }

  /** Entry `r` of a cumulative table exceeds the one before it (0 before
      the first) by weight `r`'s share of the total: the width of the
      interval of draws that select `r`. */
  lemma CumulativeShareWidth(w: seq<real>, t: real, r: nat)
    requires t != 0.0 && r < |w|
    ensures CumulativeShares(w, t)[r] - (if r == 0 then 0.0 else CumulativeShares(w, t)[r - 1]) == w[r] / t
  {
    assert w[..r + 1][..r] == w[..r];
    if r == 0 {
      assert w[..0] == [];
    }
    DivideAdd(Sum(w[..r]), w[r], t);
  }

  lemma PositiveTotal(w: seq<real>, k: nat)
    requires k < |w| && w[k] > 0.0
    requires forall j :: 0 <= j < |w| ==> w[j] >= 0.0
    ensures Sum(w) > 0.0
  {
    SumNonnegMonotone(w, 0, k);
    SumNonnegMonotone(w, k + 1, |w|);
    assert w[..k + 1][..k] == w[..k];
    assert w[..|w|] == w;
  }

  lemma DestinationsAppend(es: seq<Edge>, e: Edge)
    ensures Destinations(es + [e]) == Destinations(es) + [e.destinationIndex]
  {
    assert (es + [e])[..|es|] == es;
  }

  lemma LastIndexOfAppend(d: seq<nat>, x: nat, r: nat)
    ensures LastIndexOf(d + [x], r) == if r == x then |d| else LastIndexOf(d, r)
  {
    assert (d + [x])[..|d|] == d;
  }

  lemma AdjacencyAfterAppend(before: seq<int>, dests: seq<nat>, d: nat)
    requires d < |before|
    requires forall r :: 0 <= r < |before| ==> before[r] == LastIndexOf(dests, r)
    ensures forall r :: 0 <= r < |before| ==>
              before[d := |dests|][r] == LastIndexOf(dests + [d], r)
  {
    forall r | 0 <= r < |before| ensures before[d := |dests|][r] == LastIndexOf(dests + [d], r) {
      LastIndexOfAppend(dests, d, r);
    }
  }

  /** Appending an element that is not there keeps the elements distinct. */
  lemma DistinctAppend(es: seq<Edge>, e: Edge)
    requires forall i, j :: 0 <= i < j < |es| ==> es[i] != es[j]
    requires e !in es
    ensures var s := es + [e]; forall i, j :: 0 <= i < j < |s| ==> s[i] != s[j]
  {
    var s := es + [e];
    forall i, j | 0 <= i < j < |s| ensures s[i] != s[j] {
      if j == |es| { assert s[i] in es; }
    }
  }

  /** The table the first `addEdge` allocates: one entry per router, all -1. */
  method NewAdjacencyTable(n: nat) returns (table: array<int>)
    ensures fresh(table) && table.Length == n
    ensures forall b :: 0 <= b < n ==> table[b] == -1
  {
    table := new int[n];
    var a := 0;
    while a < n
      invariant 0 <= a <= n
      invariant forall b :: 0 <= b < a ==> table[b] == -1
    {
      table[a] := -1;
      a := a + 1;
    }
  }

  /** The normalising pass shared by both tables: each entry is the
      previous one plus the next weight's share of `t`. */
  method RunningShares(w: seq<real>, t: real) returns (probs: seq<real>)
    requires t != 0.0
    ensures probs == CumulativeShares(w, t)
  {
    probs := [];
    var cumulative := 0.0;
    var i := 0;
    while i < |w|
      invariant 0 <= i <= |w| && |probs| == i
      invariant forall k :: 0 <= k < i ==> probs[k] == CumulativeShares(w, t)[k]
      invariant cumulative == Sum(w[..i]) / t
    {
      assert w[..i + 1][..i] == w[..i];
      DivideAdd(Sum(w[..i]), w[i], t);
      cumulative := cumulative + w[i] / t;
      probs := probs + [cumulative];
      i := i + 1;
    }
  }

  class Router {
    var routerIndex: nat
    var adjacencyList: array?<int>
    var edgeList: seq<Edge>
    var qualityFailures: nat
    var waveFailures: nat
    var destinationProbs: seq<real>
    var acoProbs: seq<real>

    /** The adjacency table is allocated with the first edge; afterwards
        entry `r` is the index of the last edge added toward `r`, or -1.
        The edges are distinct objects. */
    ghost predicate Valid()
      reads this, adjacencyList
    {
      (adjacencyList == null ==> edgeList == []) &&
      (adjacencyList != null ==>
         (forall i :: 0 <= i < |edgeList| ==> edgeList[i].destinationIndex < adjacencyList.Length) &&
         (forall r :: 0 <= r < adjacencyList.Length ==>
            adjacencyList[r] == LastIndexOf(Destinations(edgeList), r))) &&
      (forall i, j :: 0 <= i < j < |edgeList| ==> edgeList[i] != edgeList[j])
    }

    /** Every edge's arrays are sized for its wavelength count. */
    ghost predicate EdgesValid()
      reads this
    {
      forall i :: 0 <= i < |edgeList| ==> edgeList[i].Valid()
    }

    /** The source leaves the failure counters unset until `resetFailures`;
        the model starts them at 0. */
    constructor (index: nat)
      ensures Valid() && EdgesValid()
      ensures routerIndex == index && adjacencyList == null && edgeList == []
      ensures qualityFailures == 0 && waveFailures == 0
      ensures destinationProbs == [] && acoProbs == []
    {
      routerIndex := index;
      adjacencyList := null;
      edgeList := [];
      qualityFailures, waveFailures := 0, 0;
      destinationProbs, acoProbs := [], [];
    }

    function GetNumberOfEdges(): nat
      reads this
    {
      |edgeList|
    }

    function GetEdgeByIndex(e: nat): Edge
      reads this
      requires e < |edgeList|
    {
      edgeList[e]
    }

    /** The stored table entry for `r`: -1 when no edge toward `r` was
        added, otherwise the index of the last such edge. */
    function IsAdjacentTo(r: nat): (k: int)
      requires Valid() && adjacencyList != null && r < adjacencyList.Length
      reads this, adjacencyList
      ensures k == -1 <==> forall i :: 0 <= i < |edgeList| ==> edgeList[i].destinationIndex != r
      ensures k >= 0 ==> k < |edgeList| && edgeList[k].destinationIndex == r &&
                         forall j :: k < j < |edgeList| ==> edgeList[j].destinationIndex != r
    {
      adjacencyList[r]
    }

    /** The first edge in list order that ends at `r`, if any. */
    function GetEdgeByDestination(r: nat): (e: Option<Edge>)
      reads this
      ensures e.Some? <==> FirstEdgeTo(edgeList, r).Some?
      ensures e.Some? ==> e.value == edgeList[FirstEdgeTo(edgeList, r).value] && e.value.destinationIndex == r
    {
      match FirstEdgeTo(edgeList, r)
      case None => None
      case Some(k) => Some(edgeList[k])
    }

    /** On the first call `addEdge` (Router.cpp:95-101) allocates the
        table of `routerCount` entries and sets every entry to -1. */
    method EnsureTable(routerCount: nat)
      requires Valid()
      modifies this`adjacencyList
      ensures Valid() && adjacencyList != null
      ensures old(adjacencyList) != null ==> adjacencyList == old(adjacencyList)
      ensures old(adjacencyList) == null ==>
                fresh(adjacencyList) && adjacencyList.Length == routerCount
                && forall r :: 0 <= r < routerCount ==> adjacencyList[r] == -1
    {
      if adjacencyList == null {
        adjacencyList := NewAdjacencyTable(routerCount);
      }
    }

    /** Append `e` to the edge list and record its index as the entry of
        its destination (Router.cpp:103-105). */
    method AppendEdge(e: Edge)
      requires Valid() && adjacencyList != null && e !in edgeList
      requires e.destinationIndex < adjacencyList.Length
      modifies this`edgeList, adjacencyList
      ensures Valid()
      ensures edgeList == old(edgeList) + [e]
      ensures adjacencyList[..] == old(adjacencyList[..])[e.destinationIndex := old(|edgeList|)]
    {
      ghost var dests := Destinations(edgeList);
      ghost var before := adjacencyList[..];
      assert forall r :: 0 <= r < |before| ==> before[r] == LastIndexOf(dests, r);
      DestinationsAppend(edgeList, e);
      AdjacencyAfterAppend(before, dests, e.destinationIndex);
      DistinctAppend(edgeList, e);
      adjacencyList[e.destinationIndex] := |edgeList|;
      edgeList := edgeList + [e];
      assert adjacencyList[..] == before[e.destinationIndex := |dests|];
    }

    /** `addEdge` (Router.cpp:93-106): append `e`; on the first call the table of
        `routerCount` entries is allocated and every entry set to -1 before
        `e`'s entry is written. */
    method AddEdge(e: Edge, routerCount: nat)
      requires Valid() && e !in edgeList
      requires adjacencyList == null ==> e.destinationIndex < routerCount
      requires adjacencyList != null ==> e.destinationIndex < adjacencyList.Length
      modifies this`adjacencyList, this`edgeList, adjacencyList
      ensures Valid()
      ensures edgeList == old(edgeList) + [e]
      ensures old(adjacencyList) != null ==> adjacencyList == old(adjacencyList)
      ensures old(adjacencyList) == null ==> fresh(adjacencyList) && adjacencyList.Length == routerCount
      ensures adjacencyList != null && IsAdjacentTo(e.destinationIndex) == old(|edgeList|)
      ensures old(adjacencyList) != null ==>
                forall r :: 0 <= r < adjacencyList.Length && r != e.destinationIndex ==>
                  adjacencyList[r] == old(adjacencyList[r])
      ensures old(adjacencyList) == null ==>
                forall r :: 0 <= r < adjacencyList.Length && r != e.destinationIndex ==> adjacencyList[r] == -1
    {
      ghost var n := |edgeList|;
      if adjacencyList == null {
        EnsureTable(routerCount);
        ghost var table := adjacencyList[..];
        AppendEdge(e);
        assert adjacencyList[..] == table[e.destinationIndex := n];
      } else {
        ghost var table := adjacencyList[..];
        AppendEdge(e);
        assert adjacencyList[..] == table[e.destinationIndex := n];
      }
    }

    method IncrementQualityFailures()
      modifies this`qualityFailures
      ensures qualityFailures == old(qualityFailures) + 1
    {
      qualityFailures := qualityFailures + 1;
    }

    method IncrementWaveFailures()
      modifies this`waveFailures
      ensures waveFailures == old(waveFailures) + 1
    {
      waveFailures := waveFailures + 1;
    }

    method ResetFailures()
      modifies this`qualityFailures, this`waveFailures
      ensures qualityFailures == 0 && waveFailures == 0
    {
      qualityFailures := 0;
      waveFailures := 0;
    }

    /** `updateUsage` on every outgoing edge. */
    method UpdateUsage(qFactorStats: bool)
      requires Valid() && EdgesValid()
      modifies edgeList`algorithmUsage
      ensures forall i :: 0 <= i < |edgeList| ==>
                edgeList[i].algorithmUsage ==
                  (old(edgeList[i].algorithmUsage) +
                   (if qFactorStats then |edgeList[i].established| else CountUsed(edgeList[i].status[..])) as real) / 2.0
    {
      var i := 0;
      while i < |edgeList|
        invariant 0 <= i <= |edgeList|
        invariant forall j :: 0 <= j < i ==>
                    edgeList[j].algorithmUsage ==
                      (old(edgeList[j].algorithmUsage) +
                       (if qFactorStats then |edgeList[j].established| else CountUsed(edgeList[j].status[..])) as real) / 2.0
        invariant forall j :: i <= j < |edgeList| ==> edgeList[j].algorithmUsage == old(edgeList[j].algorithmUsage)
      {
        edgeList[i].UpdateUsage(qFactorStats);
        i := i + 1;
      }
    }

    /** `resetAlgorithmUsage` on every outgoing edge. */
    method ResetUsage()
      modifies edgeList`algorithmUsage
      ensures forall e :: e in edgeList ==> e.algorithmUsage == 0.0
    {
      var i := 0;
      while i < |edgeList|
        invariant 0 <= i <= |edgeList|
        invariant forall j :: 0 <= j < i ==> edgeList[j].algorithmUsage == 0.0
      {
        edgeList[i].ResetAlgorithmUsage();
        i := i + 1;
      }
    }

    /** `resetQMDegredation` on every outgoing edge. */
    method ResetQMDegredation()
      requires EdgesValid()
      modifies set e | e in edgeList :: e.degredation
      ensures forall i, w :: 0 <= i < |edgeList| && 0 <= w < edgeList[i].W ==> edgeList[i].degredation[w] == 0.0
    {
      var i := 0;
      while i < |edgeList|
        invariant 0 <= i <= |edgeList|
        invariant forall j, w :: 0 <= j < i && 0 <= w < edgeList[j].W ==> edgeList[j].degredation[w] == 0.0
      {
        edgeList[i].ResetQMDegredation();
        i := i + 1;
      }
    }

    /** The destination table of `generateProbabilities`: router `own`
        gets weight 0, every other router the weight its distribution
        gives to the span count of its shortest path, and the table holds
        the running shares of the total. */
    method GenerateProbabilities(dist: DestinationDistribution, routerCount: nat, pathSpans: seq<nat>)
      requires |pathSpans| == routerCount && routerIndex < routerCount && 2 <= routerCount <= 0x1_0000
      requires forall r :: 0 <= r < routerCount && r != routerIndex ==> pathSpans[r] > 0
      modifies this`destinationProbs
      ensures |destinationProbs| == routerCount
      ensures Nondecreasing(destinationProbs) && destinationProbs[routerCount - 1] == 1.0
      ensures routerIndex > 0 ==> destinationProbs[routerIndex] == destinationProbs[routerIndex - 1]
      ensures routerIndex == 0 ==> destinationProbs[0] == 0.0
      ensures forall p :: p >= 0.0 ==> GenerateDestinationIndex(destinationProbs, p) != routerIndex
      ensures Sum(DestinationWeights(dist, routerIndex, pathSpans)) > 0.0
      ensures destinationProbs == CumulativeShares(DestinationWeights(dist, routerIndex, pathSpans),
                                                   Sum(DestinationWeights(dist, routerIndex, pathSpans)))
    {
      var weights: seq<real> := [];
      var total := 0.0;
      var r1 := 0;
      while r1 < routerCount
        invariant 0 <= r1 <= routerCount && |weights| == r1
        invariant forall k :: 0 <= k < r1 ==> weights[k] == DestinationWeight(dist, routerIndex, k, pathSpans[k])
        invariant total == Sum(weights)
      {
        var wt := DestinationWeight(dist, routerIndex, r1, pathSpans[r1]);
        assert (weights + [wt])[..r1] == weights;
        weights := weights + [wt];
        total := total + wt;
        r1 := r1 + 1;
      }
      assert weights == DestinationWeights(dist, routerIndex, pathSpans);
      DestinationTable(dist, routerIndex, pathSpans);
      destinationProbs := RunningShares(weights, total);
    }

    /** The ACO table of `generateACOProbabilities`: the running shares of
        the per-edge scores (pheromone and heuristic already raised to
        their powers, 0 for an edge not leaving this router), with the
        last entry forced to exactly 1. */
    method GenerateACOProbabilities(scores: seq<real>)
      requires |scores| == |edgeList| > 0
      requires forall k :: 0 <= k < |scores| ==> scores[k] >= 0.0
      requires Sum(scores) > 0.0
      modifies this`acoProbs
      ensures acoProbs == CumulativeShares(scores, Sum(scores))[..|scores| - 1] + [1.0]
      ensures Nondecreasing(acoProbs) && acoProbs[|acoProbs| - 1] == 1.0
      ensures forall p :: p <= 1.0 ==> ChooseEdgeIndex(acoProbs, p).Some?
    {
      var n := |scores|;
      var total := 0.0;
      var e2 := 0;
      while e2 < n
        invariant 0 <= e2 <= n
        invariant total == Sum(scores[..e2])
      {
        assert scores[..e2 + 1][..e2] == scores[..e2];
        total := total + scores[e2];
        e2 := e2 + 1;
      }
      assert scores[..n] == scores;
      var probs := RunningShares(scores, total);
      CumulativeSharesShape(scores, total);
      probs := probs[n - 1 := 1.0];
      assert probs == CumulativeShares(scores, total)[..n - 1] + [1.0];
      acoProbs := probs;
      forall p | p <= 1.0 ensures ChooseEdgeIndex(acoProbs, p).Some? {
        ChooseEdgeTotal(acoProbs, p);
      }
    }

    /** `chooseEdge`: the outgoing edge the ACO table picks for draw `p`. */
    function ChooseEdge(p: real): (e: Option<Edge>)
      requires |acoProbs| > 0 && |acoProbs| <= |edgeList|
      reads this
      ensures e.Some? ==> e.value in edgeList
      ensures p <= acoProbs[0] ==> e == Some(edgeList[0])
    {
      match ChooseEdgeIndex(acoProbs, p)
      case None => None
      case Some(k) => Some(edgeList[k])
    }

    /** `generateDestination` on this router's destination table. */
    function GenerateDestination(p: real): (d: nat)
      requires 0 < |destinationProbs| <= NO_DESTINATION
      reads this
    {
      GenerateDestinationIndex(destinationProbs, p)
    }
  }
}
