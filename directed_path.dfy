// A path of the k-shortest-paths library (`CQYDirectedPath` in
// QYDirectedPath.h) and the order the library keeps its candidate paths
// in. Weights are natural numbers; `DISCONNECT` is `Inf`.

module DirectedPaths {
  import opened Common

  /** A path: its id, its cost, and its vertices from source to target.
      The source's separate source/terminal fields are never read by the
      library and are not modelled. */
  datatype DirectedPath = DirectedPath(id: int, cost: Cost, vertices: seq<int>)
  {
    /** `GetLength`: the number of vertices (not of arcs). */
    function Length(): (n: nat)
      ensures n == 0 <==> vertices == []
    {
      |vertices|
    }
  }

  /** `Comparator::operator()`: `s1` orders before `s2`. */
  predicate PathLess(s1: DirectedPath, s2: DirectedPath)
  {
    if s1.cost == s2.cost then
      if s1.Length() == s2.Length() then s1.id < s2.id else s1.Length() < s2.Length()
    else s1.cost.Below(s2.cost)
  }

  /** `Below` is a strict total order on costs. */
  lemma CostOrder(a: Cost, b: Cost, c: Cost)
    ensures !a.Below(a)
    ensures a.Below(b) ==> !b.Below(a)
    ensures a.Below(b) && b.Below(c) ==> a.Below(c)
    ensures a != b ==> a.Below(b) || b.Below(a)
  {
  }

  /** The comparator orders by cost, then by vertex count, then by id. */
  lemma PathLessLexicographic(s1: DirectedPath, s2: DirectedPath)
    ensures PathLess(s1, s2) <==>
              s1.cost.Below(s2.cost)
              || (s1.cost == s2.cost && s1.Length() < s2.Length())
              || (s1.cost == s2.cost && s1.Length() == s2.Length() && s1.id < s2.id)
  {
    CostOrder(s1.cost, s2.cost, s2.cost);
  }

  /** Neither path orders before the other: the two are one element for
      an ordered set keyed by the comparator. */
  predicate SameKey(s1: DirectedPath, s2: DirectedPath)
  {
    s1.cost == s2.cost && s1.Length() == s2.Length() && s1.id == s2.id
  }

  /** The comparator is a strict order whose incomparability is equality
      of (cost, length, id). */
  lemma {:induction false} PathLessStrictTotal(a: DirectedPath, b: DirectedPath, c: DirectedPath)
    ensures !PathLess(a, a)
    ensures PathLess(a, b) ==> !PathLess(b, a)
    ensures PathLess(a, b) && PathLess(b, c) ==> PathLess(a, c)
    ensures !PathLess(a, b) && !PathLess(b, a) <==> SameKey(a, b)
  {
    CostOrder(a.cost, b.cost, c.cost);
    CostOrder(b.cost, a.cost, c.cost);
  }
}
