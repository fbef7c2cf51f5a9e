// Path selection of the resource manager (ResourceManager.cpp): the
// span-constrained PABR choice among LORA paths, the AQoS ranking of
// QM paths by free wavelengths, the cached shortest paths of the SP
// algorithm and the edge list handed to the k-shortest-path library.
// The k-shortest-path queries themselves are parameters: a query's
// result is a list of slots, each a cost and the routers of the path
// (`pathcost[a]`, and the `pathlen[a]` entries of row `a` of
// `pathinfo`).

module PathSelection {
  import opened Common
  import opened Edges
  import opened Routers
  import opened DirectedGraphs
  import opened DirectedPaths
  import opened ShortestPaths
  import opened KShortestPaths
  import opened MainP

  /** Slot `a` of a k-shortest-path result. */
  datatype PathSlot = PathSlot(cost: Cost, vertices: seq<nat>)

  /** A slot with no path: cost `+inf`, length 0. */
  const Blank: PathSlot := PathSlot(Inf, [])

  function Min(a: nat, b: nat): nat { if a < b then a else b }

  function Pow(b: nat, e: nat): nat
  {
    if e == 0 then 1 else b * Pow(b, e - 1)
  }

  // ---------------------------------------------------------------------
  // Spans of a path

  /** Spans of the edges between consecutive routers of `vs`, where
      `spans(u, v)` is the span count of the edge from `u` to `v`. */
  function SpanTotal(vs: seq<nat>, spans: (nat, nat) -> nat): nat
  {
    if |vs| < 2 then 0
    else SpanTotal(vs[..|vs| - 1], spans) + spans(vs[|vs| - 2], vs[|vs| - 1])
  }

  /** The span count of a path is additive: cutting it at router `i`
      splits its spans between the two halves. */
  lemma {:induction false} SpanTotalSplit(vs: seq<nat>, i: nat, spans: (nat, nat) -> nat)
    requires i < |vs|
    ensures SpanTotal(vs, spans) == SpanTotal(vs[..i + 1], spans) + SpanTotal(vs[i..], spans)
    decreases |vs|
  {
    if i + 1 < |vs| {
      var n := |vs| - 1;
      assert vs[..n][..i + 1] == vs[..i + 1];
      assert vs[..n][i..] == vs[i..][..|vs[i..]| - 1];
      SpanTotalSplit(vs[..n], i, spans);
    } else {
      assert vs[..i + 1] == vs;
    }
  }

  /** The inner loop of the PABR scan (ResourceManager.cpp:395-401). */
  method PathSpans(vs: seq<nat>, spans: (nat, nat) -> nat) returns (total: nat)
    ensures total == SpanTotal(vs, spans)
  {
    total := 0;
    if |vs| < 2 {
      return;
    }
    var p := 0;
    while p + 1 < |vs|
      invariant p + 1 <= |vs|
      invariant total == SpanTotal(vs[..p + 1], spans)
    {
      assert vs[..p + 2][..p + 1] == vs[..p + 1];
      total := total + spans(vs[p], vs[p + 1]);
      p := p + 1;
    }
    assert vs[..p + 1] == vs;
  }

  // ---------------------------------------------------------------------
  // PABR: classification of the LORA slots

  datatype PathStatus = PathValid | PathTooLong | PathInfinity

  /** A slot with cost `+inf` holds no path; a path with more spans than
      the network allows is too long; any other path is valid. */
  function StatusOf(s: PathSlot, spans: (nat, nat) -> nat, maxSpans: nat): PathStatus
  {
    if s.cost == Inf then PathInfinity
    else if SpanTotal(s.vertices, spans) > maxSpans then PathTooLong
    else PathValid
  }

  function Statuses(slots: seq<PathSlot>, spans: (nat, nat) -> nat, maxSpans: nat): seq<PathStatus>
  {
    seq(|slots|, a requires 0 <= a < |slots| => StatusOf(slots[a], spans, maxSpans))
  }

  /** The positions below `n` whose status is `x`, in order. */
  function IndicesUpTo(st: seq<PathStatus>, x: PathStatus, n: nat): seq<nat>
    requires n <= |st|
  {
    if n == 0 then []
    else IndicesUpTo(st, x, n - 1) + (if st[n - 1] == x then [n - 1] else [])
  }

  /** The positions whose status is `x`, in order. */
  function Indices(st: seq<PathStatus>, x: PathStatus): (ix: seq<nat>)
    ensures forall m :: 0 <= m < |ix| ==> ix[m] < |st|
  {
    IndicesSound(st, x, |st|);
    IndicesUpTo(st, x, |st|)
  }

  /** `IndicesUpTo` lists exactly the positions below `n` with status
      `x`, in increasing order. */
  lemma {:induction false} IndicesSound(st: seq<PathStatus>, x: PathStatus, n: nat)
    requires n <= |st|
    ensures forall m :: 0 <= m < |IndicesUpTo(st, x, n)| ==> IndicesUpTo(st, x, n)[m] < n && st[IndicesUpTo(st, x, n)[m]] == x
    ensures forall m, j :: 0 <= m < j < |IndicesUpTo(st, x, n)| ==> IndicesUpTo(st, x, n)[m] < IndicesUpTo(st, x, n)[j]
    ensures forall a :: 0 <= a < n && st[a] == x ==> a in IndicesUpTo(st, x, n)
  {
    if n > 0 {
      IndicesSound(st, x, n - 1);
    }
  }

  /** The positions below `m` come first among those below `n`. */
  lemma {:induction false} IndicesExtend(st: seq<PathStatus>, x: PathStatus, m: nat, n: nat)
    requires m <= n <= |st|
    ensures |IndicesUpTo(st, x, m)| <= |IndicesUpTo(st, x, n)|
    ensures IndicesUpTo(st, x, n)[..|IndicesUpTo(st, x, m)|] == IndicesUpTo(st, x, m)
    decreases n - m
  {
    if m < n {
      IndicesExtend(st, x, m, n - 1);
      var p := IndicesUpTo(st, x, n - 1);
      assert IndicesUpTo(st, x, n)[..|p|] == p;
    }
  }

  /** The positions below `n` depend on the first `n` statuses only. */
  lemma {:induction false} IndicesLocal(st: seq<PathStatus>, t: seq<PathStatus>, x: PathStatus, n: nat)
    requires n <= |st| && n <= |t| && st[..n] == t[..n]
    ensures IndicesUpTo(st, x, n) == IndicesUpTo(t, x, n)
  {
    if n > 0 {
      assert st[n - 1] == st[..n][n - 1];
      assert t[n - 1] == t[..n][n - 1];
      assert st[..n - 1] == t[..n - 1] by {
        assert st[..n - 1] == st[..n][..n - 1];
        assert t[..n - 1] == t[..n][..n - 1];
      }
      IndicesLocal(st, t, x, n - 1);
    }
  }

  /** Positions from `m` to `n` without status `x` add nothing. */
  lemma {:induction false} IndicesNone(st: seq<PathStatus>, x: PathStatus, m: nat, n: nat)
    requires m <= n <= |st| && forall a :: m <= a < n ==> st[a] != x
    ensures IndicesUpTo(st, x, n) == IndicesUpTo(st, x, m)
  {
    if m < n {
      IndicesNone(st, x, m, n - 1);
    }
  }

  /** The scan of one PABR round (ResourceManager.cpp:384-416): classify
      the slots in order, stopping as soon as `k` valid paths are found.
      The statuses after a stop are never set. */
  method ClassifySlots(slots: seq<PathSlot>, k: nat, spans: (nat, nat) -> nat, maxSpans: nat)
      returns (status: seq<PathStatus>, found: nat)
    requires k >= 1
    ensures |status| <= |slots| && status == Statuses(slots, spans, maxSpans)[..|status|]
    ensures found == |Indices(status, PathValid)|
    ensures found == Min(k, |Indices(Statuses(slots, spans, maxSpans), PathValid)|)
    ensures found < k ==> |status| == |slots|
  {
    status, found := [], 0;
    ghost var all := Statuses(slots, spans, maxSpans);
    var a := 0;
    while a < |slots|
      invariant a <= |slots| && |status| == a
      invariant status == all[..a]
      invariant found == |Indices(status, PathValid)| && found < k
    {
      var s: PathStatus;
      if slots[a].cost == Inf {
        s := PathInfinity;
      } else {
        var pathSpans := PathSpans(slots[a].vertices, spans);
        s := if pathSpans > maxSpans then PathTooLong else PathValid;
      }
      var next := status + [s];
      assert next[..a] == status;
      IndicesLocal(next, status, PathValid, a);
      assert all[..a + 1] == next;
      status := next;
      a := a + 1;
      if s == PathValid {
        found := found + 1;
        if found == k {
          break;
        }
      }
    }
    IndicesLocal(all, status, PathValid, a);
    IndicesExtend(all, PathValid, a, |all|);
  }

  /** The slots at the positions `ix`, in that order. */
  function Take(slots: seq<PathSlot>, ix: seq<nat>): (r: seq<PathSlot>)
    requires forall m :: 0 <= m < |ix| ==> ix[m] < |slots|
    ensures |r| == |ix| && forall m :: 0 <= m < |ix| ==> r[m] == slots[ix[m]]
  {
    if ix == [] then [] else [slots[ix[0]]] + Take(slots, ix[1..])
  }

  /** The copy loops of a PABR result as written (ResourceManager.cpp:
      430-445, 472-487, 492-507): for each of `count` result slots the
      position advances, unbounded, to the next status `x`. `None` marks
      a scan that runs past the end of the status array. */
  method PickWith(st: seq<PathStatus>, x: PathStatus, count: nat) returns (r: Option<seq<nat>>)
    ensures count <= |Indices(st, x)| ==> r == Some(Indices(st, x)[..count])
    ensures count > |Indices(st, x)| ==> r == None
  {
    var picks: seq<nat> := [];
    var kIndex := 0;
    var a := 0;
    while a < count
      invariant a <= count && |picks| == a && kIndex <= |st|
      invariant picks == IndicesUpTo(st, x, kIndex)
    {
      while kIndex < |st| && st[kIndex] != x
        invariant kIndex <= |st|
        invariant picks == IndicesUpTo(st, x, kIndex)
      {
        kIndex := kIndex + 1;
      }
      if kIndex == |st| {
        return None;
      }
      picks := picks + [kIndex];
      kIndex := kIndex + 1;
      a := a + 1;
    }
    IndicesExtend(st, x, kIndex, |st|);
    r := Some(picks);
  }

  /** The same scan stopped at the end of the status array: the first
      `count` positions with status `x`, or all of them if there are
      fewer. */
  method PickUpTo(st: seq<PathStatus>, x: PathStatus, count: nat) returns (picks: seq<nat>)
    ensures picks == Indices(st, x)[..Min(count, |Indices(st, x)|)]
  {
    picks := [];
    var kIndex := 0;
    while |picks| < count && kIndex < |st|
      invariant kIndex <= |st| && |picks| <= count
      invariant picks == IndicesUpTo(st, x, kIndex)
    {
      if st[kIndex] == x {
        picks := picks + [kIndex];
      }
      kIndex := kIndex + 1;
    }
    IndicesExtend(st, x, kIndex, |st|);
  }

  /** `count` blank slots. */
  function Blanks(count: nat): (r: seq<PathSlot>)
    ensures |r| == count && forall m :: 0 <= m < count ==> r[m] == Blank
  {
    if count == 0 then [] else [Blank] + Blanks(count - 1)
  }

  /** The result after the last round: every valid path, then the
      earliest too-long paths, then blank slots for whatever is still
      missing of `k`. */
  function Fallback(slots: seq<PathSlot>, st: seq<PathStatus>, k: nat): (r: seq<PathSlot>)
    requires |st| == |slots|
  {
    var valid := Indices(st, PathValid);
    var long := Indices(st, PathTooLong);
    var c := Min(k, |valid|);
    var t := Min(k - c, |long|);
    Take(slots, valid[..c]) + Take(slots, long[..t]) + Blanks(k - c - t)
  }

  /** The paths asked of LORA in round `iteration`: 2^(iteration-1) when
      one path is wanted, k^iteration otherwise. */
  function KProduct(k: nat, iteration: nat): nat
    requires iteration >= 1
  {
    if k == 1 then Pow(k + 1, iteration - 1) else Pow(k, iteration)
  }

  const MAX_ITERATIONS: nat := 4

  /** The outcome of one PABR round on the LORA slots `slots`: the first
      `k` valid paths if there are `k` of them, the fall-back in the last
      round, and no result otherwise. */
  function Round(slots: seq<PathSlot>, k: nat, spans: (nat, nat) -> nat, maxSpans: nat, last: bool)
      : (r: Option<seq<PathSlot>>)
    ensures last ==> r.Some?
  {
    var st := Statuses(slots, spans, maxSpans);
    var valid := Indices(st, PathValid);
    if |valid| >= k then Some(Take(slots, valid[..k]))
    else if last then Some(Fallback(slots, st, k))
    else None
  }

  /** The PABR result from round `iteration` on. `lora(n)` is the LORA
      query for `n` paths. */
  function ParFrom(k: nat, iteration: nat, lora: nat -> seq<PathSlot>, spans: (nat, nat) -> nat, maxSpans: nat)
      : seq<PathSlot>
    requires 1 <= iteration <= MAX_ITERATIONS
    decreases MAX_ITERATIONS - iteration
  {
    var r := Round(lora(KProduct(k, iteration)), k, spans, maxSpans, iteration == MAX_ITERATIONS);
    if r.Some? then r.value else ParFrom(k, iteration + 1, lora, spans, maxSpans)
  }

  /** One PABR round (ResourceManager.cpp:371-529): classify, then copy
      the chosen slots. */
  method ParRound(slots: seq<PathSlot>, k: nat, spans: (nat, nat) -> nat, maxSpans: nat, last: bool)
      returns (r: Option<seq<PathSlot>>)
    requires k >= 1
    ensures r == Round(slots, k, spans, maxSpans, last)
  {
    var status, found := ClassifySlots(slots, k, spans, maxSpans);
    ghost var all := Statuses(slots, spans, maxSpans);
    if found == k {
      assert all[..|status|] == status;
      IndicesLocal(all, status, PathValid, |status|);
      IndicesExtend(all, PathValid, |status|, |all|);
      assert Indices(all, PathValid)[..k] == Indices(status, PathValid);
      var picks := PickWith(status, PathValid, k);
      assert picks.value == Indices(status, PathValid);
      return Some(Take(slots, picks.value));
    }
    assert status == all;
    if last {
      var valid := PickUpTo(status, PathValid, found);
      var long := PickUpTo(status, PathTooLong, k - found);
      assert valid == Indices(all, PathValid);
      return Some(Take(slots, valid) + Take(slots, long) + Blanks(k - found - |long|));
    }
    return None;
  }

  /** The fall-back as written (ResourceManager.cpp:461-518): both copy
      loops scan without a bound. It fails (`None`, a read past the end
      of the status array) exactly when there are fewer too-long paths
      than slots left to fill; otherwise it agrees with `Fallback`. */
  method FallbackAsWritten(slots: seq<PathSlot>, k: nat, spans: (nat, nat) -> nat, maxSpans: nat)
      returns (r: Option<seq<PathSlot>>)
    requires |Indices(Statuses(slots, spans, maxSpans), PathValid)| < k
    ensures var st := Statuses(slots, spans, maxSpans);
            var c := |Indices(st, PathValid)|;
            (r == None <==> k - c > |Indices(st, PathTooLong)|) &&
            (r != None ==> r == Some(Fallback(slots, st, k)))
  {
    var status, found := ClassifySlots(slots, k, spans, maxSpans);
    ghost var st := Statuses(slots, spans, maxSpans);
    assert status == st;
    var valid := PickWith(status, PathValid, found);
    assert valid.value == Indices(st, PathValid);
    var long := PickWith(status, PathTooLong, k - found);
    if long == None {
      return None;
    }
    var c, t := Min(k, found), Min(k - found, |Indices(st, PathTooLong)|);
    assert Indices(st, PathValid)[..c] == valid.value;
    assert Indices(st, PathTooLong)[..t] == long.value;
    assert Blanks(k - c - t) == [];
    r := Some(Take(slots, valid.value) + Take(slots, long.value) + []);
  }

  /** `calculate_PAR_path` (ResourceManager.cpp:357-532): at most four
      rounds of ever larger LORA queries; no result at all when no path
      is wanted. The fall-back stops its scan for too-long paths at the
      end of the round's slots and pads with blank slots. */
  method CalculateParPath(k: nat, lora: nat -> seq<PathSlot>, spans: (nat, nat) -> nat, maxSpans: nat)
      returns (r: Option<seq<PathSlot>>)
    ensures k == 0 <==> r == None
    ensures k >= 1 ==> r == Some(ParFrom(k, 1, lora, spans, maxSpans))
  {
    if k == 0 {
      return None;
    }
    var iteration := 1;
    while iteration <= MAX_ITERATIONS
      invariant 1 <= iteration <= MAX_ITERATIONS
      invariant ParFrom(k, 1, lora, spans, maxSpans) == ParFrom(k, iteration, lora, spans, maxSpans)
      decreases MAX_ITERATIONS - iteration
    {
      var kProduct := KProduct(k, iteration);
      r := ParRound(lora(kProduct), k, spans, maxSpans, iteration == MAX_ITERATIONS);
      if r.Some? {
        return;
      }
      iteration := iteration + 1;
    }
    assert false;
  }

  /** Layered order of statuses: valid, then too long, then empty. */
  function Tier(s: PathStatus): nat
  {
    match s
    case PathValid => 0
    case PathTooLong => 1
    case PathInfinity => 2
  }

  /** Every slot taken at positions of status `x` has status `x`. */
  lemma TakeStatus(slots: seq<PathSlot>, ix: seq<nat>, x: PathStatus, spans: (nat, nat) -> nat, maxSpans: nat)
    requires forall m :: 0 <= m < |ix| ==> ix[m] < |slots| && StatusOf(slots[ix[m]], spans, maxSpans) == x
    ensures forall m :: 0 <= m < |ix| ==> StatusOf(Take(slots, ix)[m], spans, maxSpans) == x
  {
  }

  /** Valid slots, then too-long ones, then blank ones are in tier order. */
  lemma ConcatTiers(p: seq<PathSlot>, q: seq<PathSlot>, b: seq<PathSlot>, spans: (nat, nat) -> nat, maxSpans: nat)
    requires forall i :: 0 <= i < |p| ==> StatusOf(p[i], spans, maxSpans) == PathValid
    requires forall i :: 0 <= i < |q| ==> StatusOf(q[i], spans, maxSpans) == PathTooLong
    requires forall i :: 0 <= i < |b| ==> b[i] == Blank
    ensures var r := p + q + b;
            forall i, j :: 0 <= i < j < |r| ==> Tier(StatusOf(r[i], spans, maxSpans)) <= Tier(StatusOf(r[j], spans, maxSpans))
  {
    var r := p + q + b;
    forall i | 0 <= i < |r|
      ensures Tier(StatusOf(r[i], spans, maxSpans)) == if i < |p| then 0 else if i < |p| + |q| then 1 else 2
    {
      if i < |p| {
        assert r[i] == p[i];
      } else if i < |p| + |q| {
        assert r[i] == q[i - |p|];
      } else {
        assert r[i] == b[i - |p| - |q|];
      }
    }
  }

  lemma FallbackParts(slots: seq<PathSlot>, st: seq<PathStatus>, k: nat)
    requires |st| == |slots|
    ensures var c := Min(k, |Indices(st, PathValid)|);
            var t := Min(k - c, |Indices(st, PathTooLong)|);
            Fallback(slots, st, k) ==
              Take(slots, Indices(st, PathValid)[..c]) + Take(slots, Indices(st, PathTooLong)[..t]) + Blanks(k - c - t)
  {
  }

  lemma FallbackShape(slots: seq<PathSlot>, k: nat, spans: (nat, nat) -> nat, maxSpans: nat)
    ensures var r := Fallback(slots, Statuses(slots, spans, maxSpans), k);
            |r| == k &&
            forall i, j :: 0 <= i < j < |r| ==> Tier(StatusOf(r[i], spans, maxSpans)) <= Tier(StatusOf(r[j], spans, maxSpans))
  {
    var st := Statuses(slots, spans, maxSpans);
    var valid := Indices(st, PathValid);
    var long := Indices(st, PathTooLong);
    var c := Min(k, |valid|);
    var t := Min(k - c, |long|);
    IndicesSound(st, PathValid, |st|);
    IndicesSound(st, PathTooLong, |st|);
    TakeStatus(slots, valid[..c], PathValid, spans, maxSpans);
    TakeStatus(slots, long[..t], PathTooLong, spans, maxSpans);
    var p, q, b := Take(slots, valid[..c]), Take(slots, long[..t]), Blanks(k - c - t);
    FallbackParts(slots, st, k);
    ConcatTiers(p, q, b, spans, maxSpans);
  }

  /** What PABR promises: exactly `k` slots, valid paths ahead of too-long
      ones ahead of empty ones; a slot that is not a valid path only when
      the last round found fewer than `k` valid ones. */
  lemma {:induction false} ParResult(k: nat, iteration: nat, lora: nat -> seq<PathSlot>, spans: (nat, nat) -> nat, maxSpans: nat)
    requires 1 <= iteration <= MAX_ITERATIONS
    ensures var r := ParFrom(k, iteration, lora, spans, maxSpans);
            |r| == k &&
            (forall i, j :: 0 <= i < j < |r| ==> Tier(StatusOf(r[i], spans, maxSpans)) <= Tier(StatusOf(r[j], spans, maxSpans))) &&
            (forall i :: 0 <= i < |r| && StatusOf(r[i], spans, maxSpans) != PathValid ==>
               |Indices(Statuses(lora(KProduct(k, MAX_ITERATIONS)), spans, maxSpans), PathValid)| < k)
    decreases MAX_ITERATIONS - iteration
  {
    var slots := lora(KProduct(k, iteration));
    var st := Statuses(slots, spans, maxSpans);
    var valid := Indices(st, PathValid);
    var r := ParFrom(k, iteration, lora, spans, maxSpans);
    if |valid| >= k {
      IndicesSound(st, PathValid, |st|);
      assert r == Take(slots, valid[..k]);
      TakeStatus(slots, valid[..k], PathValid, spans, maxSpans);
    } else if iteration == MAX_ITERATIONS {
      FallbackShape(slots, k, spans, maxSpans);
    } else {
      ParResult(k, iteration + 1, lora, spans, maxSpans);
    }
  }

  /** Two routers with no route between them, and one path wanted: every
      LORA round comes back with nothing but empty slots, eight of them in
      the last round. The fall-back then wants one too-long path and
      there is none, so as written its scan runs past the end of the
      status array; `Fallback` returns one blank slot instead. */
  lemma ParFallbackOverrun()
    ensures var slots := Blanks(KProduct(1, MAX_ITERATIONS));
            var spans := (u: nat, v: nat) => 1;
            var st := Statuses(slots, spans, 10);
            |slots| == 8 &&
            |Indices(st, PathValid)| == 0 && |Indices(st, PathTooLong)| == 0 &&
            Fallback(slots, st, 1) == [Blank]
  {
    assert KProduct(1, MAX_ITERATIONS) == 8 by { assert Pow(2, 3) == 8; }
    BlankRound(8, 1, (u: nat, v: nat) => 1, 10);
  }

  /** A round of nothing but blank slots has no valid and no too-long
      path, and its fall-back is blank slots only. */
  lemma BlankRound(n: nat, k: nat, spans: (nat, nat) -> nat, maxSpans: nat)
    ensures var st := Statuses(Blanks(n), spans, maxSpans);
            |Indices(st, PathValid)| == 0 && |Indices(st, PathTooLong)| == 0 &&
            Fallback(Blanks(n), st, k) == Blanks(k)
  {
    var slots := Blanks(n);
    var st := Statuses(slots, spans, maxSpans);
    assert forall a :: 0 <= a < |st| ==> st[a] == PathInfinity;
    IndicesNone(st, PathValid, 0, n);
    IndicesNone(st, PathTooLong, 0, n);
    assert Indices(st, PathValid) == [] && Indices(st, PathTooLong) == [];
    FallbackParts(slots, st, k);
    assert Take(slots, []) == [];
  }

  // ---------------------------------------------------------------------
  // AQoS: ranking the QM paths by free wavelengths

  /** Wavelength `w` is in use on some edge of the path `vs`, where
      `status(u, v, w)` is the state of `w` on the edge from `u` to `v`. */
  predicate Blocked(vs: seq<nat>, w: nat, status: (nat, nat, nat) -> EdgeStatus)
  {
    exists r :: 0 <= r < |vs| - 1 && status(vs[r], vs[r + 1], w) == EdgeUsed
  }

  /** The inner loop of the availability count (ResourceManager.cpp:
      615-626): walk the edges until `w` is found in use. */
  method UsedOnPath(vs: seq<nat>, w: nat, status: (nat, nat, nat) -> EdgeStatus) returns (b: bool)
    ensures b == Blocked(vs, w, status)
  {
    var r := 0;
    while r + 1 < |vs|
      invariant forall j :: 0 <= j < r && j < |vs| - 1 ==> status(vs[j], vs[j + 1], w) != EdgeUsed
    {
      if status(vs[r], vs[r + 1], w) == EdgeUsed {
        return true;
      }
      r := r + 1;
    }
    return false;
  }

  /** The wavelengths below `n` in use on some edge of `vs`. */
  function BlockedCount(vs: seq<nat>, n: nat, status: (nat, nat, nat) -> EdgeStatus): (c: nat)
    ensures c <= n
  {
    if n == 0 then 0
    else BlockedCount(vs, n - 1, status) + (if Blocked(vs, n - 1, status) then 1 else 0)
  }

  /** No wavelength below `n` counted as blocked exactly when none is in
      use on the path; all of them exactly when each is. */
  lemma {:induction false} BlockedCountBounds(vs: seq<nat>, n: nat, status: (nat, nat, nat) -> EdgeStatus)
    ensures BlockedCount(vs, n, status) == 0 <==> forall w :: 0 <= w < n ==> !Blocked(vs, w, status)
    ensures BlockedCount(vs, n, status) == n <==> forall w :: 0 <= w < n ==> Blocked(vs, w, status)
  {
    if n > 0 {
      BlockedCountBounds(vs, n - 1, status);
    }
  }

  /** The free-wavelength count AQoS ranks a path by: 0 for an empty
      slot, otherwise the wavelengths in use on no edge of the path. */
  function Availability(s: PathSlot, W: nat, status: (nat, nat, nat) -> EdgeStatus): nat
  {
    if s.cost == Inf then 0 else W - BlockedCount(s.vertices, W, status)
  }

  /** A path's availability is `W` exactly when no wavelength is used on
      it, and 0 exactly when there is no path or every wavelength is in
      use somewhere on it. */
  lemma AvailabilityMeaning(s: PathSlot, W: nat, status: (nat, nat, nat) -> EdgeStatus)
    ensures Availability(s, W, status) <= W
    ensures s.cost != Inf ==>
              (Availability(s, W, status) == W <==> forall w :: 0 <= w < W ==> !Blocked(s.vertices, w, status))
    ensures Availability(s, W, status) == 0 <==>
              s.cost == Inf || forall w :: 0 <= w < W ==> Blocked(s.vertices, w, status)
  {
    BlockedCountBounds(s.vertices, W, status);
  }

  /** The availability loop for one QM path (ResourceManager.cpp:603-629). */
  method PathAvailability(s: PathSlot, W: nat, status: (nat, nat, nat) -> EdgeStatus) returns (n: nat)
    ensures n == Availability(s, W, status)
  {
    if s.cost == Inf {
      return 0;
    }
    n := W;
    var w := 0;
    while w < W
      invariant w <= W && n == W - BlockedCount(s.vertices, w, status)
    {
      var b := UsedOnPath(s.vertices, w, status);
      if b {
        n := n - 1;
      }
      w := w + 1;
    }
  }

  function Availabilities(qm: seq<PathSlot>, W: nat, status: (nat, nat, nat) -> EdgeStatus): (a: seq<nat>)
    ensures |a| == |qm|
  {
    seq(|qm|, p requires 0 <= p < |qm| => Availability(qm[p], W, status))
  }

  /** The position of the first greatest positive entry, if any. */
  function Best(avail: seq<nat>): (b: Option<nat>)
    ensures b.Some? ==> b.value < |avail| && avail[b.value] > 0 &&
                        (forall j :: 0 <= j < |avail| ==> avail[j] <= avail[b.value]) &&
                        (forall j :: 0 <= j < b.value ==> avail[j] < avail[b.value])
    ensures b.None? ==> forall j :: 0 <= j < |avail| ==> avail[j] == 0
  {
    if avail == [] then None
    else
      var n := |avail| - 1;
      var o := Best(avail[..n]);
      assert forall j :: 0 <= j < n ==> avail[..n][j] == avail[j];
      if avail[n] > (if o.Some? then avail[o.value] else 0) then Some(n) else o
  }

  /** The search for the next path (ResourceManager.cpp:640-650): the
      first position of a greatest positive availability, or `|avail|`
      when every entry is 0. */
  method BestIndex(avail: seq<nat>) returns (maxIndex: nat)
    ensures maxIndex == if Best(avail).Some? then Best(avail).value else |avail|
  {
    var maxAvailable := 0;
    maxIndex := |avail|;
    var b := 0;
    while b < |avail|
      invariant b <= |avail|
      invariant var o := Best(avail[..b]);
                maxIndex == (if o.Some? then o.value else |avail|) &&
                maxAvailable == (if o.Some? then avail[o.value] else 0)
    {
      assert avail[..b + 1][..b] == avail[..b];
      ghost var o := Best(avail[..b]);
      assert o.Some? ==> avail[..b][o.value] == avail[o.value];
      if maxAvailable < avail[b] {
        maxAvailable := avail[b];
        maxIndex := b;
      }
      b := b + 1;
    }
    assert avail[..b] == avail;
  }

  /** The AQoS result from the remaining availabilities `cur`: `count`
      times the path of greatest availability, which is then set to 0, or
      a blank slot when none is left. */
  function RankFrom(cur: seq<nat>, slots: seq<PathSlot>, count: nat): seq<PathSlot>
    requires |cur| == |slots|
    decreases count
  {
    if count == 0 then []
    else match Best(cur)
      case None => [Blank] + RankFrom(cur, slots, count - 1)
      case Some(b) => [slots[b]] + RankFrom(cur[b := 0], slots, count - 1)
  }

  /** The copy loop of `calculate_AQoS_path` (ResourceManager.cpp:638-675). */
  method Rank(avail: seq<nat>, qm: seq<PathSlot>, k: nat) returns (r: seq<PathSlot>)
    requires |avail| == |qm|
    ensures r == RankFrom(avail, qm, k)
  {
    var cur := avail;
    r := [];
    var a := 0;
    while a < k
      invariant a <= k && |cur| == |qm|
      invariant RankFrom(avail, qm, k) == r + RankFrom(cur, qm, k - a)
    {
      var maxIndex := BestIndex(cur);
      if maxIndex != |cur| {
        r := r + [qm[maxIndex]];
        cur := cur[maxIndex := 0];
      } else {
        r := r + [Blank];
      }
      a := a + 1;
    }
  }

  /** `calculate_AQoS_path` (ResourceManager.cpp:596-687): rank the paths
      of the QM query for twice as many paths, `qm`, by availability. The
      result is a top-`k` selection of the QM paths with a free wavelength
      (`AqosResult`). */
  method CalculateAqosPath(k: nat, qm: seq<PathSlot>, W: nat, status: (nat, nat, nat) -> EdgeStatus)
      returns (r: seq<PathSlot>)
    ensures r == RankFrom(Availabilities(qm, W, status), qm, k)
    ensures var ps := RankPositions(Availabilities(qm, W, status), k);
            |r| == k && Descending(r, W, status)
            && (forall i :: 0 <= i < k ==> r[i] == SlotAt(qm, ps[i]))
            && TopSelection(ps, Availabilities(qm, W, status))
  {
    var avail: seq<nat> := [];
    var p := 0;
    while p < |qm|
      invariant p <= |qm| && avail == Availabilities(qm, W, status)[..p]
    {
      var n := PathAvailability(qm[p], W, status);
      avail := avail + [n];
      p := p + 1;
    }
    assert avail == Availabilities(qm, W, status);
    r := Rank(avail, qm, k);
    AqosResult(k, qm, W, status);
  }

  /** Every remaining availability is either spent (0) or the path's own. */
  predicate Tracks(cur: seq<nat>, slots: seq<PathSlot>, W: nat, status: (nat, nat, nat) -> EdgeStatus)
    requires |cur| == |slots|
  {
    forall j :: 0 <= j < |cur| ==> cur[j] == 0 || cur[j] == Availability(slots[j], W, status)
  }

  lemma TracksSpent(cur: seq<nat>, slots: seq<PathSlot>, b: nat, W: nat, status: (nat, nat, nat) -> EdgeStatus)
    requires |cur| == |slots| && b < |cur| && Tracks(cur, slots, W, status)
    ensures Tracks(cur[b := 0], slots, W, status)
  {
  }

  /** No ranked path is more available than the bound on what remains;
      each is a blank slot or a QM path with wavelengths free. */
  lemma {:induction false} RankBound(cur: seq<nat>, slots: seq<PathSlot>, count: nat, bound: nat,
                                     W: nat, status: (nat, nat, nat) -> EdgeStatus)
    requires |cur| == |slots| && Tracks(cur, slots, W, status)
    requires forall j :: 0 <= j < |cur| ==> cur[j] <= bound
    decreases count
    ensures var r := RankFrom(cur, slots, count);
            |r| == count &&
            forall i :: 0 <= i < |r| ==>
              Availability(r[i], W, status) <= bound &&
              (r[i] == Blank || (r[i] in slots && Availability(r[i], W, status) > 0))
  {
    if count > 0 {
      match Best(cur)
      case None =>
        RankBound(cur, slots, count - 1, bound, W, status);
      case Some(b) =>
        var next := cur[b := 0];
        TracksSpent(cur, slots, b, W, status);
        RankBound(next, slots, count - 1, bound, W, status);
    }
  }

  /** Availability does not increase along `r`. */
  predicate Descending(r: seq<PathSlot>, W: nat, status: (nat, nat, nat) -> EdgeStatus)
  {
    forall i, j :: 0 <= i < j < |r| ==> Availability(r[i], W, status) >= Availability(r[j], W, status)
  }

  lemma ConsDescending(x: PathSlot, rest: seq<PathSlot>, W: nat, status: (nat, nat, nat) -> EdgeStatus)
    requires Descending(rest, W, status)
    requires forall i :: 0 <= i < |rest| ==> Availability(rest[i], W, status) <= Availability(x, W, status)
    ensures Descending([x] + rest, W, status)
  {
    var r := [x] + rest;
    forall i, j | 0 <= i < j < |r|
      ensures Availability(r[i], W, status) >= Availability(r[j], W, status)
    {
      assert r[j] == rest[j - 1];
      if i > 0 {
        assert r[i] == rest[i - 1];
      }
    }
  }

  /** The AQoS result lists its paths by non-increasing availability. */
  lemma {:induction false} RankSorted(cur: seq<nat>, slots: seq<PathSlot>, count: nat,
                                      W: nat, status: (nat, nat, nat) -> EdgeStatus)
    requires |cur| == |slots| && Tracks(cur, slots, W, status)
    decreases count
    ensures Descending(RankFrom(cur, slots, count), W, status)
  {
    if count > 0 {
      match Best(cur)
      case None =>
        RankBound(cur, slots, count - 1, 0, W, status);
        RankSorted(cur, slots, count - 1, W, status);
        ConsDescending(Blank, RankFrom(cur, slots, count - 1), W, status);
      case Some(b) =>
        var next := cur[b := 0];
        TracksSpent(cur, slots, b, W, status);
        RankBound(next, slots, count - 1, cur[b], W, status);
        RankSorted(next, slots, count - 1, W, status);
        ConsDescending(slots[b], RankFrom(next, slots, count - 1), W, status);
    }
  }

  /** The QM positions the copy loop picks from the remaining
      availabilities `cur`, one per output slot: the first position of a
      greatest positive availability, which is then spent, or `None` for a
      blank slot. */
  function RankPositions(cur: seq<nat>, count: nat): (ps: seq<Option<nat>>)
    ensures |ps| == count
    decreases count
  {
    if count == 0 then []
    else match Best(cur)
      case None => [None] + RankPositions(cur, count - 1)
      case Some(b) => [Some(b)] + RankPositions(cur[b := 0], count - 1)
  }

  /** The slot a picked position stands for. */
  function SlotAt(slots: seq<PathSlot>, p: Option<nat>): PathSlot
  {
    if p.Some? && p.value < |slots| then slots[p.value] else Blank
  }

  /** Each picked position has a free wavelength. */
  predicate PicksPositive(ps: seq<Option<nat>>, avail: seq<nat>)
  {
    forall i :: 0 <= i < |ps| && ps[i].Some? ==> ps[i].value < |avail| && avail[ps[i].value] > 0
  }

  /** No position is picked twice. */
  predicate PicksDistinct(ps: seq<Option<nat>>)
  {
    forall i, j :: 0 <= i < j < |ps| && ps[i].Some? && ps[j].Some? ==> ps[i].value != ps[j].value
  }

  /** A blank comes only once every position with a free wavelength has
      been picked. */
  predicate BlanksExhausted(ps: seq<Option<nat>>, avail: seq<nat>)
  {
    forall i, j :: 0 <= i < |ps| && ps[i].None? && 0 <= j < |avail| && avail[j] > 0 ==> Some(j) in ps[..i]
  }

  /** No position left out is more available than a picked one. */
  predicate PicksTop(ps: seq<Option<nat>>, avail: seq<nat>)
  {
    forall i, j :: 0 <= i < |ps| && ps[i].Some? && ps[i].value < |avail| && 0 <= j < |avail| && Some(j) !in ps ==>
      avail[j] <= avail[ps[i].value]
  }

  /** `ps` is a top-`|ps|` selection of the positions with positive
      availability in `avail`. */
  predicate TopSelection(ps: seq<Option<nat>>, avail: seq<nat>)
  {
    PicksPositive(ps, avail) && PicksDistinct(ps) && BlanksExhausted(ps, avail) && PicksTop(ps, avail)
  }

  /** The copy loop's picks form a top selection of the availabilities
      (ResourceManager.cpp:638-675): zeroing a picked entry keeps it from
      being picked again, and the scan always takes a greatest one. */
  lemma RankChoice(cur: seq<nat>, count: nat)
    ensures TopSelection(RankPositions(cur, count), cur)
  {
    RankPicksPositive(cur, count);
    RankPicksDistinct(cur, count);
    RankBlanksExhausted(cur, count);
    RankPicksTop(cur, count);
  }

  lemma {:induction false} RankPicksPositive(cur: seq<nat>, count: nat)
    decreases count
    ensures PicksPositive(RankPositions(cur, count), cur)
  {
    if count > 0 {
      var ps := RankPositions(cur, count);
      match Best(cur)
      case None =>
        var rest := RankPositions(cur, count - 1);
        RankPicksPositive(cur, count - 1);
        forall i | 0 <= i < |ps| && ps[i].Some?
          ensures ps[i].value < |cur| && cur[ps[i].value] > 0
        {
          if i > 0 {
            assert ps[i] == rest[i - 1];
          }
        }
      case Some(b) =>
        var next := cur[b := 0];
        var rest := RankPositions(next, count - 1);
        RankPicksPositive(next, count - 1);
        forall i | 0 <= i < |ps| && ps[i].Some?
          ensures ps[i].value < |cur| && cur[ps[i].value] > 0
        {
          if i > 0 {
            assert ps[i] == rest[i - 1];
            assert next[rest[i - 1].value] > 0;
          }
        }
    }
  }

  lemma {:induction false} RankPicksDistinct(cur: seq<nat>, count: nat)
    decreases count
    ensures PicksDistinct(RankPositions(cur, count))
  {
    if count > 0 {
      var ps := RankPositions(cur, count);
      match Best(cur)
      case None =>
        var rest := RankPositions(cur, count - 1);
        RankPicksDistinct(cur, count - 1);
        forall i, j | 0 <= i < j < |ps| && ps[i].Some? && ps[j].Some?
          ensures ps[i].value != ps[j].value
        {
          if i > 0 {
            assert ps[i] == rest[i - 1] && ps[j] == rest[j - 1];
          }
        }
      case Some(b) =>
        var next := cur[b := 0];
        var rest := RankPositions(next, count - 1);
        RankPicksDistinct(next, count - 1);
        RankPicksPositive(next, count - 1);
        forall i, j | 0 <= i < j < |ps| && ps[i].Some? && ps[j].Some?
          ensures ps[i].value != ps[j].value
        {
          assert ps[j] == rest[j - 1];
          if i > 0 {
            assert ps[i] == rest[i - 1];
          } else {
            assert next[rest[j - 1].value] > 0;
          }
        }
    }
  }

  lemma {:induction false} RankBlanksExhausted(cur: seq<nat>, count: nat)
    decreases count
    ensures BlanksExhausted(RankPositions(cur, count), cur)
  {
    if count > 0 {
      var ps := RankPositions(cur, count);
      match Best(cur)
      case None =>
      case Some(b) =>
        var next := cur[b := 0];
        var rest := RankPositions(next, count - 1);
        RankBlanksExhausted(next, count - 1);
        forall i, j | 0 <= i < |ps| && ps[i].None? && 0 <= j < |cur| && cur[j] > 0
          ensures Some(j) in ps[..i]
        {
          assert i > 0 && ps[i] == rest[i - 1];
          assert ps[..i] == [Some(b)] + rest[..i - 1];
          if j != b {
            assert next[j] > 0;
            assert Some(j) in rest[..i - 1];
          }
        }
    }
  }

  lemma {:induction false} RankPicksTop(cur: seq<nat>, count: nat)
    decreases count
    ensures PicksTop(RankPositions(cur, count), cur)
  {
    if count > 0 {
      var ps := RankPositions(cur, count);
      match Best(cur)
      case None =>
        RankPicksPositive(cur, count);
      case Some(b) =>
        var next := cur[b := 0];
        var rest := RankPositions(next, count - 1);
        RankPicksTop(next, count - 1);
        RankPicksPositive(next, count - 1);
        assert ps == [Some(b)] + rest;
        forall i, j | 0 <= i < |ps| && ps[i].Some? && ps[i].value < |cur| && 0 <= j < |cur| && Some(j) !in ps
          ensures cur[j] <= cur[ps[i].value]
        {
          if i > 0 {
            TopStep(cur, b, rest, i - 1, j);
          }
        }
    }
  }

  /** One later pick of the copy loop beats every position left out: the
      spent entry `b` is neither, so the remaining availabilities agree
      with `cur` on both. */
  lemma TopStep(cur: seq<nat>, b: nat, rest: seq<Option<nat>>, i: nat, j: nat)
    requires b < |cur| && i < |rest| && j < |cur| && rest[i].Some?
    requires PicksPositive(rest, cur[b := 0]) && PicksTop(rest, cur[b := 0])
    requires Some(j) !in [Some(b)] + rest
    ensures rest[i].value < |cur| && cur[j] <= cur[rest[i].value]
  {
    var next := cur[b := 0];
    assert next[rest[i].value] > 0;
    assert j != b && Some(j) !in rest;
  }

  /** Each ranked slot is the QM path at its picked position, or a blank. */
  lemma {:induction false} RankSelects(cur: seq<nat>, slots: seq<PathSlot>, count: nat)
    requires |cur| == |slots|
    decreases count
    ensures var r := RankFrom(cur, slots, count);
            var ps := RankPositions(cur, count);
            |r| == count && forall i :: 0 <= i < count ==> r[i] == SlotAt(slots, ps[i])
  {
    if count > 0 {
      match Best(cur)
      case None =>
        RankSelects(cur, slots, count - 1);
      case Some(b) =>
        RankSelects(cur[b := 0], slots, count - 1);
    }
  }

  /** What AQoS promises: `k` slots in non-increasing order of free
      wavelengths, each a blank or one of the QM paths with a free
      wavelength. */
  lemma AqosResult(k: nat, qm: seq<PathSlot>, W: nat, status: (nat, nat, nat) -> EdgeStatus)
    ensures var r := RankFrom(Availabilities(qm, W, status), qm, k);
            |r| == k &&
            Descending(r, W, status) &&
            (forall i :: 0 <= i < |r| ==> r[i] == Blank || (r[i] in qm && Availability(r[i], W, status) > 0))
    ensures var avail := Availabilities(qm, W, status);
            var ps := RankPositions(avail, k);
            (forall i :: 0 <= i < k ==> RankFrom(avail, qm, k)[i] == SlotAt(qm, ps[i]))
            && TopSelection(ps, avail)
  {
    var avail := Availabilities(qm, W, status);
    RankSelects(avail, qm, k);
    RankChoice(avail, k);
    var top := 0;
    var j := 0;
    while j < |avail|
      invariant j <= |avail| && forall m :: 0 <= m < j ==> avail[m] <= top
    {
      if avail[j] > top {
        top := avail[j];
      }
      j := j + 1;
    }
    RankBound(avail, qm, k, top, W, status);
    RankSorted(avail, qm, k, W, status);
  }

  // ---------------------------------------------------------------------
  // build_KSP_EdgeList

  /** Every router has an adjacency table over all the routers. The
      source reads `adjacencyList[b]` unguarded, so a router without one
      cannot be scanned. */
  predicate TablesSized(routers: seq<Router>)
    reads routers
  {
    forall i :: 0 <= i < |routers| ==>
      routers[i].adjacencyList != null && routers[i].adjacencyList.Length == |routers|
  }

  /** Every table entry that marks an adjacency has an edge behind it,
      so `getEdgeByDestination` finds one. */
  predicate EdgesBehindTable(r: Router)
    reads r, r.adjacencyList
  {
    r.adjacencyList != null &&
    forall b :: 0 <= b < r.adjacencyList.Length && r.adjacencyList[b] >= 0 ==> r.GetEdgeByDestination(b).Some?
  }

  /** A router in its valid state has an edge behind each table entry. */
  lemma ValidTableHasEdges(r: Router)
    requires r.Valid() && r.adjacencyList != null
    ensures EdgesBehindTable(r)
  {
    forall b | 0 <= b < r.adjacencyList.Length && r.adjacencyList[b] >= 0
      ensures r.GetEdgeByDestination(b).Some?
    {
      assert r.edgeList[r.IsAdjacentTo(b)].destinationIndex == b;
    }
  }

  /** The span count the edge list gives the arc from `r` to `b`: that of
      the first edge in `r`'s list toward `b`. */
  function SpansToward(r: Router, b: nat): nat
    reads r
  {
    match r.GetEdgeByDestination(b)
    case Some(e) => e.numberOfSpans
    case None => 0
  }

  /** The arcs out of router `r` (index `a`) toward routers below `b`. */
  function RowEdges(r: Router, a: nat, b: nat): seq<KspEdge>
    requires r.adjacencyList != null && b <= r.adjacencyList.Length
    reads r, r.adjacencyList
  {
    if b == 0 then []
    else RowEdges(r, a, b - 1) +
         (if r.adjacencyList[b - 1] >= 0 then [KspEdge(a, b - 1, SpansToward(r, b - 1))] else [])
  }

  /** The arcs out of the routers below `a`, router by router. */
  function TableEdges(routers: seq<Router>, a: nat): seq<KspEdge>
    requires a <= |routers| && TablesSized(routers)
    reads routers, set i | 0 <= i < |routers| :: routers[i].adjacencyList
  {
    if a == 0 then []
    else TableEdges(routers, a - 1) + RowEdges(routers[a - 1], a - 1, |routers|)
  }

  /** `x` comes before `y` in (source, destination) order. */
  predicate Before(x: KspEdge, y: KspEdge)
  {
    x.src < y.src || (x.src == y.src && x.dest < y.dest)
  }

  predicate StrictlyOrdered(es: seq<KspEdge>)
  {
    forall i, j :: 0 <= i < j < |es| ==> Before(es[i], es[j])
  }

  /** A row holds exactly the adjacencies below `b`, each with its span
      count. */
  lemma {:induction false} RowEdgesMembers(r: Router, a: nat, b: nat)
    requires r.adjacencyList != null && b <= r.adjacencyList.Length
    ensures forall e :: e in RowEdges(r, a, b) <==>
              e.src == a && e.dest < b && r.adjacencyList[e.dest] >= 0 && e.cost == SpansToward(r, e.dest)
  {
    if b > 0 {
      RowEdgesMembers(r, a, b - 1);
    }
  }

  lemma OrderedJoin(p: seq<KspEdge>, q: seq<KspEdge>)
    requires StrictlyOrdered(p) && StrictlyOrdered(q)
    requires forall x, y :: x in p && y in q ==> Before(x, y)
    ensures StrictlyOrdered(p + q)
  {
    var pq := p + q;
    forall i, j | 0 <= i < j < |pq|
      ensures Before(pq[i], pq[j])
    {
      if j < |p| {
        assert pq[i] == p[i] && pq[j] == p[j];
      } else if i >= |p| {
        assert pq[i] == q[i - |p|] && pq[j] == q[j - |p|];
      } else {
        assert pq[i] in p && pq[j] in q;
      }
    }
  }

  /** The edge list holds exactly one arc per adjacent pair of routers,
      costed by span count, sorted by source and then destination. */
  lemma TableEdgesMembers(routers: seq<Router>, a: nat)
    requires a <= |routers| && TablesSized(routers)
    ensures forall e :: e in TableEdges(routers, a) <==>
              e.src < a && e.dest < |routers| && routers[e.src].adjacencyList[e.dest] >= 0 &&
              e.cost == SpansToward(routers[e.src], e.dest)
    ensures StrictlyOrdered(TableEdges(routers, a))
  {
    TableEdgesIn(routers, a);
    TableEdgesOrdered(routers, a);
  }

  /** The arcs of the first `a` rows are the adjacencies of their
      routers. */
  lemma {:induction false} TableEdgesIn(routers: seq<Router>, a: nat)
    requires a <= |routers| && TablesSized(routers)
    ensures forall e :: e in TableEdges(routers, a) <==>
              e.src < a && e.dest < |routers| && routers[e.src].adjacencyList[e.dest] >= 0 &&
              e.cost == SpansToward(routers[e.src], e.dest)
  {
    if a > 0 {
      var front, row := TableEdges(routers, a - 1), RowEdges(routers[a - 1], a - 1, |routers|);
      assert TableEdges(routers, a) == front + row;
      TableEdgesIn(routers, a - 1);
      RowEdgesMembers(routers[a - 1], a - 1, |routers|);
      forall e: KspEdge ensures e in front + row <==>
                e.src < a && e.dest < |routers| && routers[e.src].adjacencyList[e.dest] >= 0 &&
                e.cost == SpansToward(routers[e.src], e.dest)
      {
        assert e in front + row <==> e in front || e in row;
        if e.src == a - 1 {
          assert routers[e.src] == routers[a - 1];
          assert e !in front;
        } else {
          assert e !in row;
        }
      }
    }
  }

  /** The arcs of the first `a` rows are sorted by source and then
      destination, and all leave routers below `a`. */
  lemma {:induction false} TableEdgesOrdered(routers: seq<Router>, a: nat)
    requires a <= |routers| && TablesSized(routers)
    ensures StrictlyOrdered(TableEdges(routers, a))
    ensures forall e :: e in TableEdges(routers, a) ==> e.src < a
  {
    if a > 0 {
      var front, row := TableEdges(routers, a - 1), RowEdges(routers[a - 1], a - 1, |routers|);
      TableEdgesOrdered(routers, a - 1);
      RowShape(routers[a - 1], a - 1, |routers|);
      OrderedJoin(front, row);
      assert TableEdges(routers, a) == front + row;
    }
  }

  /** A row's arcs leave router `a` and are sorted by destination. */
  lemma {:induction false} RowShape(r: Router, a: nat, b: nat)
    requires r.adjacencyList != null && b <= r.adjacencyList.Length
    ensures forall e :: e in RowEdges(r, a, b) ==> e.src == a && e.dest < b
    ensures StrictlyOrdered(RowEdges(r, a, b))
  {
    if b > 0 {
      RowShape(r, a, b - 1);
      var p := RowEdges(r, a, b - 1);
      var x := if r.adjacencyList[b - 1] >= 0 then [KspEdge(a, b - 1, SpansToward(r, b - 1))] else [];
      assert RowEdges(r, a, b) == p + x;
      OrderedJoin(p, x);
    }
  }

  /** The inner loop of `build_KSP_EdgeList` (ResourceManager.cpp:2559-
      2572) for router `a`. */
  method ScanRow(r: Router, a: nat, n: nat) returns (row: seq<KspEdge>)
    requires EdgesBehindTable(r) && n == r.adjacencyList.Length
    ensures row == RowEdges(r, a, n)
  {
    row := [];
    var b := 0;
    while b < n
      invariant b <= n && row == RowEdges(r, a, b)
    {
      var edgeId := r.adjacencyList[b];
      if edgeId >= 0 {
        var e := r.GetEdgeByDestination(b);
        row := row + [KspEdge(a, b, e.value.numberOfSpans)];
      }
      b := b + 1;
    }
  }

  /** `build_KSP_EdgeList` (ResourceManager.cpp:2551-2580): the arcs of
      the topology, or exit with `ERROR_TOO_MANY_EDGES` when there are
      more than the topology's edge count. */
  method BuildKspEdgeList(routers: seq<Router>, numberOfEdges: nat) returns (r: Outcome<seq<KspEdge>>)
    requires TablesSized(routers) && forall i :: 0 <= i < |routers| ==> EdgesBehindTable(routers[i])
    ensures r.Fatal? <==> |TableEdges(routers, |routers|)| > numberOfEdges
    ensures r.Fatal? ==> r.code == ERROR_TOO_MANY_EDGES
    ensures r.Done? ==> r.value == TableEdges(routers, |routers|)
  {
    var list := [];
    var a := 0;
    while a < |routers|
      invariant a <= |routers| && list == TableEdges(routers, a)
    {
      var row := ScanRow(routers[a], a, |routers|);
      list := list + row;
      a := a + 1;
    }
    if |list| > numberOfEdges {
      return Fatal(ERROR_TOO_MANY_EDGES);
    }
    return Done(list);
  }

  // ---------------------------------------------------------------------
  // The shortest-path cache and calculate_SP_path

  /** The arcs of `es`, each of cost 1. */
  ghost function UnitArcs(es: seq<KspEdge>): seq<KspEdge>
  {
    seq(|es|, i requires 0 <= i < |es| => KspEdge(es[i].src, es[i].dest, 1))
  }

  /** Edges of one cost give every pair of the map that cost. */
  lemma {:induction false} FirstWinsUniform(es: seq<KspEdge>, c: nat)
    requires forall k :: 0 <= k < |es| ==> es[k].cost == c
    ensures forall key :: key in FirstWins(es) ==> FirstWins(es)[key] == Fin(c)
    decreases |es|
  {
    if es != [] {
      FirstWinsUniform(es[..|es| - 1], c);
    }
  }

  /** The weights the query of `calculate_SP_path` searches: 1 on every
      arc of `list` and no arc elsewhere, so a path's cost is its number
      of hops. */
  ghost function HopWeights(list: seq<KspEdge>): (m: WeightMap)
    ensures forall a, b :: Weight(m, a, b) ==
              if exists e :: e in list && Key(e) == (a, b) then Fin(1) else Inf
  {
    HopWeightsOfList(list);
    FirstWins(UnitArcs(list))
  }

  lemma HopWeightsOfList(list: seq<KspEdge>)
    ensures forall a, b :: Weight(FirstWins(UnitArcs(list)), a, b) ==
              if exists e :: e in list && Key(e) == (a, b) then Fin(1) else Inf
  {
    var es := UnitArcs(list);
    FirstWinsUniform(es, 1);
    FirstWinsKeys(es);
    forall a, b
      ensures Weight(FirstWins(es), a, b) ==
                if exists e :: e in list && Key(e) == (a, b) then Fin(1) else Inf
    {
      if (a, b) in FirstWins(es) {
        var k :| 0 <= k < |es| && Key(es[k]) == (a, b);
        assert list[k] in list && Key(list[k]) == (a, b);
      } else {
        forall e | e in list
          ensures Key(e) != (a, b)
        {
          var k :| 0 <= k < |list| && list[k] == e;
          assert Key(es[k]) == Key(e);
        }
      }
    }
  }

  /** The cost loop of `calculate_SP_path` (ResourceManager.cpp:134-137):
      the same arcs, each of cost 1. */
  method UnitCosts(es: seq<KspEdge>) returns (r: seq<KspEdge>)
    ensures |r| == |es|
    ensures forall i :: 0 <= i < |es| ==> r[i] == KspEdge(es[i].src, es[i].dest, 1)
    ensures r == UnitArcs(es)
  {
    r := es;
    var a := 0;
    while a < |r|
      invariant a <= |r| == |es|
      invariant forall i :: 0 <= i < a ==> r[i] == KspEdge(es[i].src, es[i].dest, 1)
      invariant forall i :: a <= i < |r| ==> r[i] == es[i]
    {
      r := r[a := r[a].(cost := 1)];
      a := a + 1;
    }
  }

  /** The slot of the pair (`src`, `dest`) in the row-major matrix. */
  function Cell(n: nat, src: nat, dest: nat): (c: nat)
    requires src < n && dest < n
    ensures c < n * n
  {
    assert src * n + dest < (src + 1) * n <= n * n;
    src * n + dest
  }

  /** What a fresh query result holds: `k` rows of `totalNodes - 1`
      vertex slots, the kept paths from `src` to `dest` packed into the
      leading rows, and the rest marked infinite and empty. */
  ghost predicate Computed(ret: KPathReturn, kept: seq<DirectedPath>, src: nat, dest: nat, k: nat, totalNodes: nat)
  {
    |ret.pathcost| == k && |ret.pathlen| == k && |ret.pathinfo| == k * (totalNodes - 1) &&
    |kept| <= k &&
    (forall a :: 0 <= a < |kept| ==> Kept(kept[a], totalNodes) && Runs(kept[a].vertices, src, dest)) &&
    RowsPacked(kept, |kept|, totalNodes, ret.pathinfo, seq(|ret.pathinfo|, _ => 0), ret.pathcost, ret.pathlen) &&
    (forall d :: |kept| <= d < k ==> ret.pathcost[d] == Inf && ret.pathlen[d] == 0)
  }

  /** The SP matrix of `ResourceManager` and its saved kSP edge list. */
  class SpCache {
    var spPaths: array?<Option<KPathReturn>>
    var kspEdgeList: Option<seq<KspEdge>>
    const numberOfRouters: nat
    const numberOfEdges: nat

    /** The matrix, once allocated, has one slot per (source, destination)
        pair, and the saved edge list names only existing routers. */
    ghost predicate Valid()
      reads this
    {
      (spPaths != null ==> spPaths.Length == numberOfRouters * numberOfRouters) &&
      (kspEdgeList.Some? ==>
         forall e :: e in kspEdgeList.value ==> e.src < numberOfRouters && e.dest < numberOfRouters)
    }

    constructor (routers: nat, edges: nat)
      ensures Valid() && numberOfRouters == routers && numberOfEdges == edges
      ensures spPaths == null && kspEdgeList == None
    {
      spPaths := null;
      kspEdgeList := None;
      numberOfRouters, numberOfEdges := routers, edges;
    }

    /** A shortest-path query for the pair is answered from the matrix. */
    predicate Hit(src: nat, dest: nat, routing: RoutingAlgorithm)
      requires Valid() && src < numberOfRouters && dest < numberOfRouters
      reads this, spPaths
    {
      routing == ShortestPath && spPaths != null && spPaths[Cell(numberOfRouters, src, dest)].Some?
    }

    /** `initSPMatrix` (ResourceManager.cpp:2502-2513): allocate an empty
        matrix unless one exists. */
    method InitSpMatrix()
      requires Valid()
      modifies this`spPaths
      ensures Valid() && spPaths != null
      ensures old(spPaths) != null ==> spPaths == old(spPaths)
      ensures old(spPaths) == null ==>
                fresh(spPaths) && forall p :: 0 <= p < spPaths.Length ==> spPaths[p] == None
    {
      if spPaths != null {
        return;
      }
      var m := new Option<KPathReturn>[numberOfRouters * numberOfRouters];
      var p := 0;
      while p < m.Length
        invariant p <= m.Length && forall q :: 0 <= q < p ==> m[q] == None
      {
        m[p] := None;
        p := p + 1;
      }
      spPaths := m;
    }

    /** `freeSPMatrix` (ResourceManager.cpp:2522-2542): drop the matrix
        and every saved result. */
    method FreeSpMatrix()
      requires Valid()
      modifies this`spPaths
      ensures Valid() && spPaths == null
    {
      spPaths := null;
    }

    /** The first use of the edge list (ResourceManager.cpp:119-120):
        build and save it unless it exists. */
    method EnsureEdgeList(routers: seq<Router>) returns (r: Outcome<seq<KspEdge>>)
      requires Valid() && |routers| == numberOfRouters && TablesSized(routers)
      requires forall i :: 0 <= i < |routers| ==> EdgesBehindTable(routers[i])
      modifies this`kspEdgeList
      ensures Valid()
      ensures r.Fatal? <==> old(kspEdgeList).None? && old(|TableEdges(routers, |routers|)|) > numberOfEdges
      ensures r.Fatal? ==> r.code == ERROR_TOO_MANY_EDGES
      ensures r.Done? ==> kspEdgeList == Some(r.value) &&
                          r.value == if old(kspEdgeList).Some? then old(kspEdgeList).value else old(TableEdges(routers, |routers|))
    {
      if kspEdgeList.Some? {
        return Done(kspEdgeList.value);
      }
      r := BuildKspEdgeList(routers, numberOfEdges);
      if r.Done? {
        TableEdgesMembers(routers, |routers|);
        kspEdgeList := Some(r.value);
      }
    }

    /** `calculate_SP_path` (ResourceManager.cpp:109-156): a saved result
        for a shortest-path query is returned as is; otherwise the query
        runs over the topology's arcs with every cost set to 1, building
        the edge list on first use, and a shortest-path result is saved
        when the matrix exists. */
    method CalculateSpPath(src: nat, dest: nat, k: nat, routing: RoutingAlgorithm,
                           routers: seq<Router>, dijkstra: Dijkstra)
      returns (r: Outcome<KPathReturn>, ghost kept: seq<DirectedPath>, ghost found: seq<DirectedPath>)
      requires Valid() && src < numberOfRouters && dest < numberOfRouters
      requires |routers| == numberOfRouters && TablesSized(routers)
      requires forall i :: 0 <= i < |routers| ==> EdgesBehindTable(routers[i])
      requires SoundDijkstra(dijkstra)
      modifies this`kspEdgeList, spPaths
      ensures Valid() && spPaths == old(spPaths)
      ensures old(Hit(src, dest, routing)) ==>
                r == Done(old(spPaths[Cell(numberOfRouters, src, dest)]).value) &&
                kspEdgeList == old(kspEdgeList) && unchanged(spPaths)
      ensures r.Fatal? <==>
                !old(Hit(src, dest, routing)) && old(kspEdgeList).None? &&
                old(|TableEdges(routers, |routers|)|) > numberOfEdges
      ensures r.Fatal? ==> r.code == ERROR_TOO_MANY_EDGES
      ensures !old(Hit(src, dest, routing)) && r.Done? ==>
                Computed(r.value, kept, src, dest, k, numberOfRouters) &&
                kspEdgeList == (if old(kspEdgeList).Some? then old(kspEdgeList) else Some(old(TableEdges(routers, |routers|))))
      ensures !old(Hit(src, dest, routing)) && r.Done? && routing == ShortestPath && spPaths != null ==>
                forall p :: 0 <= p < spPaths.Length ==>
                  spPaths[p] == if p == Cell(numberOfRouters, src, dest) then Some(r.value) else old(spPaths[p])
      ensures !old(Hit(src, dest, routing)) && routing != ShortestPath && spPaths != null ==> unchanged(spPaths)
      ensures !old(Hit(src, dest, routing)) && r.Done? ==>
                kspEdgeList.Some? && SearchResult(found, HopWeights(kspEdgeList.value), src, dest, k) &&
                kept == Filter(found, numberOfRouters)
    {
      kept, found := [], [];
      if Hit(src, dest, routing) {
        return Done(spPaths[Cell(numberOfRouters, src, dest)].value), kept, found;
      }
      var list := EnsureEdgeList(routers);
      if list.Fatal? {
        return Fatal(list.code), kept, found;
      }
      var ret;
      ret, kept, found := QueryPaths(src, dest, k, numberOfRouters, list.value, dijkstra);
      if routing == ShortestPath && spPaths != null {
        spPaths[Cell(numberOfRouters, src, dest)] := Some(ret);
      }
      return Done(ret), kept, found;
    }
  }

  /** The query part of `calculate_SP_path` (ResourceManager.cpp:121-147):
      the arcs of `list` at cost 1 into the k-shortest-paths search. */
  method QueryPaths(src: nat, dest: nat, k: nat, totalNodes: nat, list: seq<KspEdge>, dijkstra: Dijkstra)
    returns (ret: KPathReturn, ghost kept: seq<DirectedPath>, ghost found: seq<DirectedPath>)
    requires src < totalNodes && dest < totalNodes && SoundDijkstra(dijkstra)
    requires forall e :: e in list ==> e.src < totalNodes && e.dest < totalNodes
    ensures Computed(ret, kept, src, dest, k, totalNodes)
    ensures SearchResult(found, HopWeights(list), src, dest, k)
    ensures kept == Filter(found, totalNodes)
    ensures |found| > 0 && Kept(found[0], totalNodes) ==> |kept| > 0 && kept[0] == found[0]
  {
    var edges := UnitCosts(list);
    var params := KspParams(src, dest, k, totalNodes, edges);
    assert EndpointsInRange(params) by {
      forall i | 0 <= i < |edges|
        ensures edges[i].src < totalNodes && edges[i].dest < totalNodes
      {
        assert list[i] in list;
      }
    }
    var pathinfo := new nat[k * (totalNodes - 1)](_ => 0);
    var pathcost := new Cost[k](_ => Inf);
    var pathlen := new nat[k](_ => 0);
    assert pathinfo[..] == seq(pathinfo.Length, _ => 0);
    kept, found := CalcKShortestPaths(params, dijkstra, pathinfo, pathcost, pathlen);
    ret := KPathReturn(pathinfo[..], pathcost[..], pathlen[..]);
  }
}
