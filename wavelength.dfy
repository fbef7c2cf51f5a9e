// Wavelength assignment in the resource manager (ResourceManager.cpp):
// the mask of wavelengths free on every edge of a path, the plain
// selection rules (first fit, first fit over the max-spread ordering,
// most used, random fit), the quality-gated variants and the dispatch in
// `choose_wavelength`. The Q-factor estimate is an abstract function
// `q` of the wavelength: within one selection the path and the network
// state it reads do not change.

module Wavelengths {
  import opened Common
  import opened Edges

  /** Every edge of `edges` has `W` wavelength slots. */
  predicate Over(edges: seq<Edge>, W: nat)
  {
    forall r :: 0 <= r < |edges| ==> edges[r].status.Length == W
  }

  /** Wavelength `k` is free on every edge of `path`. */
  predicate FreeOnPath(path: seq<Edge>, k: nat)
    requires forall r :: 0 <= r < |path| ==> k < path[r].status.Length
    reads set r | 0 <= r < |path| :: path[r].status
  {
    forall r :: 0 <= r < |path| ==> path[r].status[k] == EdgeFree
  }

  /** The number of `true` entries. */
  function CountTrue(s: seq<bool>): (n: nat)
    ensures n <= |s|
  {
    if s == [] then 0 else CountTrue(s[..|s| - 1]) + (if s[|s| - 1] then 1 else 0)
  }

  lemma {:induction false} CountTrueAll(n: nat)
    ensures CountTrue(seq(n, _ => true)) == n
  {
    if n > 0 {
      assert seq(n, _ => true)[..n - 1] == seq(n - 1, _ => true);
      CountTrueAll(n - 1);
    }
  }

  /** No entry is `true` exactly when the count is 0. */
  lemma {:induction false} CountTrueZero(s: seq<bool>)
    ensures CountTrue(s) == 0 <==> forall k :: 0 <= k < |s| ==> !s[k]
  {
    if s != [] {
      CountTrueZero(s[..|s| - 1]);
      assert forall k :: 0 <= k < |s| - 1 ==> s[..|s| - 1][k] == s[k];
    }
  }

  /** Clearing one `true` entry lowers the count by one. */
  lemma {:induction false} CountTrueClear(s: seq<bool>, k: nat)
    requires k < |s| && s[k]
    ensures CountTrue(s[k := false]) == CountTrue(s) - 1
  {
    if k < |s| - 1 {
      assert s[k := false][..|s| - 1] == s[..|s| - 1][k := false];
      CountTrueClear(s[..|s| - 1], k);
    } else {
      assert s[k := false][..|s| - 1] == s[..|s| - 1];
    }
  }

  /** One pass of the inner mask loop of `choose_wavelength`
      (ResourceManager.cpp:1413-1420): clear every wavelength `edge` does
      not have free, keeping the count of available ones. */
  method MaskEdge(edge: Edge, available: array<bool>, count: nat) returns (left: nat)
    requires edge.status.Length == available.Length && count == CountTrue(available[..])
    modifies available
    ensures forall j :: 0 <= j < available.Length ==> available[j] == (old(available[j]) && edge.status[j] == EdgeFree)
    ensures left == CountTrue(available[..])
  {
    left := count;
    var k := 0;
    while k < available.Length
      invariant 0 <= k <= available.Length
      invariant forall j :: 0 <= j < available.Length ==>
                  available[j] == (old(available[j]) && (j < k ==> edge.status[j] == EdgeFree))
      invariant left == CountTrue(available[..])
    {
      if edge.status[k] != EdgeFree && available[k] {
        CountTrueClear(available[..], k);
        available[k] := false;
        left := left - 1;
      }
      k := k + 1;
    }
  }

  lemma FreeOnPathStep(path: seq<Edge>, r: nat, k: nat)
    requires r < |path| && forall i :: 0 <= i < |path| ==> k < path[i].status.Length
    ensures FreeOnPath(path[..r + 1], k) <==> FreeOnPath(path[..r], k) && path[r].status[k] == EdgeFree
  {
    assert path[..r + 1] == path[..r] + [path[r]];
  }

  /** The mask loop of `choose_wavelength` (ResourceManager.cpp:1403-1422):
      a wavelength is available exactly when it is free on every edge of
      the path, and `count` is the number of available wavelengths. */
  method AvailableWaves(path: seq<Edge>, W: nat) returns (available: array<bool>, count: nat)
    requires Over(path, W)
    ensures fresh(available) && available.Length == W
    ensures forall k :: 0 <= k < W ==> (available[k] <==> FreeOnPath(path, k))
    ensures count == CountTrue(available[..])
  {
    available := new bool[W](_ => true);
    assert available[..] == seq(W, _ => true);
    CountTrueAll(W);
    count := W;
    var r := 0;
    while r < |path|
      invariant 0 <= r <= |path|
      invariant forall k :: 0 <= k < W ==> (available[k] <==> FreeOnPath(path[..r], k))
      invariant count == CountTrue(available[..])
    {
      count := MaskEdge(path[r], available, count);
      forall k | 0 <= k < W
        ensures available[k] <==> FreeOnPath(path[..r + 1], k)
      {
        FreeOnPathStep(path, r, k);
      }
      r := r + 1;
    }
    assert path[..r] == path;
  }

  /** `first_fit` (ResourceManager.cpp:2031-2041): the lowest available
      wavelength, or `NO_PATH_FAILURE` when none is. */
  method PickFirstFit(available: array<bool>) returns (w: int)
    ensures w == NO_PATH_FAILURE <==> forall k :: 0 <= k < available.Length ==> !available[k]
    ensures w != NO_PATH_FAILURE ==>
              0 <= w < available.Length && available[w] && forall k :: 0 <= k < w ==> !available[k]
  {
    var k := 0;
    while k < available.Length
      invariant 0 <= k <= available.Length
      invariant forall j :: 0 <= j < k ==> !available[j]
    {
      if available[k] {
        return k;
      }
      k := k + 1;
    }
    return NO_PATH_FAILURE;
  }

  /** The number of edges of `network` that carry a connection on `w`. */
  function UsedCount(network: seq<Edge>, w: nat): (n: nat)
    requires forall r :: 0 <= r < |network| ==> w < network[r].status.Length
    reads set r | 0 <= r < |network| :: network[r].status
    ensures n <= |network|
  {
    if network == [] then 0
    else UsedCount(network[..|network| - 1], w) + (if network[|network| - 1].status[w] == EdgeUsed then 1 else 0)
  }

  /** `k` comes before `w` in the most-used order: more used, or as used
      and lower. */
  predicate MoreUsed(network: seq<Edge>, k: nat, w: nat)
    requires forall r :: 0 <= r < |network| ==> w < network[r].status.Length && k < network[r].status.Length
    reads set r | 0 <= r < |network| :: network[r].status
  {
    UsedCount(network, k) > UsedCount(network, w) || (UsedCount(network, k) == UsedCount(network, w) && k < w)
  }

  /** The innermost counting loop of `most_used`
      (ResourceManager.cpp:2089-2098): count `edge` for every available
      wavelength it uses. The local `wave_counts` buffer is a sequence. */
  method AddUsage(edge: Edge, available: array<bool>, counts: seq<nat>) returns (next: seq<nat>)
    requires edge.status.Length == available.Length == |counts|
    ensures |next| == |counts|
    ensures forall j :: 0 <= j < |counts| ==>
              next[j] == counts[j] + if available[j] && edge.status[j] == EdgeUsed then 1 else 0
  {
    next := counts;
    var w := 0;
    while w < |counts|
      invariant 0 <= w <= |counts| && |next| == |counts|
      invariant forall j :: 0 <= j < |counts| ==>
                  next[j] == counts[j] + if j < w && available[j] && edge.status[j] == EdgeUsed then 1 else 0
    {
      if available[w] && edge.status[w] == EdgeUsed {
        next := next[w := next[w] + 1];
      }
      w := w + 1;
    }
  }

  lemma UsedCountStep(network: seq<Edge>, e: nat, w: nat)
    requires e < |network| && forall r :: 0 <= r < |network| ==> w < network[r].status.Length
    ensures UsedCount(network[..e + 1], w) ==
              UsedCount(network[..e], w) + if network[e].status[w] == EdgeUsed then 1 else 0
  {
    assert network[..e + 1][..e] == network[..e];
  }

  /** The counting loops of `most_used` (ResourceManager.cpp:2076-2100):
      for every available wavelength, the number of network edges using
      it; 0 for the others. */
  method CountUsage(network: seq<Edge>, available: array<bool>) returns (counts: seq<nat>)
    requires Over(network, available.Length)
    ensures |counts| == available.Length
    ensures forall w :: 0 <= w < |counts| ==> counts[w] == if available[w] then UsedCount(network, w) else 0
  {
    counts := seq(available.Length, _ => 0);
    var e := 0;
    while e < |network|
      invariant 0 <= e <= |network| && |counts| == available.Length
      invariant forall w :: 0 <= w < |counts| ==> counts[w] == if available[w] then UsedCount(network[..e], w) else 0
    {
      var next := AddUsage(network[e], available, counts);
      forall w | 0 <= w < |counts|
        ensures next[w] == if available[w] then UsedCount(network[..e + 1], w) else 0
      {
        UsedCountStep(network, e, w);
      }
      counts := next;
      e := e + 1;
    }
    assert network[..e] == network;
  }

  /** `most_used` (ResourceManager.cpp:2074-2117): the available
      wavelength used on the most network edges, the lowest of those on a
      tie, or `NO_PATH_FAILURE` when none is available. `network` is the
      edge lists of all routers one after the other. */
  method PickMostUsed(network: seq<Edge>, available: array<bool>) returns (w: int)
    requires Over(network, available.Length)
    ensures w == NO_PATH_FAILURE <==> forall k :: 0 <= k < available.Length ==> !available[k]
    ensures w != NO_PATH_FAILURE ==> 0 <= w < available.Length && available[w]
    ensures w != NO_PATH_FAILURE ==>
              forall k :: 0 <= k < available.Length && available[k] ==> !MoreUsed(network, k, w)
  {
    var counts := CountUsage(network, available);
    w := NO_PATH_FAILURE;
    var maxUsed: int := -1;
    var k := 0;
    while k < available.Length
      invariant 0 <= k <= available.Length
      invariant w == NO_PATH_FAILURE <==> forall j :: 0 <= j < k ==> !available[j]
      invariant w == NO_PATH_FAILURE ==> maxUsed == -1
      invariant w != NO_PATH_FAILURE ==> 0 <= w < k && available[w] && maxUsed == UsedCount(network, w)
      invariant w != NO_PATH_FAILURE ==> forall j :: 0 <= j < k && available[j] ==> !MoreUsed(network, j, w)
    {
      if counts[k] > maxUsed && available[k] {
        w := k;
        maxUsed := counts[k];
      }
      k := k + 1;
    }
  }

  /** A prefix has no more `true` entries than the whole. */
  lemma {:induction false} CountTruePrefix(s: seq<bool>, i: nat)
    requires i <= |s|
    ensures CountTrue(s[..i]) <= CountTrue(s)
    decreases |s|
  {
    if i < |s| {
      assert s[..|s| - 1][..i] == s[..i];
      CountTruePrefix(s[..|s| - 1], i);
    } else {
      assert s[..i] == s;
    }
  }

  /** `random_fit` (ResourceManager.cpp:2126-2153) for the random draw
      `draw`: the `draw`-th available wavelength in index order, counting
      from 0; `ERROR_CHOOSE_WAVELENGTH_1` when fewer are available. */
  method PickRandomFit(available: array<bool>, draw: nat) returns (r: Outcome<int>)
    ensures r.Fatal? <==> draw >= CountTrue(available[..])
    ensures r.Fatal? ==> r.code == ERROR_CHOOSE_WAVELENGTH_1
    ensures r.Done? ==>
              0 <= r.value < available.Length && available[r.value] && CountTrue(available[..r.value]) == draw
  {
    var waveIndex := 0;
    var w := 0;
    while w < available.Length
      invariant 0 <= w <= available.Length
      invariant waveIndex == CountTrue(available[..w]) && waveIndex <= draw
    {
      assert available[..w + 1][..w] == available[..w];
      if available[w] {
        if waveIndex == draw {
          CountTruePrefix(available[..], w + 1);
          assert available[..][..w + 1] == available[..w + 1];
          return Done(w);
        }
        waveIndex := waveIndex + 1;
      }
      w := w + 1;
    }
    assert available[..w] == available[..];
    return Fatal(ERROR_CHOOSE_WAVELENGTH_1);
  }

  /** `count` available entries mean some entry is available. */
  lemma SomeAvailable(s: seq<bool>)
    requires CountTrue(s) > 0
    ensures exists k :: 0 <= k < |s| && s[k]
  {
    CountTrueZero(s);
  }

  /** `quality_first_fit` (ResourceManager.cpp:2162-2198): first fit,
      rejecting and masking out each wavelength whose Q-factor is below
      `thq`. The result is the lowest originally available wavelength
      that passes, or `QUALITY_FAILURE` when none does. */
  method QualityFirstFit(available: array<bool>, count: nat, q: int -> real, thq: real) returns (w: int)
    requires count == CountTrue(available[..])
    modifies available
    ensures w == QUALITY_FAILURE <==>
              forall k :: 0 <= k < available.Length && old(available[k]) ==> q(k) < thq
    ensures w != QUALITY_FAILURE ==>
              0 <= w < available.Length && old(available[w]) && thq <= q(w)
              && forall k :: 0 <= k < w && old(available[k]) ==> q(k) < thq
  {
    var n := count;
    while n > 0
      invariant n == CountTrue(available[..])
      invariant forall k :: 0 <= k < available.Length && available[k] ==> old(available[k])
      invariant forall k :: 0 <= k < available.Length && old(available[k]) && !available[k] ==> q(k) < thq
      decreases n
    {
      SomeAvailable(available[..]);
      var wave := PickFirstFit(available);
      if thq <= q(wave) {
        return wave;
      }
      CountTrueClear(available[..], wave);
      n := n - 1;
      available[wave] := false;
    }
    CountTrueZero(available[..]);
    return QUALITY_FAILURE;
  }

  /** `quality_most_used` (ResourceManager.cpp:2414-2450): most used,
      rejecting and masking out each wavelength whose Q-factor is below
      `thq`. The result passes, and every originally available wavelength
      ahead of it in the most-used order failed; `QUALITY_FAILURE` when
      none passes. */
  method QualityMostUsed(network: seq<Edge>, available: array<bool>, count: nat, q: int -> real, thq: real)
    returns (w: int)
    requires Over(network, available.Length)
    requires count == CountTrue(available[..])
    modifies available
    ensures w == QUALITY_FAILURE <==>
              forall k :: 0 <= k < available.Length && old(available[k]) ==> q(k) < thq
    ensures w != QUALITY_FAILURE ==>
              0 <= w < available.Length && old(available[w]) && thq <= q(w)
              && forall k :: 0 <= k < available.Length && old(available[k]) && MoreUsed(network, k, w) ==> q(k) < thq
  {
    var n := count;
    while n > 0
      invariant n == CountTrue(available[..])
      invariant forall k :: 0 <= k < available.Length && available[k] ==> old(available[k])
      invariant forall k :: 0 <= k < available.Length && old(available[k]) && !available[k] ==> q(k) < thq
      decreases n
    {
      SomeAvailable(available[..]);
      var wave := PickMostUsed(network, available);
      if thq <= q(wave) {
        return wave;
      }
      CountTrueClear(available[..], wave);
      n := n - 1;
      available[wave] := false;
    }
    CountTrueZero(available[..]);
    return QUALITY_FAILURE;
  }

  /** `quality_random_fit` (ResourceManager.cpp:2368-2405). The
      generator is re-seeded from the number of wavelengths still
      available, so each draw is `pick(n)` for that number `n`. The result
      is an originally available wavelength that passes, or
      `QUALITY_FAILURE` exactly when none does. */
  method QualityRandomFit(available: array<bool>, count: nat, q: int -> real, thq: real, pick: nat -> nat)
    returns (w: int)
    requires count == CountTrue(available[..])
    requires forall n: nat :: 0 < n ==> pick(n) < n
    modifies available
    ensures w == QUALITY_FAILURE <==>
              forall k :: 0 <= k < available.Length && old(available[k]) ==> q(k) < thq
    ensures w != QUALITY_FAILURE ==> 0 <= w < available.Length && old(available[w]) && thq <= q(w)
  {
    var n := count;
    while n > 0
      invariant n == CountTrue(available[..])
      invariant forall k :: 0 <= k < available.Length && available[k] ==> old(available[k])
      invariant forall k :: 0 <= k < available.Length && old(available[k]) && !available[k] ==> q(k) < thq
      decreases n
    {
      var r := PickRandomFit(available, pick(n));
      var wave := r.value;
      if thq <= q(wave) {
        return wave;
      }
      CountTrueClear(available[..], wave);
      n := n - 1;
      available[wave] := false;
    }
    CountTrueZero(available[..]);
    return QUALITY_FAILURE;
  }

  /** `least_quality_fit` (ResourceManager.cpp:2252-2301): among the
      available wavelengths whose Q-factor reaches `thq`, the lowest
      Q-factor, the lowest index on a tie; `QUALITY_FAILURE` when none
      reaches it. */
  method LeastQualityFit(available: array<bool>, q: int -> real, thq: real) returns (w: int)
    ensures w == QUALITY_FAILURE <==>
              forall k :: 0 <= k < available.Length && available[k] ==> q(k) < thq
    ensures w != QUALITY_FAILURE ==> 0 <= w < available.Length && available[w] && thq <= q(w)
    ensures w != QUALITY_FAILURE ==>
              forall k :: 0 <= k < available.Length && available[k] && thq <= q(k) ==>
                q(w) <= q(k) && (k < w ==> q(w) < q(k))
  {
    w := -1;
    var minQ: real := 0.0;
    var k := 0;
    while k < available.Length
      invariant 0 <= k <= available.Length
      invariant w == -1 <==> forall j :: 0 <= j < k && available[j] ==> q(j) < thq
      invariant w != -1 ==> 0 <= w < k && available[w] && thq <= q(w) && minQ == q(w)
      invariant w != -1 ==> forall j :: 0 <= j < k && available[j] && thq <= q(j) ==>
                  q(w) <= q(j) && (j < w ==> q(w) < q(j))
    {
      if available[k] {
        var qk := q(k);
        if (w == -1 || qk < minQ) && qk >= thq {
          w := k;
          minQ := qk;
        }
      }
      k := k + 1;
    }
    if w == -1 {
      w := QUALITY_FAILURE;
    }
  }

  /** `most_quality_fit` (ResourceManager.cpp:2310-2359): among the
      available wavelengths whose Q-factor reaches `thq` and is above 0
      (the running maximum starts at 0.0), the highest Q-factor, the
      lowest index on a tie; `QUALITY_FAILURE` when there is none. */
  method MostQualityFit(available: array<bool>, q: int -> real, thq: real) returns (w: int)
    ensures w == QUALITY_FAILURE <==>
              forall k :: 0 <= k < available.Length && available[k] ==> q(k) < thq || q(k) <= 0.0
    ensures w != QUALITY_FAILURE ==> 0 <= w < available.Length && available[w] && thq <= q(w) && 0.0 < q(w)
    ensures w != QUALITY_FAILURE ==>
              forall k :: 0 <= k < available.Length && available[k] && thq <= q(k) ==>
                q(k) <= q(w) && (k < w ==> q(k) < q(w))
  {
    w := -1;
    var maxQ: real := 0.0;
    var k := 0;
    while k < available.Length
      invariant 0 <= k <= available.Length
      invariant w == -1 <==> forall j :: 0 <= j < k && available[j] ==> q(j) < thq || q(j) <= 0.0
      invariant w == -1 ==> maxQ == 0.0
      invariant w != -1 ==> 0 <= w < k && available[w] && thq <= q(w) && maxQ == q(w) && 0.0 < maxQ
      invariant w != -1 ==> forall j :: 0 <= j < k && available[j] && thq <= q(j) ==>
                  q(j) <= q(w) && (j < w ==> q(j) < q(w))
    {
      if available[k] {
        var qk := q(k);
        if qk > maxQ && qk >= thq {
          w := k;
          maxQ := qk;
        }
      }
      k := k + 1;
    }
    if w == -1 {
      w := QUALITY_FAILURE;
    }
  }

  // The max-spread ordering of `generateWaveOrdering`
  // (ResourceManager.cpp:2693-2739).

  /** `getLowerBound` as a value (ResourceManager.cpp:2748-2762): the
      distance from `w` down to the nearest placed wavelength below it, or
      `W` when none is below. */
  function LowerGap(placed: seq<int>, w: int, W: int): int
  {
    if placed == [] then W
    else
      var g := LowerGap(placed[..|placed| - 1], w, W);
      var p := placed[|placed| - 1];
      if p < w && w - p < g then w - p else g
  }

  /** `getUpperBound` as a value (ResourceManager.cpp:2771-2785): the
      distance from `w` up to the nearest placed wavelength above it, or
      `W` when none is above. */
  function UpperGap(placed: seq<int>, w: int, W: int): int
  {
    if placed == [] then W
    else
      var g := UpperGap(placed[..|placed| - 1], w, W);
      var p := placed[|placed| - 1];
      if p > w && p - w < g then p - w else g
  }

  /** The two bounds are the distances to the nearest placed wavelength
      below and above `w`, and `W` when there is none on that side. */
  lemma {:induction false} GapBounds(placed: seq<int>, w: int, W: int)
    ensures var g := LowerGap(placed, w, W);
      g <= W
      && (forall i :: 0 <= i < |placed| && placed[i] < w ==> g <= w - placed[i])
      && (g == W || exists i :: 0 <= i < |placed| && placed[i] < w && g == w - placed[i])
    ensures var g := UpperGap(placed, w, W);
      g <= W
      && (forall i :: 0 <= i < |placed| && placed[i] > w ==> g <= placed[i] - w)
      && (g == W || exists i :: 0 <= i < |placed| && placed[i] > w && g == placed[i] - w)
  {
    if placed != [] {
      var init := placed[..|placed| - 1];
      GapBounds(init, w, W);
      assert forall i :: 0 <= i < |init| ==> init[i] == placed[i];
      var lo := LowerGap(init, w, W);
      var hi := UpperGap(init, w, W);
      var p := placed[|placed| - 1];
      if lo != W && !(p < w && w - p < lo) {
        var i :| 0 <= i < |init| && init[i] < w && lo == w - init[i];
        assert placed[i] < w && lo == w - placed[i];
      }
      if hi != W && !(p > w && p - w < hi) {
        var i :| 0 <= i < |init| && init[i] > w && hi == init[i] - w;
        assert placed[i] > w && hi == placed[i] - w;
      }
    }
  }

  /** The distance from `w` to the nearest placed wavelength on either
      side (`minInt` of the two bounds). */
  function Gap(placed: seq<int>, w: int, W: int): int
  {
    var lo := LowerGap(placed, w, W);
    var hi := UpperGap(placed, w, W);
    if lo < hi then lo else hi
  }

  /** The gap of every remaining wavelength. */
  function Gaps(rem: seq<int>, placed: seq<int>, gap: (seq<int>, int) -> int): (gs: seq<int>)
    ensures |gs| == |rem| && forall i :: 0 <= i < |rem| ==> gs[i] == gap(placed, rem[i])
  {
    seq(|rem|, i requires 0 <= i < |rem| => gap(placed, rem[i]))
  }

  /** The position of the first maximum, as the scan for `maxPair` that
      only moves on a strictly greater value finds it. */
  function FirstMax(gs: seq<int>): (k: nat)
    requires |gs| > 0
    ensures k < |gs|
    ensures forall j :: 0 <= j < |gs| ==> gs[j] <= gs[k]
    ensures forall j :: 0 <= j < k ==> gs[j] < gs[k]
  {
    if |gs| == 1 then 0
    else
      var k := FirstMax(gs[..|gs| - 1]);
      if gs[|gs| - 1] > gs[k] then |gs| - 1 else k
  }

  /** The ordering the greedy loop builds from the wavelengths already
      `placed` and the list `rem` still to place. */
  function Extend(placed: seq<int>, rem: seq<int>, gap: (seq<int>, int) -> int): seq<int>
    decreases |rem|
  {
    if rem == [] then placed
    else
      var k := FirstMax(Gaps(rem, placed, gap));
      Extend(placed + [rem[k]], RemoveAt(rem, k), gap)
  }

  /** One greedy step: the first maximum of the gaps goes next. */
  lemma ExtendStep(placed: seq<int>, rem: seq<int>, gap: (seq<int>, int) -> int)
    requires rem != []
    ensures var k := FirstMax(Gaps(rem, placed, gap));
      Extend(placed, rem, gap) == Extend(placed + [rem[k]], RemoveAt(rem, k), gap)
  {
  }

  /** With nothing left to place, the ordering is what is placed. */
  lemma ExtendDone(placed: seq<int>, gap: (seq<int>, int) -> int)
    ensures Extend(placed, [], gap) == placed
  {
  }

  /** The integers from `lo` up to (not including) `hi`. */
  function Interval(lo: int, hi: int): (r: seq<int>)
    ensures |r| == if lo < hi then hi - lo else 0
    ensures forall i :: 0 <= i < |r| ==> r[i] == lo + i
  {
    seq(if lo < hi then hi - lo else 0, i => lo + i)
  }

  predicate Increasing(s: seq<int>)
  {
    forall i, j :: 0 <= i < j < |s| ==> s[i] < s[j]
  }

  /** The wavelength ordering for `W` wavelengths: 0, then `W - 1`, then
      greedily the farthest from those already placed. */
  function SpreadOrdering(W: nat): seq<int>
    requires 1 <= W
  {
    Extend(SpreadSeed(W), Interval(1, W - 1), SpreadGap(W))
  }

  /** The two wavelengths placed before the greedy loop starts (only 0
      when there is one wavelength). */
  function SpreadSeed(W: nat): seq<int>
  {
    if W > 1 then [0, W - 1] else [0]
  }

  /** `Gap` for `W` wavelengths, as the greedy step consumes it. */
  function SpreadGap(W: int): (seq<int>, int) -> int
  {
    (p, w) => Gap(p, w, W)
  }

  /** Removing an element keeps a sequence increasing. */
  lemma RemoveAtIncreasing(rem: seq<int>, k: nat)
    requires Increasing(rem) && k < |rem|
    ensures Increasing(RemoveAt(rem, k))
  {
    var rest := RemoveAt(rem, k);
    forall i, j | 0 <= i < j < |rest| ensures rest[i] < rest[j] {
      assert rest[i] == rem[if i < k then i else i + 1];
      assert rest[j] == rem[if j < k then j else j + 1];
    }
  }

  lemma SplitAt(o: seq<int>, n: nat)
    requires n < |o|
    ensures o[n..] == [o[n]] + o[n + 1..] && o[..n] == o[..n + 1][..n] && o[n] == o[..n + 1][n]
  {
  }

  /** The greedy loop keeps what is placed and appends a permutation of
      `rem`. */
  lemma {:induction false} ExtendKeeps(placed: seq<int>, rem: seq<int>, gap: (seq<int>, int) -> int)
    ensures var o := Extend(placed, rem, gap);
      |o| == |placed| + |rem| && o[..|placed|] == placed && multiset(o[|placed|..]) == multiset(rem)
    decreases |rem|
  {
    if rem != [] {
      var k := FirstMax(Gaps(rem, placed, gap));
      var x := rem[k];
      var rest := RemoveAt(rem, k);
      ExtendKeeps(placed + [x], rest, gap);
      var o := Extend(placed + [x], rest, gap);
      SplitAt(o, |placed|);
    }
  }

  /** `x` is at least as far from `placed` as `y`, and not above it on a
      tie: the greedy step may pick `x` over `y`. */
  predicate Beats(placed: seq<int>, x: int, y: int, gap: (seq<int>, int) -> int)
  {
    gap(placed, y) <= gap(placed, x) && (gap(placed, y) == gap(placed, x) ==> x <= y)
  }

  /** From position `n` on, each entry of `o` beats every later entry with
      respect to the entries before it. */
  predicate GreedyFrom(o: seq<int>, n: nat, gap: (seq<int>, int) -> int)
  {
    forall i, j :: n <= i <= j < |o| ==> Beats(o[..i], o[i], o[j], gap)
  }

  /** The first greedy step: the picked wavelength goes right after
      `placed`, and beats every wavelength placed later. */
  lemma GreedyHead(placed: seq<int>, rem: seq<int>, gap: (seq<int>, int) -> int)
    requires Increasing(rem) && rem != []
    ensures var o := Extend(placed, rem, gap);
      var x := rem[FirstMax(Gaps(rem, placed, gap))];
      |placed| < |o| && o[..|placed|] == placed && o[|placed|] == x
      && forall j :: |placed| <= j < |o| ==> Beats(placed, x, o[j], gap)
  {
    var k := FirstMax(Gaps(rem, placed, gap));
    var x := rem[k];
    var rest := RemoveAt(rem, k);
    var n := |placed|;
    var o := Extend(placed, rem, gap);
    ExtendStep(placed, rem, gap);
    ExtendKeeps(placed + [x], rest, gap);
    assert o[..n + 1] == placed + [x];
    assert o[..n] == o[..n + 1][..n] && o[n] == o[..n + 1][n];
    forall j | n <= j < |o|
      ensures Beats(placed, x, o[j], gap)
    {
      if j > n {
        assert o[j] == o[n + 1..][j - n - 1];
        assert o[j] in multiset(rest);
        FirstMaxBeatsRest(placed, rem, gap, o[j]);
      }
    }
  }

  /** The greedy loop's choice: each appended wavelength has the largest
      gap to those before it among the ones after it, the lowest of them
      on a tie. */
  lemma {:induction false} ExtendGreedy(placed: seq<int>, rem: seq<int>, gap: (seq<int>, int) -> int)
    requires Increasing(rem)
    ensures GreedyFrom(Extend(placed, rem, gap), |placed|, gap)
    decreases |rem|
  {
    if rem != [] {
      var k := FirstMax(Gaps(rem, placed, gap));
      var next := placed + [rem[k]];
      RemoveAtIncreasing(rem, k);
      ExtendGreedy(next, RemoveAt(rem, k), gap);
      GreedyHead(placed, rem, gap);
      var o := Extend(placed, rem, gap);
      assert o == Extend(next, RemoveAt(rem, k), gap);
      var n := |placed|;
      forall i, j | n <= i <= j < |o|
        ensures Beats(o[..i], o[i], o[j], gap)
      {
        if i == n {
          assert o[..i] == placed;
        } else {
          assert n + 1 <= i;
        }
      }
    }
  }

  /** The wavelength the greedy step picks has a gap at least that of any
      wavelength left behind, and is below it on a tie. */
  lemma FirstMaxBeatsRest(placed: seq<int>, rem: seq<int>, gap: (seq<int>, int) -> int, y: int)
    requires Increasing(rem) && rem != []
    requires y in RemoveAt(rem, FirstMax(Gaps(rem, placed, gap)))
    ensures Beats(placed, rem[FirstMax(Gaps(rem, placed, gap))], y, gap)
  {
    var gs := Gaps(rem, placed, gap);
    var k := FirstMax(gs);
    var rest := RemoveAt(rem, k);
    var m :| 0 <= m < |rest| && rest[m] == y;
    var m' := if m < k then m else m + 1;
    assert rem[m'] == y;
    assert gs[m'] == gap(placed, y);
  }

  /** 0..W-1 is `[0]`, then 1..W-2, then `[W - 1]`, up to order. */
  lemma IntervalEnds(W: nat)
    requires 1 <= W
    ensures multiset(Interval(0, W))
      == multiset(SpreadSeed(W) + Interval(1, W - 1))
  {
    var mid := Interval(1, W - 1);
    if W > 1 {
      assert Interval(0, W) == [0] + mid + [W - 1];
    } else {
      assert Interval(0, W) == [0];
    }
  }

  /** A permutation of 0..W-1 holds exactly the wavelengths 0..W-1. */
  lemma PermutationOfRange(o: seq<int>, W: nat)
    requires multiset(o) == multiset(Interval(0, W))
    ensures forall i :: 0 <= i < |o| ==> 0 <= o[i] < W
    ensures forall k :: 0 <= k < W ==> k in o
  {
    forall i | 0 <= i < |o| ensures 0 <= o[i] < W {
      assert o[i] in multiset(Interval(0, W));
    }
    forall k | 0 <= k < W ensures k in o {
      assert Interval(0, W)[k] == k;
      assert k in multiset(o);
    }
  }

  /** When nothing is available at any wavelength of an ordering that
      holds all of 0..W-1, nothing is available at all. */
  lemma NoneInOrdering(o: seq<int>, available: seq<bool>, W: nat)
    requires |available| == W
    requires forall k :: 0 <= k < W ==> k in o
    requires forall i :: 0 <= i < |o| ==> 0 <= o[i] < W && !available[o[i]]
    ensures forall k :: 0 <= k < W ==> !available[k]
  {
    forall k | 0 <= k < W ensures !available[k] {
      assert k in o;
      var j :| 0 <= j < |o| && o[j] == k;
    }
  }

  /** The ordering holds the seed, then the remaining wavelengths in
      some order. */
  lemma SpreadOrderingMultiset(W: nat)
    requires 1 <= W
    ensures |SpreadOrdering(W)| == W
    ensures multiset(SpreadOrdering(W)) == multiset(Interval(0, W))
    ensures SpreadOrdering(W)[..|SpreadSeed(W)|] == SpreadSeed(W)
  {
    var init := SpreadSeed(W);
    var rem := Interval(1, W - 1);
    var o := Extend(init, rem, SpreadGap(W));
    ExtendKeeps(init, rem, SpreadGap(W));
    assert o == o[..|init|] + o[|init|..];
    IntervalEnds(W);
  }

  /** The ordering is a permutation of 0..W-1 that starts 0, `W - 1`. */
  lemma SpreadOrderingPermutation(W: nat)
    requires 1 <= W
    ensures var o := SpreadOrdering(W);
      |o| == W && o[0] == 0 && (W > 1 ==> o[1] == W - 1)
      && multiset(o) == multiset(Interval(0, W))
      && (forall i :: 0 <= i < W ==> 0 <= o[i] < W)
      && (forall k :: 0 <= k < W ==> k in o)
  {
    var o := SpreadOrdering(W);
    SpreadOrderingMultiset(W);
    PermutationOfRange(o, W);
    var init := SpreadSeed(W);
    assert o[..|init|][0] == init[0];
    if W > 1 {
      assert o[..|init|][1] == init[1];
    }
  }

  /** From the third entry on, each entry of the ordering has the largest
      gap to the entries before it among the entries after it, the lowest
      on a tie. */
  lemma SpreadOrderingGreedy(W: nat)
    requires 1 <= W
    ensures GreedyFrom(SpreadOrdering(W), 2, SpreadGap(W))
  {
    ExtendGreedy(SpreadSeed(W), Interval(1, W - 1), SpreadGap(W));
  }

  /** The argmax scan of `generateWaveOrdering` (ResourceManager.cpp:2722-2731). */
  method MaxPair(gs: seq<int>) returns (best: nat)
    requires |gs| > 0
    ensures best == FirstMax(gs)
  {
    best := 0;
    var m := 1;
    while m < |gs|
      invariant 1 <= m <= |gs|
      invariant best == FirstMax(gs[..m])
    {
      assert gs[..m + 1][..m] == gs[..m];
      if gs[m] > gs[best] {
        best := m;
      }
      m := m + 1;
    }
    assert gs[..m] == gs;
  }

  /** The scan of `first_fit_with_ordering` (ResourceManager.cpp:2057-2064):
      the first wavelength in table order that is available, or
      `NO_PATH_FAILURE` when none in the table is. */
  method ScanOrdering(o: array<int>, available: array<bool>) returns (w: int)
    requires forall i :: 0 <= i < o.Length ==> 0 <= o[i] < available.Length
    ensures w == NO_PATH_FAILURE <==> forall i :: 0 <= i < o.Length ==> !available[o[i]]
    ensures w != NO_PATH_FAILURE ==>
              exists i :: 0 <= i < o.Length && o[i] == w && available[w]
                && forall j :: 0 <= j < i ==> !available[o[j]]
  {
    var i := 0;
    while i < o.Length
      invariant 0 <= i <= o.Length
      invariant forall j :: 0 <= j < i ==> !available[o[j]]
    {
      if available[o[i]] {
        return o[i];
      }
      i := i + 1;
    }
    return NO_PATH_FAILURE;
  }

  /** `choose_wavelength`'s quality-gated algorithms (the ones whose
      result always has a Q-factor of at least `TH_Q`). */
  predicate QualityGated(alg: WavelengthAlgorithm)
  {
    alg in {QualFirstFit, QualFirstFitOrdered, QualRandomFit, QualMostUsed, LeastQuality, MostQuality}
  }

  /** `w` sits in ordering `o` and no wavelength ahead of it in `o` is
      available. */
  predicate FirstInOrder(o: seq<int>, avail: seq<bool>, w: int)
  {
    exists i :: 0 <= i < |o| && o[i] == w && forall j :: 0 <= j < i && 0 <= o[j] < |avail| ==> !avail[o[j]]
  }

  /** `w` sits in ordering `o` and every available wavelength ahead of it
      in `o` fails the threshold. */
  predicate QualityFirstInOrder(o: seq<int>, avail: seq<bool>, w: int, q: int -> real, thq: real)
  {
    exists i :: 0 <= i < |o| && o[i] == w
      && forall j :: 0 <= j < i && 0 <= o[j] < |avail| && avail[o[j]] ==> q(o[j]) < thq
  }

  /** A pick made by scanning a table (`o`, indexed as an array of the
      same entries) is a pick in the order of that table. */
  lemma FirstInTable(o: seq<int>, avail: seq<bool>, w: int, q: int -> real, thq: real)
    requires forall j :: 0 <= j < |o| ==> 0 <= o[j] < |avail|
    ensures (exists i :: 0 <= i < |o| && o[i] == w && forall j :: 0 <= j < i ==> !avail[o[j]])
              ==> FirstInOrder(o, avail, w)
    ensures (exists i :: 0 <= i < |o| && o[i] == w && forall j :: 0 <= j < i && avail[o[j]] ==> q(o[j]) < thq)
              ==> QualityFirstInOrder(o, avail, w, q, thq)
  {
  }

  /** The rule by which each algorithm without a quality gate picks `w`
      among the available wavelengths `avail` (ResourceManager.cpp:1430-1449):
      the lowest; the first in the spread ordering; the `drawn`-th in
      index order; one no available wavelength precedes in most-used
      order. */
  predicate PlainRule(network: seq<Edge>, alg: WavelengthAlgorithm, avail: seq<bool>, w: nat, drawn: nat)
    requires Over(network, |avail|) && w < |avail|
    reads set r | 0 <= r < |network| :: network[r].status
  {
    match alg
    case FirstFit => forall k :: 0 <= k < w ==> !avail[k]
    case FirstFitOrdered => FirstInOrder(SpreadOrdering(|avail|), avail, w)
    case RandomFit => CountTrue(avail[..w]) == drawn
    case MostUsed => forall k :: 0 <= k < |avail| && avail[k] ==> !MoreUsed(network, k, w)
    case _ => true
  }

  /** Each plain rule singles out one available wavelength: two available
      wavelengths that both satisfy it are the same. So the rule names the
      wavelength a plain algorithm returns, and `choose_wavelength`'s
      quality check (ResourceManager.cpp:1491-1495) rejects exactly that
      one. */
  lemma PlainRuleUnique(network: seq<Edge>, alg: WavelengthAlgorithm, avail: seq<bool>,
                        w1: nat, w2: nat, drawn: nat)
    requires alg in {FirstFit, WavelengthAlgorithm.FirstFitOrdered, RandomFit, MostUsed}
    requires Over(network, |avail|) && w1 < |avail| && w2 < |avail| && avail[w1] && avail[w2]
    requires PlainRule(network, alg, avail, w1, drawn) && PlainRule(network, alg, avail, w2, drawn)
    ensures w1 == w2
  {
    match alg
    case FirstFitOrdered =>
      var o := SpreadOrdering(|avail|);
      var i1 :| 0 <= i1 < |o| && o[i1] == w1 && forall j :: 0 <= j < i1 && 0 <= o[j] < |avail| ==> !avail[o[j]];
      var i2 :| 0 <= i2 < |o| && o[i2] == w2 && forall j :: 0 <= j < i2 && 0 <= o[j] < |avail| ==> !avail[o[j]];
      assert !(i1 < i2) && !(i2 < i1);
    case RandomFit =>
      if w1 != w2 {
        var lo, hi := if w1 < w2 then w1 else w2, if w1 < w2 then w2 else w1;
        CountTrueAhead(avail, lo, hi);
      }
    case MostUsed =>
      assert !MoreUsed(network, w1, w2) && !MoreUsed(network, w2, w1);
    case FirstFit =>
  }

  /** An available wavelength ahead of `hi` makes the count below `hi`
      exceed the count below it. */
  lemma CountTrueAhead(avail: seq<bool>, lo: nat, hi: nat)
    requires lo < hi <= |avail| && avail[lo]
    ensures CountTrue(avail[..lo]) < CountTrue(avail[..hi])
  {
    assert avail[..hi][..lo + 1] == avail[..lo + 1];
    assert avail[..lo + 1][..lo] == avail[..lo];
    CountTruePrefix(avail[..hi], lo + 1);
  }

  /** The rule by which each quality-gated algorithm picks `w`, which
      reaches the threshold, among the available wavelengths `avail`
      (ResourceManager.cpp:1450-1473): every available wavelength ahead of
      it in index, spread or most-used order fails the threshold; or it
      has the lowest, or the highest positive, Q-factor of those reaching
      the threshold, the lowest index on a tie. QUAL_RANDOM_FIT's pick is
      random. */
  predicate GatedRule(network: seq<Edge>, alg: WavelengthAlgorithm, avail: seq<bool>, w: nat, q: int -> real, thq: real)
    requires Over(network, |avail|) && w < |avail|
    reads set r | 0 <= r < |network| :: network[r].status
  {
    match alg
    case QualFirstFit => forall k :: 0 <= k < w && avail[k] ==> q(k) < thq
    case QualFirstFitOrdered => QualityFirstInOrder(SpreadOrdering(|avail|), avail, w, q, thq)
    case QualMostUsed => forall k :: 0 <= k < |avail| && avail[k] && MoreUsed(network, k, w) ==> q(k) < thq
    case LeastQuality =>
      forall k :: 0 <= k < |avail| && avail[k] && thq <= q(k) ==> q(w) <= q(k) && (k < w ==> q(w) < q(k))
    case MostQuality =>
      0.0 < q(w) &&
      forall k :: 0 <= k < |avail| && avail[k] && thq <= q(k) ==> q(k) <= q(w) && (k < w ==> q(k) < q(w))
    case _ => true
  }

  /** A quality-gated algorithm fails exactly when every available
      wavelength is below the threshold; MOST_QUALITY also passes over a
      Q-factor that is not positive. */
  predicate GatedFailure(alg: WavelengthAlgorithm, avail: seq<bool>, q: int -> real, thq: real)
  {
    if alg == MostQuality then forall k :: 0 <= k < |avail| && avail[k] ==> q(k) < thq || q(k) <= 0.0
    else forall k :: 0 <= k < |avail| && avail[k] ==> q(k) < thq
  }

  /** The branches of `choose_wavelength` for FIRST_FIT, RANDOM_FIT and
      MOST_USED (ResourceManager.cpp:1430-1449): an available wavelength
      picked by the algorithm's rule. */
  method PlainPick(network: seq<Edge>, alg: WavelengthAlgorithm, available: array<bool>,
                   count: nat, pick: nat -> nat) returns (w: int)
    requires available.Length >= 1 && Over(network, available.Length)
    requires alg in {FirstFit, RandomFit, MostUsed}
    requires count == CountTrue(available[..]) && 0 < count
    requires forall n: nat :: 0 < n ==> pick(n) < n
    ensures 0 <= w < available.Length && available[w]
    ensures PlainRule(network, alg, available[..], w, pick(count))
  {
    SomeAvailable(available[..]);
    match alg {
      case FirstFit =>
        w := PickFirstFit(available);
        assert PlainRule(network, FirstFit, available[..], w, pick(count));
      case RandomFit =>
        var o := PickRandomFit(available, pick(count));
        w := o.value;
        assert PlainRule(network, RandomFit, available[..], w, pick(count));
      case MostUsed =>
        w := PickMostUsed(network, available);
        assert PlainRule(network, MostUsed, available[..], w, pick(count));
    }
  }

  /** The branches of `choose_wavelength` for the quality-gated
      algorithms that do not use the ordering table
      (ResourceManager.cpp:1450-1473): an available wavelength reaching
      `thq` picked by the algorithm's rule, or `QUALITY_FAILURE` exactly
      when the gate rejects every available one. */
  method GatedPick(network: seq<Edge>, alg: WavelengthAlgorithm, available: array<bool>,
                   count: nat, q: int -> real, thq: real, pick: nat -> nat) returns (w: int)
    requires Over(network, available.Length)
    requires QualityGated(alg) && alg != QualFirstFitOrdered
    requires count == CountTrue(available[..])
    requires forall n: nat :: 0 < n ==> pick(n) < n
    modifies available
    ensures w == QUALITY_FAILURE || (0 <= w < available.Length && old(available[w]) && thq <= q(w))
    ensures w == QUALITY_FAILURE <==> GatedFailure(alg, old(available[..]), q, thq)
    ensures w != QUALITY_FAILURE ==> GatedRule(network, alg, old(available[..]), w, q, thq)
  {
    ghost var avail := available[..];
    match alg {
      case QualFirstFit =>
        w := QualityFirstFit(available, count, q, thq);
        assert w != QUALITY_FAILURE ==> GatedRule(network, QualFirstFit, avail, w, q, thq);
      case QualRandomFit =>
        w := QualityRandomFit(available, count, q, thq, pick);
      case QualMostUsed =>
        w := QualityMostUsed(network, available, count, q, thq);
        assert w != QUALITY_FAILURE ==> GatedRule(network, QualMostUsed, avail, w, q, thq);
      case LeastQuality =>
        w := LeastQualityFit(available, q, thq);
        assert w != QUALITY_FAILURE ==> GatedRule(network, LeastQuality, avail, w, q, thq);
      case MostQuality =>
        w := MostQualityFit(available, q, thq);
        assert w != QUALITY_FAILURE ==> GatedRule(network, MostQuality, avail, w, q, thq);
    }
  }

  /** The part of the resource manager that keeps the lazily built
      `wave_ordering` table, and the wavelength choice that uses it. */
  class WavelengthAssigner {
    /** The number of wavelengths per edge. */
    const W: nat
    var waveOrdering: array?<int>

    /** Once built, the table is the spread ordering. */
    ghost predicate Valid()
      reads this, waveOrdering
    {
      waveOrdering != null ==>
        1 <= W && waveOrdering.Length == W && waveOrdering[..] == SpreadOrdering(W)
        && (forall i :: 0 <= i < W ==> 0 <= waveOrdering[i] < W)
        && (forall k :: 0 <= k < W ==> k in waveOrdering[..])
    }

    constructor (wavelengths: nat)
      ensures W == wavelengths && waveOrdering == null && Valid()
    {
      W := wavelengths;
      waveOrdering := null;
    }

    /** `getLowerBound(w, n)` (ResourceManager.cpp:2748-2762) over the
        first `n` ordered wavelengths. */
    method LowerBound(w: int, n: nat) returns (r: int)
      requires waveOrdering != null && n <= waveOrdering.Length
      ensures r == LowerGap(waveOrdering[..n], w, W)
    {
      r := W;
      var a := 0;
      while a < n
        invariant 0 <= a <= n
        invariant r == LowerGap(waveOrdering[..a], w, W)
      {
        assert waveOrdering[..a + 1][..a] == waveOrdering[..a];
        if waveOrdering[a] < w && w - waveOrdering[a] < r {
          r := w - waveOrdering[a];
        }
        a := a + 1;
      }
    }

    /** `getUpperBound(w, n)` (ResourceManager.cpp:2771-2785). */
    method UpperBound(w: int, n: nat) returns (r: int)
      requires waveOrdering != null && n <= waveOrdering.Length
      ensures r == UpperGap(waveOrdering[..n], w, W)
    {
      r := W;
      var a := 0;
      while a < n
        invariant 0 <= a <= n
        invariant r == UpperGap(waveOrdering[..a], w, W)
      {
        assert waveOrdering[..a + 1][..a] == waveOrdering[..a];
        if waveOrdering[a] > w && waveOrdering[a] - w < r {
          r := waveOrdering[a] - w;
        }
        a := a + 1;
      }
    }

    /** The gap loop of `generateWaveOrdering` (ResourceManager.cpp:2716-2720). */
    method GapsOf(waves: seq<int>, n: nat) returns (gs: seq<int>)
      requires waveOrdering != null && n <= waveOrdering.Length
      ensures gs == Gaps(waves, waveOrdering[..n], SpreadGap(W))
    {
      gs := [];
      var i := 0;
      while i < |waves|
        invariant 0 <= i <= |waves| && |gs| == i
        invariant forall j :: 0 <= j < i ==> gs[j] == Gap(waveOrdering[..n], waves[j], W)
      {
        var lo := LowerBound(waves[i], n);
        var hi := UpperBound(waves[i], n);
        gs := gs + [if lo < hi then lo else hi];
        i := i + 1;
      }
    }

    /** The filling loop of `generateWaveOrdering`
        (ResourceManager.cpp:2698-2737) on an allocated table. */
    method FillOrdering()
      requires 1 <= W && waveOrdering != null && waveOrdering.Length == W
      modifies waveOrdering
      ensures waveOrdering[..] == SpreadOrdering(W)
    {
      var o := waveOrdering;
      o[0] := 0;
      if W > 1 {
        o[1] := W - 1;
      }
      var waves := Interval(1, W - 1);
      ghost var placed: seq<int> := SpreadSeed(W);
      assert o[..|placed|] == placed;
      while |waves| > 0
        invariant |placed| + |waves| == W
        invariant o[..|placed|] == placed
        invariant Extend(placed, waves, SpreadGap(W)) == SpreadOrdering(W)
        decreases |waves|
      {
        ExtendStep(placed, waves, SpreadGap(W));
        waves, placed := PlaceNext(placed, waves);
      }
      assert waves == [];
      ExtendDone(placed, SpreadGap(W));
      assert o[..] == placed;
    }

    /** One round of the filling loop (ResourceManager.cpp:2713-2738): the
        remaining wavelength with the first largest gap goes into the next
        slot of the table. */
    method PlaceNext(ghost placed: seq<int>, waves: seq<int>) returns (rest: seq<int>, ghost next: seq<int>)
      requires waveOrdering != null && waveOrdering.Length == W
      requires waves != [] && |placed| + |waves| == W && waveOrdering[..|placed|] == placed
      modifies waveOrdering
      ensures var k := FirstMax(Gaps(waves, placed, SpreadGap(W)));
        next == placed + [waves[k]] && rest == RemoveAt(waves, k)
      ensures waveOrdering[..|next|] == next
    {
      var n := W - |waves|;
      var gaps := GapsOf(waves, n);
      var best := MaxPair(gaps);
      waveOrdering[n] := waves[best];
      assert waveOrdering[..n + 1] == placed + [waves[best]];
      next := placed + [waves[best]];
      rest := RemoveAt(waves, best);
    }

    /** `generateWaveOrdering` (ResourceManager.cpp:2693-2739). */
    method GenerateWaveOrdering()
      requires 1 <= W
      modifies this
      ensures waveOrdering != null && fresh(waveOrdering) && Valid()
    {
      waveOrdering := new int[W];
      FillOrdering();
      SpreadOrderingPermutation(W);
    }

    /** The lazy build at the head of `first_fit_with_ordering`
        (ResourceManager.cpp:2052-2055): the table exists afterwards, and
        an existing table is kept. */
    method EnsureOrdering()
      requires Valid() && 1 <= W
      modifies this
      ensures Valid() && waveOrdering != null
      ensures old(waveOrdering) != null ==> waveOrdering == old(waveOrdering)
    {
      if waveOrdering == null {
        GenerateWaveOrdering();
      }
    }

    /** `first_fit_with_ordering` (ResourceManager.cpp:2050-2065): build
        the table on first use, then the first available wavelength in
        table order, or `NO_PATH_FAILURE` when none is available. */
    method FirstFitOrdered(available: array<bool>) returns (w: int)
      requires Valid() && 1 <= W && available.Length == W
      modifies this
      ensures Valid() && waveOrdering != null
      ensures old(waveOrdering) != null ==> waveOrdering == old(waveOrdering)
      ensures w == NO_PATH_FAILURE <==> forall k :: 0 <= k < W ==> !available[k]
      ensures w != NO_PATH_FAILURE ==> 0 <= w < W && available[w]
      ensures w != NO_PATH_FAILURE ==>
                exists i :: 0 <= i < W && waveOrdering[i] == w && forall j :: 0 <= j < i ==> !available[waveOrdering[j]]
    {
      EnsureOrdering();
      w := ScanOrdering(waveOrdering, available);
      if w == NO_PATH_FAILURE {
        NoneInOrdering(waveOrdering[..], available[..], W);
      }
    }

    /** `quality_first_fit_with_ordering` (ResourceManager.cpp:2207-2243):
        first fit in table order, rejecting and masking out each
        wavelength whose Q-factor is below `thq`. The result passes, and
        every originally available wavelength ahead of it in the table
        failed; `QUALITY_FAILURE` when none passes. */
    method QualityFirstFitOrdered(available: array<bool>, count: nat, q: int -> real, thq: real)
      returns (w: int)
      requires Valid() && 1 <= W && available.Length == W
      requires count == CountTrue(available[..])
      modifies this, available
      ensures Valid()
      ensures old(waveOrdering) != null ==> waveOrdering == old(waveOrdering)
      ensures w == QUALITY_FAILURE <==> forall k :: 0 <= k < W && old(available[k]) ==> q(k) < thq
      ensures w != QUALITY_FAILURE ==> 0 <= w < W && old(available[w]) && thq <= q(w)
      ensures w != QUALITY_FAILURE ==> waveOrdering != null
      ensures w != QUALITY_FAILURE ==>
                exists i :: 0 <= i < W && waveOrdering[i] == w
                  && forall j :: 0 <= j < i && old(available[..])[waveOrdering[j]] ==> q(waveOrdering[j]) < thq
    {
      var n := count;
      while n > 0
        invariant Valid() && n == CountTrue(available[..])
        invariant old(waveOrdering) != null ==> waveOrdering == old(waveOrdering)
        invariant forall k :: 0 <= k < W && available[k] ==> old(available[k])
        invariant forall k :: 0 <= k < W && old(available[k]) && !available[k] ==> q(k) < thq
        decreases n
      {
        SomeAvailable(available[..]);
        var wave := FirstFitOrdered(available);
        if thq <= q(wave) {
          ghost var i :| 0 <= i < W && waveOrdering[i] == wave
            && forall j :: 0 <= j < i ==> !available[waveOrdering[j]];
          assert forall j :: 0 <= j < i && old(available[..])[waveOrdering[j]] ==> q(waveOrdering[j]) < thq;
          return wave;
        }
        CountTrueClear(available[..], wave);
        n := n - 1;
        available[wave] := false;
      }
      CountTrueZero(available[..]);
      return QUALITY_FAILURE;
    }

    /** The branches of `choose_wavelength` for the algorithms without a
        quality gate (ResourceManager.cpp:1430-1449): each returns an
        available wavelength by its rule when one is available. Only
        FIRST_FIT_WITH_ORDERING may build the ordering table. */
    method PlainChoice(network: seq<Edge>, alg: WavelengthAlgorithm, available: array<bool>,
                       count: nat, pick: nat -> nat) returns (w: int)
      requires Valid() && 1 <= W && available.Length == W && Over(network, W)
      requires alg in {FirstFit, WavelengthAlgorithm.FirstFitOrdered, RandomFit, MostUsed}
      requires count == CountTrue(available[..]) && 0 < count
      requires forall n: nat :: 0 < n ==> pick(n) < n
      modifies this
      ensures Valid()
      ensures 0 <= w < W && available[w]
      ensures PlainRule(network, alg, available[..], w, pick(count))
      ensures old(waveOrdering) != null || alg != WavelengthAlgorithm.FirstFitOrdered ==> waveOrdering == old(waveOrdering)
    {
      if alg == WavelengthAlgorithm.FirstFitOrdered {
        SomeAvailable(available[..]);
        w := FirstFitOrdered(available);
        FirstInTable(waveOrdering[..], available[..], w, x => 0.0, 1.0);
      } else {
        w := PlainPick(network, alg, available, count, pick);
      }
    }

    /** The branches of `choose_wavelength` for the quality-gated
        algorithms (ResourceManager.cpp:1450-1473): each returns an
        available wavelength whose Q-factor reaches `thq`, picked by its
        rule, or `QUALITY_FAILURE` exactly when its gate rejects every
        available wavelength. They consume the mask. Only
        QUAL_FIRST_FIT_WITH_ORDERING may build the ordering table. */
    method GatedChoice(network: seq<Edge>, alg: WavelengthAlgorithm, available: array<bool>,
                       count: nat, q: int -> real, thq: real, pick: nat -> nat) returns (w: int)
      requires Valid() && 1 <= W && available.Length == W && Over(network, W)
      requires QualityGated(alg)
      requires count == CountTrue(available[..])
      requires forall n: nat :: 0 < n ==> pick(n) < n
      modifies this, available
      ensures Valid()
      ensures w == QUALITY_FAILURE || (0 <= w < W && old(available[w]) && thq <= q(w))
      ensures w == QUALITY_FAILURE <==> GatedFailure(alg, old(available[..]), q, thq)
      ensures w != QUALITY_FAILURE ==> GatedRule(network, alg, old(available[..]), w, q, thq)
      ensures old(waveOrdering) != null || alg != QualFirstFitOrdered ==> waveOrdering == old(waveOrdering)
    {
      if alg == QualFirstFitOrdered {
        ghost var avail := available[..];
        w := QualityFirstFitOrdered(available, count, q, thq);
        if w != QUALITY_FAILURE {
          FirstInTable(waveOrdering[..], avail, w, q, thq);
        }
      } else {
        w := GatedPick(network, alg, available, count, q, thq, pick);
      }
    }

    /** The dispatch of `choose_wavelength` (ResourceManager.cpp:1424-1497)
        over a mask with `count > 0` available wavelengths: each algorithm
        picks by its rule; a plain pick under quality awareness must reach
        `thq`. */
    method ChooseAmong(network: seq<Edge>, alg: WavelengthAlgorithm, qualityAware: bool,
                       available: array<bool>, count: nat, q: int -> real, thq: real, pick: nat -> nat)
      returns (r: Outcome<int>)
      requires Valid() && available.Length == W && Over(network, W)
      requires count == CountTrue(available[..]) && 0 < count
      requires forall n: nat :: 0 < n ==> pick(n) < n
      modifies this, available
      ensures Valid()
      ensures r.Fatal? <==> alg == BestFit
      ensures r.Fatal? ==> r.code == ERROR_CHOOSE_WAVELENGTH_2
      ensures r.Done? ==> r.value >= 0 || r.value == QUALITY_FAILURE
      ensures r.Done? && r.value >= 0 ==> r.value < W && old(available[r.value])
      ensures r.Done? && r.value >= 0 && (qualityAware || QualityGated(alg)) ==> thq <= q(r.value)
      ensures r.Done? && r.value >= 0 && !QualityGated(alg) ==>
                PlainRule(network, alg, old(available[..]), r.value, pick(count))
      ensures r.Done? && r.value >= 0 && QualityGated(alg) ==>
                GatedRule(network, alg, old(available[..]), r.value, q, thq)
      ensures QualityGated(alg) ==> (r == Done(QUALITY_FAILURE) <==> GatedFailure(alg, old(available[..]), q, thq))
      ensures !QualityGated(alg) && alg != BestFit ==>
                (r == Done(QUALITY_FAILURE) <==>
                   qualityAware &&
                   exists w :: 0 <= w < W && old(available[w])
                     && PlainRule(network, alg, old(available[..]), w, pick(count)) && q(w) < thq)
      ensures old(waveOrdering) != null || alg !in {WavelengthAlgorithm.FirstFitOrdered, QualFirstFitOrdered} ==>
                waveOrdering == old(waveOrdering)
    {
      if alg == BestFit {
        return Fatal(ERROR_CHOOSE_WAVELENGTH_2);
      }
      if QualityGated(alg) {
        var w := GatedChoice(network, alg, available, count, q, thq, pick);
        return Done(w);
      }
      var w := PlainChoice(network, alg, available, count, pick);
      if qualityAware && q(w) < thq {
        return Done(QUALITY_FAILURE);
      }
      forall v | 0 <= v < W && available[v] && PlainRule(network, alg, available[..], v, pick(count))
        ensures v == w
      {
        PlainRuleUnique(network, alg, available[..], v, w, pick(count));
      }
      return Done(w);
    }

    /** `choose_wavelength` (ResourceManager.cpp:1399-1502): mask the
        wavelengths free on every edge of `path`; none gives
        `NO_PATH_FAILURE`; otherwise run the configured algorithm, and for
        the plain algorithms with quality awareness on reject a choice
        whose Q-factor is below `thq`. `BEST_FIT` has no branch and ends
        the process. `network` is every edge of the network, `pick(n)` the
        random draw in [0, n) for `n` available wavelengths. The edge
        states are read as they are at the call; the method does not
        change them. `free` is the mask: each algorithm's rule holds of
        the result over it. */
    method ChooseWavelength(path: seq<Edge>, network: seq<Edge>, alg: WavelengthAlgorithm,
                            qualityAware: bool, q: int -> real, thq: real, pick: nat -> nat)
      returns (r: Outcome<int>, ghost free: seq<bool>)
      requires Valid() && Over(path, W) && Over(network, W)
      requires forall n: nat :: 0 < n ==> pick(n) < n
      modifies this
      ensures Valid()
      ensures |free| == W && forall k :: 0 <= k < W ==> (free[k] <==> old(FreeOnPath(path, k)))
      ensures r.Fatal? <==> alg == BestFit && exists k :: 0 <= k < W && old(FreeOnPath(path, k))
      ensures r.Fatal? ==> r.code == ERROR_CHOOSE_WAVELENGTH_2
      ensures r == Done(NO_PATH_FAILURE) <==> forall k :: 0 <= k < W ==> !old(FreeOnPath(path, k))
      ensures r.Done? ==> r.value >= 0 || r.value == NO_PATH_FAILURE || r.value == QUALITY_FAILURE
      ensures r.Done? && r.value >= 0 ==> r.value < W && old(FreeOnPath(path, r.value))
      ensures r.Done? && r.value >= 0 && (qualityAware || QualityGated(alg)) ==> thq <= q(r.value)
      ensures r.Done? && r.value >= 0 && !QualityGated(alg) ==>
                PlainRule(network, alg, free, r.value, pick(CountTrue(free)))
      ensures r.Done? && r.value >= 0 && QualityGated(alg) ==>
                GatedRule(network, alg, free, r.value, q, thq)
      ensures QualityGated(alg) && r != Done(NO_PATH_FAILURE) ==>
                (r == Done(QUALITY_FAILURE) <==> GatedFailure(alg, free, q, thq))
      ensures !QualityGated(alg) && alg != BestFit ==>
                (r == Done(QUALITY_FAILURE) <==>
                   qualityAware &&
                   exists w :: 0 <= w < W && free[w]
                     && PlainRule(network, alg, free, w, pick(CountTrue(free))) && q(w) < thq)
      ensures old(waveOrdering) != null || alg !in {WavelengthAlgorithm.FirstFitOrdered, QualFirstFitOrdered} ==>
                waveOrdering == old(waveOrdering)
    {
      var available, count := AvailableWaves(path, W);
      free := available[..];
      assert forall k :: 0 <= k < W ==> (free[k] <==> old(FreeOnPath(path, k)));
      if count == 0 {
        CountTrueZero(free);
        return Done(NO_PATH_FAILURE), free;
      }
      SomeAvailable(free);
      ghost var k0 :| 0 <= k0 < W && free[k0];
      r := ChooseAmong(network, alg, qualityAware, available, count, q, thq, pick);
    }
  }
}
