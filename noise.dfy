// The integer structure of the resource manager's noise estimates
// (ResourceManager.cpp:1542-1711): the span sum behind the ASE noise, and
// the segmentation of a path into runs of consecutive edges that carry
// the same sessions, which the XPM and FWM estimates charge one term per
// run. The per-run terms (`path_xpm_term`, `path_fwm_term`) are abstract
// functions of the run length in spans.

module Noise {
  import opened Common
  import opened Edges
  import opened FourWaveMixing

  /** What the segmentation loops read of one path edge: whether it is
      active for the wavelengths considered, whether it carries the same
      sessions on them as the edge before it, and its span count. */
  datatype Hop = Hop(used: bool, same: bool, spans: nat)

  /** Every wavelength of `waves` is in use on `e`, except that the
      wavelength `exempt` counts as in use (the FWM estimate treats the
      connection's own wavelength so; the XPM estimate passes -1). */
  predicate UsedOn(e: Edge, waves: seq<nat>, exempt: int)
    requires forall m :: 0 <= m < |waves| ==> waves[m] < e.status.Length
    reads e.status
  {
    forall m :: 0 <= m < |waves| ==> e.status[waves[m]] == EdgeUsed || waves[m] == exempt
  }

  /** `a` and `b` carry the same session on every wavelength of `waves`. */
  predicate SameSessions(a: Edge, b: Edge, waves: seq<nat>)
    requires forall m :: 0 <= m < |waves| ==> waves[m] < a.activeSession.Length && waves[m] < b.activeSession.Length
    reads a.activeSession, b.activeSession
  {
    forall m :: 0 <= m < |waves| ==> a.activeSession[waves[m]] == b.activeSession[waves[m]]
  }

  /** Every edge of `path` has slots for every wavelength of `waves`. */
  predicate Covers(path: seq<Edge>, waves: seq<nat>)
  {
    forall r, m :: 0 <= r < |path| && 0 <= m < |waves| ==>
      waves[m] < path[r].status.Length && waves[m] < path[r].activeSession.Length
  }

  /** Every edge of `path` has slots for the wavelengths below `n`. */
  predicate HasSlots(path: seq<Edge>, n: nat)
  {
    forall r :: 0 <= r < |path| ==> n <= path[r].status.Length && n <= path[r].activeSession.Length
  }

  lemma SlotsCover(path: seq<Edge>, n: nat, wave: nat)
    requires HasSlots(path, n) && wave < n
    ensures Covers(path, [wave])
  {
  }

  /** The hops of `path` for the wavelengths `waves`. */
  function HopsOf(path: seq<Edge>, waves: seq<nat>, exempt: int): (hs: seq<Hop>)
    requires Covers(path, waves)
    reads set r | 0 <= r < |path| :: path[r].status
    reads set r | 0 <= r < |path| :: path[r].activeSession
    ensures |hs| == |path|
  {
    if path == [] then []
    else
      var n := |path| - 1;
      HopsOf(path[..n], waves, exempt)
        + [Hop(UsedOn(path[n], waves, exempt), n > 0 && SameSessions(path[n - 1], path[n], waves), path[n].numberOfSpans)]
  }

  lemma {:induction false} HopsOfAt(path: seq<Edge>, waves: seq<nat>, exempt: int, j: nat)
    requires Covers(path, waves) && j < |path|
    ensures HopsOf(path, waves, exempt)[j].used == UsedOn(path[j], waves, exempt)
    ensures HopsOf(path, waves, exempt)[j].spans == path[j].numberOfSpans
  {
    if j < |path| - 1 {
      var n := |path| - 1;
      assert Covers(path[..n], waves);
      HopsOfAt(path[..n], waves, exempt, j);
    }
  }

  /** The inner `for (j = index; ...)` loop of both estimates, from `j`
      with `plen` spans accumulated: a used edge starts a run when nothing
      has been accumulated and otherwise extends it if its sessions match
      the previous edge's; anything else stops. Yields where it stopped
      and the run length. */
  function Scan(hops: seq<Hop>, j: nat, plen: nat): (r: (nat, nat))
    requires j <= |hops|
    ensures j <= r.0 <= |hops|
    ensures r.0 == j ==> r.1 == plen
    decreases |hops| - j
  {
    if j == |hops| || !hops[j].used then (j, plen)
    else if plen == 0 then Scan(hops, j + 1, hops[j].spans)
    else if hops[j].same then Scan(hops, j + 1, plen + hops[j].spans)
    else (j, plen)
  }

  /** The run lengths `path_xpm_noise` charges (ResourceManager.cpp:1574-1620):
      after a run the scan resumes where it stopped; after no run, one
      edge further on than where it started. */
  function XpmRuns(hops: seq<Hop>, index: nat): seq<nat>
    requires index <= |hops|
    decreases |hops| - index
  {
    if index == |hops| then []
    else
      var (j, plen) := Scan(hops, index, 0);
      if plen == 0 then XpmRuns(hops, index + 1) else [plen] + XpmRuns(hops, j)
  }

  /** The run lengths `path_fwm_noise` charges (ResourceManager.cpp:1661-1706):
      the scan always resumes where it stopped, one edge further on after
      no run. */
  function FwmRuns(hops: seq<Hop>, index: nat): seq<nat>
    decreases |hops| - index
  {
    if index >= |hops| then []
    else
      var (j, plen) := Scan(hops, index, 0);
      if plen == 0 then FwmRuns(hops, j + 1) else [plen] + FwmRuns(hops, j)
  }

  /** The segmentation loop of `path_xpm_noise` for one wavelength
      (ResourceManager.cpp:1574-1620). */
  method SegmentXpm(hops: seq<Hop>) returns (runs: seq<nat>)
    ensures runs == XpmRuns(hops, 0)
  {
    runs := [];
    var index := 0;
    while index < |hops|
      invariant index <= |hops|
      invariant XpmRuns(hops, 0) == runs + XpmRuns(hops, index)
      decreases |hops| - index
    {
      var j, plen := ScanFrom(hops, index);
      if plen == 0 {
        index := index + 1;
      } else {
        index := j;
      }
      if plen > 0 {
        runs := runs + [plen];
      }
    }
  }

  /** The segmentation loop of `path_fwm_noise` for one mixing term
      (ResourceManager.cpp:1661-1706). */
  method SegmentFwm(hops: seq<Hop>) returns (runs: seq<nat>)
    ensures runs == FwmRuns(hops, 0)
  {
    runs := [];
    var index := 0;
    while index < |hops|
      invariant FwmRuns(hops, 0) == runs + FwmRuns(hops, index)
      decreases |hops| - index
    {
      var j, plen := ScanFrom(hops, index);
      index := j;
      if plen > 0 {
        runs := runs + [plen];
      } else if plen == 0 {
        index := index + 1;
      }
    }
  }

  /** The inner `for` loop shared by both estimates. */
  method ScanFrom(hops: seq<Hop>, index: nat) returns (j: nat, plen: nat)
    requires index < |hops|
    ensures (j, plen) == Scan(hops, index, 0)
  {
    j, plen := index, 0;
    while j < |hops|
      invariant index <= j <= |hops|
      invariant Scan(hops, index, 0) == Scan(hops, j, plen)
      decreases |hops| - j
    {
      if hops[j].used {
        if plen == 0 {
          plen := hops[j].spans;
        } else if hops[j].same {
          plen := plen + hops[j].spans;
        } else {
          return;
        }
      } else {
        return;
      }
      j := j + 1;
    }
  }

  /** The spans of the hops from `i` to `j`. */
  function SpanSum(hops: seq<Hop>, i: nat, j: nat): nat
    requires i <= j <= |hops|
    decreases j - i
  {
    if i == j then 0 else hops[i].spans + SpanSum(hops, i + 1, j)
  }

  /** The spans of the used hops from `i` on. */
  function UsedSpans(hops: seq<Hop>, i: nat): nat
    decreases |hops| - i
  {
    if i >= |hops| then 0 else (if hops[i].used then hops[i].spans else 0) + UsedSpans(hops, i + 1)
  }

  predicate AllUsed(hops: seq<Hop>, i: nat, j: nat)
    requires i <= j <= |hops|
  {
    forall k :: i <= k < j ==> hops[k].used
  }

  /** A scan passes only used hops and adds their spans; it stops on an
      unused hop, or on a session change once something is accumulated. */
  lemma {:induction false} ScanSpans(hops: seq<Hop>, j: nat, plen: nat)
    requires j <= |hops|
    ensures var r := Scan(hops, j, plen);
      AllUsed(hops, j, r.0) && r.1 == plen + SpanSum(hops, j, r.0)
      && (r.0 < |hops| ==> !hops[r.0].used || (r.1 > 0 && !hops[r.0].same))
    decreases |hops| - j
  {
    if j < |hops| && hops[j].used {
      if plen == 0 {
        ScanSpans(hops, j + 1, hops[j].spans);
      } else if hops[j].same {
        ScanSpans(hops, j + 1, plen + hops[j].spans);
      }
    }
  }

  lemma {:induction false} UsedSpansSplit(hops: seq<Hop>, i: nat, j: nat)
    requires i <= j <= |hops| && AllUsed(hops, i, j)
    ensures UsedSpans(hops, i) == SpanSum(hops, i, j) + UsedSpans(hops, j)
    decreases j - i
  {
    if i < j {
      UsedSpansSplit(hops, i + 1, j);
    }
  }

  function Total(runs: seq<nat>): nat
  {
    if runs == [] then 0 else runs[0] + Total(runs[1..])
  }

  predicate AllPositive(runs: seq<nat>)
  {
    forall k :: 0 <= k < |runs| ==> runs[k] > 0
  }

  /** The XPM runs are positive and together cover exactly the spans of
      the used edges: every used span is charged to one run. */
  lemma {:induction false} XpmRunsCover(hops: seq<Hop>, index: nat)
    requires index <= |hops|
    ensures AllPositive(XpmRuns(hops, index))
    ensures Total(XpmRuns(hops, index)) == UsedSpans(hops, index)
    decreases |hops| - index
  {
    if index < |hops| {
      var (j, plen) := Scan(hops, index, 0);
      ScanSpans(hops, index, 0);
      UsedSpansSplit(hops, index, j);
      if plen == 0 {
        XpmRunsCover(hops, index + 1);
        if j > index {
          UsedSpansSplit(hops, index, index + 1);
        }
      } else {
        XpmRunsCover(hops, j);
        var rest := XpmRuns(hops, j);
        assert ([plen] + rest)[1..] == rest;
      }
    }
  }

  /** The same for the FWM runs. */
  lemma {:induction false} FwmRunsCover(hops: seq<Hop>, index: nat)
    ensures AllPositive(FwmRuns(hops, index))
    ensures Total(FwmRuns(hops, index)) == UsedSpans(hops, index)
    decreases |hops| - index
  {
    if index < |hops| {
      var (j, plen) := Scan(hops, index, 0);
      ScanSpans(hops, index, 0);
      UsedSpansSplit(hops, index, j);
      if plen == 0 {
        FwmRunsCover(hops, j + 1);
      } else {
        FwmRunsCover(hops, j);
        var rest := FwmRuns(hops, j);
        assert ([plen] + rest)[1..] == rest;
      }
    }
  }

  /** The first hop from `k` on that ends a block: past the end, unused,
      or with a session change. */
  function BlockStop(hops: seq<Hop>, k: nat): (r: nat)
    requires k <= |hops|
    ensures k <= r <= |hops|
    decreases |hops| - k
  {
    if k == |hops| || !hops[k].used || !hops[k].same then k else BlockStop(hops, k + 1)
  }

  /** Reference segmentation: the maximal blocks of used hops in which
      each hop carries the sessions of the one before it, as span totals. */
  function Blocks(hops: seq<Hop>, i: nat): seq<nat>
    requires i <= |hops|
    decreases |hops| - i
  {
    if i == |hops| then []
    else if !hops[i].used then Blocks(hops, i + 1)
    else [SpanSum(hops, i, BlockStop(hops, i + 1))] + Blocks(hops, BlockStop(hops, i + 1))
  }

  predicate PositiveSpans(hops: seq<Hop>)
  {
    forall k :: 0 <= k < |hops| ==> hops[k].spans > 0
  }

  lemma {:induction false} ScanInBlock(hops: seq<Hop>, k: nat, plen: nat)
    requires k <= |hops| && plen > 0
    ensures Scan(hops, k, plen) == (BlockStop(hops, k), plen + SpanSum(hops, k, BlockStop(hops, k)))
    decreases |hops| - k
  {
    if k < |hops| && hops[k].used && hops[k].same {
      ScanInBlock(hops, k + 1, plen + hops[k].spans);
    }
  }

  /** When every edge has at least one span, the XPM estimate charges
      exactly the maximal same-session blocks. */
  lemma {:induction false} XpmRunsAreBlocks(hops: seq<Hop>, i: nat)
    requires i <= |hops| && PositiveSpans(hops)
    ensures XpmRuns(hops, i) == Blocks(hops, i)
    decreases |hops| - i
  {
    if i < |hops| {
      if !hops[i].used {
        assert Scan(hops, i, 0) == (i, 0);
        XpmRunsAreBlocks(hops, i + 1);
      } else {
        var stop := BlockStop(hops, i + 1);
        ScanInBlock(hops, i + 1, hops[i].spans);
        assert Scan(hops, i, 0) == (stop, SpanSum(hops, i, stop));
        XpmRunsAreBlocks(hops, stop);
      }
    }
  }

  /** The same for the FWM estimate. */
  lemma {:induction false} FwmRunsAreBlocks(hops: seq<Hop>, i: nat)
    requires i <= |hops| && PositiveSpans(hops)
    ensures FwmRuns(hops, i) == Blocks(hops, i)
    decreases |hops| - i
  {
    if i < |hops| {
      if !hops[i].used {
        assert Scan(hops, i, 0) == (i, 0);
        FwmRunsAreBlocks(hops, i + 1);
      } else {
        var stop := BlockStop(hops, i + 1);
        ScanInBlock(hops, i + 1, hops[i].spans);
        assert Scan(hops, i, 0) == (stop, SpanSum(hops, i, stop));
        FwmRunsAreBlocks(hops, stop);
      }
    }
  }

  /** The per-run terms added up in run order. */
  function SumTerms(runs: seq<nat>, term: nat -> real): real
  {
    if runs == [] then 0.0 else SumTerms(runs[..|runs| - 1], term) + term(runs[|runs| - 1])
  }

  method AddTerms(noise: real, runs: seq<nat>, term: nat -> real) returns (r: real)
    ensures r == noise + SumTerms(runs, term)
  {
    r := noise;
    var k := 0;
    while k < |runs|
      invariant 0 <= k <= |runs|
      invariant r == noise + SumTerms(runs[..k], term)
    {
      assert runs[..k + 1][..k] == runs[..k];
      r := r + term(runs[k]);
      k := k + 1;
    }
    assert runs[..k] == runs;
  }

  /** Whether `path_xpm_noise` looks at wavelength `wave` at all: only
      within `halfwin` of the connection's wavelength, and not at it. */
  predicate XpmNeighbour(wave: int, lambda: int, halfwin: int)
  {
    Abs(wave - lambda) <= halfwin && wave != lambda
  }

  /** XPM noise from the wavelengths below `n`. */
  function XpmNoise(path: seq<Edge>, lambda: int, n: nat, halfwin: int, term: (int, int) -> (nat -> real)): real
    requires HasSlots(path, n)
    reads set r | 0 <= r < |path| :: path[r].status
    reads set r | 0 <= r < |path| :: path[r].activeSession
  {
    if n == 0 then 0.0
    else
      var wave: nat := n - 1;
      SlotsCover(path, n, wave);
      XpmNoise(path, lambda, wave, halfwin, term)
        + (if XpmNeighbour(wave, lambda, halfwin)
           then SumTerms(XpmRuns(HopsOf(path, [wave], -1), 0), term(lambda, wave))
           else 0.0)
  }

  /** `path_xpm_noise` (ResourceManager.cpp:1560-1620): for every
      neighbouring wavelength, one `path_xpm_term` per same-session run
      of edges on which it is in use. */
  method PathXpmNoise(path: seq<Edge>, lambda: int, wavelengths: nat, halfwin: int, term: (int, int) -> (nat -> real))
      returns (noise: real)
    requires HasSlots(path, wavelengths)
    ensures noise == XpmNoise(path, lambda, wavelengths, halfwin, term)
  {
    noise := 0.0;
    var wave: nat := 0;
    while wave < wavelengths
      invariant 0 <= wave <= wavelengths
      invariant noise == XpmNoise(path, lambda, wave, halfwin, term)
    {
      noise := AddXpmWave(noise, path, lambda, wavelengths, wave, halfwin, term);
      wave := wave + 1;
    }
  }

  /** The body of the outer loop of `path_xpm_noise` for `wave`. */
  method AddXpmWave(noise: real, path: seq<Edge>, lambda: int, wavelengths: nat, wave: nat, halfwin: int,
                    term: (int, int) -> (nat -> real)) returns (r: real)
    requires wave < wavelengths && HasSlots(path, wavelengths)
    requires noise == XpmNoise(path, lambda, wave, halfwin, term)
    ensures r == XpmNoise(path, lambda, wave + 1, halfwin, term)
  {
    SlotsCover(path, wavelengths, wave);
    if XpmNeighbour(wave, lambda, halfwin) {
      var runs := SegmentXpm(HopsOf(path, [wave], -1));
      r := AddTerms(noise, runs, term(lambda, wave));
    } else {
      r := noise;
    }
  }

  /** Positive runs add up to zero only when there are none. */
  lemma EmptyRuns(runs: seq<nat>, term: nat -> real)
    requires AllPositive(runs)
    ensures Total(runs) == 0 <==> runs == []
    ensures runs == [] ==> SumTerms(runs, term) == 0.0
  {
    if runs != [] {
      assert runs[0] > 0;
    }
  }

  lemma {:induction false} IdleHops(path: seq<Edge>, waves: seq<nat>, exempt: int, i: nat)
    requires Covers(path, waves)
    requires forall r :: i <= r < |path| ==> !UsedOn(path[r], waves, exempt)
    ensures UsedSpans(HopsOf(path, waves, exempt), i) == 0
    decreases |path| - i
  {
    if i < |path| {
      HopsOfAt(path, waves, exempt, i);
      IdleHops(path, waves, exempt, i + 1);
    }
  }

  /** A path on which no neighbouring wavelength is in use picks up no XPM
      noise, whatever the per-run term. */
  lemma {:induction false} XpmQuiet(path: seq<Edge>, lambda: int, n: nat, halfwin: int, term: (int, int) -> (nat -> real))
    requires HasSlots(path, n)
    requires forall r, w :: 0 <= r < |path| && 0 <= w < n && XpmNeighbour(w, lambda, halfwin) ==> path[r].status[w] == EdgeFree
    ensures XpmNoise(path, lambda, n, halfwin, term) == 0.0
  {
    if n > 0 {
      var wave: nat := n - 1;
      SlotsCover(path, n, wave);
      XpmQuiet(path, lambda, wave, halfwin, term);
      if XpmNeighbour(wave, lambda, halfwin) {
        var hops := HopsOf(path, [wave], -1);
        forall r | 0 <= r < |path| ensures !UsedOn(path[r], [wave], -1) {
          assert [wave][0] == wave;
        }
        IdleHops(path, [wave], -1, 0);
        XpmRunsCover(hops, 0);
        EmptyRuns(XpmRuns(hops, 0), term(lambda, wave));
      }
    }
  }

  /** The three channels of a mixing term as wavelengths. */
  function TermWaves(t: FwmTerm, interIndices: seq<nat>): seq<nat>
    requires t.fi < |interIndices| && t.fj < |interIndices| && t.fk < |interIndices|
  {
    [interIndices[t.fi], interIndices[t.fj], interIndices[t.fk]]
  }

  /** A mixing term indexes the window of `lambda` and names wavelengths
      every path edge has. */
  predicate TermFits(path: seq<Edge>, t: FwmTerm, interIndices: seq<nat>, interFs: seq<int>)
  {
    t.fi < |interIndices| && t.fj < |interIndices| && t.fk < |interIndices|
    && t.fi < |interFs| && t.fj < |interFs| && t.fk < |interFs|
    && Covers(path, TermWaves(t, interIndices))
  }

  predicate TermsFit(path: seq<Edge>, combos: seq<FwmTerm>, interIndices: seq<nat>, interFs: seq<int>)
  {
    forall c :: 0 <= c < |combos| ==> TermFits(path, combos[c], interIndices, interFs)
  }

  /** The run term of one mixing term: `path_fwm_term(plen, fi, fj, fk,
      sys_fs[lambda], d)` with its frequency arguments. */
  function FwmTermOf(t: FwmTerm, interFs: seq<int>, fc: int, term: (int, int, int, int, int) -> (nat -> real)): nat -> real
    requires t.fi < |interFs| && t.fj < |interFs| && t.fk < |interFs|
  {
    term(interFs[t.fi], interFs[t.fj], interFs[t.fk], fc, t.d)
  }

  /** FWM noise from the first `n` mixing terms, before the final scaling. */
  function FwmSum(path: seq<Edge>, lambda: int, combos: seq<FwmTerm>, n: nat, interIndices: seq<nat>,
                  interFs: seq<int>, fc: int, term: (int, int, int, int, int) -> (nat -> real)): real
    requires n <= |combos| && TermsFit(path, combos, interIndices, interFs)
    reads set r | 0 <= r < |path| :: path[r].status
    reads set r | 0 <= r < |path| :: path[r].activeSession
  {
    if n == 0 then 0.0
    else
      FwmSum(path, lambda, combos, n - 1, interIndices, interFs, fc, term)
        + FwmContribution(path, lambda, combos[n - 1], interIndices, interFs, fc, term)
  }

  /** What one mixing term adds: its run term for every run of `FwmRuns`. */
  function FwmContribution(path: seq<Edge>, lambda: int, t: FwmTerm, interIndices: seq<nat>,
                           interFs: seq<int>, fc: int, term: (int, int, int, int, int) -> (nat -> real)): real
    requires TermFits(path, t, interIndices, interFs)
    reads set r | 0 <= r < |path| :: path[r].status
    reads set r | 0 <= r < |path| :: path[r].activeSession
  {
    SumTerms(FwmRuns(HopsOf(path, TermWaves(t, interIndices), lambda), 0), FwmTermOf(t, interFs, fc, term))
  }

  /** The body of the outer loop of `path_fwm_noise` for mixing term `t`. */
  method AddFwmTerm(sum: real, path: seq<Edge>, lambda: int, t: FwmTerm, interIndices: seq<nat>,
                    interFs: seq<int>, fc: int, term: (int, int, int, int, int) -> (nat -> real)) returns (r: real)
    requires TermFits(path, t, interIndices, interFs)
    ensures r == sum + FwmContribution(path, lambda, t, interIndices, interFs, fc, term)
  {
    var hops := HopsOf(path, TermWaves(t, interIndices), lambda);
    var runs := SegmentFwm(hops);
    r := AddTerms(sum, runs, FwmTermOf(t, interFs, fc, term));
  }

  /** One turn of the loop of `path_fwm_noise`: the running sum over the
      first `c` mixing terms becomes the sum over the first `c+1`. */
  method FwmStep(sum: real, path: seq<Edge>, lambda: int, combos: seq<FwmTerm>, c: nat, interIndices: seq<nat>,
                 interFs: seq<int>, fc: int, term: (int, int, int, int, int) -> (nat -> real)) returns (r: real)
    requires c < |combos| && TermsFit(path, combos, interIndices, interFs)
    requires sum == FwmSum(path, lambda, combos, c, interIndices, interFs, fc, term)
    ensures r == FwmSum(path, lambda, combos, c + 1, interIndices, interFs, fc, term)
  {
    assert TermFits(path, combos[c], interIndices, interFs);
    r := AddFwmTerm(sum, path, lambda, combos[c], interIndices, interFs, fc, term);
  }

  /** The final scaling of `path_fwm_noise`: twice the channel power. */
  function Scaled(channelPower: real, sum: real): real
  {
    2.0 * channelPower * sum
  }

  /** `path_fwm_noise` (ResourceManager.cpp:1639-1711): for every mixing
      term of `lambda`, one `path_fwm_term` per same-session run of edges
      on which its three channels are in use (the connection's own
      channel counting as in use); the sum is scaled by twice the channel
      power. */
  method PathFwmNoise(path: seq<Edge>, lambda: int, combos: seq<FwmTerm>, interIndices: seq<nat>,
                      interFs: seq<int>, fc: int, channelPower: real,
                      term: (int, int, int, int, int) -> (nat -> real)) returns (noise: real)
    requires TermsFit(path, combos, interIndices, interFs)
    ensures noise == Scaled(channelPower, FwmSum(path, lambda, combos, |combos|, interIndices, interFs, fc, term))
  {
    var sum := 0.0;
    var c: nat := 0;
    while c < |combos|
      invariant 0 <= c <= |combos|
      invariant sum == FwmSum(path, lambda, combos, c, interIndices, interFs, fc, term)
    {
      sum := FwmStep(sum, path, lambda, combos, c, interIndices, interFs, fc, term);
      c := c + 1;
    }
    noise := Scaled(channelPower, sum);
  }

  /** The spans of a path. */
  function TotalSpans(path: seq<Edge>): nat
  {
    if path == [] then 0 else TotalSpans(path[..|path| - 1]) + path[|path| - 1].numberOfSpans
  }

  /** `path_ase_noise` (ResourceManager.cpp:1542-1552): the spans of the
      path times the per-amplifier ASE noise of the wavelength. */
  method PathAseNoise(path: seq<Edge>, lambda: int, asePerEdfa: seq<real>) returns (noise: real)
    requires 0 <= lambda < |asePerEdfa|
    ensures noise == TotalSpans(path) as real * asePerEdfa[lambda]
  {
    var spans := 0.0;
    var r := 0;
    while r < |path|
      invariant 0 <= r <= |path|
      invariant spans == TotalSpans(path[..r]) as real
    {
      assert path[..r + 1][..r] == path[..r];
      spans := spans + path[r].numberOfSpans as real;
      r := r + 1;
    }
    assert path[..r] == path;
    noise := spans * asePerEdfa[lambda];
  }

  /** The ASE noise of a path is the sum over its parts: the span count is
      additive under concatenation. */
  lemma {:induction false} TotalSpansAppend(p: seq<Edge>, q: seq<Edge>)
    ensures TotalSpans(p + q) == TotalSpans(p) + TotalSpans(q)
    decreases |q|
  {
    if q != [] {
      var n := |q| - 1;
      assert (p + q)[..|p + q| - 1] == p + q[..n];
      assert (p + q)[|p + q| - 1] == q[n];
      TotalSpansAppend(p, q[..n]);
      assert TotalSpans(p + q) == TotalSpans(p + q[..n]) + q[n].numberOfSpans;
    } else {
      assert p + q == p;
    }
  }
}
