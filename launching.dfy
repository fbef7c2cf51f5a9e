// What `sendProbes` (Thread.cpp:2388-2539) makes of a request and its
// cost table, on values: the slots it visits, the table it leaves behind
// and the probe records it creates.

module Launching {
  import opened Common
  import opened Edges
  import opened Events
  import opened Signalling

  /** The slots `sendProbes` takes, from `p`, for `count` probes: the
      slots in order, except that IMPAIRMENT_AWARE and
      DYNAMIC_PROGRAMMING step over a slot of infinite cost. None when
      the scan runs past the table. */
  function Slots(ra: RoutingAlgorithm, costs: seq<Cost>, p: nat, count: nat): (r: Option<seq<nat>>)
    ensures r.Some? ==> |r.value| == count
    decreases count, |costs| - p
  {
    if count == 0 then Some([])
    else if p >= |costs| then None
    else if PresetWavelength(ra) && costs[p].Inf? then Slots(ra, costs, p + 1, count)
    else
      match Slots(ra, costs, p + 1, count - 1)
      case None => None
      case Some(rest) => Some([p] + rest)
  }

  /** One step of the scan at `p`: inside the table; a slot a preset
      wavelength cannot use is passed over, any other is taken and the
      scan goes on after it (the inner `while` of Thread.cpp:2412-2421). */
  lemma SlotsAhead(ra: RoutingAlgorithm, costs: seq<Cost>, p: nat, count: nat)
    requires count > 0 && Slots(ra, costs, p, count).Some?
    ensures p < |costs|
    ensures PresetWavelength(ra) && costs[p].Inf? ==> Slots(ra, costs, p + 1, count) == Slots(ra, costs, p, count)
    ensures !(PresetWavelength(ra) && costs[p].Inf?) ==>
              Slots(ra, costs, p + 1, count - 1).Some? &&
              Slots(ra, costs, p, count).value == [p] + Slots(ra, costs, p + 1, count - 1).value
  {
  }

  /** The scan takes slot `p` and goes on after it, as a suffix
      `rest` of the slot list sees it. */
  lemma SlotsTake(ra: RoutingAlgorithm, costs: seq<Cost>, p: nat, count: nat, rest: seq<nat>)
    requires count > 0 && Slots(ra, costs, p, count) == Some(rest)
    requires !(PresetWavelength(ra) && p < |costs| && costs[p].Inf?)
    ensures p < |costs| && |rest| > 0 && rest[0] == p
    ensures Slots(ra, costs, p + 1, count - 1) == Some(rest[1..])
  {
    SlotsAhead(ra, costs, p, count);
    assert rest == [p] + Slots(ra, costs, p + 1, count - 1).value;
  }

  /** The scan of `sendProbes` over the slot table (Thread.cpp:2410-2421,
      2533): from `start`, take `count` slots, under IA and DP stepping
      over those of infinite cost. */
  method PickSlots(ra: RoutingAlgorithm, costs: seq<Cost>, start: nat, count: nat) returns (picked: seq<nat>)
    requires Slots(ra, costs, start, count).Some?
    ensures picked == Slots(ra, costs, start, count).value
  {
    var p: nat := start;
    var i := 0;
    picked := [];
    ghost var all := Slots(ra, costs, start, count).value;
    ghost var rest := all;
    while i < count
      invariant 0 <= i <= count && Slots(ra, costs, p, count - i).Some? && Slots(ra, costs, p, count - i).value == rest
      invariant all == picked + rest
    {
      var s := NextSlot(ra, costs, p, count - i, rest);
      assert picked + rest == (picked + [s]) + rest[1..] by {
        assert rest == [s] + rest[1..];
      }
      picked := picked + [s];
      rest := rest[1..];
      p := s + 1;
      i := i + 1;
    }
    assert |rest| == 0;
    assert picked + rest == picked;
  }

  /** One slot of the scan from `p`: the first one a probe can take;
      the scan goes on after it. */
  method NextSlot(ra: RoutingAlgorithm, costs: seq<Cost>, p: nat, count: nat, ghost rest: seq<nat>) returns (s: nat)
    requires count > 0 && Slots(ra, costs, p, count) == Some(rest)
    ensures |rest| > 0 && s == rest[0] && Slots(ra, costs, s + 1, count - 1) == Some(rest[1..])
  {
    s := p;
    if PresetWavelength(ra) {
      s := SkipInfinite(ra, costs, p, count);
    }
    SlotsTake(ra, costs, s, count, rest);
  }

  /** The inner scan of `sendProbes` under IA and DP: step over the
      slots of infinite cost; the slots still to take stay the same. */
  method SkipInfinite(ra: RoutingAlgorithm, costs: seq<Cost>, p0: nat, count: nat) returns (p: nat)
    requires count > 0 && PresetWavelength(ra) && Slots(ra, costs, p0, count).Some?
    ensures p0 <= p < |costs| && costs[p].Fin? && Slots(ra, costs, p, count) == Slots(ra, costs, p0, count)
  {
    p := p0;
    SlotsAhead(ra, costs, p, count);
    while costs[p].Inf?
      invariant p0 <= p < |costs| && Slots(ra, costs, p, count) == Slots(ra, costs, p0, count)
      decreases |costs| - p
    {
      SlotsAhead(ra, costs, p + 1, count);
      p := p + 1;
    }
  }

  /** The slots lie in the table, from `p` on; with a preset wavelength
      every one of them has a finite cost. */
  lemma {:induction false} SlotsInRange(ra: RoutingAlgorithm, costs: seq<Cost>, p: nat, count: nat)
    requires Slots(ra, costs, p, count).Some?
    ensures forall j :: 0 <= j < count ==> p <= Slots(ra, costs, p, count).value[j] < |costs|
    ensures PresetWavelength(ra) ==> forall j :: 0 <= j < count ==> costs[Slots(ra, costs, p, count).value[j]].Fin?
    decreases count, |costs| - p
  {
    if count > 0 {
      if PresetWavelength(ra) && costs[p].Inf? {
        SlotsInRange(ra, costs, p + 1, count);
      } else {
        SlotsInRange(ra, costs, p + 1, count - 1);
      }
    }
  }

  /** The slots increase strictly. */
  lemma {:induction false} SlotsIncrease(ra: RoutingAlgorithm, costs: seq<Cost>, p: nat, count: nat)
    requires Slots(ra, costs, p, count).Some?
    ensures forall j, k :: 0 <= j < k < count ==>
              Slots(ra, costs, p, count).value[j] < Slots(ra, costs, p, count).value[k]
    decreases count, |costs| - p
  {
    if count > 0 {
      SlotsAhead(ra, costs, p, count);
      if PresetWavelength(ra) && costs[p].Inf? {
        SlotsIncrease(ra, costs, p + 1, count);
      } else {
        SlotsIncrease(ra, costs, p + 1, count - 1);
        SlotsInRange(ra, costs, p + 1, count - 1);
      }
    }
  }

  /** Without a preset wavelength the slots are `p`, `p+1`, ...; there
      are enough exactly when the table reaches `p + count`. */
  lemma {:induction false} SlotsConsecutive(ra: RoutingAlgorithm, costs: seq<Cost>, p: nat, count: nat)
    requires !PresetWavelength(ra)
    ensures Slots(ra, costs, p, count).Some? <==> count == 0 || p + count <= |costs|
    ensures Slots(ra, costs, p, count).Some? ==>
              forall j :: 0 <= j < count ==> Slots(ra, costs, p, count).value[j] == p + j
    decreases count
  {
    if count > 0 && p < |costs| {
      SlotsConsecutive(ra, costs, p + 1, count - 1);
    }
  }

  /** With a preset wavelength no finite slot between `p` and the last
      one taken is passed over. */
  lemma {:induction false} SlotsSkipOnlyInfinite(ra: RoutingAlgorithm, costs: seq<Cost>, p: nat, count: nat, w: nat)
    requires PresetWavelength(ra) && Slots(ra, costs, p, count).Some? && count > 0
    requires p <= w <= Slots(ra, costs, p, count).value[count - 1] && w < |costs| && costs[w].Fin?
    ensures w in Slots(ra, costs, p, count).value
    decreases count, |costs| - p
  {
    if costs[p].Inf? {
      SlotsSkipOnlyInfinite(ra, costs, p + 1, count, w);
    } else if w > p {
      var rest := Slots(ra, costs, p + 1, count - 1).value;
      assert Slots(ra, costs, p, count).value == [p] + rest;
      SlotsSkipOnlyInfinite(ra, costs, p + 1, count - 1, w);
    }
  }

  /** `CountFinite` peeled from the front. */
  lemma {:induction false} CountFiniteFront(costs: seq<Cost>, a: nat, b: nat)
    requires a < b <= |costs|
    ensures CountFinite(costs, a, b) == (if costs[a].Fin? then 1 else 0) + CountFinite(costs, a + 1, b)
    decreases b
  {
    if a + 1 < b {
      CountFiniteFront(costs, a, b - 1);
    }
  }

  /** With a preset wavelength there are enough slots exactly when the
      table holds `count` finite costs from `p` on. */
  lemma {:induction false} SlotsDefined(ra: RoutingAlgorithm, costs: seq<Cost>, p: nat, count: nat)
    requires PresetWavelength(ra)
    ensures Slots(ra, costs, p, count).Some? <==> count <= CountFinite(costs, p, |costs|)
    decreases count, |costs| - p
  {
    if count > 0 && p < |costs| {
      CountFiniteFront(costs, p, |costs|);
      if costs[p].Inf? {
        SlotsDefined(ra, costs, p + 1, count);
      } else {
        SlotsDefined(ra, costs, p + 1, count - 1);
      }
    }
  }

  /** Counting over a longer range never counts fewer. */
  lemma {:induction false} CountFiniteGrows(costs: seq<Cost>, a: nat, b: nat, c: nat)
    requires b <= c <= |costs|
    ensures CountFinite(costs, a, b) <= CountFinite(costs, a, c)
    decreases c
  {
    if b < c {
      CountFiniteGrows(costs, a, b, c - 1);
    }
  }

  /** The finite costs come first. */
  predicate FinitePrefix(costs: seq<Cost>)
  {
    forall i, j :: 0 <= i < j < |costs| && costs[j].Fin? ==> costs[i].Fin?
  }

  /** When the finite costs come first, the finite slots below `b` are
      exactly the first ones. */
  lemma {:induction false} FinitePrefixCount(costs: seq<Cost>, b: nat)
    requires b <= |costs| && FinitePrefix(costs)
    ensures forall j :: 0 <= j < CountFinite(costs, 0, b) ==> costs[j].Fin?
    decreases b
  {
    if b > 0 {
      FinitePrefixCount(costs, b - 1);
    }
  }

  /** The table after slot `s` is used: every algorithm but SHORTEST_PATH
      marks the slot spent, with infinite cost and length 0 (the value
      `numeric_limits<int>::infinity()` has). */
  function Spend(ra: RoutingAlgorithm, k: KPathReturn, s: nat): (r: KPathReturn)
    requires s < |k.pathcost| && s < |k.pathlen|
    ensures r.pathinfo == k.pathinfo && |r.pathcost| == |k.pathcost| && |r.pathlen| == |k.pathlen|
    ensures forall j :: 0 <= j < |k.pathcost| && j != s ==> r.pathcost[j] == k.pathcost[j]
    ensures forall j :: 0 <= j < |k.pathlen| && j != s ==> r.pathlen[j] == k.pathlen[j]
    ensures ra != ShortestPath ==> r.pathcost[s] == Inf && r.pathlen[s] == 0
    ensures ra == ShortestPath ==> r == k
  {
    if ra == ShortestPath then k
    else k.(pathcost := k.pathcost[s := Inf], pathlen := k.pathlen[s := 0])
  }

  /** The slots are positions of the table. */
  predicate InTable(k: KPathReturn, slots: seq<nat>)
  {
    forall j :: 0 <= j < |slots| ==> slots[j] < |k.pathcost| && slots[j] < |k.pathlen|
  }

  /** The table after every slot of `slots` is used, in order. */
  function SpendAll(ra: RoutingAlgorithm, k: KPathReturn, slots: seq<nat>): (r: KPathReturn)
    requires InTable(k, slots)
    ensures r.pathinfo == k.pathinfo && |r.pathcost| == |k.pathcost| && |r.pathlen| == |k.pathlen|
  {
    if slots == [] then k
    else Spend(ra, SpendAll(ra, k, slots[..|slots| - 1]), slots[|slots| - 1])
  }

  /** Using the slots spends them and leaves every other slot as it was. */
  lemma {:induction false} SpendAllMarks(ra: RoutingAlgorithm, k: KPathReturn, slots: seq<nat>)
    requires InTable(k, slots)
    ensures forall j :: 0 <= j < |k.pathcost| && j !in slots ==> SpendAll(ra, k, slots).pathcost[j] == k.pathcost[j]
    ensures forall j :: 0 <= j < |k.pathlen| && j !in slots ==> SpendAll(ra, k, slots).pathlen[j] == k.pathlen[j]
    ensures ra != ShortestPath ==> forall j :: 0 <= j < |slots| ==>
              SpendAll(ra, k, slots).pathcost[slots[j]] == Inf && SpendAll(ra, k, slots).pathlen[slots[j]] == 0
  {
    if slots != [] {
      var init := slots[..|slots| - 1];
      SpendAllMarks(ra, k, init);
      forall j | 0 <= j < |slots| - 1 ensures slots[j] in init {
        assert init[j] == slots[j];
      }
    }
  }

  /** Under SHORTEST_PATH the table is never marked. */
  lemma {:induction false} SpendAllShortestPath(k: KPathReturn, slots: seq<nat>)
    requires InTable(k, slots)
    ensures SpendAll(ShortestPath, k, slots) == k
  {
    if slots != [] {
      SpendAllShortestPath(k, slots[..|slots| - 1]);
    }
  }

  /** The sequence number of the `i`-th probe of the call: SERIAL keeps
      the request's, PARALLEL counts up from it, SINGLE uses 0. */
  function SequenceOf(ps: ProbeStyle, cre: Request, i: nat): (n: nat)
    ensures ps == Parallel ==> n == cre.sequence + i
    ensures ps == Serial ==> n == cre.sequence
    ensures ps == Single ==> n == 0
  {
    match ps
    case Serial => cre.sequence
    case Parallel => cre.sequence + i
    case Single => 0
  }

  /** The probes' `max_sequence`: SERIAL stores the request's, counting
      the finite slots of the scan bound on the request's first attempt;
      the other styles use the number of probes sent. */
  function MaxSequenceOf(ra: RoutingAlgorithm, ps: ProbeStyle, cre: Request, costs: seq<Cost>,
                         W: nat, maxProbes: nat, toSend: nat): (n: nat)
    requires ps == Serial && cre.maxSequence == 0 ==> ScanBound(ra, ps, W, maxProbes) <= |costs|
    ensures ps != Serial ==> n == toSend
    ensures ps == Serial && cre.maxSequence != 0 ==> n == cre.maxSequence
    ensures ps == Serial && cre.maxSequence == 0 ==> n <= ScanBound(ra, ps, W, maxProbes)
  {
    if ps != Serial then toSend
    else if cre.maxSequence != 0 then cre.maxSequence
    else CountFinite(costs, 0, ScanBound(ra, ps, W, maxProbes))
  }

  /** The preset wavelength of a probe on slot `s`: the slot itself for
      IMPAIRMENT_AWARE, the cost entry for DYNAMIC_PROGRAMMING, which
      stores the wavelength there, 0 otherwise. */
  function WavelengthOf(ra: RoutingAlgorithm, costs: seq<Cost>, s: nat): (w: int)
    requires s < |costs|
    ensures ra == ImpairmentAware ==> w == s
    ensures ra == DynamicProgramming && costs[s].Fin? ==> w == costs[s].n
    ensures !PresetWavelength(ra) ==> w == 0
    ensures w >= 0
  {
    if ra == ImpairmentAware then s
    else if ra == DynamicProgramming then (if costs[s].Fin? then costs[s].n else 0)
    else 0
  }

  /** A fresh probe record of request `cre`: at the source, undecided. */
  function NewProbe(cre: Request, path: seq<Edge>, sequence: nat, maxSequence: nat,
                    wavelength: int, kPaths: KPathReturn, group: nat): Probe
  {
    Probe(cre.source, cre.destination, cre.duration, cre.requestBegin, path, 0, cre.session,
          sequence, maxSequence, wavelength, cre.qualityFail, false, 0.0, kPaths, group)
  }

  /** The handles `base`, `base+1`, ... of `n` records. */
  function Handles(base: nat, n: nat): (hs: seq<nat>)
    ensures |hs| == n && forall j :: 0 <= j < n ==> hs[j] == base + j
  {
    if n == 0 then [] else Handles(base, n - 1) + [base + n - 1]
  }

  /** The made records under handles `base`, `base+1`, ...; they all see
      the table `kPaths` the call leaves behind, as they share its
      pointer in the source. */
  function Fresh(base: nat, made: seq<Probe>, kPaths: KPathReturn): (m: map<nat, Probe>)
    ensures forall h :: h in m <==> base <= h < base + |made|
    ensures forall j :: 0 <= j < |made| ==> m[base + j] == made[j].(kPaths := kPaths)
  {
    if made == [] then map[]
    else Fresh(base, made[..|made| - 1], kPaths)[base + |made| - 1 := made[|made| - 1].(kPaths := kPaths)]
  }
}
