// The signalling state machine of a simulation thread (Thread.cpp): the
// connection request, the probe that travels from source to destination,
// the confirmation that travels back reserving the wavelength edge by edge,
// the collision notice that releases a partial reservation, and the destroy
// message that releases an established connection. Probe records live in a
// table keyed by handle; a PARALLEL request's probes form a group whose
// members read each other's state, as the source's shared `probes` array.

module Signalling {
  import opened Common
  import opened Edges
  import opened Events
  import opened EventQueues
  import opened Routers
  import Configuration

  /** The counters of `GlobalStats` (Stats.h) that the handlers change. */
  datatype Stats = Stats(
    connectionRequests: nat, connectionSuccesses: nat,
    collisionFailures: nat, qualityFailures: nat, noPathFailures: nat,
    probeSentCount: nat, totalHopCount: nat, totalSpanCount: nat,
    totalSetupDelay: real)

  /** `CreateConnectionProbeEvent`: the probe record. Its connection length
      is `|path|`; `group` names the sibling table of a PARALLEL request. */
  datatype Probe = Probe(
    source: nat, destination: nat, duration: real, requestBegin: real,
    path: seq<Edge>, hops: nat, session: nat, sequence: nat, maxSequence: nat,
    wavelength: int, qualityFail: bool, atDestination: bool, decisionTime: real,
    kPaths: KPathReturn, group: nat)

  // ---------------------------------------------------------------------
  // Sibling queries (Thread.cpp:2600-2740). `siblings[p]` is the record of
  // sequence number `p` of the same request.

  /** A sibling that reached the destination and decided on a wavelength. */
  predicate Decided(p: Probe)
  {
    p.atDestination && p.decisionTime != 0.0 && p.wavelength >= 0
  }

  /** A sibling that reached the destination and was told to wait. */
  predicate Waiting(p: Probe)
  {
    p.atDestination && p.decisionTime == 0.0
  }

  /** Whether the probe `self` may answer: no other sibling has already
      decided on a wavelength. */
  method SendResponse(siblings: seq<Probe>, self: Probe) returns (b: bool)
    requires self.maxSequence <= |siblings|
    ensures b <==> forall p :: 0 <= p < self.maxSequence && p != self.sequence ==> !Decided(siblings[p])
  {
    var p := 0;
    while p < self.maxSequence
      invariant 0 <= p <= self.maxSequence
      invariant forall q :: 0 <= q < p && q != self.sequence ==> !Decided(siblings[q])
    {
      if p != self.sequence && siblings[p].atDestination {
        if siblings[p].decisionTime != 0.0 && siblings[p].wavelength >= 0 {
          return false;
        }
      }
      p := p + 1;
    }
    return true;
  }

  /** Whether some other sibling is still travelling (PARALLEL only). */
  method MoreProbes(ps: ProbeStyle, siblings: seq<Probe>, self: Probe) returns (b: bool)
    requires ps == Parallel ==> self.maxSequence <= |siblings|
    ensures b <==> ps == Parallel &&
                   exists p :: 0 <= p < self.maxSequence && p != self.sequence && !siblings[p].atDestination
  {
    if ps != Parallel {
      return false;
    }
    var p := 0;
    while p < self.maxSequence
      invariant 0 <= p <= self.maxSequence
      invariant forall q :: 0 <= q < p && q != self.sequence ==> siblings[q].atDestination
    {
      if p != self.sequence && !siblings[p].atDestination {
        return true;
      }
      p := p + 1;
    }
    return false;
  }

  /** The first other sibling that waits at the destination, or -1
      (always -1 unless PARALLEL). */
  method OtherResponse(ps: ProbeStyle, siblings: seq<Probe>, self: Probe) returns (r: int)
    requires ps == Parallel ==> self.maxSequence <= |siblings|
    ensures r == -1 <==> ps != Parallel ||
                         forall p :: 0 <= p < self.maxSequence && p != self.sequence ==> !Waiting(siblings[p])
    ensures r != -1 ==> 0 <= r < self.maxSequence && r != self.sequence && Waiting(siblings[r]) &&
                        forall q :: 0 <= q < r && q != self.sequence ==> !Waiting(siblings[q])
  {
    if ps != Parallel {
      return -1;
    }
    var p := 0;
    while p < self.maxSequence
      invariant 0 <= p <= self.maxSequence
      invariant forall q :: 0 <= q < p && q != self.sequence ==> !Waiting(siblings[q])
    {
      if p != self.sequence && siblings[p].atDestination && siblings[p].decisionTime == 0.0 {
        return p;
      }
      p := p + 1;
    }
    return -1;
  }

  /** Every other sibling reached the destination and decided no later
      than `self`. */
  predicate SettledNoLater(siblings: seq<Probe>, self: Probe)
    requires self.maxSequence <= |siblings|
  {
    forall p :: 0 <= p < self.maxSequence && p != self.sequence ==>
      siblings[p].atDestination && siblings[p].decisionTime != 0.0 &&
      siblings[p].decisionTime <= self.decisionTime
  }

  /** Whether a collision of probe `self` ends the request: under PARALLEL,
      every other sibling reached the destination and decided no later
      than `self` (Thread.cpp:1151-1175); otherwise always. */
  method FinalFailure(ps: ProbeStyle, siblings: seq<Probe>, self: Probe) returns (f: bool)
    requires ps == Parallel ==> self.maxSequence <= |siblings|
    ensures f <==> ps != Parallel || SettledNoLater(siblings, self)
  {
    f := true;
    if ps == Parallel {
      var p := 0;
      while p < self.maxSequence
        invariant 0 <= p <= self.maxSequence
        invariant forall q :: 0 <= q < p && q != self.sequence ==>
                    siblings[q].atDestination && siblings[q].decisionTime != 0.0 &&
                    siblings[q].decisionTime <= self.decisionTime
      {
        if p != self.sequence {
          if !siblings[p].atDestination {
            return false;
          } else if siblings[p].decisionTime == 0.0 || siblings[p].decisionTime > self.decisionTime {
            return false;
          }
        }
        p := p + 1;
      }
    }
  }

  /** A final collision leaves no sibling that could still answer: none
      waits at the destination and none is travelling. */
  lemma FinalLeavesNoResponder(siblings: seq<Probe>, self: Probe, p: nat)
    requires self.maxSequence <= |siblings| && p < self.maxSequence && p != self.sequence
    requires SettledNoLater(siblings, self)
    ensures !Waiting(siblings[p]) && siblings[p].atDestination
  {
  }

  // ---------------------------------------------------------------------
  // calcProbesToSend (Thread.cpp:2237-2379).

  /** How many probes to send and the first slot to send from. */
  datatype Plan = Plan(toSend: nat, start: nat)

  /** Number of finite costs among slots `a .. b-1`. */
  function CountFinite(costs: seq<Cost>, a: nat, b: nat): (n: nat)
    requires b <= |costs|
    ensures n <= if a <= b then b - a else 0
    decreases b
  {
    if b <= a then 0 else CountFinite(costs, a, b - 1) + (if costs[b - 1].Fin? then 1 else 0)
  }

  /** The first slot in `a .. b-1` with a finite cost, or -1. */
  function FirstFinite(costs: seq<Cost>, a: nat, b: nat): (k: int)
    requires b <= |costs|
    ensures k == -1 || a <= k < b
    decreases b
  {
    if b <= a then -1
    else
      var f := FirstFinite(costs, a, b - 1);
      if f != -1 then f else if costs[b - 1].Fin? then b - 1 else -1
  }

  lemma {:induction false} FirstFiniteMeaning(costs: seq<Cost>, a: nat, b: nat)
    requires b <= |costs|
    ensures FirstFinite(costs, a, b) == -1 <==> forall w :: a <= w < b ==> costs[w] == Inf
    ensures FirstFinite(costs, a, b) != -1 ==>
              a <= FirstFinite(costs, a, b) < b && costs[FirstFinite(costs, a, b)].Fin? &&
              forall w :: a <= w < FirstFinite(costs, a, b) ==> costs[w] == Inf
    ensures FirstFinite(costs, a, b) == -1 <==> CountFinite(costs, a, b) == 0
    decreases b
  {
    if a < b {
      FirstFiniteMeaning(costs, a, b - 1);
    }
  }

  /** The first slot below `b` of strictly least cost, starting from slot
      0 and `Inf` (the BEST_FIT scan). */
  function MinScan(costs: seq<Cost>, b: nat): (r: (nat, Cost))
    requires b <= |costs|
    ensures r.0 < |costs| || (r.0 == 0 && r.1 == Inf)
  {
    if b == 0 then (0, Inf)
    else
      var (s, m) := MinScan(costs, b - 1);
      if costs[b - 1].Below(m) then (b - 1, costs[b - 1]) else (s, m)
  }

  lemma {:induction false} MinScanMeaning(costs: seq<Cost>, b: nat)
    requires b <= |costs|
    ensures MinScan(costs, b).1 == Inf <==> forall w :: 0 <= w < b ==> costs[w] == Inf
    ensures MinScan(costs, b).1 != Inf ==>
              MinScan(costs, b).0 < b && costs[MinScan(costs, b).0] == MinScan(costs, b).1 &&
              forall w :: 0 <= w < b ==> MinScan(costs, b).1.AtMost(costs[w])
  {
    if b > 0 {
      MinScanMeaning(costs, b - 1);
    }
  }

  /** Number of slots the routing algorithm scans. */
  function ScanBound(ra: RoutingAlgorithm, ps: ProbeStyle, W: nat, maxProbes: nat): nat
  {
    if ra == ImpairmentAware then W
    else if ra == DynamicProgramming && ps == Single then 1
    else if ra == DynamicProgramming then maxProbes
    else if ps == Single then 1
    else maxProbes
  }

  /** The cost table has every slot that `calcProbesToSend` reads. */
  predicate CostsCover(ra: RoutingAlgorithm, wa: WavelengthAlgorithm, ps: ProbeStyle,
                       W: nat, maxProbes: nat, costs: seq<Cost>)
  {
    ScanBound(ra, ps, W, maxProbes) <= |costs| &&
    (PresetWavelength(ra) && ps != Parallel && wa == BestFit ==> W <= |costs|)
  }

  /** What `calcProbesToSend` decides, `skipped` being the number of slots
      already tried by earlier SERIAL probes of the same request. */
  function PlanOf(ra: RoutingAlgorithm, wa: WavelengthAlgorithm, ps: ProbeStyle,
                  W: nat, maxProbes: nat, costs: seq<Cost>, skipped: nat): Outcome<Plan>
    requires CostsCover(ra, wa, ps, W, maxProbes, costs)
  {
    var bound := ScanBound(ra, ps, W, maxProbes);
    if PresetWavelength(ra) then
      var first := FirstFinite(costs, skipped, bound);
      if first == -1 then Done(Plan(0, 0))
      else if ps == Parallel then Done(Plan(CountFinite(costs, skipped, bound), 0))
      else if wa == FirstFit || wa == QualFirstFit then Done(Plan(1, first))
      else if wa == BestFit then
        var (s, m) := MinScan(costs, W);
        Done(Plan(if m == Inf then 0 else 1, s))
      else Fatal(ERROR_WAVELENGTH_ALGORITHM_IA)
    else if ps == Single then Done(Plan(if costs[0].Fin? then 1 else 0, 0))
    else if ps == Serial then
      var first := FirstFinite(costs, skipped, bound);
      if first == -1 then Done(Plan(0, 0)) else Done(Plan(1, first))
    else Done(Plan(CountFinite(costs, 0, bound), 0))
  }

  method CountAndFirst(costs: seq<Cost>, a: nat, b: nat) returns (total: nat, first: int)
    requires b <= |costs|
    ensures total == CountFinite(costs, a, b) && first == FirstFinite(costs, a, b)
  {
    total, first := 0, -1;
    if a < b {
      var w := a;
      while w < b
        invariant a <= w <= b
        invariant total == CountFinite(costs, a, w) && first == FirstFinite(costs, a, w)
      {
        if costs[w].Fin? {
          total := total + 1;
          if first == -1 {
            first := w;
          }
        }
        w := w + 1;
      }
    }
  }

  method BestFitScan(costs: seq<Cost>, W: nat) returns (start: nat, minCost: Cost)
    requires W <= |costs|
    ensures (start, minCost) == MinScan(costs, W)
  {
    start, minCost := 0, Inf;
    var w := 0;
    while w < W
      invariant 0 <= w <= W
      invariant (start, minCost) == MinScan(costs, w)
    {
      if costs[w].Below(minCost) {
        minCost := costs[w];
        start := w;
      }
      w := w + 1;
    }
  }

  lemma {:induction false} FirstFiniteStable(costs: seq<Cost>, a: nat, w: nat, b: nat)
    requires w <= b <= |costs| && FirstFinite(costs, a, w) != -1
    ensures FirstFinite(costs, a, b) == FirstFinite(costs, a, w)
    decreases b
  {
    if w < b {
      FirstFiniteStable(costs, a, w, b - 1);
    }
  }

  /** The SERIAL scan: stop at the first finite slot. */
  method FirstFiniteScan(costs: seq<Cost>, a: nat, b: nat) returns (first: int)
    requires b <= |costs|
    ensures first == FirstFinite(costs, a, b)
  {
    var w := a;
    while w < b
      invariant a <= w
      invariant a < b ==> w <= b && FirstFinite(costs, a, w) == -1
      decreases b - w
    {
      if costs[w].Fin? {
        assert FirstFinite(costs, a, w + 1) == w;
        FirstFiniteStable(costs, a, w + 1, b);
        return w;
      }
      w := w + 1;
    }
    return -1;
  }

  /** Decide how many probes to send and from which slot. */
  method CalcProbesToSend(ra: RoutingAlgorithm, wa: WavelengthAlgorithm, ps: ProbeStyle,
                          W: nat, maxProbes: nat, costs: seq<Cost>, skipped: nat)
    returns (r: Outcome<Plan>)
    requires CostsCover(ra, wa, ps, W, maxProbes, costs)
    ensures r == PlanOf(ra, wa, ps, W, maxProbes, costs, skipped)
  {
    var bound := ScanBound(ra, ps, W, maxProbes);
    if PresetWavelength(ra) {
      var total, first := CountAndFirst(costs, skipped, bound);
      if first == -1 {
        return Done(Plan(0, 0));
      }
      if ps == Parallel {
        return Done(Plan(total, 0));
      }
      if wa == FirstFit || wa == QualFirstFit {
        return Done(Plan(1, first));
      } else if wa == BestFit {
        var start, minCost := BestFitScan(costs, W);
        return Done(Plan(if minCost == Inf then 0 else 1, start));
      } else {
        return Fatal(ERROR_WAVELENGTH_ALGORITHM_IA);
      }
    } else if ps == Single {
      return Done(Plan(if costs[0].Fin? then 1 else 0, 0));
    } else if ps == Serial {
      var first := FirstFiniteScan(costs, skipped, bound);
      if first == -1 {
        return Done(Plan(0, 0));
      }
      return Done(Plan(1, first));
    } else {
      var total, first := CountAndFirst(costs, 0, bound);
      return Done(Plan(total, 0));
    }
  }

  /** The first slot the plan's scan looks at. */
  function ScanFrom(ra: RoutingAlgorithm, ps: ProbeStyle, skipped: nat): nat
  {
    if PresetWavelength(ra) || ps == Serial then skipped else 0
  }

  /** Except under SINGLE and SERIAL for the preset-wavelength routing
      algorithms, the plan names exactly the exit `ERROR_WAVELENGTH_ALGORITHM_IA`
      when a wavelength algorithm other than FIRST_FIT, QUAL_FIRST_FIT or
      BEST_FIT is asked to pick among candidate slots. */
  lemma PlanFatalCases(ra: RoutingAlgorithm, wa: WavelengthAlgorithm, ps: ProbeStyle,
                       W: nat, maxProbes: nat, costs: seq<Cost>, skipped: nat)
    requires CostsCover(ra, wa, ps, W, maxProbes, costs)
    ensures PlanOf(ra, wa, ps, W, maxProbes, costs, skipped).Fatal? <==>
              PresetWavelength(ra) && ps != Parallel &&
              wa != FirstFit && wa != QualFirstFit && wa != BestFit &&
              exists w :: skipped <= w < ScanBound(ra, ps, W, maxProbes) && costs[w].Fin?
    ensures PlanOf(ra, wa, ps, W, maxProbes, costs, skipped).Fatal? ==>
              PlanOf(ra, wa, ps, W, maxProbes, costs, skipped).code == ERROR_WAVELENGTH_ALGORITHM_IA
  {
    FirstFiniteMeaning(costs, skipped, ScanBound(ra, ps, W, maxProbes));
  }

  /** Under SINGLE and SERIAL at most one probe is sent, and it is sent on
      a slot with a finite cost. */
  lemma PlanSendsOneFinite(ra: RoutingAlgorithm, wa: WavelengthAlgorithm, ps: ProbeStyle,
                           W: nat, maxProbes: nat, costs: seq<Cost>, skipped: nat)
    requires CostsCover(ra, wa, ps, W, maxProbes, costs)
    requires ps != Parallel && PlanOf(ra, wa, ps, W, maxProbes, costs, skipped).Done?
    ensures PlanOf(ra, wa, ps, W, maxProbes, costs, skipped).value.toSend <= 1
    ensures PlanOf(ra, wa, ps, W, maxProbes, costs, skipped).value.toSend == 1 ==>
              PlanOf(ra, wa, ps, W, maxProbes, costs, skipped).value.start < |costs| &&
              costs[PlanOf(ra, wa, ps, W, maxProbes, costs, skipped).value.start].Fin?
  {
    FirstFiniteMeaning(costs, skipped, ScanBound(ra, ps, W, maxProbes));
    if PresetWavelength(ra) && wa == BestFit {
      MinScanMeaning(costs, W);
    }
  }

  /** A plan sends nothing exactly when every scanned slot has cost `Inf`
      (for DYNAMIC_PROGRAMMING with BEST_FIT the minimum is taken over the
      first `W` slots instead, so that case is excluded). Under PARALLEL it
      sends one probe per finite slot. */
  lemma PlanEmptyIffNoCandidate(ra: RoutingAlgorithm, wa: WavelengthAlgorithm, ps: ProbeStyle,
                                W: nat, maxProbes: nat, costs: seq<Cost>, skipped: nat)
    requires CostsCover(ra, wa, ps, W, maxProbes, costs)
    requires PlanOf(ra, wa, ps, W, maxProbes, costs, skipped).Done?
    requires !(ra == DynamicProgramming && wa == BestFit && ps != Parallel)
    ensures PlanOf(ra, wa, ps, W, maxProbes, costs, skipped).value.toSend == 0 <==>
              forall w :: ScanFrom(ra, ps, skipped) <= w < ScanBound(ra, ps, W, maxProbes) ==> costs[w] == Inf
    ensures ps == Parallel ==>
              PlanOf(ra, wa, ps, W, maxProbes, costs, skipped).value ==
              Plan(CountFinite(costs, ScanFrom(ra, ps, skipped), ScanBound(ra, ps, W, maxProbes)), 0)
  {
    var bound := ScanBound(ra, ps, W, maxProbes);
    FirstFiniteMeaning(costs, ScanFrom(ra, ps, skipped), bound);
    if PresetWavelength(ra) && wa == BestFit && ps != Parallel {
      MinScanMeaning(costs, W);
      if FirstFinite(costs, skipped, bound) != -1 {
        assert costs[FirstFinite(costs, skipped, bound)].Fin?;
      }
    }
  }
  // ---------------------------------------------------------------------
  // The end of a confirmation at the source (Thread.cpp:1201-1401).

  /** How a confirmation that is back at the source ends. */
  datatype Ending = Success | Retry | Collided | QualityFailed | NoPathFailed | Silent

  /** The ending of confirmation `c` at the source: a wavelength is a
      success; a failed SERIAL probe with untried slots retries; otherwise
      the failure marker is counted, except a collision under PARALLEL
      that is not the request's final failure, and an unknown marker. */
  function EndingOf(ps: ProbeStyle, c: Confirmation): (e: Ending)
    ensures e == Success <==> c.wavelength >= 0
    ensures e == Retry <==> c.wavelength < 0 && ps == Serial && c.sequence + 1 < c.maxSequence
    ensures e == Collided <==>
              c.wavelength == COLLISION_FAILURE && !(ps == Serial && c.sequence + 1 < c.maxSequence) &&
              (ps != Parallel || c.finalFailure)
    ensures e == QualityFailed <==> c.wavelength == QUALITY_FAILURE && !(ps == Serial && c.sequence + 1 < c.maxSequence)
    ensures e == NoPathFailed <==> c.wavelength == NO_PATH_FAILURE && !(ps == Serial && c.sequence + 1 < c.maxSequence)
  {
    if c.wavelength >= 0 then Success
    else if ps == Serial && c.sequence < c.maxSequence - 1 then Retry
    else if c.wavelength == COLLISION_FAILURE then
      (if ps == Parallel && c.finalFailure then Collided
       else if ps != Parallel then Collided
       else Silent)
    else if c.wavelength == QUALITY_FAILURE then QualityFailed
    else if c.wavelength == NO_PATH_FAILURE then NoPathFailed
    else Silent
  }

  /** Under PARALLEL a failure counted at the source releases the
      request's sibling array. */
  predicate ClearsGroup(ps: ProbeStyle, e: Ending)
  {
    ps == Parallel && (e == Collided || e == QualityFailed || e == NoPathFailed)
  }

  /** The spans of a path, edge by edge. */
  function SpanSum(path: seq<Edge>): nat
  {
    if path == [] then 0 else SpanSum(path[..|path| - 1]) + path[|path| - 1].numberOfSpans
  }

  /** Spans add up over joined paths. */
  lemma {:induction false} SpanSumAppend(a: seq<Edge>, b: seq<Edge>)
    ensures SpanSum(a + b) == SpanSum(a) + SpanSum(b)
    decreases |b|
  {
    if b != [] {
      var init := b[..|b| - 1];
      assert (a + b)[..|a + b| - 1] == a + init;
      SpanSumAppend(a, init);
    } else {
      assert a + b == a;
    }
  }

  /** The span count of a success (Thread.cpp:1267-1272). */
  method CountSpans(path: seq<Edge>) returns (n: nat)
    ensures n == SpanSum(path)
  {
    n := 0;
    var p := 0;
    while p < |path|
      invariant 0 <= p <= |path| && n == SpanSum(path[..p])
    {
      assert path[..p + 1][..p] == path[..p];
      n := n + path[p].numberOfSpans;
      p := p + 1;
    }
    assert path[..p] == path;
  }

  /** The counters after an ending: a success adds the hops, spans and
      setup delay of its path; a counted failure adds one to its counter. */
  function Tally(st: Stats, e: Ending, path: seq<Edge>, delay: real): (r: Stats)
    ensures e == Success ==> r == st.(connectionSuccesses := st.connectionSuccesses + 1,
                                      totalHopCount := st.totalHopCount + |path|,
                                      totalSpanCount := st.totalSpanCount + SpanSum(path),
                                      totalSetupDelay := st.totalSetupDelay + delay)
    ensures e != Success ==>
              r.(collisionFailures := st.collisionFailures, qualityFailures := st.qualityFailures,
                 noPathFailures := st.noPathFailures) == st
  {
    match e
    case Success =>
      st.(connectionSuccesses := st.connectionSuccesses + 1, totalHopCount := st.totalHopCount + |path|,
          totalSpanCount := st.totalSpanCount + SpanSum(path), totalSetupDelay := st.totalSetupDelay + delay)
    case Collided => st.(collisionFailures := st.collisionFailures + 1)
    case QualityFailed => st.(qualityFailures := st.qualityFailures + 1)
    case NoPathFailed => st.(noPathFailures := st.noPathFailures + 1)
    case _ => st
  }

  /** The four outcome counters. */
  function Outcomes(st: Stats): nat
  {
    st.connectionSuccesses + st.collisionFailures + st.qualityFailures + st.noPathFailures
  }

  /** At the source at most one of Successes, Collision, Quality and
      NoPath grows, by one; a SERIAL retry and a PARALLEL collision that
      is not final grow none and change no counter. */
  lemma AtMostOneOutcome(ps: ProbeStyle, c: Confirmation, st: Stats, delay: real)
    ensures var r := Tally(st, EndingOf(ps, c), c.path, delay);
            r.connectionSuccesses >= st.connectionSuccesses && r.collisionFailures >= st.collisionFailures &&
            r.qualityFailures >= st.qualityFailures && r.noPathFailures >= st.noPathFailures &&
            Outcomes(r) <= Outcomes(st) + 1
    ensures var e := EndingOf(ps, c);
            Outcomes(Tally(st, e, c.path, delay)) == Outcomes(st) + 1 <==> e != Retry && e != Silent
    ensures c.wavelength < 0 && ps == Serial && c.sequence + 1 < c.maxSequence ==>
              Tally(st, EndingOf(ps, c), c.path, delay) == st
    ensures c.wavelength == COLLISION_FAILURE && ps == Parallel && !c.finalFailure ==>
              Tally(st, EndingOf(ps, c), c.path, delay) == st
  {
  }

  /** The entry of `span_distance` for routers `source` and
      `destination` of `R`, the layout the resource manager fills
      (ResourceManager.cpp:2659-2677). */
  function PairIndex(source: nat, destination: nat, R: nat): nat
  {
    source * R + destination
  }

  /** The entry names its pair: distinct pairs have distinct entries
      inside the table. */
  lemma PairIndexNamesPair(source: nat, destination: nat, R: nat)
    requires source < R && destination < R
    ensures PairIndex(source, destination, R) < R * R
    ensures PairIndex(source, destination, R) / R == source && PairIndex(source, destination, R) % R == destination
  {
    StepUp(source, R, R);
    DivModUnique(source * R + destination, R, source, destination);
  }

  /** Euclidean division is unique. */
  lemma DivModUnique(n: nat, R: nat, q: nat, m: nat)
    requires 0 <= m < R && n == q * R + m
    ensures n / R == q && n % R == m
  {
    var q', m' := n / R, n % R;
    if q' > q {
      StepUp(q, q', R);
    } else if q' < q {
      StepUp(q', q, R);
    }
  }

  /** A larger multiple exceeds a smaller one by at least `R`. */
  lemma StepUp(a: nat, b: nat, R: nat)
    requires a < b
    ensures a * R + R <= b * R
  {
    var d := b - a - 1;
    assert b * R == a * R + R + d * R;
  }

  /** The entry the IA and DP setup delay reads as written
      (Thread.cpp:1209): `source * R`, without the destination. */
  function SetupIndexAsWritten(source: nat, destination: nat, R: nat): nat
  {
    source * R
  }

  /** As written the delay reads the distance from the source to router
      0, whatever the destination: for source 1 and destination 2 of
      three routers it reads entry 3, the pair (1, 0), not entry 5. */
  lemma SetupIndexIgnoresDestination(source: nat, destination: nat, R: nat)
    ensures SetupIndexAsWritten(source, destination, R) == PairIndex(source, 0, R)
    ensures 0 < destination ==> SetupIndexAsWritten(source, destination, R) != PairIndex(source, destination, R)
    ensures SetupIndexAsWritten(1, 2, 3) == 3 && PairIndex(1, 2, 3) == 5
  {
  }
}
