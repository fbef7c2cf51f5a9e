// Shared vocabulary of the RWA simulator model: optional values, fatal
// exits, path costs with an infinite sentinel, extended reals, the
// wavelength status of an edge, the failure markers carried in a
// wavelength slot, the process exit codes and the algorithm enums.

module Common {

  datatype Option<T> = None | Some(value: T)

  /** A computation that either yields a value or ends the process with
      one of the exit codes below (the source calls `exit(code)`). */
  datatype Outcome<T> = Done(value: T) | Fatal(code: int)
  {
    predicate IsFatal() { Fatal? }
  }

  /** A path or edge cost. `Inf` stands for both `DISCONNECT` (DBL_MAX)
      of the graph library and the float `+inf` the resource manager
      writes into `pathcost`; neither is ever added to a finite cost and
      stays finite. */
  datatype Cost = Fin(n: nat) | Inf
  {
    predicate IsFinite() { Fin? }

    /** Addition saturating at `Inf`. */
    function Plus(other: Cost): (r: Cost)
      ensures r.Fin? <==> this.Fin? && other.Fin?
      ensures r.Fin? ==> r.n == this.n + other.n
    {
      if this.Fin? && other.Fin? then Fin(this.n + other.n) else Inf
    }

    /** Strict order with `Inf` above every finite cost. */
    predicate Below(other: Cost)
    {
      match (this, other)
      case (Fin(a), Fin(b)) => a < b
      case (Fin(_), Inf) => true
      case (Inf, _) => false
    }

    predicate AtMost(other: Cost)
    {
      this == other || this.Below(other)
    }
  }

  /** The packed result of a k-shortest-path query (`kShortestPathReturn`
      in QYInclude.h): slot `a` has cost `pathcost[a]`, `pathlen[a]`
      vertices, and its vertices at `pathinfo[a * (N - 1) ..]` for a
      network of N routers. */
  datatype KPathReturn = KPathReturn(pathinfo: seq<nat>, pathcost: seq<Cost>, pathlen: seq<nat>)

  /** Reals extended with `+inf`, for the float fields the source sets to
      `numeric_limits<float>::infinity()`. */
  datatype ExtReal = Finite(r: real) | PosInf

  /** Per-wavelength state of an edge (`EdgeStatus` in Edge.h). */
  datatype EdgeStatus = EdgeFree | EdgeUsed

  // Markers written into a wavelength slot when a request fails
  // (`FailureTypes` in Stats.h).
  const COLLISION_FAILURE: int := -1
  const QUALITY_FAILURE: int := -2
  const NO_PATH_FAILURE: int := -3

  // Process exit codes (`ErrorCodes` in ErrorCodes.h) used by the model.
  const ERROR_TOO_MANY_EDGES: int := -2
  const ERROR_CHOOSE_WAVELENGTH_1: int := -3
  const ERROR_CHOOSE_WAVELENGTH_2: int := -4
  const ERROR_THREAD_EVENT_TYPE: int := -7
  const ERROR_EDGE_IS_USED: int := -8
  const ERROR_EDGE_IS_FREE: int := -9
  const ERROR_INVALID_CONFIRMATION: int := -10
  const ERROR_QUALITY_INPUT: int := -11
  const ERROR_TOPOLOGY_INPUT_EDGES: int := -13
  const ERROR_WORKSTATION_INPUT_QUANTITY: int := -14
  const ERROR_WORKSTATION_INPUT_PARENT: int := -15
  const ERROR_ALGORITHM_INPUT: int := -16
  const ERROR_WAVELENGTH_ALGORITHM_IA: int := -21
  const ERROR_PRIORITY_QUEUE: int := -22

  /** `RoutingAlgorithm` in AlgorithmParameters.h, in declaration order. */
  datatype RoutingAlgorithm =
    | ShortestPath | Pabr | Lora | ImpairmentAware | QMeasurement
    | AdaptiveQoS | DynamicProgramming | Aco | MaxMinAco

  /** `WavelengthAlgorithm` in AlgorithmParameters.h, in declaration order. */
  datatype WavelengthAlgorithm =
    | FirstFit | FirstFitOrdered | BestFit | RandomFit | QualFirstFit
    | QualFirstFitOrdered | QualRandomFit | LeastQuality | MostQuality
    | MostUsed | QualMostUsed

  /** `ProbeStyle` in AlgorithmParameters.h. */
  datatype ProbeStyle = Single | Serial | Parallel

  /** `DestinationDistribution` in QualityParameters.h (values 1, 2, 3). */
  datatype DestinationDistribution = Uniform | Distance | InverseDistance

  /** Routing algorithms whose probes carry a precomputed wavelength
      (or a per-wavelength path table) instead of 0. */
  predicate PresetWavelength(ra: RoutingAlgorithm)
  {
    ra == ImpairmentAware || ra == DynamicProgramming
  }

  /** `c` without its element at `k`. */
  function RemoveAt<T>(c: seq<T>, k: nat): (r: seq<T>)
    requires k < |c|
    ensures |r| == |c| - 1
    ensures forall j :: 0 <= j < |r| ==> r[j] == c[if j < k then j else j + 1]
    ensures multiset(r) + multiset{c[k]} == multiset(c)
  {
    assert c == c[..k] + [c[k]] + c[k + 1..];
    c[..k] + c[k + 1..]
  }
}
