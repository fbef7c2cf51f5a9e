// The signalling handlers of a simulation thread (Thread.cpp:799-1468 and
// 2388-2539) over one mutable state: the event queue, the statistics, the
// table of live probe records and, under PARALLEL, the sibling arrays
// (`probes`) that the probes of one request share. A record is named by a
// handle; a probe event names its record by that handle, as the source's
// event carries the record's pointer.

module Handlers {
  import opened Common
  import opened Edges
  import opened Events
  import opened EventQueues
  import opened Routers
  import opened Signalling
  import opened Launching
  import Configuration
  import Workstations

  /** Every edge of a path is sized for `W` wavelengths. */
  ghost predicate PathOk(path: seq<Edge>, W: nat)
  {
    forall i :: 0 <= i < |path| ==> path[i].Valid() && path[i].W == W
  }

  /** A live probe record: a non-empty path, a hop count that has reached
      the length exactly when the probe is at the destination, no decision
      before the destination, and a wavelength that is a slot of the edges
      or a failure marker. */
  ghost predicate RecordOk(p: Probe, W: nat)
  {
    |p.path| > 0 && PathOk(p.path, W) && p.hops <= |p.path| &&
    (p.atDestination <==> p.hops == |p.path|) && (!p.atDestination ==> p.decisionTime == 0.0) &&
    p.wavelength < W
  }

  /** The fields of a record that never change once it is sent. */
  function Fixed(p: Probe): (seq<Edge>, nat, nat, nat, nat)
  {
    (p.path, p.group, p.sequence, p.maxSequence, p.session)
  }

  /** A sibling array: entry `i` is a record of group `g` with sequence
      number `i`, and the array is as long as each member's `maxSequence`. */
  ghost predicate GroupOk(probes: map<nat, Probe>, g: nat, members: seq<nat>)
  {
    forall i :: 0 <= i < |members| ==>
      members[i] in probes && probes[members[i]].group == g &&
      probes[members[i]].sequence == i && probes[members[i]].maxSequence == |members|
  }

  /** Under PARALLEL a record is the entry of its own sibling array. */
  ghost predicate Member(probes: map<nat, Probe>, groups: map<nat, seq<nat>>, h: nat)
    requires h in probes
  {
    probes[h].group in groups && probes[h].sequence < |groups[probes[h].group]| &&
    groups[probes[h].group][probes[h].sequence] == h
  }

  /** The handler state's invariant, on values. */
  ghost predicate TableOk(probes: map<nat, Probe>, groups: map<nat, seq<nat>>, next: nat,
                          W: nat, ps: ProbeStyle)
  {
    (forall h :: h in probes ==> h < next && RecordOk(probes[h], W)) &&
    (forall g :: g in groups ==> g < next && GroupOk(probes, g, groups[g])) &&
    (ps == Parallel ==> forall h :: h in probes ==> Member(probes, groups, h)) &&
    (ps != Parallel ==> groups == map[])
  }

  /** Rewriting a record's changing fields keeps the invariant. */
  lemma UpdateKeepsTable(probes: map<nat, Probe>, groups: map<nat, seq<nat>>, next: nat,
                         W: nat, ps: ProbeStyle, h: nat, rec: Probe)
    requires TableOk(probes, groups, next, W, ps) && h in probes
    requires Fixed(rec) == Fixed(probes[h]) && RecordOk(rec, W)
    ensures TableOk(probes[h := rec], groups, next, W, ps)
  {
    var q := probes[h := rec];
    forall g | g in groups ensures GroupOk(q, g, groups[g]) {
      assert GroupOk(probes, g, groups[g]);
    }
    if ps == Parallel {
      forall k | k in q ensures Member(q, groups, k) {
        assert Member(probes, groups, k);
      }
    }
  }

  /** Outside PARALLEL a record can be dropped without a trace. */
  lemma RemoveKeepsTable(probes: map<nat, Probe>, groups: map<nat, seq<nat>>, next: nat,
                         W: nat, ps: ProbeStyle, h: nat)
    requires TableOk(probes, groups, next, W, ps) && ps != Parallel
    ensures TableOk(probes - {h}, groups, next, W, ps)
  {
  }

  /** Deleting a whole sibling array and its records keeps the invariant. */
  lemma ClearKeepsTable(probes: map<nat, Probe>, groups: map<nat, seq<nat>>, next: nat,
                        W: nat, ps: ProbeStyle, g: nat)
    requires TableOk(probes, groups, next, W, ps) && g in groups
    ensures TableOk(probes - Workstations.Elems(groups[g]), groups - {g}, next, W, ps)
  {
    var gone := Workstations.Elems(groups[g]);
    Workstations.ElemsMembers(groups[g]);
    assert GroupOk(probes, g, groups[g]);
    var q := probes - gone;
    var gs := groups - {g};
    forall g2 | g2 in gs ensures GroupOk(q, g2, gs[g2]) {
      assert GroupOk(probes, g2, groups[g2]);
      forall i | 0 <= i < |gs[g2]| ensures gs[g2][i] !in gone {
        var k := gs[g2][i];
        assert probes[k].group == g2;
        forall j | 0 <= j < |groups[g]| ensures groups[g][j] != k {
          assert probes[groups[g][j]].group == g;
        }
      }
    }
    if ps == Parallel {
      forall k | k in q ensures Member(q, gs, k) {
        assert Member(probes, groups, k);
        assert k in groups[probes[k].group];
      }
    }
  }

  lemma Assoc<T>(a: seq<T>, b: seq<T>, c: seq<T>)
    ensures (a + b) + c == a + (b + c)
  {
  }

  /** Every record outside group `g` is still there, unchanged. */
  ghost predicate OthersKept(before: map<nat, Probe>, after: map<nat, Probe>, g: nat)
  {
    forall k :: k in before && before[k].group != g ==> k in after && after[k] == before[k]
  }

  lemma KeptTrans(a: map<nat, Probe>, b: map<nat, Probe>, c: map<nat, Probe>, g: nat)
    requires OthersKept(a, b, g) && OthersKept(b, c, g)
    ensures OthersKept(a, c, g)
  {
  }

  lemma KeptUpdate(a: map<nat, Probe>, h: nat, rec: Probe)
    requires h in a && rec.group == a[h].group
    ensures OthersKept(a, a[h := rec], a[h].group)
  {
  }

  /** A record that has made its last hop and has not decided yet: it
      arrives now, or it waits at the destination. */
  predicate AtLastHop(p: Probe)
  {
    p.decisionTime == 0.0 && |p.path| <= p.hops + 1
  }

  /** The record `p` once it stands at the destination. */
  function Arrived(p: Probe): (r: Probe)
    ensures r.atDestination && r.hops == |p.path| && Fixed(r) == Fixed(p)
    ensures r.decisionTime == p.decisionTime && r.wavelength == p.wavelength
  {
    p.(hops := |p.path|, atDestination := true)
  }

  /** How many of the records named in `ms` have not decided yet. */
  ghost function CountUndecided(probes: map<nat, Probe>, ms: seq<nat>): nat
  {
    if ms == [] then 0
    else CountUndecided(probes, ms[..|ms| - 1]) +
         (if ms[|ms| - 1] in probes && probes[ms[|ms| - 1]].decisionTime == 0.0 then 1 else 0)
  }

  /** The handles of `h`'s request: its sibling array under PARALLEL,
      `h` alone otherwise. */
  function RequestOf(probes: map<nat, Probe>, groups: map<nat, seq<nat>>, ps: ProbeStyle, h: nat): seq<nat>
  {
    if ps == Parallel && h in probes && probes[h].group in groups then groups[probes[h].group] else [h]
  }

  /** A decision never adds an undecided record, and it removes one when
      the decided record was undecided. */
  lemma {:induction false} CountAfterDecision(probes: map<nat, Probe>, ms: seq<nat>, h: nat, rec: Probe)
    requires h in probes && rec.decisionTime != 0.0
    ensures CountUndecided(probes[h := rec], ms) <= CountUndecided(probes, ms)
    ensures h in ms && probes[h].decisionTime == 0.0 ==>
              CountUndecided(probes[h := rec], ms) < CountUndecided(probes, ms)
  {
    if ms != [] {
      var init := ms[..|ms| - 1];
      CountAfterDecision(probes, init, h, rec);
      assert h in ms ==> h in init || ms[|ms| - 1] == h;
    }
  }

  /** The records of `handles`, in order. */
  function SiblingsOf(probes: map<nat, Probe>, handles: seq<nat>): (s: seq<Probe>)
    requires forall i :: 0 <= i < |handles| ==> handles[i] in probes
    ensures |s| == |handles| && forall i :: 0 <= i < |handles| ==> s[i] == probes[handles[i]]
  {
    seq(|handles|, i requires 0 <= i < |handles| => probes[handles[i]])
  }

  /** The wavelength a probe on `path` with preset `wavelength` settles
      on at the destination (Thread.cpp:874-934). The IA and DP algorithms
      reserve forward: a preset wavelength is kept unless an edge of the
      path already uses it (NO_PATH) or, when quality-aware, its Q factor
      `q` is below the threshold (QUALITY); DP then falls back to the
      wavelength algorithm's choice `chosen`, as it does for a negative
      preset. Every other algorithm takes `chosen`. */
  ghost function Decision(ra: RoutingAlgorithm, path: seq<Edge>, wavelength: int, W: nat,
                          chosen: int, q: real, qualityAware: bool, thresholdQ: real): int
    requires PathOk(path, W) && wavelength < W
    reads set i | 0 <= i < |path| :: path[i].status
  {
    if !PresetWavelength(ra) then chosen
    else
      var w :=
        if wavelength < 0 then wavelength
        else if exists i :: 0 <= i < |path| && path[i].status[wavelength] != EdgeFree then NO_PATH_FAILURE
        else if qualityAware && q < thresholdQ then QUALITY_FAILURE
        else wavelength;
      if w >= 0 || ra == ImpairmentAware then w else chosen
  }

  method DecideWavelength(ra: RoutingAlgorithm, path: seq<Edge>, wavelength: int, W: nat,
                          chosen: int, q: real, qualityAware: bool, thresholdQ: real) returns (w: int)
    requires PathOk(path, W) && wavelength < W && chosen < W
    ensures w == Decision(ra, path, wavelength, W, chosen, q, qualityAware, thresholdQ)
    ensures w < W
  {
    if PresetWavelength(ra) {
      w := wavelength;
      if w >= 0 {
        var i := 0;
        while i < |path| && path[i].status[w] == EdgeFree
          invariant 0 <= i <= |path|
          invariant forall j :: 0 <= j < i ==> path[j].status[wavelength] == EdgeFree
        {
          i := i + 1;
        }
        if i < |path| {
          w := NO_PATH_FAILURE;
        } else if qualityAware && q < thresholdQ {
          w := QUALITY_FAILURE;
        }
      }
      if !(w >= 0 || ra == ImpairmentAware) {
        w := chosen;
      }
    } else {
      w := chosen;
    }
  }

  /** Some sibling other than `p` failed on quality. */
  predicate SomeQuality(siblings: seq<Probe>, p: Probe)
    requires p.maxSequence <= |siblings|
  {
    exists k :: 0 <= k < p.maxSequence && k != p.sequence && siblings[k].wavelength == QUALITY_FAILURE
  }

  /** Whether a sibling below `maxSequence` already failed on quality. */
  method AnyQualityFailure(siblings: seq<Probe>, maxSequence: nat) returns (b: bool)
    requires maxSequence <= |siblings|
    ensures b <==> exists p :: 0 <= p < maxSequence && siblings[p].wavelength == QUALITY_FAILURE
  {
    var p := 0;
    while p < maxSequence
      invariant 0 <= p <= maxSequence
      invariant forall q :: 0 <= q < p ==> siblings[q].wavelength != QUALITY_FAILURE
    {
      if siblings[p].wavelength == QUALITY_FAILURE {
        return true;
      }
      p := p + 1;
    }
    return false;
  }

  /** The failure markers PARALLEL and SERIAL substitute for NO_PATH
      (Thread.cpp:936-951): QUALITY when a sibling failed on quality, or
      when an earlier SERIAL probe of the request did. */
  function Adjusted(ps: ProbeStyle, w: int, qualityFail: bool, siblingQuality: bool): (r: int)
    ensures w != NO_PATH_FAILURE ==> r == w
    ensures r != w ==> r == QUALITY_FAILURE &&
                       ((ps == Parallel && siblingQuality) || (ps == Serial && qualityFail))
  {
    if ps == Parallel && w == NO_PATH_FAILURE && siblingQuality then QUALITY_FAILURE
    else if ps == Serial && w == NO_PATH_FAILURE && qualityFail then QUALITY_FAILURE
    else w
  }

  /** The decision of an arrived probe `p` (Thread.cpp:872-951), whose
      sibling array is `siblings` under PARALLEL. */
  method Settle(ra: RoutingAlgorithm, ps: ProbeStyle, p: Probe, siblings: seq<Probe>, W: nat,
                chosen: int, q: real, qualityAware: bool, thresholdQ: real) returns (w: int)
    requires PathOk(p.path, W) && p.wavelength < W && chosen < W
    requires ps == Parallel ==> p.maxSequence <= |siblings| && p.sequence < |siblings|
    ensures w == Adjusted(ps, Decision(ra, p.path, p.wavelength, W, chosen, q, qualityAware, thresholdQ),
                          p.qualityFail, ps == Parallel && SomeQuality(siblings, p))
    ensures w < W
  {
    w := DecideWavelength(ra, p.path, p.wavelength, W, chosen, q, qualityAware, thresholdQ);
    if ps == Parallel && w == NO_PATH_FAILURE {
      var updated := siblings[p.sequence := p.(wavelength := w)];
      var b := AnyQualityFailure(updated, p.maxSequence);
      assert b <==> SomeQuality(siblings, p) by {
        assert forall k :: 0 <= k < p.maxSequence && k != p.sequence ==> updated[k] == siblings[k];
      }
      if b {
        w := QUALITY_FAILURE;
      }
    } else if ps == Serial && w == NO_PATH_FAILURE && p.qualityFail {
      w := QUALITY_FAILURE;
    }
  }

  /** The confirmation a probe `p` with handle `h` sends back carrying `w`. */
  function ConfirmationOf(p: Probe, h: nat, w: int): (c: Confirmation)
    ensures c.hops == 0 && c.wavelength == w && c.originalWavelength == p.wavelength
    ensures c.path == p.path && c.probe == h && !c.finalFailure
  {
    Confirmation(p.source, p.destination, p.duration, p.requestBegin, p.path, h, 0,
                 p.maxSequence, w, p.wavelength, p.session, p.sequence, p.kPaths, p.group, false)
  }

  /** The table after filing the fresh records `made` under handles
      `next+1`, ..., and under PARALLEL their sibling array under `next`:
      `probes1`, `groups1`, `next1` are `probes0`, `groups0`, `next0`
      with those entries added. */
  ghost predicate Filed(probes0: map<nat, Probe>, groups0: map<nat, seq<nat>>, next0: nat,
                        made: seq<Probe>, kPaths: KPathReturn, ps: ProbeStyle,
                        probes1: map<nat, Probe>, groups1: map<nat, seq<nat>>, next1: nat)
  {
    probes1 == probes0 + Fresh(next0 + 1, made, kPaths) &&
    groups1 == (if ps == Parallel then groups0[next0 := Handles(next0 + 1, |made|)] else groups0) &&
    next1 == next0 + 1 + |made|
  }

  /** The fresh records of one request: live records of group `g` and,
      under PARALLEL, the entries of its sibling array in order. */
  ghost predicate Batch(made: seq<Probe>, g: nat, W: nat, ps: ProbeStyle)
  {
    (forall j :: 0 <= j < |made| ==> RecordOk(made[j], W) && made[j].group == g) &&
    (ps == Parallel ==> forall j :: 0 <= j < |made| ==>
       made[j].sequence == j && made[j].maxSequence == |made|)
  }

  /** Adding the fresh records of one request under handles `next+1`,
      `next+2`, ..., and under PARALLEL their sibling array under `next`,
      keeps the invariant. */
  lemma LaunchKeepsTable(probes: map<nat, Probe>, groups: map<nat, seq<nat>>, next: nat,
                         W: nat, ps: ProbeStyle, made: seq<Probe>, kPaths: KPathReturn,
                         probes1: map<nat, Probe>, groups1: map<nat, seq<nat>>, next1: nat)
    requires TableOk(probes, groups, next, W, ps)
    requires Batch(made, next, W, ps)
    requires Filed(probes, groups, next, made, kPaths, ps, probes1, groups1, next1)
    ensures TableOk(probes1, groups1, next1, W, ps)
  {
    FreshRecordsOk(probes, groups, next, W, ps, made, kPaths, probes1);
    FreshGroupsOk(probes, groups, next, W, ps, made, kPaths, probes1, groups1);
    if ps == Parallel {
      FreshMembers(probes, groups, next, W, made, kPaths, probes1, groups1);
    }
  }

  /** The records part of LaunchKeepsTable. */
  lemma FreshRecordsOk(probes: map<nat, Probe>, groups: map<nat, seq<nat>>, next: nat,
                       W: nat, ps: ProbeStyle, made: seq<Probe>, kPaths: KPathReturn,
                       q: map<nat, Probe>)
    requires TableOk(probes, groups, next, W, ps)
    requires Batch(made, next, W, ps)
    requires q == probes + Fresh(next + 1, made, kPaths)
    ensures forall h :: h in q ==> h < next + 1 + |made| && RecordOk(q[h], W)
  {
    forall h | h in q ensures h < next + 1 + |made| && RecordOk(q[h], W) {
      if h !in probes {
        assert q[h] == made[h - next - 1].(kPaths := kPaths);
      }
    }
  }

  /** The sibling arrays part of LaunchKeepsTable. */
  lemma FreshGroupsOk(probes: map<nat, Probe>, groups: map<nat, seq<nat>>, next: nat,
                      W: nat, ps: ProbeStyle, made: seq<Probe>, kPaths: KPathReturn,
                      q: map<nat, Probe>, gs: map<nat, seq<nat>>)
    requires TableOk(probes, groups, next, W, ps)
    requires Batch(made, next, W, ps)
    requires q == probes + Fresh(next + 1, made, kPaths)
    requires gs == if ps == Parallel then groups[next := Handles(next + 1, |made|)] else groups
    ensures forall g :: g in gs ==> g < next + 1 + |made| && GroupOk(q, g, gs[g])
  {
    forall g | g in gs ensures g < next + 1 + |made| && GroupOk(q, g, gs[g]) {
      if g != next || ps != Parallel {
        assert GroupOk(probes, g, groups[g]);
      } else {
        forall i | 0 <= i < |gs[g]|
          ensures gs[g][i] in q && q[gs[g][i]].group == g && q[gs[g][i]].sequence == i &&
                  q[gs[g][i]].maxSequence == |gs[g]|
        {
          assert gs[g][i] == next + 1 + i && next + 1 + i !in probes;
          assert q[next + 1 + i] == made[i].(kPaths := kPaths);
        }
      }
    }
  }

  /** The membership part of LaunchKeepsTable. */
  lemma FreshMembers(probes: map<nat, Probe>, groups: map<nat, seq<nat>>, next: nat,
                     W: nat, made: seq<Probe>, kPaths: KPathReturn,
                     q: map<nat, Probe>, gs: map<nat, seq<nat>>)
    requires TableOk(probes, groups, next, W, Parallel)
    requires Batch(made, next, W, Parallel)
    requires q == probes + Fresh(next + 1, made, kPaths)
    requires gs == groups[next := Handles(next + 1, |made|)]
    ensures forall h :: h in q ==> Member(q, gs, h)
  {
    forall h | h in q ensures Member(q, gs, h) {
      if h in probes {
        assert Member(probes, groups, h);
        assert probes[h].group < next;
      } else {
        assert q[h] == made[h - next - 1].(kPaths := kPaths);
      }
    }
  }

  /** A collision notice that, past its last edge, hands the request to
      a waiting sibling: one of several PARALLEL probes whose collision is
      not the request's final failure. */
  predicate HandsOver(n: Collision)
  {
    n.hops + 1 == |n.path| && n.maxSequence > 1 && !n.finalFailure
  }

  /** The random draws one request event consumes: the arrival interval
      and the duration of the next request of the workstation, and the
      destinations drawn for it until one differs from its source. */
  datatype Traffic = Traffic(arrival: real, duration: real, destinations: seq<nat>)

  class Signaller {
    const ra: RoutingAlgorithm
    const wa: WavelengthAlgorithm
    const ps: ProbeStyle
    const qualityAware: bool
    const W: nat
    const maxProbes: nat
    const thresholdQ: real
    /** The span length and refractive index that `calculateDelay` and
        the setup delay of IA and DP read. */
    const fibre: Configuration.Fibre
    const queue: EventQueue
    const routers: seq<Router>
    /** Sessions per workstation (`getNumberOfConnections`); session `s`
        belongs to workstation `s / connections`. */
    const connections: nat
    const workstations: seq<Workstations.Workstation>
    /** The shortest request duration (`getMinDuration`). */
    const minDuration: real
    /** Spans between each ordered pair of routers, row by row
        (`span_distance` of the resource manager). */
    const spanDistance: seq<nat>
    /** The routers' edge lists, which configuration fixes before the
        first event and no handler changes. */
    ghost const edgeLists: seq<seq<Edge>>

    /** The simulation clock (`getGlobalTime`). */
    var now: real
    var stats: Stats
    var probes: map<nat, Probe>
    var groups: map<nat, seq<nat>>
    /** The next unused handle, for records and sibling arrays alike. */
    var nextHandle: nat

    ghost predicate Valid()
      reads this`probes, this`groups, this`nextHandle
    {
      TableOk(probes, groups, nextHandle, W, ps)
    }

    /** The routers still hold the edge lists they had at the start. */
    ghost predicate Wired()
      reads routers
    {
      |edgeLists| == |routers| && forall i :: 0 <= i < |routers| ==> routers[i].edgeList == edgeLists[i]
    }

    constructor (ra: RoutingAlgorithm, wa: WavelengthAlgorithm, ps: ProbeStyle,
                 qualityAware: bool, W: nat, maxProbes: nat, thresholdQ: real,
                 fibre: Configuration.Fibre, queue: EventQueue, routers: seq<Router>,
                 connections: nat, workstations: seq<Workstations.Workstation>, minDuration: real,
                 spanDistance: seq<nat>)
      ensures Valid() && Wired()
      ensures this.connections == connections && this.workstations == workstations &&
              this.minDuration == minDuration && this.spanDistance == spanDistance
      ensures this.ra == ra && this.wa == wa && this.ps == ps && this.qualityAware == qualityAware
      ensures this.W == W && this.maxProbes == maxProbes && this.thresholdQ == thresholdQ
      ensures this.fibre == fibre && this.queue == queue && this.routers == routers
      ensures now == 0.0 && stats == Stats(0, 0, 0, 0, 0, 0, 0, 0, 0.0)
      ensures probes == map[] && groups == map[] && nextHandle == 0
    {
      this.ra, this.wa, this.ps, this.qualityAware := ra, wa, ps, qualityAware;
      this.W, this.maxProbes, this.thresholdQ := W, maxProbes, thresholdQ;
      this.fibre, this.queue, this.routers := fibre, queue, routers;
      this.connections, this.workstations, this.minDuration := connections, workstations, minDuration;
      this.spanDistance := spanDistance;
      this.edgeLists := seq(|routers|, i requires 0 <= i < |routers| reads routers => routers[i].edgeList);
      now := 0.0;
      stats := Stats(0, 0, 0, 0, 0, 0, 0, 0, 0.0);
      probes, groups, nextHandle := map[], map[], 0;
    }

    function Delay(spans: nat): real
    {
      Configuration.CalculateDelay(ra, spans, fibre)
    }

    /** The event that carries confirmation `c` from the destination over
        the last edge of its path. */
    function Reply(c: Confirmation): Event
      reads this
      requires |c.path| > 0
    {
      Event(now + Delay(c.path[|c.path| - 1].numberOfSpans), Payload.CreateConnectionConfirmation(c))
    }

    /** The sibling records of group `g`. */
    function Siblings(g: nat): (s: seq<Probe>)
      reads this
      requires g in groups && forall i :: 0 <= i < |groups[g]| ==> groups[g][i] in probes
    {
      SiblingsOf(probes, groups[g])
    }

    /** The wavelength choices are slots of the edges or failure markers. */
    ghost predicate ChoiceOk(choose: nat -> int)
    {
      forall k :: choose(k) < W
    }

    /** `create_connection_probe`: advance the probe one hop, or handle
        its arrival at the destination. `choose` and `quality` give the
        wavelength algorithm's choice and the Q estimate for a record. */
    method CreateConnectionProbe(h: nat, choose: nat -> int, quality: nat -> real)
      requires Valid() && h in probes && !probes[h].atDestination
      requires now > 0.0 && ChoiceOk(choose)
      modifies this`probes, queue
      ensures Valid()
      ensures var p := old(probes[h]);
              p.hops + 1 < |p.path| ==>
                probes == old(probes)[h := p.(hops := p.hops + 1)] &&
                queue.pq == old(queue.pq) +
                  [Event(now + Delay(p.path[p.hops + 1].numberOfSpans),
                         Payload.CreateConnectionProbe(h, p.session, p.sequence))]
      ensures var p := old(probes[h]);
              p.hops + 1 == |p.path| && ps != Parallel ==>
                probes == old(probes) - {h} &&
                queue.pq == old(queue.pq) +
                  [Reply(ConfirmationOf(p, h,
                    old(Adjusted(ps, Decision(ra, p.path, p.wavelength, W, choose(h), quality(h),
                                              qualityAware, thresholdQ),
                                 p.qualityFail, false))))]
      ensures var p := old(probes[h]);
              p.hops + 1 == |p.path| && ps == Parallel ==>
                probes.Keys == old(probes).Keys && OthersKept(old(probes), probes, p.group) &&
                old(queue.pq) <= queue.pq && |queue.pq| <= |old(queue.pq)| + 1
    {
      if probes[h].hops + 1 < |probes[h].path| {
        Forward(h);
      } else {
        var _ := ProbeArrives(h, choose, quality);
      }
    }

    /** Move a probe that has not reached the destination on to the next hop. */
    method Forward(h: nat)
      requires Valid() && h in probes && !probes[h].atDestination
      requires probes[h].hops + 1 < |probes[h].path|
      modifies this`probes, queue
      ensures Valid()
      ensures var p := old(probes[h]);
              probes == old(probes)[h := p.(hops := p.hops + 1)] &&
              queue.pq == old(queue.pq) +
                [Event(now + Delay(p.path[p.hops + 1].numberOfSpans),
                       Payload.CreateConnectionProbe(h, p.session, p.sequence))]
    {
      var p := probes[h];
      var hops := p.hops + 1;
      UpdateKeepsTable(probes, groups, nextHandle, W, ps, h, p.(hops := hops));
      probes := probes[h := p.(hops := hops)];
      queue.AddEvent(Event(now + Delay(p.path[hops].numberOfSpans),
                           Payload.CreateConnectionProbe(h, p.session, p.sequence)));
    }

    /** The destination branch of `create_connection_probe`
        (Thread.cpp:845-985) for a record on its last hop, or one that
        waits there and is handed the answer by a failed sibling: unless
        a sibling already decided on a wavelength, stamp the decision time
        and settle the wavelength, then answer. Outside PARALLEL the
        record answers with the wavelength `w` it settled on. */
    method ProbeArrives(h: nat, choose: nat -> int, quality: nat -> real) returns (ghost w: int)
      requires Valid() && h in probes && AtLastHop(probes[h])
      requires now > 0.0 && ChoiceOk(choose)
      modifies this`probes, queue
      ensures Valid()
      ensures ps != Parallel ==> probes == old(probes) - {h}
      ensures ps == Parallel ==> probes.Keys == old(probes).Keys &&
                                 OthersKept(old(probes), probes, old(probes[h].group))
      ensures old(queue.pq) <= queue.pq && |queue.pq| <= |old(queue.pq)| + 1
      ensures var p := old(probes[h]);
              ps != Parallel ==>
                w == old(Adjusted(ps, Decision(ra, p.path, p.wavelength, W, choose(h), quality(h),
                                              qualityAware, thresholdQ), p.qualityFail, false)) &&
                queue.pq == old(queue.pq) +
                  [Reply(ConfirmationOf(p, h, w))]
      decreases CountUndecided(probes, RequestOf(probes, groups, ps, h)), 3
    {
      var respond, settled := Verdict(h, choose(h), quality(h));
      w := settled;
      Answer(h, respond, settled, choose, quality);
    }

    /** Store the verdict on an arrived record: at the destination, and,
        when it answers, decided on `w`; then answer. */
    method Answer(h: nat, respond: bool, w: int, choose: nat -> int, quality: nat -> real)
      requires Valid() && h in probes && AtLastHop(probes[h]) && (respond ==> w < W)
      requires now > 0.0 && ChoiceOk(choose)
      modifies this`probes, queue
      ensures Valid()
      ensures !respond ==> probes == old(probes)[h := Arrived(old(probes[h]))] && queue.pq == old(queue.pq)
      ensures respond && ps != Parallel ==> probes == old(probes) - {h}
      ensures ps == Parallel ==> probes.Keys == old(probes).Keys &&
                                 OthersKept(old(probes), probes, old(probes[h].group))
      ensures old(queue.pq) <= queue.pq && |queue.pq| <= |old(queue.pq)| + 1
      ensures var p := old(probes[h]);
              respond && ps != Parallel ==>
                queue.pq == old(queue.pq) +
                  [Reply(ConfirmationOf(p, h, w))]
      decreases CountUndecided(probes, RequestOf(probes, groups, ps, h)), 2
    {
      if respond {
        Decide(h, w, choose, quality);
      } else {
        var a := Arrived(probes[h]);
        Store(h, a);
        KeptUpdate(old(probes), h, a);
      }
    }

    /** An arrived record that answers: it is decided now on `w`, and the
        answer goes out. */
    method Decide(h: nat, w: int, choose: nat -> int, quality: nat -> real)
      requires Valid() && h in probes && AtLastHop(probes[h]) && w < W
      requires now > 0.0 && ChoiceOk(choose)
      modifies this`probes, queue
      ensures Valid()
      ensures ps != Parallel ==> probes == old(probes) - {h}
      ensures ps == Parallel ==> probes.Keys == old(probes).Keys &&
                                 OthersKept(old(probes), probes, old(probes[h].group))
      ensures old(queue.pq) <= queue.pq && |queue.pq| <= |old(queue.pq)| + 1
      ensures ps != Parallel ==> queue.pq == old(queue.pq) + [Reply(ConfirmationOf(old(probes[h]), h, w))]
      decreases CountUndecided(probes, RequestOf(probes, groups, ps, h)), 1
    {
      var p := probes[h];
      Mark(h, w);
      KeptUpdate(old(probes), h, probes[h]);
      ghost var mid := probes;
      Respond(h, ConfirmationOf(p, h, w), choose, quality);
      KeptTrans(old(probes), mid, probes, p.group);
    }

    /** Record `h` stands at the destination, decided now on `w`; one
        record fewer of its request is undecided. */
    method Mark(h: nat, w: int)
      requires Valid() && h in probes && AtLastHop(probes[h]) && w < W && now > 0.0
      modifies this`probes
      ensures Valid()
      ensures probes == old(probes)[h := Arrived(old(probes[h])).(decisionTime := now, wavelength := w)]
      ensures probes.Keys == old(probes).Keys && probes - {h} == old(probes) - {h}
      ensures RequestOf(probes, groups, ps, h) == RequestOf(old(probes), groups, ps, h)
      ensures CountUndecided(probes, RequestOf(probes, groups, ps, h)) <
              CountUndecided(old(probes), RequestOf(old(probes), groups, ps, h))
    {
      var a := Arrived(probes[h]).(decisionTime := now, wavelength := w);
      ghost var siblings := RequestOf(probes, groups, ps, h);
      assert ps == Parallel ==> Member(probes, groups, h);
      CountAfterDecision(probes, siblings, h, a);
      Store(h, a);
      assert probes - {h} == old(probes) - {h};
    }

    /** Rewrite the changing fields of record `h`. */
    method Store(h: nat, rec: Probe)
      requires Valid() && h in probes && Fixed(rec) == Fixed(probes[h]) && RecordOk(rec, W)
      modifies this`probes
      ensures Valid() && probes == old(probes)[h := rec]
    {
      UpdateKeepsTable(probes, groups, nextHandle, W, ps, h, rec);
      probes := probes[h := rec];
    }

    /** The verdict on an arrived record: it answers unless under PARALLEL
        a sibling already decided on a wavelength, and then settles on `w`. */
    method Verdict(h: nat, chosen: int, q: real) returns (respond: bool, w: int)
      requires Valid() && h in probes && AtLastHop(probes[h]) && chosen < W
      ensures var p := probes[h];
              respond <==> ps != Parallel || forall k :: 0 <= k < p.maxSequence && k != p.sequence ==>
                                               !Decided(probes[groups[p.group][k]])
      ensures var p := probes[h];
              respond ==> w < W &&
                          w == Adjusted(ps, Decision(ra, p.path, p.wavelength, W, chosen, q, qualityAware, thresholdQ),
                                        p.qualityFail, ps == Parallel && SomeQuality(Siblings(p.group), p))
    {
      var p := probes[h];
      var siblings: seq<Probe> := [];
      respond, w := true, p.wavelength;
      if ps == Parallel {
        assert Member(probes, groups, h);
        assert GroupOk(probes, p.group, groups[p.group]);
        siblings := Siblings(p.group);
        respond := SendResponse(siblings, p);
      }
      if respond {
        w := Settle(ra, ps, p, siblings, W, chosen, q, qualityAware, thresholdQ);
      }
    }

    /** The answer of a probe that has decided (Thread.cpp:953-985): a
        failed probe hands over to the first sibling waiting at the
        destination, or stays silent while siblings are still travelling;
        otherwise the confirmation `conf` leaves for the source. A record
        outside PARALLEL is then released. */
    method Respond(h: nat, conf: Confirmation, choose: nat -> int, quality: nat -> real)
      requires Valid() && h in probes && probes[h].atDestination && probes[h].decisionTime != 0.0
      requires conf.wavelength == probes[h].wavelength && conf.path == probes[h].path
      requires now > 0.0 && ChoiceOk(choose)
      modifies this`probes, queue
      ensures Valid()
      ensures ps != Parallel ==> probes == old(probes) - {h}
      ensures ps == Parallel ==> probes.Keys == old(probes).Keys
      ensures old(queue.pq) <= queue.pq && |queue.pq| <= |old(queue.pq)| + 1
      ensures ps != Parallel ==> queue.pq == old(queue.pq) + [Reply(conf)]
      ensures ps == Parallel ==> OthersKept(old(probes), probes, old(probes[h].group))
      decreases CountUndecided(probes, RequestOf(probes, groups, ps, h)), 4
    {
      var p := probes[h];
      var w := conf.wavelength;
      var failed := w == QUALITY_FAILURE || w == NO_PATH_FAILURE;
      var siblings: seq<Probe> := [];
      if ps == Parallel {
        assert Member(probes, groups, h);
        assert GroupOk(probes, p.group, groups[p.group]);
        siblings := Siblings(p.group);
      }
      var other := -1;
      if failed {
        other := OtherResponse(ps, siblings, p);
      }
      if other != -1 {
        var s := groups[p.group][other];
        assert probes[s] == siblings[other];
        var _ := ProbeArrives(s, choose, quality);
        assert old(probes[s]).group == p.group;
      } else {
        Finish(h, conf, failed);
      }
    }

    /** The answer when no waiting sibling takes over: the confirmation
        leaves for the source unless a failed PARALLEL probe still has
        siblings on the way; outside PARALLEL the record is released. */
    method Finish(h: nat, conf: Confirmation, failed: bool)
      requires Valid() && h in probes && |conf.path| > 0
      modifies this`probes, queue
      ensures Valid()
      ensures ps != Parallel ==> probes == old(probes) - {h} && queue.pq == old(queue.pq) + [Reply(conf)]
      ensures var p := old(probes[h]);
              ps == Parallel ==>
                probes == old(probes) &&
                queue.pq == old(queue.pq) +
                  (if failed && exists k :: 0 <= k < p.maxSequence && k != p.sequence &&
                                            !old(probes[groups[p.group][k]]).atDestination
                   then [] else [Reply(conf)])
    {
      var p := probes[h];
      var siblings: seq<Probe> := [];
      if ps == Parallel {
        assert Member(probes, groups, h);
        assert GroupOk(probes, p.group, groups[p.group]);
        siblings := Siblings(p.group);
      }
      var more := false;
      if failed {
        more := MoreProbes(ps, siblings, p);
      }
      if !more {
        queue.AddEvent(Reply(conf));
      }
      if ps != Parallel {
        RemoveKeepsTable(probes, groups, nextHandle, W, ps, h);
        probes := probes - {h};
      }
    }

    /** The edge from router `pathinfo[base + r]` toward router
        `pathinfo[base + r + 1]`; None when there is no such edge or the
        entries are not routers. */
    ghost function Hop(k: KPathReturn, base: nat, r: nat): Option<Edge>
    {
      if base + r + 1 < |k.pathinfo| && k.pathinfo[base + r] < |edgeLists|
      then var es := edgeLists[k.pathinfo[base + r]];
           match FirstEdgeTo(es, k.pathinfo[base + r + 1])
           case None => None
           case Some(i) => Some(es[i])
      else None
    }

    /** Where the router list of slot `s` starts in `pathinfo`. */
    function Row(s: nat): nat
      requires |routers| > 0
    {
      s * (|routers| - 1)
    }

    /** The first `n` edges of the router list that starts at `base`;
        None when one of them is missing. */
    ghost function Hops(k: KPathReturn, base: nat, n: nat): (p: Option<seq<Edge>>)
      ensures p.Some? ==> |p.value| == n
    {
      if n == 0 then Some([])
      else match Hops(k, base, n - 1)
           case None => None
           case Some(front) =>
             match Hop(k, base, n - 1)
             case None => None
             case Some(e) => Some(front + [e])
    }

    /** The path of slot `s`: the `pathlen[s] - 1` edges between its
        routers (Thread.cpp:2502-2506). */
    ghost function PathOf(k: KPathReturn, s: nat): Option<seq<Edge>>
    {
      if |routers| > 0 && s < |k.pathlen| && k.pathlen[s] >= 2 then Hops(k, Row(s), k.pathlen[s] - 1)
      else None
    }

    /** Slot `s` of table `k` describes a path the routers can follow:
        at least two routers, each consecutive pair joined by an edge
        sized for `W` wavelengths. */
    ghost predicate Routable(k: KPathReturn, s: nat)
    {
      PathOf(k, s).Some? && PathOk(PathOf(k, s).value, W)
    }

    /** Hops are found exactly when each of them is, and then they are
        those edges. */
    lemma {:induction false} HopsFound(k: KPathReturn, base: nat, n: nat)
      ensures Hops(k, base, n).Some? <==> forall r :: 0 <= r < n ==> Hop(k, base, r).Some?
      ensures Hops(k, base, n).Some? ==>
                forall r :: 0 <= r < n ==> Hops(k, base, n).value[r] == Hop(k, base, r).value
    {
      if n > 0 {
        HopsFound(k, base, n - 1);
      }
    }

    /** The event that sends a fresh record `p` with handle `h` over its
        first edge at time `t` (records always have a first edge). */
    function Launch(t: real, h: nat, p: Probe): Event
    {
      var spans := if |p.path| > 0 then p.path[0].numberOfSpans else 0;
      Event(t + Delay(spans), Payload.CreateConnectionProbe(h, p.session, p.sequence))
    }

    /** The launch events of the records `made`, under handles `base`, ... */
    function Launches(t: real, base: nat, made: seq<Probe>): (es: seq<Event>)
      ensures |es| == |made|
      ensures forall j :: 0 <= j < |made| ==> es[j] == Launch(t, base + j, made[j])
    {
      if made == [] then []
      else Launches(t, base, made[..|made| - 1]) + [Launch(t, base + |made| - 1, made[|made| - 1])]
    }

    lemma LaunchesSnoc(t: real, base: nat, made: seq<Probe>, rec: Probe)
      ensures Launches(t, base, made + [rec]) == Launches(t, base, made) + [Launch(t, base + |made|, rec)]
    {
      assert (made + [rec])[..|made|] == made;
    }

    /** The queue and counters after the records `made` leave at time
        `t` under handles `base`, ...: one launch event each and, outside IA
        and DP, one probe sent each. */
    ghost predicate Sent(q0: seq<Event>, st0: Stats, t: real, base: nat, made: seq<Probe>,
                         q1: seq<Event>, st1: Stats)
    {
      q1 == q0 + Launches(t, base, made) &&
      st1 == st0.(probeSentCount := st0.probeSentCount + if PresetWavelength(ra) then 0 else |made|)
    }

    /** The whole effect of a launch of `made` at time `t`: the records
        filed under fresh handles and sent. */
    ghost predicate Launched(probes0: map<nat, Probe>, groups0: map<nat, seq<nat>>, next0: nat, q0: seq<Event>, st0: Stats,
                             t: real, made: seq<Probe>, kPaths: KPathReturn,
                             probes1: map<nat, Probe>, groups1: map<nat, seq<nat>>, next1: nat, q1: seq<Event>, st1: Stats)
    {
      Filed(probes0, groups0, next0, made, kPaths, ps, probes1, groups1, next1) &&
      Sent(q0, st0, t, next0 + 1, made, q1, st1)
    }

    /** What `sendProbes` needs of its caller: enough slots for the plan,
        every slot a routable path with a wavelength of the edges, the
        SERIAL scan bound inside the table, and a PARALLEL request that
        starts at sequence 0. */
    ghost predicate Launchable(cre: Request, k: KPathReturn, plan: Plan)
    {
      (ps == Serial && cre.maxSequence == 0 ==> ScanBound(ra, ps, W, maxProbes) <= |k.pathcost|) &&
      (ps == Parallel ==> cre.sequence == 0) &&
      (plan.toSend > 0 ==>
         Slots(ra, k.pathcost, plan.start, plan.toSend).Some? &&
         forall j :: 0 <= j < plan.toSend ==>
           Slots(ra, k.pathcost, plan.start, plan.toSend).value[j] < |k.pathcost| &&
           Routable(k, Slots(ra, k.pathcost, plan.start, plan.toSend).value[j]) &&
           WavelengthOf(ra, k.pathcost, Slots(ra, k.pathcost, plan.start, plan.toSend).value[j]) < W)
    }

    /** The counters after `sendProbes` finds nothing to send: a QUALITY
        failure for a SERIAL retry of a preset wavelength outside DP, a
        NO_PATH failure otherwise. */
    function Unsent(cre: Request, st: Stats): (r: Stats)
      ensures ps == Serial && cre.wavelength >= 0 && ra != DynamicProgramming ==>
                r == st.(qualityFailures := st.qualityFailures + 1)
      ensures !(ps == Serial && cre.wavelength >= 0 && ra != DynamicProgramming) ==>
                r == st.(noPathFailures := st.noPathFailures + 1)
    {
      if ps == Serial && cre.wavelength >= 0 && ra != DynamicProgramming
      then st.(qualityFailures := st.qualityFailures + 1)
      else st.(noPathFailures := st.noPathFailures + 1)
    }

    /** The whole effect of `sendProbes` on request `cre` with table `k0`
        and plan `plan`, from the state with subscript 0 to the one with
        subscript 1: with nothing to send only the failure is counted;
        otherwise `made` are the probes of the request on the plan's
        slots, `kPaths` the table with those slots spent, and the probes
        are launched. */
    ghost predicate Probed(cre: Request, k0: KPathReturn, plan: Plan,
                           probes0: map<nat, Probe>, groups0: map<nat, seq<nat>>, next0: nat, q0: seq<Event>, st0: Stats,
                           made: seq<Probe>, kPaths: KPathReturn,
                           probes1: map<nat, Probe>, groups1: map<nat, seq<nat>>, next1: nat, q1: seq<Event>, st1: Stats)
      reads this`now
    {
      Launchable(cre, k0, plan) &&
      if plan.toSend == 0 then
        probes1 == probes0 && groups1 == groups0 && next1 == next0 && q1 == q0 && st1 == Unsent(cre, st0)
      else
        var slots := Slots(ra, k0.pathcost, plan.start, plan.toSend).value;
        |made| == plan.toSend &&
        MadeOk(cre, k0, slots, made, next0, MaxSequenceOf(ra, ps, cre, k0.pathcost, W, maxProbes, plan.toSend)) &&
        kPaths == SpendAll(ra, k0, slots) &&
        Launched(probes0, groups0, next0, q0, st0, now, made, kPaths, probes1, groups1, next1, q1, st1)
    }

    /** What the routing algorithm's table for a request promises: every
        slot of finite cost names a routable path and a wavelength of the
        edges, and under PARALLEL without a preset wavelength the finite
        slots come first (the k-shortest-path search pads its results
        with infinite slots at the end). */
    ghost predicate Tabled(k: KPathReturn)
    {
      (forall s :: 0 <= s < |k.pathcost| && k.pathcost[s].Fin? ==>
         Routable(k, s) && WavelengthOf(ra, k.pathcost, s) < W) &&
      (ps == Parallel && !PresetWavelength(ra) ==> FinitePrefix(k.pathcost))
    }

    /** The plan `calcProbesToSend` makes from such a table is one
        `sendProbes` can carry out. */
    lemma PlanLaunchable(cre: Request, k: KPathReturn, skipped: nat)
      requires CostsCover(ra, wa, ps, W, maxProbes, k.pathcost) && Tabled(k)
      requires PlanOf(ra, wa, ps, W, maxProbes, k.pathcost, skipped).Done?
      requires ps == Parallel ==> cre.sequence == 0 && skipped == 0
      ensures Launchable(cre, k, PlanOf(ra, wa, ps, W, maxProbes, k.pathcost, skipped).value)
    {
      var costs := k.pathcost;
      var plan := PlanOf(ra, wa, ps, W, maxProbes, costs, skipped).value;
      var bound := ScanBound(ra, ps, W, maxProbes);
      if plan.toSend > 0 {
        if ps != Parallel {
          PlanSendsOneFinite(ra, wa, ps, W, maxProbes, costs, skipped);
          assert plan.toSend == 1 && Slots(ra, costs, plan.start + 1, 0) == Some([]);
          assert [plan.start] + [] == [plan.start];
        } else {
          PlanEmptyIffNoCandidate(ra, wa, ps, W, maxProbes, costs, skipped);
          assert plan == Plan(CountFinite(costs, 0, bound), 0);
          if PresetWavelength(ra) {
            CountFiniteGrows(costs, 0, bound, |costs|);
            SlotsDefined(ra, costs, 0, plan.toSend);
            SlotsInRange(ra, costs, 0, plan.toSend);
          } else {
            SlotsConsecutive(ra, costs, 0, plan.toSend);
            FinitePrefixCount(costs, bound);
          }
        }
      }
    }

    /** `rec` is the `j`-th probe of request `cre`, on slot `s` of table
        `k`: the slot's path, the `j`-th sequence number, the request's
        `max_sequence`, the slot's preset wavelength and group `g`. */
    ghost predicate ProbeOk(cre: Request, k: KPathReturn, s: nat, j: nat, rec: Probe, g: nat, maxSequence: nat)
    {
      s < |k.pathcost| && PathOf(k, s) == Some(rec.path) &&
      rec == NewProbe(cre, rec.path, SequenceOf(ps, cre, j), maxSequence, WavelengthOf(ra, k.pathcost, s), k, g)
    }

    /** The records `made` are the probes of request `cre` on `slots`, in
        order. */
    ghost predicate MadeOk(cre: Request, k: KPathReturn, slots: seq<nat>, made: seq<Probe>, g: nat, maxSequence: nat)
      decreases |made|
    {
      |made| == |slots| &&
      (made != [] ==>
         MadeOk(cre, k, slots[..|slots| - 1], made[..|made| - 1], g, maxSequence) &&
         ProbeOk(cre, k, slots[|slots| - 1], |made| - 1, made[|made| - 1], g, maxSequence))
    }

    /** The probes of a launch one by one. */
    lemma {:induction false} MadeEach(cre: Request, k: KPathReturn, slots: seq<nat>, made: seq<Probe>, g: nat, maxSequence: nat)
      requires MadeOk(cre, k, slots, made, g, maxSequence)
      ensures |made| == |slots| && forall j :: 0 <= j < |made| ==> ProbeOk(cre, k, slots[j], j, made[j], g, maxSequence)
      decreases |made|
    {
      if made != [] {
        MadeEach(cre, k, slots[..|slots| - 1], made[..|made| - 1], g, maxSequence);
      }
    }

    /** The path of slot `s` (Thread.cpp:2502-2506): for each pair of
        consecutive routers of the slot's row, the first edge from the
        one to the other. */
    method PathFor(k: KPathReturn, s: nat) returns (path: seq<Edge>)
      requires Wired() && Routable(k, s)
      ensures PathOf(k, s) == Some(path)
    {
      var len := k.pathlen[s] - 1;
      var base := Row(s);
      HopsFound(k, base, len);
      path := [];
      var r := 0;
      while r < len
        invariant 0 <= r <= len && |path| == r
        invariant forall j :: 0 <= j < r ==> path[j] == Hops(k, base, len).value[j]
      {
        assert Hop(k, base, r).Some?;
        var e := routers[k.pathinfo[base + r]].GetEdgeByDestination(k.pathinfo[base + r + 1]);
        path := path + [e.value];
        r := r + 1;
      }
      assert path == Hops(k, base, len).value;
    }

    /** The records of the loop of `sendProbes` (Thread.cpp:2423-2512),
        one per slot: the slot's path in a fresh record. */
    method MakeRecords(cre: Request, k: KPathReturn, slots: seq<nat>, g: nat, maxSequence: nat)
      returns (made: seq<Probe>)
      requires Wired() && forall j :: 0 <= j < |slots| ==> slots[j] < |k.pathcost| && Routable(k, slots[j])
      ensures MadeOk(cre, k, slots, made, g, maxSequence)
    {
      made := [];
      var i := 0;
      while i < |slots|
        invariant 0 <= i <= |slots| && MadeOk(cre, k, slots[..i], made, g, maxSequence)
      {
        var s := slots[i];
        var path := PathFor(k, s);
        var rec := NewProbe(cre, path, SequenceOf(ps, cre, i), maxSequence, WavelengthOf(ra, k.pathcost, s), k, g);
        assert (made + [rec])[..i] == made;
        assert slots[..i + 1][..i] == slots[..i];
        made := made + [rec];
        i := i + 1;
      }
      assert slots[..i] == slots;
    }

    /** The loop of `sendProbes` (Thread.cpp:2410-2528): the slots it
        visits, the records it makes on them and the table with those
        slots spent. The records are built from the table the call
        received; the slots not yet visited read the same in it. */
    method MakeProbes(cre: Request, k0: KPathReturn, plan: Plan, g: nat, maxSequence: nat)
      returns (made: seq<Probe>, k: KPathReturn)
      requires Wired() && Launchable(cre, k0, plan) && plan.toSend > 0
      requires ps == Parallel ==> maxSequence == plan.toSend
      ensures var slots := Slots(ra, k0.pathcost, plan.start, plan.toSend).value;
              MadeOk(cre, k0, slots, made, g, maxSequence) && InTable(k0, slots) && k == SpendAll(ra, k0, slots)
      ensures |made| == plan.toSend && Batch(made, g, W, ps)
    {
      var slots := PickSlots(ra, k0.pathcost, plan.start, plan.toSend);
      made := MakeRecords(cre, k0, slots, g, maxSequence);
      MadeRecordsOk(cre, k0, slots, made, g, maxSequence);
      assert InTable(k0, slots);
      k := SpendAll(ra, k0, slots);
    }

    /** The sending half of the loop of `sendProbes`
        (Thread.cpp:2514-2527): each record leaves over its first edge
        and, outside IA and DP, is counted as a probe sent. */
    method Dispatch(base: nat, made: seq<Probe>)
      modifies queue, this`stats
      ensures Sent(old(queue.pq), old(stats), now, base, made, queue.pq, stats)
    {
      ghost var q0 := queue.pq;
      var i := 0;
      while i < |made|
        invariant 0 <= i <= |made|
        invariant queue.pq == q0 + Launches(now, base, made[..i])
        invariant stats == old(stats).(probeSentCount := old(stats).probeSentCount +
                                                         if PresetWavelength(ra) then 0 else i)
      {
        var e := Launch(now, base + i, made[i]);
        queue.AddEvent(e);
        if !PresetWavelength(ra) {
          stats := stats.(probeSentCount := stats.probeSentCount + 1);
        }
        Assoc(q0, Launches(now, base, made[..i]), [e]);
        LaunchesSnoc(now, base, made[..i], made[i]);
        assert made[..i + 1] == made[..i] + [made[i]];
        i := i + 1;
      }
      assert made[..i] == made;
    }

    /** `sendProbes` (Thread.cpp:2388-2539). With nothing to send it counts
        the failure: QUALITY for a SERIAL retry of a preset wavelength
        outside DP, NO_PATH otherwise. Otherwise it sends one probe per
        slot, spends each slot of the table and files the records, under
        PARALLEL as one sibling array. The records and the group take
        fresh handles from `nextHandle`. */
    method SendProbes(cre: Request, k0: KPathReturn, plan: Plan)
      returns (made: seq<Probe>, kPaths: KPathReturn)
      requires Valid() && Wired() && Launchable(cre, k0, plan)
      modifies this`probes, this`groups, this`nextHandle, this`stats, queue
      ensures Valid()
      ensures Probed(cre, k0, plan, old(probes), old(groups), old(nextHandle), old(queue.pq), old(stats),
                     made, kPaths, probes, groups, nextHandle, queue.pq, stats)
    {
      if plan.toSend == 0 {
        made, kPaths := [], k0;
        stats := Unsent(cre, stats);
      } else {
        made, kPaths := SendAll(cre, k0, plan, probes, groups, nextHandle, queue.pq, stats);
      }
    }

    /** `sendProbes` with probes to send: make the records, then send and
        file them. */
    method SendAll(cre: Request, k0: KPathReturn, plan: Plan, ghost probes0: map<nat, Probe>, ghost groups0: map<nat, seq<nat>>,
                   ghost next0: nat, ghost q0: seq<Event>, ghost st0: Stats)
      returns (made: seq<Probe>, kPaths: KPathReturn)
      requires Valid() && Wired() && Launchable(cre, k0, plan) && plan.toSend > 0
      requires probes == probes0 && groups == groups0 && nextHandle == next0 && queue.pq == q0 && stats == st0
      modifies this`probes, this`groups, this`nextHandle, this`stats, queue
      ensures Valid()
      ensures var slots := Slots(ra, k0.pathcost, plan.start, plan.toSend).value;
              |made| == plan.toSend &&
              MadeOk(cre, k0, slots, made, next0, MaxSequenceOf(ra, ps, cre, k0.pathcost, W, maxProbes, plan.toSend)) &&
              kPaths == SpendAll(ra, k0, slots)
      ensures Launched(probes0, groups0, next0, q0, st0, now, made, kPaths, probes, groups, nextHandle, queue.pq, stats)
    {
      var maxSequence := MaxSequenceOf(ra, ps, cre, k0.pathcost, W, maxProbes, plan.toSend);
      made, kPaths := MakeProbes(cre, k0, plan, nextHandle, maxSequence);
      Commit(made, kPaths);
    }

    /** Send the fresh records and file them under the next handles. */
    method Commit(made: seq<Probe>, kPaths: KPathReturn)
      requires Valid()
      requires Batch(made, nextHandle, W, ps)
      modifies this`probes, this`groups, this`nextHandle, this`stats, queue
      ensures Valid()
      ensures Launched(old(probes), old(groups), old(nextHandle), old(queue.pq), old(stats), now, made, kPaths,
                       probes, groups, nextHandle, queue.pq, stats)
    {
      var base := nextHandle + 1;
      File(made, kPaths);
      Dispatch(base, made);
    }

    /** The records of a well-formed launch satisfy the table invariant's
        demands on fresh records. */
    lemma MadeRecordsOk(cre: Request, k: KPathReturn, slots: seq<nat>, made: seq<Probe>, g: nat, maxSequence: nat)
      requires MadeOk(cre, k, slots, made, g, maxSequence)
      requires forall j :: 0 <= j < |slots| ==>
                 slots[j] < |k.pathcost| && Routable(k, slots[j]) && WavelengthOf(ra, k.pathcost, slots[j]) < W
      requires ps == Parallel ==> cre.sequence == 0 && maxSequence == |made|
      ensures Batch(made, g, W, ps)
    {
      MadeEach(cre, k, slots, made, g, maxSequence);
      forall j | 0 <= j < |made| ensures RecordOk(made[j], W) {
        assert ProbeOk(cre, k, slots[j], j, made[j], g, maxSequence);
      }
    }

    /** File the fresh records under handles `nextHandle+1`, ... and,
        under PARALLEL, their sibling array under `nextHandle`. */
    method File(made: seq<Probe>, kPaths: KPathReturn)
      requires Valid()
      requires Batch(made, nextHandle, W, ps)
      modifies this`probes, this`groups, this`nextHandle
      ensures Valid()
      ensures Filed(old(probes), old(groups), old(nextHandle), made, kPaths, ps, probes, groups, nextHandle)
    {
      var g := nextHandle;
      probes := probes + Fresh(g + 1, made, kPaths);
      if ps == Parallel {
        groups := groups[g := Handles(g + 1, |made|)];
      }
      nextHandle := g + 1 + |made|;
      LaunchKeepsTable(old(probes), old(groups), g, W, ps, made, kPaths, probes, groups, nextHandle);
    }
    // -------------------------------------------------------------------
    // connection_request (Thread.cpp:799-830).

    /** The draws suffice for the next request of `cre`'s workstation:
        the session names a workstation, and some drawn destination is
        not its parent router. */
    ghost predicate TrafficOk(cre: Request, t: Traffic)
    {
      connections > 0 && cre.session / connections < |workstations| &&
      Workstations.HasOther(t.destinations, workstations[cre.session / connections].parent)
    }

    /** The request `generateTrafficEvent` makes at time `t0` for the
        session after `cre`'s, from the draws `t`. */
    ghost function NextRequest(t0: real, cre: Request, t: Traffic): Event
      requires TrafficOk(cre, t)
    {
      var session := Workstations.NextSession(cre.session, connections);
      var source := workstations[cre.session / connections].parent;
      Event(t0 + t.arrival,
            Payload.ConnectionRequest(
              Request(source, t.destinations[Workstations.FirstOther(t.destinations, source)], 0,
                      if t.duration < minDuration then minDuration else t.duration,
                      t0 + t.arrival, session, 0, 0, false)))
    }

    /** The queue once the request at time `t0` has scheduled the next
        one, which it does only before `TEN_HOURS`. */
    ghost function Scheduled(t0: real, cre: Request, t: Traffic, q0: seq<Event>): seq<Event>
      requires t0 < Workstations.TEN_HOURS ==> TrafficOk(cre, t)
    {
      if t0 < Workstations.TEN_HOURS then q0 + [NextRequest(t0, cre, t)] else q0
    }

    /** The counters once a request is counted: IA and DP also count the
        probe their path search sends. */
    function Counted(st: Stats): (r: Stats)
      ensures r.connectionRequests == st.connectionRequests + 1
      ensures r.probeSentCount == st.probeSentCount + (if PresetWavelength(ra) then 1 else 0)
      ensures r.(connectionRequests := st.connectionRequests, probeSentCount := st.probeSentCount) == st
    {
      st.(connectionRequests := st.connectionRequests + 1,
          probeSentCount := st.probeSentCount + if PresetWavelength(ra) then 1 else 0)
    }

    /** The first half of `connection_request`: schedule the next request
        while the clock is before `TEN_HOURS`, then count this one. */
    method Admit(cre: Request, t: Traffic)
      requires now < Workstations.TEN_HOURS ==> TrafficOk(cre, t)
      modifies queue, this`stats
      ensures queue.pq == Scheduled(now, cre, t, old(queue.pq)) && stats == Counted(old(stats))
    {
      if now < Workstations.TEN_HOURS {
        Workstations.NextSessionInBlock(cre.session, connections);
        var e := Workstations.GenerateTrafficEvent(Workstations.NextSession(cre.session, connections), connections,
                                                   workstations, now, t.arrival, t.duration, minDuration, t.destinations);
        queue.AddEvent(e);
      }
      stats := Counted(stats);
    }

    /** `connection_request`: schedule the workstation's next request
        while the clock is before `TEN_HOURS`, count the request, plan the
        probes on the routing algorithm's table `k0` and send them. The
        only exit is the planner's. */
    method ConnectionRequest(cre: Request, k0: KPathReturn, t: Traffic)
      returns (r: Outcome<()>, ghost q1: seq<Event>, ghost st1: Stats, ghost made: seq<Probe>, ghost kPaths: KPathReturn)
      requires Valid() && Wired() && Tabled(k0) && CostsCover(ra, wa, ps, W, maxProbes, k0.pathcost)
      requires ps == Parallel ==> cre.sequence == 0
      requires now < Workstations.TEN_HOURS ==> TrafficOk(cre, t)
      modifies this`probes, this`groups, this`nextHandle, this`stats, queue
      ensures Valid()
      ensures r.Fatal? <==> PlanOf(ra, wa, ps, W, maxProbes, k0.pathcost, 0).Fatal?
      ensures q1 == Scheduled(now, cre, t, old(queue.pq)) && st1 == Counted(old(stats))
      ensures r.Fatal? ==>
                r.code == ERROR_WAVELENGTH_ALGORITHM_IA &&
                probes == old(probes) && groups == old(groups) && nextHandle == old(nextHandle) &&
                queue.pq == q1 && stats == st1
      ensures r.Done? ==>
                Probed(cre, k0, PlanOf(ra, wa, ps, W, maxProbes, k0.pathcost, 0).value,
                       old(probes), old(groups), old(nextHandle), q1, st1,
                       made, kPaths, probes, groups, nextHandle, queue.pq, stats)
    {
      Admit(cre, t);
      q1, st1 := queue.pq, stats;
      var plan := CalcProbesToSend(ra, wa, ps, W, maxProbes, k0.pathcost, 0);
      made, kPaths := [], k0;
      if plan.Fatal? {
        PlanFatalCases(ra, wa, ps, W, maxProbes, k0.pathcost, 0);
        return Fatal(plan.code), q1, st1, made, kPaths;
      }
      PlanLaunchable(cre, k0, 0);
      made, kPaths := SendProbes(cre, k0, plan.value);
      r := Done(());
    }
    // -------------------------------------------------------------------
    // destroy_connection_probe (Thread.cpp:1009-1095).

    /** `clearResponses`: drop a request's sibling array and its records. */
    method Clear(g: nat)
      requires Valid() && g in groups
      modifies this`probes, this`groups
      ensures Valid()
      ensures probes == old(probes) - Workstations.Elems(old(groups[g])) && groups == old(groups) - {g}
    {
      ClearKeepsTable(probes, groups, nextHandle, W, ps, g);
      probes := probes - Workstations.Elems(groups[g]);
      groups := groups - {g};
    }

    /** `destroy_connection_probe`: release the wavelength on the edge at
        `d.hops` (an edge found free already ends the process with
        `ERROR_EDGE_IS_FREE`), then travel on to the next edge or, past
        the last one, under PARALLEL drop the request's sibling array. */
    method DestroyConnectionProbe(d: Destroy) returns (r: Outcome<()>)
      requires Valid() && d.hops < |d.path| && PathOk(d.path, W) && 0 <= d.wavelength < W
      requires ps == Parallel && d.hops + 1 == |d.path| ==> d.group in groups
      modifies d.path[d.hops].status, d.path[d.hops].activeSession, d.path[d.hops].degredation
      modifies this`probes, this`groups, queue
      ensures Valid()
      ensures var e := d.path[d.hops];
              (r.Fatal? <==> old(e.status[d.wavelength]) == EdgeFree) &&
              (r.Fatal? ==> r.code == ERROR_EDGE_IS_FREE && e.status[..] == old(e.status[..]) &&
                            probes == old(probes) && groups == old(groups) && queue.pq == old(queue.pq))
      ensures var e := d.path[d.hops];
              r.Done? ==>
                e.status[..] == old(e.status[..])[d.wavelength := EdgeFree] &&
                e.activeSession[..] == old(e.activeSession[..])[d.wavelength := -1] &&
                e.degredation[..] == old(e.degredation[..])[d.wavelength := 0.0]
      ensures r.Done? && d.hops + 1 < |d.path| ==>
                probes == old(probes) && groups == old(groups) &&
                queue.pq == old(queue.pq) +
                  [Event(now + Delay(d.path[d.hops + 1].numberOfSpans),
                         Payload.DestroyConnectionProbe(d.(hops := d.hops + 1)))]
      ensures r.Done? && d.hops + 1 == |d.path| ==>
                queue.pq == old(queue.pq) &&
                (ps == Parallel ==> probes == old(probes) - Workstations.Elems(old(groups[d.group])) &&
                                    groups == old(groups) - {d.group}) &&
                (ps != Parallel ==> probes == old(probes) && groups == old(groups))
    {
      var edge := d.path[d.hops];
      if edge.GetStatus(d.wavelength) == EdgeUsed {
        edge.SetFree(d.wavelength);
      } else {
        return Fatal(ERROR_EDGE_IS_FREE);
      }
      var hops := d.hops + 1;
      if hops == |d.path| {
        if ps == Parallel {
          Clear(d.group);
        }
      } else {
        queue.AddEvent(Event(now + Delay(d.path[hops].numberOfSpans), Payload.DestroyConnectionProbe(d.(hops := hops))));
      }
      r := Done(());
    }
    // -------------------------------------------------------------------
    // collision_notification (Thread.cpp:1417-1468).

    /** Sequence number `s` of sibling array `g` names a live record. */
    ghost predicate Live(g: nat, s: nat)
      reads this`groups, this`probes
    {
      g in groups && s < |groups[g]| && groups[g][s] in probes
    }

    /** `collision_notification`: walking from the edge that collided
        toward the destination, release the wavelength on every edge but
        the one that collided, which another session holds (an edge found
        free already ends the process with `ERROR_EDGE_IS_FREE`); past the
        last edge a PARALLEL probe whose collision is not final marks its
        record COLLISION_FAILURE and hands the answer to the first sibling
        waiting at the destination. */
    method CollisionNotification(n: Collision, choose: nat -> int, quality: nat -> real) returns (r: Outcome<()>)
      requires Valid() && n.hops < |n.path| && PathOk(n.path, W) && 0 <= n.wavelength < W
      requires now > 0.0 && ChoiceOk(choose)
      requires HandsOver(n) ==> Live(n.group, n.sequence)
      modifies n.path[n.hops].status, n.path[n.hops].activeSession, n.path[n.hops].degredation
      modifies this`probes, queue
      ensures Valid()
      ensures var e := n.path[n.hops];
              (r.Fatal? <==> e.sourceIndex != n.source && old(e.status[n.wavelength]) == EdgeFree) &&
              (r.Fatal? ==> r.code == ERROR_EDGE_IS_FREE && e.status[..] == old(e.status[..]) &&
                            probes == old(probes) && queue.pq == old(queue.pq))
      ensures var e := n.path[n.hops];
              r.Done? && e.sourceIndex != n.source ==>
                e.status[..] == old(e.status[..])[n.wavelength := EdgeFree] &&
                e.activeSession[..] == old(e.activeSession[..])[n.wavelength := -1] &&
                e.degredation[..] == old(e.degredation[..])[n.wavelength := 0.0]
      ensures var e := n.path[n.hops];
              r.Done? && e.sourceIndex == n.source ==>
                e.status[..] == old(e.status[..]) && e.activeSession[..] == old(e.activeSession[..]) &&
                e.degredation[..] == old(e.degredation[..])
      ensures r.Done? && n.hops + 1 < |n.path| ==>
                probes == old(probes) &&
                queue.pq == old(queue.pq) +
                  [Event(now + Delay(n.path[n.hops + 1].numberOfSpans),
                         Payload.CollisionNotification(n.(hops := n.hops + 1)))]
      ensures r.Done? && n.hops + 1 == |n.path| && !HandsOver(n) ==>
                probes == old(probes) && queue.pq == old(queue.pq)
      ensures r.Done? && HandsOver(n) ==>
                var h := old(groups[n.group][n.sequence]);
                probes.Keys == old(probes).Keys && OthersKept(old(probes), probes, old(probes[h].group)) &&
                old(queue.pq) <= queue.pq && |queue.pq| <= |old(queue.pq)| + 1
    {
      var edge := n.path[n.hops];
      if edge.sourceIndex != n.source {
        if edge.GetStatus(n.wavelength) == EdgeUsed {
          edge.SetFree(n.wavelength);
        } else {
          return Fatal(ERROR_EDGE_IS_FREE);
        }
      }
      var hops := n.hops + 1;
      if hops == |n.path| {
        if n.maxSequence > 1 && !n.finalFailure {
          HandOver(groups[n.group][n.sequence], choose, quality);
        }
      } else {
        queue.AddEvent(Event(now + Delay(n.path[hops].numberOfSpans), Payload.CollisionNotification(n.(hops := hops))));
      }
      r := Done(());
    }

    /** The end of a collision notice that is not final
        (Thread.cpp:1434-1451): record `h` fails with COLLISION_FAILURE
        and the first sibling waiting at the destination, if any, arrives
        again and answers. */
    method HandOver(h: nat, choose: nat -> int, quality: nat -> real)
      requires Valid() && h in probes
      requires now > 0.0 && ChoiceOk(choose)
      modifies this`probes, queue
      ensures Valid()
      ensures probes.Keys == old(probes).Keys && OthersKept(old(probes), probes, old(probes[h].group))
      ensures old(queue.pq) <= queue.pq && |queue.pq| <= |old(queue.pq)| + 1
      ensures var p := old(probes[h]);
              (ps != Parallel || forall k :: 0 <= k < p.maxSequence && k != p.sequence ==>
                                   !Waiting(old(probes[groups[p.group][k]]))) ==>
                probes == old(probes)[h := p.(wavelength := COLLISION_FAILURE)] && queue.pq == old(queue.pq)
    {
      var g := probes[h].group;
      var other := Withdraw(h);
      KeptUpdate(old(probes), h, old(probes[h]).(wavelength := COLLISION_FAILURE));
      if other != -1 {
        ghost var mid := probes;
        var _ := ProbeArrives(groups[g][other], choose, quality);
        KeptTrans(old(probes), mid, probes, g);
      }
    }

    /** The first half of a hand-over: record `h` fails with
        COLLISION_FAILURE, and `other` is the first sibling waiting at the
        destination, or -1 when there is none (always -1 outside
        PARALLEL). */
    method Withdraw(h: nat) returns (other: int)
      requires Valid() && h in probes
      modifies this`probes
      ensures Valid() && probes == old(probes)[h := old(probes[h]).(wavelength := COLLISION_FAILURE)]
      ensures var p := old(probes[h]);
              other == -1 <==> ps != Parallel ||
                               forall k :: 0 <= k < p.maxSequence && k != p.sequence ==>
                                             !Waiting(old(probes[groups[p.group][k]]))
      ensures var p := old(probes[h]);
              other != -1 ==> ps == Parallel && 0 <= other < |groups[p.group]| &&
                              groups[p.group][other] in probes && groups[p.group][other] != h &&
                              probes[groups[p.group][other]].group == p.group &&
                              AtLastHop(probes[groups[p.group][other]])
    {
      var p := probes[h];
      var failed := p.(wavelength := COLLISION_FAILURE);
      // The siblings are read before the record is rewritten;
      // `otherResponse` passes over the record itself, so the order of
      // the two does not matter.
      var siblings: seq<Probe> := [];
      if ps == Parallel {
        assert Member(probes, groups, h);
        assert GroupOk(probes, p.group, groups[p.group]);
        siblings := Siblings(p.group);
      }
      Store(h, failed);
      other := OtherResponse(ps, siblings, failed);
      if other != -1 {
        assert old(probes)[groups[p.group][other]] == siblings[other] && siblings[other].sequence == other;
      }
    }

    // -------------------------------------------------------------------
    // create_connection_confirmation (Thread.cpp:1104-1408).

    /** A collision is the request's last word: always outside PARALLEL;
        under PARALLEL when every other sibling of the confirmation's
        record has reached the destination and decided no later than it. */
    ghost predicate FinalFor(c: Confirmation)
      reads this
      requires Valid() && (ps == Parallel ==> Live(c.group, c.sequence))
    {
      ps != Parallel ||
      (assert GroupOk(probes, c.group, groups[c.group]);
       SettledNoLater(Siblings(c.group), probes[groups[c.group][c.sequence]]))
    }

    /** The notice a confirmation that collides on its current edge sends
        back toward the destination. */
    ghost function CollisionOf(c: Confirmation): Event
      reads this
      requires Valid() && c.hops < |c.path| && (ps == Parallel ==> Live(c.group, c.sequence))
    {
      var i := |c.path| - 1 - c.hops;
      Event(now + Delay(c.path[i].numberOfSpans),
            Payload.CollisionNotification(
              Collision(c.path[i].sourceIndex, c.destination, c.path, i, c.session, c.sequence,
                        if ps == Parallel then probes[groups[c.group][c.sequence]].maxSequence else 1,
                        c.wavelength, c.group, FinalFor(c))))
    }

    /** The step of a confirmation on the edge it stands on, whose
        wavelength states and sessions go from `status0`, `sessions0` to
        `status1`, `sessions1` while the queue goes from `q0` to `q1`: a
        free wavelength is reserved for the session; a used one is a
        collision, which sends `notice` and marks the confirmation
        COLLISION_FAILURE with `final` as its final-failure flag; a
        failed confirmation passes through. `c1` is the confirmation
        afterwards. */
    ghost predicate Stamped(c: Confirmation, status0: seq<EdgeStatus>, sessions0: seq<int>, q0: seq<Event>,
                            notice: Event, final: bool,
                            status1: seq<EdgeStatus>, sessions1: seq<int>, q1: seq<Event>, c1: Confirmation)
      requires c.wavelength < |status0| == |sessions0|
    {
      var w := c.wavelength;
      if w >= 0 && status0[w] == EdgeFree then
        status1 == status0[w := EdgeUsed] && sessions1 == sessions0[w := c.session] && q1 == q0 && c1 == c
      else if w >= 0 then
        status1 == status0 && sessions1 == sessions0 && q1 == q0 + [notice] &&
        c1 == c.(wavelength := COLLISION_FAILURE, finalFailure := final)
      else
        status1 == status0 && sessions1 == sessions0 && q1 == q0 && c1 == c
    }

    /** The edge step of `create_connection_confirmation`
        (Thread.cpp:1110-1184). */
    method Reserve(c: Confirmation) returns (c1: Confirmation)
      requires Valid() && c.hops < |c.path| && PathOk(c.path, W) && c.wavelength < W
      requires ps == Parallel ==> Live(c.group, c.sequence)
      modifies c.path[|c.path| - 1 - c.hops].status, c.path[|c.path| - 1 - c.hops].activeSession, queue
      ensures c1 == c.(wavelength := c1.wavelength, finalFailure := c1.finalFailure)
      ensures var e := c.path[|c.path| - 1 - c.hops];
              Stamped(c, old(e.status[..]), old(e.activeSession[..]), old(queue.pq), CollisionOf(c), FinalFor(c),
                      e.status[..], e.activeSession[..], queue.pq, c1)
    {
      var i := |c.path| - 1 - c.hops;
      var e := c.path[i];
      c1 := c;
      if c.wavelength >= 0 && e.GetStatus(c.wavelength) == EdgeFree {
        e.SetUsed(c.session, c.wavelength);
      } else if c.wavelength >= 0 && e.GetStatus(c.wavelength) == EdgeUsed {
        var maxSequence := 1;
        var final := true;
        if ps == Parallel {
          assert GroupOk(probes, c.group, groups[c.group]);
          var self := probes[groups[c.group][c.sequence]];
          maxSequence := self.maxSequence;
          final := FinalFailure(ps, Siblings(c.group), self);
        }
        queue.AddEvent(Event(now + Delay(e.numberOfSpans),
                             Payload.CollisionNotification(
                               Collision(e.sourceIndex, c.destination, c.path, i, c.session, c.sequence,
                                         maxSequence, c.wavelength, c.group, final))));
        c1 := c.(finalFailure := final, wavelength := COLLISION_FAILURE);
      }
    }

    /** The demands of a success's setup delay: under IA and DP the span
        distance of the source and destination pair is in the table. */
    ghost predicate DelayOk(c: Confirmation)
    {
      PresetWavelength(ra) ==>
        c.source < |routers| && c.destination < |routers| && |spanDistance| == |routers| * |routers|
    }

    /** The setup delay of a successful request: under IA and DP the time
        light needs over the span distance from the source to the
        destination, otherwise the time since the request began. */
    function SetupDelay(c: Confirmation): real
      reads this
      requires DelayOk(c)
    {
      if PresetWavelength(ra) then
        PairIndexNamesPair(c.source, c.destination, |routers|);
        Configuration.LightDelay(spanDistance[PairIndex(c.source, c.destination, |routers|)], fibre)
      else now - c.requestBegin
    }

    /** The teardown a successful request schedules for when its
        connection ends. */
    function TeardownOf(c: Confirmation): Event
      reads this
    {
      Event(now + c.duration,
            Payload.DestroyConnectionProbe(Destroy(c.path, c.probe, 0, c.session, c.sequence, c.wavelength, c.group)))
    }

    /** The request a SERIAL retry sends: the next sequence number on the
        original wavelength, flagged when the last attempt failed on
        quality. */
    function RetryOf(c: Confirmation): Request
    {
      Request(c.source, c.destination, c.originalWavelength, c.duration, c.requestBegin,
              c.session, c.sequence + 1, c.maxSequence, c.wavelength == QUALITY_FAILURE)
    }

    /** What a confirmation back at the source does, by its ending, to the
        table, the queue and the counters: a success counts itself and
        schedules the teardown; a SERIAL retry plans the next probes on the
        confirmation's table, skipping the ones already tried (and changes
        nothing when that plan is an exit); a failure counts itself and
        under PARALLEL drops the request's sibling array. The outcome `r`
        is an exit exactly when the retry's plan is. */
    ghost predicate Concluded(c: Confirmation, r: Outcome<()>,
                              probes0: map<nat, Probe>, groups0: map<nat, seq<nat>>, next0: nat, q0: seq<Event>, st0: Stats,
                              made: seq<Probe>, kPaths: KPathReturn,
                              probes1: map<nat, Probe>, groups1: map<nat, seq<nat>>, next1: nat, q1: seq<Event>, st1: Stats)
      reads this
      requires DelayOk(c)
      requires ps == Serial ==> CostsCover(ra, wa, ps, W, maxProbes, c.kPaths.pathcost)
      requires ps == Parallel ==> c.group in groups0
    {
      var e := EndingOf(ps, c);
      (r.Fatal? <==> e == Retry && PlanOf(ra, wa, ps, W, maxProbes, c.kPaths.pathcost, c.sequence + 1).Fatal?) &&
      (r.Fatal? ==> r.code == ERROR_WAVELENGTH_ALGORITHM_IA) &&
      if e == Success then
        probes1 == probes0 && groups1 == groups0 && next1 == next0 &&
        q1 == q0 + [TeardownOf(c)] && st1 == Tally(st0, e, c.path, SetupDelay(c))
      else if e == Retry then
        var plan := PlanOf(ra, wa, ps, W, maxProbes, c.kPaths.pathcost, c.sequence + 1);
        if plan.Fatal? then
          probes1 == probes0 && groups1 == groups0 && next1 == next0 && q1 == q0 && st1 == st0
        else
          Probed(RetryOf(c), c.kPaths, plan.value, probes0, groups0, next0, q0, st0,
                 made, kPaths, probes1, groups1, next1, q1, st1)
      else
        next1 == next0 && q1 == q0 && st1 == Tally(st0, e, c.path, 0.0) &&
        if ClearsGroup(ps, e) then
          probes1 == probes0 - Workstations.Elems(groups0[c.group]) && groups1 == groups0 - {c.group}
        else
          probes1 == probes0 && groups1 == groups0
    }

    /** A success (Thread.cpp:1203-1293): count it, with its hops, spans
        and setup delay, and schedule the teardown. */
    method Succeed(c: Confirmation)
      requires DelayOk(c)
      modifies this`stats, queue
      ensures stats == Tally(old(stats), Success, c.path, SetupDelay(c))
      ensures queue.pq == old(queue.pq) + [TeardownOf(c)]
    {
      stats := stats.(connectionSuccesses := stats.connectionSuccesses + 1,
                      totalSetupDelay := stats.totalSetupDelay + SetupDelay(c));
      queue.AddEvent(TeardownOf(c));
      var spans := CountSpans(c.path);
      stats := stats.(totalHopCount := stats.totalHopCount + |c.path|,
                      totalSpanCount := stats.totalSpanCount + spans);
    }

    /** A SERIAL retry (Thread.cpp:1294-1324): plan and send the probes of
        the next attempt on the confirmation's table. */
    method Reattempt(c: Confirmation) returns (r: Outcome<()>, ghost made: seq<Probe>, ghost kPaths: KPathReturn)
      requires Valid() && Wired() && ps == Serial
      requires CostsCover(ra, wa, ps, W, maxProbes, c.kPaths.pathcost) && Tabled(c.kPaths)
      modifies this`probes, this`groups, this`nextHandle, this`stats, queue
      ensures Valid()
      ensures var plan := PlanOf(ra, wa, ps, W, maxProbes, c.kPaths.pathcost, c.sequence + 1);
              (r.Fatal? <==> plan.Fatal?) &&
              (r.Fatal? ==> r.code == ERROR_WAVELENGTH_ALGORITHM_IA &&
                            probes == old(probes) && groups == old(groups) && nextHandle == old(nextHandle) &&
                            queue.pq == old(queue.pq) && stats == old(stats)) &&
              (r.Done? ==> Probed(RetryOf(c), c.kPaths, plan.value, old(probes), old(groups), old(nextHandle),
                                  old(queue.pq), old(stats), made, kPaths, probes, groups, nextHandle, queue.pq, stats))
    {
      var cre := RetryOf(c);
      var plan := CalcProbesToSend(ra, wa, ps, W, maxProbes, c.kPaths.pathcost, c.sequence + 1);
      made, kPaths := [], c.kPaths;
      if plan.Fatal? {
        PlanFatalCases(ra, wa, ps, W, maxProbes, c.kPaths.pathcost, c.sequence + 1);
        return Fatal(plan.code), made, kPaths;
      }
      PlanLaunchable(cre, c.kPaths, c.sequence + 1);
      made, kPaths := SendProbes(cre, c.kPaths, plan.value);
      r := Done(());
    }

    /** A failure (Thread.cpp:1325-1401): count it and, under PARALLEL,
        drop the request's sibling array. */
    method Fail(c: Confirmation, e: Ending)
      requires Valid() && (ps == Parallel ==> c.group in groups)
      modifies this`stats, this`probes, this`groups
      ensures Valid() && stats == Tally(old(stats), e, c.path, 0.0)
      ensures ClearsGroup(ps, e) ==>
                probes == old(probes) - Workstations.Elems(old(groups[c.group])) && groups == old(groups) - {c.group}
      ensures !ClearsGroup(ps, e) ==> probes == old(probes) && groups == old(groups)
    {
      if ClearsGroup(ps, e) {
        Clear(c.group);
      }
      stats := Tally(stats, e, c.path, 0.0);
    }

    /** A confirmation back at the source: succeed, retry or fail by its
        ending. The only exit is the retry planner's. */
    method Conclude(c: Confirmation) returns (r: Outcome<()>, ghost made: seq<Probe>, ghost kPaths: KPathReturn)
      requires Valid() && Wired() && DelayOk(c)
      requires ps == Serial ==> CostsCover(ra, wa, ps, W, maxProbes, c.kPaths.pathcost) && Tabled(c.kPaths)
      requires ps == Parallel ==> c.group in groups
      modifies this`probes, this`groups, this`nextHandle, this`stats, queue
      ensures Valid()
      ensures Concluded(c, r, old(probes), old(groups), old(nextHandle), old(queue.pq), old(stats),
                        made, kPaths, probes, groups, nextHandle, queue.pq, stats)
    {
      var e := EndingOf(ps, c);
      made, kPaths := [], c.kPaths;
      r := Done(());
      if e == Success {
        Succeed(c);
      } else if e == Retry {
        r, made, kPaths := Reattempt(c);
      } else {
        Fail(c, e);
      }
    }

    /** The edges a confirmation may reserve: the one it stands on. */
    ghost function Footprint(c: Confirmation): set<object>
    {
      if c.hops < |c.path| then
        {c.path[|c.path| - 1 - c.hops].status, c.path[|c.path| - 1 - c.hops].activeSession}
      else {}
    }

    /** `create_connection_confirmation`: a confirmation walking back from
        the destination to the source reserves its wavelength on each
        edge, or meets a collision there and notifies the edges behind
        it; then it moves on to the next edge or, back at the source,
        concludes the request. A confirmation with no edge before it ends
        the process with `ERROR_INVALID_CONFIRMATION`. `c1` is the
        confirmation after the edge step and `q1` the queue then. */
    method CreateConnectionConfirmation(c: Confirmation)
      returns (r: Outcome<()>, c1: Confirmation, ghost q1: seq<Event>,
               ghost made: seq<Probe>, ghost kPaths: KPathReturn)
      requires Valid() && Wired() && PathOk(c.path, W) && c.wavelength < W && DelayOk(c)
      requires ps == Parallel ==> Live(c.group, c.sequence)
      requires ps == Serial ==> CostsCover(ra, wa, ps, W, maxProbes, c.kPaths.pathcost) && Tabled(c.kPaths)
      modifies Footprint(c), this`probes, this`groups, this`nextHandle, this`stats, queue
      ensures Valid()
      ensures c1 == c.(wavelength := c1.wavelength, finalFailure := c1.finalFailure)
      ensures c.hops >= |c.path| ==>
                r == Fatal(ERROR_INVALID_CONFIRMATION) && probes == old(probes) && groups == old(groups) &&
                nextHandle == old(nextHandle) && queue.pq == old(queue.pq) && stats == old(stats)
      ensures c.hops < |c.path| ==>
                var e := c.path[|c.path| - 1 - c.hops];
                Stamped(c, old(e.status[..]), old(e.activeSession[..]), old(queue.pq), old(CollisionOf(c)), old(FinalFor(c)),
                        e.status[..], e.activeSession[..], q1, c1)
      ensures c.hops + 1 < |c.path| ==>
                r.Done? && probes == old(probes) && groups == old(groups) && nextHandle == old(nextHandle) &&
                stats == old(stats) &&
                queue.pq == q1 + [Event(now + Delay(c.path[|c.path| - 1 - c.hops].numberOfSpans),
                                        Payload.CreateConnectionConfirmation(c1.(hops := c.hops + 1)))]
      ensures c.hops + 1 == |c.path| ==>
                Concluded(c1, r, old(probes), old(groups), old(nextHandle), q1, old(stats),
                          made, kPaths, probes, groups, nextHandle, queue.pq, stats)
    {
      made, kPaths, c1, q1 := [], c.kPaths, c, queue.pq;
      if c.hops >= |c.path| {
        return Fatal(ERROR_INVALID_CONFIRMATION), c1, q1, made, kPaths;
      }
      var e := c.path[|c.path| - 1 - c.hops];
      c1 := Reserve(c);
      q1 := queue.pq;
      var hops := c.hops + 1;
      if hops < |c.path| {
        queue.AddEvent(Event(now + Delay(e.numberOfSpans), Payload.CreateConnectionConfirmation(c1.(hops := hops))));
        r := Done(());
      } else {
        r, made, kPaths := Conclude(c1);
      }
    }
  }
}
