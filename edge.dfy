// An optical link between two routers (Edge.h, Edge.cpp): per-wavelength
// occupancy, the established connections riding on it, the usage and
// QM-degradation figures the routing algorithms read, and the ACO
// pheromone level.

module Edges {
  import opened Common

  /** Q-factor statistics of one edge (`EdgeStats` in Stats.h). */
  datatype EdgeStats = EdgeStats(
    droppedConnections: nat,
    minInitialQ: ExtReal, minAverageQ: ExtReal, minPercentQ: ExtReal,
    maxInitialQ: real, maxAverageQ: real, maxPercentQ: real,
    totalInitialQ: real, totalAverageQ: real, totalPercentQ: real,
    totalTime: real, count: real)

  /** The record `resetEdgeStats` leaves behind: minima at +inf, every
      other field 0. */
  function ClearedStats(): (s: EdgeStats)
    ensures s.minInitialQ == PosInf && s.minAverageQ == PosInf && s.minPercentQ == PosInf
    ensures s.maxInitialQ == 0.0 && s.maxAverageQ == 0.0 && s.maxPercentQ == 0.0
    ensures s.totalInitialQ == 0.0 && s.totalAverageQ == 0.0 && s.totalPercentQ == 0.0
    ensures s.totalTime == 0.0 && s.count == 0.0 && s.droppedConnections == 0
  {
    EdgeStats(0, PosInf, PosInf, PosInf, 0.0, 0.0, 0.0, 0.0, 0.0, 0.0, 0.0, 0.0)
  }

  /** An entry of an edge's established-connection list
      (`EstablishedConnection` in EstablishedConnections.h). `pathRef`
      stands for the identity of the shared `connectionPath` buffer, which
      is what the list is searched by. */
  datatype EstablishedConnection = EstablishedConnection(
    pathRef: nat, length: nat, wavelength: int, startTime: real, endTime: real)

  /** Number of wavelengths marked used. */
  function CountUsed(s: seq<EdgeStatus>): (n: nat)
    ensures n <= |s|
  {
    if s == [] then 0
    else CountUsed(s[..|s| - 1]) + (if s[|s| - 1] == EdgeUsed then 1 else 0)
  }

  lemma {:induction false} CountUsedZero(s: seq<EdgeStatus>)
    ensures CountUsed(s) == 0 <==> forall w :: 0 <= w < |s| ==> s[w] == EdgeFree
  {
    if s != [] {
      CountUsedZero(s[..|s| - 1]);
      assert forall w :: 0 <= w < |s| - 1 ==> s[..|s| - 1][w] == s[w];
    }
  }

  /** Number of wavelengths with a nonzero degradation entry. */
  function NonzeroCount(d: seq<real>): (n: nat)
    ensures n <= |d|
  {
    if d == [] then 0
    else NonzeroCount(d[..|d| - 1]) + (if d[|d| - 1] != 0.0 then 1 else 0)
  }

  /** Sum of the degradation entries (the zero ones add nothing). */
  function NonzeroSum(d: seq<real>): real
  {
    if d == [] then 0.0
    else NonzeroSum(d[..|d| - 1]) + (if d[|d| - 1] != 0.0 then d[|d| - 1] else 0.0)
  }

  lemma {:induction false} NonzeroCountExtremes(d: seq<real>)
    ensures NonzeroCount(d) == |d| <==> forall w :: 0 <= w < |d| ==> d[w] != 0.0
    ensures NonzeroCount(d) == 0 <==> forall w :: 0 <= w < |d| ==> d[w] == 0.0
  {
    if d != [] {
      var init := d[..|d| - 1];
      NonzeroCountExtremes(init);
      assert forall w :: 0 <= w < |d| - 1 ==> init[w] == d[w];
    }
  }

  /** The edge-wide QM degradation computed from the per-wavelength
      entries: +inf when every wavelength carries a nonzero entry, 2.0
      when none does, and otherwise the mean of the nonzero entries. */
  function AggregateDegradation(d: seq<real>): ExtReal
  {
    var n := NonzeroCount(d);
    if n == |d| then PosInf
    else if n == 0 then Finite(2.0)
    else Finite(NonzeroSum(d) / (n as real))
  }

  lemma AggregateDegradationCases(d: seq<real>)
    ensures (forall w :: 0 <= w < |d| ==> d[w] != 0.0) ==> AggregateDegradation(d) == PosInf
    ensures |d| > 0 && (forall w :: 0 <= w < |d| ==> d[w] == 0.0) ==>
              AggregateDegradation(d) == Finite(2.0)
    ensures (exists w :: 0 <= w < |d| && d[w] == 0.0) && (exists w :: 0 <= w < |d| && d[w] != 0.0) ==>
              0 < NonzeroCount(d) < |d| &&
              AggregateDegradation(d) == Finite(NonzeroSum(d) / (NonzeroCount(d) as real))
  {
    NonzeroCountExtremes(d);
  }

  /** `s` with the first connection whose path buffer is `ref` erased. */
  function RemoveFirst(s: seq<EstablishedConnection>, ref: nat): seq<EstablishedConnection>
  {
    if s == [] then []
    else if s[0].pathRef == ref then s[1..]
    else [s[0]] + RemoveFirst(s[1..], ref)
  }

  predicate HasRef(s: seq<EstablishedConnection>, ref: nat)
  {
    exists i :: 0 <= i < |s| && s[i].pathRef == ref
  }

  /** Removal erases exactly one entry when the buffer is listed and
      nothing otherwise, and never invents an entry. */
  lemma {:induction false} RemoveFirstShape(s: seq<EstablishedConnection>, ref: nat)
    ensures HasRef(s, ref) ==> |RemoveFirst(s, ref)| == |s| - 1
    ensures !HasRef(s, ref) ==> RemoveFirst(s, ref) == s
    ensures multiset(RemoveFirst(s, ref)) <= multiset(s)
  {
    if s != [] && s[0].pathRef != ref {
      RemoveFirstShape(s[1..], ref);
      assert s == [s[0]] + s[1..];
      if HasRef(s, ref) {
        var i :| 0 <= i < |s| && s[i].pathRef == ref;
        assert s[1..][i - 1].pathRef == ref;
      }
      if !HasRef(s, ref) {
        assert !HasRef(s[1..], ref) by {
          forall i | 0 <= i < |s| - 1 ensures s[1..][i].pathRef != ref {
            assert s[1..][i] == s[i + 1];
          }
        }
      }
    } else if s != [] {
      assert s == [s[0]] + s[1..];
    }
  }

  /** Inserting a connection and then removing it by its buffer restores
      the list, provided the buffer was not listed before. */
  lemma {:induction false} RemoveAfterInsert(s: seq<EstablishedConnection>, c: EstablishedConnection)
    requires !HasRef(s, c.pathRef)
    ensures RemoveFirst(s + [c], c.pathRef) == s
  {
    if s != [] {
      assert s[0].pathRef != c.pathRef;
      assert (s + [c])[1..] == s[1..] + [c];
      assert !HasRef(s[1..], c.pathRef) by {
        forall i | 0 <= i < |s| - 1 ensures s[1..][i].pathRef != c.pathRef {
          assert s[1..][i] == s[i + 1];
        }
      }
      RemoveAfterInsert(s[1..], c);
    }
  }

  /** Removal past a prefix without `ref` keeps the prefix. */
  lemma RemoveFirstPast(s: seq<EstablishedConnection>, i: nat, ref: nat)
    requires i < |s| && s[i].pathRef != ref
    ensures RemoveFirst(s[i..], ref) == [s[i]] + RemoveFirst(s[i + 1..], ref)
  {
    assert s[i..][1..] == s[i + 1..];
  }

  /** The erase loop of `removeEstablishedConnection`: scan for the first
      entry with buffer `ref` and erase it. */
  method EraseFirst(s: seq<EstablishedConnection>, ref: nat) returns (r: seq<EstablishedConnection>)
    ensures r == RemoveFirst(s, ref)
  {
    var i := 0;
    while i < |s| && s[i].pathRef != ref
      invariant 0 <= i <= |s|
      invariant RemoveFirst(s, ref) == s[..i] + RemoveFirst(s[i..], ref)
    {
      RemoveFirstPast(s, i, ref);
      assert s[..i + 1] == s[..i] + [s[i]];
      i := i + 1;
    }
    if i < |s| {
      assert s[i..][1..] == s[i + 1..];
      r := s[..i] + s[i + 1..];
    } else {
      assert s[..i] == s;
      r := s;
    }
  }

  class Edge {
    const sourceIndex: nat
    const destinationIndex: nat
    const numberOfSpans: nat
    /** Number of wavelengths per edge, fixed for the whole run. */
    const W: nat

    const status: array<EdgeStatus>
    const activeSession: array<int>
    const degredation: array<real>

    var algorithmUsage: real
    var qmDegredation: ExtReal
    var pheromone: real
    var established: seq<EstablishedConnection>
    var stats: EdgeStats

    /** The arrays have one slot per wavelength. */
    ghost predicate Valid()
    {
      status.Length == W && activeSession.Length == W && degredation.Length == W
    }

    /** A wavelength is free exactly when no session holds it. */
    ghost predicate Consistent()
      reads status, activeSession
      requires Valid()
    {
      forall w :: 0 <= w < W ==> (status[w] == EdgeFree <==> activeSession[w] == -1)
    }

    function GetStatus(w: nat): EdgeStatus
      requires Valid() && w < W
      reads status
    {
      status[w]
    }

    function GetActiveSession(w: nat): int
      requires Valid() && w < W
      reads activeSession
    {
      activeSession[w]
    }

    /** A freshly built edge: every wavelength free, no session, no
        degradation, zero usage, cleared statistics. The source leaves the
        pheromone level unset; the model starts it at 0. */
    constructor (src: nat, dest: nat, spans: nat, wavelengths: nat)
      ensures Valid() && Consistent()
      ensures sourceIndex == src && destinationIndex == dest && numberOfSpans == spans && W == wavelengths
      ensures forall w :: 0 <= w < W ==>
                status[w] == EdgeFree && activeSession[w] == -1 && degredation[w] == 0.0
      ensures algorithmUsage == 0.0 && qmDegredation == Finite(0.0)
      ensures established == [] && stats == ClearedStats()
      ensures fresh(status) && fresh(activeSession) && fresh(degredation)
    {
      sourceIndex, destinationIndex, numberOfSpans, W := src, dest, spans, wavelengths;
      status := new EdgeStatus[wavelengths](_ => EdgeFree);
      activeSession := new int[wavelengths](_ => -1);
      degredation := new real[wavelengths](_ => 0.0);
      algorithmUsage := 0.0;
      qmDegredation := Finite(0.0);
      pheromone := 0.0;
      established := [];
      stats := ClearedStats();
    }

    /** Reserve wavelength `w` for `session`; every other slot is untouched. */
    method SetUsed(session: nat, w: nat)
      requires Valid() && w < W
      modifies status, activeSession
      ensures status[..] == old(status[..])[w := EdgeUsed]
      ensures activeSession[..] == old(activeSession[..])[w := session]
      ensures GetStatus(w) == EdgeUsed && GetActiveSession(w) == session
      ensures old(Consistent()) ==> Consistent()
    {
      status[w] := EdgeUsed;
      activeSession[w] := session;
    }

    /** Release wavelength `w`: free, no session, zero degradation; every
        other slot is untouched. */
    method SetFree(w: nat)
      requires Valid() && w < W
      modifies status, activeSession, degredation
      ensures status[..] == old(status[..])[w := EdgeFree]
      ensures activeSession[..] == old(activeSession[..])[w := -1]
      ensures degredation[..] == old(degredation[..])[w := 0.0]
      ensures GetStatus(w) == EdgeFree && GetActiveSession(w) == -1
      ensures old(Consistent()) ==> Consistent()
    {
      status[w] := EdgeFree;
      activeSession[w] := -1;
      degredation[w] := 0.0;
    }

    method ResetAlgorithmUsage()
      modifies this`algorithmUsage
      ensures algorithmUsage == 0.0
    {
      algorithmUsage := 0.0;
    }

    method InsertEstablishedConnection(c: EstablishedConnection)
      modifies this`established
      ensures established == old(established) + [c]
    {
      established := established + [c];
    }

    /** Multiply the pheromone by (1 - rho); under MAX_MIN_ACO the level
        is then raised to the floor `gamma` if it fell below it. */
    method EvaporatePheromone(ra: RoutingAlgorithm, rho: real, gamma: real)
      modifies this`pheromone
      ensures ra != MaxMinAco ==> pheromone == (1.0 - rho) * old(pheromone)
      ensures ra == MaxMinAco ==> pheromone >= gamma && pheromone >= (1.0 - rho) * old(pheromone)
      ensures ra == MaxMinAco ==> pheromone == gamma || pheromone == (1.0 - rho) * old(pheromone)
    {
      pheromone := (1.0 - rho) * pheromone;
      if ra == MaxMinAco && pheromone < gamma {
        pheromone := gamma;
      }
    }

    /** Initial pheromone: 1 under MAX_MIN_ACO, ants per span under ACO,
        unchanged for the other algorithms. */
    method ResetPheromone(ra: RoutingAlgorithm, ants: int, spans: nat)
      requires ra == Aco ==> spans > 0
      modifies this`pheromone
      ensures ra == MaxMinAco ==> pheromone == 1.0
      ensures ra == Aco ==> pheromone == (ants as real) / (spans as real)
      ensures ra != MaxMinAco && ra != Aco ==> pheromone == old(pheromone)
    {
      if ra == MaxMinAco {
        pheromone := 1.0;
      } else if ra == Aco {
        pheromone := (ants as real) / (spans as real);
      }
    }

    /** Deposit 1/hops; under MAX_MIN_ACO the level is capped at 1. */
    method AddPheromone(ra: RoutingAlgorithm, hops: nat)
      requires hops > 0
      modifies this`pheromone
      ensures ra != MaxMinAco ==> pheromone == old(pheromone) + 1.0 / (hops as real)
      ensures ra == MaxMinAco ==> pheromone <= 1.0 && pheromone <= old(pheromone) + 1.0 / (hops as real)
      ensures ra == MaxMinAco ==> pheromone == 1.0 || pheromone == old(pheromone) + 1.0 / (hops as real)
    {
      pheromone := pheromone + 1.0 / (hops as real);
      if ra == MaxMinAco && pheromone > 1.0 {
        pheromone := 1.0;
      }
    }

    /** Smoothed usage: the mean of the previous figure and the current
        load, which is the established-connection count when Q statistics
        are collected and the number of used wavelengths otherwise. */
    method UpdateUsage(qFactorStats: bool)
      requires Valid()
      modifies this`algorithmUsage
      ensures qFactorStats ==> algorithmUsage == (old(algorithmUsage) + |established| as real) / 2.0
      ensures !qFactorStats ==> algorithmUsage == (old(algorithmUsage) + CountUsed(status[..]) as real) / 2.0
    {
      var newUsage: nat := 0;
      if qFactorStats {
        newUsage := |established|;
      } else {
        var w := 0;
        while w < W
          invariant 0 <= w <= W
          invariant newUsage == CountUsed(status[..w])
        {
          assert status[..w + 1][..w] == status[..w];
          if status[w] == EdgeUsed {
            newUsage := newUsage + 1;
          }
          w := w + 1;
        }
        assert status[..W] == status[..];
      }
      algorithmUsage := (algorithmUsage + newUsage as real) / 2.0;
    }

    /** The aggregate step of `updateQMDegredation`: the edge-wide figure
        is recomputed from the per-wavelength degradation entries. */
    method UpdateQMDegredation()
      requires Valid()
      modifies this`qmDegredation
      ensures qmDegredation == AggregateDegradation(degredation[..])
    {
      var active: nat := 0;
      var cumulative := 0.0;
      var w := 0;
      while w < W
        invariant 0 <= w <= W
        invariant active == NonzeroCount(degredation[..w])
        invariant cumulative == NonzeroSum(degredation[..w])
      {
        assert degredation[..w + 1][..w] == degredation[..w];
        if degredation[w] != 0.0 {
          cumulative := cumulative + degredation[w];
          active := active + 1;
        }
        w := w + 1;
      }
      assert degredation[..W] == degredation[..];
      if active == W {
        qmDegredation := PosInf;
      } else if active == 0 {
        qmDegredation := Finite(2.0);
      } else {
        qmDegredation := Finite(cumulative / (active as real));
      }
    }

    method ResetQMDegredation()
      requires Valid()
      modifies degredation
      ensures forall w :: 0 <= w < W ==> degredation[w] == 0.0
    {
      var w := 0;
      while w < W
        invariant 0 <= w <= W
        invariant forall v :: 0 <= v < w ==> degredation[v] == 0.0
      {
        degredation[w] := 0.0;
        w := w + 1;
      }
    }

    /** Erase the first connection riding on the buffer `pathRef` and
        clear the degradation entry of its wavelength. */
    method RemoveEstablishedConnection(pathRef: nat, wavelength: nat)
      requires Valid() && wavelength < W
      modifies this`established, degredation
      ensures established == RemoveFirst(old(established), pathRef)
      ensures degredation[..] == old(degredation[..])[wavelength := 0.0]
    {
      established := EraseFirst(established, pathRef);
      degredation[wavelength] := 0.0;
    }

    method ResetEdgeStats()
      modifies this`stats
      ensures stats == ClearedStats()
    {
      stats := ClearedStats();
    }
  }
}
