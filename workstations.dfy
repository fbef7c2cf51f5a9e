// Workstation run control of a simulation thread (Thread.cpp): the session
// numbering of connection requests, the drawing of a new request, the random
// activation order of the workstations, and the end-of-run check that every
// wavelength is free again. Random draws are parameters: a sequence of the
// values the generator would return, in order.

module Workstations {
  import opened Common
  import opened Edges
  import opened Events
  import opened Routers

  /** `TEN_HOURS` in RaptorTime.h: written as one hour of seconds. */
  const TEN_HOURS: real := 3600.0

  /** A workstation: its parent router and whether it currently generates
      traffic. */
  datatype Workstation = Workstation(parent: nat, active: bool)

  // ---------------------------------------------------------------------
  // Sessions. Workstation w owns the block of sessions w*C .. w*C + C - 1,
  // C being the number of connections per workstation.

  /** The session after `session` within its workstation's block, wrapping
      from the last session of the block back to the first. */
  function NextSession(session: nat, connections: nat): nat
    requires connections > 0
  {
    var n := session + 1;
    if n % connections != 0 then n
    else
      WrapIsAtLeastBlock(n, connections);
      n - connections
  }

  lemma WrapIsAtLeastBlock(n: nat, c: nat)
    requires c > 0 && n > 0 && n % c == 0
    ensures n >= c
  {
    var q := n / c;
    assert n == c * q;
    MulAtLeast(c, q);
  }

  lemma MulAtLeast(c: nat, q: nat)
    requires q >= 1
    ensures c * q >= c
  {
  }

  /** Writing `n` as `q * c + i` with `0 <= i < c` determines quotient and
      remainder. */
  lemma DivModOf(n: nat, c: nat, q: nat, i: nat)
    requires c > 0 && i < c && n == q * c + i
    ensures n / c == q && n % c == i
  {
    var q', i' := n / c, n % c;
    assert n == q' * c + i';
    if q' < q {
      MulStep(q', q, c);
    } else if q' > q {
      MulStep(q, q', c);
    }
  }

  lemma MulStep(a: nat, b: nat, c: nat)
    requires a < b
    ensures a * c + c <= b * c
  {
    assert b * c == a * c + (b - a) * c;
    MulAtLeast(c, b - a);
  }

  /** The next session belongs to the same workstation, and its position in
      the block is one further, modulo the block size. */
  lemma NextSessionInBlock(session: nat, connections: nat)
    requires connections > 0
    ensures NextSession(session, connections) / connections == session / connections
    ensures NextSession(session, connections) % connections == (session % connections + 1) % connections
  {
    var c := connections;
    var q, i := session / c, session % c;
    assert session == q * c + i;
    if i + 1 < c {
      DivModOf(session + 1, c, q, i + 1);
      DivModOf(i + 1, c, 0, i + 1);
    } else {
      assert session + 1 == (q + 1) * c + 0;
      DivModOf(session + 1, c, q + 1, 0);
      assert NextSession(session, c) == q * c;
      DivModOf(q * c, c, q, 0);
      DivModOf(i + 1, c, 1, 0);
    }
  }

  /** The session reached after `k` rollovers. */
  function SessionAfter(session: nat, connections: nat, k: nat): nat
    requires connections > 0
  {
    if k == 0 then session else NextSession(SessionAfter(session, connections, k - 1), connections)
  }

  /** A workstation's requests cycle through its whole block: after `k`
      rollovers the session is at position `(i + k) mod C` of the same
      block, so after `C` rollovers it is back where it started. */
  lemma {:induction false} SessionAfterCycles(session: nat, connections: nat, k: nat)
    requires connections > 0
    ensures SessionAfter(session, connections, k) / connections == session / connections
    ensures SessionAfter(session, connections, k) % connections == (session % connections + k) % connections
  {
    if k > 0 {
      SessionAfterCycles(session, connections, k - 1);
      NextSessionInBlock(SessionAfter(session, connections, k - 1), connections);
      ModSucc(session % connections + k - 1, connections);
    }
  }

  lemma ModSucc(x: nat, c: nat)
    requires c > 0
    ensures (x % c + 1) % c == (x + 1) % c
  {
    var q, j := x / c, x % c;
    assert x == q * c + j;
    if j + 1 < c {
      DivModOf(x + 1, c, q, j + 1);
      DivModOf(j + 1, c, 0, j + 1);
    } else {
      assert (q + 1) * c == q * c + c;
      DivModOf(x + 1, c, q + 1, 0);
      DivModOf(j + 1, c, 1, 0);
    }
  }

  lemma SessionsReturnAfterBlock(session: nat, connections: nat)
    requires connections > 0
    ensures SessionAfter(session, connections, connections) == session
  {
    SessionAfterCycles(session, connections, connections);
    Recompose(SessionAfter(session, connections, connections), session, connections);
  }

  /** Two numbers with the same quotient and remainder are equal. */
  lemma Recompose(s: nat, t: nat, c: nat)
    requires c > 0 && s / c == t / c && s % c == (t % c + c) % c
    ensures s == t
  {
    DivModOf(t % c + c, c, 1, t % c);
    assert s == (s / c) * c + s % c;
    assert t == (t / c) * c + t % c;
  }

  // ---------------------------------------------------------------------
  // generateTrafficEvent (Thread.cpp:748-791).

  /** Some draw names a router other than `source`: the destination loop
      of the source ends. */
  predicate HasOther(draws: seq<nat>, source: nat)
  {
    exists i :: 0 <= i < |draws| && draws[i] != source
  }

  lemma HasOtherTail(draws: seq<nat>, source: nat)
    requires HasOther(draws, source) && draws[0] == source
    ensures HasOther(draws[1..], source)
  {
    var i :| 0 <= i < |draws| && draws[i] != source;
    assert draws[1..][i - 1] == draws[i];
  }

  /** Position of the first draw that differs from `source`. */
  function FirstOther(draws: seq<nat>, source: nat): (k: nat)
    requires HasOther(draws, source)
    ensures k < |draws| && draws[k] != source
    ensures forall j :: 0 <= j < k ==> draws[j] == source
  {
    if draws[0] != source then 0
    else
      HasOtherTail(draws, source);
      var k := FirstOther(draws[1..], source);
      assert forall j :: 1 <= j < k + 1 ==> draws[j] == draws[1..][j - 1];
      k + 1
  }

  /** The next request of the workstation owning `session`: it arrives
      `arrival` after `now`, lasts at least `minDuration`, starts at
      the parent router and ends at the first drawn router other than it.
      The draws are the destinations the generator returns, whichever
      destination distribution produced them. */
  method GenerateTrafficEvent(session: nat, connections: nat, workstations: seq<Workstation>,
                              now: real, arrival: real, durationDraw: real, minDuration: real,
                              draws: seq<nat>) returns (e: Event)
    requires connections > 0 && session / connections < |workstations|
    requires HasOther(draws, workstations[session / connections].parent)
    ensures e.time == now + arrival && e.payload.ConnectionRequest?
    ensures var source := workstations[session / connections].parent;
            e.payload.request == Request(source, draws[FirstOther(draws, source)], 0,
                                         if durationDraw < minDuration then minDuration else durationDraw,
                                         now + arrival, session, 0, 0, false)
    ensures e.payload.request.source != e.payload.request.destination
    ensures e.payload.request.duration >= minDuration
  {
    var workstation := session / connections;
    var time := now + arrival;
    var duration := durationDraw;
    if duration < minDuration {
      duration := minDuration;
    }
    var source := workstations[workstation].parent;
    var destination := source;
    var i := 0;
    while source == destination
      invariant 0 <= i <= FirstOther(draws, source) + 1
      invariant i <= FirstOther(draws, source) ==> destination == source
      invariant i == FirstOther(draws, source) + 1 ==> destination == draws[FirstOther(draws, source)]
      invariant destination != source ==> i == FirstOther(draws, source) + 1
      decreases FirstOther(draws, source) + 1 - i
    {
      destination := draws[i];
      i := i + 1;
    }
    e := Event(time, ConnectionRequest(Request(source, destination, 0, duration, time, session, 0, 0, false)));
  }

  // ---------------------------------------------------------------------
  // The activation order (activate_workstations, Thread.cpp:463-495).

  predicate Distinct(s: seq<nat>)
  {
    forall i, j :: 0 <= i < j < |s| ==> s[i] != s[j]
  }

  /** The values of `ds` in order of first appearance. */
  function FirstOccurrences(ds: seq<nat>): (f: seq<nat>)
    ensures |f| <= |ds|
  {
    if ds == [] then []
    else
      var f := FirstOccurrences(ds[..|ds| - 1]);
      if ds[|ds| - 1] in f then f else f + [ds[|ds| - 1]]
  }

  lemma {:induction false} FirstOccurrencesShape(ds: seq<nat>)
    ensures forall x :: x in FirstOccurrences(ds) <==> x in ds
    ensures Distinct(FirstOccurrences(ds))
  {
    if ds != [] {
      var init := ds[..|ds| - 1];
      FirstOccurrencesShape(init);
      assert ds == init + [ds[|ds| - 1]];
    }
  }

  /** The numbers below `n`. */
  function Range(n: nat): set<nat>
  {
    if n == 0 then {} else Range(n - 1) + {n - 1}
  }

  lemma {:induction false} RangeBelow(n: nat)
    ensures forall w: nat :: w in Range(n) <==> w < n
    ensures |Range(n)| == n
  {
    if n > 0 {
      RangeBelow(n - 1);
      assert Range(n) == Range(n - 1) + {n - 1};
      AddOne(Range(n - 1), n - 1);
      forall w: nat ensures w in Range(n) <==> w < n {
        assert w in Range(n) <==> w in Range(n - 1) || w == n - 1;
      }
    }
  }

  lemma AddOne(a: set<nat>, x: nat)
    requires x !in a
    ensures |a + {x}| == |a| + 1
  {
  }

  /** The values of `s`, as a set. */
  function Elems(s: seq<nat>): set<nat>
  {
    if s == [] then {} else Elems(s[..|s| - 1]) + {s[|s| - 1]}
  }

  lemma {:induction false} ElemsMembers(s: seq<nat>)
    ensures forall x :: x in Elems(s) <==> x in s
  {
    if s != [] {
      ElemsMembers(s[..|s| - 1]);
      assert s == s[..|s| - 1] + [s[|s| - 1]];
    }
  }

  lemma {:induction false} DistinctSetSize(s: seq<nat>)
    requires Distinct(s)
    ensures |Elems(s)| == |s|
  {
    if s != [] {
      var init := s[..|s| - 1];
      assert Distinct(init) by {
        forall i, j | 0 <= i < j < |init| ensures init[i] != init[j] {
          assert init[i] == s[i] && init[j] == s[j];
        }
      }
      DistinctSetSize(init);
      ElemsMembers(init);
      assert s[|s| - 1] !in init by {
        forall i | 0 <= i < |init| ensures init[i] != s[|s| - 1] {
          assert init[i] == s[i];
        }
      }
      AddOne(Elems(init), s[|s| - 1]);
    }
  }

  /** A duplicate-free sequence holding all of `0 .. n-1` has at least `n`
      entries. */
  lemma CoverLength(s: seq<nat>, n: nat)
    requires Distinct(s) && forall w :: 0 <= w < n ==> w in s
    ensures |s| >= n
  {
    RangeBelow(n);
    DistinctSetSize(s);
    ElemsMembers(s);
    var range := Range(n);
    var elems := Elems(s);
    SubsetCard(range, elems);
  }

  /** A duplicate-free sequence of `n` values below `n` holds each of them. */
  lemma DistinctCovers(s: seq<nat>, n: nat)
    requires Distinct(s) && |s| == n && forall i :: 0 <= i < |s| ==> s[i] < n
    ensures forall w :: 0 <= w < n ==> w in s
  {
    RangeBelow(n);
    DistinctSetSize(s);
    ElemsMembers(s);
    var range := Range(n);
    var elems := Elems(s);
    assert elems <= range;
    forall w | 0 <= w < n ensures w in s {
      if w !in s {
        SubsetCard(elems, range - {w});
        assert false;
      }
    }
  }

  /** While fewer than `n` workstations are placed, a draw remains. */
  lemma DrawRemains(draws: seq<nat>, i: nat, n: nat)
    requires i <= |draws| && forall w :: 0 <= w < n ==> w in draws
    requires |FirstOccurrences(draws[..i])| < n
    ensures i < |draws|
  {
    if i == |draws| {
      assert draws[..i] == draws;
      FirstOccurrencesShape(draws);
      CoverLength(FirstOccurrences(draws), n);
    }
  }

  /** Draw workstations until each of the `n` has been seen, recording each
      at its first appearance. The result is the order of first appearance
      of the consumed draws and a permutation of `0 .. n-1`; `used` is the
      number of draws consumed. */
  method GenerateOrder(n: nat, draws: seq<nat>) returns (order: seq<nat>, used: nat)
    requires forall i :: 0 <= i < |draws| ==> draws[i] < n
    requires forall w :: 0 <= w < n ==> w in draws
    ensures used <= |draws| && order == FirstOccurrences(draws[..used])
    ensures |order| == n && Distinct(order)
    ensures forall i :: 0 <= i < n ==> order[i] < n
    ensures forall w :: 0 <= w < n ==> w in order
  {
    var init := new bool[n](_ => false);
    var list := new nat[n](_ => 0);
    var numberFound := 0;
    var i := 0;
    while numberFound < n
      invariant 0 <= i <= |draws| && 0 <= numberFound <= n
      invariant numberFound == |FirstOccurrences(draws[..i])|
      invariant list[..numberFound] == FirstOccurrences(draws[..i])
      invariant forall w :: 0 <= w < n ==> (init[w] <==> w in draws[..i])
      decreases |draws| - i
    {
      DrawRemains(draws, i, n);
      var wkstn := draws[i];
      ghost var f := FirstOccurrences(draws[..i]);
      FirstOccurrencesShape(draws[..i]);
      assert draws[..i + 1] == draws[..i] + [wkstn];
      assert draws[..i + 1][..i] == draws[..i];
      if !init[wkstn] {
        FirstOccurrencesShape(draws[..i + 1]);
        assert |f + [wkstn]| <= n by {
          forall k | 0 <= k < |f| ensures f[k] < n {
            assert f[k] in draws[..i];
          }
          DistinctBoundedLength(f + [wkstn], n);
        }
        list[numberFound] := wkstn;
        init[wkstn] := true;
        numberFound := numberFound + 1;
      }
      i := i + 1;
    }
    order := list[..];
    used := i;
    FirstOccurrencesShape(draws[..i]);
    assert list[..] == list[..numberFound];
    forall k | 0 <= k < n ensures order[k] < n {
      assert order[k] in draws[..i];
    }
    DistinctCovers(order, n);
  }

  /** A duplicate-free sequence of values below `n` has at most `n`
      entries. */
  lemma DistinctBoundedLength(s: seq<nat>, n: nat)
    requires Distinct(s) && forall k :: 0 <= k < |s| ==> s[k] < n
    ensures |s| <= n
  {
    RangeBelow(n);
    DistinctSetSize(s);
    ElemsMembers(s);
    var range := Range(n);
    var elems := Elems(s);
    SubsetCard(elems, range);
  }

  lemma {:induction false} SubsetCard(a: set<nat>, b: set<nat>)
    requires a <= b
    ensures |a| <= |b|
    decreases a
  {
    if a != {} {
      var x :| x in a;
      SubsetCard(a - {x}, b - {x});
    }
  }

  /** Mark the first `count` workstations of `order` active; runs before
      the first requests are drawn (Thread.cpp:502-511). */
  method ActivateFirst(ws: seq<Workstation>, order: seq<nat>, count: nat) returns (r: seq<Workstation>)
    requires count <= |order| && forall i :: 0 <= i < |order| ==> order[i] < |ws|
    ensures |r| == |ws|
    ensures forall w :: 0 <= w < |ws| ==>
              r[w].parent == ws[w].parent && (r[w].active <==> ws[w].active || w in order[..count])
  {
    r := ws;
    var k := 0;
    while k < count
      invariant 0 <= k <= count && |r| == |ws|
      invariant forall w :: 0 <= w < |ws| ==>
                  r[w].parent == ws[w].parent && (r[w].active <==> ws[w].active || w in order[..k])
    {
      assert order[..k + 1] == order[..k] + [order[k]];
      r := r[order[k] := r[order[k]].(active := true)];
      k := k + 1;
    }
  }

  /** The first session of workstation `w`. */
  function BlockStart(w: nat, connections: nat): nat
  {
    w * connections
  }

  lemma BlockStartOwner(w: nat, connections: nat)
    requires connections > 0
    ensures BlockStart(w, connections) / connections == w
    ensures BlockStart(w, connections) % connections == 0
  {
    DivModOf(w * connections, connections, w, 0);
  }

  /** The sessions of the first requests: `w * C` for each active
      workstation `w`, in increasing `w` (Thread.cpp:528-530). */
  method FirstSessions(ws: seq<Workstation>, connections: nat) returns (sessions: seq<nat>)
    requires connections > 0
    ensures forall s :: s in sessions <==> exists w :: 0 <= w < |ws| && ws[w].active && s == BlockStart(w, connections)
    ensures forall i :: 0 <= i < |sessions| ==>
              sessions[i] % connections == 0 && sessions[i] / connections < |ws| && ws[sessions[i] / connections].active
  {
    sessions := [];
    var w := 0;
    while w < |ws|
      invariant 0 <= w <= |ws|
      invariant forall s :: s in sessions <==> exists v :: 0 <= v < w && ws[v].active && s == BlockStart(v, connections)
      invariant forall i :: 0 <= i < |sessions| ==>
                  sessions[i] / connections < |ws| && sessions[i] % connections == 0 && ws[sessions[i] / connections].active
    {
      if ws[w].active {
        BlockStartOwner(w, connections);
        sessions := sessions + [BlockStart(w, connections)];
      }
      w := w + 1;
    }
  }

  // ---------------------------------------------------------------------
  // deactivate_workstations (Thread.cpp:694-726).

  /** Every router's first edge toward every router has its status array
      sized for `W` wavelengths. */
  ghost predicate TablesSized(routers: seq<Router>, W: nat)
    reads routers
  {
    forall r1, r2 :: (0 <= r1 < |routers| && 0 <= r2 < |routers| &&
                      routers[r1].GetEdgeByDestination(r2).Some?) ==>
      routers[r1].GetEdgeByDestination(r2).value.status.Length >= W
  }

  method AllFree(e: Edge, W: nat) returns (b: bool)
    requires e.status.Length >= W
    ensures b <==> forall k :: 0 <= k < W ==> e.status[k] == EdgeFree
  {
    var k := 0;
    while k < W
      invariant 0 <= k <= W
      invariant forall j :: 0 <= j < k ==> e.status[j] == EdgeFree
    {
      if e.status[k] != EdgeFree {
        return false;
      }
      k := k + 1;
    }
    return true;
  }

  /** End-of-run check and deactivation: the run stops with
      `ERROR_EDGE_IS_USED` exactly when, for some pair of routers, the
      first edge from one toward the other still has a wavelength in use;
      otherwise every workstation becomes inactive. Only the first edge of
      each pair is examined, as in the source. */
  method DeactivateWorkstations(ws: seq<Workstation>, routers: seq<Router>, W: nat)
    returns (r: Outcome<seq<Workstation>>)
    requires TablesSized(routers, W)
    ensures r.Fatal? <==> (exists r1, r2, k :: 0 <= r1 < |routers| && 0 <= r2 < |routers| && 0 <= k < W &&
                                 routers[r1].GetEdgeByDestination(r2).Some? &&
                                 routers[r1].GetEdgeByDestination(r2).value.status[k] != EdgeFree)
    ensures r.Fatal? ==> r.code == ERROR_EDGE_IS_USED
    ensures r.Done? ==> (|r.value| == |ws| &&
                         forall w :: 0 <= w < |ws| ==> r.value[w] == Workstation(ws[w].parent, false))
  {
    var n := |routers|;
    var r1 := 0;
    while r1 < n
      invariant 0 <= r1 <= n
      invariant forall a, b, k :: (0 <= a < r1 && 0 <= b < n && 0 <= k < W &&
                                   routers[a].GetEdgeByDestination(b).Some?) ==>
                  routers[a].GetEdgeByDestination(b).value.status[k] == EdgeFree
    {
      var r2 := 0;
      while r2 < n
        invariant 0 <= r2 <= n
        invariant forall a, b, k :: (0 <= a < r1 && 0 <= b < n && 0 <= k < W &&
                                     routers[a].GetEdgeByDestination(b).Some?) ==>
                    routers[a].GetEdgeByDestination(b).value.status[k] == EdgeFree
        invariant forall b, k :: (0 <= b < r2 && 0 <= k < W &&
                                  routers[r1].GetEdgeByDestination(b).Some?) ==>
                    routers[r1].GetEdgeByDestination(b).value.status[k] == EdgeFree
      {
        var edge := routers[r1].GetEdgeByDestination(r2);
        if edge.Some? {
          var free := AllFree(edge.value, W);
          if !free {
            ghost var k :| 0 <= k < W && edge.value.status[k] != EdgeFree;
            assert routers[r1].GetEdgeByDestination(r2).value.status[k] != EdgeFree;
            return Fatal(ERROR_EDGE_IS_USED);
          }
        }
        r2 := r2 + 1;
      }
      r1 := r1 + 1;
    }
    var out := ws;
    var w := 0;
    while w < |ws|
      invariant 0 <= w <= |ws| && |out| == |ws|
      invariant forall v :: 0 <= v < w ==> out[v] == Workstation(ws[v].parent, false)
      invariant forall v :: w <= v < |ws| ==> out[v] == ws[v]
    {
      if out[w].active {
        out := out[w := out[w].(active := false)];
      }
      w := w + 1;
    }
    return Done(out);
  }
}
