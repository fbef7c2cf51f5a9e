// Simulation events (Event.h) and the priority comparator of the event
// queue (`operator<` in EventQueue.h), reproduced as written: a
// `std::priority_queue` pops its greatest element, so "a is served
// before b" means `b < a`.

module Events {
  import opened Common
  import opened Edges

  /** `ConnectionRequestEvent`. */
  datatype Request = Request(
    source: nat, destination: nat, wavelength: int,
    duration: real, requestBegin: real,
    session: nat, sequence: nat, maxSequence: nat, qualityFail: bool)

  /** `CreateConnectionConfirmationEvent`. `probe` is the handle of the
      probe whose path buffer the confirmation travels on (it is also the
      identity of that buffer); `group` names the probe's sibling array. */
  datatype Confirmation = Confirmation(
    source: nat, destination: nat, duration: real, requestBegin: real,
    path: seq<Edge>, probe: nat, hops: nat, maxSequence: nat,
    wavelength: int, originalWavelength: int,
    session: nat, sequence: nat, kPaths: KPathReturn, group: nat, finalFailure: bool)

  /** `CollisionNotificationEvent`. */
  datatype Collision = Collision(
    source: nat, destination: nat, path: seq<Edge>, hops: nat,
    session: nat, sequence: nat, maxSequence: nat, wavelength: int,
    group: nat, finalFailure: bool)

  /** `DestroyConnectionProbeEvent`. */
  datatype Destroy = Destroy(
    path: seq<Edge>, probe: nat, hops: nat,
    session: nat, sequence: nat, wavelength: int, group: nat)

  /** The event data. A probe event refers to its probe record by handle
      and carries copies of the two fields the comparator reads, which
      never change after the probe is created. */
  datatype Payload =
    | ActivateWorkstations
    | DeactivateWorkstations
    | UpdateUsage
    | UpdateGui
    | ConnectionRequest(request: Request)
    | CreateConnectionProbe(handle: nat, probeSession: nat, probeSequence: nat)
    | CreateConnectionConfirmation(confirmation: Confirmation)
    | CollisionNotification(collision: Collision)
    | DestroyConnectionProbe(destroy: Destroy)

  datatype Event = Event(time: real, payload: Payload)

  /** The position of the event's kind in `EventType`. */
  function Rank(p: Payload): (k: nat)
    ensures k < 9
  {
    match p
    case ActivateWorkstations => 0
    case DeactivateWorkstations => 1
    case UpdateUsage => 2
    case UpdateGui => 3
    case ConnectionRequest(_) => 4
    case CreateConnectionProbe(_, _, _) => 5
    case CreateConnectionConfirmation(_) => 6
    case CollisionNotification(_) => 7
    case DestroyConnectionProbe(_) => 8
  }

  /** The kinds the comparator cannot order among themselves. */
  predicate IsControl(p: Payload)
  {
    Rank(p) < 4
  }

  /** The session of a request, confirmation, collision or destroy event. */
  function SessionOf(p: Payload): nat
    requires Rank(p) == 4 || Rank(p) >= 6
  {
    match p
    case ConnectionRequest(r) => r.session
    case CreateConnectionConfirmation(c) => c.session
    case CollisionNotification(n) => n.session
    case DestroyConnectionProbe(d) => d.session
  }

  /** Result of one comparison: an answer, or the process exits with
      `ERROR_PRIORITY_QUEUE`. */
  datatype Comparison = Answer(less: bool) | Abort

  /** `operator<(event1, event2)`: true when `event1` is served after
      `event2`. Different times: the later one is less. Equal times and
      different kinds: the larger `EventType` is less. Equal time and
      kind: the larger session is less, except for probes, where the
      source compares `ccp1->session` with itself, so probes of different
      sessions are never less than each other and probes of one session
      are ordered by sequence; control events abort. */
  function Less(event1: Event, event2: Event): Comparison
  {
    if event1.time != event2.time then Answer(event1.time > event2.time)
    else if Rank(event1.payload) == Rank(event2.payload) then
      match (event1.payload, event2.payload)
      case (ConnectionRequest(r1), ConnectionRequest(r2)) => Answer(r1.session > r2.session)
      case (CreateConnectionProbe(_, s1, q1), CreateConnectionProbe(_, s2, q2)) =>
        if s1 != s2 then Answer(s1 > s1) else Answer(q1 > q2)
      case (CreateConnectionConfirmation(c1), CreateConnectionConfirmation(c2)) => Answer(c1.session > c2.session)
      case (CollisionNotification(n1), CollisionNotification(n2)) => Answer(n1.session > n2.session)
      case (DestroyConnectionProbe(d1), DestroyConnectionProbe(d2)) => Answer(d1.session > d2.session)
      case _ => Abort
    else Answer(Rank(event1.payload) > Rank(event2.payload))
  }

  /** `a` is served strictly before `b`. */
  predicate Precedes(a: Event, b: Event)
  {
    Less(b, a) == Answer(true)
  }

  /** A pair whose comparison ends the process. */
  predicate FatalPair(a: Event, b: Event)
  {
    Less(a, b) == Abort
  }

  /** The earlier timestamp is served first. */
  lemma EarlierTimeFirst(a: Event, b: Event)
    requires a.time < b.time
    ensures Precedes(a, b) && !Precedes(b, a)
  {
  }

  /** At equal times the smaller `EventType` is served first. */
  lemma LowerKindFirst(a: Event, b: Event)
    requires a.time == b.time && Rank(a.payload) < Rank(b.payload)
    ensures Precedes(a, b) && !Precedes(b, a)
  {
  }

  /** Requests, confirmations, collisions and destroys of one kind at one
      time are served lowest session first. */
  lemma LowerSessionFirst(a: Event, b: Event)
    requires a.time == b.time && Rank(a.payload) == Rank(b.payload)
    requires Rank(a.payload) == 4 || Rank(a.payload) >= 6
    ensures Precedes(a, b) <==> SessionOf(a.payload) < SessionOf(b.payload)
  {
  }

  /** Probes at one time: within a session lowest sequence first; probes
      of different sessions tie both ways. */
  lemma ProbeOrder(a: Event, b: Event)
    requires a.time == b.time && a.payload.CreateConnectionProbe? && b.payload.CreateConnectionProbe?
    ensures a.payload.probeSession == b.payload.probeSession ==>
              (Precedes(a, b) <==> a.payload.probeSequence < b.payload.probeSequence)
    ensures a.payload.probeSession != b.payload.probeSession ==>
              Less(a, b) == Answer(false) && Less(b, a) == Answer(false)
  {
  }

  /** Two control events of one kind at one time cannot be compared. */
  lemma ControlEventsAbort(a: Event, b: Event)
    requires a.time == b.time && Rank(a.payload) == Rank(b.payload) && IsControl(a.payload)
    ensures FatalPair(a, b)
  {
  }

  /** Only same-time, same-kind control events abort. */
  lemma FatalPairShape(a: Event, b: Event)
    ensures FatalPair(a, b) <==>
              a.time == b.time && Rank(a.payload) == Rank(b.payload) && IsControl(a.payload)
  {
  }

  /** A fatal comparison is fatal in both orders. */
  lemma FatalPairSymmetric(a: Event, b: Event)
    ensures FatalPair(a, b) <==> FatalPair(b, a)
  {
  }

  /** "Served before" is a strict partial order: irreflexive, asymmetric
      and transitive. */
  lemma {:induction false} PrecedesStrictOrder(a: Event, b: Event, c: Event)
    ensures !Precedes(a, a)
    ensures Precedes(a, b) ==> !Precedes(b, a)
    ensures Precedes(a, b) && Precedes(b, c) ==> Precedes(a, c)
  {
    if Precedes(a, b) && Precedes(b, c) && a.time == b.time && b.time == c.time
       && Rank(a.payload) == Rank(b.payload) && Rank(b.payload) == Rank(c.payload) {
      match a.payload
      case ConnectionRequest(_) =>
      case CreateConnectionProbe(_, _, _) =>
      case CreateConnectionConfirmation(_) =>
      case CollisionNotification(_) =>
      case DestroyConnectionProbe(_) =>
    }
  }

  /** Because of the self-comparison, "neither is served first" is not
      transitive, so the comparator is not a strict weak ordering: two
      probes of session 1 are ordered, yet each ties with a probe of
      session 2. */
  lemma ProbeTiesNotTransitive()
    ensures var a := Event(1.0, CreateConnectionProbe(0, 1, 0));
            var b := Event(1.0, CreateConnectionProbe(1, 2, 0));
            var c := Event(1.0, CreateConnectionProbe(2, 1, 1));
            !Precedes(a, b) && !Precedes(b, a) && !Precedes(b, c) && !Precedes(c, b) && Precedes(a, c)
  {
  }
}
