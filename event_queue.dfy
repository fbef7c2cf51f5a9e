// The event queue (EventQueue.h, EventQueue.cpp). The model keeps the
// queued events as a sequence and pops an event that no queued event is
// served before, scanning with the source's comparator and stopping with
// `ERROR_PRIORITY_QUEUE` when a comparison aborts.

module EventQueues {
  import opened Common
  import opened Events

  /** No event of `s` is served before `e`. */
  predicate IsTop(s: seq<Event>, e: Event)
  {
    forall j :: 0 <= j < |s| ==> !Precedes(s[j], e)
  }

  /** Two different entries of `s` whose comparison aborts. */
  predicate HasFatalPair(s: seq<Event>)
  {
    exists i, j :: 0 <= i < j < |s| && FatalPair(s[i], s[j])
  }

  class EventQueue {
    var pq: seq<Event>

    constructor ()
      ensures pq == []
    {
      pq := [];
    }

    function GetSize(): nat
      reads this
    {
      |pq|
    }

    method AddEvent(e: Event)
      modifies this
      ensures pq == old(pq) + [e]
      ensures GetSize() == old(GetSize()) + 1
    {
      pq := pq + [e];
    }

    /** Remove and return an event that no remaining event is served
        before. The scan aborts only on a pair of queued events whose
        comparison is fatal, and a queue without such a pair never aborts. */
    method GetNextEvent() returns (r: Outcome<Event>)
      requires |pq| > 0
      modifies this
      ensures r.Done? ==> r.value in old(pq) && multiset(pq) == multiset(old(pq)) - multiset{r.value}
      ensures r.Done? ==> IsTop(old(pq), r.value) && IsTop(pq, r.value)
      ensures r.Done? ==> GetSize() == old(GetSize()) - 1
      ensures r.Fatal? ==> r.code == ERROR_PRIORITY_QUEUE && HasFatalPair(old(pq)) && pq == old(pq)
      ensures !HasFatalPair(old(pq)) ==> r.Done?
    {
      var s := pq;
      var best := 0;
      var i := 1;
      while i < |s|
        invariant 0 <= best < |s| && 1 <= i <= |s| && best < i
        invariant forall j :: 0 <= j < i ==> !Precedes(s[j], s[best])
        invariant pq == s
      {
        var c := Less(s[best], s[i]);
        if c == Abort {
          return Fatal(ERROR_PRIORITY_QUEUE);
        }
        if c.less {
          forall j | 0 <= j < i ensures !Precedes(s[j], s[i]) {
            PrecedesStrictOrder(s[j], s[i], s[best]);
          }
          PrecedesStrictOrder(s[i], s[i], s[i]);
          best := i;
        }
        i := i + 1;
      }
      var e := s[best];
      assert s == s[..best] + [e] + s[best + 1..];
      pq := s[..best] + s[best + 1..];
      assert IsTop(pq, e) by {
        forall j | 0 <= j < |pq| ensures !Precedes(pq[j], e) {
          if j < best { assert pq[j] == s[j]; } else { assert pq[j] == s[j + 1]; }
        }
      }
      return Done(e);
    }
  }

  /** A single event pushed onto an empty queue is the one popped. */
  method PushThenPop(e: Event) returns (r: Outcome<Event>)
    ensures r == Done(e)
  {
    var q := new EventQueue();
    q.AddEvent(e);
    r := q.GetNextEvent();
  }
}
