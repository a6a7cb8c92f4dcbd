/**
 * The pending-event heap of Simulation.py. An event is the tuple
 * `(time, event_type, data)`; `heapq` orders tuples as Python compares them:
 * by time, then by the event-type string, then by the payload. The heap is
 * modelled by its sorted contents: pushing inserts in order, popping takes
 * the head.
 */
module Events {
  import opened Wrappers

  datatype EventKind = AmbulanceCompletion | PatientArrival

  /** `(time, event_type, data)`: `data` is `None` for an arrival and the ambulance id for a completion. */
  datatype Event = Event(time: real, kind: EventKind, data: Option<nat>)

  /** The event-type strings the source pushes. */
  function KindName(k: EventKind): string
  {
    match k
    case AmbulanceCompletion => "AMBULANCE_COMPLETION"
    case PatientArrival => "patient_ARRIVAL"
  }

  /** Python's `<` on strings: lexicographic by code point, a proper prefix first. */
  predicate StrLess(a: string, b: string)
  {
    if |a| == 0 then |b| > 0
    else if |b| == 0 then false
    else if a[0] != b[0] then a[0] < b[0]
    else StrLess(a[1..], b[1..])
  }

  lemma {:induction false} StrLessIrreflexive(a: string)
    ensures !StrLess(a, a)
  {
    if |a| > 0 {
      StrLessIrreflexive(a[1..]);
    }
  }

  /** The order `heapq` puts kinds in at equal times: completions first. */
  predicate KindLess(j: EventKind, k: EventKind)
  {
    j == AmbulanceCompletion && k == PatientArrival
  }

  /**
   * That order is Python's comparison of the event-type strings:
   * "AMBULANCE_COMPLETION" sorts before "patient_ARRIVAL" (upper-case 'A'
   * before lower-case 'p'), and no other pair of kinds is strictly ordered.
   */
  lemma KindLessIsStringOrder(j: EventKind, k: EventKind)
    ensures KindLess(j, k) <==> StrLess(KindName(j), KindName(k))
  {
    if j == k {
      StrLessIrreflexive(KindName(j));
    } else {
      assert KindName(AmbulanceCompletion)[0] == 'A';
      assert KindName(PatientArrival)[0] == 'p';
    }
  }

  /** The payload comparison Python would make; two ints compare, `None` with `None` is equal. */
  predicate DataLess(a: Option<nat>, b: Option<nat>)
  {
    a.Some? && b.Some? && a.value < b.value
  }

  /** Python's tuple `<` on two events. */
  predicate EventLess(a: Event, b: Event)
  {
    || a.time < b.time
    || (a.time == b.time && KindLess(a.kind, b.kind))
    || (a.time == b.time && a.kind == b.kind && DataLess(a.data, b.data))
  }

  predicate EventLeq(a: Event, b: Event)
  {
    a == b || EventLess(a, b)
  }

  /** The payload matches the kind: an arrival carries `None`, a completion an ambulance id. */
  predicate WellFormed(e: Event)
  {
    e.data.None? <==> e.kind == PatientArrival
  }

  lemma EventLeqTime(a: Event, b: Event)
    requires EventLeq(a, b)
    ensures a.time <= b.time
  {
  }

  /**
   * Any two well-formed events are ordered: a same-time tie never reaches a
   * comparison of `None` with an int, because the kind decides first and
   * equal kinds carry payloads of one type.
   */
  lemma EventLeqTotal(a: Event, b: Event)
    requires WellFormed(a) && WellFormed(b)
    ensures EventLeq(a, b) || EventLeq(b, a)
  {
  }

  lemma EventLeqTransitive(a: Event, b: Event, c: Event)
    requires EventLeq(a, b) && EventLeq(b, c)
    ensures EventLeq(a, c)
  {
  }

  /** At equal times a completion leaves the heap before an arrival. */
  lemma CompletionBeforeArrival(t: real, id: nat)
    ensures EventLess(Event(t, AmbulanceCompletion, Some(id)), Event(t, PatientArrival, None))
    ensures !EventLeq(Event(t, PatientArrival, None), Event(t, AmbulanceCompletion, Some(id)))
  {
  }

  /** Each event is no later, in tuple order, than the next one. */
  ghost predicate Sorted(q: seq<Event>)
  {
    |q| < 2 || (EventLeq(q[0], q[1]) && Sorted(q[1..]))
  }

  ghost predicate AllWellFormed(q: seq<Event>)
  {
    |q| == 0 || (WellFormed(q[0]) && AllWellFormed(q[1..]))
  }

  /** A sorted heap's head is no later than any event in it. */
  lemma {:induction false} SortedHeadFirst(q: seq<Event>)
    requires Sorted(q) && q != []
    ensures forall i :: 0 <= i < |q| ==> EventLeq(q[0], q[i])
  {
    if |q| >= 2 {
      SortedHeadFirst(q[1..]);
      forall i | 1 <= i < |q| ensures EventLeq(q[0], q[i]) {
        assert q[i] == q[1..][i - 1];
        EventLeqTransitive(q[0], q[1], q[i]);
      }
    }
  }

  /** `heapq.heappush`: the heap gains exactly `e` and stays ordered. */
  function HeapPush(q: seq<Event>, e: Event): (r: seq<Event>)
    requires Sorted(q) && AllWellFormed(q) && WellFormed(e)
    ensures |r| == |q| + 1 && (r[0] == e || (|q| > 0 && r[0] == q[0]))
    ensures Sorted(r) && AllWellFormed(r)
    decreases |q|
  {
    if |q| == 0 then [e]
    else if EventLeq(e, q[0]) then
      assert ([e] + q)[1..] == q;
      [e] + q
    else
      var rest := HeapPush(q[1..], e);
      assert q == [q[0]] + q[1..];
      assert EventLeq(q[0], e) by { EventLeqTotal(e, q[0]); }
      assert ([q[0]] + rest)[1..] == rest;
      [q[0]] + rest
  }

  /** The pushed heap holds the old events plus `e`, nothing more and nothing less. */
  lemma {:induction false} HeapPushAddsEvent(q: seq<Event>, e: Event)
    requires Sorted(q) && AllWellFormed(q) && WellFormed(e)
    ensures multiset(HeapPush(q, e)) == multiset(q) + multiset{e}
    decreases |q|
  {
    if |q| > 0 && !EventLeq(e, q[0]) {
      HeapPushAddsEvent(q[1..], e);
      assert q == [q[0]] + q[1..];
    }
  }

  /** `heapq.heappop`: the head, and the rest of the heap, still ordered. */
  function HeapPop(q: seq<Event>): (r: (Event, seq<Event>))
    requires Sorted(q) && q != []
    ensures Sorted(r.1)
    ensures [r.0] + r.1 == q
  {
    assert q == [q[0]] + q[1..];
    (q[0], q[1..])
  }

  /** Popping splits the heap's events into the head and the rest. */
  lemma HeapPopRemovesHead(q: seq<Event>)
    requires Sorted(q) && q != []
    ensures multiset(q) == multiset{HeapPop(q).0} + multiset(HeapPop(q).1)
  {
    assert q == [q[0]] + q[1..];
  }

  /** The head of a sorted heap is no later than anything left behind by the pop. */
  lemma HeapPopHeadFirst(q: seq<Event>)
    requires Sorted(q) && q != []
    ensures forall i :: 0 <= i < |HeapPop(q).1| ==> EventLeq(HeapPop(q).0, HeapPop(q).1[i])
  {
    SortedHeadFirst(q);
    forall i | 0 <= i < |q| - 1 ensures EventLeq(q[0], q[1..][i]) {
      assert q[1..][i] == q[i + 1];
    }
  }

  /**
   * An event the engine may have pending at clock `now` with `fleetSize`
   * ambulances: not earlier than the clock, and a completion names one of
   * the ambulances.
   */
  predicate EventOk(e: Event, now: real, fleetSize: nat)
  {
    now <= e.time && (e.kind == AmbulanceCompletion ==> e.data.Some? && e.data.value < fleetSize)
  }

  ghost predicate AllEventsOk(q: seq<Event>, now: real, fleetSize: nat)
  {
    |q| == 0 || (EventOk(q[0], now, fleetSize) && AllEventsOk(q[1..], now, fleetSize))
  }

  /** What the engine keeps true of its heap at clock `now`. */
  ghost predicate QueueOk(q: seq<Event>, now: real, fleetSize: nat)
  {
    Sorted(q) && AllWellFormed(q) && AllEventsOk(q, now, fleetSize)
  }

  lemma {:induction false} AllEventsOkPush(q: seq<Event>, now: real, fleetSize: nat, e: Event)
    requires Sorted(q) && AllWellFormed(q) && WellFormed(e)
    requires AllEventsOk(q, now, fleetSize) && EventOk(e, now, fleetSize)
    ensures AllEventsOk(HeapPush(q, e), now, fleetSize)
    decreases |q|
  {
    if |q| > 0 && !EventLeq(e, q[0]) {
      AllEventsOkPush(q[1..], now, fleetSize, e);
      assert HeapPush(q, e)[1..] == HeapPush(q[1..], e);
    } else if |q| > 0 {
      assert HeapPush(q, e)[1..] == q;
    }
  }

  /** Scheduling an event that is fine at clock `now` keeps the heap in shape. */
  lemma PushKeepsQueueOk(q: seq<Event>, now: real, fleetSize: nat, e: Event)
    requires QueueOk(q, now, fleetSize) && WellFormed(e) && EventOk(e, now, fleetSize)
    ensures QueueOk(HeapPush(q, e), now, fleetSize)
  {
    AllEventsOkPush(q, now, fleetSize, e);
  }

  /** Events no earlier than `later` are fine at clock `later` too. */
  lemma {:induction false} AllEventsOkLater(q: seq<Event>, now: real, later: real, fleetSize: nat)
    requires AllEventsOk(q, now, fleetSize)
    requires forall i :: 0 <= i < |q| ==> later <= q[i].time
    ensures AllEventsOk(q, later, fleetSize)
  {
    if |q| > 0 {
      assert later <= q[0].time;
      forall i | 0 <= i < |q| - 1 ensures later <= q[1..][i].time {
        assert q[1..][i] == q[i + 1];
      }
      AllEventsOkLater(q[1..], now, later, fleetSize);
    }
  }

  /** Events fine at a later clock are fine at an earlier one. */
  lemma {:induction false} AllEventsOkEarlier(q: seq<Event>, now: real, later: real, fleetSize: nat)
    requires AllEventsOk(q, later, fleetSize) && now <= later
    ensures AllEventsOk(q, now, fleetSize)
  {
    if |q| > 0 {
      AllEventsOkEarlier(q[1..], now, later, fleetSize);
    }
  }

  /**
   * Popping gives an event that was fine at the clock, and advancing the
   * clock to its time leaves the rest of the heap in shape.
   */
  lemma PopKeepsQueueOk(q: seq<Event>, now: real, fleetSize: nat)
    requires QueueOk(q, now, fleetSize) && q != []
    ensures WellFormed(q[0]) && EventOk(q[0], now, fleetSize)
    ensures QueueOk(HeapPop(q).1, q[0].time, fleetSize)
  {
    SortedHeadFirst(q);
    forall i | 0 <= i < |q| - 1 ensures q[0].time <= q[1..][i].time {
      assert q[1..][i] == q[i + 1];
      EventLeqTime(q[0], q[i + 1]);
    }
    AllEventsOkLater(q[1..], now, q[0].time, fleetSize);
  }

  /** How many events of `kind` with payload `data` are pending. */
  function CountOf(q: seq<Event>, kind: EventKind, data: Option<nat>): nat
  {
    if |q| == 0 then 0
    else (if q[0].kind == kind && q[0].data == data then 1 else 0) + CountOf(q[1..], kind, data)
  }

  /** Pushing an event adds one to its own count and leaves every other count as it was. */
  lemma {:induction false} CountOfPush(q: seq<Event>, e: Event, kind: EventKind, data: Option<nat>)
    requires Sorted(q) && AllWellFormed(q) && WellFormed(e)
    ensures CountOf(HeapPush(q, e), kind, data)
         == CountOf(q, kind, data) + (if e.kind == kind && e.data == data then 1 else 0)
    decreases |q|
  {
    if |q| == 0 {
    } else if EventLeq(e, q[0]) {
      assert HeapPush(q, e)[1..] == q;
    } else {
      assert HeapPush(q, e)[1..] == HeapPush(q[1..], e);
      CountOfPush(q[1..], e, kind, data);
    }
  }

  /** The same, for every kind and payload at once. */
  lemma CountsAfterPush(q: seq<Event>, e: Event)
    requires Sorted(q) && AllWellFormed(q) && WellFormed(e)
    ensures forall kind, data ::
              (CountOf(HeapPush(q, e), kind, data)
               == CountOf(q, kind, data) + (if e.kind == kind && e.data == data then 1 else 0))
  {
    forall kind, data
      ensures CountOf(HeapPush(q, e), kind, data)
           == CountOf(q, kind, data) + (if e.kind == kind && e.data == data then 1 else 0)
    {
      CountOfPush(q, e, kind, data);
    }
  }

  /** Popping removes one from the count of the popped event's kind and payload only. */
  lemma CountOfPop(q: seq<Event>, kind: EventKind, data: Option<nat>)
    requires Sorted(q) && q != []
    ensures CountOf(HeapPop(q).1, kind, data)
         == CountOf(q, kind, data) - (if q[0].kind == kind && q[0].data == data then 1 else 0)
  {
  }
}
