/**
 * The `Simulation` class of Simulation.py: a discrete-event engine that owns
 * the clock, the pending-event heap, the arrival and loss counters, the
 * per-ambulance statistics and the fleet. Arrivals ask the injected dispatch
 * policy for an idle ambulance; completions free the ambulance again.
 *
 * The engine's changing state is also described as a value, `SimState`, and
 * each handler as a function from one such value to the next. The class's
 * methods change the objects step by step as the source does and promise
 * that the new state is the function of the old one; the lemmas state what
 * those functions keep true.
 */
module Engine {
  import opened Grid
  import opened Wrappers
  import opened Fleet
  import opened Policies
  import opened Events
  import opened Generators
  import opened Results

  /** The two fields of an `Ambulance` the engine writes. */
  datatype AmbulanceState = AmbulanceState(isBusy: bool, currentPatientLocation: Option<Coord>)

  /** The written fields of the fleet, read off the ambulance objects in fleet order. */
  function FleetState(s: seq<Ambulance>): seq<AmbulanceState>
    reads s
  {
    seq(|s|, i reads s requires 0 <= i < |s| => AmbulanceState(s[i].isBusy, s[i].currentPatientLocation))
  }

  /** `Ambulance(i, loc) for i, loc in enumerate(ambu_locations)`: each id is the ambulance's position. */
  predicate IdsArePositions(ambulances: seq<Ambulance>)
  {
    forall i :: 0 <= i < |ambulances| ==> ambulances[i].id == i
  }

  /**
   * `[amb for amb in self.ambulances if not amb.is_busy]`, given the fleet's
   * states: a filtered copy, so never longer than the fleet.
   */
  function IdleOf(ambulances: seq<Ambulance>, fleet: seq<AmbulanceState>): (r: seq<Ambulance>)
    requires |fleet| == |ambulances|
    decreases |ambulances|
  {
    if |ambulances| == 0 then []
    else
      var n := |ambulances| - 1;
      IdleOf(ambulances[..n], fleet[..n]) + (if fleet[n].isBusy then [] else [ambulances[n]])
  }

  /** With nobody busy the policy is offered the whole fleet in order; with everybody busy, nothing. */
  lemma {:induction false} IdleOfAllOrNone(ambulances: seq<Ambulance>, fleet: seq<AmbulanceState>)
    requires |fleet| == |ambulances|
    ensures (forall i :: 0 <= i < |fleet| ==> !fleet[i].isBusy) ==> IdleOf(ambulances, fleet) == ambulances
    ensures (forall i :: 0 <= i < |fleet| ==> fleet[i].isBusy) ==> IdleOf(ambulances, fleet) == []
    decreases |ambulances|
  {
    if |ambulances| > 0 {
      var n := |ambulances| - 1;
      IdleOfAllOrNone(ambulances[..n], fleet[..n]);
      assert ambulances == ambulances[..n] + [ambulances[n]];
    }
  }

  /** The list holds exactly the idle ambulances: each listed one is idle, each idle one is listed. */
  lemma {:induction false} IdleOfExactlyIdle(ambulances: seq<Ambulance>, fleet: seq<AmbulanceState>)
    requires |fleet| == |ambulances| && IdsArePositions(ambulances)
    ensures forall k :: 0 <= k < |IdleOf(ambulances, fleet)| ==>
              var a := IdleOf(ambulances, fleet)[k];
              a.id < |ambulances| && ambulances[a.id] == a && !fleet[a.id].isBusy
    ensures forall i :: 0 <= i < |ambulances| && !fleet[i].isBusy ==> ambulances[i] in IdleOf(ambulances, fleet)
    decreases |ambulances|
  {
    if |ambulances| > 0 {
      var n := |ambulances| - 1;
      var prefix, fleetPrefix := ambulances[..n], fleet[..n];
      IdleOfExactlyIdle(prefix, fleetPrefix);
      forall i | 0 <= i < n && !fleet[i].isBusy ensures ambulances[i] in IdleOf(ambulances, fleet) {
        assert prefix[i] == ambulances[i] && fleetPrefix[i] == fleet[i];
      }
    }
  }

  /** The list keeps the fleet's order: listed ids strictly increase. */
  lemma {:induction false} IdleOfInFleetOrder(ambulances: seq<Ambulance>, fleet: seq<AmbulanceState>)
    requires |fleet| == |ambulances| && IdsArePositions(ambulances)
    ensures forall k1, k2 :: 0 <= k1 < k2 < |IdleOf(ambulances, fleet)| ==>
              IdleOf(ambulances, fleet)[k1].id < IdleOf(ambulances, fleet)[k2].id
    decreases |ambulances|
  {
    if |ambulances| > 0 {
      var n := |ambulances| - 1;
      var prefix, fleetPrefix := ambulances[..n], fleet[..n];
      IdleOfInFleetOrder(prefix, fleetPrefix);
      IdleOfExactlyIdle(prefix, fleetPrefix);
    }
  }

  /** Nothing is listed exactly when every ambulance is busy. */
  lemma IdleOfEmpty(ambulances: seq<Ambulance>, fleet: seq<AmbulanceState>)
    requires |fleet| == |ambulances| && IdsArePositions(ambulances)
    ensures |IdleOf(ambulances, fleet)| == 0 <==> forall i :: 0 <= i < |ambulances| ==> fleet[i].isBusy
  {
    IdleOfExactlyIdle(ambulances, fleet);
    if |IdleOf(ambulances, fleet)| > 0 {
      var a := IdleOf(ambulances, fleet)[0];
      assert !fleet[a.id].isBusy;
    }
  }

  /** The settings the engine is built with and never changes. */
  datatype Config = Config(gridSize: GridSize, ambulances: seq<Ambulance>, simDuration: real,
                           noServiceCells: set<Coord>, dispatchFunction: Policy)

  /** The fields `Simulation` updates, with the fleet's written fields, as one value. */
  datatype SimState = SimState(
    currentTime: real,
    eventQueue: seq<Event>,
    patientIdCounter: nat,
    patientsLost: nat,
    totalPatientsArrived: nat,
    ambulanceTotalBusyTime: seq<real>,
    ambulanceServiceTimes: seq<seq<real>>,
    fleet: seq<AmbulanceState>)

  /** Per-ambulance lists of the fleet size `n`, and a heap the handlers can push onto. */
  ghost predicate Shaped(s: SimState, n: nat)
  {
    && |s.fleet| == n
    && |s.ambulanceTotalBusyTime| == n
    && |s.ambulanceServiceTimes| == n
    && Sorted(s.eventQueue)
    && AllWellFormed(s.eventQueue)
  }

  /**
   * What every step keeps: each ambulance's busy flag and patient location
   * are set together; each busy-time total is the sum of that ambulance's
   * non-negative service times; the heap is ordered, holds nothing earlier
   * than the clock, and its completions name real ambulances; patient ids
   * follow the arrival count; losses never exceed arrivals.
   */
  ghost predicate Bookkeeping(s: SimState, n: nat)
  {
    && Shaped(s, n)
    && (forall i :: 0 <= i < n ==> (s.fleet[i].isBusy <==> s.fleet[i].currentPatientLocation.Some?))
    && StatsOk(s.ambulanceTotalBusyTime, s.ambulanceServiceTimes, n)
    && QueueOk(s.eventQueue, s.currentTime, n)
    && s.patientIdCounter == s.totalPatientsArrived
    && s.patientsLost <= s.totalPatientsArrived
  }

  /** A busy ambulance has exactly one pending completion, an idle one none. */
  ghost predicate CompletionsMatch(s: SimState, n: nat)
    requires |s.fleet| == n
  {
    forall i :: 0 <= i < n ==>
      CountOf(s.eventQueue, AmbulanceCompletion, Some(i)) == if s.fleet[i].isBusy then 1 else 0
  }

  /** What holds between two events: the bookkeeping, matched completions, and exactly one pending arrival. */
  ghost predicate Consistent(s: SimState, n: nat)
  {
    && Bookkeeping(s, n)
    && CompletionsMatch(s, n)
    && CountOf(s.eventQueue, PatientArrival, None) == 1
  }

  /** `_schedule_next_arrival` with the drawn gap `interArrival`: the heap grows by one event, nothing else changes. */
  ghost function ScheduleStep(s: SimState, interArrival: real): (r: SimState)
    requires Sorted(s.eventQueue) && AllWellFormed(s.eventQueue)
    ensures |r.eventQueue| == |s.eventQueue| + 1
    ensures r.(eventQueue := s.eventQueue) == s
  {
    s.(eventQueue := HeapPush(s.eventQueue, Event(s.currentTime + interArrival, PatientArrival, None)))
  }

  /**
   * The dispatch branch of `handle_patient_arrival`: `amb` turns busy at the
   * patient's cell, its completion is pushed one service time after the
   * clock, and the service time is added to its statistics.
   */
  ghost function ServiceStep(s: SimState, amb: Ambulance, patientLocation: Coord, processingTime: real): (r: SimState)
    requires Shaped(s, |s.fleet|) && amb.id < |s.fleet| && processingTime >= 0.0
    ensures |r.fleet| == |s.fleet|
  {
    var id := amb.id;
    var serviceTime := GenerateServiceTime(amb.location, patientLocation, processingTime);
    s.(fleet := s.fleet[id := AmbulanceState(true, Some(patientLocation))],
       eventQueue := HeapPush(s.eventQueue, Event(s.currentTime + serviceTime, AmbulanceCompletion, Some(id))),
       ambulanceTotalBusyTime := s.ambulanceTotalBusyTime[id := s.ambulanceTotalBusyTime[id] + serviceTime],
       ambulanceServiceTimes := s.ambulanceServiceTimes[id := s.ambulanceServiceTimes[id] + [serviceTime]])
  }

  /**
   * Starting a service makes the chosen ambulance busy at the patient's cell
   * and adds at least the travel distance to its busy time; every other
   * ambulance's state and statistics, the clock and the counters stay as
   * they were.
   */
  lemma ServiceStepTouchesOnlyChosen(s: SimState, amb: Ambulance, patientLocation: Coord, processingTime: real)
    requires Shaped(s, |s.fleet|) && amb.id < |s.fleet| && processingTime >= 0.0
    ensures var r := ServiceStep(s, amb, patientLocation, processingTime);
            && r.fleet[amb.id] == AmbulanceState(true, Some(patientLocation))
            && r.ambulanceTotalBusyTime[amb.id]
               >= s.ambulanceTotalBusyTime[amb.id] + ManhattanDistance(amb.location, patientLocation) as real
            && r.currentTime == s.currentTime && r.totalPatientsArrived == s.totalPatientsArrived
            && r.patientsLost == s.patientsLost && r.patientIdCounter == s.patientIdCounter
    ensures forall i :: 0 <= i < |s.fleet| && i != amb.id ==>
              var r := ServiceStep(s, amb, patientLocation, processingTime);
              && r.fleet[i] == s.fleet[i]
              && r.ambulanceTotalBusyTime[i] == s.ambulanceTotalBusyTime[i]
              && r.ambulanceServiceTimes[i] == s.ambulanceServiceTimes[i]
  {
  }

  /**
   * The patient `handle_patient_arrival` builds from the draws `d`: it takes
   * the current id and arrives now, at a cell of the grid that has service,
   * with high priority exactly when the uniform draw is below one half.
   */
  ghost function NewPatient(c: Config, s: SimState, d: ArrivalDraws): (r: Patient)
    requires DrawsFit(d, c.gridSize, c.noServiceCells)
    ensures r.id == s.patientIdCounter && r.arrivalTime == s.currentTime
    ensures InGrid(r.location, c.gridSize) && r.location !in c.noServiceCells
    ensures r.priority == High <==> d.priority < 0.5
  {
    Patient(s.patientIdCounter, FirstServiceable(d.locations, c.noServiceCells),
            GeneratePatientPriority(d.priority), s.currentTime)
  }

  /**
   * What the injected policy returns for that patient, offered the idle
   * ambulances: nothing exactly when none is idle, otherwise one of them.
   */
  ghost function Dispatched(c: Config, s: SimState, d: ArrivalDraws): (r: Option<Ambulance>)
    requires |s.fleet| == |c.ambulances| && DrawsFit(d, c.gridSize, c.noServiceCells)
    ensures r.None? <==> IdleOf(c.ambulances, s.fleet) == []
    ensures r.Some? ==> r.value in IdleOf(c.ambulances, s.fleet)
  {
    Choice(c.dispatchFunction, c.gridSize, IdleOf(c.ambulances, s.fleet), NewPatient(c, s, d).location, d.pick)
  }

  /** A dispatched ambulance is an idle member of the fleet, found at the position its id names. */
  lemma DispatchedIsIdle(c: Config, s: SimState, d: ArrivalDraws)
    requires |s.fleet| == |c.ambulances| && IdsArePositions(c.ambulances)
    requires DrawsFit(d, c.gridSize, c.noServiceCells)
    ensures Dispatched(c, s, d).None? <==> forall i :: 0 <= i < |c.ambulances| ==> s.fleet[i].isBusy
    ensures Dispatched(c, s, d).Some? ==>
              var a := Dispatched(c, s, d).value;
              a.id < |c.ambulances| && c.ambulances[a.id] == a && !s.fleet[a.id].isBusy
  {
    var idle := IdleOf(c.ambulances, s.fleet);
    IdleOfExactlyIdle(c.ambulances, s.fleet);
    IdleOfEmpty(c.ambulances, s.fleet);
    if Dispatched(c, s, d).Some? {
      var k :| 0 <= k < |idle| && idle[k] == Dispatched(c, s, d).value;
    }
  }

  /**
   * The arrival counted: one more patient arrived and the id counter moves
   * on with it, so the two stay equal when they were; nothing else changes.
   */
  ghost function Counted(s: SimState): (r: SimState)
    ensures r.totalPatientsArrived == s.totalPatientsArrived + 1 && r.patientIdCounter == s.patientIdCounter + 1
    ensures s.patientIdCounter == s.totalPatientsArrived ==> r.patientIdCounter == r.totalPatientsArrived
    ensures r.(totalPatientsArrived := s.totalPatientsArrived, patientIdCounter := s.patientIdCounter) == s
  {
    s.(totalPatientsArrived := s.totalPatientsArrived + 1, patientIdCounter := s.patientIdCounter + 1)
  }

  /** The counted arrival served by the dispatched ambulance, or lost when the policy returns none. */
  ghost function Served(c: Config, s: SimState, d: ArrivalDraws): (r: SimState)
    requires Shaped(s, |c.ambulances|) && IdsArePositions(c.ambulances)
    requires DrawsFit(d, c.gridSize, c.noServiceCells)
    ensures Shaped(r, |c.ambulances|)
  {
    DispatchedIsIdle(c, s, d);
    match Dispatched(c, s, d)
    case Some(amb) => ServiceStep(Counted(s), amb, NewPatient(c, s, d).location, d.processing)
    case None => Counted(s).(patientsLost := s.patientsLost + 1)
  }

  /**
   * `handle_patient_arrival`: count the arrival, build the patient, offer the
   * idle ambulances to the policy, serve or lose the patient, and schedule
   * the next arrival.
   */
  ghost function ArrivalStep(c: Config, s: SimState, d: ArrivalDraws): (r: SimState)
    requires Shaped(s, |c.ambulances|) && IdsArePositions(c.ambulances)
    requires DrawsFit(d, c.gridSize, c.noServiceCells)
    ensures |r.fleet| == |s.fleet|
  {
    ScheduleStep(Served(c, s, d), d.interArrival)
  }

  /** `handle_ambulance_completion`: the named ambulance is idle again, with no patient; no other ambulance and no other field changes. */
  ghost function CompletionStep(s: SimState, ambulanceId: nat): (r: SimState)
    requires ambulanceId < |s.fleet|
    ensures |r.fleet| == |s.fleet| && r.fleet[ambulanceId] == AmbulanceState(false, None)
    ensures forall i :: 0 <= i < |s.fleet| && i != ambulanceId ==> r.fleet[i] == s.fleet[i]
    ensures r.(fleet := s.fleet) == s
  {
    s.(fleet := s.fleet[ambulanceId := AmbulanceState(false, None)])
  }

  /** `heappop`, then the clock moves to the popped event's time; nothing else changes. */
  ghost function Advance(s: SimState): (r: SimState)
    requires Sorted(s.eventQueue) && s.eventQueue != []
    ensures [s.eventQueue[0]] + r.eventQueue == s.eventQueue
    ensures r.currentTime == s.eventQueue[0].time
    ensures r.(eventQueue := s.eventQueue, currentTime := s.currentTime) == s
  {
    var popped := HeapPop(s.eventQueue);
    s.(eventQueue := popped.1, currentTime := popped.0.time)
  }

  lemma ScheduleStepCounts(s: SimState, interArrival: real)
    requires Sorted(s.eventQueue) && AllWellFormed(s.eventQueue)
    ensures forall kind, data ::
              (CountOf(ScheduleStep(s, interArrival).eventQueue, kind, data)
               == CountOf(s.eventQueue, kind, data) + (if kind == PatientArrival && data == None then 1 else 0))
  {
    var arrival := Event(s.currentTime + interArrival, PatientArrival, None);
    CountsAfterPush(s.eventQueue, arrival);
  }

  lemma ScheduleStepKeeps(s: SimState, n: nat, interArrival: real)
    requires Bookkeeping(s, n) && interArrival >= 0.0
    ensures Bookkeeping(ScheduleStep(s, interArrival), n)
    ensures CountOf(ScheduleStep(s, interArrival).eventQueue, PatientArrival, None)
         == CountOf(s.eventQueue, PatientArrival, None) + 1
    ensures forall i :: 0 <= i < n ==>
              (CountOf(ScheduleStep(s, interArrival).eventQueue, AmbulanceCompletion, Some(i))
               == CountOf(s.eventQueue, AmbulanceCompletion, Some(i)))
  {
    var arrival := Event(s.currentTime + interArrival, PatientArrival, None);
    PushKeepsQueueOk(s.eventQueue, s.currentTime, n, arrival);
    ScheduleStepCounts(s, interArrival);
  }

  lemma ServiceStepCounts(s: SimState, amb: Ambulance, patientLocation: Coord, processingTime: real)
    requires Shaped(s, |s.fleet|) && amb.id < |s.fleet| && processingTime >= 0.0
    ensures forall kind, data ::
              (CountOf(ServiceStep(s, amb, patientLocation, processingTime).eventQueue, kind, data)
               == CountOf(s.eventQueue, kind, data) + (if kind == AmbulanceCompletion && data == Some(amb.id) then 1 else 0))
  {
    var serviceTime := GenerateServiceTime(amb.location, patientLocation, processingTime);
    CountsAfterPush(s.eventQueue, Event(s.currentTime + serviceTime, AmbulanceCompletion, Some(amb.id)));
  }

  /**
   * Serving with an idle ambulance keeps the bookkeeping, gives that
   * ambulance exactly one more pending completion and leaves every other
   * count alone.
   */
  lemma ServiceStepKeeps(s: SimState, n: nat, amb: Ambulance, patientLocation: Coord, processingTime: real)
    requires Bookkeeping(s, n) && amb.id < n && !s.fleet[amb.id].isBusy && processingTime >= 0.0
    ensures Bookkeeping(ServiceStep(s, amb, patientLocation, processingTime), n)
    ensures CountOf(ServiceStep(s, amb, patientLocation, processingTime).eventQueue, PatientArrival, None)
         == CountOf(s.eventQueue, PatientArrival, None)
    ensures forall i :: 0 <= i < n ==>
              (CountOf(ServiceStep(s, amb, patientLocation, processingTime).eventQueue, AmbulanceCompletion, Some(i))
               == CountOf(s.eventQueue, AmbulanceCompletion, Some(i)) + (if i == amb.id then 1 else 0))
  {
    var serviceTime := GenerateServiceTime(amb.location, patientLocation, processingTime);
    var completion := Event(s.currentTime + serviceTime, AmbulanceCompletion, Some(amb.id));
    PushKeepsQueueOk(s.eventQueue, s.currentTime, n, completion);
    RecordServiceKeepsStatsOk(s.ambulanceTotalBusyTime, s.ambulanceServiceTimes, n, amb.id, serviceTime);
    ServiceStepCounts(s, amb, patientLocation, processingTime);
  }

  /**
   * An arrival keeps the bookkeeping and the matching of completions to busy
   * ambulances, and adds exactly one pending arrival.
   */
  lemma ServedKeeps(c: Config, s: SimState, d: ArrivalDraws)
    requires Bookkeeping(s, |c.ambulances|) && CompletionsMatch(s, |c.ambulances|)
    requires IdsArePositions(c.ambulances) && DrawsFit(d, c.gridSize, c.noServiceCells)
    ensures Bookkeeping(Served(c, s, d), |c.ambulances|)
    ensures CompletionsMatch(Served(c, s, d), |c.ambulances|)
    ensures CountOf(Served(c, s, d).eventQueue, PatientArrival, None) == CountOf(s.eventQueue, PatientArrival, None)
  {
    DispatchedIsIdle(c, s, d);
    match Dispatched(c, s, d)
    case Some(amb) =>
      ServiceStepKeeps(Counted(s), |c.ambulances|, amb, NewPatient(c, s, d).location, d.processing);
    case None =>
  }

  lemma ArrivalStepKeeps(c: Config, s: SimState, d: ArrivalDraws)
    requires Bookkeeping(s, |c.ambulances|) && CompletionsMatch(s, |c.ambulances|)
    requires IdsArePositions(c.ambulances) && DrawsFit(d, c.gridSize, c.noServiceCells)
    ensures Bookkeeping(ArrivalStep(c, s, d), |c.ambulances|)
    ensures CompletionsMatch(ArrivalStep(c, s, d), |c.ambulances|)
    ensures CountOf(ArrivalStep(c, s, d).eventQueue, PatientArrival, None)
         == CountOf(s.eventQueue, PatientArrival, None) + 1
  {
    ServedKeeps(c, s, d);
    ScheduleStepKeeps(Served(c, s, d), |c.ambulances|, d.interArrival);
  }

  /** Popping leaves the bookkeeping intact at the popped event's time and removes one count of its kind. */
  lemma AdvanceKeeps(s: SimState, n: nat)
    requires Bookkeeping(s, n) && s.eventQueue != []
    ensures s.currentTime <= s.eventQueue[0].time
    ensures WellFormed(s.eventQueue[0]) && EventOk(s.eventQueue[0], s.currentTime, n)
    ensures Bookkeeping(Advance(s), n)
    ensures forall kind, data ::
              (CountOf(Advance(s).eventQueue, kind, data)
               == CountOf(s.eventQueue, kind, data) - (if s.eventQueue[0].kind == kind && s.eventQueue[0].data == data then 1 else 0))
  {
    PopKeepsQueueOk(s.eventQueue, s.currentTime, n);
    forall kind, data
      ensures CountOf(Advance(s).eventQueue, kind, data)
           == CountOf(s.eventQueue, kind, data) - (if s.eventQueue[0].kind == kind && s.eventQueue[0].data == data then 1 else 0)
    {
      CountOfPop(s.eventQueue, kind, data);
    }
  }

  /** Handling the earliest event when it is an arrival keeps the engine consistent. */
  lemma ArrivalEventKeepsConsistent(c: Config, s: SimState, d: ArrivalDraws)
    requires Consistent(s, |c.ambulances|) && s.eventQueue != [] && s.eventQueue[0].kind == PatientArrival
    requires IdsArePositions(c.ambulances) && DrawsFit(d, c.gridSize, c.noServiceCells)
    ensures Bookkeeping(Advance(s), |c.ambulances|)
    ensures Consistent(ArrivalStep(c, Advance(s), d), |c.ambulances|)
  {
    AdvanceKeeps(s, |c.ambulances|);
    ArrivalStepKeeps(c, Advance(s), d);
  }

  /**
   * The earliest event, when a completion, names a busy ambulance; handling
   * it keeps the engine consistent.
   */
  lemma CompletionEventKeepsConsistent(s: SimState, n: nat)
    requires Consistent(s, n) && s.eventQueue != [] && s.eventQueue[0].kind == AmbulanceCompletion
    ensures s.eventQueue[0].data.Some? && s.eventQueue[0].data.value < n
    ensures s.fleet[s.eventQueue[0].data.value].isBusy
    ensures Bookkeeping(Advance(s), n)
    ensures Consistent(CompletionStep(Advance(s), s.eventQueue[0].data.value), n)
  {
    AdvanceKeeps(s, n);
    var id := s.eventQueue[0].data.value;
    assert CountOf(s.eventQueue, AmbulanceCompletion, Some(id)) >= 1;
  }

  /**
   * One turn of `run`'s loop within the horizon: pop the earliest event, move
   * the clock to it, and handle it. The clock lands on the event's time and
   * one more patient has arrived exactly when the event is an arrival.
   */
  ghost function EventStep(c: Config, s: SimState, d: ArrivalDraws): (r: SimState)
    requires Bookkeeping(s, |c.ambulances|) && IdsArePositions(c.ambulances) && s.eventQueue != []
    requires DrawsFit(d, c.gridSize, c.noServiceCells)
    ensures r.currentTime == s.eventQueue[0].time
    ensures |r.fleet| == |s.fleet|
    ensures r.totalPatientsArrived == s.totalPatientsArrived + (if s.eventQueue[0].kind == PatientArrival then 1 else 0)
  {
    AdvanceKeeps(s, |c.ambulances|);
    match s.eventQueue[0].kind
    case PatientArrival => ArrivalStep(c, Advance(s), d)
    case AmbulanceCompletion => CompletionStep(Advance(s), s.eventQueue[0].data.value)
  }

  /**
   * Handling the earliest event keeps the engine consistent, moves the clock
   * forward to that event's time, and counts one more arrival exactly when
   * the event is an arrival.
   */
  lemma EventStepKeepsConsistent(c: Config, s: SimState, d: ArrivalDraws)
    requires Consistent(s, |c.ambulances|) && IdsArePositions(c.ambulances) && s.eventQueue != []
    requires DrawsFit(d, c.gridSize, c.noServiceCells)
    ensures Consistent(EventStep(c, s, d), |c.ambulances|)
    ensures s.currentTime <= EventStep(c, s, d).currentTime == s.eventQueue[0].time
    ensures EventStep(c, s, d).totalPatientsArrived
         == s.totalPatientsArrived + (if s.eventQueue[0].kind == PatientArrival then 1 else 0)
  {
    AdvanceKeeps(s, |c.ambulances|);
    match s.eventQueue[0].kind
    case PatientArrival => ArrivalEventKeepsConsistent(c, s, d);
    case AmbulanceCompletion => CompletionEventKeepsConsistent(s, |c.ambulances|);
  }

  /** The earliest event popped and thrown away, the clock and everything else left where they were. */
  ghost function Discard(s: SimState): (r: SimState)
    requires Sorted(s.eventQueue) && s.eventQueue != []
    ensures [s.eventQueue[0]] + r.eventQueue == s.eventQueue
    ensures r.(eventQueue := s.eventQueue) == s
  {
    s.(eventQueue := HeapPop(s.eventQueue).1)
  }

  /**
   * Throwing the earliest event away leaves the bookkeeping intact, and no
   * event left behind is earlier than the one thrown away.
   */
  lemma DiscardKeepsBookkeeping(s: SimState, n: nat)
    requires Bookkeeping(s, n) && s.eventQueue != []
    ensures Bookkeeping(Discard(s), n)
    ensures forall i :: 0 <= i < |Discard(s).eventQueue| ==> s.eventQueue[0].time <= Discard(s).eventQueue[i].time
  {
    var q := s.eventQueue;
    PopKeepsQueueOk(q, s.currentTime, n);
    AllEventsOkEarlier(HeapPop(q).1, s.currentTime, q[0].time, n);
    HeapPopHeadFirst(q);
    forall i | 0 <= i < |HeapPop(q).1| ensures q[0].time <= HeapPop(q).1[i].time {
      EventLeqTime(q[0], HeapPop(q).1[i]);
    }
  }

  /**
   * A log of handled events, started with the clock at `start`, now at
   * `now`, horizon `horizon`: handled in time order, all between the start
   * and the clock, the clock at the last one, and only the last one may sit
   * exactly at the horizon.
   */
  ghost predicate LogOk(log: seq<Event>, start: real, now: real, horizon: real)
  {
    && (log == [] ==> now == start)
    && (log != [] ==> start < horizon && now == log[|log| - 1].time <= horizon)
    && (forall i :: 0 < i < |log| ==> log[i - 1].time <= log[i].time)
    && (forall i :: 0 <= i < |log| ==> start <= log[i].time <= now)
    && (forall i :: 0 <= i < |log| - 1 ==> log[i].time < horizon)
  }

  /** A handled event, at or after the clock and within the horizon while the clock is before it, put in front of the log of what follows it. */
  lemma LogPrepends(e: Event, log: seq<Event>, start: real, now: real, horizon: real)
    requires LogOk(log, e.time, now, horizon)
    requires start < horizon && start <= e.time <= horizon
    ensures LogOk([e] + log, start, now, horizon)
  {
  }

  /** A log kept in time order step by step is in time order between any two of its events. */
  lemma {:induction false} LogOkSorted(log: seq<Event>, start: real, now: real, horizon: real, i: nat, j: nat)
    requires LogOk(log, start, now, horizon) && i <= j < |log|
    ensures log[i].time <= log[j].time
    decreases j - i
  {
    if i < j {
      LogOkSorted(log, start, now, horizon, i, j - 1);
    }
  }

  /** What a run leaves: the final state, the handled events in order, and the event thrown away at the horizon, if any. */
  datatype RunOutcome = RunOutcome(final: SimState, handled: seq<Event>, discarded: Option<Event>)

  /** A run's outcome with the events handled before it put in front of its log. */
  ghost function Prepend(earlier: seq<Event>, r: RunOutcome): RunOutcome
  {
    r.(handled := earlier + r.handled)
  }

  /**
   * `run`'s loop from the state `s`, handling at most `fuel` events: while
   * the heap is non-empty and the clock is before the horizon, take a
   * `Turn`. The result is the final state, the handled events in the order
   * they were handled, and the event thrown away, if any.
   */
  ghost function RunFrom(c: Config, s: SimState, draws: nat -> ArrivalDraws, fuel: nat): RunOutcome
    requires Consistent(s, |c.ambulances|) && IdsArePositions(c.ambulances)
    requires forall k :: DrawsFit(draws(k), c.gridSize, c.noServiceCells)
    decreases fuel, 2
  {
    if s.eventQueue == [] || c.simDuration <= s.currentTime || fuel == 0 then RunOutcome(s, [], None)
    else Turn(c, s, draws, fuel)
  }

  /**
   * One turn of `run`'s loop and the rest of the run: pop the earliest
   * event; one later than the horizon is thrown away and ends the run, any
   * other is handled and the run goes on.
   */
  ghost function Turn(c: Config, s: SimState, draws: nat -> ArrivalDraws, fuel: nat): RunOutcome
    requires Consistent(s, |c.ambulances|) && IdsArePositions(c.ambulances)
    requires forall k :: DrawsFit(draws(k), c.gridSize, c.noServiceCells)
    requires s.eventQueue != [] && fuel > 0
    decreases fuel, 1
  {
    if c.simDuration < s.eventQueue[0].time then RunOutcome(Discard(s), [], Some(s.eventQueue[0]))
    else Prepend([s.eventQueue[0]], Continue(c, s, draws, fuel))
  }

  /**
   * The run after the earliest event is handled by `EventStep`, with the
   * draws of the patient it may bring.
   */
  ghost function Continue(c: Config, s: SimState, draws: nat -> ArrivalDraws, fuel: nat): RunOutcome
    requires Consistent(s, |c.ambulances|) && IdsArePositions(c.ambulances)
    requires forall k :: DrawsFit(draws(k), c.gridSize, c.noServiceCells)
    requires s.eventQueue != [] && fuel > 0
    decreases fuel, 0
  {
    var d := draws(s.totalPatientsArrived);
    EventStepKeepsConsistent(c, s, d);
    RunFrom(c, EventStep(c, s, d), draws, fuel - 1)
  }

  /**
   * The state `next` that `Continue` goes on from: it keeps the invariant,
   * its clock is the handled event's time, and the arrival count rises
   * exactly when that event is an arrival.
   */
  lemma ContinueFrom(c: Config, s: SimState, draws: nat -> ArrivalDraws, fuel: nat) returns (next: SimState)
    requires Consistent(s, |c.ambulances|) && IdsArePositions(c.ambulances)
    requires forall k :: DrawsFit(draws(k), c.gridSize, c.noServiceCells)
    requires s.eventQueue != [] && fuel > 0
    ensures Consistent(next, |c.ambulances|)
    ensures Continue(c, s, draws, fuel) == RunFrom(c, next, draws, fuel - 1)
    ensures s.currentTime <= next.currentTime == s.eventQueue[0].time
    ensures next.totalPatientsArrived == s.totalPatientsArrived + (if s.eventQueue[0].kind == PatientArrival then 1 else 0)
  {
    var d := draws(s.totalPatientsArrived);
    EventStepKeepsConsistent(c, s, d);
    next := EventStep(c, s, d);
  }

  /** Putting two stretches of log in front, one after the other. */
  lemma PrependTwice(a: seq<Event>, b: seq<Event>, r: RunOutcome)
    ensures Prepend(a, Prepend(b, r)) == Prepend(a + b, r)
  {
    assert a + (b + r.handled) == (a + b) + r.handled;
  }

  /**
   * A run that takes a turn, with `next` the state the turn leaves: it ends
   * on the earliest event when that is later than the horizon, and otherwise
   * handles it first and goes on from `next`.
   */
  lemma RunFromTurn(c: Config, s: SimState, next: SimState, draws: nat -> ArrivalDraws, fuel: nat)
    requires Consistent(s, |c.ambulances|) && IdsArePositions(c.ambulances)
    requires forall k :: DrawsFit(draws(k), c.gridSize, c.noServiceCells)
    requires s.eventQueue != [] && s.currentTime < c.simDuration && fuel > 0
    requires c.simDuration < s.eventQueue[0].time ==> next == Discard(s)
    requires s.eventQueue[0].time <= c.simDuration ==> next == EventStep(c, s, draws(s.totalPatientsArrived))
    ensures c.simDuration < s.eventQueue[0].time ==> RunFrom(c, s, draws, fuel) == RunOutcome(next, [], Some(s.eventQueue[0]))
    ensures s.eventQueue[0].time <= c.simDuration ==>
              && Consistent(next, |c.ambulances|)
              && RunFrom(c, s, draws, fuel) == Prepend([s.eventQueue[0]], RunFrom(c, next, draws, fuel - 1))
  {
    EventStepKeepsConsistent(c, s, draws(s.totalPatientsArrived));
    assert RunFrom(c, s, draws, fuel) == Turn(c, s, draws, fuel);
    if s.eventQueue[0].time <= c.simDuration {
      assert Turn(c, s, draws, fuel) == Prepend([s.eventQueue[0]], Continue(c, s, draws, fuel));
      assert Continue(c, s, draws, fuel) == RunFrom(c, next, draws, fuel - 1);
    }
  }

  /**
   * A run keeps the bookkeeping, and the whole `Consistent` invariant unless
   * it ended on an event later than the horizon; that event is then no later
   * than anything left in the heap.
   */
  lemma {:induction false} RunFromKeeps(c: Config, s: SimState, draws: nat -> ArrivalDraws, fuel: nat)
    requires Consistent(s, |c.ambulances|) && IdsArePositions(c.ambulances)
    requires forall k :: DrawsFit(draws(k), c.gridSize, c.noServiceCells)
    ensures var r := RunFrom(c, s, draws, fuel);
      && Bookkeeping(r.final, |c.ambulances|)
      && (r.discarded.None? ==> Consistent(r.final, |c.ambulances|))
      && (r.discarded.Some? ==> c.simDuration < r.discarded.value.time)
      && (r.discarded.Some? ==>
            forall i :: 0 <= i < |r.final.eventQueue| ==> r.discarded.value.time <= r.final.eventQueue[i].time)
    decreases fuel
  {
    if s.eventQueue == [] || c.simDuration <= s.currentTime || fuel == 0 {
    } else if c.simDuration < s.eventQueue[0].time {
      DiscardKeepsBookkeeping(s, |c.ambulances|);
    } else {
      var next := ContinueFrom(c, s, draws, fuel);
      RunFromKeeps(c, next, draws, fuel - 1);
    }
  }

  /**
   * Where a run stops: it handles at most `fuel` events, and without
   * throwing an event away it stops only at the horizon, on an empty heap or
   * out of fuel. A run that handles and throws away nothing leaves the state
   * as it was, one that starts at or after the horizon does nothing, and the
   * earliest event, when it is not later than the horizon, is the first one
   * handled.
   */
  lemma {:induction false} RunFromStops(c: Config, s: SimState, draws: nat -> ArrivalDraws, fuel: nat)
    requires Consistent(s, |c.ambulances|) && IdsArePositions(c.ambulances)
    requires forall k :: DrawsFit(draws(k), c.gridSize, c.noServiceCells)
    ensures var r := RunFrom(c, s, draws, fuel);
      && |r.handled| <= fuel
      && (r.discarded.None? ==> c.simDuration <= r.final.currentTime || |r.handled| == fuel || r.final.eventQueue == [])
      && (r.handled == [] && r.discarded.None? ==> r.final == s)
      && (c.simDuration <= s.currentTime ==> r.handled == [] && r.discarded.None?)
      && (s.eventQueue != [] && s.currentTime < c.simDuration && fuel > 0 && s.eventQueue[0].time <= c.simDuration ==>
            r.handled != [] && r.handled[0] == s.eventQueue[0])
    decreases fuel
  {
    if s.eventQueue == [] || c.simDuration <= s.currentTime || fuel == 0 {
    } else if c.simDuration < s.eventQueue[0].time {
    } else {
      var next := ContinueFrom(c, s, draws, fuel);
      RunFromStops(c, next, draws, fuel - 1);
    }
  }

  /**
   * The events a run handles form a log in time order, between the starting
   * clock and the final one, where only the last may sit at the horizon.
   */
  lemma {:induction false} RunFromLog(c: Config, s: SimState, draws: nat -> ArrivalDraws, fuel: nat)
    requires Consistent(s, |c.ambulances|) && IdsArePositions(c.ambulances)
    requires forall k :: DrawsFit(draws(k), c.gridSize, c.noServiceCells)
    ensures var r := RunFrom(c, s, draws, fuel);
      && s.currentTime <= r.final.currentTime
      && LogOk(r.handled, s.currentTime, r.final.currentTime, c.simDuration)
    decreases fuel
  {
    if s.eventQueue == [] || c.simDuration <= s.currentTime || fuel == 0 {
    } else if c.simDuration < s.eventQueue[0].time {
    } else {
      var next := ContinueFrom(c, s, draws, fuel);
      RunFromLog(c, next, draws, fuel - 1);
      var rest := RunFrom(c, next, draws, fuel - 1);
      LogPrepends(s.eventQueue[0], rest.handled, s.currentTime, rest.final.currentTime, c.simDuration);
    }
  }

  /** The arrival count rises by the number of handled arrivals. */
  lemma {:induction false} RunFromCounts(c: Config, s: SimState, draws: nat -> ArrivalDraws, fuel: nat)
    requires Consistent(s, |c.ambulances|) && IdsArePositions(c.ambulances)
    requires forall k :: DrawsFit(draws(k), c.gridSize, c.noServiceCells)
    ensures var r := RunFrom(c, s, draws, fuel);
      r.final.totalPatientsArrived == s.totalPatientsArrived + CountOf(r.handled, PatientArrival, None)
    decreases fuel
  {
    if s.eventQueue == [] || c.simDuration <= s.currentTime || fuel == 0 {
    } else if c.simDuration < s.eventQueue[0].time {
    } else {
      var next := ContinueFrom(c, s, draws, fuel);
      RunFromCounts(c, next, draws, fuel - 1);
      var rest := RunFrom(c, next, draws, fuel - 1);
      assert ([s.eventQueue[0]] + rest.handled)[1..] == rest.handled;
    }
  }

  /**
   * The report built from a state with sound bookkeeping: it fails exactly
   * when a non-empty fleet meets a zero horizon; otherwise the loss rate is a
   * fraction, entry `i` is ambulance `i`'s, its busy time is the sum of its
   * service times, and its mean service time times its number of services is
   * that busy time.
   */
  lemma BookkeepingReport(policyName: string, c: Config, s: SimState)
    requires Bookkeeping(s, |c.ambulances|) && IdsArePositions(c.ambulances)
    ensures var r := ReportOf(policyName, c.simDuration, s.totalPatientsArrived, s.patientsLost,
                              c.ambulances, s.ambulanceTotalBusyTime, s.ambulanceServiceTimes);
      && (r.Failure? <==> c.simDuration == 0.0 && |c.ambulances| > 0)
      && (r.Success? ==>
           && 0.0 <= r.value.patientLossRate <= 1.0
           && |r.value.ambulanceStats| == |c.ambulances|
           && forall i :: 0 <= i < |c.ambulances| ==>
                && r.value.ambulanceStats[i].ambulanceId == i
                && r.value.ambulanceStats[i].totalBusyTime == Sum(s.ambulanceServiceTimes[i])
                && r.value.ambulanceStats[i].averageServiceTime * |s.ambulanceServiceTimes[i]| as real
                   == r.value.ambulanceStats[i].totalBusyTime
                && (s.ambulanceServiceTimes[i] == [] ==>
                      r.value.ambulanceStats[i].totalBusyTime == 0.0 && r.value.ambulanceStats[i].averageServiceTime == 0.0))
  {
    var n := |c.ambulances|;
    forall i | 0 <= i < n ensures s.ambulanceTotalBusyTime[i] == Sum(s.ambulanceServiceTimes[i]) {
      StatsOkElements(s.ambulanceTotalBusyTime, s.ambulanceServiceTimes, n, i);
    }
  }

  /** The state `__init__` leaves: an idle fleet, zero counters and statistics, and the first arrival pending. */
  ghost function Initial(n: nat, firstInterArrival: real): (r: SimState)
    ensures Shaped(r, n)
    ensures forall i :: 0 <= i < n ==> !r.fleet[i].isBusy && r.ambulanceServiceTimes[i] == []
    ensures r.currentTime == 0.0 && r.totalPatientsArrived == 0 && r.patientsLost == 0
    ensures CountOf(r.eventQueue, PatientArrival, None) == 1
  {
    SimState(0.0, [Event(firstInterArrival, PatientArrival, None)], 0, 0, 0,
             seq(n, _ => 0.0), seq(n, _ => []), seq(n, _ => AmbulanceState(false, None)))
  }

  lemma InitialConsistent(n: nat, firstInterArrival: real)
    requires firstInterArrival >= 0.0
    ensures Consistent(Initial(n, firstInterArrival), n)
  {
    ZeroStatsOk(n);
    var q := [Event(firstInterArrival, PatientArrival, None)];
    assert q[1..] == [];
    assert AllEventsOk(q, 0.0, n);
  }

  /** A patient is lost exactly when every ambulance is busy; otherwise the loss count stays. */
  lemma ArrivalLosesIffAllBusy(c: Config, s: SimState, d: ArrivalDraws)
    requires Shaped(s, |c.ambulances|) && IdsArePositions(c.ambulances)
    requires DrawsFit(d, c.gridSize, c.noServiceCells)
    ensures (ArrivalStep(c, s, d).patientsLost == s.patientsLost + 1)
              <==> (forall i :: 0 <= i < |c.ambulances| ==> s.fleet[i].isBusy)
    ensures (ArrivalStep(c, s, d).patientsLost == s.patientsLost)
              <==> (exists i :: 0 <= i < |c.ambulances| && !s.fleet[i].isBusy)
  {
    DispatchedIsIdle(c, s, d);
  }

  /**
   * An arrival changes at most one ambulance: one that was idle, which
   * becomes busy at the patient's cell; and one changes whenever one was idle.
   */
  lemma ArrivalDispatchesOneIdle(c: Config, s: SimState, d: ArrivalDraws)
    requires Shaped(s, |c.ambulances|) && IdsArePositions(c.ambulances)
    requires DrawsFit(d, c.gridSize, c.noServiceCells)
    ensures var r := ArrivalStep(c, s, d);
            forall i :: 0 <= i < |c.ambulances| && r.fleet[i] != s.fleet[i] ==>
              && !s.fleet[i].isBusy
              && r.fleet[i] == AmbulanceState(true, Some(NewPatient(c, s, d).location))
              && forall j :: 0 <= j < |c.ambulances| && r.fleet[j] != s.fleet[j] ==> j == i
    ensures (exists i :: 0 <= i < |c.ambulances| && !s.fleet[i].isBusy) ==>
              exists i :: 0 <= i < |c.ambulances| && ArrivalStep(c, s, d).fleet[i] != s.fleet[i]
  {
    DispatchedIsIdle(c, s, d);
    if Dispatched(c, s, d).Some? {
      var a := Dispatched(c, s, d).value;
      assert ArrivalStep(c, s, d).fleet[a.id] == AmbulanceState(true, Some(NewPatient(c, s, d).location));
    }
  }

  /**
   * Under the closest policy the dispatched ambulance is, among the idle
   * ones, at the smallest distance to the patient, and every idle ambulance
   * of lower id is strictly farther: ties go to the lowest id.
   */
  lemma ClosestPolicyPicksNearestIdle(c: Config, s: SimState, d: ArrivalDraws)
    requires Shaped(s, |c.ambulances|) && IdsArePositions(c.ambulances)
    requires DrawsFit(d, c.gridSize, c.noServiceCells)
    requires c.dispatchFunction == ClosestPolicy && Dispatched(c, s, d).Some?
    ensures var a := Dispatched(c, s, d).value;
            var p := NewPatient(c, s, d).location;
            && a.id < |c.ambulances| && !s.fleet[a.id].isBusy
            && (forall i :: 0 <= i < |c.ambulances| && !s.fleet[i].isBusy ==>
                  ManhattanDistance(a.location, p) <= ManhattanDistance(c.ambulances[i].location, p))
            && (forall i :: 0 <= i < a.id && !s.fleet[i].isBusy ==>
                  ManhattanDistance(a.location, p) < ManhattanDistance(c.ambulances[i].location, p))
  {
    DispatchedIsIdle(c, s, d);
    var idle := IdleOf(c.ambulances, s.fleet);
    var p := NewPatient(c, s, d).location;
    IdleOfExactlyIdle(c.ambulances, s.fleet);
    IdleOfInFleetOrder(c.ambulances, s.fleet);
    ClosestIndexIsFirstClosest(idle, p);
    var j := ClosestIndex(idle, p).value;
    var a := Dispatched(c, s, d).value;
    assert a == idle[j];
    forall i | 0 <= i < |c.ambulances| && !s.fleet[i].isBusy
      ensures ManhattanDistance(a.location, p) <= ManhattanDistance(c.ambulances[i].location, p)
      ensures i < a.id ==> ManhattanDistance(a.location, p) < ManhattanDistance(c.ambulances[i].location, p)
    {
      var k :| 0 <= k < |idle| && idle[k] == c.ambulances[i];
      if i < a.id {
        // Listed ids increase, so the lower id sits earlier in the list.
        assert idle[k].id < idle[j].id;
        assert k < j;
      }
    }
  }

  class Simulation {
    const gridSize: GridSize
    const ambulances: seq<Ambulance>
    /** Rate of the exponential inter-arrival draws, which are inputs of this model; positive, so every gap is non-negative. */
    const arrRate: real
    const simDuration: real
    const noServiceCells: set<Coord>
    const dispatchFunction: Policy
    const policyName: string

    var currentTime: real
    var eventQueue: seq<Event>
    var patientIdCounter: nat
    var patientsLost: nat
    var totalPatientsArrived: nat
    var ambulanceTotalBusyTime: seq<real>
    var ambulanceServiceTimes: seq<seq<real>>

    ghost function Settings(): Config
    {
      Config(gridSize, ambulances, simDuration, noServiceCells, dispatchFunction)
    }

    ghost function State(): SimState
      reads this, ambulances
    {
      SimState(currentTime, eventQueue, patientIdCounter, patientsLost, totalPatientsArrived,
               ambulanceTotalBusyTime, ambulanceServiceTimes, FleetState(ambulances))
    }

    /** A positive arrival rate, the fleet numbered by position, and a consistent engine. */
    ghost predicate Valid()
      reads this, ambulances
    {
      arrRate > 0.0 && IdsArePositions(ambulances) && Consistent(State(), |ambulances|)
    }

    /**
     * `__init__`: one idle ambulance per given location, with the location's
     * position as its id; zeroed counters and statistics; and the first
     * arrival scheduled `firstInterArrival` after time 0.
     */
    constructor (gridSize: GridSize, ambuLocations: seq<Coord>, arrRate: real, simDuration: real,
                 noServiceCells: set<Coord>, dispatchFunction: Policy, firstInterArrival: real,
                 policyName: string := "Generic Policy")
      requires arrRate > 0.0 && firstInterArrival >= 0.0
      ensures Valid()
      ensures State() == Initial(|ambuLocations|, firstInterArrival)
      ensures this.gridSize == gridSize && this.arrRate == arrRate && this.simDuration == simDuration
      ensures this.noServiceCells == noServiceCells && this.dispatchFunction == dispatchFunction
      ensures this.policyName == policyName
      ensures |ambulances| == |ambuLocations|
      ensures forall i :: 0 <= i < |ambulances| ==> fresh(ambulances[i]) && ambulances[i].location == ambuLocations[i]
    {
      var fleet: seq<Ambulance> := [];
      for i := 0 to |ambuLocations|
        invariant |fleet| == i
        invariant forall k :: 0 <= k < i ==>
          && fresh(fleet[k]) && fleet[k].id == k && fleet[k].location == ambuLocations[k]
          && !fleet[k].isBusy && fleet[k].currentPatientLocation == None
      {
        var amb := new Ambulance(i, ambuLocations[i]);
        fleet := fleet + [amb];
      }
      this.gridSize := gridSize;
      ambulances := fleet;
      this.arrRate := arrRate;
      this.simDuration := simDuration;
      this.noServiceCells := noServiceCells;
      this.dispatchFunction := dispatchFunction;
      this.policyName := policyName;
      currentTime := 0.0;
      eventQueue := [];
      patientIdCounter := 0;
      patientsLost := 0;
      totalPatientsArrived := 0;
      ambulanceTotalBusyTime := seq(|ambuLocations|, _ => 0.0);
      ambulanceServiceTimes := seq(|ambuLocations|, _ => []);
      new;
      ScheduleNextArrival(firstInterArrival);
      assert FleetState(ambulances) == seq(|ambuLocations|, _ => AmbulanceState(false, None));
      InitialConsistent(|ambuLocations|, firstInterArrival);
    }

    /** `_schedule_next_arrival`: push an arrival `interArrival` after the clock. */
    method ScheduleNextArrival(interArrival: real)
      requires Sorted(eventQueue) && AllWellFormed(eventQueue)
      modifies this`eventQueue
      ensures State() == ScheduleStep(old(State()), interArrival)
    {
      var arrivalTime := currentTime + interArrival;
      eventQueue := HeapPush(eventQueue, Event(arrivalTime, PatientArrival, None));
    }

    /**
     * The body of the dispatch branch of `handle_patient_arrival`: the chosen
     * ambulance turns busy at the patient's cell, its completion is pushed,
     * and its statistics record the service time.
     */
    method StartService(amb: Ambulance, patientLocation: Coord, processingTime: real) returns (serviceTime: real)
      requires IdsArePositions(ambulances) && Shaped(State(), |ambulances|)
      requires amb in ambulances && processingTime >= 0.0
      modifies amb, this`eventQueue, this`ambulanceTotalBusyTime, this`ambulanceServiceTimes
      ensures amb.id < |ambulances| && ambulances[amb.id] == amb
      ensures State() == ServiceStep(old(State()), amb, patientLocation, processingTime)
      ensures serviceTime == GenerateServiceTime(amb.location, patientLocation, processingTime)
    {
      ghost var s0 := State();
      ghost var k :| 0 <= k < |ambulances| && ambulances[k] == amb;
      amb.isBusy := true;
      amb.currentPatientLocation := Some(patientLocation);
      forall i | 0 <= i < |ambulances| && i != k
        ensures FleetState(ambulances)[i] == s0.fleet[i]
      {
        assert ambulances[i].id != amb.id;
      }
      serviceTime := GenerateServiceTime(amb.location, patientLocation, processingTime);
      var completionTime := currentTime + serviceTime;
      eventQueue := HeapPush(eventQueue, Event(completionTime, AmbulanceCompletion, Some(amb.id)));
      ambulanceTotalBusyTime := ambulanceTotalBusyTime[amb.id := ambulanceTotalBusyTime[amb.id] + serviceTime];
      ambulanceServiceTimes := ambulanceServiceTimes[amb.id := ambulanceServiceTimes[amb.id] + [serviceTime]];
      ghost var r := ServiceStep(s0, amb, patientLocation, processingTime);
      assert r.eventQueue == eventQueue;
      assert r.fleet == FleetState(ambulances);
      assert r.ambulanceTotalBusyTime == ambulanceTotalBusyTime;
      assert r.ambulanceServiceTimes == ambulanceServiceTimes;
    }

    /**
     * `handle_patient_arrival`, with the draws of this arrival as `d`. The
     * patient it builds is returned so that callers can speak about it.
     */
    method HandlePatientArrival(d: ArrivalDraws) returns (patient: Patient)
      requires IdsArePositions(ambulances) && Shaped(State(), |ambulances|)
      requires DrawsFit(d, gridSize, noServiceCells)
      modifies this, ambulances
      ensures patient == NewPatient(Settings(), old(State()), d)
      ensures State() == ArrivalStep(Settings(), old(State()), d)
    {
      ghost var s0 := State();
      totalPatientsArrived := totalPatientsArrived + 1;
      var patientLocation := GeneratePatientLocation(gridSize, noServiceCells, d.locations);
      var patientPriority := GeneratePatientPriority(d.priority);
      patient := Patient(patientIdCounter, patientLocation, patientPriority, currentTime);
      patientIdCounter := patientIdCounter + 1;

      var availableAmbulances := IdleOf(ambulances, FleetState(ambulances));
      var chosenAmbulance := Dispatch(dispatchFunction, gridSize, availableAmbulances, patientLocation, d.pick);
      ghost var s1 := State();
      assert s1 == Counted(s0);
      assert chosenAmbulance == Dispatched(Settings(), s0, d);
      DispatchedIsIdle(Settings(), s0, d);
      ServeOrLose(chosenAmbulance, patientLocation, d.processing);
      assert State() == Served(Settings(), s0, d);
      ScheduleNextArrival(d.interArrival);
    }

    /**
     * The `if chosen_ambulance` branch of `handle_patient_arrival`: start the
     * chosen ambulance's service, or count the patient as lost.
     */
    method ServeOrLose(chosen: Option<Ambulance>, patientLocation: Coord, processingTime: real)
      requires IdsArePositions(ambulances) && Shaped(State(), |ambulances|) && processingTime >= 0.0
      requires chosen.Some? ==> chosen.value in ambulances
      modifies this, ambulances
      ensures chosen.Some? ==> State() == ServiceStep(old(State()), chosen.value, patientLocation, processingTime)
      ensures chosen.None? ==> State() == old(State()).(patientsLost := old(patientsLost) + 1)
    {
      match chosen {
        case Some(amb) =>
          var serviceTime := StartService(amb, patientLocation, processingTime);
        case None =>
          patientsLost := patientsLost + 1;
      }
    }

    /** `handle_ambulance_completion`: the named ambulance becomes idle with no patient; nothing else changes. */
    method HandleAmbulanceCompletion(ambulanceId: nat)
      requires IdsArePositions(ambulances) && ambulanceId < |ambulances|
      modifies ambulances[ambulanceId]
      ensures State() == CompletionStep(old(State()), ambulanceId)
    {
      ghost var fleet0 := FleetState(ambulances);
      var ambulance := ambulances[ambulanceId];
      ambulance.isBusy := false;
      ambulance.currentPatientLocation := None;
      forall i | 0 <= i < |ambulances| && i != ambulanceId
        ensures FleetState(ambulances)[i] == fleet0[i]
      {
        assert ambulances[i].id != ambulanceId;
      }
      assert FleetState(ambulances) == fleet0[ambulanceId := AmbulanceState(false, None)];
    }

    /**
     * One turn of `run`'s loop: pop the earliest event; past the horizon it
     * is thrown away, otherwise the clock moves to it and its handler runs.
     * `draws(n)` are the draws of the arrival that becomes patient `n`.
     */
    method ProcessNextEvent(draws: nat -> ArrivalDraws) returns (event: Event, pastHorizon: bool)
      requires Valid() && eventQueue != []
      requires forall n :: DrawsFit(draws(n), gridSize, noServiceCells)
      modifies this, ambulances
      ensures event == old(eventQueue)[0]
      ensures pastHorizon <==> simDuration < event.time
      ensures pastHorizon ==> State() == Discard(old(State()))
      ensures !pastHorizon ==> State() == EventStep(Settings(), old(State()), draws(old(totalPatientsArrived)))
      ensures !pastHorizon ==> Valid() && currentTime == event.time && old(currentTime) <= event.time
      ensures !pastHorizon ==> totalPatientsArrived == old(totalPatientsArrived) + (if event.kind == PatientArrival then 1 else 0)
      ensures pastHorizon ==> Bookkeeping(State(), |ambulances|) && currentTime == old(currentTime)
      ensures pastHorizon ==> forall i :: 0 <= i < |eventQueue| ==> event.time <= eventQueue[i].time
    {
      ghost var s00 := State();
      EventStepKeepsConsistent(Settings(), s00, draws(totalPatientsArrived));
      DiscardKeepsBookkeeping(s00, |ambulances|);
      ghost var s0 := State();
      AdvanceKeeps(s0, |ambulances|);
      var popped := HeapPop(eventQueue);
      event := popped.0;
      eventQueue := popped.1;
      pastHorizon := event.time > simDuration;
      if pastHorizon {
        return;
      }
      currentTime := event.time;
      assert State() == Advance(s0);
      match event.kind {
        case PatientArrival =>
          var patient := HandlePatientArrival(draws(totalPatientsArrived));
        case AmbulanceCompletion =>
          HandleAmbulanceCompletion(event.data.value);
      }
    }

    /**
     * One pass of `run`'s loop, as one turn of `RunFrom`: the event thrown
     * away ends the run; otherwise the run from the old state is the event
     * handled followed by the run from the new one.
     */
    method TakeTurn(draws: nat -> ArrivalDraws, ghost fuel: nat) returns (event: Event, pastHorizon: bool)
      requires Valid() && eventQueue != [] && currentTime < simDuration && fuel > 0
      requires forall n :: DrawsFit(draws(n), gridSize, noServiceCells)
      modifies this, ambulances
      ensures pastHorizon ==> RunFrom(Settings(), old(State()), draws, fuel) == RunOutcome(State(), [], Some(event))
      ensures !pastHorizon ==> Valid()
      ensures !pastHorizon ==>
                RunFrom(Settings(), old(State()), draws, fuel) == Prepend([event], RunFrom(Settings(), State(), draws, fuel - 1))
    {
      ghost var before := State();
      event, pastHorizon := ProcessNextEvent(draws);
      RunFromTurn(Settings(), before, State(), draws, fuel);
    }

    /**
     * The loop of `run`: handle events in heap order while the heap is
     * non-empty and the clock is before the horizon, stopping at (and
     * discarding) the first popped event later than the horizon. `maxSteps`
     * bounds the number of events handled. `processed` is the log of handled
     * events and `discarded` the event the horizon test threw away, if any;
     * with the new state they are what `RunFrom` gives for the old state.
     */
    method RunEvents(draws: nat -> ArrivalDraws, maxSteps: nat) returns (ghost processed: seq<Event>, ghost discarded: Option<Event>)
      requires Valid()
      requires forall n :: DrawsFit(draws(n), gridSize, noServiceCells)
      modifies this, ambulances
      ensures var r := RunFrom(Settings(), old(State()), draws, maxSteps);
              State() == r.final && processed == r.handled && discarded == r.discarded
    {
      ghost var s0 := State();
      processed := [];
      discarded := None;
      var fuel := maxSteps;
      while eventQueue != [] && currentTime < simDuration && fuel > 0
        invariant Valid() && discarded == None
        invariant RunFrom(Settings(), s0, draws, maxSteps) == Prepend(processed, RunFrom(Settings(), State(), draws, fuel))
        decreases fuel
      {
        var event, pastHorizon := TakeTurn(draws, fuel);
        if pastHorizon {
          discarded := Some(event);
          break;
        }
        PrependTwice(processed, [event], RunFrom(Settings(), State(), draws, fuel - 1));
        processed := processed + [event];
        fuel := fuel - 1;
      }
    }

    /**
     * `run`: the event loop, then the report of `_get_results` for the state
     * the loop leaves. The handled events come in time order, between the
     * starting clock and the horizon.
     */
    method Run(draws: nat -> ArrivalDraws, maxSteps: nat)
      returns (results: Result<Report, ResultsError>, ghost processed: seq<Event>, ghost discarded: Option<Event>)
      requires Valid()
      requires forall n :: DrawsFit(draws(n), gridSize, noServiceCells)
      modifies this, ambulances
      ensures var r := RunFrom(Settings(), old(State()), draws, maxSteps);
              State() == r.final && processed == r.handled && discarded == r.discarded
      ensures Bookkeeping(State(), |ambulances|)
      ensures discarded.None? ==> Valid()
      ensures discarded.None? ==> simDuration <= currentTime || eventQueue == [] || |processed| == maxSteps
      ensures discarded.Some? ==> simDuration < discarded.value.time
      ensures forall i, j :: 0 <= i <= j < |processed| ==> processed[i].time <= processed[j].time
      ensures forall i :: 0 <= i < |processed| ==> old(currentTime) <= processed[i].time <= simDuration
      ensures totalPatientsArrived == old(totalPatientsArrived) + CountOf(processed, PatientArrival, None)
      ensures results == ReportOf(policyName, simDuration, totalPatientsArrived, patientsLost,
                                  ambulances, ambulanceTotalBusyTime, ambulanceServiceTimes)
      ensures results.Failure? <==> simDuration == 0.0 && |ambulances| > 0
      ensures results.Success? ==> 0.0 <= results.value.patientLossRate <= 1.0
    {
      ghost var s0 := State();
      processed, discarded := RunEvents(draws, maxSteps);
      RunFromKeeps(Settings(), s0, draws, maxSteps);
      RunFromLog(Settings(), s0, draws, maxSteps);
      RunFromCounts(Settings(), s0, draws, maxSteps);
      RunFromStops(Settings(), s0, draws, maxSteps);
      BookkeepingReport(policyName, Settings(), State());
      forall i, j | 0 <= i <= j < |processed| ensures processed[i].time <= processed[j].time {
        LogOkSorted(processed, old(currentTime), currentTime, simDuration, i, j);
      }
      results := GetResults();
    }

    /**
     * `_get_results`: the counters and one stats entry per ambulance in
     * fleet order; Python raises ZeroDivisionError on the first entry when
     * the horizon is zero.
     */
    method GetResults() returns (results: Result<Report, ResultsError>)
      requires |ambulanceTotalBusyTime| == |ambulances| && |ambulanceServiceTimes| == |ambulances|
      ensures results == ReportOf(policyName, simDuration, totalPatientsArrived, patientsLost,
                                  ambulances, ambulanceTotalBusyTime, ambulanceServiceTimes)
    {
      var busyTimes, serviceTimes := ambulanceTotalBusyTime, ambulanceServiceTimes;
      var ambulanceStats: seq<AmbulanceStats> := [];
      for i := 0 to |ambulances|
        invariant simDuration != 0.0 || i == 0
        invariant |ambulanceStats| == i
        invariant forall k :: 0 <= k < i ==>
          ambulanceStats[k] == StatsOf(ambulances[k], busyTimes[k], serviceTimes[k], simDuration)
      {
        var amb := ambulances[i];
        var avgServiceTime := Mean(serviceTimes[i]);
        if simDuration == 0.0 {
          return Failure(DivisionByZero);
        }
        var utilization := Utilization(busyTimes[i], simDuration);
        ambulanceStats := ambulanceStats + [AmbulanceStats(amb.id, amb.location, busyTimes[i], avgServiceTime, utilization)];
      }
      var fleet := ambulances;
      assert ambulanceStats == seq(|fleet|, i requires 0 <= i < |fleet| =>
        StatsOf(fleet[i], busyTimes[i], serviceTimes[i], simDuration));
      var lossRate := LossRate(patientsLost, totalPatientsArrived);
      results := Success(Report(policyName, simDuration, totalPatientsArrived, patientsLost, lossRate, ambulanceStats));
    }
  }
}
