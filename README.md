# Ambulance dispatch simulation: a Dafny model

This project models the discrete-event engine of an ambulance-dispatch
simulation on a grid. Patients arrive at random cells. An injected dispatch
policy picks one of the idle ambulances, or declines when none is idle.
A dispatched ambulance stays busy for its service time: the Manhattan travel
distance plus a random processing time. A patient who finds no idle
ambulance is lost, because there is no waiting queue. The engine keeps:

- a clock;
- a heap of pending `(time, event_type, data)` events;
- arrival, loss and patient-id counters;
- per-ambulance busy-time totals and service-time lists;
- the fleet of `Ambulance` objects.

`run` pops events in time order until the horizon. `_get_results` reduces
the counters to a report with the loss rate and, per ambulance, the mean
service time and the utilization.

Modules, one per part of the program:

- `Grid` (grid.dfy): `GridHelper` of helper_functions.py. It covers the
  Manhattan distance and the row-major numbering of cells.
- `Fleet` (fleet.dfy): the `Ambulance` class of Ambulance.py. `isBusy` and
  `currentPatientLocation` are mutable fields. Every other field is a
  constant, because nothing writes it after construction.
- `Policies` (policies.py): `dispatch_closest_ambulance` is a loop method
  specified by a pure scan function. That function is proved equal to a
  reference "earliest among the nearest" definition.
  `dispatch_random_ambulance` is a function. `Policy` names the injected
  policy.
- `Generators` (generators.dfy): the patient record of
  Simulation/Patient.py and the three generators of Simulation.py. Every
  random draw is an input.
- `Events` (events.dfy): the heap as a sorted sequence under Python's tuple
  order, with `heappush` as an ordered insertion and `heappop` as taking the
  head. The order of the two event-type strings is derived from Python's
  string comparison.
- `Results` (results.dfy): the arithmetic of `_get_results`.
- `Engine` (engine.dfy): the `Simulation` class.
  - Its methods update the fields and the ambulance objects in place, as
    the source does.
  - Each method that handles one step promises that the new `State()` is a
    ghost function of the old one: `ScheduleStep`, `ServiceStep`,
    `ArrivalStep`, `CompletionStep`, `EventStep` or `Discard`.
  - The loop of `run` promises that the new `State()`, the log of handled
    events and the event thrown away at the horizon are the outcome of
    `RunFrom` for the old state. `RunFrom` is defined by recursion on the
    fuel, one turn at a time, from `EventStep` and `Discard`. Lemmas about
    `RunFrom` state what the loop keeps, where it stops, the order of its
    log and its count of arrivals.
  - Lemmas prove that these functions keep `Consistent`. It says:
    - each ambulance's busy flag and patient location are set together;
    - a busy ambulance has exactly one pending completion and an idle one
      none;
    - exactly one arrival is pending;
    - every pending event is no earlier than the clock;
    - every busy-time total is the sum of its service-time list;
    - losses never exceed arrivals.

Three behaviours of the code that the model keeps as written:

- **Ties in the heap.** At equal times Python compares the event-type
  string before the payload. Equal strings carry payloads of one type:
  `None` for arrivals, an ambulance id for completions. So `None` is never
  compared with an integer, and `EventLeqTotal` proves the order total. At
  equal times a completion (`"AMBULANCE_COMPLETION"`) leaves the heap
  before an arrival (`"patient_ARRIVAL"`), because upper-case letters sort
  first.
- **Horizon zero.** With `sim_duration == 0` and at least one ambulance,
  `_get_results` raises ZeroDivisionError at Simulation.py:143. The model
  returns `Failure(DivisionByZero)` there.
- **Events at the horizon.** `run` handles an event whose time equals the
  horizon. The loop guard at Simulation.py:116, `current_time <
  sim_duration`, then stops the run, so at most one event exactly at the
  horizon is handled.

## Model

| member | source | states |
|---|---|---|
| Grid.ManhattanDistance | helper_functions.py:13-14 | The distance is a natural number, and it is zero exactly when the two cells are equal. |
| Grid.DistanceSymmetric | helper_functions.py:13-14 | The distance from a to b equals the distance from b to a. |
| Grid.TriangleInequality | helper_functions.py:13-14 | Going through a third cell is never shorter. |
| Grid.FloorDiv | helper_functions.py:10-11 | Python's floor quotient: for a positive divisor the remainder is in [0, b); for a negative one it is in (b, 0]. |
| Grid.IndexToCoordInverse | helper_functions.py:7-11 | For n > 0 and a column in [0, n), `index_to_coord(coord_to_index(x, y))` gives back (x, y). |
| Grid.CoordToIndex | helper_functions.py:7-8 | `x * n + y`, whose contract says that a cell of an n-by-n grid gets a number in [0, n*n). |
| Grid.IndexToCoord | helper_functions.py:10-11 | `divmod(index, n)`: numbering the result back gives the index, with the remainder in [0, n) for n > 0 and in (n, 0] for n < 0, as Python's divmod. |
| Fleet.Ambulance.constructor | Ambulance.py:2-8 | The id and location are stored as given. The ambulance starts idle with no patient. The record's own statistics start at 0.0 and empty. |
| Policies.ClosestIndex | policies.py:14-18 | The scan settles on no position exactly when the list is empty, and otherwise on a position inside the list. |
| Policies.ClosestIndexIsFirstClosest | policies.py:14-18 | Because the scan replaces only on a strictly smaller distance, it ends at a nearest ambulance that every earlier ambulance is strictly farther than. |
| Policies.FirstClosestUnique | policies.py:16-18 | Only one position can be the earliest nearest, so the tie-break is deterministic. |
| Policies.ClosestIndexCharacterized | policies.py:14-18 | The scan returns position k if and only if k is the earliest nearest position. |
| Policies.Closest | policies.py:5-20 | The ambulance at the scan's position: none exactly for an empty list, otherwise a listed ambulance no farther from the patient than any listed one. |
| Policies.DispatchClosestAmbulance | policies.py:5-20 | The loop returns the reference choice. That is `None` exactly for an empty list; otherwise a listed ambulance no farther from the patient than any listed one. Nothing is modified. |
| Policies.DispatchRandomAmbulance | policies.py:24-27 | `None` exactly for an empty list; otherwise a member of the list. |
| Policies.Choice | Simulation.py:86 | Each supplied policy declines exactly when the list of idle ambulances is empty, and otherwise returns one of them. Under the closest policy it is no farther than any listed ambulance. |
| Policies.Dispatch | Simulation.py:86 | Calling the injected policy returns what that policy specifies, with the same decline-iff-empty and membership guarantees. |
| Generators.FirstServiceable | Simulation.py:52-57 | The first serviceable draw is not a no-service cell, and every draw before it is one. |
| Generators.GeneratePatientLocation | Simulation.py:50-57 | The redraw loop returns the first serviceable drawn cell. That cell lies inside the grid and outside the no-service cells. |
| Generators.GeneratePatientPriority | Simulation.py:60-62 | The priority is high exactly when the uniform draw is below one half. |
| Generators.GenerateServiceTime | Simulation.py:65-71 | With a non-negative processing draw, the service time is at least the travel distance. |
| Events.KindLessIsStringOrder | Simulation.py:97 | Completions sort before arrivals exactly as Python orders the two event-type strings. |
| Events.EventLeqTotal | Simulation.py:117 | Any two well-formed events are comparable, so a tie never compares `None` with an integer. |
| Events.CompletionBeforeArrival | Simulation.py:117 | At equal times a completion is popped before an arrival. |
| Events.SortedHeadFirst | Simulation.py:117 | The head of the heap is the least event in tuple order. |
| Events.HeapPush | Simulation.py:46 | Pushing keeps the heap ordered and well-formed and adds one entry. The new head is the pushed event or the old head. |
| Events.HeapPushAddsEvent | Simulation.py:46 | After a push the heap holds exactly the old events plus the pushed one, as multisets. |
| Events.HeapPop | Simulation.py:117 | Popping returns the head and an ordered rest that together make up the heap. |
| Events.HeapPopRemovesHead | Simulation.py:117 | As multisets, the popped event and the rest make up the old heap. |
| Events.HeapPopHeadFirst | Simulation.py:117 | The popped event is no later, in tuple order, than anything left in the heap. |
| Events.PushKeepsQueueOk | Simulation.py:97 | Pushing an event at or after the clock that names a real ambulance keeps the heap ordered, well-formed and free of past events. |
| Events.PopKeepsQueueOk | Simulation.py:117-122 | The popped event is not before the clock. Moving the clock to its time leaves no pending event in the past. |
| Events.CountOfPush | Simulation.py:97 | A push raises the count of the pushed kind and payload by one and leaves every other count alone. |
| Events.CountsAfterPush | Simulation.py:46 | The same fact, for every kind and payload at once. |
| Events.CountOfPop | Simulation.py:117 | A pop lowers the count of the popped kind and payload by one and leaves every other count alone. |
| Results.SumAppend | Simulation.py:100-101 | Appending a service time raises the list's sum by that time. |
| Results.StatsOkElements | Simulation.py:100-101 | Under the statistics invariant, each ambulance's total is the sum of its own non-negative service times. |
| Results.ZeroStatsOk | Simulation.py:30-31 | Zero totals and empty lists satisfy the statistics invariant. |
| Results.RecordServiceKeepsStatsOk | Simulation.py:100-101 | Adding a non-negative service time to one ambulance's total and to its list keeps the invariant. |
| Results.Mean | Simulation.py:142 | The mean times the list length is the sum; the mean of an empty list is 0. |
| Results.MeanBounds | Simulation.py:142 | The mean of a non-empty list lies between any lower and upper bound of its elements. |
| Results.LossRate | Simulation.py:137 | 0 when nobody arrived. Otherwise the rate times the arrivals is the losses, and the rate is in [0, 1] when losses do not exceed arrivals. |
| Results.Utilization | Simulation.py:143 | Utilization times the horizon is 100 times the busy time. It is a percentage in [0, 100] when the busy time fits in the horizon. |
| Results.StatsOf | Simulation.py:141-151 | One ambulance's entry carries its id, location and busy time. Its mean service time is 0 when it served nobody, and otherwise times its number of services gives the sum of its service times. Its utilization times the horizon is 100 times its busy time. |
| Results.ReportOf | Simulation.py:131-152 | The report fails exactly for a zero horizon with a non-empty fleet. Otherwise it carries the policy name, the horizon and the counters. The loss rate is 0 with no arrivals and otherwise times the arrivals gives the losses. There is one entry per ambulance in fleet order, with that ambulance's id, location and busy time, a mean of 0 for an empty service list and otherwise the mean relation, and the utilization relation. |
| Engine.IdleOf | Simulation.py:83 | The list comprehension as a filter of the fleet in fleet order. It has no contract of its own; what it means is stated by the next three lemmas. |
| Engine.IdleOfAllOrNone | Simulation.py:83 | With nobody busy the policy is offered the whole fleet in order; with everybody busy, the empty list. |
| Engine.IdleOfExactlyIdle | Simulation.py:83 | Every listed ambulance is idle and sits at the position its id names, and every idle ambulance is listed. |
| Engine.IdleOfInFleetOrder | Simulation.py:83 | The idle list keeps the fleet's order: its ids strictly increase. |
| Engine.IdleOfEmpty | Simulation.py:83 | The idle list is empty exactly when every ambulance is busy. |
| Engine.NewPatient | Simulation.py:77-80 | The patient takes the current id counter and arrives at the current clock. Its cell is inside the grid and has service. Its priority is high exactly when the uniform draw is below one half. |
| Engine.Dispatched | Simulation.py:83-86 | The policy, offered the idle ambulances, returns nothing exactly when none is idle, and otherwise one of them. |
| Engine.Counted | Simulation.py:76-81 | The arrival count and the id counter each rise by one, so they stay equal when they were. Nothing else changes. |
| Engine.DispatchedIsIdle | Simulation.py:83-89 | The policy declines exactly when every ambulance is busy. Otherwise it returns an idle fleet member at the position its id names. |
| Engine.ScheduleStep | Simulation.py:43-46 | The heap gains one event, and no other part of the state changes. |
| Engine.ServiceStep | Simulation.py:90-101 | The fleet keeps its size. Its effect is stated by ServiceStepTouchesOnlyChosen, ServiceStepCounts and ServiceStepKeeps. |
| Engine.ServiceStepTouchesOnlyChosen | Simulation.py:90-101 | The chosen ambulance becomes busy at the patient's cell and its busy time grows by at least the travel distance. Every other ambulance's state and statistics, the clock and the counters stay as they were. |
| Engine.CompletionStep | Simulation.py:109-112 | The named ambulance becomes idle with no patient. Every other ambulance and every other field stay as they were. |
| Engine.Advance | Simulation.py:117-122 | The head is removed from the heap and the clock moves to its time. Nothing else changes. |
| Engine.Discard | Simulation.py:117-120 | The head is removed from the heap. The clock and everything else stay as they were. |
| Engine.EventStep | Simulation.py:117-127 | The clock lands on the popped event's time, the fleet keeps its size, and arrivals rise by one exactly when the event is an arrival. |
| Engine.Initial | Simulation.py:22-36 | The state is sized for n ambulances with an ordered heap. Every ambulance is idle with no service times, the clock and counters are zero, and exactly one arrival is pending. |
| Engine.Served | Simulation.py:89-104 | Serving or losing the patient keeps the fleet and statistics sized to the fleet and the heap ordered. |
| Engine.ArrivalStep | Simulation.py:75-107 | An arrival keeps the fleet's size. Its effects are stated by the lemmas below. |
| Engine.ScheduleStepCounts | Simulation.py:43-46 | Scheduling adds exactly one pending arrival and changes no other count. |
| Engine.ScheduleStepKeeps | Simulation.py:43-46 | With a non-negative gap, scheduling keeps the bookkeeping invariant, adds one pending arrival and leaves each completion count alone. |
| Engine.ServiceStepCounts | Simulation.py:96-97 | Starting a service adds exactly one completion for the chosen id and changes no other count. |
| Engine.ServiceStepKeeps | Simulation.py:90-101 | Serving with an idle ambulance keeps the bookkeeping invariant. Only that ambulance gains a pending completion, and the pending arrivals are untouched. |
| Engine.ServedKeeps | Simulation.py:89-104 | Whether the patient is served or lost, the bookkeeping invariant and the one-completion-per-busy-ambulance matching hold, and the pending arrivals are unchanged. |
| Engine.ArrivalStepKeeps | Simulation.py:75-107 | A whole arrival keeps bookkeeping and completion matching, and adds exactly one pending arrival. |
| Engine.AdvanceKeeps | Simulation.py:117-122 | The popped event is not before the clock. After moving the clock to it the bookkeeping holds, and only its own count drops, by one. |
| Engine.ArrivalEventKeepsConsistent | Simulation.py:124-125 | Handling a popped arrival keeps the engine consistent. |
| Engine.CompletionEventKeepsConsistent | Simulation.py:126-127 | A popped completion names a real ambulance that is busy, and freeing it keeps the engine consistent. |
| Engine.EventStepKeepsConsistent | Simulation.py:117-127 | One handled event keeps the engine consistent. The clock moves forward to the event's time, and arrivals rise by one exactly for an arrival event. |
| Engine.DiscardKeepsBookkeeping | Simulation.py:117-120 | Throwing away the popped event keeps the bookkeeping, and nothing left is earlier than it. |
| Engine.LogPrepends | Simulation.py:116-122 | Handling an event at or after the clock and within the horizon, while the clock is before the horizon, in front of a log that starts at that event's time, gives a log that starts at the old clock. |
| Engine.RunFrom | Simulation.py:116-127 | The loop of `run` by recursion on the fuel: it ends with an empty heap, at or after the horizon or out of fuel; otherwise it takes a `Turn`, which throws away an event later than the horizon and ends, or handles it by `EventStep` and goes on through `Continue`. It has no contract of its own; the RunFrom lemmas below state what it means. |
| Engine.ContinueFrom | Simulation.py:121-127 | The state after one handled event keeps the engine consistent, its clock is the event's time and not earlier than before, and the arrival count rises exactly for an arrival. The rest of the run goes on from it. |
| Engine.RunFromTurn | Simulation.py:116-127 | When the loop guard holds, an event later than the horizon ends the run with the state after the pop and that event thrown away. Otherwise the run is that event followed by the run from the state its handler leaves, which is consistent. |
| Engine.RunFromKeeps | Simulation.py:116-127 | A run keeps the bookkeeping invariant. It keeps the whole consistency invariant unless it threw an event away. A thrown-away event lies past the horizon and is no later than anything left in the heap. |
| Engine.RunFromStops | Simulation.py:116-120 | A run handles at most `fuel` events. Without a thrown-away event it stops only at the horizon, on an empty heap or out of fuel. Handling and throwing away nothing leaves the state as it was. A run starting at or after the horizon does nothing. When the loop guard holds and the earliest event is within the horizon, that event is the first handled. |
| Engine.RunFromLog | Simulation.py:116-122 | The clock never moves back, and the handled events form a log in time order between the starting clock and the horizon, of which only the last may sit at the horizon. |
| Engine.RunFromCounts | Simulation.py:116-125 | The arrival count rises by exactly the number of handled arrivals. |
| Engine.LogOkSorted | Simulation.py:116-122 | In a log built that way, any two handled events are in time order. |
| Engine.BookkeepingReport | Simulation.py:131-152 | For a state with sound bookkeeping, the report fails exactly for a zero horizon with a non-empty fleet. Otherwise the loss rate is in [0, 1], entry i is ambulance i's, its busy time is the sum of its service times, its mean times its service count is that busy time, and an ambulance that served nobody has busy time and mean 0. |
| Engine.InitialConsistent | Simulation.py:22-36 | The state after construction is consistent. The fleet is idle, counters and statistics are zero, and the first arrival is pending. |
| Engine.ArrivalLosesIffAllBusy | Simulation.py:89-104 | The loss count rises by one exactly when every ambulance is busy, and stays the same exactly when one is idle. |
| Engine.ArrivalDispatchesOneIdle | Simulation.py:83-101 | An arrival changes at most one ambulance. That ambulance was idle and becomes busy at the patient's cell, and one changes whenever one was idle. |
| Engine.ClosestPolicyPicksNearestIdle | Simulation.py:83-86 | Under the closest policy the dispatched ambulance is idle and no farther from the patient than any idle ambulance of the fleet. Every idle ambulance with a lower id is strictly farther, so ties go to the lowest id. |
| Engine.Simulation.constructor | Simulation.py:13-36 | For a positive arrival rate there is one fresh idle ambulance per location, with its position as id. The settings are stored. The state is the initial one with the first arrival scheduled, and the engine is valid. |
| Engine.Simulation.ScheduleNextArrival | Simulation.py:43-46 | The heap gains an arrival one gap after the clock, and nothing else changes. |
| Engine.Simulation.StartService | Simulation.py:90-101 | The chosen ambulance becomes busy at the patient's cell and its completion is pushed. Its total and list record the service time. The rest of the fleet and statistics is untouched. |
| Engine.Simulation.HandlePatientArrival | Simulation.py:75-107 | The new state is the arrival step of the old one, and the patient is built from the current counter, the first serviceable cell, the priority draw and the clock. |
| Engine.Simulation.ServeOrLose | Simulation.py:89-104 | With a chosen ambulance the new state is the service step of the old one. Without one, only the loss count changes, by one. |
| Engine.Simulation.HandleAmbulanceCompletion | Simulation.py:109-112 | Only the named ambulance changes: it becomes idle with no patient. |
| Engine.Simulation.ProcessNextEvent | Simulation.py:116-127 | The earliest event is popped. Past the horizon it is discarded, the clock stays put and no remaining event is earlier than it. Otherwise the clock moves to it and its handler runs, keeping the engine valid. |
| Engine.Simulation.TakeTurn | Simulation.py:116-127 | One pass of the loop is one turn of `RunFrom`. An event past the horizon ends the run with the new state and that event thrown away. Otherwise the engine stays valid and the run from the old state is the handled event followed by the run from the new one. |
| Engine.Simulation.RunEvents | Simulation.py:116-127 | The new state, the log of handled events and the event thrown away at the horizon are exactly what `RunFrom` gives for the old state with `maxSteps` fuel. |
| Engine.Simulation.Run | Simulation.py:115-129 | The new state, the log and the thrown-away event are what `RunFrom` gives. The bookkeeping holds, and without a thrown-away event the engine stays valid and stopped at the horizon, on an empty heap or out of fuel. A thrown-away event lies past the horizon. Handled events are pairwise in time order, within [start clock, horizon], and the arrival count rises by the handled arrivals. The result is the report of the final state: it fails exactly for a zero horizon with a non-empty fleet, and otherwise has a loss rate in [0, 1]. |
| Engine.Simulation.GetResults | Simulation.py:131-152 | The loop builds one stats entry per ambulance in fleet order and the loss rate, or stops with the division-by-zero error on a zero horizon. |

## Left out

- Pseudo-random generation (`random.expovariate`, `random.randint`, `random.random`, `random.choice`) is not modelled. Each arrival's draws are an `ArrivalDraws` value, constrained by `DrawsFit` to the ranges the library produces for the positive rates the source uses. `Run` takes them as `draws(n)` for the arrival that becomes patient `n`, and the constructor takes the first inter-arrival gap.
- `arrRate` and the processing rate 0.5 only parameterise those draws. For a positive rate every gap is non-negative, which is what `DrawsFit` and the constructor require of the gaps.
- Engine.Simulation.constructor: a non-positive `arr_rate` is not modelled. `random.expovariate(0)` raises ZeroDivisionError in `__init__` and in every arrival, and a negative rate gives negative gaps that would move the clock backwards. The constructor requires `arrRate > 0.0`, and `Valid` keeps it.
- `random.choice` is modelled as taking the element at `draw % len(list)`. Its uniformity is a property of the library.
- Engine.Simulation.Run: the source loop has no bound. The model takes a fuel `maxSteps` that caps the number of handled events. A run that stops for lack of fuel leaves the heap and clock where they are.
- Generators.GeneratePatientLocation: the source loops forever when every drawn cell is a no-service cell. The model requires the finite sequence of draws to contain a serviceable cell.
- Engine.Simulation.Run: the run requires every arrival's draws to fit (`DrawsFit` for every index), and those draws include a serviceable cell inside the grid. Two kinds of configuration therefore cannot be run in the model. The first is a grid with no rows or no columns, where `randint(0, -1)` raises ValueError at Simulation.py:53-54. The second is a grid whose every cell is a no-service cell, where the redraw loop never ends. Both are excluded even for a run that ends before it handles any arrival, for example when the first gap is past the horizon and Python returns a report with no arrivals. The same requirement is on `RunEvents`, `TakeTurn`, `ProcessNextEvent` and `HandlePatientArrival`.
- The dispatch function can be any callable in the source. The model injects only the two policies the repository supplies, through `Policy`.
- `dispatch_high_priority_first` (policies.py:42-59) is not modelled. It describes itself as not working, takes a different argument list from the one the engine calls with, and calls `dispatch_closest_ambulance` with its arguments in the wrong positions.
- `__repr__` of Ambulance.py and Simulation/Patient.py is left out, because it is presentation only.
- `self.grid_helper` and `GridHelper.n` are not modelled. The Manhattan distance does not depend on `n`, and the engine uses no other helper method. The `numpy` import is unused.
- Times, rates and averages are `real`. IEEE rounding, overflow to infinity and NaN are not modelled.
- Grid.IndexToCoord: `n == 0` raises ZeroDivisionError in Python. The model requires `n != 0` instead of returning an error, since nothing in the engine calls it.
- Engine.Simulation.HandleAmbulanceCompletion: the source raises IndexError for an id outside the fleet. The method requires a valid id instead, and the engine proves that every pending completion names one.
- Engine.Simulation.HandlePatientArrival returns the patient it builds so its contract can describe it; the source discards it. `StartService`, `ServeOrLose`, `ProcessNextEvent`, `TakeTurn` and `RunEvents` are named parts of `handle_patient_arrival` and `run`, not separate functions of the source.
- The `Ambulance` record's own `time_busy_total` and `service_times` are never updated by the engine, so the model keeps them as constants. The statistics live in the engine's per-id lists.
