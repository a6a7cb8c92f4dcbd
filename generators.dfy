/**
 * The patient record of Simulation/Patient.py and the generators of
 * Simulation.py that build one arrival: the patient's cell, its priority and
 * the service time of the dispatched ambulance. Every pseudo-random draw the
 * source makes is an input here, constrained to the range the library
 * documents.
 */
module Generators {
  import opened Grid

  datatype Priority = High | Low

  /** A patient: id, cell, priority and arrival time; built once per arrival and never changed. */
  datatype Patient = Patient(id: nat, location: Coord, priority: Priority, arrivalTime: real)

  /** `randint(0, rows - 1)` and `randint(0, cols - 1)` only produce cells inside the grid. */
  predicate InGrid(c: Coord, gridSize: GridSize)
  {
    0 <= c.row < gridSize.rows && 0 <= c.col < gridSize.cols
  }

  /** Some draw of the sequence lands on a cell that has service. */
  predicate HasServiceable(draws: seq<Coord>, noServiceCells: set<Coord>)
  {
    exists k :: 0 <= k < |draws| && draws[k] !in noServiceCells
  }

  /** The first drawn cell that has service, together with every draw before it having none. */
  function FirstServiceable(draws: seq<Coord>, noServiceCells: set<Coord>): (c: Coord)
    requires HasServiceable(draws, noServiceCells)
    ensures c !in noServiceCells
    ensures exists k :: 0 <= k < |draws| && draws[k] == c
                        && forall j :: 0 <= j < k ==> draws[j] in noServiceCells
  {
    if draws[0] !in noServiceCells then draws[0]
    else
      assert HasServiceable(draws[1..], noServiceCells) by {
        var k :| 0 <= k < |draws| && draws[k] !in noServiceCells;
        assert draws[1..][k - 1] == draws[k];
      }
      var c := FirstServiceable(draws[1..], noServiceCells);
      var k :| 0 <= k < |draws[1..]| && draws[1..][k] == c
               && forall j :: 0 <= j < k ==> draws[1..][j] in noServiceCells;
      assert draws[k + 1] == c;
      assert forall j :: 0 < j < k + 1 ==> draws[j] == draws[1..][j - 1];
      c
  }

  /**
   * `_generate_patient_location`: redraw a cell until it is not a no-service
   * cell. `draws` are the successive `(randint, randint)` pairs; the source
   * loops forever when every cell is excluded, so a serviceable draw must
   * exist.
   */
  method GeneratePatientLocation(gridSize: GridSize, noServiceCells: set<Coord>, draws: seq<Coord>)
    returns (location: Coord)
    requires forall k :: 0 <= k < |draws| ==> InGrid(draws[k], gridSize)
    requires HasServiceable(draws, noServiceCells)
    ensures location == FirstServiceable(draws, noServiceCells)
    ensures InGrid(location, gridSize) && location !in noServiceCells
  {
    var i := 0;
    while true
      invariant 0 <= i < |draws|
      invariant forall j :: 0 <= j < i ==> draws[j] in noServiceCells
      invariant HasServiceable(draws[i..], noServiceCells)
      invariant FirstServiceable(draws[i..], noServiceCells) == FirstServiceable(draws, noServiceCells)
      decreases |draws| - i
    {
      location := draws[i];
      if location !in noServiceCells {
        assert draws[i..][0] == location;
        return;
      }
      assert draws[i..][1..] == draws[i + 1..];
      i := i + 1;
    }
  }

  /** `_generate_patient_priority`: high exactly when the uniform draw in `[0, 1)` is below one half. */
  function GeneratePatientPriority(u: real): (p: Priority)
    requires 0.0 <= u < 1.0
    ensures p == High <==> u < 0.5
  {
    if u < 0.5 then High else Low
  }

  /**
   * `_generate_service_time`: the travel distance plus a non-negative
   * processing draw, so never shorter than the trip.
   */
  function GenerateServiceTime(ambulanceLocation: Coord, patientLocation: Coord, processingTime: real): (t: real)
    requires processingTime >= 0.0
    ensures t >= ManhattanDistance(ambulanceLocation, patientLocation) as real
  {
    ManhattanDistance(ambulanceLocation, patientLocation) as real + processingTime
  }

  /** The draws one arrival consumes, in the order the source makes them. */
  datatype ArrivalDraws = ArrivalDraws(
    locations: seq<Coord>,   // successive cells drawn until one has service
    priority: real,          // random.random()
    pick: nat,               // random.choice's index, before reduction modulo the list length
    processing: real,        // random.expovariate(0.5), the base service rate
    interArrival: real)      // random.expovariate(arr_rate) for the next arrival

  /** The draws lie in the ranges the random library produces, and a serviceable cell is drawn. */
  predicate DrawsFit(d: ArrivalDraws, gridSize: GridSize, noServiceCells: set<Coord>)
  {
    && (forall k :: 0 <= k < |d.locations| ==> InGrid(d.locations[k], gridSize))
    && HasServiceable(d.locations, noServiceCells)
    && 0.0 <= d.priority < 1.0
    && d.processing >= 0.0
    && d.interArrival >= 0.0
  }
}
