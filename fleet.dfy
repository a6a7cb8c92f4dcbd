/**
 * The ambulance record of Ambulance.py. The simulation engine writes only
 * `isBusy` and `currentPatientLocation`; identity, base location and the two
 * statistics fields the record declares are never written after construction,
 * so they are constants here.
 */
module Fleet {
  import opened Grid
  import opened Wrappers

  class Ambulance {
    const id: nat
    const location: Coord
    var isBusy: bool
    var currentPatientLocation: Option<Coord>
    /** Declared by the record but never updated: the engine keeps its own per-id statistics. */
    const timeBusyTotal: real
    const serviceTimes: seq<real>

    constructor (id: nat, location: Coord)
      ensures this.id == id && this.location == location
      ensures !isBusy && currentPatientLocation == None
      ensures timeBusyTotal == 0.0 && serviceTimes == []
    {
      this.id := id;
      this.location := location;
      isBusy := false;
      currentPatientLocation := None;
      timeBusyTotal := 0.0;
      serviceTimes := [];
    }
  }
}
