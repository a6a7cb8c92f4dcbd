/**
 * The dispatch policies of policies.py. A policy receives the grid shape,
 * the list of idle ambulances and the patient's cell, and returns one of the
 * listed ambulances or `None`. Policies only read the ambulances' constant
 * base locations, so none of them changes the list or any ambulance.
 */
module Policies {
  import opened Grid
  import opened Wrappers
  import opened Fleet

  /** The policies the repository supplies to the engine. */
  datatype Policy = ClosestPolicy | RandomPolicy

  /** Travel distance from an ambulance's base to the patient. */
  function TravelTime(a: Ambulance, customer: Coord): nat
  {
    ManhattanDistance(a.location, customer)
  }

  /** Reference definition: `k` is the earliest position holding the minimum travel distance. */
  predicate IsFirstClosest(s: seq<Ambulance>, customer: Coord, k: nat)
  {
    && k < |s|
    && (forall j :: 0 <= j < |s| ==> TravelTime(s[k], customer) <= TravelTime(s[j], customer))
    && (forall j :: 0 <= j < k ==> TravelTime(s[k], customer) < TravelTime(s[j], customer))
  }

  /**
   * The position the closest policy's scan settles on after looking at all of
   * `s`: a later ambulance replaces the current best only when strictly closer.
   */
  function ClosestIndex(s: seq<Ambulance>, customer: Coord): (r: Option<nat>)
    ensures r.None? <==> |s| == 0
    ensures r.Some? ==> r.value < |s|
    decreases |s|
  {
    if |s| == 0 then None
    else
      var last := |s| - 1;
      match ClosestIndex(s[..last], customer)
      case None => Some(last)
      case Some(k) =>
        if TravelTime(s[last], customer) < TravelTime(s[k], customer) then Some(last) else Some(k)
  }

  /** The scan picks the earliest ambulance among those at minimum distance. */
  lemma {:induction false} ClosestIndexIsFirstClosest(s: seq<Ambulance>, customer: Coord)
    requires |s| > 0
    ensures IsFirstClosest(s, customer, ClosestIndex(s, customer).value)
    decreases |s|
  {
    var last := |s| - 1;
    var prefix := s[..last];
    if last > 0 {
      ClosestIndexIsFirstClosest(prefix, customer);
      var k := ClosestIndex(prefix, customer).value;
      assert forall j :: 0 <= j < last ==> s[j] == prefix[j];
    }
  }

  /** At most one position is the earliest minimum. */
  lemma FirstClosestUnique(s: seq<Ambulance>, customer: Coord, k1: nat, k2: nat)
    requires IsFirstClosest(s, customer, k1) && IsFirstClosest(s, customer, k2)
    ensures k1 == k2
  {
    // Both are minima, so they are equally far; neither can then precede the other.
    assert TravelTime(s[k1], customer) == TravelTime(s[k2], customer);
  }

  /** The scan result and the reference definition agree in both directions. */
  lemma ClosestIndexCharacterized(s: seq<Ambulance>, customer: Coord, k: nat)
    ensures ClosestIndex(s, customer) == Some(k) <==> IsFirstClosest(s, customer, k)
  {
    if |s| > 0 {
      ClosestIndexIsFirstClosest(s, customer);
      if IsFirstClosest(s, customer, k) {
        FirstClosestUnique(s, customer, k, ClosestIndex(s, customer).value);
      }
    }
  }

  /**
   * The ambulance `dispatch_closest_ambulance` returns: none for an empty
   * list, otherwise a listed ambulance no farther than any listed one.
   */
  function Closest(s: seq<Ambulance>, customer: Coord): (r: Option<Ambulance>)
    ensures r.None? <==> |s| == 0
    ensures r.Some? ==> r.value in s
    ensures r.Some? ==> forall j :: 0 <= j < |s| ==> TravelTime(r.value, customer) <= TravelTime(s[j], customer)
  {
    match ClosestIndex(s, customer)
    case None => None
    case Some(k) =>
      ClosestIndexIsFirstClosest(s, customer);
      Some(s[k])
  }

  /** `min_travel_time`: a distance, or `float('inf')` before the first ambulance is seen. */
  datatype Bound = Finite(value: nat) | Infinity

  /** `travel_time < min_travel_time`; every distance is below infinity. */
  predicate Below(d: nat, b: Bound)
  {
    match b
    case Infinity => true
    case Finite(m) => d < m
  }

  /**
   * `dispatch_closest_ambulance`: `None` exactly for an empty list; otherwise a
   * listed ambulance no farther from the patient than any other listed one.
   */
  method DispatchClosestAmbulance(gridSize: GridSize, available: seq<Ambulance>, customer: Coord)
    returns (best: Option<Ambulance>)
    ensures best == Closest(available, customer)
    ensures best.None? <==> |available| == 0
    ensures best.Some? ==> best.value in available
    ensures best.Some? ==> forall a :: a in available ==> TravelTime(best.value, customer) <= TravelTime(a, customer)
  {
    if |available| == 0 {
      return None;
    }
    best := None;
    var minTravelTime := Infinity;
    for i := 0 to |available|
      invariant best == Closest(available[..i], customer)
      invariant minTravelTime == match best case None => Infinity case Some(b) => Finite(TravelTime(b, customer))
    {
      assert available[..i + 1][..i] == available[..i];
      var travelTime := TravelTime(available[i], customer);
      if Below(travelTime, minTravelTime) {
        minTravelTime := Finite(travelTime);
        best := Some(available[i]);
      }
    }
    assert available[..|available|] == available;
    ClosestIndexIsFirstClosest(available, customer);
  }

  /**
   * `dispatch_random_ambulance`: `random.choice` over the list, with the
   * index it draws given as `draw` reduced modulo the list length.
   */
  function DispatchRandomAmbulance(gridSize: GridSize, available: seq<Ambulance>, draw: nat): (r: Option<Ambulance>)
    ensures r.None? <==> |available| == 0
    ensures r.Some? ==> r.value in available
  {
    if |available| == 0 then None else Some(available[draw % |available|])
  }

  /**
   * What the injected policy returns: each supplied policy declines exactly
   * when nothing is idle and otherwise returns a listed ambulance, the
   * closest policy one no farther than any listed ambulance.
   */
  function Choice(policy: Policy, gridSize: GridSize, available: seq<Ambulance>, customer: Coord, draw: nat)
    : (r: Option<Ambulance>)
    ensures r.None? <==> |available| == 0
    ensures r.Some? ==> r.value in available
    ensures policy == ClosestPolicy && r.Some? ==>
              forall j :: 0 <= j < |available| ==> TravelTime(r.value, customer) <= TravelTime(available[j], customer)
  {
    match policy
    case ClosestPolicy => Closest(available, customer)
    case RandomPolicy => DispatchRandomAmbulance(gridSize, available, draw)
  }

  /** Calls the injected policy; each supplied policy declines exactly when nothing is idle. */
  method Dispatch(policy: Policy, gridSize: GridSize, available: seq<Ambulance>, customer: Coord, draw: nat)
    returns (chosen: Option<Ambulance>)
    ensures chosen == Choice(policy, gridSize, available, customer, draw)
    ensures chosen.None? <==> |available| == 0
    ensures chosen.Some? ==> chosen.value in available
  {
    match policy
    case ClosestPolicy =>
      chosen := DispatchClosestAmbulance(gridSize, available, customer);
    case RandomPolicy =>
      chosen := DispatchRandomAmbulance(gridSize, available, draw);
  }
}
