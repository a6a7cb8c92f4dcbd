/**
 * The reductions of `_get_results` in Simulation.py: loss rate, mean
 * service time and utilization, and the report built from the engine's
 * counters and per-ambulance statistics. Python's float division is real
 * division here.
 */
module Results {
  import opened Grid
  import opened Wrappers
  import opened Fleet

  /** Python's `sum` of a list of service times. */
  function Sum(s: seq<real>): real
  {
    if |s| == 0 then 0.0 else Sum(s[..|s| - 1]) + s[|s| - 1]
  }

  lemma SumAppend(s: seq<real>, x: real)
    ensures Sum(s + [x]) == Sum(s) + x
  {
    assert (s + [x])[..|s|] == s;
  }

  /** A sum of `n` values inside `[lo, hi]` lies inside `[n * lo, n * hi]`. */
  lemma {:induction false} SumBounds(s: seq<real>, lo: real, hi: real)
    requires forall k :: 0 <= k < |s| ==> lo <= s[k] <= hi
    ensures |s| as real * lo <= Sum(s) <= |s| as real * hi
    decreases |s|
  {
    if |s| > 0 {
      var n := (|s| - 1) as real;
      SumBounds(s[..|s| - 1], lo, hi);
      assert Sum(s) == Sum(s[..|s| - 1]) + s[|s| - 1];
      assert lo <= s[|s| - 1] <= hi;
      assert n + 1.0 == |s| as real;
      assert n * lo + lo == (n + 1.0) * lo;
      assert n * hi + hi == (n + 1.0) * hi;
    }
  }

  /** Every recorded service time is non-negative. */
  ghost predicate NonNegative(s: seq<real>)
  {
    forall k :: 0 <= k < |s| ==> s[k] >= 0.0
  }

  /**
   * The engine's per-ambulance statistics for a fleet of `n`: one busy-time
   * total and one service-time list per ambulance, each total the sum of its
   * list, and every recorded service time non-negative.
   */
  ghost predicate StatsOk(busyTimes: seq<real>, serviceTimes: seq<seq<real>>, n: nat)
  {
    && |busyTimes| == n
    && |serviceTimes| == n
    && (n == 0 ||
         (busyTimes[0] == Sum(serviceTimes[0])
          && NonNegative(serviceTimes[0])
          && StatsOk(busyTimes[1..], serviceTimes[1..], n - 1)))
  }

  /** Entry by entry: ambulance `i`'s total is the sum of its non-negative service times. */
  lemma {:induction false} StatsOkElements(busyTimes: seq<real>, serviceTimes: seq<seq<real>>, n: nat, i: nat)
    requires StatsOk(busyTimes, serviceTimes, n) && i < n
    ensures busyTimes[i] == Sum(serviceTimes[i]) && NonNegative(serviceTimes[i])
    decreases i
  {
    if i > 0 {
      StatsOkElements(busyTimes[1..], serviceTimes[1..], n - 1, i - 1);
    }
  }

  /** A fresh fleet: every total zero, every list empty. */
  lemma {:induction false} ZeroStatsOk(n: nat)
    ensures StatsOk(seq(n, _ => 0.0), seq(n, _ => []), n)
  {
    if n > 0 {
      ZeroStatsOk(n - 1);
      var busy: seq<real> := seq(n, _ => 0.0);
      var times: seq<seq<real>> := seq(n, _ => []);
      assert busy[1..] == seq(n - 1, _ => 0.0);
      assert times[1..] == seq(n - 1, _ => []);
    }
  }

  /** Adding a service time to one ambulance's total and to its list keeps the statistics in shape. */
  lemma {:induction false} RecordServiceKeepsStatsOk(busyTimes: seq<real>, serviceTimes: seq<seq<real>>, n: nat, id: nat, t: real)
    requires StatsOk(busyTimes, serviceTimes, n) && id < n && t >= 0.0
    ensures StatsOk(busyTimes[id := busyTimes[id] + t], serviceTimes[id := serviceTimes[id] + [t]], n)
    decreases id
  {
    var busy' := busyTimes[id := busyTimes[id] + t];
    var times' := serviceTimes[id := serviceTimes[id] + [t]];
    if id == 0 {
      SumAppend(serviceTimes[0], t);
      assert busy'[1..] == busyTimes[1..];
      assert times'[1..] == serviceTimes[1..];
    } else {
      RecordServiceKeepsStatsOk(busyTimes[1..], serviceTimes[1..], n - 1, id - 1, t);
      assert busy'[1..] == busyTimes[1..][id - 1 := busyTimes[id] + t];
      assert times'[1..] == serviceTimes[1..][id - 1 := serviceTimes[id] + [t]];
    }
  }

  /** `sum(xs) / len(xs) if xs else 0`. */
  function Mean(s: seq<real>): (m: real)
    ensures |s| > 0 ==> m * |s| as real == Sum(s)
    ensures |s| == 0 ==> m == 0.0
  {
    if |s| == 0 then 0.0 else Sum(s) / |s| as real
  }

  /** The mean of a non-empty list lies between any lower and upper bound of its elements. */
  lemma MeanBounds(s: seq<real>, lo: real, hi: real)
    requires |s| > 0
    requires forall k :: 0 <= k < |s| ==> lo <= s[k] <= hi
    ensures lo <= Mean(s) <= hi
  {
    SumBounds(s, lo, hi);
  }

  /** `patients_lost / total_patients_arrived`, or 0 when nobody arrived; a fraction when lost <= arrived. */
  function LossRate(lost: nat, arrived: nat): (r: real)
    ensures arrived == 0 ==> r == 0.0
    ensures arrived > 0 ==> r * arrived as real == lost as real
    ensures lost <= arrived ==> 0.0 <= r <= 1.0
  {
    if arrived > 0 then lost as real / arrived as real else 0.0
  }

  /** `busy_time / sim_duration * 100`: a percentage when the busy time fits in the horizon. */
  function Utilization(busyTime: real, simDuration: real): (u: real)
    requires simDuration != 0.0
    ensures u * simDuration == busyTime * 100.0
    ensures 0.0 <= busyTime <= simDuration ==> 0.0 <= u <= 100.0
  {
    (busyTime / simDuration) * 100.0
  }

  datatype AmbulanceStats = AmbulanceStats(
    ambulanceId: nat,
    location: Coord,
    totalBusyTime: real,
    averageServiceTime: real,
    utilization: real)

  datatype Report = Report(
    policyName: string,
    totalSimulationTime: real,
    totalPatientsArrived: nat,
    patientsLost: nat,
    patientLossRate: real,
    ambulanceStats: seq<AmbulanceStats>)

  /** The error Python raises from `_get_results`: `busy_time / sim_duration` with a zero horizon. */
  datatype ResultsError = DivisionByZero

  /**
   * One ambulance's entry of `ambulance_stats`: the ambulance's id, location
   * and busy time; a mean service time of 0 for an ambulance that served
   * nobody and otherwise one that times its number of services is the sum of
   * its service times; and its busy time as a percentage of the horizon.
   */
  function StatsOf(amb: Ambulance, busyTime: real, serviceTimes: seq<real>, simDuration: real): (r: AmbulanceStats)
    requires simDuration != 0.0
    ensures r.ambulanceId == amb.id && r.location == amb.location && r.totalBusyTime == busyTime
    ensures |serviceTimes| == 0 ==> r.averageServiceTime == 0.0
    ensures r.averageServiceTime * |serviceTimes| as real == Sum(serviceTimes)
    ensures r.utilization * simDuration == busyTime * 100.0
  {
    AmbulanceStats(amb.id, amb.location, busyTime, Mean(serviceTimes), Utilization(busyTime, simDuration))
  }

  /**
   * The whole report: it fails exactly when a non-empty fleet meets a zero
   * horizon; otherwise it carries the policy name, the horizon and the
   * counters, a loss rate that is 0 with no arrivals and otherwise times the
   * arrivals gives the losses, and one entry per ambulance in fleet order,
   * whose mean service time is 0 without services and otherwise times their
   * number gives the sum of its service times.
   */
  function ReportOf(policyName: string, simDuration: real, arrived: nat, lost: nat,
                    ambulances: seq<Ambulance>, busyTimes: seq<real>, serviceTimes: seq<seq<real>>)
    : (r: Result<Report, ResultsError>)
    requires |busyTimes| == |ambulances| && |serviceTimes| == |ambulances|
    ensures r.Failure? <==> simDuration == 0.0 && |ambulances| > 0
    ensures r.Success? ==>
              && r.value.policyName == policyName && r.value.totalSimulationTime == simDuration
              && r.value.totalPatientsArrived == arrived && r.value.patientsLost == lost
              && (arrived == 0 ==> r.value.patientLossRate == 0.0)
              && (arrived > 0 ==> r.value.patientLossRate * arrived as real == lost as real)
              && |r.value.ambulanceStats| == |ambulances|
              && forall i :: 0 <= i < |ambulances| ==>
                   && r.value.ambulanceStats[i].ambulanceId == ambulances[i].id
                   && r.value.ambulanceStats[i].location == ambulances[i].location
                   && r.value.ambulanceStats[i].totalBusyTime == busyTimes[i]
                   && (|serviceTimes[i]| == 0 ==> r.value.ambulanceStats[i].averageServiceTime == 0.0)
                   && r.value.ambulanceStats[i].averageServiceTime * |serviceTimes[i]| as real == Sum(serviceTimes[i])
                   && r.value.ambulanceStats[i].utilization * simDuration == busyTimes[i] * 100.0
  {
    if simDuration == 0.0 && |ambulances| > 0 then Failure(DivisionByZero)
    else
      Success(Report(policyName, simDuration, arrived, lost, LossRate(lost, arrived),
        seq(|ambulances|, i requires 0 <= i < |ambulances| =>
          StatsOf(ambulances[i], busyTimes[i], serviceTimes[i], simDuration))))
  }
}
