// The speed sweep: every integer cruising speed from 45 to 210 km/h is
// evaluated in ascending order, and speed, total trip time and consumption are
// appended to three parallel lists that the presentation layer plots.

module SpeedSweep {
  import opened Vehicle
  import opened Consumption
  import opened TripDuration

  /** Slowest speed of the sweep [km/h]. */
  const MinSpeedKmh: int := 45

  /** Fastest speed of the sweep [km/h]. */
  const MaxSpeedKmh: int := 210

  /** Number of speeds in the sweep. */
  const SweepLength: int := MaxSpeedKmh - MinSpeedKmh + 1

  /**
   * Evaluates `trip` for `car` at each speed of the sweep. Entry `i` of the
   * three lists belongs to speed 45 + i; the speeds strictly ascend, and with a
   * non-negative stop penalty no trip time is below its driving time.
   */
  method SweepSpeeds(car: Car, trip: Trip)
    returns (speedsKmh: seq<int>, timesH: seq<real>, consumptionsKwh100Km: seq<real>)
    requires car.Drivable()
    ensures |speedsKmh| == |timesH| == |consumptionsKwh100Km| == SweepLength
    ensures forall i :: 0 <= i < |speedsKmh| ==> speedsKmh[i] == MinSpeedKmh + i
    ensures forall i, j :: 0 <= i < j < |speedsKmh| ==> speedsKmh[i] < speedsKmh[j]
    ensures forall i :: 0 <= i < |timesH| ==>
      timesH[i] == GetTripDuration(car, trip, (MinSpeedKmh + i) as real)
    ensures forall i :: 0 <= i < |consumptionsKwh100Km| ==>
      consumptionsKwh100Km[i] == GetConsumption(car, KmhToMs((MinSpeedKmh + i) as real))
    ensures trip.chargingPenaltyTimeH >= 0.0 ==>
      forall i :: 0 <= i < |timesH| ==> timesH[i] >= trip.distanceKm / speedsKmh[i] as real
  {
    speedsKmh, timesH, consumptionsKwh100Km := [], [], [];
    for vKmh := MinSpeedKmh to MaxSpeedKmh + 1
      invariant |speedsKmh| == |timesH| == |consumptionsKwh100Km| == vKmh - MinSpeedKmh
      invariant forall i :: 0 <= i < |speedsKmh| ==> speedsKmh[i] == MinSpeedKmh + i
      invariant forall i :: 0 <= i < |timesH| ==>
        timesH[i] == GetTripDuration(car, trip, (MinSpeedKmh + i) as real)
      invariant forall i :: 0 <= i < |consumptionsKwh100Km| ==>
        consumptionsKwh100Km[i] == GetConsumption(car, KmhToMs((MinSpeedKmh + i) as real))
    {
      speedsKmh := speedsKmh + [vKmh];
      timesH := timesH + [GetTripDuration(car, trip, vKmh as real)];
      consumptionsKwh100Km := consumptionsKwh100Km + [GetConsumption(car, KmhToMs(vKmh as real))];
    }
  }
}
