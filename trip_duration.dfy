// Total trip time at one constant cruising speed: driving time plus the time
// spent charging the energy the battery lacks, where every started battery's
// worth of missing energy costs one charging stop with a fixed time penalty.

module TripDuration {
  import opened Vehicle
  import opened Consumption
  import opened RealArith

  /** The least integer not below `x` (Python's `math.ceil`). */
  function Ceil(x: real): (n: int)
    ensures n as real - 1.0 < x <= n as real
  {
    -((-x).Floor)
  }

  /**
   * Energy [kWh] used for `distanceKm` km at `vKmh` km/h: the consumption per
   * 100 km scaled to the distance, never negative for a real car and trip.
   */
  function EnergyNeededKwh(car: Car, distanceKm: real, vKmh: real): (kwh: real)
    requires vKmh > 0.0 && car.eta > 0.0
    ensures car.PassiveResistance() && car.pAdditional >= 0 && distanceKm >= 0.0 ==> kwh >= 0.0
  {
    var per100Km := GetConsumption(car, KmhToMs(vKmh));
    ScaledEnergyNonNegative(per100Km, distanceKm);
    (per100Km * distanceKm) / 100.0
  }

  /** A non-negative consumption over a non-negative distance is a non-negative energy. */
  lemma ScaledEnergyNonNegative(per100Km: real, distanceKm: real)
    ensures per100Km >= 0.0 && distanceKm >= 0.0 ==> (per100Km * distanceKm) / 100.0 >= 0.0
  {
    if per100Km >= 0.0 && distanceKm >= 0.0 {
      MulMonotone(0.0, per100Km, distanceKm);
    }
  }

  /**
   * Energy [kWh] to charge on the way: what the trip needs plus the reserve
   * required on arrival, minus what the battery holds at departure, and never
   * less than zero.
   */
  function EnergyToChargeKwh(neededKwh: real, startKwh: real, endKwh: real): (e: real)
    ensures e >= 0.0
    ensures e == 0.0 <==> startKwh >= neededKwh + endKwh
    ensures e >= neededKwh + endKwh - startKwh
    ensures e > 0.0 ==> e == neededKwh + endKwh - startKwh
  {
    var deficit := neededKwh + endKwh - startKwh;
    if deficit > 0.0 then deficit else 0.0
  }

  /**
   * The energy deficit of `trip` driven at `vKmh` km/h: never negative, and
   * zero exactly when the charge at departure covers the trip and the reserve.
   */
  function DeficitKwh(car: Car, trip: Trip, vKmh: real): (e: real)
    requires vKmh > 0.0 && car.eta > 0.0
    ensures e >= 0.0
    ensures e == 0.0 <==>
      trip.socStart * car.capacity
        >= EnergyNeededKwh(car, trip.distanceKm, vKmh) + trip.socEnd * car.capacity
  {
    EnergyToChargeKwh(
      EnergyNeededKwh(car, trip.distanceKm, vKmh),
      trip.socStart * car.capacity,
      trip.socEnd * car.capacity)
  }

  /**
   * Number of charging stops for `energyToChargeKwh`: the least integer
   * number of full batteries that covers it.
   */
  function NumTimesCharging(energyToChargeKwh: real, capacity: real): (n: int)
    requires capacity > 0.0
    ensures n as real * capacity >= energyToChargeKwh
    ensures (n - 1) as real * capacity < energyToChargeKwh
  {
    var n := Ceil(energyToChargeKwh / capacity);
    ScaleCeilBounds(energyToChargeKwh, capacity, n);
    n
  }

  /** Multiplies the bounds of a ceiling `n` of `e / c` back by `c`. */
  lemma ScaleCeilBounds(e: real, c: real, n: int)
    requires c > 0.0
    requires n as real - 1.0 < e / c <= n as real
    ensures n as real * c >= e
    ensures (n - 1) as real * c < e
  {
    var q := e / c;
    assert q * c == e;
    var below := (n - 1) as real;
    assert below == n as real - 1.0;
    MulStrictlyMonotone(below, q, c);
    assert below * c < e;
    MulMonotone(q, n as real, c);
  }

  /**
   * Charging time [h] for `energyToChargeKwh`: transfer time plus
   * `penaltyPerStopH` for every stop, where stops count only when there is
   * something to charge.
   */
  function ChargingTimeH(car: Car, penaltyPerStopH: real, energyToChargeKwh: real): (h: real)
    requires car.Drivable()
    ensures energyToChargeKwh == 0.0 ==> h == 0.0
    ensures energyToChargeKwh > 0.0 && penaltyPerStopH >= 0.0 ==>
      h >= energyToChargeKwh / car.chargingPower as real + penaltyPerStopH
  {
    var numTimesCharging := NumTimesCharging(energyToChargeKwh, car.capacity);
    var penalty := StopPenaltyH(penaltyPerStopH, energyToChargeKwh, numTimesCharging);
    AtLeastOneStop(energyToChargeKwh, car.capacity, penaltyPerStopH);
    (energyToChargeKwh / car.chargingPower as real) + penalty
  }

  /**
   * Penalty time [h] of `stops` charging stops, charged only when there is
   * energy to charge: nothing without a deficit, and with a deficit at least
   * one penalty once there is at least one stop.
   */
  function StopPenaltyH(penaltyPerStopH: real, energyToChargeKwh: real, stops: int): (p: real)
    ensures energyToChargeKwh <= 0.0 ==> p == 0.0
    ensures penaltyPerStopH >= 0.0 && stops >= 0 ==> p >= 0.0
    ensures energyToChargeKwh > 0.0 && penaltyPerStopH >= 0.0 && stops >= 1 ==> p >= penaltyPerStopH
  {
    PenaltyPerStopBounds(penaltyPerStopH, stops);
    if energyToChargeKwh > 0.0 then
      penaltyPerStopH * stops as real
    else
      0.0
  }

  /**
   * A non-negative per-stop penalty over `stops` stops is non-negative, and at
   * least one penalty from the first stop on.
   */
  lemma PenaltyPerStopBounds(penaltyPerStopH: real, stops: int)
    ensures penaltyPerStopH >= 0.0 && stops >= 0 ==> penaltyPerStopH * stops as real >= 0.0
    ensures penaltyPerStopH >= 0.0 && stops >= 1 ==> penaltyPerStopH * stops as real >= penaltyPerStopH
  {
    if penaltyPerStopH >= 0.0 && stops >= 0 {
      MulMonotone(0.0, stops as real, penaltyPerStopH);
      if stops >= 1 {
        MulMonotone(1.0, stops as real, penaltyPerStopH);
      }
    }
  }

  /** More stops, or a first stop where there was none, never cost less penalty. */
  lemma StopPenaltyMonotone(penaltyPerStopH: real, e1: real, e2: real, n1: int, n2: int)
    requires penaltyPerStopH >= 0.0 && e1 <= e2 && n1 <= n2
    requires e2 > 0.0 ==> n2 >= 1
    ensures StopPenaltyH(penaltyPerStopH, e1, n1) <= StopPenaltyH(penaltyPerStopH, e2, n2)
  {
    if e1 > 0.0 {
      calc {
        StopPenaltyH(penaltyPerStopH, e1, n1);
        penaltyPerStopH * n1 as real;
      <= { MulMonotone(n1 as real, n2 as real, penaltyPerStopH); }
        penaltyPerStopH * n2 as real;
        StopPenaltyH(penaltyPerStopH, e2, n2);
      }
    } else if e2 > 0.0 {
      MulMonotone(0.0, n2 as real, penaltyPerStopH);
    }
  }

  /** Something to charge means at least one stop, so at least one penalty. */
  lemma AtLeastOneStop(e: real, capacity: real, penaltyPerStopH: real)
    requires capacity > 0.0
    ensures e > 0.0 ==> NumTimesCharging(e, capacity) >= 1
    ensures e > 0.0 && penaltyPerStopH >= 0.0 ==>
      penaltyPerStopH * NumTimesCharging(e, capacity) as real >= penaltyPerStopH
  {
    if e > 0.0 {
      var n := NumTimesCharging(e, capacity);
      MulCancelStrict(0.0, n as real, capacity);
      if penaltyPerStopH >= 0.0 {
        MulMonotone(1.0, n as real, penaltyPerStopH);
      }
    }
  }

  /**
   * Total duration [h] of `trip` at the constant speed `vKmh` [km/h]. With a
   * non-negative stop penalty it is never shorter than the pure driving time.
   */
  function GetTripDuration(car: Car, trip: Trip, vKmh: real): (t: real)
    requires vKmh > 0.0 && car.Drivable()
    ensures trip.chargingPenaltyTimeH >= 0.0 ==> t >= trip.distanceKm / vKmh
  {
    var drivingTimeH := trip.distanceKm / vKmh;
    var energyNeededKwh := EnergyNeededKwh(car, trip.distanceKm, vKmh);
    var energyStartKwh := trip.socStart * car.capacity;
    var energyEndKwh := trip.socEnd * car.capacity;
    var energyToChargeKwh := EnergyToChargeKwh(energyNeededKwh, energyStartKwh, energyEndKwh);
    ChargingTimeNonNegative(car, trip.chargingPenaltyTimeH, energyToChargeKwh);
    drivingTimeH + ChargingTimeH(car, trip.chargingPenaltyTimeH, energyToChargeKwh)
  }

  /** Charging never takes negative time when the stop penalty is not negative. */
  lemma ChargingTimeNonNegative(car: Car, penaltyPerStopH: real, e: real)
    requires car.Drivable() && e >= 0.0
    ensures penaltyPerStopH >= 0.0 ==> ChargingTimeH(car, penaltyPerStopH, e) >= 0.0
  {
    if e > 0.0 {
      var n := NumTimesCharging(e, car.capacity);
      assert n as real * car.capacity >= e;
      assert n >= 1;
    }
  }

  /** The stop count is the least integer `m` with `m * capacity >= e`. */
  lemma NumTimesChargingIsLeast(e: real, capacity: real, m: int)
    requires capacity > 0.0
    requires m as real * capacity >= e
    ensures NumTimesCharging(e, capacity) <= m
  {
    LeastMultiple(e, capacity, NumTimesCharging(e, capacity), m);
  }

  /** An integer `m` whose multiple covers what `n - 1` multiples do not is at least `n`. */
  lemma LeastMultiple(e: real, c: real, n: int, m: int)
    requires c > 0.0
    requires (n - 1) as real * c < e
    requires m as real * c >= e
    ensures n <= m
  {
    MulCancelStrict((n - 1) as real, m as real, c);
  }

  /** One and a half batteries need two stops; exactly one battery needs one. */
  lemma NumTimesChargingExamples(capacity: real)
    requires capacity > 0.0
    ensures NumTimesCharging(1.5 * capacity, capacity) == 2
    ensures NumTimesCharging(capacity, capacity) == 1
    ensures NumTimesCharging(0.0, capacity) == 0
  {
    assert (1.5 * capacity) / capacity == 1.5;
    assert capacity / capacity == 1.0;
  }

  /**
   * When the battery holds the trip's energy plus the arrival reserve, there is
   * no stop, no penalty and no charging time: the trip takes the driving time.
   */
  lemma NoDeficitMeansNoCharging(car: Car, trip: Trip, vKmh: real)
    requires vKmh > 0.0 && car.Drivable()
    requires trip.socStart * car.capacity
          >= EnergyNeededKwh(car, trip.distanceKm, vKmh) + trip.socEnd * car.capacity
    ensures DeficitKwh(car, trip, vKmh) == 0.0
    ensures NumTimesCharging(DeficitKwh(car, trip, vKmh), car.capacity) == 0
    ensures ChargingTimeH(car, trip.chargingPenaltyTimeH, DeficitKwh(car, trip, vKmh)) == 0.0
    ensures GetTripDuration(car, trip, vKmh) == trip.distanceKm / vKmh
  {
    assert DeficitKwh(car, trip, vKmh) == 0.0;
    NumTimesChargingIsLeast(0.0, car.capacity, 0);
  }

  /**
   * A positive deficit costs at least one stop, and every stop costs the
   * per-stop penalty.
   */
  lemma DeficitMeansStops(car: Car, trip: Trip, vKmh: real)
    requires vKmh > 0.0 && car.Drivable()
    requires trip.socStart * car.capacity
           < EnergyNeededKwh(car, trip.distanceKm, vKmh) + trip.socEnd * car.capacity
    ensures DeficitKwh(car, trip, vKmh) > 0.0
    ensures NumTimesCharging(DeficitKwh(car, trip, vKmh), car.capacity) >= 1
    ensures ChargingTimeH(car, trip.chargingPenaltyTimeH, DeficitKwh(car, trip, vKmh))
         == DeficitKwh(car, trip, vKmh) / car.chargingPower as real
          + trip.chargingPenaltyTimeH
            * NumTimesCharging(DeficitKwh(car, trip, vKmh), car.capacity) as real
  {
    AtLeastOneStop(DeficitKwh(car, trip, vKmh), car.capacity, trip.chargingPenaltyTimeH);
  }

  /** More energy to charge never means less charging time. */
  lemma ChargingTimeMonotone(car: Car, penaltyPerStopH: real, e1: real, e2: real)
    requires car.Drivable() && penaltyPerStopH >= 0.0
    requires 0.0 <= e1 <= e2
    ensures ChargingTimeH(car, penaltyPerStopH, e1) <= ChargingTimeH(car, penaltyPerStopH, e2)
  {
    var n1 := NumTimesCharging(e1, car.capacity);
    var n2 := NumTimesCharging(e2, car.capacity);
    NumTimesChargingIsLeast(e1, car.capacity, n2);
    DivMonotone(e1, e2, car.chargingPower as real);
    AtLeastOneStop(e2, car.capacity, penaltyPerStopH);
    StopPenaltyMonotone(penaltyPerStopH, e1, e2, n1, n2);
  }

  /** The trip takes its driving time plus the charging time of its deficit. */
  lemma DurationIsDrivingPlusCharging(car: Car, trip: Trip, vKmh: real)
    requires vKmh > 0.0 && car.Drivable()
    ensures GetTripDuration(car, trip, vKmh)
         == trip.distanceKm / vKmh
          + ChargingTimeH(car, trip.chargingPenaltyTimeH, DeficitKwh(car, trip, vKmh))
  {
  }

  /** Demanding a larger reserve on arrival never makes the trip shorter. */
  lemma LargerReserveNeverFaster(car: Car, trip: Trip, socEnd: real, vKmh: real)
    requires vKmh > 0.0 && car.Drivable() && trip.chargingPenaltyTimeH >= 0.0
    requires trip.socEnd <= socEnd
    ensures GetTripDuration(car, trip, vKmh) <= GetTripDuration(car, trip.(socEnd := socEnd), vKmh)
  {
    var later := trip.(socEnd := socEnd);
    var needed := EnergyNeededKwh(car, trip.distanceKm, vKmh);
    MulMonotone(trip.socEnd, socEnd, car.capacity);
    EnergyToChargeMonotone(needed, trip.socStart * car.capacity, trip.socEnd * car.capacity,
                           needed, trip.socStart * car.capacity, socEnd * car.capacity);
    ChargingTimeMonotone(car, trip.chargingPenaltyTimeH,
                         DeficitKwh(car, trip, vKmh), DeficitKwh(car, later, vKmh));
    DurationIsDrivingPlusCharging(car, trip, vKmh);
    DurationIsDrivingPlusCharging(car, later, vKmh);
  }

  /** Departing with more charge never makes the trip longer. */
  lemma FullerStartNeverSlower(car: Car, trip: Trip, socStart: real, vKmh: real)
    requires vKmh > 0.0 && car.Drivable() && trip.chargingPenaltyTimeH >= 0.0
    requires trip.socStart <= socStart
    ensures GetTripDuration(car, trip.(socStart := socStart), vKmh) <= GetTripDuration(car, trip, vKmh)
  {
    var fuller := trip.(socStart := socStart);
    var needed := EnergyNeededKwh(car, trip.distanceKm, vKmh);
    MulMonotone(trip.socStart, socStart, car.capacity);
    EnergyToChargeMonotone(needed, socStart * car.capacity, trip.socEnd * car.capacity,
                           needed, trip.socStart * car.capacity, trip.socEnd * car.capacity);
    ChargingTimeMonotone(car, trip.chargingPenaltyTimeH,
                         DeficitKwh(car, fuller, vKmh), DeficitKwh(car, trip, vKmh));
    DurationIsDrivingPlusCharging(car, trip, vKmh);
    DurationIsDrivingPlusCharging(car, fuller, vKmh);
  }

  /** A larger raw deficit never yields less energy to charge. */
  lemma EnergyToChargeMonotone(n1: real, s1: real, r1: real, n2: real, s2: real, r2: real)
    requires n1 + r1 - s1 <= n2 + r2 - s2
    ensures EnergyToChargeKwh(n1, s1, r1) <= EnergyToChargeKwh(n2, s2, r2)
  {
  }
}
