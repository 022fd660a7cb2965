// Facts about the sample scenario of the driver script: the CLA 250, and the
// Renault Zoe it also defines, on a 1000 km trip, departing full and arriving
// with at least 5 % charge.

module Scenario {
  import opened Vehicle
  import opened Consumption
  import opened TripDuration

  /** At 120 km/h the CLA 250 uses between 14.2 and 14.3 kWh per 100 km. */
  lemma SampleConsumptionAt120()
    ensures 14.2 < GetConsumption(Cla250, KmhToMs(120.0)) < 14.3
  {
    ConsumptionIsForceTimesDistance(Cla250, KmhToMs(120.0));
    assert KmhToMs(120.0) == 100.0 / 3.0;
  }

  /**
   * On the sample trip at 120 km/h the battery lacks about 62 kWh, which is
   * less than one battery: exactly one charging stop is needed, so the trip
   * takes longer than its 8⅓ hours of driving (about 8.8 hours in all).
   */
  lemma SampleTripAt120NeedsOneStop()
    ensures 61.0 < DeficitKwh(Cla250, SampleTrip, 120.0) < 62.0
    ensures NumTimesCharging(DeficitKwh(Cla250, SampleTrip, 120.0), Cla250.capacity) == 1
    ensures 8.8 < GetTripDuration(Cla250, SampleTrip, 120.0) < 8.9
    ensures GetTripDuration(Cla250, SampleTrip, 120.0) > SampleTrip.distanceKm / 120.0
  {
    SampleConsumptionAt120();
    var e := DeficitKwh(Cla250, SampleTrip, 120.0);
    NumTimesChargingIsLeast(e, Cla250.capacity, 1);
  }

  /**
   * The Zoe's small battery and slow charging: on the sample trip at 100 km/h it
   * uses 18.7–18.8 kWh per 100 km and lacks 148–149 kWh, which takes four stops
   * (3.6 batteries), so the 10 hours of driving grow to about 17.5 hours.
   */
  lemma ZoeSampleTripAt100NeedsFourStops()
    ensures 18.7 < GetConsumption(Zoe, KmhToMs(100.0)) < 18.8
    ensures 148.0 < DeficitKwh(Zoe, SampleTrip, 100.0) < 149.0
    ensures NumTimesCharging(DeficitKwh(Zoe, SampleTrip, 100.0), Zoe.capacity) == 4
    ensures 17.5 < GetTripDuration(Zoe, SampleTrip, 100.0) < 17.6
  {
    ConsumptionIsForceTimesDistance(Zoe, KmhToMs(100.0));
    assert KmhToMs(100.0) == 250.0 / 9.0;
    var e := DeficitKwh(Zoe, SampleTrip, 100.0);
    NumTimesChargingIsLeast(e, Zoe.capacity, 4);
  }

  /**
   * Consumption is not monotone in speed: for the CLA 250 it still falls
   * between 45 and 46 km/h, where the auxiliary share, which shrinks with
   * speed, outweighs the growth of the aerodynamic share.
   */
  lemma ConsumptionFallsAtLowSpeed()
    ensures GetConsumption(Cla250, KmhToMs(46.0)) < GetConsumption(Cla250, KmhToMs(45.0))
  {
    ConsumptionIsForceTimesDistance(Cla250, KmhToMs(45.0));
    ConsumptionIsForceTimesDistance(Cla250, KmhToMs(46.0));
    assert KmhToMs(45.0) == 12.5;
    assert KmhToMs(46.0) == 115.0 / 9.0;
  }
}
