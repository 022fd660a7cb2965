// The constant-speed consumption model: rolling-resistance power plus
// aerodynamic power, integrated over the time needed for 100 km, divided by the
// powertrain efficiency, plus the auxiliary consumers over the same time.

module Consumption {
  import opened Vehicle

  /** Converts a speed in km/h into m/s. */
  function KmhToMs(v: real): (r: real)
    ensures r * 3.6 == v
    ensures v > 0.0 ==> 0.0 < r < v
  {
    v / 3.6
  }

  /** Hours needed to cover 100 km at `vMs` m/s. */
  function Duration100KmH(vMs: real): (h: real)
    requires vMs > 0.0
    ensures h > 0.0
    ensures h * 3600.0 * vMs == 100000.0
  {
    ((1.0 / vMs) * 1000.0 * 100.0) / 3600.0
  }

  /** Rolling-resistance force [N]; it resists and never pushes. */
  function RollingForceN(car: Car): (f: real)
    ensures car.PassiveResistance() ==> f >= 0.0
  {
    car.cr * Gravity * car.weight as real
  }

  /** Aerodynamic drag force [N] at `vMs` m/s; it resists and never pushes. */
  function DragForceN(car: Car, vMs: real): (f: real)
    ensures car.PassiveResistance() ==> f >= 0.0
  {
    (AirDensity / 2.0) * vMs * vMs * car.cw * car.area
  }

  /** Drag grows with the square of the speed: `k` times faster, `k²` times the force. */
  lemma DragForceQuadratic(car: Car, vMs: real, k: real)
    ensures DragForceN(car, k * vMs) == k * k * DragForceN(car, vMs)
  {
    var c := (AirDensity / 2.0) * car.cw * car.area;
    assert DragForceN(car, vMs) == c * (vMs * vMs);
    assert DragForceN(car, k * vMs) == c * ((k * vMs) * (k * vMs));
    assert (k * vMs) * (k * vMs) == (k * k) * (vMs * vMs);
  }

  /**
   * Energy [kWh] needed for 100 km at the constant speed `vMs` [m/s].
   * The driving share is never negative, so the result is at least what the
   * auxiliary consumers draw during the 100 km.
   */
  function GetConsumption(car: Car, vMs: real): (kwh: real)
    requires vMs > 0.0 && car.eta > 0.0
    ensures car.PassiveResistance() ==>
      kwh >= car.pAdditional as real * Duration100KmH(vMs) / 1000.0
    ensures car.PassiveResistance() && car.pAdditional >= 0 ==> kwh >= 0.0
  {
    var pRoll := RollingForceN(car) * vMs;
    var fAir := DragForceN(car, vMs);
    var pAir := fAir * vMs;
    var duration100KmH := Duration100KmH(vMs);
    var drivingEnergyWh := ((pRoll + pAir) * duration100KmH) * (1.0 / car.eta);
    var totalEnergyWh := drivingEnergyWh + (car.pAdditional as real * duration100KmH);
    DrivingEnergyNonNegative(car, vMs, pRoll, pAir, duration100KmH);
    totalEnergyWh / 1000.0
  }

  /** With passive resistances, the driving energy over 100 km is non-negative. */
  lemma DrivingEnergyNonNegative(car: Car, vMs: real, pRoll: real, pAir: real, h: real)
    requires vMs > 0.0 && car.eta > 0.0 && h > 0.0
    requires pRoll == RollingForceN(car) * vMs
    requires pAir == DragForceN(car, vMs) * vMs
    ensures car.PassiveResistance() ==> ((pRoll + pAir) * h) * (1.0 / car.eta) >= 0.0
  {
    if car.PassiveResistance() {
      assert RollingForceN(car) >= 0.0;
      assert DragForceN(car, vMs) >= 0.0;
      assert pRoll + pAir >= 0.0;
      assert (pRoll + pAir) * h >= 0.0;
    }
  }

  /**
   * Energy for 100 km is force times distance: the resisting forces, divided by
   * the efficiency, plus the auxiliary power spread over the distance, each
   * working over 100 000 m, i.e. 1/36 kWh per newton.
   */
  lemma ConsumptionIsForceTimesDistance(car: Car, vMs: real)
    requires vMs > 0.0 && car.eta > 0.0
    ensures GetConsumption(car, vMs)
         == ((RollingForceN(car) + DragForceN(car, vMs)) / car.eta
             + car.pAdditional as real / vMs) / 36.0
  {
    var h := Duration100KmH(vMs);
    var f := RollingForceN(car) + DragForceN(car, vMs);
    var pRoll := RollingForceN(car) * vMs;
    var pAir := DragForceN(car, vMs) * vMs;
    assert pRoll + pAir == f * vMs;
    assert h * vMs == 100000.0 / 3600.0;
    calc {
      GetConsumption(car, vMs);
      ((pRoll + pAir) * h * (1.0 / car.eta) + car.pAdditional as real * h) / 1000.0;
      (f * (vMs * h) / car.eta + car.pAdditional as real * h) / 1000.0;
      (f * (100000.0 / 3600.0) / car.eta + car.pAdditional as real * h) / 1000.0;
      { assert h == (100000.0 / 3600.0) / vMs; }
      (f / car.eta + car.pAdditional as real / vMs) / 36.0;
    }
  }
}
