// Vehicle and trip records of the electric-vehicle trip-time model, the two
// physical constants the consumption formula uses, and the sample scenario of
// the program's driver. Every physical quantity is an exact `real`; the fields
// the source declares as integers (weight, auxiliary power, charging power)
// stay `int` and are converted where they enter the arithmetic.

module Vehicle {

  /** Air density [kg/m³]. */
  const AirDensity: real := 1.204

  /** Gravitational acceleration [m/s²]. */
  const Gravity: real := 9.81

  /**
   * Physical properties of a car:
   * weight [kg], frontal area [m²], powertrain efficiency eta [],
   * battery capacity [kWh], auxiliary power pAdditional [W],
   * air-resistance coefficient cw [], rolling-resistance coefficient cr [],
   * average charging power [kW].
   */
  datatype Car = Car(
    weight: int,
    area: real,
    eta: real,
    capacity: real,
    pAdditional: int,
    cw: real,
    cr: real,
    chargingPower: int)
  {
    /** The divisors of the trip-duration computation are positive. */
    predicate Drivable() {
      eta > 0.0 && capacity > 0.0 && chargingPower > 0
    }

    /** Rolling and air resistance cannot push the car forward. */
    predicate PassiveResistance() {
      cr >= 0.0 && weight >= 0 && cw >= 0.0 && area >= 0.0
    }
  }

  /**
   * One journey: its length [km], the time lost per charging stop [h], and the
   * state of charge at departure and the one required on arrival (fractions of
   * the battery capacity).
   */
  datatype Trip = Trip(
    distanceKm: real,
    chargingPenaltyTimeH: real,
    socStart: real,
    socEnd: real)

  /** The Mercedes CLA 250 of the driver script. */
  const Cla250: Car := Car(
    weight := 2055, area := 2.28, eta := 0.93, capacity := 85.0,
    pAdditional := 1300, cw := 0.21, cr := 0.006, chargingPower := 220)

  /** The Renault Zoe of the driver script. */
  const Zoe: Car := Car(
    weight := 1577, area := 2.27, eta := 0.85, capacity := 41.0,
    pAdditional := 1300, cw := 0.33, cr := 0.012, chargingPower := 22)

  /** The trip the driver script sweeps: 1000 km, 0.2 h per stop, full to 5 %. */
  const SampleTrip: Trip := Trip(
    distanceKm := 1000.0, chargingPenaltyTimeH := 0.2, socStart := 1.0, socEnd := 0.05)
}
