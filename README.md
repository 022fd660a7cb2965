# Electric-vehicle trip time over cruising speed — a Dafny model

The program estimates how long an electric car needs for a long trip when it
drives at one constant speed. The estimate has two parts: the driving time, and
the time spent charging the energy that the battery lacks. Each charging stop
adds a fixed penalty on top of the energy-transfer time. A sweep over every
integer speed from 45 to 210 km/h yields, per speed, the total trip time and
the consumption. A plotting layer then shows the trade-off.

The model covers the arithmetic core of `src/main.py`. Every physical quantity
is an exact `real`, except the three fields the source declares as integers
(weight, auxiliary power and charging power), which stay `int` and are
converted where they enter the arithmetic.

- `vehicle.dfy`, module `Vehicle`: the `Car` and `Trip` records and the two
  physical constants (air density 1.204 kg/m³, gravity 9.81 m/s²). It also holds
  the two cars and the trip of the driver script as sample values.
- `consumption.dfy`, module `Consumption`: `KmhToMs` and `GetConsumption`, the
  consumption in kWh per 100 km at constant speed. Rolling power plus air power,
  over the time needed for 100 km, is divided by the efficiency. The auxiliary
  power over the same time is then added.
- `trip_duration.dfy`, module `TripDuration`: the charging-stop rule and
  `GetTripDuration`. The deficit is `max(0, needed + reserve - start)`. The
  number of stops is the ceiling of the deficit over the capacity. The per-stop
  penalty applies only when the deficit is positive. Total time is driving
  time plus transfer time plus penalties.
- `speed_sweep.dfy`, module `SpeedSweep`: the loop of `plot_speed_vs_duration`.
  It is a method that appends to three parallel sequences, one entry per speed.
- `scenario.dfy`, module `Scenario`: facts about the driver script's sample
  1000 km trip. It covers the CLA 250 the script sweeps, and also the Renault Zoe
  it defines, whose deficit needs several stops.
- `real_arith.dfy`, module `RealArith`: monotonicity facts for real
  multiplication and division that the proofs cite.

The source validates nothing: a zero speed, efficiency, capacity or charging
power would simply divide by zero. The model therefore states these as
preconditions. `Car.Drivable()` asks for a positive efficiency, capacity and
charging power, and every speed must be positive. Sign assumptions that only
some properties need are stated on those properties alone. Examples are
`Car.PassiveResistance()` (non-negative resistance coefficients, weight and
area) and a non-negative stop penalty.

Three facts about the code are worth stating on their own:

- Consumption is not monotone in speed. The auxiliary share shrinks as speed
  rises, and at low speed it outweighs the growth of the aerodynamic share. For
  the CLA 250, consumption still falls from 45 to 46 km/h
  (`Scenario.ConsumptionFallsAtLowSpeed`).
- The CLA 250 at 120 km/h uses 14.2–14.3 kWh/100 km
  (`Scenario.SampleConsumptionAt120`).
- The sweep range is fixed at 45–210 km/h, with no range check.

## Model

| member | source | states |
|---|---|---|
| `Consumption.KmhToMs` | src/main.py:45-46 | the result times 3.6 is the input, so it is the km/h→m/s conversion; a positive speed gives a positive result strictly below the input |
| `Consumption.Duration100KmH` | src/main.py:54 | the duration is positive, and duration [h] × 3600 × speed [m/s] is exactly 100 000 m |
| `Consumption.GetConsumption` | src/main.py:49-57 | with non-negative resistance coefficients, weight and area, consumption is at least the auxiliary share `pAdditional × duration / 1000`; it is also non-negative when the auxiliary power is |
| `Consumption.RollingForceN` | src/main.py:51 | the rolling-resistance force `cr × G × weight` is non-negative for non-negative coefficients and weight; `ConsumptionIsForceTimesDistance` ties it to the rolling power of the consumption formula |
| `Consumption.DragForceN` | src/main.py:52 | the drag force is non-negative for non-negative coefficients and area; `ConsumptionIsForceTimesDistance` ties it to the air power of the consumption formula |
| `Consumption.DragForceQuadratic` | src/main.py:52 | drag grows with the square of the speed: at `k` times the speed the force is `k²` times larger |
| `Consumption.DrivingEnergyNonNegative` | src/main.py:51-55 | with non-negative resistance coefficients, weight and area, the driving energy over 100 km, `(pRoll + pAir) × duration / eta`, is non-negative |
| `Consumption.ConsumptionIsForceTimesDistance` | src/main.py:51-57 | consumption equals (rolling force + drag force) / eta + auxiliary power / speed, all divided by 36: force times 100 km expressed in kWh, an independent closed form of the power × time computation |
| `TripDuration.Ceil` | src/main.py:70 | the result `n` is the least integer with `x <= n` (`n - 1 < x <= n`) |
| `TripDuration.EnergyToChargeKwh` | src/main.py:69 | the energy to charge is never negative and never below the raw deficit; it is zero exactly when the start energy covers need plus reserve; when positive it equals the raw deficit |
| `TripDuration.EnergyNeededKwh` | src/main.py:66 | the energy for the trip, consumption per 100 km scaled to the distance, is non-negative for a car with passive resistances, non-negative auxiliary power and a non-negative distance |
| `TripDuration.DeficitKwh` | src/main.py:66-69 | the trip's deficit is never negative, and it is zero exactly when `socStart × capacity >= energy needed + socEnd × capacity` |
| `TripDuration.NumTimesCharging` | src/main.py:70 | `n` full batteries cover the energy to charge and `n - 1` do not |
| `TripDuration.NumTimesChargingIsLeast` | src/main.py:70 | every integer `m` with `m × capacity >= e` is at least the stop count, so the count is the least such integer |
| `TripDuration.NumTimesChargingExamples` | src/main.py:70 | a deficit of 1.5 batteries needs 2 stops, of exactly one battery 1 stop, of zero 0 stops |
| `TripDuration.ChargingTimeH` | src/main.py:70-73 | with nothing to charge the charging time is zero (no stop penalty); with something to charge and a non-negative penalty it is at least the transfer time plus one penalty |
| `TripDuration.AtLeastOneStop` | src/main.py:70-72 | a positive energy to charge gives at least one stop, and so at least one penalty when the penalty is non-negative |
| `TripDuration.StopPenaltyH` | src/main.py:72 | the stop penalty is zero without energy to charge; it is non-negative for a non-negative penalty and stop count; with energy to charge and at least one stop it is at least one penalty. `StopPenaltyMonotone` orders it, and `DeficitMeansStops` gives its value inside the charging time |
| `TripDuration.StopPenaltyMonotone` | src/main.py:72 | with a non-negative per-stop penalty, more stops, or a positive deficit where there was none, never give a smaller penalty |
| `TripDuration.GetTripDuration` | src/main.py:60-75 | with a non-negative stop penalty, the total trip time is at least the driving time `distanceKm / vKmh` |
| `TripDuration.DurationIsDrivingPlusCharging` | src/main.py:65-75 | the trip time is the driving time `distanceKm / vKmh` plus the charging time of the trip's deficit |
| `TripDuration.ChargingTimeNonNegative` | src/main.py:70-73 | for a non-negative deficit and penalty, transfer time plus penalties is non-negative |
| `TripDuration.NoDeficitMeansNoCharging` | src/main.py:65-75 | if the start energy covers need plus reserve: deficit 0, 0 stops, charging time 0, and total time exactly `distanceKm / vKmh` |
| `TripDuration.DeficitMeansStops` | src/main.py:65-75 | if the start energy does not cover need plus reserve: the deficit is positive, there is at least one stop, and the charging time is deficit / charging power + penalty × stops |
| `TripDuration.ChargingTimeMonotone` | src/main.py:70-73 | with a non-negative penalty, more energy to charge never gives less charging time |
| `TripDuration.EnergyToChargeMonotone` | src/main.py:69 | a larger raw deficit never gives less energy to charge |
| `TripDuration.LargerReserveNeverFaster` | src/main.py:65-75 | raising the required arrival state of charge never shortens the trip |
| `TripDuration.FullerStartNeverSlower` | src/main.py:65-75 | raising the departure state of charge never lengthens the trip |
| `SpeedSweep.SweepSpeeds` | src/main.py:101-109 | three sequences of length 166; entry `i` holds speed 45 + i (strictly ascending), the trip duration at that speed and the consumption at that speed converted to m/s; with a non-negative penalty every time is at least its driving time |
| `Scenario.SampleConsumptionAt120` | src/main.py:132-141 | the CLA 250 at 120 km/h uses between 14.2 and 14.3 kWh/100 km |
| `Scenario.SampleTripAt120NeedsOneStop` | src/main.py:153-159 | the sample trip at 120 km/h lacks 61–62 kWh and needs exactly one stop; it takes 8.8–8.9 h, more than its driving time |
| `Scenario.ZoeSampleTripAt100NeedsFourStops` | src/main.py:142-151 | the Zoe of the driver script at 100 km/h uses 18.7–18.8 kWh/100 km; on the sample trip it lacks 148–149 kWh, needs exactly 4 stops and takes 17.5–17.6 h |
| `Scenario.ConsumptionFallsAtLowSpeed` | src/main.py:49-57 | the CLA 250 uses less energy per 100 km at 46 km/h than at 45 km/h |

## Left out

- The DataFrame, the scatter plot, its layout and the JPEG export
  (src/main.py:111-128) are not modelled. They are library calls and file
  output.
- The `__main__` block (src/main.py:131-159) is not modelled as a program. Its
  cars and trip appear only as the constants `Cla250`, `Zoe` and `SampleTrip`,
  which the `Scenario` lemmas use.
- IEEE-754 double arithmetic is not modelled: every quantity is an exact real.
  As a result, float rounding just above a whole number of batteries, which
  could add a spurious stop in the program, is not captured.
- The source has no error paths, only divisions that can fail. Zero or
  negative divisors are excluded by preconditions rather than modelled as
  errors.
- The `Trip` record is built inside `plot_speed_vs_duration` from its
  arguments (src/main.py:94-99). The model passes the `Trip` value directly.
- `Consumption.GetConsumption`: the lower bounds hold only under
  non-negative resistance coefficients, weight and area. The source does not
  check these.
