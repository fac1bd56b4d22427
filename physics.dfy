/** The physical-property correlations the solvers consume, left uninterpreted:
    `h_sphere_in_air`, `h_cylinder_in_air`, `viscosity`, `diffusivity`,
    `evap`, the declination regression `calc_solarDA`, and the natural
    wet-bulb solver `Twb`, whose source is not part of this model; and the
    atmospheric emissivity `emis_atm`, written out over `esat`. */
module Physics {
  import opened Python
  import opened Transcendentals
  import opened Esat

  /** `calc_solarDA(jd, hour)`: declination (degrees) and time correction. */
  datatype DeclinationCorrection = DeclinationCorrection(d: real, tc: real)

  /** The lowest wind speed (m/s) the convective correlations use. */
  const CONVECTION_MIN_SPEED: real := 0.5

  datatype Physics = Physics(
    // the two convective correlations past their own `max(speed, MIN_SPEED)`:
    // they may raise (a zero temperature or viscosity, `math.sqrt` of a negative Re)
    hSphere: (real, real, real, real) -> Call<real>,           // diameter, T, P, floored speed
    hCylinder: (real, real, real, real, real) -> Call<real>,   // diameter, length, T, P, floored speed
    viscosity: real -> real,                                  // T
    diffusivity: (real, real) -> real,                        // T, P
    evap: real -> real,                                       // T
    solarDA: (int, real) -> DeclinationCorrection,            // day of year, hour
    // Twb(Tair, rh, Pair, speed, solar, fdir, cza): the natural wet-bulb solver,
    // in degrees C; it may raise like Tpsy does
    twb: (real, real, real, real, real, real, real) -> Call<real>)

  /** `h_sphere_in_air(diameter, T, P, speed)`: the Reynolds number is taken
      at `max(speed, MIN_SPEED)`, 0.5 m/s. */
  function HSphere(phys: Physics, diameter: real, t: real, p: real, speed: real): Call<real> {
    phys.hSphere(diameter, t, p, Max(speed, CONVECTION_MIN_SPEED))
  }

  /** `h_cylinder_in_air(diameter, length, T, P, speed)`, likewise floored. */
  function HCylinder(phys: Physics, diameter: real, length: real, t: real, p: real, speed: real): Call<real> {
    phys.hCylinder(diameter, length, t, p, Max(speed, CONVECTION_MIN_SPEED))
  }

  /** `emis_atm(Tair, rh, pres)`: `0.575 * (rh * esat(Tair, 0, pres)) ** 0.143`.
      It raises exactly where `esat` over water does, at 32.18 K, and is
      positive for humid air at a non-negative pressure. */
  function EmisAtm(m: Math, tair: real, rh: real, pres: real): (r: Call<real>)
    ensures r.Raises? <==> SaturationPressure(m, tair, 0, pres).Raises?
    ensures r.Returns? && rh > 0.0 && pres >= 0.0 ==> r.value > 0.0
  {
    match SaturationPressure(m, tair, 0, pres)
    case Raises => Raises
    case Returns(es) => Returns(0.575 * Pow(m, rh * es, 0.143))
  }

  /** Both convective coefficients treat any speed below 0.5 m/s as 0.5 m/s. */
  lemma SlowAirIsFloored(phys: Physics, diameter: real, length: real, t: real, p: real, speed: real)
    requires speed < CONVECTION_MIN_SPEED
    ensures HSphere(phys, diameter, t, p, speed) == HSphere(phys, diameter, t, p, CONVECTION_MIN_SPEED)
    ensures HCylinder(phys, diameter, length, t, p, speed) == HCylinder(phys, diameter, length, t, p, CONVECTION_MIN_SPEED)
  {
  }

  /** `Twb` treats a wind below 0.5 m/s as 0.5 m/s, as the two correlations
      do; a hypothesis, since its source is not modelled. */
  ghost predicate TwbFloorsSpeed(phys: Physics) {
    forall tk, rh, pres, speed, solar, fdir, cza | speed < CONVECTION_MIN_SPEED ::
      phys.twb(tk, rh, pres, speed, solar, fdir, cza) == phys.twb(tk, rh, pres, CONVECTION_MIN_SPEED, solar, fdir, cza)
  }
}
