/** `wbgt`: the outdoor wet-bulb globe temperature, `0.1 Ta + 0.2 Tg + 0.7 Tw`,
    from standard meteorological measurements (Liljegren et al. 2008). */
module Wbgt {
  import opened Python
  import opened Transcendentals
  import opened Physics
  import SolarPosition
  import CalcSolarParameters
  import StabSrdt
  import opened EstWindSpeed
  import Tglobe

  /** The missing-value code. */
  const MISSING: real := -999.0

  /** The fifteen arguments of `wbgt`; the integer ones cannot be NaN. */
  datatype Inputs = Inputs(year: int, month: int, dday: Float, lat: Float, lon: Float,
                           solar: Float, cza: Float, fdir: Float, pres: Float, tair: Float,
                           relhum: Float, speed: Float, zspeed: Float, dT: Float, urban: int)

  predicate IsMissing(x: Float) {
    x.NaN? || x.v == MISSING
  }

  /** The list `inputs` the screen runs over, in the order of the arguments. */
  function InputList(i: Inputs): (l: seq<Float>)
    ensures |l| == 15
  {
    [Num(i.year as real), Num(i.month as real), i.dday, i.lat, i.lon, i.solar, i.cza, i.fdir,
     i.pres, i.tair, i.relhum, i.speed, i.zspeed, i.dT, Num(i.urban as real)]
  }

  /** `any(np.isnan(x) for x in inputs) or (-999 in inputs)`: some element of
      the list is NaN or the missing-value code. */
  predicate AnyMissing(i: Inputs): (b: bool)
    ensures b <==> exists k :: 0 <= k < |InputList(i)| && IsMissing(InputList(i)[k])
  {
    ListScan(i);
    i.year == -999 || i.month == -999 || i.urban == -999 ||
    IsMissing(i.dday) || IsMissing(i.lat) || IsMissing(i.lon) || IsMissing(i.solar) ||
    IsMissing(i.cza) || IsMissing(i.fdir) || IsMissing(i.pres) || IsMissing(i.tair) ||
    IsMissing(i.relhum) || IsMissing(i.speed) || IsMissing(i.zspeed) || IsMissing(i.dT)
  }

  /** Element by element, the list holds the fifteen arguments. */
  lemma ListScan(i: Inputs)
    ensures (exists k :: 0 <= k < |InputList(i)| && IsMissing(InputList(i)[k])) <==>
      (i.year == -999 || i.month == -999 || i.urban == -999 ||
       IsMissing(i.dday) || IsMissing(i.lat) || IsMissing(i.lon) || IsMissing(i.solar) ||
       IsMissing(i.cza) || IsMissing(i.fdir) || IsMissing(i.pres) || IsMissing(i.tair) ||
       IsMissing(i.relhum) || IsMissing(i.speed) || IsMissing(i.zspeed) || IsMissing(i.dT))
  {
    var l := InputList(i);
    assert l[0] == Num(i.year as real) && l[1] == Num(i.month as real) && l[2] == i.dday &&
           l[3] == i.lat && l[4] == i.lon && l[5] == i.solar && l[6] == i.cza && l[7] == i.fdir &&
           l[8] == i.pres && l[9] == i.tair && l[10] == i.relhum && l[11] == i.speed &&
           l[12] == i.zspeed && l[13] == i.dT && l[14] == Num(i.urban as real);
    if exists k :: 0 <= k < |l| && IsMissing(l[k]) {
      var k :| 0 <= k < |l| && IsMissing(l[k]);
      assert k in {0, 1, 2, 3, 4, 5, 6, 7, 8, 9, 10, 11, 12, 13, 14};
    }
  }

  /** `(0.1 * Tair) + (0.2 * Tg) + (0.7 * Tnwb)`: NaN with the globe
      temperature, otherwise a weighted mean of the three temperatures. */
  function WeightedSum(tair: real, tg: Float, tnwb: real): (r: Float)
    ensures r.NaN? <==> tg.NaN?
    ensures r.Num? ==> var lo := Min(tair, Min(tg.v, tnwb)); var hi := Max(tair, Max(tg.v, tnwb));
      lo <= r.v <= hi
    ensures r.Num? && tg.v == tair && tnwb == tair ==> r.v == tair
  {
    if tg.NaN? then NaN else Num((0.1 * tair) + (0.2 * tg.v) + (0.7 * tnwb))
  }

  /** The class-indexed exponent table always accepts a `stab_srdt` class. */
  lemma ClassesAreIndexable(c: int)
    requires 1 <= c <= 6
    ensures ClassIndexable(c as real)
  {
    assert Int(c as real) == c;
  }

  /** The 2-metre wind speed as the code is evidently meant to compute it:
      from another height by the stability-class power law (day when `cza >
      0`), and from a 2 m reading floored at `MINIMUM_SPEED`. Either way it
      raises only for a height that is not positive, and it is never below 0.5 m/s. */
  function WindAt2m(m: Math, speed: real, zspeed: real, cza: real, solar: real, dT: real, urban: int): (r: Call<real>)
    ensures r.Raises? <==> zspeed <= 0.0
    ensures r.Returns? ==> r.value >= MIN_SPEED
    ensures zspeed == REF_HEIGHT ==> r == Returns(Max(speed, MIN_SPEED))
  {
    if zspeed != REF_HEIGHT then
      var daytime := if cza > 0.0 then 1 else 0;
      var c := StabSrdt.StabilityClass(daytime, speed, solar, dT);
      ClassesAreIndexable(c);
      WindSpeed2m(m, speed, zspeed, c as real, urban)
    else
      Returns(Max(speed, MIN_SPEED))
  }

  /** The same, as written: the 2 m branch `speed <- max(speed, MINIMUM_SPEED)`
      is the comparison `speed < -max(...)`, whose value is discarded, so a
      2 m reading is used unchanged. */
  function WindAt2mAsWritten(m: Math, speed: real, zspeed: real, cza: real, solar: real, dT: real, urban: int): (r: Call<real>)
    ensures zspeed != REF_HEIGHT ==> r == WindAt2m(m, speed, zspeed, cza, solar, dT, urban)
    ensures zspeed == REF_HEIGHT ==> r == Returns(speed)
  {
    if zspeed != REF_HEIGHT then
      var daytime := if cza > 0.0 then 1 else 0;
      var c := StabSrdt.StabilityClass(daytime, speed, solar, dT);
      ClassesAreIndexable(c);
      WindSpeed2m(m, speed, zspeed, c as real, urban)
    else
      var discarded := speed < -Max(speed, MIN_SPEED);
      Returns(speed)
  }

  /** A 2 m reading of 0.1 m/s reaches the solvers as 0.1 m/s as written,
      below the floor, and as 0.5 m/s once floored; as written the two agree
      exactly when the reading is not a slow 2 m one. */
  lemma SlowTwoMetreWindNotFloored(m: Math, speed: real, zspeed: real, cza: real, solar: real, dT: real, urban: int)
    ensures WindAt2mAsWritten(m, 0.1, REF_HEIGHT, cza, solar, dT, urban) == Returns(0.1)
    ensures WindAt2m(m, 0.1, REF_HEIGHT, cza, solar, dT, urban) == Returns(MIN_SPEED)
    ensures WindAt2mAsWritten(m, speed, zspeed, cza, solar, dT, urban) == WindAt2m(m, speed, zspeed, cza, solar, dT, urban)
      <==> !(zspeed == REF_HEIGHT && speed < MIN_SPEED)
  {
  }

  /** What `wbgt` hands both solvers: air temperature in kelvin, humidity as
      a fraction, pressure, 2 m wind speed, bounded irradiance, direct
      fraction and cosine zenith angle. */
  datatype Drivers = Drivers(tk: real, rh: real, pres: real, speed: real, solar: real, fdir: real, cza: real)

  /** The solver arguments for inputs with nothing missing: raises where
      `calc_solar_parameters` or the wind estimate does; otherwise the
      converted temperature and humidity, the wind estimated at 2 m (at
      least 0.5 m/s) or, for a 2 m reading, the reading itself, an
      irradiance no larger than measured, and `fdir` and `cza` as given. */
  function DriversOf(m: Math, i: Inputs): (r: Call<Drivers>)
    requires !AnyMissing(i)
    ensures r.Raises? <==>
      !SolarPosition.SiteInRange(i.lat.v, i.lon.v) || !SolarPosition.DateInRange(i.year, i.month, i.dday.v, 0.0)
      || i.zspeed.v <= 0.0
    ensures r.Returns? ==>
      var d := r.value;
      d.tk == i.tair.v + 273.15 && d.rh == i.relhum.v / 100.0 && d.pres == i.pres.v &&
      (i.zspeed.v != REF_HEIGHT ==> d.speed >= MIN_SPEED) && (i.zspeed.v == REF_HEIGHT ==> d.speed == i.speed.v) &&
      d.solar <= i.solar.v && d.fdir == i.fdir.v && d.cza == i.cza.v
  {
    match CalcSolarParameters.SolarParameters(m, i.year, i.month, i.dday.v, i.lat.v, i.lon.v,
                                              i.solar.v, i.cza, i.fdir)
    case Raises => Raises
    case Returns(p) =>
      // `calc_solar_parameters(...)['solarRet']`: the irradiance, adjusted if out of bounds
      DriversWith(m, i, p.solarRet)
  }

  /** The solver arguments once the irradiance `solar` is known: raises
      where the wind estimate does, and passes a 2 m reading on unchanged. */
  function DriversWith(m: Math, i: Inputs, solar: real): (r: Call<Drivers>)
    requires !AnyMissing(i)
    ensures r.Raises? <==> i.zspeed.v <= 0.0
    ensures r.Returns? ==> r.value.solar == solar
    ensures r.Returns? && i.zspeed.v != REF_HEIGHT ==> r.value.speed >= MIN_SPEED
    ensures r.Returns? && i.zspeed.v == REF_HEIGHT ==> r.value.speed == i.speed.v
  {
    match WindAt2mAsWritten(m, i.speed.v, i.zspeed.v, i.cza.v, solar, i.dT.v, i.urban)
    case Raises => Raises
    case Returns(speed) =>
      var tk := i.tair.v + 273.15;
      var rh := 0.01 * i.relhum.v;
      Returns(Drivers(tk, rh, i.pres.v, speed, solar, i.fdir.v, i.cza.v))
  }

  /** `Tglobe` at the drivers. */
  function GlobeOf(m: Math, phys: Physics, d: Drivers): Call<Float> {
    Tglobe.GlobeTemperature(m, phys, d.tk, d.rh, d.pres, d.speed, d.solar, d.fdir, d.cza)
  }

  /** `Twb` at the drivers. */
  function NaturalWetBulbOf(phys: Physics, d: Drivers): Call<real> {
    phys.twb(d.tk, d.rh, d.pres, d.speed, d.solar, d.fdir, d.cza)
  }

  /** `wbgt(year, month, dday, lat, lon, solar, cza, fdir, pres, Tair,
      relhum, speed, zspeed, dT, urban)` in degrees C. A missing input gives
      NaN before anything is computed; otherwise it raises where the
      drivers, the globe temperature or the natural wet bulb do, is NaN
      where the globe temperature does not converge, and is a weighted mean
      of air, globe and natural wet-bulb temperatures. */
  function Wbgt(m: Math, phys: Physics, i: Inputs): (r: Call<Float>)
    ensures AnyMissing(i) ==> r == Returns(NaN)
    ensures !AnyMissing(i) ==>
      (r.Raises? <==> DriversOf(m, i).Raises? || GlobeOf(m, phys, DriversOf(m, i).value).Raises?
                      || NaturalWetBulbOf(phys, DriversOf(m, i).value).Raises?)
    ensures !AnyMissing(i) && r.Returns? ==>
      var d := DriversOf(m, i).value;
      var tg := GlobeOf(m, phys, d).value;
      var tnwb := NaturalWetBulbOf(phys, d).value;
      (r.value.NaN? <==> tg.NaN?) &&
      (r.value.Num? ==> Min(i.tair.v, Min(tg.v, tnwb)) <= r.value.v <= Max(i.tair.v, Max(tg.v, tnwb)))
  {
    if AnyMissing(i) then Returns(NaN)
    else
      match DriversOf(m, i)
      case Raises => Raises
      case Returns(d) =>
        match GlobeOf(m, phys, d)
        case Raises => Raises
        case Returns(tg) =>
          match NaturalWetBulbOf(phys, d)
          case Raises => Raises
          case Returns(tnwb) => Returns(WeightedSum(i.tair.v, tg, tnwb))
  }

  /** The inputs with the wind reading replaced. */
  function WithSpeed(i: Inputs, speed: real): Inputs {
    i.(speed := Num(speed))
  }

  /** A 2 m reading below 0.5 m/s reaches both solvers unfloored, yet gives
      the WBGT of a 0.5 m/s reading: the globe's convective coefficient
      floors the speed itself, and so, by hypothesis, does `Twb`. The
      discarded floor of the 2 m branch therefore changes no result. */
  lemma {:induction false} SlowWindIsFloored(m: Math, phys: Physics, i: Inputs, slow: real)
    requires TwbFloorsSpeed(phys)
    requires !AnyMissing(i) && i.zspeed == Num(REF_HEIGHT) && slow < MIN_SPEED && slow != MISSING
    ensures Wbgt(m, phys, WithSpeed(i, slow)) == Wbgt(m, phys, WithSpeed(i, MIN_SPEED))
  {
    var a, b := WithSpeed(i, slow), WithSpeed(i, MIN_SPEED);
    assert !AnyMissing(a) && !AnyMissing(b);
    var p := CalcSolarParameters.SolarParameters(m, i.year, i.month, i.dday.v, i.lat.v, i.lon.v,
                                                 i.solar.v, i.cza, i.fdir);
    if p.Returns? {
      SlowWindDrivers(m, i, slow, p.value.solarRet);
      var d := DriversWith(m, a, p.value.solarRet).value;
      assert DriversOf(m, a) == Returns(d);
      assert DriversOf(m, b) == Returns(d.(speed := MIN_SPEED));
      Tglobe.SlowWindGlobe(m, phys, d.tk, d.rh, d.pres, slow, d.solar, d.fdir, d.cza);
      assert GlobeOf(m, phys, d) == GlobeOf(m, phys, d.(speed := MIN_SPEED));
      assert NaturalWetBulbOf(phys, d) == NaturalWetBulbOf(phys, d.(speed := MIN_SPEED));
    }
  }

  /** Once the irradiance is known, a slow 2 m reading reaches the solvers
      as it is, and otherwise as the drivers of a 0.5 m/s reading. */
  lemma SlowWindDrivers(m: Math, i: Inputs, slow: real, solar: real)
    requires !AnyMissing(i) && i.zspeed == Num(REF_HEIGHT) && slow < MIN_SPEED && slow != MISSING
    ensures !AnyMissing(WithSpeed(i, slow)) && !AnyMissing(WithSpeed(i, MIN_SPEED))
    ensures DriversWith(m, WithSpeed(i, slow), solar).Returns?
    ensures DriversWith(m, WithSpeed(i, slow), solar).value.speed == slow
    ensures DriversWith(m, WithSpeed(i, MIN_SPEED), solar) ==
            Returns(DriversWith(m, WithSpeed(i, slow), solar).value.(speed := MIN_SPEED))
  {
  }

  /** In air whose globe and natural wet-bulb temperatures both equal the air
      temperature, the WBGT is the air temperature. */
  lemma UniformTemperaturesGiveAirTemperature(m: Math, phys: Physics, i: Inputs)
    requires !AnyMissing(i) && DriversOf(m, i).Returns?
    requires GlobeOf(m, phys, DriversOf(m, i).value) == Returns(Num(i.tair.v))
    requires NaturalWetBulbOf(phys, DriversOf(m, i).value) == Returns(i.tair.v)
    ensures Wbgt(m, phys, i) == Returns(Num(i.tair.v))
  {
  }
}
