/** Adjusted surface solar irradiance, cosine of the solar zenith angle and the
    direct-beam fraction, from a date, a site and a measured irradiance
    (Liljegren et al. 2008, eqns. 13-14). */
module CalcSolarParameters {
  import opened Python
  import opened Transcendentals
  import SolarPosition

  const SOLAR_CONST: real := 1367.0
  const CZA_MIN: real := 0.00873
  const NORMSOLAR_MAX: real := 0.85

  /** The returned dictionary: `solarRet`, `cza` and `fdir`. `fdir` can still
      be NaN when the caller passed NaN and the sun is below `CZA_MIN`. */
  datatype SolarParams = SolarParams(solarRet: real, cza: real, fdir: Float)

  /** Top-of-atmosphere irradiance ("Smax") for a cosine zenith angle at a
      sun-earth distance in AU; zero unless the sun is at least CZA_MIN high. */
  function TopOfAtmosphere(cza: real, distance: real): (r: real)
    requires distance > 0.0
    ensures cza < CZA_MIN ==> r == 0.0
    ensures cza >= CZA_MIN ==> r > 0.0
    ensures r * distance * distance == if cza < CZA_MIN then 0.0 else SOLAR_CONST * cza
  {
    var toa := SOLAR_CONST * Max(0.0, cza) / (distance * distance);
    if cza < CZA_MIN then 0.0 else toa
  }

  /** The empirical direct-beam fraction `exp(3 - 1.34 S* - 1.65 / S*)` of a
      normalized irradiance S* > 0. */
  function DirectFraction(m: Math, normsolar: real): (r: real)
    requires normsolar > 0.0
    ensures r > 0.0
  {
    Exp(m, 3.0 - 1.34 * normsolar - 1.65 / normsolar)
  }

  /** The parameters for a given set of site and measured values. Raises (a
      subscript of the integer error code) when the date or site is out of
      the solar-position range. */
  function SolarParameters(m: Math, year: int, month: int, day: real, lat: real, lon: real,
                           solar: real, cza: Float, fdir: Float): (r: Call<SolarParams>)
    ensures r.Raises? <==>
      !(SolarPosition.SiteInRange(lat, lon) && SolarPosition.DateInRange(year, month, day, 0.0))
    ensures r.Returns? ==> r.value.cza >= 0.0
    ensures r.Returns? && cza.Num? && cza.v >= 0.0 ==>
      r.value.cza == cza.v || (r.value.cza == 0.0 && r.value.fdir == Num(0.0))
    ensures r.Returns? ==>
      var s := SolarPosition.SolarPositionOf(m, year, month, day, 0.0, lat, lon).state;
      r.value == Adjust(m, solar, if cza.NaN? then Cos(m, (90.0 - s.altitude) * SolarPosition.DEG_RAD) else cza.v,
                        fdir, s.distance)
  {
    match SolarPosition.SolarPositionOf(m, year, month, day, 0.0, lat, lon)
    case OutOfRange => Raises
    case Ok(s) =>
      var c := if cza.IsNaN() then Cos(m, (90.0 - s.altitude) * SolarPosition.DEG_RAD) else cza.v;
      Returns(Adjust(m, solar, c, fdir, s.distance))
  }

  /** Everything after the solar position: the body of the function once the
      cosine zenith angle `cza0` and the distance are known. */
  function Adjust(m: Math, solar: real, cza0: real, fdir: Float, distance: real): (p: SolarParams)
    requires distance > 0.0
    ensures p.cza >= 0.0
    ensures var toa := TopOfAtmosphere(cza0, distance);
      (toa == 0.0 ==> p == SolarParams(solar, Max(cza0, 0.0), fdir)) &&
      (toa > 0.0 ==> p.solarRet == Min(solar, NORMSOLAR_MAX * toa)) &&
      (toa > 0.0 && solar > 0.0 ==>
         p.cza == cza0 &&
         (fdir.Num? ==> p.fdir == Num(Clamp(fdir.v, 0.0, 0.9))) &&
         (fdir.NaN? ==> p.fdir == Num(DirectFraction(m, Min(solar / toa, NORMSOLAR_MAX))) && p.fdir.v > 0.0)) &&
      (toa > 0.0 && solar <= 0.0 ==> p.cza == 0.0 && p.fdir == Num(0.0))
  {
    var toa := TopOfAtmosphere(cza0, distance);
    var c := if cza0 < 0.0 then 0.0 else cza0;
    if toa > 0.0 then
      var normsolar := Min(solar / toa, NORMSOLAR_MAX);
      assert normsolar * toa == Min(solar, NORMSOLAR_MAX * toa) by {
        MinScales(solar / toa, NORMSOLAR_MAX, toa);
        assert (solar / toa) * toa == solar;
      }
      assert normsolar > 0.0 <==> solar > 0.0 by {
        assert solar > 0.0 <==> solar / toa > 0.0;
      }
      if normsolar > 0.0 then
        var f := if fdir.IsNaN() then DirectFraction(m, normsolar) else Max(Min(fdir.v, 0.9), 0.0);
        SolarParams(normsolar * toa, c, Num(f))
      else
        SolarParams(normsolar * toa, 0.0, Num(0.0))
    else
      SolarParams(solar, c, fdir)
  }

  /** Scaling by a positive factor commutes with `min`. */
  lemma MinScales(a: real, b: real, c: real)
    requires c > 0.0
    ensures Min(a, b) * c == Min(a * c, b * c)
  {
    if b < a {
      assert b * c < a * c;
    } else {
      assert a * c <= b * c;
    }
  }

  /** Once the sun is above CZA_MIN the adjusted irradiance never exceeds the
      measured one nor 85% of the top-of-atmosphere value. */
  lemma {:induction false} SolarRetBounds(m: Math, solar: real, cza0: real, fdir: Float, distance: real)
    requires distance > 0.0
    requires TopOfAtmosphere(cza0, distance) > 0.0
    ensures var p := Adjust(m, solar, cza0, fdir, distance);
      p.solarRet <= solar &&
      p.solarRet * distance * distance <= NORMSOLAR_MAX * SOLAR_CONST * Max(cza0, 0.0)
  {
    var toa := TopOfAtmosphere(cza0, distance);
    var d2 := distance * distance;
    assert d2 > 0.0;
    var p := Adjust(m, solar, cza0, fdir, distance);
    assert p.solarRet <= NORMSOLAR_MAX * toa;
    assert toa * d2 == SOLAR_CONST * cza0;
    assert p.solarRet * d2 <= NORMSOLAR_MAX * toa * d2;
  }

  /** The exponent of `DirectFraction` at the largest normalized irradiance. */
  const BRIGHTEST_EXPONENT: real := 3.0 - 1.34 * NORMSOLAR_MAX - 1.65 / NORMSOLAR_MAX

  /** At the largest normalized irradiance the estimated direct fraction is
      above 0.9 (`exp(-0.0802)` is about 0.923), the cap a measured fraction
      is clamped to: the estimate is not limited to the measured range. The
      hypothesis is the tangent bound `exp(x) >= 1 + x` at that exponent. */
  lemma EstimateExceedsMeasuredCap(m: Math)
    requires Exp(m, BRIGHTEST_EXPONENT) >= 1.0 + BRIGHTEST_EXPONENT
    ensures DirectFraction(m, NORMSOLAR_MAX) > 0.9
  {
    assert 1.65 / NORMSOLAR_MAX < 1.95;
  }

  /** So an irradiance at or above 85% of the top-of-atmosphere value, with
      no measured direct fraction, is given a fraction above 0.9. */
  lemma {:induction false} BrightSunEstimateAboveCap(m: Math, solar: real, cza0: real, distance: real)
    requires distance > 0.0
    requires TopOfAtmosphere(cza0, distance) > 0.0
    requires solar >= NORMSOLAR_MAX * TopOfAtmosphere(cza0, distance)
    requires Exp(m, BRIGHTEST_EXPONENT) >= 1.0 + BRIGHTEST_EXPONENT
    ensures Adjust(m, solar, cza0, NaN, distance).fdir.Num?
    ensures Adjust(m, solar, cza0, NaN, distance).fdir.v > 0.9
  {
    var toa := TopOfAtmosphere(cza0, distance);
    assert solar / toa >= NORMSOLAR_MAX by {
      assert (solar / toa) * toa == solar;
    }
    assert Min(solar / toa, NORMSOLAR_MAX) == NORMSOLAR_MAX;
    EstimateExceedsMeasuredCap(m);
  }
}
