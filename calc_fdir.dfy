/** The fraction of the surface solar irradiance due to the direct beam, for a
    caller-supplied cosine of the solar zenith angle. */
module CalcFdir {
  import opened Python
  import opened Transcendentals
  import SolarPosition
  import opened CalcSolarParameters

  /** `calc_fdir`: raises when the date or site is out of range; otherwise the
      empirical fraction clamped to [0, 0.9], or 0 when the sun is below
      CZA_MIN or the normalized irradiance is not positive. */
  function Fdir(m: Math, year: int, month: int, day: real, lat: real, lon: real,
                solar: real, cza: real): (r: Call<real>)
    ensures r.Raises? <==>
      !(SolarPosition.SiteInRange(lat, lon) && SolarPosition.DateInRange(year, month, day, 0.0))
    ensures r.Returns? ==> 0.0 <= r.value <= 0.9
    ensures r.Returns? && (cza < CZA_MIN || solar <= 0.0) ==> r.value == 0.0
  {
    match SolarPosition.SolarPositionOf(m, year, month, day, 0.0, lat, lon)
    case OutOfRange => Raises
    case Ok(s) => Returns(FdirAt(m, solar, cza, s.distance))
  }

  /** The fraction once the sun-earth distance is known. */
  function FdirAt(m: Math, solar: real, cza: real, distance: real): (r: real)
    requires distance > 0.0
    ensures 0.0 <= r <= 0.9
    ensures cza < CZA_MIN || solar <= 0.0 ==> r == 0.0
  {
    var toa := TopOfAtmosphere(cza, distance);
    if toa > 0.0 then
      var normsolar := Min(solar / toa, NORMSOLAR_MAX);
      assert normsolar > 0.0 <==> solar > 0.0 by {
        assert solar > 0.0 <==> solar / toa > 0.0;
      }
      if normsolar > 0.0 then Max(Min(DirectFraction(m, normsolar), 0.9), 0.0)
      else 0.0
    else 0.0
  }

  /** `calc_fdir` is the clamped direct-beam fraction that `calc_solar_parameters`
      estimates when the caller gives a cosine zenith angle but no fdir; below
      CZA_MIN, where the latter passes NaN through, the former gives 0. */
  lemma {:induction false} FdirMatchesSolarParameters(m: Math, year: int, month: int, day: real,
                                                    lat: real, lon: real, solar: real, cza: real)
    requires SolarPosition.SiteInRange(lat, lon) && SolarPosition.DateInRange(year, month, day, 0.0)
    ensures var p := SolarParameters(m, year, month, day, lat, lon, solar, Num(cza), NaN).value;
      var f := Fdir(m, year, month, day, lat, lon, solar, cza).value;
      (p.fdir.NaN? ==> f == 0.0) &&
      (p.fdir.Num? ==> f == Clamp(p.fdir.v, 0.0, 0.9))
  {
    var s := SolarPosition.SolarPositionOf(m, year, month, day, 0.0, lat, lon).state;
    assert SolarParameters(m, year, month, day, lat, lon, solar, Num(cza), NaN) == Returns(Adjust(m, solar, cza, NaN, s.distance));
    assert Fdir(m, year, month, day, lat, lon, solar, cza) == Returns(FdirAt(m, solar, cza, s.distance));
    FdirAtMatchesAdjust(m, solar, cza, s.distance);
  }

  /** The same, once the sun-earth distance is known. */
  lemma FdirAtMatchesAdjust(m: Math, solar: real, cza: real, distance: real)
    requires distance > 0.0
    ensures var p := Adjust(m, solar, cza, NaN, distance);
      (p.fdir.NaN? ==> FdirAt(m, solar, cza, distance) == 0.0) &&
      (p.fdir.Num? ==> FdirAt(m, solar, cza, distance) == Clamp(p.fdir.v, 0.0, 0.9))
  {
    var toa := TopOfAtmosphere(cza, distance);
    if toa > 0.0 && solar > 0.0 {
      var normsolar := Min(solar / toa, NORMSOLAR_MAX);
      assert solar / toa > 0.0;
      assert Adjust(m, solar, cza, NaN, distance).fdir == Num(DirectFraction(m, normsolar));
    }
  }
}
