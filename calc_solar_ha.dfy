/** `calc_solarHA`: the solar hour angle in degrees for a UTC hour of a date. */
module CalcSolarHA {
  import opened Python
  import opened Transcendentals
  import DayNumber

  /** The equation-of-time style correction (degrees) at the year angle `g`. */
  function TimeCorrection(m: Math, g: real): (tc: real)
    ensures -5.127056 <= tc <= 5.127056
  {
    0.004297 + 0.107029 * Cos(m, g) - 1.837877 * Sin(m, g)
      - 0.837378 * Cos(m, 2.0 * g) - 2.340475 * Sin(m, 2.0 * g)
  }

  /** `calc_solarHA(year, month, day, hour, lon)`: raises (`strptime`'s
      ValueError) on a date it cannot parse. The hour angle is brought into
      [-180, 180] by at most one whole turn. */
  function SolarHourAngle(m: Math, year: int, month: int, day: int, hour: int, lon: real): (r: Call<real>)
    ensures r.Raises? <==> !DayNumber.DateParses(year, month, day)
    ensures r.Returns? ==>
      var jd := DayNumber.DayNum(year, month, day) - 1;
      var sha := ((hour - 12) * 15) as real + lon + TimeCorrection(m, 2.0 * PI / 365.25 * (jd as real + hour as real / 24.0));
      (-180.0 <= sha <= 180.0 ==> r.value == sha) &&
      (sha > 180.0 ==> r.value == sha - 360.0) &&
      (sha < -180.0 ==> r.value == sha + 360.0)
    ensures r.Returns? && 0 <= hour <= 23 && -180.0 <= lon <= 180.0 ==> -180.0 <= r.value <= 180.0
  {
    if !DayNumber.DateParses(year, month, day) then Raises
    else
      var jd := DayNumber.DayNum(year, month, day) - 1;
      var g := ((2.0 * PI) / 365.25) * (jd as real + (hour as real / 24.0));
      var tc := TimeCorrection(m, g);
      var sha := ((hour - 12) * 15) as real + lon + tc;
      if sha > 180.0 then Returns(sha - 360.0)
      else if sha < -180.0 then Returns(sha + 360.0)
      else Returns(sha)
  }
}
