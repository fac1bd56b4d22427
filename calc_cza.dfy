/** `calc_cza`: the cosine of the solar zenith angle at an instant, from the
    `calc_solarDA` declination and time correction. */
module CalcCza {
  import opened Python
  import opened Transcendentals
  import opened Physics
  import DayNumber

  /** `math.pi / 180`. */
  const DEG: real := PI / 180.0

  /** The start of the date: its day of the year, on the calendar. */
  function DateDay(y: int, mon: int, d: int): (yd: DayNumber.YearDay)
    requires DayNumber.ValidDate(y, mon, d)
    ensures DayNumber.InYear(yd) && yd.year == y
  {
    DayNumber.DayNumInYear(y, mon, d);
    DayNumber.YearDay(y, DayNumber.DayNum(y, mon, d))
  }

  /** The day of the date plus `hr` hours: the date's day moved by the whole
      days that `hr` spans, counted down for negative hours. */
  function ShiftedDay(y: int, mon: int, d: int, hr: real): (yd: DayNumber.YearDay)
    requires DayNumber.ValidDate(y, mon, d)
    ensures DayNumber.InYear(yd)
    ensures DayNumber.Ordinal(yd) == DayNumber.Ordinal(DateDay(y, mon, d)) + (hr / 24.0).Floor
  {
    DayNumber.ShiftDaysMovesOrdinal(DateDay(y, mon, d), (hr / 24.0).Floor);
    DayNumber.ShiftDays(DateDay(y, mon, d), (hr / 24.0).Floor)
  }

  /** `datetime` represents only the years 1 to 9999: the date must parse, and
      adding `hr` hours must not leave that range (OverflowError). */
  predicate InDatetimeRange(y: int, mon: int, d: int, hr: real) {
    DayNumber.DateParses(y, mon, d) && 1 <= ShiftedDay(y, mon, d, hr).year <= 9999
  }

  /** `sin(dec) sin(lat) + cos(dec) cos(lat) cos(sha)`: the cosine of the
      zenith angle on the sphere, for angles in radians. */
  function ZenithCosine(m: Math, dRad: real, latRad: real, shaRad: real): real {
    SphericalCosine(Sin(m, dRad), Cos(m, dRad), Sin(m, latRad), Cos(m, latRad), Cos(m, shaRad))
  }

  /** `sd sl + cd cl c`, the spherical law of cosines from the sines and
      cosines of the two latitudes and the cosine of the angle between them. */
  function SphericalCosine(sd: real, cd: real, sl: real, cl: real, c: real): real {
    sd * sl + cd * cl * c
  }

  /** The solar hour angle in radians, from the clock hour and the time correction. */
  function HourAngleRadians(hr: real, lon: real, tc: real): real {
    ((hr - 12.0) * 15.0 + lon + tc) * DEG
  }

  /** The cosine of the zenith angle on day `jd` at `hr` hours UTC, floored at
      0: zero exactly when the sun is not above the horizon. */
  function CzaAt(m: Math, phys: Physics, lat: real, lon: real, jd: int, hr: real): (r: real)
    ensures r >= 0.0
    ensures var dtc := phys.solarDA(jd, hr);
      var z := ZenithCosine(m, dtc.d * DEG, lat * DEG, HourAngleRadians(hr, lon, dtc.tc));
      (r == 0.0 <==> z <= 0.0) && (r > 0.0 ==> r == z)
  {
    var dtc := phys.solarDA(jd, hr);
    var csza := ZenithCosine(m, dtc.d * DEG, lat * DEG, HourAngleRadians(hr, lon, dtc.tc));
    if csza < 0.0 then 0.0 else csza
  }

  /** `calc_cza(lat, lon, y, mon, d, hr)`: raises where `datetime` does
      (`InDatetimeRange`), and is otherwise a cosine floored at 0. The day is
      `%j` of the date plus `hr` hours; a negative hour is moved to the same
      clock hour of the day before. */
  function Cza(m: Math, phys: Physics, lat: real, lon: real, y: int, mon: int, d: int, hr: real): (r: Call<real>)
    ensures r.Raises? <==> !InDatetimeRange(y, mon, d, hr)
    ensures r.Returns? ==> r.value >= 0.0
  {
    if !InDatetimeRange(y, mon, d, hr) then Raises
    else
      var jd := ShiftedDay(y, mon, d, hr).day;
      var h := if hr < 0.0 then 24.0 + hr else hr;
      Returns(CzaAt(m, phys, lat, lon, jd, h))
  }

  /** Within the day of the date the day number is `daynum`'s. */
  lemma CzaSameDay(m: Math, phys: Physics, lat: real, lon: real, y: int, mon: int, d: int, hr: real)
    requires DayNumber.DateParses(y, mon, d) && 0.0 <= hr < 24.0
    ensures Cza(m, phys, lat, lon, y, mon, d, hr) == Returns(CzaAt(m, phys, lat, lon, DayNumber.DayNum(y, mon, d), hr))
  {
    assert (hr / 24.0).Floor == 0;
  }

  /** A negative hour within a day of midnight is the same clock hour of the
      previous day, across month and year ends; before 1 January of year 1
      `datetime` overflows. */
  lemma CzaBeforeMidnight(m: Math, phys: Physics, lat: real, lon: real, y: int, mon: int, d: int, hr: real)
    requires DayNumber.DateParses(y, mon, d) && -24.0 <= hr < 0.0
    ensures var prev := DayNumber.PrevDay(DateDay(y, mon, d));
      Cza(m, phys, lat, lon, y, mon, d, hr) ==
        if prev.year >= 1 then Returns(CzaAt(m, phys, lat, lon, prev.day, hr + 24.0)) else Raises
  {
    assert (hr / 24.0).Floor == -1;
  }

  /** An hour past the end of the day falls on the next day, but the hour is
      not brought back below 24; after 31 December 9999 `datetime` overflows. */
  lemma CzaAfterMidnight(m: Math, phys: Physics, lat: real, lon: real, y: int, mon: int, d: int, hr: real)
    requires DayNumber.DateParses(y, mon, d) && 24.0 <= hr < 48.0
    ensures var next := DayNumber.NextDay(DateDay(y, mon, d));
      Cza(m, phys, lat, lon, y, mon, d, hr) ==
        if next.year <= 9999 then Returns(CzaAt(m, phys, lat, lon, next.day, hr)) else Raises
  {
    assert (hr / 24.0).Floor == 1;
  }

  /** With the Pythagorean identity at both latitudes, the spherical cosine
      is at most 1. */
  lemma ZenithCosineAtMostOne(m: Math, dRad: real, latRad: real, shaRad: real)
    requires PythagoreanAt(m, dRad) && PythagoreanAt(m, latRad)
    ensures ZenithCosine(m, dRad, latRad, shaRad) <= 1.0
  {
    CosineSumBound(Sin(m, dRad), Cos(m, dRad), Sin(m, latRad), Cos(m, latRad), Cos(m, shaRad));
  }

  /** `sd*sl + cd*cl*c <= 1` for unit vectors (sd, cd), (sl, cl) and |c| <= 1:
      Cauchy-Schwarz, as (|sd sl| + |cd cl|)^2 + (|sd cl| - |cd sl|)^2 = 1. */
  lemma {:induction false} CosineSumBound(sd: real, cd: real, sl: real, cl: real, c: real)
    requires sd * sd + cd * cd == 1.0 && sl * sl + cl * cl == 1.0 && -1.0 <= c <= 1.0
    ensures SphericalCosine(sd, cd, sl, cl, c) <= 1.0
  {
    UnitAbs(sd, cd); UnitAbs(sl, cl);
    UnitLagrange(Abs(sd), Abs(cd), Abs(sl), Abs(cl));
    ScaledProductBound(sd, sl, 1.0);
    ScaledProductBound(cd, cl, c);
    SumBound(sd * sl * 1.0, cd * cl * c, Abs(sd) * Abs(sl), Abs(cd) * Abs(cl));
  }

  lemma UnitAbs(x: real, y: real)
    requires x * x + y * y == 1.0
    ensures Abs(x) * Abs(x) + Abs(y) * Abs(y) == 1.0
  {
    AbsSquare(x); AbsSquare(y);
  }

  lemma ScaledProductBound(a: real, b: real, c: real)
    requires -1.0 <= c <= 1.0
    ensures a * b * c <= Abs(a) * Abs(b)
  {
    AbsProduct(a, b);
    ProductBelowAbs(a * b, c);
  }

  lemma SumBound(a: real, b: real, x: real, y: real)
    requires a <= x && b <= y && x + y <= 1.0
    ensures a + b <= 1.0
  {
  }

  lemma AbsSquare(z: real)
    ensures Abs(z) * Abs(z) == z * z
  {
  }

  lemma AbsProduct(a: real, b: real)
    ensures Abs(a * b) == Abs(a) * Abs(b)
  {
    if a < 0.0 && b < 0.0 { assert a * b == (-a) * (-b); }
    else if a < 0.0 { assert a * b == -((-a) * b); }
    else if b < 0.0 { assert a * b == -(a * (-b)); }
  }

  /** For unit vectors (x, y) and (u, v), `x u + y v <= 1`, by Lagrange's
      two-square identity. */
  lemma UnitLagrange(x: real, y: real, u: real, v: real)
    requires x * x + y * y == 1.0 && u * u + v * v == 1.0
    ensures x * u + y * v <= 1.0
  {
    var t := x * u + y * v;
    var e := x * v - y * u;
    assert t * t + e * e == (x * x + y * y) * (u * u + v * v);
    SquareNonNegative(e);
    UnitSquare(t, e * e);
  }

  lemma UnitSquare(t: real, f: real)
    requires t * t + f == 1.0 && f >= 0.0
    ensures t <= 1.0
  {
  }

  lemma ProductBelowAbs(b: real, c: real)
    requires -1.0 <= c <= 1.0
    ensures b * c <= Abs(b)
  {
    if b >= 0.0 { assert b * c <= b * 1.0; } else { assert b * c <= b * -1.0; }
  }

  lemma SquareNonNegative(z: real)
    ensures z * z >= 0.0
  {
    if z < 0.0 { assert z * z == (-z) * (-z); }
  }

  /** The clamped cosine is therefore at most 1 too. */
  lemma CzaAtMostOne(m: Math, phys: Physics, lat: real, lon: real, jd: int, hr: real)
    requires PythagoreanAt(m, phys.solarDA(jd, hr).d * DEG) && PythagoreanAt(m, lat * DEG)
    ensures CzaAt(m, phys, lat, lon, jd, hr) <= 1.0
  {
    var dtc := phys.solarDA(jd, hr);
    ZenithCosineAtMostOne(m, dtc.d * DEG, lat * DEG, HourAngleRadians(hr, lon, dtc.tc));
  }
}
