/** `solarposition`: apparent right ascension and declination, altitude with
    refraction, azimuth and earth-sun distance after the Astronomical Almanac
    (1990), valid for 1950-2049. Out-of-range input gives `OutOfRange` where
    the source returns -1. */
module SolarPosition {
  import opened Python
  import opened Transcendentals
  import DayNumber

  const TEMP: real := 15.0            // mean sea-level temperature, deg C
  const PRESSURE: real := 1013.25     // mean sea-level pressure, hPa
  const TWOPI: real := 6.2831853071795864
  const DEG_RAD: real := 0.017453292519943295
  const RAD_DEG: real := 57.295779513082323
  /** `tan_alt` stands at this value when the altitude is within 1e-5 degrees of +-90. */
  const TAN_SENTINEL: real := 6000000.0
  const TAN_LIMIT: real := 1.57079615
  /** Crossover altitude (degrees) of the two refraction formulae. */
  const CROSSOVER: real := 19.225

  /** The returned dictionary of a successful call (`retVal` 0). */
  datatype SolarState = SolarState(
    apRa: real,        // hours
    apDec: real,       // degrees
    altitude: real,    // degrees, refraction included
    refraction: real,  // degrees
    azimuth: real,     // degrees, East is 90
    distance: real)    // astronomical units

  datatype Position = OutOfRange | Ok(state: SolarState)

  /** Time arguments of the series: days since J2000.0, Julian centuries
      since J2000.0 at 0h UT of the date, and UT hours. */
  datatype Epoch = Epoch(daysJ2000: real, centJ2000: real, ut: real)

  // ---------------------------------------------------------------- dates

  /** The three date encodings the source accepts, selected by zero values:
      year+month+day, year+day-of-year (month 0), or days since 1900 (year 0). */
  predicate DateInRange(year: int, month: int, day: real, days1900: real) {
    if year != 0 then
      1950 <= year <= 2049 &&
      (if month != 0 then 1 <= month <= 12 && 0.0 <= day <= 33.0
       else 0.0 <= day <= 368.0)
    else
      18262.0 <= days1900 <= 54788.0
  }

  predicate SiteInRange(latitude: real, longitude: real) {
    -90.0 <= latitude <= 90.0 && -180.0 <= longitude <= 180.0
  }

  /** Whole days from 2000/01/00 to day `daynumber` of `year`, as the code
      has it: `floor(dy*365 + dy/4 + daynumber)` with Python's true division,
      plus 1 after 2000. `EpochOf` uses it; `DeltaDays` is the count it is
      meant to give. */
  function DeltaDaysAsWritten(year: int, daynumber: int): (d: int)
    ensures 1950 <= year <= 2049 ==>
      d - DeltaDays(year, daynumber) ==
        (if year < 2000 && year % 4 != 0 then -1
         else if year > 2000 && year % 4 == 0 then 1
         else 0)
  {
    var dy := year - 2000;
    var d := ((dy * 365) as real + dy as real / 4.0 + daynumber as real).Floor;
    assert d == dy * 365 + daynumber + (dy as real / 4.0).Floor by {
      FloorShift(dy as real / 4.0, dy * 365 + daynumber);
    }
    assert (dy as real / 4.0).Floor == dy / 4 by { QuarterFloor(dy); }
    if year > 2000 then d + 1 else d
  }

  /** Whole days from 2000/01/00 to day `daynumber` of `year` in the Gregorian
      calendar of 1901-2099, where every fourth year from 2000 is a leap year. */
  function DeltaDays(year: int, daynumber: int): (d: int)
    ensures 1901 <= year <= 2099 ==> d == DayNumber.DaysFrom2000(year) + daynumber
  {
    var dy := year - 2000;
    assert 1901 <= year <= 2099 ==> WholeYearDays(dy) == DayNumber.DaysFrom2000(year) by {
      if 1901 <= year <= 2099 { DeltaDaysCountsDays(year); }
    }
    WholeYearDays(dy) + daynumber
  }

  /** The days in the `dy` whole years from 2000 on: 365 each, and one more
      for each year divisible by four among them. */
  function WholeYearDays(dy: int): int {
    dy * 365 + (dy + 3) / 4
  }

  lemma {:induction false} DeltaDaysCountsDays(year: int)
    requires 1901 <= year <= 2099
    ensures WholeYearDays(year - 2000) == DayNumber.DaysFrom2000(year)
    decreases if year < 2000 then 2000 - year else year - 2000
  {
    if year > 2000 {
      DeltaDaysCountsDays(year - 1);
      WholeYearsStep(year - 1);
    } else if year < 2000 {
      DeltaDaysCountsDays(year + 1);
      WholeYearsStep(year);
    }
  }

  /** Between 1901 and 2099 the closed form grows by the length of each year. */
  lemma WholeYearsStep(y: int)
    requires 1901 <= y <= 2099
    ensures WholeYearDays(y + 1 - 2000) == WholeYearDays(y - 2000) + DayNumber.YearLength(y)
  {
    var dy := y - 2000;
    var q, r := dy / 4, dy % 4;
    assert dy == 4 * q + r;
    assert y == 4 * (q + 500) + r;
    assert y % 4 == r;
    assert DayNumber.IsLeapYear(y) <==> r == 0;
    assert (dy + 1 + 3) / 4 == q + 1;
    assert (dy + 3) / 4 == q + (if r == 0 then 0 else 1);
  }

  lemma FloorShift(x: real, k: int)
    ensures (k as real + x).Floor == k + x.Floor
  {
  }

  /** Flooring a true quarter is Dafny's (Euclidean, hence floor) division by 4. */
  lemma QuarterFloor(n: int)
    ensures (n as real / 4.0).Floor == n / 4
  {
    var q := n / 4;
    assert n == 4 * q + n % 4;
    assert q as real <= n as real / 4.0 < q as real + 1.0;
  }

  /** Day number within the year of a date given as year+month+day or year+day-of-year. */
  function DayOfYear(year: int, month: int, day: real): (n: int)
    requires year != 0 && DateInRange(year, month, day, 0.0)
    ensures month == 0 ==> n == day.Floor
    ensures month != 0 ==> n == DayNumber.DayNum(year, month, day.Floor)
    ensures month != 0 ==> n == DayNumber.DaysBeforeMonth(year, month) + day.Floor
  {
    if month != 0 then
      DayNumber.DayNumMatchesCalendar(year, month, 1);
      DayNumber.DayNum(year, month, day.Floor)
    else day.Floor
  }

  /** The epoch of the date, or None when the date is out of range. */
  function EpochOf(year: int, month: int, day: real, days1900: real): (e: Option<Epoch>)
    ensures e.Some? <==> DateInRange(year, month, day, days1900)
    ensures e.Some? ==> 0.0 <= e.value.ut < 24.0
    ensures e.Some? && year != 0 ==>
      e.value.daysJ2000 == DeltaDaysAsWritten(year, DayOfYear(year, month, day)) as real - 1.5 + Frac(day)
    ensures e.Some? && year == 0 ==>
      e.value.daysJ2000 == days1900 - 36525.5 &&
      e.value.centJ2000 == (days1900.Floor as real - 36525.5) / 36525.0
  {
    if !DateInRange(year, month, day, days1900) then None
    else if year != 0 then
      var deltaDays := DeltaDaysAsWritten(year, DayOfYear(year, month, day));
      var daysJ2000 := deltaDays as real - 1.5;
      Some(Epoch(daysJ2000 + Frac(day), daysJ2000 / 36525.0, Frac(day) * 24.0))
    else
      Some(Epoch(days1900 - 36525.5, (days1900.Floor as real - 36525.5) / 36525.0,
                 Frac(days1900) * 24.0))
  }

  // ---------------------------------------------------- range reductions

  /** An angle in degrees converted to radians and reduced by whole turns
      into [0, 2pi), as done for the mean anomaly and mean longitude. */
  function TurnRadians(degrees: real): (r: real)
    ensures 0.0 <= r < TWOPI
    ensures degrees / 360.0 - r / TWOPI == (degrees / 360.0).Floor as real
  {
    (degrees / 360.0 - (degrees / 360.0).Floor as real) * TWOPI
  }

  /** Right ascension from the `atan2` value: moved from (-pi, pi] to
      [0, 2pi) and expressed in hours, reduced into [0, 24). */
  function RightAscensionHours(apRa: real): (r: real)
    ensures 0.0 <= r < 24.0
    ensures 0.0 <= apRa < TWOPI ==> r == apRa / TWOPI * 24.0
    ensures -TWOPI <= apRa < 0.0 ==> r == (apRa + TWOPI) / TWOPI * 24.0
  {
    var a := if apRa < 0.0 then apRa + TWOPI else apRa;
    (a / TWOPI - (a / TWOPI).Floor as real) * 24.0
  }

  /** The code's emulation of the fractional part returned by C `modf`:
      `floor`, moved one up when negative. */
  function ModfFraction(x: real): (r: real)
    ensures -1.0 <= r < 1.0
    ensures x - r == (x - r).Floor as real
    ensures x >= 0.0 ==> r == Frac(x)
  {
    var integral := if x.Floor < 0 then x.Floor + 1 else x.Floor;
    assert (integral as real).Floor == integral;
    x - integral as real
  }

  /** C `modf`'s fractional part: `x` minus `x` truncated toward zero. */
  function CModfFraction(x: real): (r: real)
    ensures -1.0 < r < 1.0
    ensures x >= 0.0 ==> r >= 0.0
    ensures x <= 0.0 ==> r <= 0.0
  {
    if x >= 0.0 then x - x.Floor as real else x + (-x).Floor as real
  }

  /** The emulation matches C `modf` except on negative whole numbers, where
      it yields -1 instead of 0. */
  lemma ModfFractionVersusC(x: real)
    ensures x < 0.0 && x == x.Floor as real ==> ModfFraction(x) == -1.0 && CModfFraction(x) == 0.0
    ensures !(x < 0.0 && x == x.Floor as real) ==> ModfFraction(x) == CModfFraction(x)
  {
    if x < 0.0 && x != x.Floor as real {
      assert (-x).Floor == -x.Floor - 1;
    }
  }

  /** Greenwich mean sidereal time at 0h UT, in hours. The code's fix-up
      `gmst0h <- gmst0h + 24.0` is a comparison, so a negative value stays
      negative. */
  function Gmst0h(centJ2000: real): (r: real)
    ensures -24.0 <= r < 24.0
  {
    var seconds := 24110.54841 + centJ2000 * (8640184.812866 + centJ2000 * (0.093104 - centJ2000 * 0.0000062));
    ModfFraction(seconds / 3600.0 / 24.0) * 24.0
  }

  /** Local mean sidereal time in [0, 24): the modf emulation followed by
      the +24 fix-up reduces the sidereal time modulo 24 hours. */
  function LocalMeanSiderealTime(gmst0h: real, ut: real, longitude: real): (r: real)
    ensures 0.0 <= r < 24.0
    ensures r == Frac((gmst0h + ut * 1.00273790934 + longitude / 15.0) / 24.0) * 24.0
  {
    var lmst := gmst0h + ut * 1.00273790934 + longitude / 15.0;
    var frac := ModfFraction(lmst / 24.0);
    assert frac == Frac(lmst / 24.0) || frac == Frac(lmst / 24.0) - 1.0 by {
      var x := lmst / 24.0;
      if x.Floor < 0 {
        assert frac == x - x.Floor as real - 1.0;
      }
    }
    var r := frac * 24.0;
    if r < 0.0 then r + 24.0 else r
  }

  /** A sidereal time shifted by whole days gives the same local sidereal
      time, so the -1 of the modf emulation in `Gmst0h` has no effect on it. */
  lemma {:induction false} LmstIgnoresWholeDays(gmst0h: real, k: int, ut: real, longitude: real)
    ensures LocalMeanSiderealTime(gmst0h + 24.0 * k as real, ut, longitude)
         == LocalMeanSiderealTime(gmst0h, ut, longitude)
  {
    var x := (gmst0h + ut * 1.00273790934 + longitude / 15.0) / 24.0;
    var y := (gmst0h + 24.0 * k as real + ut * 1.00273790934 + longitude / 15.0) / 24.0;
    assert y == x + k as real;
    assert y.Floor == x.Floor + k;
  }

  /** Local hour angle in hours, re-centred by one day at most. */
  function LocalHourAngle(lmst: real, apRa: real): (r: real)
    ensures -24.0 < lmst - apRa < 24.0 ==> -12.0 <= r <= 12.0
    ensures r == lmst - apRa || r == lmst - apRa + 24.0 || r == lmst - apRa - 24.0
    ensures -12.0 <= lmst - apRa <= 12.0 ==> r == lmst - apRa
  {
    var ha := lmst - apRa;
    if ha < -12.0 then ha + 24.0
    else if ha > 12.0 then ha - 24.0
    else ha
  }

  // ------------------------------------------------------------ refraction

  /** Refraction correction (degrees) for an altitude in degrees: none below
      -1 degree or at the tangent sentinel, the Almanac's rational formula
      below the crossover and the cotangent formula above it. This is the
      intended formula, dividing by (273 + temp); the code multiplies, and
      `SkyAt` follows the code through `RefractionAsWritten`. */
  function Refraction(altitude: real, tanAlt: real): (r: real)
    ensures altitude < -1.0 || tanAlt == TAN_SENTINEL ==> r == 0.0
    ensures -1.0 <= altitude < CROSSOVER && tanAlt != TAN_SENTINEL ==>
      r == LowAltitudeRatio(altitude) * PRESSURE / (273.0 + TEMP) && r > 0.0
    ensures altitude >= CROSSOVER && tanAlt != TAN_SENTINEL ==>
      r == HighAltitudeTerm(tanAlt) && (tanAlt > 0.0 ==> r > 0.0)
  {
    if altitude < -1.0 || tanAlt == TAN_SENTINEL then 0.0
    else if altitude < CROSSOVER then
      LowAltitudeRatio(altitude) * PRESSURE / (273.0 + TEMP)
    else
      HighAltitudeTerm(tanAlt)
  }

  /** The refraction exactly as the code computes it, multiplying by (273 + temp). */
  function RefractionAsWritten(altitude: real, tanAlt: real): (r: real)
    ensures altitude < -1.0 || tanAlt == TAN_SENTINEL ==> r == 0.0
    ensures -1.0 <= altitude < CROSSOVER && tanAlt != TAN_SENTINEL ==>
      r == Refraction(altitude, tanAlt) * (273.0 + TEMP) * (273.0 + TEMP)
    ensures altitude >= CROSSOVER ==> r == Refraction(altitude, tanAlt)
  {
    if altitude < -1.0 || tanAlt == TAN_SENTINEL then 0.0
    else if altitude < CROSSOVER then
      LowAltitudeRatio(altitude) * PRESSURE * (273.0 + TEMP)
    else
      HighAltitudeTerm(tanAlt)
  }

  /** `(0.1594 + a*(0.0196 + 0.00002*a)) / (1 + a*(0.505 + 0.0845*a))`, positive from -1 degree on. */
  function LowAltitudeRatio(a: real): (r: real)
    requires -1.0 <= a
    ensures r > 0.0
  {
    var num := 0.1594 + a * (0.0196 + 0.00002 * a);
    var den := 1.0 + a * (0.505 + 0.0845 * a);
    assert num > 0.0 by {
      if a < 0.0 { assert a * (0.0196 + 0.00002 * a) >= -0.0196; }
      else { assert a * (0.0196 + 0.00002 * a) >= 0.0; }
    }
    assert den > 0.0 by {
      if a < 0.0 { assert a * (0.505 + 0.0845 * a) >= -0.505; }
      else { assert a * (0.505 + 0.0845 * a) >= 0.0; }
    }
    num / den
  }

  /** `0.00452 * (pressure / (273 + temp)) / tan_alt` */
  function HighAltitudeTerm(tanAlt: real): (r: real)
    ensures tanAlt > 0.0 ==> r > 0.0
  {
    if tanAlt == 0.0 then 0.0 else 0.00452 * (PRESSURE / (273.0 + TEMP)) / tanAlt
  }

  // ------------------------------------------------------ apparent position

  /** Mean anomaly and mean longitude (radians), obliquity, ecliptic longitude. */
  datatype Ecliptic = Ecliptic(meanAnomaly: real, meanLongitude: real, obliquity: real, longitude: real)

  function EclipticOf(m: Math, daysJ2000: real): (ec: Ecliptic)
    ensures 0.0 <= ec.meanAnomaly < TWOPI && 0.0 <= ec.meanLongitude < TWOPI
  {
    var g := TurnRadians(357.528 + 0.9856003 * daysJ2000);
    var l := TurnRadians(280.460 + 0.9856474 * daysJ2000);
    var obliquity := (23.439 - 0.0000004 * daysJ2000) * DEG_RAD;
    var longitude := (1.915 * Sin(m, g) + 0.020 * Sin(m, 2.0 * g)) * DEG_RAD + l;
    Ecliptic(g, l, obliquity, longitude)
  }

  /** Earth-sun distance from the two-term eccentricity series. */
  function Distance(m: Math, ec: Ecliptic): (r: real)
    ensures 0.98329 <= r <= 1.01699
  {
    1.00014 - 0.01671 * Cos(m, ec.meanAnomaly) - 0.00014 * Cos(m, 2.0 * ec.meanAnomaly)
  }

  /** Apparent right ascension in hours, from the quadrant-correct `atan2`. */
  function ApparentRightAscension(m: Math, ec: Ecliptic): (r: real)
    ensures 0.0 <= r < 24.0
  {
    RightAscensionHours(Atan2(m, Cos(m, ec.obliquity) * Sin(m, ec.longitude), Cos(m, ec.longitude)))
  }

  /** Apparent declination in radians. */
  function DeclinationRadians(m: Math, ec: Ecliptic): (r: real)
    ensures -HALF_PI <= r <= HALF_PI
  {
    Asin(m, Sin(m, ec.obliquity) * Sin(m, ec.longitude))
  }

  /** Geometric altitude in radians, for latitude (degrees), declination
      (radians) and local hour angle (hours). */
  function AltitudeRadians(m: Math, latitude: real, dec: real, localHa: real): (r: real)
    ensures -HALF_PI <= r <= HALF_PI
  {
    var lat := latitude * DEG_RAD;
    var lha := localHa / 24.0 * TWOPI;
    Asin(m, Sin(m, dec) * Sin(m, lat) + Cos(m, dec) * Cos(m, lha) * Cos(m, lat))
  }

  /** `tan(altitude)`, or the sentinel within 1e-5 degrees of the zenith or nadir. */
  function TanAltitude(m: Math, alt: real): (r: real)
    ensures Abs(alt) >= TAN_LIMIT ==> r == TAN_SENTINEL
    ensures 0.0 < alt < TAN_LIMIT ==> r > 0.0
  {
    if Abs(alt) < TAN_LIMIT then Tan(m, alt) else TAN_SENTINEL
  }

  /** Azimuth in radians, in [0, 2pi]: `acos` gives [0, pi] and the sign of
      `atan2(sin_az, cos_az)` selects the half. */
  function AzimuthRadians(m: Math, latitude: real, dec: real, localHa: real, alt: real): (r: real)
    requires -HALF_PI <= alt <= HALF_PI
    ensures 0.0 <= r <= TWOPI
  {
    var lat := latitude * DEG_RAD;
    var lha := localHa / 24.0 * TWOPI;
    var cosAlt := Cos(m, alt);
    var cosAz := (Sin(m, dec) * Cos(m, lat) - Cos(m, dec) * Cos(m, lha) * Sin(m, lat)) / cosAlt;
    var sinAz := -(Cos(m, dec) * Sin(m, lha) / cosAlt);
    var az := Acos(m, cosAz);
    if Atan2(m, sinAz, cosAz) < 0.0 then TWOPI - az else az
  }

  /** Local hour angle (hours) of the sun at an epoch and longitude. */
  function HourAngleAt(m: Math, e: Epoch, longitude: real): (r: real)
    ensures -12.0 <= r <= 12.0
  {
    var ec := EclipticOf(m, e.daysJ2000);
    var apRa := ApparentRightAscension(m, ec);
    var lmst := LocalMeanSiderealTime(Gmst0h(e.centJ2000), e.ut, longitude);
    LocalHourAngle(lmst, apRa)
  }

  /** `solarposition(year, month, day, days_1900, latitude, longitude)`. */
  function SolarPositionOf(m: Math, year: int, month: int, day: real, days1900: real,
                           latitude: real, longitude: real): (p: Position)
    ensures p.OutOfRange? <==> !SiteInRange(latitude, longitude) || !DateInRange(year, month, day, days1900)
    ensures p.Ok? ==>
      var s := p.state;
      0.0 <= s.apRa < 24.0 &&
      -HALF_PI * RAD_DEG <= s.apDec <= HALF_PI * RAD_DEG &&
      0.0 <= s.azimuth <= TWOPI * RAD_DEG &&
      0.98329 <= s.distance <= 1.01699 &&
      s.refraction >= 0.0
  {
    if !SiteInRange(latitude, longitude) then OutOfRange
    else match EpochOf(year, month, day, days1900)
      case None => OutOfRange
      case Some(e) => Ok(SkyAt(m, e, latitude, longitude))
  }

  /** The position at a validated epoch and site. */
  function SkyAt(m: Math, e: Epoch, latitude: real, longitude: real): (s: SolarState)
    ensures 0.0 <= s.apRa < 24.0
    ensures -HALF_PI * RAD_DEG <= s.apDec <= HALF_PI * RAD_DEG
    ensures 0.0 <= s.azimuth <= TWOPI * RAD_DEG
    ensures 0.98329 <= s.distance <= 1.01699
    ensures s.refraction >= 0.0
    ensures var alt := AltitudeRadians(m, latitude, DeclinationRadians(m, EclipticOf(m, e.daysJ2000)), HourAngleAt(m, e, longitude));
      s.altitude == alt * RAD_DEG + s.refraction &&
      s.refraction == RefractionAsWritten(alt * RAD_DEG, TanAltitude(m, alt))
  {
    var ec := EclipticOf(m, e.daysJ2000);
    var apRa := ApparentRightAscension(m, ec);
    var dec := DeclinationRadians(m, ec);
    var localHa := HourAngleAt(m, e, longitude);
    var alt := AltitudeRadians(m, latitude, dec, localHa);
    var tanAlt := TanAltitude(m, alt);
    var az := AzimuthRadians(m, latitude, dec, localHa, alt);
    var altitude := alt * RAD_DEG;
    var refraction := RefractionAsWritten(altitude, tanAlt);
    assert refraction >= 0.0 by {
      if altitude >= CROSSOVER && tanAlt != TAN_SENTINEL {
        assert alt > 0.0;
        assert tanAlt > 0.0;
      }
    }
    SolarState(apRa, dec * RAD_DEG, altitude + refraction, refraction, az * RAD_DEG, Distance(m, ec))
  }

  /** Within 1e-5 degrees of the zenith or nadir, and below -1 degree, no
      refraction is applied, by the code's formula and the corrected one. */
  lemma NoRefractionNearPoles(m: Math, alt: real)
    requires Abs(alt) >= TAN_LIMIT || alt * RAD_DEG < -1.0
    ensures RefractionAsWritten(alt * RAD_DEG, TanAltitude(m, alt)) == 0.0
    ensures Refraction(alt * RAD_DEG, TanAltitude(m, alt)) == 0.0
  {
  }

  // ------------------------------------------------------------- findings

  /** Finding: at the horizon the as-written low-altitude branch returns more
      than 46000 degrees of refraction, where the Almanac gives about half a degree. */
  lemma RefractionAsWrittenAtHorizon(m: Math)
    ensures RefractionAsWritten(0.0, TanAltitude(m, 0.0)) > 46000.0
    ensures 0.5 < Refraction(0.0, TanAltitude(m, 0.0)) < 0.6
  {
    assert TanAltitude(m, 0.0) == 0.0;
    assert LowAltitudeRatio(0.0) == 0.1594;
  }

  /** The corrected formula keeps the Almanac's promise: from -1 degree up to
      the crossover the refraction is positive and below one degree. */
  lemma RefractionBelowOneDegree(altitude: real, tanAlt: real)
    requires -1.0 <= altitude < CROSSOVER && tanAlt != TAN_SENTINEL
    ensures 0.0 < Refraction(altitude, tanAlt) < 1.0
  {
    var a := altitude;
    var num := 0.1594 + a * (0.0196 + 0.00002 * a);
    var den := 1.0 + a * (0.505 + 0.0845 * a);
    assert LowAltitudeRatio(a) == num / den;
    assert den > 0.0 by {
      if a < 0.0 { assert a * (0.505 + 0.0845 * a) >= -0.505; }
      else { assert a * (0.505 + 0.0845 * a) >= 0.0; }
    }
    var u := a + 1.0;
    assert u >= 0.0;
    // 288 * den - 1013.25 * num, rewritten around a = -1
    assert 288.0 * den - PRESSURE * num == 25.223385 + 76.94883 * u + 24.315735 * (u * u);
    assert u * u >= 0.0;
    assert PRESSURE * num < 288.0 * den;
    assert Refraction(a, tanAlt) == (num / den) * PRESSURE / 288.0;
    assert (num / den) * PRESSURE / 288.0 == (PRESSURE * num) / (288.0 * den);
    var q := (PRESSURE * num) / (288.0 * den);
    assert 1.0 - q == (288.0 * den - PRESSURE * num) / (288.0 * den);
  }

  /** Finding: the as-written day count. The true quotient `dy / 4` is
      floored together with the rest, so years 1950-1999 off a leap year lose
      a day; and leap years after 2000 count the year 2000 twice. The count then jumps by 2 across New Year. */
  lemma DeltaDaysAsWrittenSkipsDays()
    ensures DeltaDaysAsWritten(1999, 1) == -365 && DeltaDays(1999, 1) == -364
    ensures DeltaDaysAsWritten(2004, 1) == 1463 && DeltaDays(2004, 1) == 1462
    ensures DeltaDaysAsWritten(2000, 1) - DeltaDaysAsWritten(1999, 365) == 2
    ensures DeltaDaysAsWritten(2004, 1) - DeltaDaysAsWritten(2003, 365) == 2
    ensures DeltaDaysAsWritten(1950, 0) == 18262 - 36524 - 1
  {
  }

  /** The corrected count advances by one from the last day of a year to the
      first day of the next. */
  lemma DeltaDaysAcrossNewYear(year: int)
    requires 1901 <= year < 2099
    ensures DeltaDays(year + 1, 1) == DeltaDays(year, DayNumber.YearLength(year)) + 1
  {
    assert DayNumber.DaysFrom2000(year + 1) == DayNumber.DaysFrom2000(year) + DayNumber.YearLength(year);
  }

  /** The corrected count agrees with the days-since-1900 encoding (36524 on
      2000/01/00) at both ends of the accepted range: 1950/01/00 is 18262 and
      2049/12/32 is 54788. */
  lemma DeltaDaysMatchesDays1900()
    ensures DeltaDays(1950, 0) == 18262 - 36524
    ensures DeltaDays(2049, 366) == 54788 - 36524
  {
  }
}
