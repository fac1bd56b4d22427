# Liljegren WBGT core of heatmetrics_python, in Dafny

This project models the outdoor wet-bulb globe temperature (WBGT) of
Liljegren et al. (2008), as the Python package `heatmetrics_python`
computes it, and proves properties of the model.

WBGT is `0.1 Ta + 0.2 Tg + 0.7 Tnwb`:

- `Ta` is the air temperature.
- `Tg` is the temperature of a 2-inch black globe.
- `Tnwb` is the natural wet-bulb temperature.

The model covers these parts of the package:

- **Solar geometry.** `daynum`, `solarposition`, `calc_solarHA`, `calc_cza` and `calc_cza_int`.
- **Irradiance adjustment.** `calc_solar_parameters` and `calc_fdir`.
- **Wind.** The SRDT stability class (`stab_srdt`) and the power-law 2 m wind speed (`est_wind_speed`).
- **Saturation vapour pressure** and its inverse: `esat` and `dew_point`.
- **The two energy-balance solvers:** `Tglobe` and `Tpsy`. Both run the same damped fixed-point loop.
- **The `wbgt` orchestrator.**

One Dafny module stands for each Python file.

**Shared modules.** Four modules are used by all the others:

- `Python` models the value semantics the code relies on:
  - NaN as `Float.NaN`, and an exception as `Call.Raises`;
  - negative list indexing;
  - `min`, `max` and `abs`.
- `Transcendentals` holds `math.sin`, `cos`, `tan`, `asin`, `acos`, `atan2`, `exp`, `log`, `sqrt` and `**` as arbitrary functions. Each operation forces its function into the true function's range and nothing more. A lemma that needs an identity states it as a precondition: `PythagoreanAt`, `SqrtExactAt` or `LogInvertsExp`.
- `Physics` holds the correlations the solvers consume as arbitrary functions (`h_sphere_in_air`, `h_cylinder_in_air`, `viscosity`, `diffusivity`, `evap`). It also holds the declination regression `calc_solarDA` and the natural wet-bulb solver `Twb`. The two convective correlations may raise, as `h_sphere_in_air` does at a zero temperature or on a negative Reynolds number. Their own `max(speed, 0.5)` floor is modelled: `Physics.HSphere` and `Physics.HCylinder` apply it before the arbitrary part. The atmospheric emissivity `emis_atm` is written out over `esat` (`Physics.EmisAtm`), so it raises where `esat` over water does, at 32.18 K. `Tpsy` never reaches that pole inside its loop: its set-up's own `esat(Tair)` raises there first.
- `DampedIteration` is the loop shared by `Tglobe` and `Tpsy`:
  - it starts from a first guess;
  - it stops when two estimates agree within 0.02;
  - otherwise it blends 90/10 toward the new estimate;
  - it runs at most 100 times.

  Each solver is a `while` loop with `break`. A method holds that loop and is proved equal to the recursive specification `Iterate`.

**Imperative parts.** `calc_cza_int` keeps its two nested `for` loops:

- CalcCzaInt.Integrate: runs the outer loop over the two sub-intervals.
- CalcCzaInt.SubInterval: runs the inner loop over the three Gauss nodes. `CalcCzaInt.AddNode` is one pass of that inner loop.

These methods take the sampled function as a parameter. `CalcCzaInt.CzaInt` passes `calc_cza` to them. The methods are proved against the quadrature sum `QuadratureSum`. The rule itself is then proved to be a weighted mean, exact on quadratics once `math.sqrt(3/5)` is exact.

**Dates.** `datetime` is modelled on the proleptic Gregorian calendar of the years 1 to 9999:

- `strptime` raises on a date it cannot parse.
- Adding a `timedelta` of `hr` hours moves the day by `floor(hr / 24)` days, across month and year ends.
- It raises when the result leaves year 1 to 9999. This is `CalcCza.InDatetimeRange`.

**Where the code differs from the package's own description,** the model follows the code:

- `calc_cza_int` averages over the two hours `[hr - 1, hr + 1]`: two unit sub-intervals whose sum is divided by 2. It does not average over half an hour either side.
- `solarposition` counts the days since J2000 and computes the low-altitude refraction as the code does (`DeltaDaysAsWritten`, `RefractionAsWritten`), although both differ from what the comments describe (see Findings). The intended versions are kept beside them, with their own properties.
- A 2 m wind reading reaches both solvers without the 0.5 m/s floor (see Findings). `Wbgt.SlowWindIsFloored` shows that this changes no result, because the convective correlations floor the speed themselves.
- `wbgt` passes the caller's own `cza` and `fdir` to the globe solver. Of the result of `calc_solar_parameters` it keeps only `solarRet`.
- A NaN `cza` or `fdir` never reaches `calc_solar_parameters`. The missing-value screen returns NaN first, although a comment says that NaN selects the estimates.
- Relative humidity is not clamped to [0, 1].
- `solarposition.py:215` writes `gmst0h <- gmst0h + 24.0`, which is a comparison. A negative sidereal time at 0h therefore stays negative. `SolarPosition.LmstIgnoresWholeDays` shows this cannot change any output, because the local sidereal time is reduced modulo 24 hours afterwards.

## Model

| member | source | states |
|---|---|---|
| DayNumber.YearLength | src/heatmetrics_python/daynum.py:29-31 | a year has 366 days exactly when it is a Gregorian leap year, and 365 otherwise |
| DayNumber.DayNum | src/heatmetrics_python/daynum.py:23-37 | a year below 1 gives -1 |
| DayNumber.DaysInMonth | src/heatmetrics_python/daynum.py:29-37 | a month has 28 to 31 days; February has 29 exactly in a leap year |
| DayNumber.DaysBeforeMonthBounds | src/heatmetrics_python/daynum.py:33-37 | the days before a month are between 28 and 31 per earlier month, and all twelve months make up the year |
| DayNumber.DayNumMatchesCalendar | src/heatmetrics_python/daynum.py:29-37 | on every valid date, `daynum` is the sum of the lengths of the earlier months of that year, counted month by month, plus the day |
| DayNumber.DayNumInYear | src/heatmetrics_python/daynum.py:29-37 | a valid date is numbered from 1 to the length of its year |
| DayNumber.DayNumSuccessor | src/heatmetrics_python/daynum.py:29-37 | the next day of the same month, and the first day of the next month, are numbered one higher |
| DayNumber.DecemberLast | src/heatmetrics_python/daynum.py:29-37 | 31 December is numbered with the length of its year |
| DayNumber.JanuaryIsDay | src/heatmetrics_python/daynum.py:33-37 | in January the number is the day of the month |
| DayNumber.CenturyRule | src/heatmetrics_python/daynum.py:29-31 | 1900 and 2001 are not leap years; 1996 and 2000 are |
| DayNumber.ShiftDays | src/heatmetrics_python/calc_cza.py:30-31 | adding a `timedelta` of whole days to a day of a year gives a day of a year again, numbered from 1 to that year's length |
| DayNumber.NextDay | src/heatmetrics_python/calc_cza.py:30-31 | the day after a day of the calendar is a day of the calendar, one higher in the day count |
| DayNumber.PrevDay | src/heatmetrics_python/calc_cza.py:30-31 | the day before is a day of the calendar, one lower in the day count |
| DayNumber.ShiftDaysMovesOrdinal | src/heatmetrics_python/calc_cza.py:30-31 | adding k days to a date moves its day count by exactly k, across month and year ends, backwards when k is negative |
| DayNumber.OrdinalInjective | src/heatmetrics_python/calc_cza.py:30-35 | two days of the calendar with the same day count are the same day, so the shifted date, and with it `%j`, is determined |
| SolarPosition.SolarPositionOf | src/heatmetrics_python/solarposition.py:105-310 | out of range (`-1`) exactly when the site or the date encoding is out of range; otherwise, with the code's own day count and refraction, right ascension in [0, 24) h, declination within +-90 degrees, azimuth in [0, 360] degrees, distance in [0.98329, 1.01699] AU, refraction at least 0 |
| SolarPosition.EpochOf | src/heatmetrics_python/solarposition.py:113-166 | an epoch exists exactly for dates in range; UT hours lie in [0, 24); days since J2000 are the code's day count `DeltaDaysAsWritten` minus 1.5 plus the day fraction, or `days_1900 - 36525.5` in the 1900 encoding |
| SolarPosition.DayOfYear | src/heatmetrics_python/solarposition.py:121-129 | the day number is `floor(day)` for year + day-of-year; for year + month + day it is `daynum` of `floor(day)`, which is the days of the earlier months of that year counted month by month plus `floor(day)`, for every day the range check admits (0 to 33) |
| SolarPosition.DeltaDaysAsWritten | src/heatmetrics_python/solarposition.py:134-140 | the code's count, compared with the corrected one over 1950-2049: one day less in 1950-1999 for years not divisible by 4, one day more in leap years after 2000, the same otherwise |
| SolarPosition.DeltaDays | src/heatmetrics_python/solarposition.py:134-140 | the corrected count: over 1901-2099 it equals the calendar's days from 2000/01/00 to the day |
| SolarPosition.DeltaDaysCountsDays | src/heatmetrics_python/solarposition.py:134-138 | the closed form `365 dy + ceil(dy / 4)` counts the days of the whole years between 2000 and the year, over 1901-2099 |
| SolarPosition.DeltaDaysAcrossNewYear | src/heatmetrics_python/solarposition.py:134-140 | the corrected count goes up by one from the last day of a year to 1 January of the next |
| SolarPosition.DeltaDaysMatchesDays1900 | src/heatmetrics_python/solarposition.py:151-159 | the corrected count agrees with the days-since-1900 encoding at both ends of its accepted range: day 0 of 1950 is day 18262 after 1900/01/00, and day 366 of 2049 is day 54788 |
| SolarPosition.DeltaDaysAsWrittenSkipsDays | src/heatmetrics_python/solarposition.py:134-140 | as written, 1999/001 and 2004/001 are one day off the calendar, and the count jumps by 2 across the new years 1999-2000 and 2003-2004 |
| SolarPosition.TurnRadians | src/heatmetrics_python/solarposition.py:171-179 | the mean anomaly and mean longitude are reduced into [0, 2 pi) by whole turns only |
| SolarPosition.RightAscensionHours | src/heatmetrics_python/solarposition.py:189-197 | right ascension in [0, 24) h: the `atan2` angle, raised by 2 pi when negative, scaled to hours |
| SolarPosition.EclipticOf | src/heatmetrics_python/solarposition.py:171-183 | the mean anomaly and the mean longitude lie in [0, 2 pi) |
| SolarPosition.Distance | src/heatmetrics_python/solarposition.py:185 | the earth-sun distance lies in [0.98329, 1.01699] AU |
| SolarPosition.ApparentRightAscension | src/heatmetrics_python/solarposition.py:189-197 | apparent right ascension in [0, 24) h |
| SolarPosition.DeclinationRadians | src/heatmetrics_python/solarposition.py:199 | apparent declination in [-pi/2, pi/2] |
| SolarPosition.ModfFraction | src/heatmetrics_python/solarposition.py:209-212 | the code's `modf` emulation leaves a whole number when subtracted, lies in [-1, 1), and is the fractional part for non-negative input |
| SolarPosition.ModfFractionVersusC | src/heatmetrics_python/solarposition.py:208-212 | the emulation equals C `modf` everywhere except on negative whole numbers, where it gives -1 instead of 0 |
| SolarPosition.Gmst0h | src/heatmetrics_python/solarposition.py:205-215 | Greenwich sidereal time at 0h lies in [-24, 24) h, because the +24 fix-up is a comparison |
| SolarPosition.LocalMeanSiderealTime | src/heatmetrics_python/solarposition.py:221-230 | local sidereal time is the sidereal time modulo 24 h, in [0, 24) |
| SolarPosition.LmstIgnoresWholeDays | src/heatmetrics_python/solarposition.py:214-230 | shifting the sidereal time at 0h by whole days leaves the local sidereal time unchanged |
| SolarPosition.LocalHourAngle | src/heatmetrics_python/solarposition.py:235-242 | the hour angle is `lmst - ap_ra` moved by at most one day; it is unchanged within +-12 h and lands in [-12, 12] h for inputs less than a day apart |
| SolarPosition.AltitudeRadians | src/heatmetrics_python/solarposition.py:245-254 | the geometric altitude lies in [-pi/2, pi/2] |
| SolarPosition.TanAltitude | src/heatmetrics_python/solarposition.py:258-264 | the tangent of the altitude is the sentinel 6e6 within 1e-5 degrees of +-90, and positive for a low positive altitude |
| SolarPosition.AzimuthRadians | src/heatmetrics_python/solarposition.py:266-272 | the azimuth lies in [0, 2 pi] |
| SolarPosition.HourAngleAt | src/heatmetrics_python/solarposition.py:201-242 | the local hour angle at an epoch lies in [-12, 12] h |
| SolarPosition.Refraction | src/heatmetrics_python/solarposition.py:279-298 | the corrected refraction: 0 below -1 degree or at the tangent sentinel; below the 19.225-degree crossover the Almanac ratio times pressure over (273 + temp), positive; above it the cotangent term, positive for positive tangent |
| SolarPosition.RefractionAsWritten | src/heatmetrics_python/solarposition.py:291-298 | as written, the low-altitude branch is the corrected one times (273 + temp)^2; elsewhere the two agree |
| SolarPosition.LowAltitudeRatio | src/heatmetrics_python/solarposition.py:295-296 | the low-altitude rational function is positive from -1 degree up |
| SolarPosition.HighAltitudeTerm | src/heatmetrics_python/solarposition.py:298 | the high-altitude term is positive for positive tangent |
| SolarPosition.NoRefractionNearPoles | src/heatmetrics_python/solarposition.py:261-292 | within 1e-5 degrees of the zenith or nadir, or below -1 degree, there is no refraction, by the code's formula and by the corrected one |
| SolarPosition.RefractionBelowOneDegree | src/heatmetrics_python/solarposition.py:279-296 | from -1 degree to the crossover, the corrected refraction is positive and below one degree |
| SolarPosition.RefractionAsWrittenAtHorizon | src/heatmetrics_python/solarposition.py:294-296 | at the horizon the code's refraction exceeds 46000 degrees, while the corrected value is between 0.5 and 0.6 degrees |
| SolarPosition.SkyAt | src/heatmetrics_python/solarposition.py:168-310 | the reported altitude is the geometric altitude plus the refraction; the refraction is the code's formula `RefractionAsWritten` at that altitude, and at least 0; all outputs are in the ranges above |
| CalcSolarParameters.TopOfAtmosphere | src/heatmetrics_python/calc_solar_parameters.py:57-65 | the top-of-atmosphere irradiance times the squared distance is `1367 cza`, and 0 below `CZA_MIN` |
| CalcSolarParameters.DirectFraction | src/heatmetrics_python/calc_solar_parameters.py:77 | the estimated direct fraction is positive |
| CalcSolarParameters.Adjust | src/heatmetrics_python/calc_solar_parameters.py:54-85 | no sun above `CZA_MIN`: the inputs are returned, with cza floored at 0. Sun above it: the irradiance becomes `min(solar, 0.85 toa)`. With positive irradiance, cza is kept, and fdir is clamped to [0, 0.9] or, when NaN, is the positive estimate `DirectFraction` at the normalized irradiance `min(solar / toa, 0.85)`. With none, cza and fdir become 0 |
| CalcSolarParameters.SolarParameters | src/heatmetrics_python/calc_solar_parameters.py:37-85 | raises exactly when the date or site is out of range for `solarposition` (as written); otherwise the returned cza is at least 0, and a given non-negative cza is kept unless cza and fdir are both zeroed; the result is the adjustment at the solar distance of the given cza, or for a NaN cza of `cos((90 - altitude) DEG_RAD)` |
| CalcSolarParameters.SolarRetBounds | src/heatmetrics_python/calc_solar_parameters.py:64-72 | with the sun above `CZA_MIN`, the returned irradiance is at most the measured one and at most 85% of the top-of-atmosphere value |
| CalcSolarParameters.EstimateExceedsMeasuredCap | src/heatmetrics_python/calc_solar_parameters.py:75-79 | under the tangent bound `exp(x) >= 1 + x`, the estimated fraction at the largest normalized irradiance 0.85 exceeds 0.9, the cap put on a measured fraction |
| CalcSolarParameters.BrightSunEstimateAboveCap | src/heatmetrics_python/calc_solar_parameters.py:67-79 | so an irradiance of at least 85% of the top-of-atmosphere value with no measured fraction is given a fraction above 0.9 |
| CalcFdir.Fdir | src/heatmetrics_python/calc_fdir.py:31-73 | raises exactly when the date or site is out of range; otherwise in [0, 0.9], and 0 below `CZA_MIN` or without irradiance |
| CalcFdir.FdirAt | src/heatmetrics_python/calc_fdir.py:45-73 | once the distance is known: in [0, 0.9], and 0 below `CZA_MIN` or without irradiance |
| CalcFdir.FdirMatchesSolarParameters | src/heatmetrics_python/calc_fdir.py:41-73 | `calc_fdir` is the clamped fraction that `calc_solar_parameters` estimates for a NaN fdir, and 0 where that one passes NaN through |
| CalcFdir.FdirAtMatchesAdjust | src/heatmetrics_python/calc_fdir.py:45-73 | the same relation once the distance is known |
| CalcSolarHA.TimeCorrection | src/heatmetrics_python/calc_solarHA.py:35-36 | the time correction is within +-5.127056 degrees |
| CalcSolarHA.SolarHourAngle | src/heatmetrics_python/calc_solarHA.py:26-49 | raises exactly on a date `strptime` rejects; otherwise the hour angle formula, lowered by 360 above 180, raised by 360 below -180, and unchanged within [-180, 180]; for hours 0-23 and longitudes within +-180 the result lies in [-180, 180] |
| CalcCza.ShiftedDay | src/heatmetrics_python/calc_cza.py:30-35 | the day of `date + hr hours` is a day of its year, `floor(hr / 24)` days after the date |
| CalcCza.CzaAt | src/heatmetrics_python/calc_cza.py:40-59 | the cosine is at least 0; it is 0 exactly when the spherical cosine is at most 0, and equals the spherical cosine otherwise |
| CalcCza.Cza | src/heatmetrics_python/calc_cza.py:30-59 | raises exactly when `datetime` does (bad date, or a result outside years 1-9999); otherwise a cosine of at least 0 |
| CalcCza.CzaSameDay | src/heatmetrics_python/calc_cza.py:30-38 | for 0 <= hr < 24, `calc_cza` uses `daynum` of the date and the hour itself |
| CalcCza.CzaBeforeMidnight | src/heatmetrics_python/calc_cza.py:30-38 | for -24 <= hr < 0: the previous day (across month and year ends) at `hr + 24`, or raises before year 1 |
| CalcCza.CzaAfterMidnight | src/heatmetrics_python/calc_cza.py:30-38 | for 24 <= hr < 48: the next day with the hour not brought back below 24, or raises after year 9999 |
| CalcCza.ZenithCosineAtMostOne | src/heatmetrics_python/calc_cza.py:45-54 | with the Pythagorean identity at the declination and latitude, the spherical cosine is at most 1 |
| CalcCza.CosineSumBound | src/heatmetrics_python/calc_cza.py:49-54 | `sin d sin l + cos d cos l c` is at most 1 for unit sine-cosine pairs and c in [-1, 1] |
| CalcCza.CzaAtMostOne | src/heatmetrics_python/calc_cza.py:40-59 | under the same identity, the floored cosine is at most 1 |
| CalcCzaInt.NodeArithmetic | src/heatmetrics_python/calc_cza_int.py:46-52 | the loop's `jacob * W[n]` and `jacob * E[n] + (tf + ti) / 2` are the weight and node of the rule |
| CalcCzaInt.NodeAt | src/heatmetrics_python/calc_cza_int.py:35-52 | each sub-interval has unit length: weights `W / 2` and nodes `E / 2` about its midpoint, -1/2 or 1/2 |
| CalcCzaInt.NodesInWindow | src/heatmetrics_python/calc_cza_int.py:32-52 | the six nodes lie in [-1, 1], symmetric about 0 |
| CalcCzaInt.AddNode | src/heatmetrics_python/calc_cza_int.py:54-61 | one inner pass raises exactly when the sample at the node does, and otherwise extends the sum to include that node |
| CalcCzaInt.SubInterval | src/heatmetrics_python/calc_cza_int.py:45-61 | the inner loop raises exactly when one of the sub-interval's three samples does, and otherwise extends the sum to the end of the sub-interval |
| CalcCzaInt.Integrate | src/heatmetrics_python/calc_cza_int.py:43-63 | both loops: raises exactly when one of the six samples does, and otherwise returns the quadrature mean of the samples |
| CalcCzaInt.CzaInt | src/heatmetrics_python/calc_cza_int.py:32-63 | `calc_cza_int` raises exactly when `calc_cza` raises at one of the six node times, and otherwise returns the quadrature mean of `calc_cza` about `hr`, which is at least 0 and at most the largest of the six samples |
| CalcCzaInt.QuadratureMeanExpanded | src/heatmetrics_python/calc_cza_int.py:32-63 | the rule is `5/36` at the four outer nodes and `8/36` at the two midpoints |
| CalcCzaInt.QuadratureMeanBounds | src/heatmetrics_python/calc_cza_int.py:32-63 | samples bounded on [-1, 1] give a mean within the same bounds |
| CalcCzaInt.QuadratureMeanOfConstant | src/heatmetrics_python/calc_cza_int.py:32-63 | constant samples average to the constant |
| CalcCzaInt.NodeMax | src/heatmetrics_python/calc_cza_int.py:45-59 | the largest of the six node samples: no sample is larger, and one sample equals it |
| CalcCzaInt.NodeMin | src/heatmetrics_python/calc_cza_int.py:45-59 | the smallest of the six node samples: no sample is smaller, and one sample equals it |
| CalcCzaInt.QuadratureMeanWithinNodes | src/heatmetrics_python/calc_cza_int.py:32-63 | the mean lies between the smallest and the largest of the six samples, whatever the sampled function does between the nodes |
| CalcCzaInt.QuadratureExactForQuadratics | src/heatmetrics_python/calc_cza_int.py:32-33 | with `sqrt(3/5)` exact, the rule returns the true mean `a + c/3` of every quadratic `a + b t + c t^2` over [-1, 1] |
| CalcCzaInt.HourMeanBounds | src/heatmetrics_python/calc_cza_int.py:32-63 | the hourly value is at least 0 and at most the largest of the six `calc_cza` samples, with no condition on `calc_cza` elsewhere |
| CalcCzaInt.HourMeanOfSteadySun | src/heatmetrics_python/calc_cza_int.py:32-63 | a cosine equal to `c` at the six sampled times gives `c` |
| StabSrdt.DayColumn | src/heatmetrics_python/stab_srdt.py:31-41 | the daytime column is 1 to 4: 1 exactly for irradiance of at least 925, 2 exactly in [675, 925), 3 exactly in [175, 675), 4 exactly below 175 |
| StabSrdt.DayRow | src/heatmetrics_python/stab_srdt.py:43-55 | the daytime row is 1 to 5: 1 exactly below 2 m/s, 2 exactly in [2, 3), 3 exactly in [3, 5), 4 exactly in [5, 6), 5 exactly from 6 m/s |
| StabSrdt.NightColumn | src/heatmetrics_python/stab_srdt.py:57-60 | the night column is 7 exactly for an inversion (dT >= 0), and 6 otherwise |
| StabSrdt.NightRow | src/heatmetrics_python/stab_srdt.py:62-68 | the night row is 1 to 3: 1 exactly below 2 m/s, 2 exactly in [2, 2.5), 3 exactly from 2.5 m/s |
| StabSrdt.StabilityClass | src/heatmetrics_python/stab_srdt.py:23-70 | the class is 1 to 6, never a zero cell of the table: at most 4 by day, at least 4 by night |
| StabSrdt.DayClassMonotone | src/heatmetrics_python/stab_srdt.py:23-55 | by day, more sun gives a class no more stable, and more wind a class no less stable |
| StabSrdt.NightClassMonotone | src/heatmetrics_python/stab_srdt.py:23-68 | by night, an inversion is at least as stable as a lapse, and more wind gives a class no more stable |
| EstWindSpeed.WindExponent | src/heatmetrics_python/est_wind_speed.py:24-30 | for an indexable class, the exponent lies in [0.07, 0.55] |
| EstWindSpeed.WindSpeed2m | src/heatmetrics_python/est_wind_speed.py:20-34 | raises exactly for a height that is not positive (a zero division, or a complex power that `max` cannot compare) or an unindexable class; otherwise at least 0.5 m/s; a 2 m reading floored at 0.5; a reading from higher up never faster than the floored reading |
| EstWindSpeed.PowerLaw | src/heatmetrics_python/est_wind_speed.py:32 | for a positive height, the power law keeps a 2 m reading and never speeds up a reading from higher up |
| EstWindSpeed.ExponentGrowsWithStability | src/heatmetrics_python/est_wind_speed.py:24-25 | the exponent grows from class 1 to 6 in both terrains; it is larger in towns for classes 1-4 and larger in the country for 5-6 |
| EstWindSpeed.ClassZeroWrapsToSix | src/heatmetrics_python/est_wind_speed.py:27-30 | class 0 indexes the list at -1 and gets the exponent of class 6 |
| Esat.CoefficientsOf | src/heatmetrics_python/esat.py:20-28 | `phase == 0` selects water and anything else ice; both have positive `a` and `b`, and a pole `c` below freezing |
| Esat.EnhancementFactor | src/heatmetrics_python/esat.py:24-28 | the enhancement factor is at least 1 for non-negative pressure |
| Esat.SaturationPressure | src/heatmetrics_python/esat.py:20-30 | raises exactly at the pole `tk = c`; positive where the enhancement factor is; `a * ef` at the freezing point |
| Esat.Buck | src/heatmetrics_python/esat.py:21-28 | Buck's formula is positive with the enhancement factor and equals `a * ef` at freezing |
| DewPoint.InverseConstant | src/heatmetrics_python/dew_point.py:26-30 | 240.97 and 272.55 are 273.15 minus the poles of `esat` |
| DewPoint.Inverse | src/heatmetrics_python/dew_point.py:26-30 | the inverse formula gives 273.15 at `z = 0`, below freezing for negative `z`, above freezing for `0 < z < b` |
| DewPoint.DewPointTemperature | src/heatmetrics_python/dew_point.py:22-32 | raises exactly for a zero `a * ef`, a non-positive argument of `math.log`, or a logarithm equal to `b`; otherwise the inverse formula at that logarithm |
| DewPoint.DewPointInvertsSaturation | src/heatmetrics_python/dew_point.py:22-32 | when `log` inverts `exp`, the dew point of the saturation pressure at `tk` is `tk`, in both phases |
| DewPoint.BuckRoundTrip | src/heatmetrics_python/dew_point.py:22-32 | the same round trip for any Buck coefficients with `a, b > 0` and `c < 273.15` |
| DewPoint.DewPointAtFreezing | src/heatmetrics_python/dew_point.py:22-32 | a vapour pressure of `a * ef` has its dew point at 273.15 K |
| Physics.EmisAtm | src/heatmetrics_python/emis_atm.py:21-22 | raises exactly where `esat(Tair, 0, pres)` raises (at 32.18 K); positive for humid air at a non-negative pressure |
| Physics.SlowAirIsFloored | src/heatmetrics_python/h_sphere_in_air.py:38 | `h_sphere_in_air` and `h_cylinder_in_air` give the same coefficient for every speed below 0.5 m/s as for 0.5 m/s |
| DampedIteration.Blend | src/heatmetrics_python/Tglobe.py:70 | the blended estimate lies between the previous and new estimates, and is 0.9 of the way back from the new one |
| DampedIteration.Iterate | src/heatmetrics_python/Tglobe.py:57-73 | a converged loop ends within the 100-iteration budget, at a value the step gives from an estimate within 0.02 of it |
| DampedIteration.FixedPointConvergesAtOnce | src/heatmetrics_python/Tglobe.py:53-73 | a first guess the step maps to itself is returned after one iteration |
| DampedIteration.IterateCongruent | src/heatmetrics_python/Tglobe.py:57-73 | the loop depends only on the values of its step |
| DampedIteration.TotalStepNeverFails | src/heatmetrics_python/Tglobe.py:57-73 | a step that never raises never makes the loop raise |
| DampedIteration.FarFromFixedPointsNeverConverges | src/heatmetrics_python/Tglobe.py:57-73 | a step that always moves by at least 0.02 never converges |
| DampedIteration.ConstantStepContracts | src/heatmetrics_python/Tglobe.py:67-70 | a constant step converges once within 0.02 of its value, and each blend cuts the distance to 0.9 |
| Tglobe.FlooredCza | src/heatmetrics_python/Tglobe.py:38-39 | the cosine used is at least 0.01, and unchanged from 0.01 up |
| Tglobe.SolarGain | src/heatmetrics_python/Tglobe.py:64-65 | the sunshine term is 0 without sun, and does not depend on the zenith angle without a direct beam |
| Tglobe.BalanceWithEmissivity | src/heatmetrics_python/Tglobe.py:62-65 | once `h` is known, the new estimate raises exactly when `emis_atm` raises |
| Tglobe.GlobeBalance | src/heatmetrics_python/Tglobe.py:62-65 | the convective term drops out when the previous estimate is the air temperature or `h` is 0, leaving the fourth root of the long-wave and sunshine terms |
| Tglobe.GlobeEstimate | src/heatmetrics_python/Tglobe.py:59-65 | one iteration raises exactly when the convective coefficient raises at the mean of the previous estimate and the air temperature, or when `emis_atm` raises at the air temperature |
| Tglobe.GlobeStep | src/heatmetrics_python/Tglobe.py:59-65 | the step raises at a previous estimate exactly when `h_sphere_in_air` raises at the mean of that estimate and the air temperature, or `emis_atm` raises at the air temperature |
| Tglobe.GlobeTemperature | src/heatmetrics_python/Tglobe.py:38-78 | raises exactly when an iteration raises; NaN exactly when the 100 iterations run out; otherwise a temperature (deg C) that the balance maps to within 0.02 of its input |
| Tglobe.GlobeReported | src/heatmetrics_python/Tglobe.py:75-78 | raises exactly when a step raised; NaN exactly when the iterations run out; otherwise the converged kelvin value in deg C |
| Tglobe.GlobeLoop | src/heatmetrics_python/Tglobe.py:57-73 | the `while` loop ends as `Solve` says, raising with the first step that raises |
| Tglobe.SolveGlobe | src/heatmetrics_python/Tglobe.py:38-78 | the `while` loop returns what `GlobeTemperature` specifies |
| Tglobe.LowSunIsFloored | src/heatmetrics_python/Tglobe.py:38-39 | every cosine below 0.01 gives the result at 0.01 |
| Tglobe.DiffuseLightIgnoresZenith | src/heatmetrics_python/Tglobe.py:62-65 | with fdir = 0 the zenith angle has no bearing on the globe temperature |
| Tglobe.DarkGlobeIgnoresSun | src/heatmetrics_python/Tglobe.py:62-65 | with no irradiance, neither fdir nor cza matters |
| Tglobe.GlobeAtBalance | src/heatmetrics_python/Tglobe.py:52-76 | a balance that holds at air temperature gives the air temperature |
| Tglobe.GlobeRaisesOnlyWithCoefficient | src/heatmetrics_python/Tglobe.py:57-73 | where `h_sphere_in_air` is defined at every reference temperature and `emis_atm` at the air temperature, the globe temperature does not raise |
| Tglobe.GlobeRaisesWithEmissivity | src/heatmetrics_python/Tglobe.py:57-62 | where `emis_atm` raises (an air temperature of 32.18 K), the globe temperature raises |
| Tglobe.SlowWindGlobe | src/heatmetrics_python/Tglobe.py:59-60 | any wind below 0.5 m/s gives the globe temperature at 0.5 m/s, through the floor of `h_sphere_in_air` |
| Tpsy.RadiativeHeating | src/heatmetrics_python/Tpsy.py:81-83 | without sun, `Fatm` is the long-wave term alone |
| Tpsy.Density | src/heatmetrics_python/Tpsy.py:86 | the air density is zero exactly when the pressure is |
| Tpsy.Schmidt | src/heatmetrics_python/Tpsy.py:89 | the Schmidt number is zero exactly when the viscosity is |
| Tpsy.WickBalance | src/heatmetrics_python/Tpsy.py:91 | with `rad = 0` the radiative term drops out; equal vapour pressures of wick and air give the air temperature |
| Tpsy.WickEstimate | src/heatmetrics_python/Tpsy.py:75-91 | a wick iteration raises exactly where `esat`, `emis_atm` or `h_cylinder_in_air` raises or one of the divisions meets zero; otherwise it gives the air temperature when the wick's saturation pressure equals the air's vapour pressure |
| Tpsy.Setup | src/heatmetrics_python/Tpsy.py:65-69 | raises exactly when `acos` (outside [-1, 1]), `esat(Tair)` or `dew_point(rh esat(Tair))` raises; on success the vapour pressure is `rh` times `esat(Tair)`, the first guess is its dew point, and the zenith angle is `acos(cza)` |
| Tpsy.StartFrom | src/heatmetrics_python/Tpsy.py:66-69 | the set-up raises exactly where `dew_point` does; the zenith angle is in [0, pi] and the first guess is the dew point |
| Tpsy.Reported | src/heatmetrics_python/Tpsy.py:101-104 | raises exactly when a step raised; -9999 when the iterations run out; otherwise the converged kelvin value in deg C |
| Tpsy.FromStart | src/heatmetrics_python/Tpsy.py:69-104 | from a set-up, the loop raises exactly when one of its steps raises, gives -9999 when the 100 iterations run out, and otherwise a value the wick balance maps to within 0.02 of its input |
| Tpsy.PsychrometricWetBulb | src/heatmetrics_python/Tpsy.py:42-104 | raises for cza outside [-1, 1], and exactly when the set-up or a step of the loop raises; -9999 when the 100 iterations run out; any other value is a near-fixed point of the wick balance |
| Tpsy.SolvePsychrometric | src/heatmetrics_python/Tpsy.py:42-104 | `Tpsy` with its `while` loop returns what `PsychrometricWetBulb` specifies |
| Tpsy.WickLoop | src/heatmetrics_python/Tpsy.py:69-99 | the `while` loop ends as `Solve` says, raising with the first step that raises |
| Tpsy.IgnoresRadiation | src/heatmetrics_python/Tpsy.py:42-91 | with `rad = 0`, the irradiance, fdir and cza have no bearing on the result while `acos(cza)` is defined |
| Tpsy.SetupIgnoresZenith | src/heatmetrics_python/Tpsy.py:65-68 | within [-1, 1], cza changes neither whether the set-up raises nor its vapour pressure or dew point |
| Tpsy.LoopIgnoresRadiation | src/heatmetrics_python/Tpsy.py:73-99 | from set-ups with the same vapour pressure and dew point, the loop ends the same way |
| Tpsy.WickEstimateIgnoresRadiation | src/heatmetrics_python/Tpsy.py:81-91 | one wick iteration is independent of irradiance, fdir and zenith angle |
| Tpsy.SaturatedAirWetBulbIsDryBulb | src/heatmetrics_python/Tpsy.py:65-104 | in saturated air (rh = 1), given that `log` inverts `exp`, the wet bulb is the dry bulb after one iteration |
| Wbgt.AnyMissing | src/heatmetrics_python/wbgt.py:65-69 | an observation is missing exactly when some element of the fifteen-element `inputs` list is NaN or -999 |
| Wbgt.WeightedSum | src/heatmetrics_python/wbgt.py:107 | the combination is NaN exactly with the globe temperature, and otherwise lies between the smallest and largest of the three temperatures |
| Wbgt.ClassesAreIndexable | src/heatmetrics_python/wbgt.py:87-88 | every class `stab_srdt` returns indexes the exponent tables |
| Wbgt.WindAt2m | src/heatmetrics_python/wbgt.py:80-90 | the corrected 2 m wind: raises exactly for a height that is not positive, is at least 0.5 m/s, and is the floored reading at 2 m |
| Wbgt.WindAt2mAsWritten | src/heatmetrics_python/wbgt.py:80-90 | as written: the same away from 2 m, and the unchanged reading at 2 m |
| Wbgt.SlowTwoMetreWindNotFloored | src/heatmetrics_python/wbgt.py:90 | a 0.1 m/s reading at 2 m stays 0.1 as written and becomes 0.5 once floored; the two agree exactly except for 2 m readings below 0.5 |
| Wbgt.DriversWith | src/heatmetrics_python/wbgt.py:80-97 | once the irradiance is known, the solver inputs raise exactly for a height that is not positive; the wind is at least 0.5 m/s from another height and the unchanged reading at 2 m; the irradiance is the one given |
| Wbgt.DriversOf | src/heatmetrics_python/wbgt.py:74-97 | the solver inputs raise exactly where `calc_solar_parameters` or the wind estimate does; otherwise kelvin, a humidity fraction, wind at least 0.5 m/s from another height and the unchanged reading at 2 m, irradiance at most the measured, and the caller's fdir and cza |
| Wbgt.Wbgt | src/heatmetrics_python/wbgt.py:65-109 | a missing input gives NaN; otherwise raises exactly where the solver inputs, `Tglobe` or `Twb` do, is NaN exactly with the globe temperature, and lies between the smallest and largest of the three temperatures |
| Wbgt.SlowWindIsFloored | src/heatmetrics_python/wbgt.py:80-106 | as written, with `Twb` flooring the speed as the two correlations do, any 2 m reading below 0.5 m/s gives the WBGT of a 0.5 m/s reading: the discarded floor changes no result |
| Wbgt.SlowWindDrivers | src/heatmetrics_python/wbgt.py:80-97 | a slow 2 m reading reaches the solvers unchanged, and otherwise as the inputs of a 0.5 m/s reading |
| Wbgt.UniformTemperaturesGiveAirTemperature | src/heatmetrics_python/wbgt.py:105-109 | when the globe and natural wet-bulb temperatures equal the air temperature, so does the WBGT |

## Left out

**Not modelled at all:**

- Floating point. Floats are exact reals. Rounding, overflow, infinities and the IEEE behaviour of `numpy` are not modelled.
- The accuracy of the transcendental functions. Only their ranges are used; identities such as the Pythagorean one enter as hypotheses of the lemmas that need them.
- The physical correlations `h_sphere_in_air`, `h_cylinder_in_air`, `viscosity`, `diffusivity` and `evap`. They are arbitrary functions; only the speed floor of the two convective ones is modelled.
- Wbgt.SlowWindIsFloored: that `Twb` floors the speed as the correlations do is a hypothesis (`Physics.TwbFloorsSpeed`), since `Twb.py` is not part of this model.
- The declination regression `calc_solarDA` and the natural wet-bulb solver `Twb`. Both are arbitrary functions of `Physics`; `calc_solarDA.py` and `Twb.py` are not part of this model.
- The rest of the package: `utci`, `Tmrt`, `humidex`, net radiation, and the humidity conversions.
- Convergence of the two solvers. The model states what a converged value satisfies and what happens when the iterations run out, not that they converge.
- The type of an exception. ZeroDivisionError, ValueError, OverflowError, TypeError and IndexError are all `Raises`.
- `datetime` parsing details (string formatting) and the sub-second rounding of `timedelta`.

**Weaker or narrower than the source:**

- SolarPosition.Gmst0h: modelled as written, including the comparison at line 215. It is harmless by `LmstIgnoresWholeDays`.
- CalcCzaInt.Integrate: `integral` starts at `0.0` rather than `lat * 0`. The two are equal for every real latitude; a NaN latitude is not modelled.
- Transcendentals.Pow: a negative base with a fractional exponent gives a complex number in Python; the model gives an arbitrary real instead. In `est_wind_speed` this case is modelled as it ends: a negative `zspeed` raises, because `max` cannot compare the complex speed with 0.5. In `Tpsy` a negative `Pr / Sc` makes `Twb_new` complex. Python then usually raises TypeError in the next iteration, when `h_cylinder_in_air` calls `viscosity`, whose `math.sqrt` refuses a complex number; the model carries on with an arbitrary real instead.
- Tglobe.GlobeEstimate: a negative energy balance under `** 0.25` gives Python a complex estimate. The model takes an arbitrary real for that root.
- Tglobe.GlobeStep: after a complex estimate that has not converged, the blend makes `Tglobe_prev` complex, and Python raises TypeError in the next iteration: `h_sphere_in_air` calls `viscosity`, whose `math.sqrt` refuses a complex number. The model goes on iterating with an arbitrary real instead.
- Tglobe.GlobeTemperature: from a complex estimate Python returns a complex value only if that same estimate converges, and NaN only if it comes in iteration 100; otherwise it raises, as the line above says. None of these three outcomes is modelled.
- SolarPosition.AzimuthRadians: the division by `cos(altitude)` cannot meet zero in the model, because `math.asin` stays below the true pi/2 and the cosine is positive there.
- SolarPosition.HighAltitudeTerm: returns 0 for a zero tangent. That case cannot arise: the term is used only above 19.225 degrees.
- DayNumber.DayNum: for a year of at least 1, the model requires a month from -11 to 12 instead of modelling the IndexError. Every caller inside the core checks or parses the month first.
- DayNumber.DayNum: its own contract only covers the years below 1. Its value on valid dates is stated by `DayNumber.DayNumMatchesCalendar`.
- Python.At: the model requires an index in range instead of modelling the IndexError.
- Tglobe.GlobeTemperature: states what a converged result satisfies, not which value it is.
- Tpsy.PsychrometricWetBulb: states what a converged result satisfies, not which value it is; the raise and -9999 cases are stated exactly.
- Wbgt.Wbgt: states the combination's range, not its exact value.

## Findings

| source | as written | input that shows it | evidently intended | confidence | as-written member | corrected member |
|---|---|---|---|---|---|---|
| src/heatmetrics_python/solarposition.py:138-140 | `floor(dy*365 + dy/4 + daynumber)` with Python's true division, then +1 after 2000 | 1999, day 1 gives -365 instead of -364; 2004, day 1 gives 1463 instead of 1462; the count jumps by 2 across 1 January 2000 and 2004 (`DeltaDaysAsWrittenSkipsDays`) | the days from 2000/01/00 that the comment at line 136 describes, which the calendar gives (`DeltaDays`, `DeltaDaysAcrossNewYear`) | not executed | SolarPosition.DeltaDaysAsWritten | SolarPosition.DeltaDays |
| src/heatmetrics_python/solarposition.py:295-296 | low-altitude refraction multiplied by `(273 + temp)` | altitude 0 gives more than 46000 degrees (`RefractionAsWrittenAtHorizon`) | the Almanac's division by `(273 + temp)`, under one degree from -1 degree to the crossover (`RefractionBelowOneDegree`) | not executed | SolarPosition.RefractionAsWritten | SolarPosition.Refraction |
| src/heatmetrics_python/wbgt.py:90 | `speed <- max(speed, MINIMUM_SPEED)`, a comparison whose value is discarded | a 2 m reading of 0.1 m/s reaches the solvers as 0.1 (`SlowTwoMetreWindNotFloored`) | the assignment `speed = max(speed, MINIMUM_SPEED)`, which `WindAt2m` models. The slip is harmless: the convective correlations floor the speed themselves, so every slow 2 m reading already gives the WBGT of 0.5 m/s (`SlowWindIsFloored`) | not executed | Wbgt.WindAt2mAsWritten | Wbgt.WindAt2m |
