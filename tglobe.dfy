/** `Tglobe`: the temperature of a 2-inch black globe, from the energy balance
    of long-wave exchange with the air and the ground, convection, and the
    absorbed direct and diffuse sunshine, solved by the damped iteration. */
module Tglobe {
  import opened Python
  import opened Transcendentals
  import opened Physics
  import opened DampedIteration

  const EMIS_GLOBE: real := 0.95
  const ALB_GLOBE: real := 0.05
  const ALB_SFC: real := 0.45
  const D_GLOBE: real := 0.0508
  const EMIS_SFC: real := 0.999
  const STEFANB: real := 0.000000056696
  /** Below this cosine the zenith angle is replaced by it, to keep `1 / (2 cza)` finite. */
  const CZA_FLOOR: real := 0.01

  /** `x ** 4` with an integer exponent. */
  function Fourth(x: real): (r: real)
    ensures r >= 0.0
  {
    var s := x * x;
    assert s >= 0.0 by { if x < 0.0 { assert x * x == (-x) * (-x); } }
    s * s
  }

  /** The cosine the balance uses: `cza`, raised to `CZA_FLOOR` when below it. */
  function FlooredCza(cza: real): (c: real)
    ensures c >= CZA_FLOOR
    ensures cza >= CZA_FLOOR ==> c == cza
  {
    if cza < CZA_FLOOR then CZA_FLOOR else cza
  }

  /** The sunshine term `solar / (2 STEFANB EMIS_GLOBE) (1 - ALB_GLOBE)
      (fdir (1/(2 cza) - 1) + 1 + ALB_SFC)`: none without sun, and with no
      direct beam the same at every zenith angle. */
  function SolarGain(solar: real, fdir: real, cza: real): (g: real)
    requires cza > 0.0
    ensures solar == 0.0 ==> g == 0.0
    ensures fdir == 0.0 ==> g == solar / (2.0 * STEFANB * EMIS_GLOBE) * (1.0 - ALB_GLOBE) * (1.0 + ALB_SFC)
  {
    solar / (2.0 * STEFANB * EMIS_GLOBE) * (1.0 - ALB_GLOBE) *
      (fdir * (1.0 / (2.0 * cza) - 1.0) + 1.0 + ALB_SFC)
  }

  /** The balance that gives `Tglobe_new` from `Tglobe_prev`, the
      atmospheric emissivity `emis` and the convective coefficient `h`. The
      convective term vanishes when the previous estimate is the air
      temperature or when there is no convection. */
  function GlobeBalance(m: Math, emis: real, tair: real,
                        solar: real, fdir: real, cza: real, prev: real, h: real): (t: real)
    requires cza > 0.0
    ensures prev == tair || h == 0.0 ==>
      t == Pow(m, 0.5 * (emis + EMIS_SFC) * Fourth(tair) + SolarGain(solar, fdir, cza), 0.25)
  {
    var tsfc := tair;
    var longwave := 0.5 * (emis * Fourth(tair) + EMIS_SFC * Fourth(tsfc));
    var convection := h / (STEFANB * EMIS_GLOBE) * (prev - tair);
    assert longwave == 0.5 * (emis + EMIS_SFC) * Fourth(tair);
    assert prev == tair || h == 0.0 ==> convection == 0.0;
    Pow(m, longwave - convection + SolarGain(solar, fdir, cza), 0.25)
  }

  /** The balance once `h` is known: it raises exactly where the emissivity does. */
  function BalanceWithEmissivity(m: Math, tair: real, rh: real, pair: real,
                                 solar: real, fdir: real, cza: real, prev: real, h: real): (r: Call<real>)
    requires cza > 0.0
    ensures r.Raises? <==> EmisAtm(m, tair, rh, pair).Raises?
  {
    match EmisAtm(m, tair, rh, pair)
    case Raises => Raises
    case Returns(emis) => Returns(GlobeBalance(m, emis, tair, solar, fdir, cza, prev, h))
  }

  /** `Tglobe_new` from `Tglobe_prev`, with the convective coefficient
      evaluated at the mean of the previous estimate and the air
      temperature; it raises exactly when that coefficient or the
      atmospheric emissivity (`esat(Tair)`, so at 32.18 K) does. */
  function GlobeEstimate(m: Math, phys: Physics, tair: real, rh: real, pair: real, speed: real,
                         solar: real, fdir: real, cza: real, prev: real): (r: Call<real>)
    requires cza > 0.0
    ensures r.Raises? <==> (HSphere(phys, D_GLOBE, 0.5 * (prev + tair), pair, speed).Raises?
                            || EmisAtm(m, tair, rh, pair).Raises?)
  {
    var tref := 0.5 * (prev + tair);
    match HSphere(phys, D_GLOBE, tref, pair, speed)
    case Raises => Raises
    case Returns(h) => BalanceWithEmissivity(m, tair, rh, pair, solar, fdir, cza, prev, h)
  }

  /** The iteration step. */
  function GlobeStep(m: Math, phys: Physics, tair: real, rh: real, pair: real, speed: real,
                     solar: real, fdir: real, cza: real): (step: real -> Call<real>)
    requires cza > 0.0
    ensures forall p :: step(p) == GlobeEstimate(m, phys, tair, rh, pair, speed, solar, fdir, cza, p)
    ensures forall p :: step(p).Raises? <==> (HSphere(phys, D_GLOBE, 0.5 * (p + tair), pair, speed).Raises?
                                              || EmisAtm(m, tair, rh, pair).Raises?)
  {
    p => GlobeEstimate(m, phys, tair, rh, pair, speed, solar, fdir, cza, p)
  }

  /** `Tglobe(Tair, rh, Pair, speed, solar, fdir, cza)` in degrees C (`Tair`
      in kelvin): raises when the convective coefficient or the emissivity
      raises at some iteration, is NaN when the iteration does not converge, and otherwise
      is a value the balance maps to within `CONVERGENCE` of its input. */
  function GlobeTemperature(m: Math, phys: Physics, tair: real, rh: real, pair: real, speed: real,
                            solar: real, fdir: real, cza: real): (r: Call<Float>)
    ensures r.Raises? <==> Solve(GlobeStep(m, phys, tair, rh, pair, speed, solar, fdir, FlooredCza(cza)), tair) == Failed
    ensures r == Returns(NaN) <==> Solve(GlobeStep(m, phys, tair, rh, pair, speed, solar, fdir, FlooredCza(cza)), tair) == Exhausted
    ensures r.Returns? && r.value.Num? ==>
      NearFixedPoint(GlobeStep(m, phys, tair, rh, pair, speed, solar, fdir, FlooredCza(cza)), r.value.v + 273.15)
  {
    GlobeReported(Solve(GlobeStep(m, phys, tair, rh, pair, speed, solar, fdir, FlooredCza(cza)), tair))
  }

  /** What `Tglobe` returns for a way the loop ends: the converged estimate in
      degrees C, NaN when the iterations run out, and an exception when a
      step raised. */
  function GlobeReported(o: Outcome): (r: Call<Float>)
    ensures r.Raises? <==> o.Failed?
    ensures r == Returns(NaN) <==> o.Exhausted?
    ensures o.Converged? ==> r.Returns? && r.value.Num? && r.value.v + 273.15 == o.estimate
  {
    match o
    case Converged(t, _) => assert t - 273.15 + 273.15 == t; Returns(Num(t - 273.15))
    case Exhausted => Returns(NaN)
    case Failed => Raises
  }

  /** `Tglobe` with its `while` loop: agrees with `GlobeTemperature`. */
  method SolveGlobe(m: Math, phys: Physics, tair: real, rh: real, pair: real, speed: real,
                    solar: real, fdir: real, cza: real) returns (r: Call<Float>)
    ensures r == GlobeTemperature(m, phys, tair, rh, pair, speed, solar, fdir, cza)
  {
    var c := cza;
    if c < CZA_FLOOR {
      c := CZA_FLOOR;
    }
    assert c == FlooredCza(cza);
    // the first guess is the air temperature
    var outcome := GlobeLoop(m, phys, tair, rh, pair, speed, solar, fdir, c, tair);
    match outcome
    case Converged(t, _) => r := Returns(Num(t - 273.15));
    case Exhausted => r := Returns(NaN);
    case Failed => r := Raises;
  }

  /** The `while` loop of `Tglobe` from the first guess `first`: how it
      ends, as `Solve` says. */
  method GlobeLoop(m: Math, phys: Physics, tair: real, rh: real, pair: real, speed: real,
                   solar: real, fdir: real, cza: real, first: real) returns (o: Outcome)
    requires cza > 0.0
    ensures o == Solve(GlobeStep(m, phys, tair, rh, pair, speed, solar, fdir, cza), first)
  {
    ghost var step := GlobeStep(m, phys, tair, rh, pair, speed, solar, fdir, cza);
    var prev := first;
    var next := prev;
    var converged := false;
    var iteration := 0;
    while !converged
      invariant !converged && 0 <= iteration < MAX_ITER
      invariant Solve(step, first) == Iterate(step, prev, iteration)
      decreases MAX_ITER - iteration
    {
      iteration := iteration + 1;
      var estimate := GlobeEstimate(m, phys, tair, rh, pair, speed, solar, fdir, cza, prev);
      assert step(prev) == estimate;
      if estimate.Raises? {
        return Failed;
      }
      next := estimate.value;
      if Abs(next - prev) < CONVERGENCE {
        converged := true;
      }
      prev := Blend(prev, next);
      if converged || iteration == MAX_ITER {
        assert Solve(step, first) == if converged then Converged(next, iteration) else Exhausted;
        break;
      }
    }
    if converged {
      o := Converged(next, iteration);
    } else {
      o := Exhausted;
    }
  }

  // ----------------------------------------------------------- properties

  /** Every cosine below 0.01 gives the globe temperature at 0.01. */
  lemma LowSunIsFloored(m: Math, phys: Physics, tair: real, rh: real, pair: real, speed: real,
                        solar: real, fdir: real, cza: real)
    requires cza < CZA_FLOOR
    ensures GlobeTemperature(m, phys, tair, rh, pair, speed, solar, fdir, cza) ==
            GlobeTemperature(m, phys, tair, rh, pair, speed, solar, fdir, CZA_FLOOR)
  {
    assert FlooredCza(cza) == FlooredCza(CZA_FLOOR);
  }

  /** Without a direct beam the zenith angle has no bearing on the globe. */
  lemma {:induction false} DiffuseLightIgnoresZenith(m: Math, phys: Physics, tair: real, rh: real, pair: real,
                                                     speed: real, solar: real, cza1: real, cza2: real)
    ensures GlobeTemperature(m, phys, tair, rh, pair, speed, solar, 0.0, cza1) ==
            GlobeTemperature(m, phys, tair, rh, pair, speed, solar, 0.0, cza2)
  {
    var c1, c2 := FlooredCza(cza1), FlooredCza(cza2);
    SameGainSameSteps(m, phys, tair, rh, pair, speed, solar, 0.0, c1, solar, 0.0, c2);
    IterateCongruent(GlobeStep(m, phys, tair, rh, pair, speed, solar, 0.0, c1),
                     GlobeStep(m, phys, tair, rh, pair, speed, solar, 0.0, c2), tair, 0);
  }

  /** Without sunshine neither the direct fraction nor the zenith angle matters. */
  lemma {:induction false} DarkGlobeIgnoresSun(m: Math, phys: Physics, tair: real, rh: real, pair: real,
                                               speed: real, fdir1: real, fdir2: real, cza1: real, cza2: real)
    ensures GlobeTemperature(m, phys, tair, rh, pair, speed, 0.0, fdir1, cza1) ==
            GlobeTemperature(m, phys, tair, rh, pair, speed, 0.0, fdir2, cza2)
  {
    var c1, c2 := FlooredCza(cza1), FlooredCza(cza2);
    SameGainSameSteps(m, phys, tair, rh, pair, speed, 0.0, fdir1, c1, 0.0, fdir2, c2);
    IterateCongruent(GlobeStep(m, phys, tair, rh, pair, speed, 0.0, fdir1, c1),
                     GlobeStep(m, phys, tair, rh, pair, speed, 0.0, fdir2, c2), tair, 0);
  }

  /** The sunshine, direct fraction and zenith angle reach an estimate only
      through the sunshine term. */
  lemma SameGainSameEstimate(m: Math, phys: Physics, tair: real, rh: real, pair: real, speed: real,
                             solar1: real, fdir1: real, cza1: real,
                             solar2: real, fdir2: real, cza2: real, prev: real)
    requires cza1 > 0.0 && cza2 > 0.0
    requires SolarGain(solar1, fdir1, cza1) == SolarGain(solar2, fdir2, cza2)
    ensures GlobeEstimate(m, phys, tair, rh, pair, speed, solar1, fdir1, cza1, prev) ==
            GlobeEstimate(m, phys, tair, rh, pair, speed, solar2, fdir2, cza2, prev)
  {
  }

  /** Steps with the same sunshine term agree at every estimate. */
  lemma SameGainSameSteps(m: Math, phys: Physics, tair: real, rh: real, pair: real, speed: real,
                          solar1: real, fdir1: real, cza1: real,
                          solar2: real, fdir2: real, cza2: real)
    requires cza1 > 0.0 && cza2 > 0.0
    requires SolarGain(solar1, fdir1, cza1) == SolarGain(solar2, fdir2, cza2)
    ensures forall p :: GlobeStep(m, phys, tair, rh, pair, speed, solar1, fdir1, cza1)(p) ==
                        GlobeStep(m, phys, tair, rh, pair, speed, solar2, fdir2, cza2)(p)
  {
    forall p ensures GlobeStep(m, phys, tair, rh, pair, speed, solar1, fdir1, cza1)(p) ==
                     GlobeStep(m, phys, tair, rh, pair, speed, solar2, fdir2, cza2)(p) {
      SameGainSameEstimate(m, phys, tair, rh, pair, speed, solar1, fdir1, cza1, solar2, fdir2, cza2, p);
    }
  }

  /** A globe whose balance holds at the air temperature is at air temperature. */
  lemma GlobeAtBalance(m: Math, phys: Physics, tair: real, rh: real, pair: real, speed: real,
                       solar: real, fdir: real, cza: real)
    requires GlobeEstimate(m, phys, tair, rh, pair, speed, solar, fdir, FlooredCza(cza), tair) == Returns(tair)
    ensures GlobeTemperature(m, phys, tair, rh, pair, speed, solar, fdir, cza) == Returns(Num(tair - 273.15))
  {
    FixedPointConvergesAtOnce(GlobeStep(m, phys, tair, rh, pair, speed, solar, fdir, FlooredCza(cza)), tair);
  }

  /** Where the convective coefficient is defined at every reference
      temperature and the emissivity at the air temperature, the globe
      temperature never raises. */
  lemma GlobeRaisesOnlyWithCoefficient(m: Math, phys: Physics, tair: real, rh: real, pair: real, speed: real,
                                       solar: real, fdir: real, cza: real)
    requires forall t :: HSphere(phys, D_GLOBE, t, pair, speed).Returns?
    requires EmisAtm(m, tair, rh, pair).Returns?
    ensures GlobeTemperature(m, phys, tair, rh, pair, speed, solar, fdir, cza).Returns?
  {
    var step := GlobeStep(m, phys, tair, rh, pair, speed, solar, fdir, FlooredCza(cza));
    forall p ensures step(p).Returns? {
      assert HSphere(phys, D_GLOBE, 0.5 * (p + tair), pair, speed).Returns?;
    }
    TotalStepNeverFails(step, tair, 0);
  }

  /** Where the emissivity raises (`esat` at 32.18 K), the globe temperature
      raises, in the first iteration. */
  lemma GlobeRaisesWithEmissivity(m: Math, phys: Physics, tair: real, rh: real, pair: real, speed: real,
                                  solar: real, fdir: real, cza: real)
    requires EmisAtm(m, tair, rh, pair).Raises?
    ensures GlobeTemperature(m, phys, tair, rh, pair, speed, solar, fdir, cza).Raises?
  {
    var step := GlobeStep(m, phys, tair, rh, pair, speed, solar, fdir, FlooredCza(cza));
    assert step(tair).Raises?;
  }

  /** Any wind below 0.5 m/s gives the globe temperature at 0.5 m/s, since
      the convective coefficient floors the speed. */
  lemma {:induction false} SlowWindGlobe(m: Math, phys: Physics, tair: real, rh: real, pair: real, speed: real,
                                         solar: real, fdir: real, cza: real)
    requires speed < CONVECTION_MIN_SPEED
    ensures GlobeTemperature(m, phys, tair, rh, pair, speed, solar, fdir, cza) ==
            GlobeTemperature(m, phys, tair, rh, pair, CONVECTION_MIN_SPEED, solar, fdir, cza)
  {
    SlowWindSameSolve(m, phys, tair, rh, pair, speed, solar, fdir, FlooredCza(cza));
  }

  /** Below 0.5 m/s the loop ends as it does at 0.5 m/s. */
  lemma SlowWindSameSolve(m: Math, phys: Physics, tair: real, rh: real, pair: real, speed: real,
                          solar: real, fdir: real, cza: real)
    requires cza > 0.0 && speed < CONVECTION_MIN_SPEED
    ensures Solve(GlobeStep(m, phys, tair, rh, pair, speed, solar, fdir, cza), tair) ==
            Solve(GlobeStep(m, phys, tair, rh, pair, CONVECTION_MIN_SPEED, solar, fdir, cza), tair)
  {
    SlowWindSameSteps(m, phys, tair, rh, pair, speed, solar, fdir, cza);
    IterateCongruent(GlobeStep(m, phys, tair, rh, pair, speed, solar, fdir, cza),
                     GlobeStep(m, phys, tair, rh, pair, CONVECTION_MIN_SPEED, solar, fdir, cza), tair, 0);
  }

  /** Below 0.5 m/s the step is the step at 0.5 m/s, at every estimate. */
  lemma SlowWindSameSteps(m: Math, phys: Physics, tair: real, rh: real, pair: real, speed: real,
                          solar: real, fdir: real, cza: real)
    requires cza > 0.0 && speed < CONVECTION_MIN_SPEED
    ensures forall p :: GlobeStep(m, phys, tair, rh, pair, speed, solar, fdir, cza)(p) ==
                        GlobeStep(m, phys, tair, rh, pair, CONVECTION_MIN_SPEED, solar, fdir, cza)(p)
  {
    forall p ensures GlobeStep(m, phys, tair, rh, pair, speed, solar, fdir, cza)(p) ==
                     GlobeStep(m, phys, tair, rh, pair, CONVECTION_MIN_SPEED, solar, fdir, cza)(p) {
      SlowAirIsFloored(phys, D_GLOBE, 0.0, 0.5 * (p + tair), pair, speed);
    }
  }
}
