/** `Tpsy`: the psychrometric wet-bulb temperature, the natural wet-bulb
    balance of a wetted wick with the radiative term switched off (`rad = 0`),
    solved by the damped iteration from the dew point. */
module Tpsy {
  import opened Python
  import opened Transcendentals
  import opened Physics
  import opened DampedIteration
  import opened Esat
  import opened DewPoint
  import Tglobe

  /** The radiation switch; the only difference from the natural wet bulb. */
  const RAD: real := 0.0
  const D_WICK: real := 0.007
  const L_WICK: real := 0.0254
  /** The module's own pi literal, not `math.pi`. */
  const PI_LITERAL: real := 3.1415926535897932
  const CP: real := 1003.5
  const R_GAS: real := 8314.34
  const M_AIR: real := 28.97
  const M_H2O: real := 18.015
  const R_AIR: real := R_GAS / M_AIR
  const PR: real := CP / (CP + 1.25 * R_AIR)
  const STEFANB: real := 0.000000056696
  const EMIS_SFC: real := 0.999
  const EMIS_WICK: real := 0.95
  const ALB_WICK: real := 0.4
  const ALB_SFC: real := 0.45
  const RATIO: real := CP * M_AIR / M_H2O
  /** The Bedingfield and Drew exponent. */
  const A: real := 0.56

  /** `Fatm`: the radiative heating of the wick at estimate `prev`, given the
      atmospheric emissivity `emis`. */
  function RadiativeHeating(m: Math, emis: real, tair: real,
                            solar: real, fdir: real, sza: real, prev: real): (f: real)
    ensures solar == 0.0 ==>
      f == STEFANB * EMIS_WICK * (0.5 * (emis * Tglobe.Fourth(tair) + EMIS_SFC * Tglobe.Fourth(tair))
        - Tglobe.Fourth(prev))
  {
    var tsfc := tair;
    STEFANB * EMIS_WICK * (0.5 * (emis * Tglobe.Fourth(tair) + EMIS_SFC * Tglobe.Fourth(tsfc))
      - Tglobe.Fourth(prev))
      + (1.0 - ALB_WICK) * solar * ((1.0 - fdir) * (1.0 + 0.25 * D_WICK / L_WICK)
      + fdir * (Tan(m, sza) / PI_LITERAL + 0.25 * D_WICK / L_WICK) + ALB_SFC)
  }

  /** `Pair * 100 / (R_AIR * Tref)`: zero exactly when the pressure is. */
  function Density(pair: real, tref: real): (d: real)
    requires tref != 0.0
    ensures d == 0.0 <==> pair == 0.0
  {
    ZeroProduct(R_AIR, tref);
    pair * 100.0 / (R_AIR * tref)
  }

  lemma ZeroProduct(a: real, b: real)
    ensures a * b == 0.0 <==> a == 0.0 || b == 0.0
  {
  }

  lemma ZeroQuotient(a: real, b: real)
    requires b != 0.0
    ensures a / b == 0.0 <==> a == 0.0
  {
    assert a / b * b == a;
  }

  /** `Sc = viscosity / (density * diffusivity)`: zero exactly when the viscosity is. */
  function Schmidt(viscosity: real, density: real, diffusivity: real): (sc: real)
    requires density * diffusivity != 0.0
    ensures sc == 0.0 <==> viscosity == 0.0
  {
    ZeroQuotient(viscosity, density * diffusivity);
    viscosity / (density * diffusivity)
  }

  /** The wick balance `Tair - evap / RATIO * (ewick - eair) / (Pair - ewick)
      * (Pr / Sc) ** a + Fatm / h * rad`: with `rad = 0` the radiative term
      drops out, and no vapour-pressure difference leaves the air temperature. */
  function WickBalance(m: Math, tair: real, evap: real, ewick: real, eair: real, pair: real, sc: real,
                       fatm: real, h: real): (t: real)
    requires pair - ewick != 0.0 && sc != 0.0 && h != 0.0
    ensures t == tair - evap / RATIO * (ewick - eair) / (pair - ewick) * Pow(m, PR / sc, A)
    ensures ewick == eair ==> t == tair
  {
    assert fatm / h * RAD == 0.0;
    tair - evap / RATIO * (ewick - eair) / (pair - ewick) * Pow(m, PR / sc, A) + fatm / h * RAD
  }

  /** `Twb_new` from `Twb_prev`. Raises exactly where `esat` of the estimate
      does or one of the divisions by `R_AIR * Tref`, `density *
      diffusivity`, `Pair - ewick`, `Sc` or `h` meets zero, or the convective
      coefficient `h` or the emissivity raises (the latter at 32.18 K, where
      `Setup`'s own `esat(Tair)` has already raised, so never from
      `PsychrometricWetBulb`); otherwise the wick balance, which gives back
      the air temperature when the wick's vapour pressure is the air's. */
  function WickEstimate(m: Math, phys: Physics, tair: real, rh: real, pair: real, speed: real,
                        solar: real, fdir: real, sza: real, eair: real, prev: real): (r: Call<real>)
    ensures var tref := 0.5 * (prev + tair);
      r.Raises? <==> (prev == CoefficientsOf(0).c || tref == 0.0 || pair == 0.0
        || phys.diffusivity(tref, pair) == 0.0 || phys.viscosity(tref) == 0.0
        || SaturationPressure(m, prev, 0, pair) == Returns(pair)
        || HCylinder(phys, D_WICK, L_WICK, tref, pair, speed) in {Raises, Returns(0.0)}
        || EmisAtm(m, tair, rh, pair).Raises?)
    ensures r.Returns? && SaturationPressure(m, prev, 0, pair) == Returns(eair) ==> r.value == tair
  {
    var tref := 0.5 * (prev + tair);
    match SaturationPressure(m, prev, 0, pair)
    case Raises => Raises
    case Returns(ewick) =>
      match HCylinder(phys, D_WICK, L_WICK, tref, pair, speed)
      case Raises => Raises
      case Returns(h) =>
        match EmisAtm(m, tair, rh, pair)
        case Raises => Raises
        case Returns(emis) =>
          var fatm := RadiativeHeating(m, emis, tair, solar, fdir, sza, prev);
          ZeroProduct(R_AIR, tref);
          if R_AIR * tref == 0.0 then Raises
          else
            var density := Density(pair, tref);
            var diff := phys.diffusivity(tref, pair);
            ZeroProduct(density, diff);
            if density * diff == 0.0 then Raises
            else
              var sc := Schmidt(phys.viscosity(tref), density, diff);
              if pair - ewick == 0.0 || sc == 0.0 || h == 0.0 then Raises
              else Returns(WickBalance(m, tair, phys.evap(tref), ewick, eair, pair, sc, fatm, h))
  }

  /** The iteration step. */
  function WickStep(m: Math, phys: Physics, tair: real, rh: real, pair: real, speed: real,
                    solar: real, fdir: real, sza: real, eair: real): (step: real -> Call<real>)
    ensures forall p :: step(p) == WickEstimate(m, phys, tair, rh, pair, speed, solar, fdir, sza, eair, p)
  {
    p => WickEstimate(m, phys, tair, rh, pair, speed, solar, fdir, sza, eair, p)
  }

  /** The set-up before the loop: `acos(cza)` (ValueError outside [-1, 1]),
      the air's vapour pressure `rh * esat(Tair)` and its dew point, the
      first guess. */
  datatype Start = Start(sza: real, eair: real, tdew: real)

  function Setup(m: Math, tair: real, rh: real, pair: real, cza: real): (s: Call<Start>)
    ensures (cza < -1.0 || cza > 1.0) ==> s.Raises?
    ensures s.Raises? <==>
      (cza < -1.0 || cza > 1.0 || SaturationPressure(m, tair, 0, pair).Raises? ||
       DewPointTemperature(m, VapourPressure(rh, SaturationPressure(m, tair, 0, pair).value), 0, pair).Raises?)
    ensures s.Returns? ==>
      SaturationPressure(m, tair, 0, pair).Returns? && s.value.eair == VapourPressure(rh, SaturationPressure(m, tair, 0, pair).value)
    ensures s.Returns? ==>
      Returns(s.value.tdew) == DewPointTemperature(m, s.value.eair, 0, pair) && s.value.sza == Acos(m, cza)
  {
    if cza < -1.0 || cza > 1.0 then Raises
    else
      match SaturationPressure(m, tair, 0, pair)
      case Raises => Raises
      case Returns(es) => StartFrom(m, cza, VapourPressure(rh, es), pair)
  }

  /** `rh * esat(Tair)`: the vapour pressure of air at relative humidity `rh`. */
  function VapourPressure(rh: real, es: real): (e: real)
    ensures rh == 1.0 ==> e == es
  {
    rh * es
  }

  /** The set-up once the vapour pressure `eair` is known: the first guess is
      its dew point, and the set-up raises where `dew_point` does. */
  function StartFrom(m: Math, cza: real, eair: real, pair: real): (s: Call<Start>)
    ensures s.Raises? <==> DewPointTemperature(m, eair, 0, pair).Raises?
    ensures s.Returns? ==>
      s.value.eair == eair && 0.0 <= s.value.sza <= PI && Returns(s.value.tdew) == DewPointTemperature(m, eair, 0, pair)
  {
    match DewPointTemperature(m, eair, 0, pair)
    case Raises => Raises
    case Returns(tdew) => Returns(Start(Acos(m, cza), eair, tdew))
  }

  /** The value when the loop runs out of iterations. */
  const NOT_CONVERGED: real := -9999.0

  /** What `Tpsy` returns for a way the loop ends: the converged estimate in
      degrees C, -9999 when the iterations run out, and an exception when a
      step raised. */
  function Reported(o: Outcome): (r: Call<real>)
    ensures r.Raises? <==> o.Failed?
    ensures o.Exhausted? ==> r == Returns(NOT_CONVERGED)
    ensures o.Converged? ==> r.Returns? && r.value + 273.15 == o.estimate
  {
    match o
    case Failed => Raises
    case Exhausted => Returns(NOT_CONVERGED)
    case Converged(t, _) =>
      assert t - 273.15 + 273.15 == t;
      Returns(t - 273.15)
  }

  /** The loop from a completed set-up, from the dew point: raises exactly
      when a step of the loop raises, is -9999 when the iterations run out,
      and otherwise is a value the wick balance maps to within `CONVERGENCE`
      of its input. */
  function FromStart(m: Math, phys: Physics, tair: real, rh: real, pair: real, speed: real,
                     solar: real, fdir: real, s: Start): (r: Call<real>)
    ensures r.Raises? <==> Solve(WickStep(m, phys, tair, rh, pair, speed, solar, fdir, s.sza, s.eair), s.tdew) == Failed
    ensures Solve(WickStep(m, phys, tair, rh, pair, speed, solar, fdir, s.sza, s.eair), s.tdew) == Exhausted ==>
      r == Returns(NOT_CONVERGED)
    ensures r.Returns? && r.value != NOT_CONVERGED ==>
      NearFixedPoint(WickStep(m, phys, tair, rh, pair, speed, solar, fdir, s.sza, s.eair), r.value + 273.15)
  {
    var step := WickStep(m, phys, tair, rh, pair, speed, solar, fdir, s.sza, s.eair);
    var o := Solve(step, s.tdew);
    assert o.Converged? ==> NearFixedPoint(step, o.estimate);
    Reported(o)
  }

  /** `Tpsy(Tair, rh, Pair, speed, solar, fdir, cza)` in degrees C (`Tair` in
      kelvin): raises where the set-up or a step does; -9999 when the
      iteration does not converge, and otherwise a value the wick balance
      maps to within `CONVERGENCE` of its input. */
  function PsychrometricWetBulb(m: Math, phys: Physics, tair: real, rh: real, pair: real, speed: real,
                                solar: real, fdir: real, cza: real): (r: Call<real>)
    ensures (cza < -1.0 || cza > 1.0) ==> r.Raises?
    ensures r.Returns? ==> Setup(m, tair, rh, pair, cza).Returns?
    ensures var s := Setup(m, tair, rh, pair, cza);
      r.Raises? <==> (s.Raises? ||
        Solve(WickStep(m, phys, tair, rh, pair, speed, solar, fdir, s.value.sza, s.value.eair), s.value.tdew) == Failed)
    ensures var s := Setup(m, tair, rh, pair, cza);
      s.Returns? &&
        Solve(WickStep(m, phys, tair, rh, pair, speed, solar, fdir, s.value.sza, s.value.eair), s.value.tdew) == Exhausted
      ==> r == Returns(NOT_CONVERGED)
    ensures r.Returns? && r.value != NOT_CONVERGED ==>
      var s := Setup(m, tair, rh, pair, cza).value;
      NearFixedPoint(WickStep(m, phys, tair, rh, pair, speed, solar, fdir, s.sza, s.eair), r.value + 273.15)
  {
    match Setup(m, tair, rh, pair, cza)
    case Raises => Raises
    case Returns(s) => FromStart(m, phys, tair, rh, pair, speed, solar, fdir, s)
  }

  /** `Tpsy` with its `while` loop: agrees with `PsychrometricWetBulb`. */
  method SolvePsychrometric(m: Math, phys: Physics, tair: real, rh: real, pair: real, speed: real,
                            solar: real, fdir: real, cza: real) returns (r: Call<real>)
    ensures r == PsychrometricWetBulb(m, phys, tair, rh, pair, speed, solar, fdir, cza)
  {
    if cza < -1.0 || cza > 1.0 {
      return Raises;
    }
    var sza := Acos(m, cza);
    var es := SaturationPressure(m, tair, 0, pair);
    if es.Raises? {
      return Raises;
    }
    var eair := VapourPressure(rh, es.value);
    assert Setup(m, tair, rh, pair, cza) == StartFrom(m, cza, eair, pair);
    var tdew := DewPointTemperature(m, eair, 0, pair);
    if tdew.Raises? {
      return Raises;
    }
    // the first guess is the dew point
    var outcome := WickLoop(m, phys, tair, rh, pair, speed, solar, fdir, sza, eair, tdew.value);
    r := Reported(outcome);
  }

  /** The `while` loop of `Tpsy` from the first guess `first`: how it ends,
      as `Solve` says. */
  method WickLoop(m: Math, phys: Physics, tair: real, rh: real, pair: real, speed: real,
                  solar: real, fdir: real, sza: real, eair: real, first: real) returns (o: Outcome)
    ensures o == Solve(WickStep(m, phys, tair, rh, pair, speed, solar, fdir, sza, eair), first)
  {
    ghost var step := WickStep(m, phys, tair, rh, pair, speed, solar, fdir, sza, eair);
    var prev := first;
    var next := prev;
    var converged := false;
    var iteration := 0;
    while !converged
      invariant !converged && 0 <= iteration < MAX_ITER
      invariant Solve(step, first) == Iterate(step, prev, iteration)
      decreases MAX_ITER - iteration
    {
      iteration := iteration + 1;
      var estimate := WickEstimate(m, phys, tair, rh, pair, speed, solar, fdir, sza, eair, prev);
      assert step(prev) == estimate;
      if estimate.Raises? {
        return Failed;
      }
      next := estimate.value;
      if Abs(next - prev) < CONVERGENCE {
        converged := true;
      }
      prev := Blend(prev, next);
      if converged || iteration == MAX_ITER {
        assert Solve(step, first) == if converged then Converged(next, iteration) else Exhausted;
        break;
      }
    }
    if converged {
      o := Converged(next, iteration);
    } else {
      o := Exhausted;
    }
  }

  // ----------------------------------------------------------- properties

  /** With `rad = 0` the sunshine, the direct fraction and the zenith angle
      have no bearing on the result, as long as `acos(cza)` is defined. */
  lemma {:induction false} IgnoresRadiation(m: Math, phys: Physics, tair: real, rh: real, pair: real, speed: real,
                                            solar1: real, fdir1: real, cza1: real,
                                            solar2: real, fdir2: real, cza2: real)
    requires -1.0 <= cza1 <= 1.0 && -1.0 <= cza2 <= 1.0
    ensures PsychrometricWetBulb(m, phys, tair, rh, pair, speed, solar1, fdir1, cza1) ==
            PsychrometricWetBulb(m, phys, tair, rh, pair, speed, solar2, fdir2, cza2)
  {
    SetupIgnoresZenith(m, tair, rh, pair, cza1, cza2);
    var s1, s2 := Setup(m, tair, rh, pair, cza1), Setup(m, tair, rh, pair, cza2);
    if s1.Returns? {
      LoopIgnoresRadiation(m, phys, tair, rh, pair, speed, solar1, fdir1, s1.value, solar2, fdir2, s2.value);
    }
  }

  /** Inside [-1, 1] the zenith cosine changes only the zenith angle of the
      set-up: whether it raises, the vapour pressure and the dew point are
      the same. */
  lemma SetupIgnoresZenith(m: Math, tair: real, rh: real, pair: real, cza1: real, cza2: real)
    requires -1.0 <= cza1 <= 1.0 && -1.0 <= cza2 <= 1.0
    ensures Setup(m, tair, rh, pair, cza1).Returns? <==> Setup(m, tair, rh, pair, cza2).Returns?
    ensures Setup(m, tair, rh, pair, cza1).Returns? ==>
      Setup(m, tair, rh, pair, cza1).value.eair == Setup(m, tair, rh, pair, cza2).value.eair &&
      Setup(m, tair, rh, pair, cza1).value.tdew == Setup(m, tair, rh, pair, cza2).value.tdew
  {
  }

  /** From set-ups with the same vapour pressure and dew point, the loop ends
      the same way whatever the sunshine, direct fraction and zenith angle. */
  lemma LoopIgnoresRadiation(m: Math, phys: Physics, tair: real, rh: real, pair: real, speed: real,
                             solar1: real, fdir1: real, s1: Start, solar2: real, fdir2: real, s2: Start)
    requires s1.eair == s2.eair && s1.tdew == s2.tdew
    ensures FromStart(m, phys, tair, rh, pair, speed, solar1, fdir1, s1) ==
            FromStart(m, phys, tair, rh, pair, speed, solar2, fdir2, s2)
  {
    var w1 := WickStep(m, phys, tair, rh, pair, speed, solar1, fdir1, s1.sza, s1.eair);
    var w2 := WickStep(m, phys, tair, rh, pair, speed, solar2, fdir2, s2.sza, s2.eair);
    forall p ensures w1(p) == w2(p) {
      WickEstimateIgnoresRadiation(m, phys, tair, rh, pair, speed, solar1, fdir1, s1.sza,
                                   solar2, fdir2, s2.sza, s1.eair, p);
    }
    IterateCongruent(w1, w2, s1.tdew, 0);
  }

  /** One step of the balance is the same for any sunshine, direct fraction
      and zenith angle. */
  lemma WickEstimateIgnoresRadiation(m: Math, phys: Physics, tair: real, rh: real, pair: real, speed: real,
                                     solar1: real, fdir1: real, sza1: real,
                                     solar2: real, fdir2: real, sza2: real, eair: real, prev: real)
    ensures WickEstimate(m, phys, tair, rh, pair, speed, solar1, fdir1, sza1, eair, prev) ==
            WickEstimate(m, phys, tair, rh, pair, speed, solar2, fdir2, sza2, eair, prev)
  {
  }

  /** In saturated air (rh = 1) the dew point is the air temperature, the wick
      evaporates nothing, and the wet bulb is the dry bulb after one
      iteration, provided `math.log` inverts `math.exp` and no division of
      the first step meets zero. */
  lemma SaturatedAirWetBulbIsDryBulb(m: Math, phys: Physics, tair: real, pair: real, speed: real,
                                     solar: real, fdir: real, cza: real)
    requires LogInvertsExp(m)
    requires -1.0 <= cza <= 1.0 && tair != CoefficientsOf(0).c && EnhancementFactor(0, pair) != 0.0
    requires WickEstimate(m, phys, tair, 1.0, pair, speed, solar, fdir, Acos(m, cza),
                          SaturationPressure(m, tair, 0, pair).value, tair).Returns?
    ensures PsychrometricWetBulb(m, phys, tair, 1.0, pair, speed, solar, fdir, cza) == Returns(tair - 273.15)
  {
    var es := SaturationPressure(m, tair, 0, pair).value;
    assert 1.0 * es == es;
    DewPointInvertsSaturation(m, tair, 0, pair);
    var s := Setup(m, tair, 1.0, pair, cza);
    assert s == Returns(Start(Acos(m, cza), es, tair));
    var step := WickStep(m, phys, tair, 1.0, pair, speed, solar, fdir, Acos(m, cza), es);
    assert step(tair) == Returns(tair);
    FixedPointConvergesAtOnce(step, tair);
  }
}
