/** `esat`: saturation vapour pressure (hPa) over liquid water or ice, by
    Buck's (1981) formulas with the enhancement factor for moist air. */
module Esat {
  import opened Python
  import opened Transcendentals

  /** The Buck coefficients of one phase: `es = ef * a * exp(b * (tk - 273.15) / (tk - c))`. */
  datatype Coefficients = Coefficients(a: real, b: real, c: real)

  /** `phase == 0` selects liquid water; anything else ice. */
  function CoefficientsOf(phase: int): (k: Coefficients)
    ensures k.b > 0.0 && k.a > 0.0 && k.c < 273.15
  {
    if phase == 0 then Coefficients(6.1121, 17.502, 32.18)
    else Coefficients(6.1115, 22.452, 0.6)
  }

  /** The enhancement factor at pressure `pair` (hPa). */
  function EnhancementFactor(phase: int, pair: real): (ef: real)
    ensures pair >= 0.0 ==> ef >= 1.0
  {
    if phase == 0 then 1.0007 + 0.00000346 * pair
    else 1.0003 + 0.00000418 * pair
  }

  /** `y = (tk - 273.15) / (tk - c)`: zero at the freezing point. */
  function Reduced(tk: real, c: real): (y: real)
    requires tk != c
    ensures tk == 273.15 ==> y == 0.0
  {
    (tk - 273.15) / (tk - c)
  }

  /** `esat(tk, phase, Pair)`: raises ZeroDivisionError at `tk` equal to the
      phase's constant `c`; positive wherever the enhancement factor is, and
      exactly `a * ef` at the freezing point. */
  function SaturationPressure(m: Math, tk: real, phase: int, pair: real): (r: Call<real>)
    ensures r.Raises? <==> tk == CoefficientsOf(phase).c
    ensures r.Returns? && EnhancementFactor(phase, pair) > 0.0 ==> r.value > 0.0
    ensures r.Returns? && tk == 273.15 ==>
      r.value == CoefficientsOf(phase).a * EnhancementFactor(phase, pair)
  {
    var k := CoefficientsOf(phase);
    if tk == k.c then Raises
    else Returns(Buck(m, k, EnhancementFactor(phase, pair), tk))
  }

  /** `ef * a * exp(b * y)`: the enhanced pressure away from the pole at `c`,
      positive with the enhancement factor and `a * ef` at the freezing point. */
  function Buck(m: Math, k: Coefficients, ef: real, tk: real): (es: real)
    requires tk != k.c && k.a > 0.0
    ensures ef > 0.0 ==> es > 0.0
    ensures tk == 273.15 ==> es == k.a * ef
  {
    var y := Reduced(tk, k.c);
    var es := k.a * Exp(m, k.b * y);
    ef * es
  }
}
