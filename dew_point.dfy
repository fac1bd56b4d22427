/** `dew_point`: the dew-point (or frost-point) temperature in kelvin of a
    vapour pressure, the inverse of `esat`. */
module DewPoint {
  import opened Python
  import opened Transcendentals
  import opened Esat

  /** The constant of the inverse formula, 240.97 or 272.55: 273.15 minus the
      `c` of `esat`, which is what makes the two functions inverse. */
  function InverseConstant(phase: int): (c: real)
    ensures c == 273.15 - CoefficientsOf(phase).c && c > 0.0
  {
    if phase == 0 then 240.97 else 272.55
  }

  /** `273.15 + c' * z / (b - z)`: above freezing for `0 < z < b`, below for `z < 0`. */
  function Inverse(cPrime: real, b: real, z: real): (t: real)
    requires z != b && cPrime > 0.0
    ensures z == 0.0 ==> t == 273.15
    ensures z < 0.0 && b > 0.0 ==> t < 273.15
    ensures 0.0 < z < b ==> t > 273.15
  {
    var q := cPrime * z / (b - z);
    assert z < 0.0 && b > 0.0 ==> q < 0.0 by {
      if z < 0.0 && b > 0.0 { SignOfQuotient(cPrime * z, b - z); }
    }
    assert 0.0 < z < b ==> q > 0.0 by {
      if 0.0 < z < b { assert cPrime * z > 0.0; PositiveQuotient(cPrime * z, b - z); }
    }
    273.15 + q
  }

  lemma PositiveQuotient(p: real, d: real)
    requires p > 0.0 && d > 0.0
    ensures p / d > 0.0
  {
  }

  lemma SignOfQuotient(p: real, d: real)
    requires p < 0.0 && d > 0.0
    ensures p / d < 0.0
  {
  }

  /** `dew_point(e, phase, Pair)`. Raises when the enhanced coefficient is 0
      (division), when `e / (a * ef)` is not positive (`math.log`), or when
      the logarithm equals `b` (division). A pressure above `a * ef` with a
      logarithm below `b` has its dew point above freezing, one below it
      below freezing. */
  function DewPointTemperature(m: Math, e: real, phase: int, pair: real): (r: Call<real>)
    ensures var k := CoefficientsOf(phase); var aef := k.a * EnhancementFactor(phase, pair);
      r.Raises? <==> aef == 0.0 || e / aef <= 0.0 || Log(m, e / aef) == k.b
    ensures r.Returns? ==>
      var k := CoefficientsOf(phase);
      var z := Log(m, e / (k.a * EnhancementFactor(phase, pair)));
      r.value == Inverse(InverseConstant(phase), k.b, z)
  {
    var k := CoefficientsOf(phase);
    var ef := EnhancementFactor(phase, pair);
    var aef := k.a * ef;
    if aef == 0.0 then Raises
    else if e / aef <= 0.0 then Raises
    else
      var z := Log(m, e / aef);
      if z == k.b then Raises
      else Returns(Inverse(InverseConstant(phase), k.b, z))
  }

  /** The dew point of the saturation pressure at `tk` is `tk` again, given
      only that `math.log` inverts `math.exp` and a non-zero enhancement factor. */
  lemma {:induction false} DewPointInvertsSaturation(m: Math, tk: real, phase: int, pair: real)
    requires LogInvertsExp(m)
    requires tk != CoefficientsOf(phase).c && EnhancementFactor(phase, pair) != 0.0
    ensures DewPointTemperature(m, SaturationPressure(m, tk, phase, pair).value, phase, pair) == Returns(tk)
  {
    var k := CoefficientsOf(phase);
    var e := SaturationPressure(m, tk, phase, pair).value;
    assert e == Buck(m, k, EnhancementFactor(phase, pair), tk);
    BuckRoundTrip(m, k.a, k.b, k.c, EnhancementFactor(phase, pair), tk, e);
    DewPointFromLog(m, e, phase, pair, k.b * Reduced(tk, k.c));
  }

  /** The round trip for any coefficients `a > 0`, `b > 0`, `c < 273.15` and
      non-zero enhancement factor `ef`. */
  lemma BuckRoundTrip(m: Math, a: real, b: real, c: real, ef: real, tk: real, e: real)
    requires LogInvertsExp(m)
    requires a > 0.0 && b > 0.0 && c < 273.15 && ef != 0.0 && tk != c
    requires e == ef * (a * Exp(m, b * Reduced(tk, c)))
    ensures a * ef != 0.0
    ensures e / (a * ef) > 0.0 && Log(m, e / (a * ef)) == b * Reduced(tk, c)
    ensures b * Reduced(tk, c) != b && Inverse(273.15 - c, b, b * Reduced(tk, c)) == tk
  {
    CancelFactor(ef, a, Exp(m, b * Reduced(tk, c)), e);
    InverseUndoesExponent(b, c, tk);
  }

  /** Where the logarithm of `e / (a ef)` is a known `z`, the dew point is
      the inverse formula at `z`. */
  lemma DewPointFromLog(m: Math, e: real, phase: int, pair: real, z: real)
    requires var aef := CoefficientsOf(phase).a * EnhancementFactor(phase, pair);
      aef != 0.0 && e / aef > 0.0 && Log(m, e / aef) == z && z != CoefficientsOf(phase).b
    ensures DewPointTemperature(m, e, phase, pair) ==
      Returns(Inverse(InverseConstant(phase), CoefficientsOf(phase).b, z))
  {
  }

  lemma CancelFactor(ef: real, a: real, x: real, e: real)
    requires ef != 0.0 && a > 0.0 && e == ef * (a * x)
    ensures a * ef != 0.0 && e / (a * ef) == x
  {
    assert e == (a * ef) * x;
  }

  /** The algebra of the round trip: with `y = (tk - 273.15) / (tk - c)`,
      `273.15 + (273.15 - c) * (b y) / (b - b y) == tk`. */
  lemma InverseUndoesExponent(b: real, c: real, tk: real)
    requires b > 0.0 && c < 273.15 && tk != c
    ensures b * Reduced(tk, c) != b && Inverse(273.15 - c, b, b * Reduced(tk, c)) == tk
  {
    var d := tk - c;
    var y := Reduced(tk, c);
    var u := 1.0 - y;
    var cPrime := 273.15 - c;
    ReducedTimesDivisor(tk, c);
    assert u * d == d - y * d;
    assert cPrime == u * d;
    assert u != 0.0;
    var z := b * y;
    var den := b - z;
    assert den == b * u;
    var num := cPrime * z;
    assert num == (u * d) * (b * y);
    assert num == (d * y) * den;
    DivideExactly(num, den, d * y);
    InverseAt(cPrime, b, z, num / den);
  }

  lemma ReducedTimesDivisor(tk: real, c: real)
    requires tk != c
    ensures Reduced(tk, c) * (tk - c) == tk - 273.15
  {
  }

  lemma InverseAt(cPrime: real, b: real, z: real, q: real)
    requires z != b && cPrime > 0.0 && q == cPrime * z / (b - z)
    ensures Inverse(cPrime, b, z) == 273.15 + q
  {
  }

  lemma DivideExactly(p: real, q: real, r: real)
    requires q != 0.0 && p == r * q
    ensures p / q == r
  {
  }

  /** A vapour pressure of `a * ef` has its dew point at the freezing point. */
  lemma DewPointAtFreezing(m: Math, phase: int, pair: real)
    requires LogInvertsExp(m) && EnhancementFactor(phase, pair) != 0.0
    ensures DewPointTemperature(m, CoefficientsOf(phase).a * EnhancementFactor(phase, pair), phase, pair) == Returns(273.15)
  {
    DewPointInvertsSaturation(m, 273.15, phase, pair);
  }
}
