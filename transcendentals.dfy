/** The transcendental functions of Python's `math` module, left uninterpreted.
    A `Math` value holds arbitrary functions; each operation below forces its
    function into the range the real function has (and fixes the few values
    stated), so the choices of `Math` are exactly the functions with those
    range facts and nothing about their accuracy is assumed. */
module Transcendentals {

  /** `math.pi`, the double closest to pi (slightly below pi). */
  const PI: real := 3.141592653589793
  /** `math.pi / 2` as a double; `math.asin` never exceeds it. It is below the
      true pi/2, so the cosine is positive on [-HALF_PI, HALF_PI]. */
  const HALF_PI: real := 1.5707963267948966

  datatype Math = Math(
    sin: real -> real, cos: real -> real, tan: real -> real,
    asin: real -> real, acos: real -> real, atan2: (real, real) -> real,
    exp: real -> real, log: real -> real, sqrt: real -> real, pow: (real, real) -> real)

  function Clamp(x: real, lo: real, hi: real): (r: real)
    requires lo <= hi
    ensures lo <= r <= hi
    ensures lo <= x <= hi ==> r == x
  {
    if x < lo then lo else if x > hi then hi else x
  }

  /** `x` itself when positive, 1 otherwise: onto the positive reals. */
  function Positive(x: real): (r: real)
    ensures r > 0.0
    ensures x > 0.0 ==> r == x
  {
    if x > 0.0 then x else 1.0
  }

  /** `math.sin`: values in [-1, 1]. */
  function Sin(m: Math, x: real): (r: real)
    ensures -1.0 <= r <= 1.0
  {
    Clamp(m.sin(x), -1.0, 1.0)
  }

  /** `math.cos`: values in [-1, 1], positive on the range of `math.asin`. */
  function Cos(m: Math, x: real): (r: real)
    ensures -1.0 <= r <= 1.0
    ensures -HALF_PI <= x <= HALF_PI ==> r > 0.0
  {
    if -HALF_PI <= x <= HALF_PI then Clamp(Positive(m.cos(x)), 0.0, 1.0)
    else Clamp(m.cos(x), -1.0, 1.0)
  }

  /** `math.tan`: 0 at 0, positive on (0, pi/2) and negative on (-pi/2, 0). */
  function Tan(m: Math, x: real): (r: real)
    ensures x == 0.0 ==> r == 0.0
    ensures 0.0 < x < HALF_PI ==> r > 0.0
    ensures -HALF_PI < x < 0.0 ==> r < 0.0
  {
    if x == 0.0 then 0.0
    else if 0.0 < x < HALF_PI then Positive(m.tan(x))
    else if -HALF_PI < x < 0.0 then -Positive(-m.tan(x))
    else m.tan(x)
  }

  /** `math.asin`: values in [-pi/2, pi/2]. */
  function Asin(m: Math, x: real): (r: real)
    ensures -HALF_PI <= r <= HALF_PI
  {
    Clamp(m.asin(x), -HALF_PI, HALF_PI)
  }

  /** `math.acos`: values in [0, pi]. */
  function Acos(m: Math, x: real): (r: real)
    ensures 0.0 <= r <= PI
  {
    Clamp(m.acos(x), 0.0, PI)
  }

  /** `math.atan2(y, x)`: values in [-pi, pi]. */
  function Atan2(m: Math, y: real, x: real): (r: real)
    ensures -PI <= r <= PI
  {
    Clamp(m.atan2(y, x), -PI, PI)
  }

  /** `math.exp`: positive, and 1 at 0. */
  function Exp(m: Math, x: real): (r: real)
    ensures r > 0.0
    ensures x == 0.0 ==> r == 1.0
  {
    if x == 0.0 then 1.0 else Positive(m.exp(x))
  }

  /** `math.log`, with no fact assumed. */
  function Log(m: Math, x: real): real {
    m.log(x)
  }

  /** `math.sqrt`: never negative, and at most 1 on [0, 1]. */
  function Sqrt(m: Math, x: real): (r: real)
    ensures r >= 0.0
    ensures 0.0 <= x <= 1.0 ==> r <= 1.0
  {
    var s := if m.sqrt(x) < 0.0 then -m.sqrt(x) else m.sqrt(x);
    if 0.0 <= x <= 1.0 then Clamp(s, 0.0, 1.0) else s
  }

  /** `x ** y` for floats: positive for a positive base, 1 for base 1, and
      below 1 for a base in (0, 1) raised to a positive power. */
  function Pow(m: Math, x: real, y: real): (r: real)
    ensures x > 0.0 ==> r > 0.0
    ensures x == 1.0 ==> r == 1.0
    ensures 0.0 < x < 1.0 && y > 0.0 ==> r < 1.0
  {
    if x == 1.0 then 1.0
    else if 0.0 < x < 1.0 && y > 0.0 then
      (if 0.0 < m.pow(x, y) < 1.0 then m.pow(x, y) else x)
    else if x > 0.0 then Positive(m.pow(x, y))
    else m.pow(x, y)
  }

  /** The Pythagorean identity at one argument. */
  ghost predicate PythagoreanAt(m: Math, x: real) {
    Sin(m, x) * Sin(m, x) + Cos(m, x) * Cos(m, x) == 1.0
  }

  /** `math.sqrt(x)` squared gives back `x`. */
  ghost predicate SqrtExactAt(m: Math, x: real) {
    Sqrt(m, x) * Sqrt(m, x) == x
  }

  /** The one algebraic fact the saturation-pressure round trip rests on. */
  ghost predicate LogInvertsExp(m: Math) {
    forall x :: Log(m, Exp(m, x)) == x
  }
}
