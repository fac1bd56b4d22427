/** Python value semantics that the heat-metrics code relies on: NaN-carrying
    floats, exceptions raised by `/`, `math.log` or a subscript, negative list
    indexing, and `min`/`max`/`abs` on numbers. Floats are modelled as exact reals. */
module Python {

  /** A Python float: IEEE not-a-number, or a finite value (infinities are not modelled). */
  datatype Float = NaN | Num(v: real) {
    /** `np.isnan(x)` */
    predicate IsNaN() { NaN? }
  }

  datatype Option<+T> = None | Some(value: T)

  /** The outcome of a call that may raise (ZeroDivisionError, ValueError,
      TypeError or IndexError; the model does not distinguish them). */
  datatype Call<+T> = Returns(value: T) | Raises

  function Abs(x: real): (r: real)
    ensures r >= 0.0 && (r == x || r == -x)
  {
    if x < 0.0 then -x else x
  }

  /** Python's `max(a, b)`: the first argument unless the second is larger. */
  function Max(a: real, b: real): (r: real)
    ensures r >= a && r >= b && (r == a || r == b)
  {
    if b > a then b else a
  }

  /** Python's `min(a, b)`: the first argument unless the second is smaller. */
  function Min(a: real, b: real): (r: real)
    ensures r <= a && r <= b && (r == a || r == b)
  {
    if b < a then b else a
  }

  /** `s[k]` on a Python list: negative indices count from the end; any other
      index raises IndexError, so a caller must stay within `-|s| .. |s|-1`. */
  function At<T>(s: seq<T>, k: int): (r: T)
    requires -|s| <= k < |s|
    ensures 0 <= k ==> r == s[k]
    ensures k < 0 ==> r == s[|s| + k]
  {
    if k < 0 then s[|s| + k] else s[k]
  }

  /** `x - math.floor(x)`: the fractional part, in [0, 1). */
  function Frac(x: real): (r: real)
    ensures 0.0 <= r < 1.0
    ensures x - r == x.Floor as real
  {
    x - x.Floor as real
  }
}
