/** `est_wind_speed`: the 2-metre wind speed from a speed measured at another
    height, by a power law whose exponent depends on the stability class and
    on whether the site is urban. */
module EstWindSpeed {
  import opened Python
  import opened Transcendentals

  const MIN_SPEED: real := 0.5
  const REF_HEIGHT: real := 2.0

  const UrbanExp: seq<real> := [0.15, 0.15, 0.20, 0.25, 0.30, 0.30]
  const RuralExp: seq<real> := [0.07, 0.07, 0.10, 0.15, 0.35, 0.55]

  /** Python's `int(x)`: truncation toward zero. */
  function Int(x: real): (n: int)
    ensures x >= 0.0 ==> n == x.Floor
    ensures n as real <= x < n as real + 1.0 || n as real - 1.0 < x <= n as real
  {
    if x >= 0.0 then x.Floor else -((-x).Floor)
  }

  /** The list index `int(stability_class) - 1` is in range (negative indices
      count from the end); any other class raises IndexError. */
  predicate ClassIndexable(stabilityClass: real) {
    -6 <= Int(stabilityClass) - 1 < 6
  }

  /** The power-law exponent for a class. */
  function WindExponent(stabilityClass: real, urban: int): (p: real)
    requires ClassIndexable(stabilityClass)
    ensures 0.07 <= p <= 0.55
  {
    if urban == 1 then At(UrbanExp, Int(stabilityClass) - 1)
    else At(RuralExp, Int(stabilityClass) - 1)
  }

  /** `est_wind_speed(speed, zspeed, stability_class, urban)`: raises on a
      zero height (float division), on a negative one (the power of a
      negative ratio is complex, and `max` cannot compare it with 0.5), or on
      an unindexable class; otherwise the
      power-law speed, floored at 0.5 m/s: unchanged from a 2 m reading, and
      never faster than a reading taken higher up. */
  function WindSpeed2m(m: Math, speed: real, zspeed: real, stabilityClass: real, urban: int): (r: Call<real>)
    ensures r.Raises? <==> zspeed <= 0.0 || !ClassIndexable(stabilityClass)
    ensures r.Returns? ==> r.value >= MIN_SPEED
    ensures r.Returns? && zspeed == REF_HEIGHT ==> r.value == Max(speed, MIN_SPEED)
    ensures r.Returns? && zspeed > REF_HEIGHT && speed >= 0.0 ==> r.value <= Max(speed, MIN_SPEED)
  {
    if !ClassIndexable(stabilityClass) || zspeed <= 0.0 then Raises
    else
      Returns(Max(PowerLaw(m, speed, zspeed, WindExponent(stabilityClass, urban)), MIN_SPEED))
  }

  /** `speed * (REF_HEIGHT / zspeed) ** exponent`, for a positive height. */
  function PowerLaw(m: Math, speed: real, zspeed: real, exponent: real): (r: real)
    requires zspeed > 0.0
    ensures zspeed == REF_HEIGHT ==> r == speed
    ensures zspeed > REF_HEIGHT && speed >= 0.0 && exponent > 0.0 ==> r <= speed
  {
    var ratio := REF_HEIGHT / zspeed;
    var p := Pow(m, ratio, exponent);
    assert zspeed > REF_HEIGHT && speed >= 0.0 && exponent > 0.0 ==> speed * p <= speed by {
      if zspeed > REF_HEIGHT && speed >= 0.0 && exponent > 0.0 {
        assert 0.0 < ratio < 1.0;
        assert 0.0 < p < 1.0;
        assert speed * p <= speed * 1.0;
      }
    }
    speed * p
  }

  /** The exponent grows from unstable (class 1) to stable (class 6) air, in
      both terrains; urban air mixes more except in the two most stable classes. */
  lemma {:induction false} ExponentGrowsWithStability(c1: int, c2: int, urban: int)
    requires 1 <= c1 <= c2 <= 6
    ensures WindExponent(c1 as real, urban) <= WindExponent(c2 as real, urban)
    ensures c1 <= 4 ==> WindExponent(c1 as real, 0) < WindExponent(c1 as real, 1)
    ensures c1 >= 5 ==> WindExponent(c1 as real, 0) > WindExponent(c1 as real, 1)
  {
    assert Int(c1 as real) == c1 && Int(c2 as real) == c2;
    assert UrbanExp[0] <= UrbanExp[1] <= UrbanExp[2] <= UrbanExp[3] <= UrbanExp[4] <= UrbanExp[5];
    assert RuralExp[0] <= RuralExp[1] <= RuralExp[2] <= RuralExp[3] <= RuralExp[4] <= RuralExp[5];
  }

  /** Class 0 indexes the list at -1 and so takes the exponent of class 6. */
  lemma ClassZeroWrapsToSix(urban: int)
    ensures WindExponent(0.0, urban) == WindExponent(6.0, urban)
  {
    assert Int(0.0) == 0 && Int(6.0) == 6;
  }
}
