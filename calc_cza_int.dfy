/** `calc_cza_int`: the cosine of the solar zenith angle averaged over the two
    hours around `hr`, by three-point Gauss-Legendre quadrature on each of the
    sub-intervals [hr-1, hr] and [hr, hr+1] (Hogan and Hirahara 2016). */
module CalcCzaInt {
  import opened Python
  import opened Transcendentals
  import opened Physics
  import DayNumber
  import opened CalcCza

  /** `np.append(np.arange(tbegin, tend), tend)` for tbegin = -1, tend = 1 and
      one interval per hour. */
  const TimeSteps: seq<real> := [-1.0, 0.0, 1.0]

  /** The Gauss-Legendre weights `W` on [-1, 1]. */
  const GaussWeights: seq<real> := [5.0 / 9.0, 8.0 / 9.0, 5.0 / 9.0]

  /** The Gauss-Legendre abscissae `E` on [-1, 1]. */
  function Abscissae(m: Math): (e: seq<real>)
    ensures |e| == 3
  {
    [-Sqrt(m, 3.0 / 5.0), 0.0, Sqrt(m, 3.0 / 5.0)]
  }

  /** The offset from `hr` of node `n` of sub-interval `s`: `jacob * E[n] + (tf + ti) / 2`. */
  function Offset(m: Math, s: int, n: int): real
    requires 0 <= s < 2 && 0 <= n < 3
  {
    var ti, tf := TimeSteps[s], TimeSteps[s + 1];
    (tf - ti) / 2.0 * Abscissae(m)[n] + (tf + ti) / 2.0
  }

  /** The weight of node `n` of sub-interval `s`: `jacob * W[n]`. */
  function Weight(s: int, n: int): real
    requires 0 <= s < 2 && 0 <= n < 3
  {
    (TimeSteps[s + 1] - TimeSteps[s]) / 2.0 * GaussWeights[n]
  }

  /** The loop's `jacob * W[n]` and `jacob * E[n] + (tf + ti) / 2` for the
      sub-interval from `ti` to `tf` are the node's weight and offset. */
  lemma NodeArithmetic(m: Math, s: int, n: int, ti: real, tf: real, jacob: real, e: seq<real>)
    requires 0 <= s < 2 && 0 <= n < 3
    requires ti == TimeSteps[s] && tf == TimeSteps[s + 1] && jacob == (tf - ti) / 2.0 && e == Abscissae(m)
    ensures jacob * GaussWeights[n] == Weight(s, n)
    ensures jacob * e[n] + (tf + ti) / 2.0 == Offset(m, s, n)
  {
  }

  /** Each sub-interval has length 1: weights `W / 2`, nodes `E / 2` about its midpoint. */
  lemma NodeAt(m: Math, s: int, n: int)
    requires 0 <= s < 2 && 0 <= n < 3
    ensures Weight(s, n) == 0.5 * GaussWeights[n]
    ensures Offset(m, s, n) == 0.5 * Abscissae(m)[n] + (s as real - 0.5)
  {
    assert TimeSteps[s] == s as real - 1.0 && TimeSteps[s + 1] == s as real;
  }

  /** The weighted sum of `f` over the nodes the loops visit before node `n`
      of sub-interval `s` (all of them at `s` = 2, `n` = 0). */
  function QuadratureSum(m: Math, f: real -> real, s: int, n: int): real
    requires 0 <= s <= 2 && 0 <= n <= 3 && (s == 2 ==> n == 0)
    decreases s, n
  {
    if n == 0 then (if s == 0 then 0.0 else QuadratureSum(m, f, s - 1, 3))
    else QuadratureSum(m, f, s, n - 1) + Weight(s, n - 1) * f(Offset(m, s, n - 1))
  }

  /** Adding the weighted sample at node `n` of sub-interval `s` to the sum
      so far gives the sum through that node. */
  lemma QuadratureStep(m: Math, f: real -> real, s: int, n: int, sum: real, w: real, sample: real)
    requires 0 <= s < 2 && 0 <= n < 3
    requires sum == QuadratureSum(m, f, s, n) && w == Weight(s, n) && sample == f(Offset(m, s, n))
    ensures sum + w * sample == QuadratureSum(m, f, s, n + 1)
  {
  }

  /** `QuadratureStep` for the sample that `sample` returns at offset `t` of node `n`. */
  lemma AddSample(m: Math, sample: real -> Call<real>, hr: real, s: int, n: int, sum: real, w: real, t: real, cza: Call<real>)
    requires 0 <= s < 2 && 0 <= n < 3
    requires sum == QuadratureSum(m, SampleValues(sample, hr), s, n) && w == Weight(s, n) && t == Offset(m, s, n)
    requires cza == sample(hr + t) && cza.Returns?
    ensures sum + w * cza.value == QuadratureSum(m, SampleValues(sample, hr), s, n + 1)
  {
    var f := SampleValues(sample, hr);
    SampleValueAt(sample, hr, t);
    QuadratureStep(m, f, s, n, sum, w, cza.value);
  }

  /** The quadrature rule's estimate of the mean of `f` over [-1, 1]. */
  function QuadratureMean(m: Math, f: real -> real): real {
    QuadratureSum(m, f, 2, 0) / 2.0
  }

  /** A sampler's values at the offsets `t` from `hr`, and 0 where it raises. */
  function SampleValues(sample: real -> Call<real>, hr: real): real -> real {
    t => match sample(hr + t) case Returns(v) => v case Raises => 0.0
  }

  /** At an offset where the sampler returns, `SampleValues` is its value. */
  lemma SampleValueAt(sample: real -> Call<real>, hr: real, t: real)
    ensures sample(hr + t).Returns? ==> SampleValues(sample, hr)(t) == sample(hr + t).value
  {
  }

  /** The sampler returns at the three nodes of sub-interval `s`. */
  predicate SubIntervalReturns(m: Math, sample: real -> Call<real>, hr: real, s: int)
    requires 0 <= s < 2
  {
    ReturnsBefore(m, sample, hr, s, 3)
  }

  /** The sampler returns at the nodes of sub-interval `s` before node `n`. */
  predicate ReturnsBefore(m: Math, sample: real -> Call<real>, hr: real, s: int, n: int)
    requires 0 <= s < 2 && 0 <= n <= 3
  {
    forall k | 0 <= k < n :: sample(hr + Offset(m, s, k)).Returns?
  }

  /** Returning through node `n` is returning before it and at it. */
  lemma ReturnsBeforeStep(m: Math, sample: real -> Call<real>, hr: real, s: int, n: int)
    requires 0 <= s < 2 && 0 <= n < 3
    ensures ReturnsBefore(m, sample, hr, s, n + 1) <==>
      ReturnsBefore(m, sample, hr, s, n) && sample(hr + Offset(m, s, n)).Returns?
  {
  }

  /** Returning at more nodes implies returning at fewer. */
  lemma ReturnsBeforeMonotone(m: Math, sample: real -> Call<real>, hr: real, s: int, n: int, n': int)
    requires 0 <= s < 2 && 0 <= n <= n' <= 3
    ensures ReturnsBefore(m, sample, hr, s, n') ==> ReturnsBefore(m, sample, hr, s, n)
  {
  }

  /** The sampler returns at all six nodes. */
  predicate NodesReturn(m: Math, sample: real -> Call<real>, hr: real) {
    SubIntervalReturns(m, sample, hr, 0) && SubIntervalReturns(m, sample, hr, 1)
  }

  /** The two loops of `calc_cza_int` with `calc_cza` as the `sample`:
      raises where one of the six samples does, and otherwise returns the
      quadrature mean of the samples about `hr`. */
  method Integrate(m: Math, sample: real -> Call<real>, hr: real) returns (r: Call<real>)
    ensures r == if NodesReturn(m, sample, hr) then Returns(QuadratureMean(m, SampleValues(sample, hr))) else Raises
  {
    ghost var f := SampleValues(sample, hr);
    var timeSteps := TimeSteps;
    var integral := 0.0;
    var s := 0;
    while s < |timeSteps| - 1
      invariant 0 <= s <= 2
      invariant integral == QuadratureSum(m, f, s, 0)
      invariant forall k | 0 <= k < s :: SubIntervalReturns(m, sample, hr, k)
    {
      var ti, tf := timeSteps[s], timeSteps[s + 1];
      var sum := SubInterval(m, sample, hr, s, ti, tf, integral);
      if sum.Raises? {
        return Raises;
      }
      integral := sum.value;
      s := s + 1;
    }
    r := Returns(integral / 2.0);
  }

  /** The inner loop over sub-interval `s`, from `ti` to `tf`: adds the
      weighted samples at its three nodes to `before`, or raises with the
      first sample that does. */
  method SubInterval(m: Math, sample: real -> Call<real>, hr: real,
                     s: int, ti: real, tf: real, before: real) returns (r: Call<real>)
    requires 0 <= s < 2
    requires ti == TimeSteps[s] && tf == TimeSteps[s + 1]
    requires before == QuadratureSum(m, SampleValues(sample, hr), s, 0)
    ensures r == if SubIntervalReturns(m, sample, hr, s)
                 then Returns(QuadratureSum(m, SampleValues(sample, hr), s + 1, 0))
                 else Raises
  {
    ghost var f := SampleValues(sample, hr);
    var e := Abscissae(m);
    var deltat := tf - ti;
    var jacob := deltat / 2.0;
    var integral := before;
    var n := 0;
    while n < |GaussWeights|
      invariant 0 <= n <= 3
      invariant integral == QuadratureSum(m, f, s, n)
      invariant ReturnsBefore(m, sample, hr, s, n)
    {
      var next := AddNode(m, sample, hr, s, n, ti, tf, jacob, e, integral);
      ReturnsBeforeStep(m, sample, hr, s, n);
      if next.Raises? {
        ReturnsBeforeMonotone(m, sample, hr, s, n + 1, 3);
        return Raises;
      }
      integral := next.value;
      n := n + 1;
    }
    r := Returns(integral);
  }

  /** One pass of the inner loop: the sample at node `n`, times its weight,
      added to the sum so far, or the exception the sample raises. */
  method AddNode(m: Math, sample: real -> Call<real>, hr: real, s: int, n: int,
                 ti: real, tf: real, jacob: real, e: seq<real>, integral: real) returns (r: Call<real>)
    requires 0 <= s < 2 && 0 <= n < 3
    requires ti == TimeSteps[s] && tf == TimeSteps[s + 1] && jacob == (tf - ti) / 2.0 && e == Abscissae(m)
    requires integral == QuadratureSum(m, SampleValues(sample, hr), s, n)
    ensures r == if sample(hr + Offset(m, s, n)).Returns?
                 then Returns(QuadratureSum(m, SampleValues(sample, hr), s, n + 1))
                 else Raises
  {
    // the n-th elements of `w = jacob * W` and `t = jacob * E + (tf + ti) / 2`
    var w := jacob * GaussWeights[n];
    var t := jacob * e[n] + (tf + ti) / 2.0;
    NodeArithmetic(m, s, n, ti, tf, jacob, e);
    var cza := sample(hr + t);
    if cza.Raises? {
      return Raises;
    }
    AddSample(m, sample, hr, s, n, integral, w, t, cza);
    r := Returns(integral + w * cza.value);
  }

  // ------------------------------------------------------------ the rule

  /** The six nodes all lie in the two-hour window [-1, 1], mirrored about 0. */
  lemma NodesInWindow(m: Math, s: int, n: int)
    requires 0 <= s < 2 && 0 <= n < 3
    ensures -1.0 <= Offset(m, s, n) <= 1.0
    ensures Offset(m, s, n) == -Offset(m, 1 - s, 2 - n)
  {
    NodeAt(m, s, n);
    NodeAt(m, 1 - s, 2 - n);
  }

  /** The rule written out: weights 5/36 at the outer nodes of each half and
      8/36 at the midpoints, 1 in all. */
  lemma {:induction false} QuadratureMeanExpanded(m: Math, f: real -> real)
    ensures QuadratureMean(m, f) ==
      5.0 / 36.0 * (f(Offset(m, 0, 0)) + f(Offset(m, 0, 2)) + f(Offset(m, 1, 0)) + f(Offset(m, 1, 2)))
      + 8.0 / 36.0 * (f(Offset(m, 0, 1)) + f(Offset(m, 1, 1)))
  {
    NodeAt(m, 0, 0); NodeAt(m, 0, 1); NodeAt(m, 0, 2);
    NodeAt(m, 1, 0); NodeAt(m, 1, 1); NodeAt(m, 1, 2);
    assert QuadratureSum(m, f, 2, 0) == QuadratureSum(m, f, 1, 3);
    assert QuadratureSum(m, f, 1, 0) == QuadratureSum(m, f, 0, 3);
  }

  /** The mean of samples bounded on the window is bounded alike. */
  lemma QuadratureMeanBounds(m: Math, f: real -> real, lo: real, hi: real)
    requires forall t :: -1.0 <= t <= 1.0 ==> lo <= f(t) <= hi
    ensures lo <= QuadratureMean(m, f) <= hi
  {
    QuadratureMeanExpanded(m, f);
    NodesInWindow(m, 0, 0); NodesInWindow(m, 0, 1); NodesInWindow(m, 0, 2);
    NodesInWindow(m, 1, 0); NodesInWindow(m, 1, 1); NodesInWindow(m, 1, 2);
  }

  /** Constant samples average to the constant. */
  lemma QuadratureMeanOfConstant(m: Math, f: real -> real, c: real)
    requires forall t :: -1.0 <= t <= 1.0 ==> f(t) == c
    ensures QuadratureMean(m, f) == c
  {
    QuadratureMeanBounds(m, f, c, c);
  }

  /** The samples of `f` at the six nodes, sub-interval by sub-interval. */
  function NodeSamples(m: Math, f: real -> real): (v: seq<real>)
    ensures |v| == 6
    ensures forall s, n | 0 <= s < 2 && 0 <= n < 3 :: v[3 * s + n] == f(Offset(m, s, n))
  {
    [f(Offset(m, 0, 0)), f(Offset(m, 0, 1)), f(Offset(m, 0, 2)),
     f(Offset(m, 1, 0)), f(Offset(m, 1, 1)), f(Offset(m, 1, 2))]
  }

  /** The largest of the six node samples. */
  function NodeMax(m: Math, f: real -> real): (r: real)
    ensures forall s, n | 0 <= s < 2 && 0 <= n < 3 :: f(Offset(m, s, n)) <= r
    ensures exists s, n | 0 <= s < 2 && 0 <= n < 3 :: f(Offset(m, s, n)) == r
  {
    var v := NodeSamples(m, f);
    var r := Max(Max(Max(v[0], v[1]), Max(v[2], v[3])), Max(v[4], v[5]));
    assert v[0] == f(Offset(m, 0, 0)) && v[3] == f(Offset(m, 1, 0));
    r
  }

  /** The smallest of the six node samples. */
  function NodeMin(m: Math, f: real -> real): (r: real)
    ensures forall s, n | 0 <= s < 2 && 0 <= n < 3 :: r <= f(Offset(m, s, n))
    ensures exists s, n | 0 <= s < 2 && 0 <= n < 3 :: f(Offset(m, s, n)) == r
  {
    var v := NodeSamples(m, f);
    var r := Min(Min(Min(v[0], v[1]), Min(v[2], v[3])), Min(v[4], v[5]));
    assert v[0] == f(Offset(m, 0, 0)) && v[3] == f(Offset(m, 1, 0));
    r
  }

  /** The rule's weights are positive and sum to 1, so its mean lies between
      the smallest and the largest of the samples it takes: only the six
      nodes matter, not `f` elsewhere in the window. */
  lemma {:induction false} QuadratureMeanWithinNodes(m: Math, f: real -> real)
    ensures NodeMin(m, f) <= QuadratureMean(m, f) <= NodeMax(m, f)
  {
    QuadratureMeanExpanded(m, f);
    var lo, hi := NodeMin(m, f), NodeMax(m, f);
    assert lo <= f(Offset(m, 0, 0)) <= hi && lo <= f(Offset(m, 0, 1)) <= hi && lo <= f(Offset(m, 0, 2)) <= hi;
    assert lo <= f(Offset(m, 1, 0)) <= hi && lo <= f(Offset(m, 1, 1)) <= hi && lo <= f(Offset(m, 1, 2)) <= hi;
  }

  /** `f` is the quadratic `a + b t + c t^2`. */
  ghost predicate IsQuadratic(f: real -> real, a: real, b: real, c: real) {
    forall t :: f(t) == a + b * t + c * (t * t)
  }

  /** With `math.sqrt(3/5)` exact, the rule gives the true mean over [-1, 1]
      of every quadratic `a + b t + c t^2`, namely `a + c/3`. */
  lemma {:induction false} QuadratureExactForQuadratics(m: Math, f: real -> real, a: real, b: real, c: real)
    requires SqrtExactAt(m, 3.0 / 5.0)
    requires IsQuadratic(f, a, b, c)
    ensures QuadratureMean(m, f) == a + c / 3.0
  {
    QuadratureMeanExpanded(m, f);
    OuterNodesOfQuadratic(m, f, a, b, c, 0);
    OuterNodesOfQuadratic(m, f, a, b, c, 1);
    MidpointsOfQuadratic(m, f, a, b, c);
  }

  /** A quadratic sampled at the two outer nodes `mid -/+ e/2` of half `s`,
      whose midpoint is `mid`. */
  lemma OuterNodesOfQuadratic(m: Math, f: real -> real, a: real, b: real, c: real, s: int)
    requires SqrtExactAt(m, 3.0 / 5.0) && 0 <= s < 2
    requires IsQuadratic(f, a, b, c)
    ensures f(Offset(m, s, 0)) + f(Offset(m, s, 2)) == 2.0 * a + (2.0 * s as real - 1.0) * b + 0.8 * c
  {
    NodeAt(m, s, 0); NodeAt(m, s, 2);
    var e := Sqrt(m, 3.0 / 5.0);
    var lo, hi := Offset(m, s, 0), Offset(m, s, 2);
    if s == 0 {
      NodesAbout(e, -0.5, lo, hi);
      PairOfQuadratic(f, a, b, c, lo, hi, -1.0, 0.8);
    } else {
      NodesAbout(e, 0.5, lo, hi);
      PairOfQuadratic(f, a, b, c, lo, hi, 1.0, 0.8);
    }
  }

  /** The nodes `mid -/+ e/2` sum to `2 mid`, and their squares to 0.8 when
      `e^2 = 3/5` and `mid = -/+ 1/2`. */
  lemma NodesAbout(e: real, mid: real, lo: real, hi: real)
    requires e * e == 3.0 / 5.0 && (mid == 0.5 || mid == -0.5)
    requires lo == 0.5 * -e + mid && hi == 0.5 * e + mid
    ensures lo + hi == 2.0 * mid && lo * lo + hi * hi == 0.8
  {
    assert lo * lo + hi * hi == 0.5 * (e * e) + 2.0 * (mid * mid);
  }

  /** Two samples of a quadratic, from the sum and the sum of squares of the points. */
  lemma PairOfQuadratic(f: real -> real, a: real, b: real, c: real, lo: real, hi: real, sum: real, squares: real)
    requires IsQuadratic(f, a, b, c)
    requires lo + hi == sum && lo * lo + hi * hi == squares
    ensures f(lo) + f(hi) == 2.0 * a + b * sum + c * squares
  {
    assert f(lo) + f(hi) == 2.0 * a + b * (lo + hi) + c * (lo * lo + hi * hi);
  }

  /** A quadratic sampled at the two midpoints -1/2 and 1/2. */
  lemma MidpointsOfQuadratic(m: Math, f: real -> real, a: real, b: real, c: real)
    requires IsQuadratic(f, a, b, c)
    ensures f(Offset(m, 0, 1)) + f(Offset(m, 1, 1)) == 2.0 * a + 0.5 * c
  {
    NodeAt(m, 0, 1); NodeAt(m, 1, 1);
    assert f(-0.5) == a - 0.5 * b + 0.25 * c;
    assert f(0.5) == a + 0.5 * b + 0.25 * c;
  }

  // ------------------------------------------------------- calc_cza_int

  /** `calc_cza(lat, lon, y, mon, d, h)` as a function of the hour `h`. */
  function CzaOfHour(m: Math, phys: Physics, lat: real, lon: real, y: int, mon: int, d: int): (sample: real -> Call<real>)
    ensures forall h :: sample(h) == Cza(m, phys, lat, lon, y, mon, d, h)
  {
    h => Cza(m, phys, lat, lon, y, mon, d, h)
  }

  /** The integrated value `calc_cza_int` returns when no sample raises. */
  function HourMean(m: Math, phys: Physics, lat: real, lon: real, y: int, mon: int, d: int, hr: real): real {
    QuadratureMean(m, SampleValues(CzaOfHour(m, phys, lat, lon, y, mon, d), hr))
  }

  /** `calc_cza_int(lat, lon, y, mon, d, hr)`: raises where one of the six
      `calc_cza` samples does, and otherwise returns the quadrature mean,
      which is never negative and never above the largest sample. */
  method CzaInt(m: Math, phys: Physics, lat: real, lon: real, y: int, mon: int, d: int, hr: real)
    returns (r: Call<real>)
    ensures r == if NodesReturn(m, CzaOfHour(m, phys, lat, lon, y, mon, d), hr)
                 then Returns(HourMean(m, phys, lat, lon, y, mon, d, hr)) else Raises
    ensures r.Returns? ==> 0.0 <= r.value <= NodeMax(m, SampleValues(CzaOfHour(m, phys, lat, lon, y, mon, d), hr))
  {
    r := Integrate(m, CzaOfHour(m, phys, lat, lon, y, mon, d), hr);
    HourMeanBounds(m, phys, lat, lon, y, mon, d, hr);
  }

  /** The hourly value is a mean of the six `calc_cza` samples: never
      negative, and never above the largest of them. */
  lemma HourMeanBounds(m: Math, phys: Physics, lat: real, lon: real, y: int, mon: int, d: int, hr: real)
    ensures 0.0 <= HourMean(m, phys, lat, lon, y, mon, d, hr)
    ensures HourMean(m, phys, lat, lon, y, mon, d, hr) <= NodeMax(m, SampleValues(CzaOfHour(m, phys, lat, lon, y, mon, d), hr))
  {
    var g := CzaOfHour(m, phys, lat, lon, y, mon, d);
    var f := SampleValues(g, hr);
    var s, n :| 0 <= s < 2 && 0 <= n < 3 && f(Offset(m, s, n)) == NodeMin(m, f);
    SampleValueAt(g, hr, Offset(m, s, n));
    assert g(hr + Offset(m, s, n)) == Cza(m, phys, lat, lon, y, mon, d, hr + Offset(m, s, n));
    QuadratureMeanWithinNodes(m, f);
  }

  /** A sun whose cosine zenith angle is `c` at the six sampled hours gives `c`. */
  lemma HourMeanOfSteadySun(m: Math, phys: Physics, lat: real, lon: real, y: int, mon: int, d: int, hr: real, c: real)
    requires forall s, n | 0 <= s < 2 && 0 <= n < 3 :: Cza(m, phys, lat, lon, y, mon, d, hr + Offset(m, s, n)) == Returns(c)
    ensures HourMean(m, phys, lat, lon, y, mon, d, hr) == c
  {
    var g := CzaOfHour(m, phys, lat, lon, y, mon, d);
    var f := SampleValues(g, hr);
    forall s, n | 0 <= s < 2 && 0 <= n < 3
      ensures f(Offset(m, s, n)) == c
    {
      SampleValueAt(g, hr, Offset(m, s, n));
      assert g(hr + Offset(m, s, n)) == Cza(m, phys, lat, lon, y, mon, d, hr + Offset(m, s, n));
    }
    QuadratureMeanExpanded(m, f);
  }
}
