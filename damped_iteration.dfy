/** The damped fixed-point loop that `Tglobe` and `Tpsy` share: from a first
    guess, each iteration computes a new estimate from the previous one,
    stops once the two agree to within `CONVERGENCE`, and otherwise moves the
    previous estimate a tenth of the way toward the new one, for at most
    `MAX_ITER` iterations. The value returned is the last new estimate, not
    the blended one. */
module DampedIteration {
  import opened Python

  const CONVERGENCE: real := 0.02
  const MAX_ITER: nat := 100

  /** How the loop ends: agreement at some iteration (1-based), the last
      iteration without agreement, or an exception raised by a step. */
  datatype Outcome = Converged(estimate: real, iterations: nat) | Exhausted | Failed

  /** `0.9 * prev + 0.1 * new`: a point between the two estimates. */
  function Blend(prev: real, next: real): (r: real)
    ensures prev <= next ==> prev <= r <= next
    ensures next <= prev ==> next <= r <= prev
    ensures r - next == 0.9 * (prev - next)
  {
    0.9 * prev + 0.1 * next
  }

  /** A value the step produces from an estimate within `CONVERGENCE` of it. */
  ghost predicate NearFixedPoint(step: real -> Call<real>, e: real) {
    exists p :: step(p) == Returns(e) && Abs(e - p) < CONVERGENCE
  }

  /** The loop from estimate `prev` after `done` iterations. A converged
      outcome is a near-fixed point of the step, reached within the
      iteration budget. */
  function Iterate(step: real -> Call<real>, prev: real, done: nat): (o: Outcome)
    requires done < MAX_ITER
    ensures o.Converged? ==> done < o.iterations <= MAX_ITER
    ensures o.Converged? ==> NearFixedPoint(step, o.estimate)
    decreases MAX_ITER - done
  {
    match step(prev)
    case Raises => Failed
    case Returns(next) =>
      if Abs(next - prev) < CONVERGENCE then
        assert step(prev) == Returns(next);
        Converged(next, done + 1)
      else if done + 1 == MAX_ITER then Exhausted
      else Iterate(step, Blend(prev, next), done + 1)
  }

  /** The whole loop from the first guess. */
  function Solve(step: real -> Call<real>, first: real): Outcome {
    Iterate(step, first, 0)
  }

  /** A first guess the step maps to itself is returned after one iteration. */
  lemma FixedPointConvergesAtOnce(step: real -> Call<real>, first: real)
    requires step(first) == Returns(first)
    ensures Solve(step, first) == Converged(first, 1)
  {
    assert Abs(first - first) == 0.0;
  }

  /** The loop depends only on the values of its step function. */
  lemma {:induction false} IterateCongruent(step1: real -> Call<real>, step2: real -> Call<real>, prev: real, done: nat)
    requires done < MAX_ITER
    requires forall p :: step1(p) == step2(p)
    ensures Iterate(step1, prev, done) == Iterate(step2, prev, done)
    decreases MAX_ITER - done
  {
    assert step1(prev) == step2(prev);
    match step1(prev)
    case Raises =>
    case Returns(next) =>
      if Abs(next - prev) >= CONVERGENCE && done + 1 < MAX_ITER {
        IterateCongruent(step1, step2, Blend(prev, next), done + 1);
      }
  }

  /** A step that never raises never makes the loop fail. */
  lemma {:induction false} TotalStepNeverFails(step: real -> Call<real>, prev: real, done: nat)
    requires done < MAX_ITER
    requires forall p :: step(p).Returns?
    ensures !Iterate(step, prev, done).Failed?
    decreases MAX_ITER - done
  {
    assert step(prev).Returns?;
    var next := step(prev).value;
    if Abs(next - prev) >= CONVERGENCE && done + 1 < MAX_ITER {
      TotalStepNeverFails(step, Blend(prev, next), done + 1);
    }
  }

  /** A step that moves every estimate by at least `CONVERGENCE` never
      converges: the loop runs out of iterations or fails. */
  lemma {:induction false} FarFromFixedPointsNeverConverges(step: real -> Call<real>, prev: real, done: nat)
    requires done < MAX_ITER
    requires forall p :: step(p).Returns? ==> Abs(step(p).value - p) >= CONVERGENCE
    ensures !Iterate(step, prev, done).Converged?
    decreases MAX_ITER - done
  {
    match step(prev)
    case Raises =>
    case Returns(next) =>
      assert Abs(next - prev) >= CONVERGENCE;
      if done + 1 < MAX_ITER {
        FarFromFixedPointsNeverConverges(step, Blend(prev, next), done + 1);
      }
  }

  /** A constant step `c` converges at the first iteration whose previous
      estimate lies within `CONVERGENCE` of `c`, and each blend shrinks the
      distance to `c` by a tenth. */
  lemma {:induction false} ConstantStepContracts(step: real -> Call<real>, c: real, prev: real, done: nat)
    requires done < MAX_ITER
    requires forall p :: step(p) == Returns(c)
    ensures Abs(c - prev) < CONVERGENCE ==> Iterate(step, prev, done) == Converged(c, done + 1)
    ensures Abs(c - prev) >= CONVERGENCE && done + 1 < MAX_ITER ==>
      Iterate(step, prev, done) == Iterate(step, Blend(prev, c), done + 1) &&
      Abs(c - Blend(prev, c)) == 0.9 * Abs(c - prev)
  {
    assert step(prev) == Returns(c);
  }
}
