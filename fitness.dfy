/** The objective of src/algorithms/fitness.py: the mean squared error of a
    candidate point to a fixed 2-D target. */
module Objective {

  /** The identity on reals. `Square` multiplies a value by `Same` of itself so
      that the solver sees a product of two terms rather than a power, which
      keeps its non-linear reasoning about squares stable. */
  function Same(x: real): real { x }

  /** `x ** 2` */
  function Square(x: real): real { x * Same(x) }

  lemma SquarePositive(x: real)
    requires x != 0.0
    ensures Square(x) > 0.0
  {
    if x < 0.0 { assert Square(x) == (-x) * Same(-x); }
  }

  lemma SquareNonnegative(x: real)
    ensures Square(x) >= 0.0
  {
    if x != 0.0 { SquarePositive(x); }
  }

  lemma SquareOfDifferenceSymmetric(x: real, y: real)
    ensures Square(x - y) == Square(y - x)
  {
    assert Square(y - x) == (x - y) * Same(x - y);
  }

  /** Sum of the squared element-wise differences of two vectors of equal length. */
  function SumSquaredDiff(a: seq<real>, b: seq<real>): (r: real)
    requires |a| == |b|
    ensures r >= 0.0
  {
    if |a| == 0 then 0.0
    else
      SquareNonnegative(a[0] - b[0]);
      Square(a[0] - b[0]) + SumSquaredDiff(a[1..], b[1..])
  }

  lemma {:induction false} SumSquaredDiffSelf(a: seq<real>)
    ensures SumSquaredDiff(a, a) == 0.0
  {
    if |a| > 0 { SumSquaredDiffSelf(a[1..]); }
  }

  lemma {:induction false} SumSquaredDiffPositive(a: seq<real>, b: seq<real>)
    requires |a| == |b| && a != b
    ensures SumSquaredDiff(a, b) > 0.0
  {
    if a[0] != b[0] {
      SquarePositive(a[0] - b[0]);
    } else {
      assert a == [a[0]] + a[1..] && b == [b[0]] + b[1..];
      SumSquaredDiffPositive(a[1..], b[1..]);
    }
  }

  lemma {:induction false} SumSquaredDiffSymmetric(a: seq<real>, b: seq<real>)
    requires |a| == |b|
    ensures SumSquaredDiff(a, b) == SumSquaredDiff(b, a)
  {
    if |a| > 0 {
      SumSquaredDiffSymmetric(a[1..], b[1..]);
      SquareOfDifferenceSymmetric(a[0], b[0]);
    }
  }

  /** The sum over a 2-vector, written out. */
  lemma SumSquaredDiffPair(a: seq<real>, b: seq<real>)
    requires |a| == |b| == 2
    ensures SumSquaredDiff(a, b) == Square(a[0] - b[0]) + Square(a[1] - b[1])
  {
    var a', b' := a[1..], b[1..];
    assert SumSquaredDiff(a', b') == Square(a'[0] - b'[0]) + SumSquaredDiff(a'[1..], b'[1..]);
    assert a'[1..] == [] && b'[1..] == [];
  }

  /** `Fitness(target_x, target_y)`. The target is a datatype value: it is set
      when the value is built and never changes afterwards. */
  datatype Fitness = Fitness(targetX: real, targetY: real) {

    /** `problem_`: the mean squared error of a 2-vector to the target. */
    function Problem(soln: seq<real>): (r: real)
      requires |soln| == 2
      ensures r == (Square(soln[0] - targetX) + Square(soln[1] - targetY)) / 2.0
      ensures r >= 0.0
    {
      SumSquaredDiffPair(soln, [targetX, targetY]);
      MeanSquaredError(soln, [targetX, targetY])
    }

    /** `assess_fitness_`: evaluates whatever problem it is handed; the target
        of this value plays no part. */
    function AssessFitness(individual: seq<real>, problem: seq<real> --> real): (r: real)
      requires problem.requires(individual)
      ensures r == problem(individual)
    {
      problem(individual)
    }

    /** `mean_squared_error_`: `((y_true - y_pred) ** 2).mean(axis=0)` on two
        1-D vectors of the same non-zero length. */
    function MeanSquaredError(yTrue: seq<real>, yPred: seq<real>): (r: real)
      requires |yTrue| == |yPred| > 0
      ensures r >= 0.0
    {
      SumSquaredDiff(yTrue, yPred) / (|yTrue| as real)
    }
  }

  /** The error is zero exactly when the two vectors coincide. */
  lemma MeanSquaredErrorZeroIff(fit: Fitness, yTrue: seq<real>, yPred: seq<real>)
    requires |yTrue| == |yPred| > 0
    ensures fit.MeanSquaredError(yTrue, yPred) == 0.0 <==> yTrue == yPred
  {
    if yTrue == yPred { SumSquaredDiffSelf(yTrue); } else { SumSquaredDiffPositive(yTrue, yPred); }
  }

  /** The error does not depend on the order of its arguments. */
  lemma MeanSquaredErrorSymmetric(fit: Fitness, yTrue: seq<real>, yPred: seq<real>)
    requires |yTrue| == |yPred| > 0
    ensures fit.MeanSquaredError(yTrue, yPred) == fit.MeanSquaredError(yPred, yTrue)
  {
    SumSquaredDiffSymmetric(yTrue, yPred);
  }

  /** The objective vanishes exactly at the target, and only there. */
  lemma ProblemZeroIffAtTarget(fit: Fitness, soln: seq<real>)
    requires |soln| == 2
    ensures fit.Problem(soln) == 0.0 <==> soln == [fit.targetX, fit.targetY]
  {
    MeanSquaredErrorZeroIff(fit, soln, [fit.targetX, fit.targetY]);
  }

  /** The fitness's own target plays no part in assessing a point: any two
      `Fitness` values assess it alike. */
  lemma AssessFitnessIgnoresTarget(fit: Fitness, other: Fitness, individual: seq<real>, problem: seq<real> --> real)
    requires problem.requires(individual)
    ensures fit.AssessFitness(individual, problem) == other.AssessFitness(individual, problem)
  {
  }

  /** Assessing a point against the fitness's own `problem_` gives the
      objective's value, and so is zero exactly at the target. */
  lemma AssessProblemZeroIffAtTarget(fit: Fitness, soln: seq<real>)
    requires |soln| == 2
    ensures fit.AssessFitness(soln, fit.Problem) == fit.Problem(soln)
    ensures fit.AssessFitness(soln, fit.Problem) == 0.0 <==> soln == [fit.targetX, fit.targetY]
  {
    ProblemZeroIffAtTarget(fit, soln);
  }
}
