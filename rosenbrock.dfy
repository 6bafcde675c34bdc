/**
 * The Rosenbrock test fixture handed to the GCMMA optimiser interface:
 * two design variables, no constraints, the objective
 *   f(x) = b (x1 - x0^2)^2 + (a - x0)^2
 * with a = 1 and b = 100, its gradient, the starting point and bounds,
 * and the recording of the optimiser's reported result.
 */
module GcmmaRosenbrock {

  /** The objective as a polynomial in the two design variables. */
  function Objective(a: real, b: real, x0: real, x1: real): real
  {
    b * (x1 - x0 * x0) * (x1 - x0 * x0) + (a - x0) * (a - x0)
  }

  /** d f / d x0 as the fixture writes it. */
  function GradX0(a: real, b: real, x0: real, x1: real): real
  {
    -2.0 * (a - x0) - 4.0 * b * (x1 - x0 * x0) * x0
  }

  /** d f / d x1 as the fixture writes it. */
  function GradX1(a: real, b: real, x0: real, x1: real): real
  {
    2.0 * b * (x1 - x0 * x0)
  }

  /** The square of a real is never negative. */
  lemma SquareNonNegative(t: real)
    ensures t * t >= 0.0
  {
    if t < 0.0 {
      assert t * t == (-t) * (-t);
    }
  }

  /** With a non-negative weight b the objective is a sum of squares, hence never negative. */
  lemma ObjectiveNonNegative(a: real, b: real, x0: real, x1: real)
    requires b >= 0.0
    ensures Objective(a, b, x0, x1) >= 0.0
  {
    var u := x1 - x0 * x0;
    SquareNonNegative(u);
    SquareNonNegative(a - x0);
    assert b * u * u == b * (u * u);
    assert b * (u * u) >= 0.0;
  }

  /** Every point is at least as bad as (a, a^2), where the objective is zero: (a, a^2) is a global minimiser. */
  lemma GlobalMinimiser(a: real, b: real, x0: real, x1: real)
    requires b >= 0.0
    ensures Objective(a, b, a, a * a) == 0.0
    ensures Objective(a, b, x0, x1) >= Objective(a, b, a, a * a)
  {
    ObjectiveNonNegative(a, b, x0, x1);
  }

  /** The gradient vanishes at the minimiser (a, a^2). */
  lemma GradientZeroAtMinimiser(a: real, b: real)
    ensures GradX0(a, b, a, a * a) == 0.0 && GradX1(a, b, a, a * a) == 0.0
  {
  }

  /** b (v v) for v = u - d, expanded; a product identity in the free reals b, u, d. */
  lemma ScaledSquareOfDifference(b: real, u: real, d: real)
    ensures b * ((u - d) * (u - d)) == b * (u * u) - 2.0 * (b * u) * d + b * (d * d)
  {
    assert (u - d) * (u - d) == u * u - 2.0 * u * d + d * d;
  }

  /** The objective with x0 moved by h, in terms of u = x1 - x0^2, w = a - x0 and d = 2 x0 h + h^2. */
  lemma ObjectiveShiftedX0(a: real, b: real, x0: real, x1: real, h: real)
    ensures Objective(a, b, x0 + h, x1)
            == b * ((x1 - x0 * x0 - (2.0 * x0 * h + h * h)) * (x1 - x0 * x0 - (2.0 * x0 * h + h * h)))
               + ((a - x0) - h) * ((a - x0) - h)
  {
    assert x1 - (x0 + h) * (x0 + h) == x1 - x0 * x0 - (2.0 * x0 * h + h * h);
  }

  /** b d^2 = h^2 b (2 x0 + h)^2 for d = 2 x0 h + h^2. */
  lemma ShiftSquare(b: real, x0: real, h: real)
    ensures b * ((2.0 * x0 * h + h * h) * (2.0 * x0 * h + h * h))
            == h * h * (b * (2.0 * x0 + h) * (2.0 * x0 + h))
  {
    assert 2.0 * x0 * h + h * h == h * (2.0 * x0 + h);
  }

  /** 2 (b u) d = h (4 b u x0) + h^2 (2 b u) for d = 2 x0 h + h^2. */
  lemma ShiftCross(bu: real, x0: real, h: real)
    ensures 2.0 * bu * (2.0 * x0 * h + h * h) == h * (4.0 * bu * x0) + h * h * (2.0 * bu)
  {
  }

  /** h times d f / d x0, in terms of w = a - x0 and b u. */
  lemma ScaledGradX0(a: real, b: real, x0: real, x1: real, h: real)
    ensures h * GradX0(a, b, x0, x1) == -(2.0 * (a - x0) * h) - h * (4.0 * (b * (x1 - x0 * x0)) * x0)
  {
    assert 4.0 * b * (x1 - x0 * x0) * x0 == 4.0 * (b * (x1 - x0 * x0)) * x0;
  }

  /** The h^2 coefficient, distributed. */
  lemma SecondOrderTerm(b: real, u: real, x0: real, h: real)
    ensures h * h * (1.0 - 2.0 * b * u + b * (2.0 * x0 + h) * (2.0 * x0 + h))
            == h * h - h * h * (2.0 * (b * u)) + h * h * (b * (2.0 * x0 + h) * (2.0 * x0 + h))
  {
    assert 2.0 * b * u == 2.0 * (b * u);
  }

  /** The objective with its first term grouped as b (u u). */
  lemma ObjectiveGrouped(a: real, b: real, x0: real, x1: real)
    ensures Objective(a, b, x0, x1) == b * ((x1 - x0 * x0) * (x1 - x0 * x0)) + (a - x0) * (a - x0)
  {
  }

  lemma SquareOfDifference(w: real, h: real)
    ensures (w - h) * (w - h) == w * w - 2.0 * w * h + h * h
  {
  }

  /*
   * The x0 step, one expansion at a time, with u = x1 - x0^2, w = a - x0
   * and d = 2 x0 h + h^2 written out.
   */

  lemma ShiftX0Expanded(a: real, b: real, x0: real, x1: real, h: real)
    ensures Objective(a, b, x0 + h, x1) - Objective(a, b, x0, x1)
            == b * ((x1 - x0 * x0 - (2.0 * x0 * h + h * h)) * (x1 - x0 * x0 - (2.0 * x0 * h + h * h)))
               + ((a - x0) - h) * ((a - x0) - h)
               - (b * ((x1 - x0 * x0) * (x1 - x0 * x0)) + (a - x0) * (a - x0))
  {
    ObjectiveShiftedX0(a, b, x0, x1, h);
    ObjectiveGrouped(a, b, x0, x1);
  }

  lemma ShiftX0Squares(a: real, b: real, x0: real, x1: real, h: real)
    ensures b * ((x1 - x0 * x0 - (2.0 * x0 * h + h * h)) * (x1 - x0 * x0 - (2.0 * x0 * h + h * h)))
            + ((a - x0) - h) * ((a - x0) - h)
            - (b * ((x1 - x0 * x0) * (x1 - x0 * x0)) + (a - x0) * (a - x0))
            == -(2.0 * (b * (x1 - x0 * x0)) * (2.0 * x0 * h + h * h))
               + b * ((2.0 * x0 * h + h * h) * (2.0 * x0 * h + h * h))
               - 2.0 * (a - x0) * h + h * h
  {
    ScaledSquareOfDifference(b, x1 - x0 * x0, 2.0 * x0 * h + h * h);
    SquareOfDifference(a - x0, h);
  }

  lemma ShiftX0Powers(a: real, b: real, x0: real, x1: real, h: real)
    ensures -(2.0 * (b * (x1 - x0 * x0)) * (2.0 * x0 * h + h * h))
            + b * ((2.0 * x0 * h + h * h) * (2.0 * x0 * h + h * h))
            - 2.0 * (a - x0) * h + h * h
            == -(h * (4.0 * (b * (x1 - x0 * x0)) * x0)) - h * h * (2.0 * (b * (x1 - x0 * x0)))
               + h * h * (b * (2.0 * x0 + h) * (2.0 * x0 + h)) - 2.0 * (a - x0) * h + h * h
  {
    ShiftCross(b * (x1 - x0 * x0), x0, h);
    ShiftSquare(b, x0, h);
  }

  lemma ShiftX0Collected(a: real, b: real, x0: real, x1: real, h: real)
    ensures -(h * (4.0 * (b * (x1 - x0 * x0)) * x0)) - h * h * (2.0 * (b * (x1 - x0 * x0)))
            + h * h * (b * (2.0 * x0 + h) * (2.0 * x0 + h)) - 2.0 * (a - x0) * h + h * h
            == h * GradX0(a, b, x0, x1)
               + h * h * (1.0 - 2.0 * b * (x1 - x0 * x0) + b * (2.0 * x0 + h) * (2.0 * x0 + h))
  {
    ScaledGradX0(a, b, x0, x1, h);
    SecondOrderTerm(b, x1 - x0 * x0, x0, h);
  }

  /** Moving x0 by h changes f by h times d f / d x0 plus an explicit h^2 term. */
  lemma ShiftX0(a: real, b: real, x0: real, x1: real, h: real)
    ensures Objective(a, b, x0 + h, x1) - Objective(a, b, x0, x1)
            == h * GradX0(a, b, x0, x1)
               + h * h * (1.0 - 2.0 * b * (x1 - x0 * x0) + b * (2.0 * x0 + h) * (2.0 * x0 + h))
  {
    ShiftX0Expanded(a, b, x0, x1, h);
    ShiftX0Squares(a, b, x0, x1, h);
    ShiftX0Powers(a, b, x0, x1, h);
    ShiftX0Collected(a, b, x0, x1, h);
  }

  /** Moving x1 by h changes f by h times d f / d x1 plus b h^2. */
  lemma ShiftX1(a: real, b: real, x0: real, x1: real, h: real)
    ensures Objective(a, b, x0, x1 + h) - Objective(a, b, x0, x1)
            == h * GradX1(a, b, x0, x1) + h * h * b
  {
    var u := x1 - x0 * x0;
    var w := a - x0;
    assert x1 + h - x0 * x0 == u + h;
    assert Objective(a, b, x0, x1 + h) == b * ((u - -h) * (u - -h)) + w * w;
    assert Objective(a, b, x0, x1) == b * (u * u) + w * w;
    ScaledSquareOfDifference(b, u, -h);
    assert h * GradX1(a, b, x0, x1) == 2.0 * (b * u) * h;
    assert b * (-h * -h) == h * h * b;
  }

  /**
   * The gradient components are the partial derivatives of the objective:
   * moving one coordinate by h changes f by h times the component plus
   * h^2 times an explicit polynomial, so the first-order term is exact.
   */
  lemma GradientIsFirstOrderTerm(a: real, b: real, x0: real, x1: real, h: real)
    ensures Objective(a, b, x0 + h, x1) - Objective(a, b, x0, x1)
            == h * GradX0(a, b, x0, x1)
               + h * h * (1.0 - 2.0 * b * (x1 - x0 * x0) + b * (2.0 * x0 + h) * (2.0 * x0 + h))
    ensures Objective(a, b, x0, x1 + h) - Objective(a, b, x0, x1)
            == h * GradX1(a, b, x0, x1) + h * h * b
  {
    ShiftX0(a, b, x0, x1, h);
    ShiftX1(a, b, x0, x1, h);
  }

  /** The fixture object: the parameters a and b and the last recorded result. */
  class RosenbrockFunction {
    var a: real
    var b: real
    var obj: real
    var x: seq<real>

    /** a = 1, b = 100, nothing recorded yet; two variables and no constraints. */
    constructor ()
      ensures a == 1.0 && b == 100.0 && obj == 0.0 && x == []
      ensures NumVars() == 2 && NumEq() == 0 && NumIneq() == 0
    {
      a, b, obj, x := 1.0, 100.0, 0.0, [];
    }

    /** Two design variables. */
    function NumVars(): nat
    {
      2
    }

    /** No equality constraints. */
    function NumEq(): nat
    {
      0
    }

    /** No inequality constraints. */
    function NumIneq(): nat
    {
      0
    }

    /**
     * The starting point (5, -5) and the box [-10, 10]^2; the starting point
     * lies inside the box and every vector has one entry per design variable.
     */
    method InitDvar() returns (x0: seq<real>, xmin: seq<real>, xmax: seq<real>)
      ensures |x0| == |xmin| == |xmax| == NumVars()
      ensures x0 == [5.0, -5.0]
      ensures forall i :: 0 <= i < |x0| ==> xmin[i] == -10.0 && xmax[i] == 10.0
      ensures forall i :: 0 <= i < |x0| ==> xmin[i] <= x0[i] <= xmax[i]
    {
      x0 := [5.0, -5.0];
      xmin := [-10.0, -10.0];
      xmax := [10.0, 10.0];
    }

    /**
     * The objective at x; the objective gradient is written only when it is
     * asked for, otherwise the caller's vector comes back as it went in.
     * There are no constraints, so the constraint values and their gradients
     * are not outputs at all.
     */
    method Evaluate(xs: seq<real>, evalObjGrad: bool, objGradIn: seq<real>)
      returns (objOut: real, objGrad: seq<real>)
      requires |xs| >= NumVars()
      ensures objOut == Objective(a, b, xs[0], xs[1])
      ensures b >= 0.0 ==> objOut >= 0.0
      ensures evalObjGrad ==> objGrad == [GradX0(a, b, xs[0], xs[1]), GradX1(a, b, xs[0], xs[1])]
      ensures !evalObjGrad ==> objGrad == objGradIn
    {
      objOut := Objective(a, b, xs[0], xs[1]);
      if b >= 0.0 {
        ObjectiveNonNegative(a, b, xs[0], xs[1]);
      }
      objGrad := objGradIn;
      if evalObjGrad {
        objGrad := [GradX0(a, b, xs[0], xs[1]), GradX1(a, b, xs[0], xs[1])];
      }
    }

    /** Records the optimiser's reported objective and design vector and nothing else. */
    method Output(iter: nat, dvars: seq<real>, o: real, fvals: seq<real>)
      modifies this
      ensures obj == o && x == dvars
      ensures a == old(a) && b == old(b)
    {
      obj := o;
      x := dvars;
    }
  }

  /** The default fixture's minimiser is (1, 1), where objective and gradient vanish. */
  lemma DefaultFixtureMinimum()
    ensures Objective(1.0, 100.0, 1.0, 1.0) == 0.0
    ensures forall x0: real, x1: real :: Objective(1.0, 100.0, x0, x1) >= 0.0
    ensures GradX0(1.0, 100.0, 1.0, 1.0) == 0.0 && GradX1(1.0, 100.0, 1.0, 1.0) == 0.0
  {
    forall x0: real, x1: real ensures Objective(1.0, 100.0, x0, x1) >= 0.0 {
      ObjectiveNonNegative(1.0, 100.0, x0, x1);
    }
  }
}
