/**
 * The SIMP penalised density exercised by the penalised-density sensitivity
 * test: value = v^p and derivative = p v^(p-1) dv for a raw density field
 * that reports the value v and the derivative dv.  The test evaluates the
 * same law on three scalar types (real, complex step, forward-mode AD); here
 * those are `real`, an exact `Complex` and an exact dual number `Dual`.
 */
module PenalizedDensitySensitivity {

  /** x^p for a natural exponent. */
  function Pow(x: real, p: nat): real
  {
    if p == 0 then 1.0 else x * Pow(x, p - 1)
  }

  /** A forward-mode AD scalar: a value and one tangent direction. */
  datatype Dual = Dual(re: real, eps: real)

  /** Product rule on dual numbers. */
  function DualMul(x: Dual, y: Dual): Dual
  {
    Dual(x.re * y.re, x.re * y.eps + x.eps * y.re)
  }

  /** x^p on dual numbers, by repeated multiplication. */
  function DualPow(x: Dual, p: nat): Dual
  {
    if p == 0 then Dual(1.0, 0.0) else DualMul(x, DualPow(x, p - 1))
  }

  /** A complex scalar, as used by the complex-step check. */
  datatype Complex = Complex(re: real, im: real)

  function ComplexMul(x: Complex, y: Complex): Complex
  {
    Complex(x.re * y.re - x.im * y.im, x.re * y.im + x.im * y.re)
  }

  /** z^p on complex numbers, by repeated multiplication. */
  function ComplexPow(z: Complex, p: nat): Complex
  {
    if p == 0 then Complex(1.0, 0.0) else ComplexMul(z, ComplexPow(z, p - 1))
  }

  /** The (empty) evaluation context of the test. */
  datatype Context = Context

  /**
   * The test's raw density field: whatever the context and whatever field
   * the derivative is asked about, it reports v and dv.
   */
  datatype DensityField = DensityField(v: real, dv: real)
  {
    function Value(c: Context): real { v }
    function Derivative(c: Context, f: DensityField): real { dv }
  }

  /** The field as the test constructs it: v = 0.5, dv = 0.75. */
  function DefaultDensityField(): DensityField
  {
    DensityField(0.5, 0.75)
  }

  /** The penalty every instance in the test is given. */
  const TestPenalty: nat := 3

  /** The penalised density bound to a raw density field with a penalty exponent. */
  datatype PenalizedDensity = PenalizedDensity(field: DensityField, penalty: nat)
  {
    /** v^p. */
    function Value(c: Context): real
    {
      Pow(field.Value(c), penalty)
    }

    /** p v^(p-1) dv, the power rule chained through the field's derivative. */
    function Derivative(c: Context, f: DensityField): real
    {
      if penalty == 0 then 0.0
      else (penalty as real) * Pow(field.Value(c), penalty - 1) * field.Derivative(c, f)
    }
  }

  /** The power law evaluated on the tangent-carrying value v + dv eps (AD instance). */
  function AdValue(field: DensityField, p: nat, c: Context): Dual
  {
    DualPow(Dual(field.Value(c), field.dv), p)
  }

  /** The power law evaluated on v + i h (complex-step instance). */
  function ComplexStepValue(field: DensityField, p: nat, h: real, c: Context): Complex
  {
    ComplexPow(Complex(field.Value(c), h), p)
  }

  /** The complex-step estimate of the derivative: dv Im(value(v + i h)) / h. */
  function ComplexStepDerivative(field: DensityField, p: nat, h: real, c: Context): real
    requires h != 0.0
  {
    field.dv * ComplexStepValue(field, p, h, c).im / h
  }

  /** x^(p+1) = x * x^p unfolded one step the other way round: x^p * x. */
  lemma PowSucc(x: real, p: nat)
    ensures Pow(x, p + 1) == x * Pow(x, p)
  {
  }

  /** One step of the tangent recursion: x * ((p-1) x^(p-2) d) + d x^(p-1) = p x^(p-1) d. */
  lemma TangentStep(x: real, d: real, q: nat)
    requires q > 0
    ensures x * ((q as real) * Pow(x, q - 1) * d) + d * Pow(x, q) == ((q + 1) as real) * Pow(x, q) * d
  {
    var w := Pow(x, q - 1);
    assert Pow(x, q) == x * w;
    assert x * ((q as real) * w * d) == (q as real) * (x * w) * d;
  }

  /**
   * Forward-mode AD of the power law: the value part is v^p and the tangent
   * part is p v^(p-1) d, i.e. the analytic derivative.
   */
  lemma {:induction false} DualPowTangent(v: real, d: real, p: nat)
    ensures DualPow(Dual(v, d), p).re == Pow(v, p)
    ensures DualPow(Dual(v, d), p).eps == if p == 0 then 0.0 else (p as real) * Pow(v, p - 1) * d
  {
    if p > 0 {
      DualPowTangent(v, d, p - 1);
      var prev := DualPow(Dual(v, d), p - 1);
      assert DualPow(Dual(v, d), p) == DualMul(Dual(v, d), prev);
      if p == 1 {
        assert prev == Dual(1.0, 0.0);
      } else {
        TangentStep(v, d, p - 1);
      }
    }
  }

  /** The analytic derivative equals the tangent of the AD evaluation, for every field and penalty. */
  lemma AdMatchesAnalytic(field: DensityField, p: nat, c: Context)
    ensures AdValue(field, p, c).re == PenalizedDensity(field, p).Value(c)
    ensures AdValue(field, p, c).eps == PenalizedDensity(field, p).Derivative(c, field)
  {
    DualPowTangent(field.Value(c), field.dv, p);
  }

  /** The cube of v + i h has imaginary part 3 v^2 h - h^3. */
  lemma ComplexCube(v: real, h: real)
    ensures ComplexPow(Complex(v, h), 3).im == 3.0 * v * v * h - h * h * h
    ensures ComplexPow(Complex(v, h), 3).re == v * v * v - 3.0 * v * h * h
  {
    var z := Complex(v, h);
    assert ComplexPow(z, 1) == ComplexMul(z, Complex(1.0, 0.0)) == z;
    var z2 := ComplexMul(z, z);
    assert z2 == Complex(v * v - h * h, 2.0 * v * h);
    assert ComplexPow(z, 2) == z2;
    assert ComplexPow(z, 3) == ComplexMul(z, z2);
  }

  /**
   * For penalty 3 the complex-step estimate dv Im(value(v + i h)) / h misses
   * the analytic derivative by exactly dv h^2, so it converges as h -> 0.
   */
  lemma ComplexStepErrorForCube(field: DensityField, h: real, c: Context)
    requires h != 0.0
    ensures ComplexStepDerivative(field, 3, h, c)
            == PenalizedDensity(field, 3).Derivative(c, field) - field.dv * (h * h)
  {
    var v := field.Value(c);
    ComplexCube(v, h);
    assert Pow(v, 1) == v;
    assert Pow(v, 2) == v * v;
    assert (3.0 * v * v * h - h * h * h) / h == 3.0 * v * v - h * h;
  }

  /** The derivative is linear in the raw density derivative: the chain rule the test relies on. */
  lemma DerivativeLinearInRawDerivative(v: real, dv: real, k: real, p: nat, c: Context)
    ensures PenalizedDensity(DensityField(v, k * dv), p).Derivative(c, DensityField(v, k * dv))
            == k * PenalizedDensity(DensityField(v, dv), p).Derivative(c, DensityField(v, dv))
  {
  }

  /**
   * The default field reports 0.5 and, whatever field is asked about, 0.75;
   * with penalty 3 it has value 0.125 and derivative 3 * 0.25 * 0.75 = 0.5625.
   */
  lemma DefaultFieldValues()
    ensures DefaultDensityField().Value(Context) == 0.5
    ensures forall f :: DefaultDensityField().Derivative(Context, f) == 0.75
    ensures PenalizedDensity(DefaultDensityField(), TestPenalty).Value(Context) == 0.125
    ensures PenalizedDensity(DefaultDensityField(), TestPenalty).Derivative(Context, DefaultDensityField()) == 0.5625
  {
    assert Pow(0.5, 1) == 0.5;
    assert Pow(0.5, 2) == 0.25;
    assert Pow(0.5, 3) == 0.125;
  }

  /**
   * The test body: the real, complex-step and AD instances, all with penalty 3,
   * on the default field.  The AD derivative equals the analytic one and the
   * complex-step estimate is within dv h^2 of it.
   */
  method TestPenalizedDensitySensitivity(h: real) returns (rho: real, drho: real, drhoCs: real, drhoAd: real)
    requires h != 0.0
    ensures rho == 0.125 && drho == 0.5625
    ensures drhoAd == drho
    ensures drhoCs == drho - 0.75 * (h * h)
  {
    var c := Context;
    var field := DefaultDensityField();
    var density := PenalizedDensity(field, TestPenalty);
    rho := density.Value(c);
    drho := density.Derivative(c, field);
    assert rho == 0.125 && drho == 0.5625 by { DefaultFieldValues(); }

    // complex step: the field's value is perturbed by i h
    drhoCs := ComplexStepDerivative(field, TestPenalty, h, c);
    assert drhoCs == drho - 0.75 * (h * h) by { ComplexStepErrorForCube(field, h, c); }

    // forward-mode AD: the field's value carries dv as its tangent
    var rhoAd := AdValue(field, TestPenalty, c);
    drhoAd := rhoAd.eps;
    assert drhoAd == drho by { AdMatchesAnalytic(field, TestPenalty, c); }
  }
}
