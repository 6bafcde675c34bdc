/**
 * The 1-D bar of the constrained generalized Hermitian eigensolver test:
 * stiffness A and mass B assembled from 2x2 linear-element blocks on a
 * uniform grid of N nodes, the list of unconstrained DOFs, and the
 * first-order eigenvalue-sensitivity expression phi^T (Asens - lambda Bsens) phi / phi^T B phi.
 */
module BarEigenSetup {

  /** Number of nodes of the bar grid. */
  const N: nat := 100

  /** Element length of the uniform grid of N nodes on a bar of length L. */
  function Spacing(L: real): real
  {
    L / (N - 1) as real
  }

  /** A 2x2 element block. */
  datatype Block2 = Block2(a00: real, a01: real, a10: real, a11: real)

  function Entry(b: Block2, j: nat, k: nat): real
    requires j < 2 && k < 2
  {
    if j == 0 then (if k == 0 then b.a00 else b.a01) else (if k == 0 then b.a10 else b.a11)
  }

  function Scale(b: Block2, s: real): Block2
  {
    Block2(s * b.a00, s * b.a01, s * b.a10, s * b.a11)
  }

  /** The unit linear-element stiffness block [[1, -1], [-1, 1]]. */
  const Ke: Block2 := Block2(1.0, -1.0, -1.0, 1.0)

  /** The unit consistent mass block [[2/3, 1/3], [1/3, 2/3]]. */
  const Me: Block2 := Block2(2.0 / 3.0, 1.0 / 3.0, 1.0 / 3.0, 2.0 / 3.0)

  /** Element e's block, placed at rows and columns {e, e+1}. */
  function ElemContribution(b: Block2, e: nat, r: nat, c: nat): real
  {
    if e <= r <= e + 1 && e <= c <= e + 1 then Entry(b, r - e, c - e) else 0.0
  }

  /** Element e's block after only its first `cnt` entries (row-major) have been added. */
  function PartialContribution(b: Block2, e: nat, r: nat, c: nat, cnt: nat): real
  {
    if e <= r <= e + 1 && e <= c <= e + 1 && 2 * (r - e) + (c - e) < cnt then Entry(b, r - e, c - e) else 0.0
  }

  /** Entry (r, c) of the sum of the blocks of elements 0 .. m-1. */
  function Assembled(b: Block2, m: nat, r: nat, c: nat): real
  {
    if m == 0 then 0.0 else Assembled(b, m - 1, r, c) + ElemContribution(b, m - 1, r, c)
  }

  /**
   * The same sum written entry by entry: a00 + a11 on interior diagonal
   * entries, a00 and a11 at the two ends, a01 above and a10 below the
   * diagonal, zero everywhere else.
   */
  function Tridiagonal(b: Block2, m: nat, r: nat, c: nat): real
  {
    if r == c then (if r < m then b.a00 else 0.0) + (if 1 <= r <= m then b.a11 else 0.0)
    else if c == r + 1 then (if r < m then b.a01 else 0.0)
    else if r == c + 1 then (if c < m then b.a10 else 0.0)
    else 0.0
  }

  lemma {:induction false} AssembledIsTridiagonal(b: Block2, m: nat, r: nat, c: nat)
    ensures Assembled(b, m, r, c) == Tridiagonal(b, m, r, c)
  {
    if m > 0 {
      AssembledIsTridiagonal(b, m - 1, r, c);
    }
  }

  /** A symmetric block assembles into a symmetric matrix. */
  lemma AssembledSymmetric(b: Block2, m: nat, r: nat, c: nat)
    requires b.a01 == b.a10
    ensures Assembled(b, m, r, c) == Assembled(b, m, c, r)
  {
    AssembledIsTridiagonal(b, m, r, c);
    AssembledIsTridiagonal(b, m, c, r);
  }

  /** Entries more than one off the diagonal stay zero. */
  lemma AssembledBanded(b: Block2, m: nat, r: nat, c: nat)
    requires r > c + 1 || c > r + 1
    ensures Assembled(b, m, r, c) == 0.0
  {
    AssembledIsTridiagonal(b, m, r, c);
  }

  /** Assembly is linear in the block: scaling every element block scales the matrix. */
  lemma {:induction false} AssembledLinear(b: Block2, s: real, m: nat, r: nat, c: nat)
    ensures Assembled(Scale(b, s), m, r, c) == s * Assembled(b, m, r, c)
  {
    AssembledIsTridiagonal(Scale(b, s), m, r, c);
    AssembledIsTridiagonal(b, m, r, c);
    if r == c {
      DistributeSum(s, if r < m then b.a00 else 0.0, if 1 <= r <= m then b.a11 else 0.0);
    }
  }

  lemma DistributeSum(s: real, x: real, y: real)
    ensures s * x + s * y == s * (x + y)
  {
  }

  /** f(0) + ... + f(n-1). */
  function SumTo(n: nat, f: nat -> real): real
  {
    if n == 0 then 0.0 else SumTo(n - 1, f) + f(n - 1)
  }

  /** The part of f(0) + ... + f(k-1) that lies on the band {r-1, r, r+1}. */
  function BandSum(k: nat, f: nat -> real, r: nat): real
  {
    (if 0 < r && r - 1 < k then f(r - 1) else 0.0)
    + (if r < k then f(r) else 0.0)
    + (if r + 1 < k then f(r + 1) else 0.0)
  }

  lemma {:induction false} SumToBand(k: nat, f: nat -> real, r: nat)
    requires forall c: nat :: c + 1 < r || c > r + 1 ==> f(c) == 0.0
    ensures SumTo(k, f) == BandSum(k, f, r)
  {
    if k > 0 {
      SumToBand(k - 1, f, r);
    }
  }

  /** Every row of the assembled matrix sums to zero when every row of the block does. */
  lemma AssembledRowSumZero(b: Block2, n: nat, r: nat)
    requires 0 < n && r < n
    requires b.a00 + b.a01 == 0.0 && b.a10 + b.a11 == 0.0
    ensures SumTo(n, (c: nat) => Assembled(b, n - 1, r, c)) == 0.0
  {
    var f := (c: nat) => Assembled(b, n - 1, r, c);
    forall c: nat ensures f(c) == Tridiagonal(b, n - 1, r, c) {
      AssembledIsTridiagonal(b, n - 1, r, c);
    }
    SumToBand(n, f, r);
  }

  /** The stiffness matrix of the bar has zero row sums: rigid translation costs no strain energy. */
  lemma StiffnessRowSumZero(EA: real, L: real, r: nat)
    requires L != 0.0 && r < N
    ensures SumTo(N, (c: nat) => Assembled(Scale(Ke, EA / Spacing(L)), N - 1, r, c)) == 0.0
  {
    AssembledRowSumZero(Scale(Ke, EA / Spacing(L)), N, r);
  }

  /**
   * A is linear in EA and B in rhoA: the matrices built with EA = 1 and
   * rhoA = 0 are A / EA and zero.
   */
  lemma SensitivityMatrices(L: real, EA: real, rhoA: real, r: nat, c: nat)
    requires L != 0.0
    ensures Assembled(Scale(Ke, EA / Spacing(L)), N - 1, r, c)
            == EA * Assembled(Scale(Ke, 1.0 / Spacing(L)), N - 1, r, c)
    ensures Assembled(Scale(Me, 0.0 * Spacing(L) / 2.0), N - 1, r, c) == 0.0
  {
    var h := Spacing(L);
    assert h != 0.0;
    AssembledLinear(Ke, EA / h, N - 1, r, c);
    AssembledLinear(Ke, 1.0 / h, N - 1, r, c);
    assert EA / h == EA * (1.0 / h);
    AssembledLinear(Me, 0.0 * h / 2.0, N - 1, r, c);
  }

  /** The list the solver is told holds the unconstrained DOFs. */
  class DofList {
    var items: seq<nat>

    constructor ()
      ensures items == []
    {
      items := [];
    }
  }

  /** Adding entry (j, k) of the block advances the row-major partial contribution by one entry. */
  lemma PartialStep(b: Block2, e: nat, r: nat, c: nat, j: nat, k: nat)
    requires j < 2 && k < 2
    ensures PartialContribution(b, e, r, c, 2 * j + k + 1)
            == PartialContribution(b, e, r, c, 2 * j + k) + (if r == e + j && c == e + k then Entry(b, j, k) else 0.0)
  {
  }

  /** Adds element i's scaled stiffness and mass blocks into A and B at rows and columns {i, i+1}. */
  method AddElement(A: array2<real>, B: array2<real>, ke: Block2, me: Block2, i: nat)
    requires A != B
    requires A.Length0 == A.Length1 == B.Length0 == B.Length1 && i + 1 < A.Length0
    modifies A, B
    ensures forall r, c :: 0 <= r < A.Length0 && 0 <= c < A.Length1 ==>
              A[r, c] == old(A[r, c]) + ElemContribution(ke, i, r, c) &&
              B[r, c] == old(B[r, c]) + ElemContribution(me, i, r, c)
  {
    for j := 0 to 2
      invariant forall r, c :: 0 <= r < A.Length0 && 0 <= c < A.Length1 ==>
                  A[r, c] == old(A[r, c]) + PartialContribution(ke, i, r, c, 2 * j) &&
                  B[r, c] == old(B[r, c]) + PartialContribution(me, i, r, c, 2 * j)
    {
      for k := 0 to 2
        invariant forall r, c :: 0 <= r < A.Length0 && 0 <= c < A.Length1 ==>
                    A[r, c] == old(A[r, c]) + PartialContribution(ke, i, r, c, 2 * j + k) &&
                    B[r, c] == old(B[r, c]) + PartialContribution(me, i, r, c, 2 * j + k)
      {
        ghost var cnt := 2 * j + k;
        forall r: nat, c: nat
          ensures PartialContribution(ke, i, r, c, cnt + 1)
                  == PartialContribution(ke, i, r, c, cnt) + (if r == i + j && c == i + k then Entry(ke, j, k) else 0.0)
          ensures PartialContribution(me, i, r, c, cnt + 1)
                  == PartialContribution(me, i, r, c, cnt) + (if r == i + j && c == i + k then Entry(me, j, k) else 0.0)
        {
          PartialStep(ke, i, r, c, j, k);
          PartialStep(me, i, r, c, j, k);
        }
        A[i + j, i + k] := A[i + j, i + k] + Entry(ke, j, k);
        B[i + j, i + k] := B[i + j, i + k] + Entry(me, j, k);
      }
    }
  }

  /**
   * Builds the bar's stiffness and mass matrices for length L, axial
   * stiffness EA and mass per length rhoA, and, when a list is given, fills
   * it with the unconstrained DOFs 1 .. N-2.
   */
  method SetupMatrices(L: real, EA: real, rhoA: real, dofs: DofList?) returns (A: array2<real>, B: array2<real>)
    requires L != 0.0
    modifies dofs
    ensures fresh(A) && fresh(B)
    ensures A.Length0 == N && A.Length1 == N && B.Length0 == N && B.Length1 == N
    ensures forall r, c :: 0 <= r < N && 0 <= c < N ==>
              A[r, c] == Assembled(Scale(Ke, EA / Spacing(L)), N - 1, r, c) &&
              B[r, c] == Assembled(Scale(Me, rhoA * Spacing(L) / 2.0), N - 1, r, c)
    ensures dofs != null ==> dofs.items == seq(N - 2, k => k + 1)
    ensures dofs != null ==> forall d :: d in dofs.items <==> 0 < d < N - 1
  {
    var h := Spacing(L);
    ghost var interior := seq(N - 2, k => k + 1);

    if dofs != null {
      dofs.items := [];
      for i := 1 to N - 1
        invariant dofs.items == seq(i - 1, k => k + 1)
      {
        dofs.items := dofs.items + [i];
      }
      forall d | 0 < d < N - 1 ensures d in dofs.items {
        assert dofs.items[d - 1] == d;
      }
    }

    A := new real[N, N]((r, c) => 0.0);
    B := new real[N, N]((r, c) => 0.0);

    var ke := Scale(Ke, EA / h);
    var me := Scale(Me, rhoA * h / 2.0);

    for i := 0 to N - 1
      invariant forall r, c :: 0 <= r < N && 0 <= c < N ==>
                  A[r, c] == Assembled(ke, i, r, c) && B[r, c] == Assembled(me, i, r, c)
      invariant dofs != null ==> dofs.items == interior
    {
      AddElement(A, B, ke, me, i);
    }
    assert me == Scale(Me, rhoA * Spacing(L) / 2.0);
  }

  /** The test's two calls: (EA, rhoA) with the DOF list, then (1, 0) for the sensitivity matrices. */
  method SetupForSensitivity(L: real, EA: real, rhoA: real)
    returns (A: array2<real>, B: array2<real>, Asens: array2<real>, Bsens: array2<real>, dofs: DofList)
    requires L != 0.0
    ensures fresh(A) && fresh(B) && fresh(Asens) && fresh(Bsens) && fresh(dofs)
    ensures A.Length0 == A.Length1 == Asens.Length0 == Asens.Length1 == Bsens.Length0 == Bsens.Length1 == N
    ensures forall r, c :: 0 <= r < N && 0 <= c < N ==> A[r, c] == EA * Asens[r, c] && Bsens[r, c] == 0.0
    ensures dofs.items == seq(N - 2, k => k + 1)
  {
    dofs := new DofList();
    A, B := SetupMatrices(L, EA, rhoA, dofs);
    Asens, Bsens := SetupMatrices(L, 1.0, 0.0, null);
    forall r, c | 0 <= r < N && 0 <= c < N
      ensures A[r, c] == EA * Asens[r, c] && Bsens[r, c] == 0.0
    {
      SensitivityMatrices(L, EA, rhoA, r, c);
    }
  }

  /* ----- the first-order eigenvalue sensitivity ----- */

  /** u[0] v[0] + ... + u[k-1] v[k-1]. */
  function DotTo(u: seq<real>, v: seq<real>, k: nat): real
    requires k <= |u| && k <= |v|
  {
    if k == 0 then 0.0 else DotTo(u, v, k - 1) + u[k - 1] * v[k - 1]
  }

  function Dot(u: seq<real>, v: seq<real>): real
    requires |u| == |v|
  {
    DotTo(u, v, |u|)
  }

  predicate IsMatrix(M: seq<seq<real>>, n: nat)
  {
    |M| == n && forall r :: 0 <= r < n ==> |M[r]| == n
  }

  function MatVec(M: seq<seq<real>>, v: seq<real>): (w: seq<real>)
    requires IsMatrix(M, |v|)
    ensures |w| == |v|
  {
    seq(|v|, r requires 0 <= r < |v| => Dot(M[r], v))
  }

  function ScaleVec(s: real, v: seq<real>): (w: seq<real>)
    ensures |w| == |v|
  {
    seq(|v|, i requires 0 <= i < |v| => s * v[i])
  }

  function Sub(u: seq<real>, v: seq<real>): (w: seq<real>)
    requires |u| == |v|
    ensures |w| == |u|
  {
    seq(|u|, i requires 0 <= i < |u| => u[i] - v[i])
  }

  /** phi^T B phi, the denominator of the sensitivity. */
  function Rayleigh(M: seq<seq<real>>, phi: seq<real>): real
    requires IsMatrix(M, |phi|)
  {
    Dot(phi, MatVec(M, phi))
  }

  /** phi^T (Asens phi - lambda Bsens phi) / phi^T B phi. */
  function EigenvalueSensitivity(phi: seq<real>, lambda: real, Asens: seq<seq<real>>, Bsens: seq<seq<real>>,
                                 B: seq<seq<real>>): real
    requires IsMatrix(Asens, |phi|) && IsMatrix(Bsens, |phi|) && IsMatrix(B, |phi|)
    requires Rayleigh(B, phi) != 0.0
  {
    Dot(phi, Sub(MatVec(Asens, phi), ScaleVec(lambda, MatVec(Bsens, phi)))) / Rayleigh(B, phi)
  }

  lemma {:induction false} DotToSub(u: seq<real>, v: seq<real>, w: seq<real>, k: nat)
    requires |u| == |v| == |w| && k <= |u|
    ensures DotTo(u, Sub(v, w), k) == DotTo(u, v, k) - DotTo(u, w, k)
  {
    if k > 0 {
      DotToSub(u, v, w, k - 1);
      assert u[k - 1] * (v[k - 1] - w[k - 1]) == u[k - 1] * v[k - 1] - u[k - 1] * w[k - 1];
    }
  }

  lemma {:induction false} DotToScaleRight(u: seq<real>, s: real, v: seq<real>, k: nat)
    requires |u| == |v| && k <= |u|
    ensures DotTo(u, ScaleVec(s, v), k) == s * DotTo(u, v, k)
  {
    if k > 0 {
      DotToScaleRight(u, s, v, k - 1);
      assert u[k - 1] * (s * v[k - 1]) == s * (u[k - 1] * v[k - 1]);
    }
  }

  lemma {:induction false} DotToScaleLeft(s: real, u: seq<real>, v: seq<real>, k: nat)
    requires |u| == |v| && k <= |u|
    ensures DotTo(ScaleVec(s, u), v, k) == s * DotTo(u, v, k)
  {
    if k > 0 {
      DotToScaleLeft(s, u, v, k - 1);
      assert (s * u[k - 1]) * v[k - 1] == s * (u[k - 1] * v[k - 1]);
    }
  }

  lemma DotScale(s: real, u: seq<real>, t: real, v: seq<real>)
    requires |u| == |v|
    ensures Dot(ScaleVec(s, u), ScaleVec(t, v)) == s * (t * Dot(u, v))
  {
    DotToScaleLeft(s, u, ScaleVec(t, v), |u|);
    DotToScaleRight(u, t, v, |u|);
  }

  lemma MatVecScale(M: seq<seq<real>>, s: real, v: seq<real>)
    requires IsMatrix(M, |v|)
    ensures MatVec(M, ScaleVec(s, v)) == ScaleVec(s, MatVec(M, v))
  {
    forall r | 0 <= r < |v| ensures MatVec(M, ScaleVec(s, v))[r] == ScaleVec(s, MatVec(M, v))[r] {
      DotToScaleRight(M[r], s, v, |v|);
    }
  }

  /** A matrix that is EA times another gives EA times its matrix-vector products. */
  lemma MatVecOfMultiple(A: seq<seq<real>>, EA: real, Asens: seq<seq<real>>, v: seq<real>)
    requires IsMatrix(A, |v|) && IsMatrix(Asens, |v|)
    requires forall r, c :: 0 <= r < |v| && 0 <= c < |v| ==> A[r][c] == EA * Asens[r][c]
    ensures MatVec(A, v) == ScaleVec(EA, MatVec(Asens, v))
  {
    forall r | 0 <= r < |v| ensures MatVec(A, v)[r] == ScaleVec(EA, MatVec(Asens, v))[r] {
      forall c | 0 <= c < |v| ensures A[r][c] == ScaleVec(EA, Asens[r])[c] {
      }
      assert A[r] == ScaleVec(EA, Asens[r]);
      DotToScaleLeft(EA, Asens[r], v, |v|);
    }
  }

  lemma {:induction false} DotToZero(u: seq<real>, z: seq<real>, k: nat)
    requires |u| == |z| && k <= |u|
    requires forall i :: 0 <= i < |z| ==> z[i] == 0.0
    ensures DotTo(u, z, k) == 0.0
  {
    if k > 0 {
      DotToZero(u, z, k - 1);
    }
  }

  /** With Bsens = 0 the expression reduces to phi^T Asens phi / phi^T B phi. */
  lemma SensitivityWithoutMassTerm(phi: seq<real>, lambda: real, Asens: seq<seq<real>>, Bsens: seq<seq<real>>,
                                   B: seq<seq<real>>)
    requires IsMatrix(Asens, |phi|) && IsMatrix(Bsens, |phi|) && IsMatrix(B, |phi|)
    requires Rayleigh(B, phi) != 0.0
    requires forall r, c :: 0 <= r < |phi| && 0 <= c < |phi| ==> Bsens[r][c] == 0.0
    ensures EigenvalueSensitivity(phi, lambda, Asens, Bsens, B) == Rayleigh(Asens, phi) / Rayleigh(B, phi)
  {
    var bphi := MatVec(Bsens, phi);
    forall r | 0 <= r < |phi| ensures bphi[r] == 0.0 {
      DotToZero(phi, Bsens[r], |phi|);
      assert Dot(Bsens[r], phi) == DotTo(Bsens[r], phi, |phi|);
      DotToCommute(Bsens[r], phi, |phi|);
    }
    var lb := ScaleVec(lambda, bphi);
    assert forall i :: 0 <= i < |phi| ==> lb[i] == 0.0;
    DotToSub(phi, MatVec(Asens, phi), lb, |phi|);
    DotToZero(phi, lb, |phi|);
  }

  lemma {:induction false} DotToCommute(u: seq<real>, v: seq<real>, k: nat)
    requires |u| == |v| && k <= |u|
    ensures DotTo(u, v, k) == DotTo(v, u, k)
  {
    if k > 0 {
      DotToCommute(u, v, k - 1);
    }
  }

  /** The expression does not depend on how the eigenvector is normalised. */
  lemma SensitivityScaleInvariant(phi: seq<real>, s: real, lambda: real, Asens: seq<seq<real>>,
                                  Bsens: seq<seq<real>>, B: seq<seq<real>>)
    requires IsMatrix(Asens, |phi|) && IsMatrix(Bsens, |phi|) && IsMatrix(B, |phi|)
    requires Rayleigh(B, phi) != 0.0 && s != 0.0
    ensures IsMatrix(B, |ScaleVec(s, phi)|) && Rayleigh(B, ScaleVec(s, phi)) == s * (s * Rayleigh(B, phi))
    ensures Rayleigh(B, ScaleVec(s, phi)) != 0.0
    ensures EigenvalueSensitivity(ScaleVec(s, phi), lambda, Asens, Bsens, B)
            == EigenvalueSensitivity(phi, lambda, Asens, Bsens, B)
  {
    var sp := ScaleVec(s, phi);
    var d := Rayleigh(B, phi);
    ScaledQuadraticForm(B, s, phi);
    NonZeroProduct(s, d);
    NonZeroProduct(s, s * d);
    var ds := Rayleigh(B, sp);
    assert ds == s * (s * d);

    var num := Sub(MatVec(Asens, phi), ScaleVec(lambda, MatVec(Bsens, phi)));
    ScaledNumerator(phi, s, lambda, Asens, Bsens);
    var n := Dot(phi, num);
    var ns := Dot(sp, Sub(MatVec(Asens, sp), ScaleVec(lambda, MatVec(Bsens, sp))));
    assert ns == s * (s * n);
    assert EigenvalueSensitivity(sp, lambda, Asens, Bsens, B) == ns / ds;
    QuotientOfSquares(s, n, d);
  }

  /** (s^2 n) / (s^2 d) = n / d. */
  lemma QuotientOfSquares(s: real, n: real, d: real)
    requires s != 0.0 && d != 0.0
    ensures (s * (s * n)) / (s * (s * d)) == n / d
  {
    NonZeroProduct(s, d);
    QuotientCancel(s, s * n, s * d);
    QuotientCancel(s, n, d);
  }

  lemma NonZeroProduct(s: real, d: real)
    requires s != 0.0 && d != 0.0
    ensures s * d != 0.0
  {
  }

  /** (s phi)^T M (s phi) = s^2 phi^T M phi. */
  lemma ScaledQuadraticForm(M: seq<seq<real>>, s: real, phi: seq<real>)
    requires IsMatrix(M, |phi|)
    ensures Rayleigh(M, ScaleVec(s, phi)) == s * (s * Rayleigh(M, phi))
  {
    MatVecScale(M, s, phi);
    DotScale(s, phi, s, MatVec(M, phi));
  }

  /** The numerator's vector A phi - lambda B phi is linear in phi. */
  lemma ScaledNumeratorVector(phi: seq<real>, s: real, lambda: real, Asens: seq<seq<real>>, Bsens: seq<seq<real>>)
    requires IsMatrix(Asens, |phi|) && IsMatrix(Bsens, |phi|)
    ensures Sub(MatVec(Asens, ScaleVec(s, phi)), ScaleVec(lambda, MatVec(Bsens, ScaleVec(s, phi))))
            == ScaleVec(s, Sub(MatVec(Asens, phi), ScaleVec(lambda, MatVec(Bsens, phi))))
  {
    var ap := MatVec(Asens, phi);
    var bp := MatVec(Bsens, phi);
    var num := Sub(ap, ScaleVec(lambda, bp));
    MatVecScale(Asens, s, phi);
    MatVecScale(Bsens, s, phi);
    var snum := Sub(ScaleVec(s, ap), ScaleVec(lambda, ScaleVec(s, bp)));
    assert |ap| == |phi| && |bp| == |phi| && |num| == |phi|;
    forall i | 0 <= i < |phi| ensures snum[i] == ScaleVec(s, num)[i] {
      ScaledNumeratorEntry(ap, bp, s, lambda, i);
    }
    assert snum == ScaleVec(s, num);
  }

  lemma ScaledNumeratorEntry(ap: seq<real>, bp: seq<real>, s: real, lambda: real, i: nat)
    requires |ap| == |bp| && i < |ap|
    ensures Sub(ScaleVec(s, ap), ScaleVec(lambda, ScaleVec(s, bp)))[i] == ScaleVec(s, Sub(ap, ScaleVec(lambda, bp)))[i]
  {
    assert Sub(ap, ScaleVec(lambda, bp))[i] == ap[i] - lambda * bp[i];
    assert Sub(ScaleVec(s, ap), ScaleVec(lambda, ScaleVec(s, bp)))[i] == s * ap[i] - lambda * (s * bp[i]);
    Distribute(s, ap[i], lambda, bp[i]);
  }

  /** The numerator is also quadratic in phi. */
  lemma ScaledNumerator(phi: seq<real>, s: real, lambda: real, Asens: seq<seq<real>>, Bsens: seq<seq<real>>)
    requires IsMatrix(Asens, |phi|) && IsMatrix(Bsens, |phi|)
    ensures Dot(ScaleVec(s, phi), Sub(MatVec(Asens, ScaleVec(s, phi)), ScaleVec(lambda, MatVec(Bsens, ScaleVec(s, phi)))))
            == s * (s * Dot(phi, Sub(MatVec(Asens, phi), ScaleVec(lambda, MatVec(Bsens, phi)))))
  {
    ScaledNumeratorVector(phi, s, lambda, Asens, Bsens);
    DotScale(s, phi, s, Sub(MatVec(Asens, phi), ScaleVec(lambda, MatVec(Bsens, phi))));
  }

  lemma Distribute(s: real, a: real, lambda: real, b: real)
    ensures s * a - lambda * (s * b) == s * (a - lambda * b)
  {
  }

  lemma QuotientCancel(t: real, n: real, d: real)
    requires t != 0.0 && d != 0.0
    ensures (t * n) / (t * d) == n / d
  {
    NonZeroProduct(t, d);
  }

  /**
   * For an exact eigenpair of the constrained problem (phi vanishes at the
   * two clamped ends and A phi = lambda B phi on the unconstrained rows),
   * with A = EA Asens and Bsens = 0, the sensitivity d lambda / d EA is lambda / EA.
   */
  lemma SensitivityOfExactEigenpair(phi: seq<real>, lambda: real, EA: real, A: seq<seq<real>>,
                                    Asens: seq<seq<real>>, Bsens: seq<seq<real>>, B: seq<seq<real>>)
    requires |phi| >= 2 && EA != 0.0
    requires IsMatrix(A, |phi|) && IsMatrix(Asens, |phi|) && IsMatrix(Bsens, |phi|) && IsMatrix(B, |phi|)
    requires Rayleigh(B, phi) != 0.0
    requires forall r, c :: 0 <= r < |phi| && 0 <= c < |phi| ==> A[r][c] == EA * Asens[r][c] && Bsens[r][c] == 0.0
    requires phi[0] == 0.0 && phi[|phi| - 1] == 0.0
    requires forall r :: 0 < r < |phi| - 1 ==> MatVec(A, phi)[r] == lambda * MatVec(B, phi)[r]
    ensures EigenvalueSensitivity(phi, lambda, Asens, Bsens, B) == lambda / EA
  {
    SensitivityWithoutMassTerm(phi, lambda, Asens, Bsens, B);
    MatVecOfMultiple(A, EA, Asens, phi);
    DotToScaleRight(phi, EA, MatVec(Asens, phi), |phi|);
    var d := Rayleigh(B, phi);
    var na := Rayleigh(Asens, phi);
    assert Rayleigh(A, phi) == EA * na;
    ReducedRayleigh(phi, lambda, MatVec(A, phi), MatVec(B, phi), |phi|);
    assert EA * na == lambda * d;
    DivideOut(EA, na, lambda, d);
  }

  lemma DivideOut(ea: real, na: real, lambda: real, d: real)
    requires ea != 0.0 && d != 0.0 && ea * na == lambda * d
    ensures na / d == lambda / ea
  {
    assert na == lambda * d / ea;
  }

  /** Where phi vanishes its row does not count, elsewhere u = lambda v: so phi . u = lambda phi . v. */
  lemma {:induction false} ReducedRayleigh(phi: seq<real>, lambda: real, u: seq<real>, v: seq<real>, k: nat)
    requires |phi| == |u| == |v| && k <= |phi|
    requires forall r :: 0 <= r < |phi| ==> phi[r] == 0.0 || u[r] == lambda * v[r]
    ensures DotTo(phi, u, k) == lambda * DotTo(phi, v, k)
  {
    if k > 0 {
      ReducedRayleigh(phi, lambda, u, v, k - 1);
      var i := k - 1;
      if phi[i] == 0.0 {
        assert phi[i] * u[i] == 0.0 && phi[i] * v[i] == 0.0;
      } else {
        assert phi[i] * u[i] == lambda * (phi[i] * v[i]);
      }
    }
  }
}
