/**
 * Assembly of the sensitivity of the residual (and of its Jacobian) with
 * respect to a scalar field: zero the requested global outputs, visit every
 * active local element, evaluate the element operator on the element's
 * local solution, scatter-add the local contributions, and finalise.
 * The DOF map is a per-element index sequence, the element operator an
 * abstract function of the element, the field and the local solution, and
 * the constrain-and-add routines plain additive scatters.
 */
module ResidualSensitivityAssembly {
  import opened Common

  /** An element and the global indices of its degrees of freedom. */
  datatype Elem = Elem(id: nat, dofs: seq<nat>)

  /**
   * The element operator: entry i of the local residual sensitivity and
   * entry (i, j) of the local Jacobian sensitivity, given the element, the
   * field the sensitivity is taken with respect to and the local solution.
   */
  datatype ElemOps = ElemOps(
    residual: (Elem, nat, seq<real>, nat) -> real,
    jacobian: (Elem, nat, seq<real>, nat, nat) -> real)

  /** The three constrain-and-add routines the element loop chooses between. */
  datatype ScatterMode = MatrixAndVector | VectorOnly | MatrixOnly

  /** One visit of the element loop: the context's element and the scatter that ran. */
  datatype Visit = Visit(elem: Elem, mode: ScatterMode)

  /** The scatter chosen for the requested outputs; with neither requested assembly has already failed. */
  function ModeFor(hasR: bool, hasJ: bool): (m: ScatterMode)
    ensures m == MatrixAndVector <==> hasR && hasJ
    ensures m == VectorOnly <==> hasR && !hasJ
    ensures m == MatrixOnly <==> !hasR
  {
    if hasR && hasJ then MatrixAndVector else if hasR then VectorOnly else MatrixOnly
  }

  function Zeros(n: nat): (z: seq<real>)
    ensures |z| == n && forall i :: 0 <= i < n ==> z[i] == 0.0
  {
    seq(n, _ => 0.0)
  }

  function ZeroMatrix(n: nat): (z: seq<seq<real>>)
    ensures IsSquare(z, n) && forall r, c :: 0 <= r < n && 0 <= c < n ==> z[r][c] == 0.0
  {
    seq(n, _ => Zeros(n))
  }

  predicate IsSquare(m: seq<seq<real>>, n: nat)
  {
    |m| == n && forall r :: 0 <= r < n ==> |m[r]| == n
  }

  predicate DofsBelow(dofs: seq<nat>, n: nat)
  {
    forall i :: 0 <= i < |dofs| ==> dofs[i] < n
  }

  predicate ElemsDofsBelow(elems: seq<Elem>, n: nat)
  {
    forall e :: e in elems ==> DofsBelow(e.dofs, n)
  }

  /* ----- additive scatter and its entrywise reference ----- */

  /** G after adding loc[i] into G[dofs[i]] for the first `count` local entries, in order. */
  function ScatterVecPrefix(g: seq<real>, dofs: seq<nat>, loc: seq<real>, count: nat): (r: seq<real>)
    requires |loc| == |dofs| && count <= |dofs| && DofsBelow(dofs, |g|)
    ensures |r| == |g|
  {
    if count == 0 then g
    else
      var prev := ScatterVecPrefix(g, dofs, loc, count - 1);
      prev[dofs[count - 1] := prev[dofs[count - 1]] + loc[count - 1]]
  }

  function ScatterVec(g: seq<real>, dofs: seq<nat>, loc: seq<real>): (r: seq<real>)
    requires |loc| == |dofs| && DofsBelow(dofs, |g|)
    ensures |r| == |g|
  {
    ScatterVecPrefix(g, dofs, loc, |dofs|)
  }

  /** The sum of the first `count` local entries whose global index is k. */
  function LocalSum(dofs: seq<nat>, loc: seq<real>, k: nat, count: nat): real
    requires |loc| == |dofs| && count <= |dofs|
  {
    if count == 0 then 0.0
    else LocalSum(dofs, loc, k, count - 1) + (if dofs[count - 1] == k then loc[count - 1] else 0.0)
  }

  /** Each global entry ends up as its old value plus every local entry mapped to it. */
  lemma {:induction false} ScatterVecPrefixAt(g: seq<real>, dofs: seq<nat>, loc: seq<real>, count: nat, k: nat)
    requires |loc| == |dofs| && count <= |dofs| && DofsBelow(dofs, |g|) && k < |g|
    ensures ScatterVecPrefix(g, dofs, loc, count)[k] == g[k] + LocalSum(dofs, loc, k, count)
  {
    if count > 0 {
      ScatterVecPrefixAt(g, dofs, loc, count - 1, k);
    }
  }

  lemma ScatterVecAt(g: seq<real>, dofs: seq<nat>, loc: seq<real>, k: nat)
    requires |loc| == |dofs| && DofsBelow(dofs, |g|) && k < |g|
    ensures ScatterVec(g, dofs, loc)[k] == g[k] + LocalSum(dofs, loc, k, |dofs|)
  {
    ScatterVecPrefixAt(g, dofs, loc, |dofs|, k);
  }

  predicate IsLocalMatrix(loc: seq<seq<real>>, n: nat)
  {
    |loc| == n && forall i :: 0 <= i < n ==> |loc[i]| == n
  }

  /** G after adding loc[i][j] into G[dofs[i]][dofs[j]] for the first `rows` local rows. */
  function ScatterMatPrefix(g: seq<seq<real>>, dofs: seq<nat>, loc: seq<seq<real>>, rows: nat): (r: seq<seq<real>>)
    requires IsSquare(g, |g|) && IsLocalMatrix(loc, |dofs|) && rows <= |dofs| && DofsBelow(dofs, |g|)
    ensures IsSquare(r, |g|)
  {
    if rows == 0 then g
    else
      var prev := ScatterMatPrefix(g, dofs, loc, rows - 1);
      var d := dofs[rows - 1];
      prev[d := ScatterVec(prev[d], dofs, loc[rows - 1])]
  }

  function ScatterMat(g: seq<seq<real>>, dofs: seq<nat>, loc: seq<seq<real>>): (r: seq<seq<real>>)
    requires IsSquare(g, |g|) && IsLocalMatrix(loc, |dofs|) && DofsBelow(dofs, |g|)
    ensures IsSquare(r, |g|)
  {
    ScatterMatPrefix(g, dofs, loc, |dofs|)
  }

  /** The sum of loc[i][j] over the first `rows` local rows with dofs[i] == r and all columns with dofs[j] == c. */
  function LocalSum2(dofs: seq<nat>, loc: seq<seq<real>>, r: nat, c: nat, rows: nat): real
    requires IsLocalMatrix(loc, |dofs|) && rows <= |dofs|
  {
    if rows == 0 then 0.0
    else LocalSum2(dofs, loc, r, c, rows - 1)
         + (if dofs[rows - 1] == r then LocalSum(dofs, loc[rows - 1], c, |dofs|) else 0.0)
  }

  lemma {:induction false} ScatterMatPrefixAt(g: seq<seq<real>>, dofs: seq<nat>, loc: seq<seq<real>>, rows: nat, r: nat, c: nat)
    requires IsSquare(g, |g|) && IsLocalMatrix(loc, |dofs|) && rows <= |dofs| && DofsBelow(dofs, |g|)
    requires r < |g| && c < |g|
    ensures ScatterMatPrefix(g, dofs, loc, rows)[r][c] == g[r][c] + LocalSum2(dofs, loc, r, c, rows)
  {
    if rows > 0 {
      ScatterMatPrefixAt(g, dofs, loc, rows - 1, r, c);
      var prev := ScatterMatPrefix(g, dofs, loc, rows - 1);
      if dofs[rows - 1] == r {
        ScatterVecAt(prev[r], dofs, loc[rows - 1], c);
      }
    }
  }

  lemma ScatterMatAt(g: seq<seq<real>>, dofs: seq<nat>, loc: seq<seq<real>>, r: nat, c: nat)
    requires IsSquare(g, |g|) && IsLocalMatrix(loc, |dofs|) && DofsBelow(dofs, |g|)
    requires r < |g| && c < |g|
    ensures ScatterMat(g, dofs, loc)[r][c] == g[r][c] + LocalSum2(dofs, loc, r, c, |dofs|)
  {
    ScatterMatPrefixAt(g, dofs, loc, |dofs|, r, c);
  }

  /* ----- the global vector and matrix, and the constrain-and-add routines ----- */

  /** A global vector; `finalized` says whether it was finalised since it was last changed. */
  class Vector {
    var entries: seq<real>
    var finalized: bool

    constructor (n: nat)
      ensures entries == Zeros(n) && !finalized
    {
      entries := Zeros(n);
      finalized := false;
    }

    method SetZero()
      modifies this
      ensures entries == Zeros(|old(entries)|) && !finalized
    {
      entries := Zeros(|entries|);
      finalized := false;
    }

    method Finalize()
      modifies this
      ensures entries == old(entries) && finalized
    {
      finalized := true;
    }
  }

  /** A global square matrix, stored by rows. */
  class Matrix {
    var entries: seq<seq<real>>
    var finalized: bool

    constructor (n: nat)
      ensures entries == ZeroMatrix(n) && !finalized
    {
      entries := ZeroMatrix(n);
      finalized := false;
    }

    method SetZero()
      requires IsSquare(entries, |entries|)
      modifies this
      ensures entries == ZeroMatrix(|old(entries)|) && !finalized
    {
      entries := ZeroMatrix(|entries|);
      finalized := false;
    }

    method Finalize()
      modifies this
      ensures entries == old(entries) && finalized
    {
      finalized := true;
    }
  }

  /** R[dofs[i]] += resE[i] for every local entry. */
  method ConstrainAndAddVector(R: Vector, dofs: seq<nat>, resE: seq<real>)
    requires |resE| == |dofs| && DofsBelow(dofs, |R.entries|)
    modifies R
    ensures R.entries == ScatterVec(old(R.entries), dofs, resE) && !R.finalized
  {
    ghost var g := R.entries;
    R.finalized := false;
    var i := 0;
    while i < |dofs|
      invariant 0 <= i <= |dofs|
      invariant R.entries == ScatterVecPrefix(g, dofs, resE, i)
      invariant !R.finalized
    {
      R.entries := R.entries[dofs[i] := R.entries[dofs[i]] + resE[i]];
      i := i + 1;
    }
  }

  /** J[dofs[i]][dofs[j]] += jacE[i][j] for every local entry, row by row. */
  method ConstrainAndAddMatrix(J: Matrix, dofs: seq<nat>, jacE: seq<seq<real>>)
    requires IsSquare(J.entries, |J.entries|) && IsLocalMatrix(jacE, |dofs|) && DofsBelow(dofs, |J.entries|)
    modifies J
    ensures J.entries == ScatterMat(old(J.entries), dofs, jacE) && !J.finalized
  {
    ghost var g := J.entries;
    J.finalized := false;
    var i := 0;
    while i < |dofs|
      invariant 0 <= i <= |dofs|
      invariant J.entries == ScatterMatPrefix(g, dofs, jacE, i)
      invariant !J.finalized
    {
      var d := dofs[i];
      ghost var before := J.entries;
      var j := 0;
      while j < |dofs|
        invariant 0 <= j <= |dofs|
        invariant J.entries == before[d := ScatterVecPrefix(before[d], dofs, jacE[i], j)]
        invariant !J.finalized
      {
        J.entries := J.entries[d := J.entries[d][dofs[j] := J.entries[d][dofs[j]] + jacE[i][j]]];
        j := j + 1;
      }
      i := i + 1;
    }
  }

  /** Both scatters for one element: the residual into R and the Jacobian into J. */
  method ConstrainAndAddMatrixAndVector(R: Vector, J: Matrix, dofs: seq<nat>, resE: seq<real>, jacE: seq<seq<real>>)
    requires |resE| == |dofs| && DofsBelow(dofs, |R.entries|)
    requires IsSquare(J.entries, |J.entries|) && IsLocalMatrix(jacE, |dofs|) && DofsBelow(dofs, |J.entries|)
    modifies R, J
    ensures R.entries == ScatterVec(old(R.entries), dofs, resE) && !R.finalized
    ensures J.entries == ScatterMat(old(J.entries), dofs, jacE) && !J.finalized
  {
    ConstrainAndAddVector(R, dofs, resE);
    ConstrainAndAddMatrix(J, dofs, jacE);
  }

  /* ----- element quantities and the assembled sums they specify ----- */

  /** The local solution: the global solution at the element's DOF indices. */
  function Gather(x: seq<real>, dofs: seq<nat>): (v: seq<real>)
    requires DofsBelow(dofs, |x|)
    ensures |v| == |dofs| && forall i :: 0 <= i < |dofs| ==> v[i] == x[dofs[i]]
  {
    seq(|dofs|, i requires 0 <= i < |dofs| => x[dofs[i]])
  }

  function LocalResidual(ops: ElemOps, f: nat, x: seq<real>, e: Elem): (r: seq<real>)
    requires DofsBelow(e.dofs, |x|)
    ensures |r| == |e.dofs|
  {
    var xl := Gather(x, e.dofs);
    seq(|e.dofs|, i requires 0 <= i => ops.residual(e, f, xl, i))
  }

  function LocalJacobian(ops: ElemOps, f: nat, x: seq<real>, e: Elem): (r: seq<seq<real>>)
    requires DofsBelow(e.dofs, |x|)
    ensures IsLocalMatrix(r, |e.dofs|)
  {
    var xl := Gather(x, e.dofs);
    seq(|e.dofs|, i requires 0 <= i => seq(|e.dofs|, j requires 0 <= j => ops.jacobian(e, f, xl, i, j)))
  }

  /** The residual sensitivity after the first `count` elements have been scattered into a zero vector. */
  function ResidualPrefix(ops: ElemOps, f: nat, x: seq<real>, elems: seq<Elem>, count: nat): (r: seq<real>)
    requires count <= |elems| && ElemsDofsBelow(elems, |x|)
    ensures |r| == |x|
  {
    if count == 0 then Zeros(|x|)
    else
      var e := elems[count - 1];
      ScatterVec(ResidualPrefix(ops, f, x, elems, count - 1), e.dofs, LocalResidual(ops, f, x, e))
  }

  function AssembledResidual(ops: ElemOps, f: nat, x: seq<real>, elems: seq<Elem>): (r: seq<real>)
    requires ElemsDofsBelow(elems, |x|)
    ensures |r| == |x|
  {
    ResidualPrefix(ops, f, x, elems, |elems|)
  }

  /** The Jacobian sensitivity after the first `count` elements have been scattered into a zero matrix. */
  function JacobianPrefix(ops: ElemOps, f: nat, x: seq<real>, elems: seq<Elem>, count: nat): (r: seq<seq<real>>)
    requires count <= |elems| && ElemsDofsBelow(elems, |x|)
    ensures IsSquare(r, |x|)
  {
    if count == 0 then ZeroMatrix(|x|)
    else
      var e := elems[count - 1];
      ScatterMat(JacobianPrefix(ops, f, x, elems, count - 1), e.dofs, LocalJacobian(ops, f, x, e))
  }

  function AssembledJacobian(ops: ElemOps, f: nat, x: seq<real>, elems: seq<Elem>): (r: seq<seq<real>>)
    requires ElemsDofsBelow(elems, |x|)
    ensures IsSquare(r, |x|)
  {
    JacobianPrefix(ops, f, x, elems, |elems|)
  }

  /* ----- closed form and order independence ----- */

  function SumOver(s: seq<Elem>, w: Elem -> real): real
  {
    if |s| == 0 then 0.0 else SumOver(s[..|s| - 1], w) + w(s[|s| - 1])
  }

  /** An element's contribution to global residual entry k. */
  function ResidualWeight(ops: ElemOps, f: nat, x: seq<real>, k: nat): Elem -> real
  {
    (e: Elem) => if DofsBelow(e.dofs, |x|) then LocalSum(e.dofs, LocalResidual(ops, f, x, e), k, |e.dofs|) else 0.0
  }

  /** An element's contribution to global Jacobian entry (r, c). */
  function JacobianWeight(ops: ElemOps, f: nat, x: seq<real>, r: nat, c: nat): Elem -> real
  {
    (e: Elem) => if DofsBelow(e.dofs, |x|) then LocalSum2(e.dofs, LocalJacobian(ops, f, x, e), r, c, |e.dofs|) else 0.0
  }

  lemma SumOverSnoc(s: seq<Elem>, count: nat, w: Elem -> real)
    requires 0 < count <= |s|
    ensures SumOver(s[..count], w) == SumOver(s[..count - 1], w) + w(s[count - 1])
  {
    assert s[..count][..count - 1] == s[..count - 1];
  }

  /** Zero-then-sum: each assembled residual entry is the sum of the element contributions to it. */
  lemma {:induction false} ResidualPrefixClosedForm(ops: ElemOps, f: nat, x: seq<real>, elems: seq<Elem>, count: nat, k: nat)
    requires count <= |elems| && ElemsDofsBelow(elems, |x|) && k < |x|
    ensures ResidualPrefix(ops, f, x, elems, count)[k] == SumOver(elems[..count], ResidualWeight(ops, f, x, k))
  {
    if count > 0 {
      ResidualPrefixClosedForm(ops, f, x, elems, count - 1, k);
      var e := elems[count - 1];
      assert e in elems;
      SumOverSnoc(elems, count, ResidualWeight(ops, f, x, k));
      ScatterVecAt(ResidualPrefix(ops, f, x, elems, count - 1), e.dofs, LocalResidual(ops, f, x, e), k);
    }
  }

  lemma {:induction false} JacobianPrefixClosedForm(ops: ElemOps, f: nat, x: seq<real>, elems: seq<Elem>, count: nat, r: nat, c: nat)
    requires count <= |elems| && ElemsDofsBelow(elems, |x|) && r < |x| && c < |x|
    ensures JacobianPrefix(ops, f, x, elems, count)[r][c] == SumOver(elems[..count], JacobianWeight(ops, f, x, r, c))
  {
    if count > 0 {
      JacobianPrefixClosedForm(ops, f, x, elems, count - 1, r, c);
      var e := elems[count - 1];
      assert e in elems;
      SumOverSnoc(elems, count, JacobianWeight(ops, f, x, r, c));
      ScatterMatAt(JacobianPrefix(ops, f, x, elems, count - 1), e.dofs, LocalJacobian(ops, f, x, e), r, c);
    }
  }

  lemma {:induction false} SumOverConcat(s: seq<Elem>, t: seq<Elem>, w: Elem -> real)
    ensures SumOver(s + t, w) == SumOver(s, w) + SumOver(t, w)
    decreases |t|
  {
    if |t| == 0 {
      assert s + t == s;
    } else {
      assert (s + t)[..|s + t| - 1] == s + t[..|t| - 1];
      SumOverConcat(s, t[..|t| - 1], w);
    }
  }

  /** Sums over elements do not depend on the order the elements are visited in. */
  lemma {:induction false} SumOverPermutation(a: seq<Elem>, b: seq<Elem>, w: Elem -> real)
    requires multiset(a) == multiset(b)
    ensures SumOver(a, w) == SumOver(b, w)
    decreases |a|
  {
    if |a| == 0 {
      assert |b| == |multiset(b)| == 0;
    } else {
      var init, e := a[..|a| - 1], a[|a| - 1];
      assert a == init + [e];
      assert SumOver(a, w) == SumOver(init, w) + w(e);
      var j := IndexIn(e, a, b);
      var rest := b[..j] + b[j + 1..];
      RemoveOne(init, e, b, j);
      SumOverPermutation(init, rest, w);
      assert b == b[..j] + [e] + b[j + 1..];
      SumOverRemove(b[..j], e, b[j + 1..], w);
    }
  }

  /** A position of a's last element in b, a permutation of a. */
  lemma IndexIn(e: Elem, a: seq<Elem>, b: seq<Elem>) returns (j: nat)
    requires |a| > 0 && e == a[|a| - 1] && multiset(a) == multiset(b)
    ensures j < |b| && b[j] == e
  {
    assert e in multiset(a);
    assert e in multiset(b);
    j :| 0 <= j < |b| && b[j] == e;
  }

  /** Taking the same element off both sides of a permutation leaves a permutation. */
  lemma RemoveOne(init: seq<Elem>, e: Elem, b: seq<Elem>, j: nat)
    requires j < |b| && b[j] == e && multiset(init + [e]) == multiset(b)
    ensures multiset(init) == multiset(b[..j] + b[j + 1..])
  {
    var left, right := b[..j], b[j + 1..];
    assert b == left + [e] + right;
    assert multiset(init) + multiset{e} == multiset(left + right) + multiset{e};
    forall z ensures multiset(init)[z] == multiset(left + right)[z] {
      assert (multiset(init) + multiset{e})[z] == (multiset(left + right) + multiset{e})[z];
    }
  }

  /** A sum is the sum without one element plus that element's weight. */
  lemma SumOverRemove(left: seq<Elem>, x: Elem, right: seq<Elem>, w: Elem -> real)
    ensures SumOver(left + [x] + right, w) == SumOver(left + right, w) + w(x)
  {
    SumOverConcat(left + [x], right, w);
    SumOverSnocOne(left, x, w);
    SumOverConcat(left, right, w);
  }

  lemma SumOverSnocOne(left: seq<Elem>, x: Elem, w: Elem -> real)
    ensures SumOver(left + [x], w) == SumOver(left, w) + w(x)
  {
    assert (left + [x])[..|left|] == left;
  }

  lemma SameElemsDofsBelow(a: seq<Elem>, b: seq<Elem>, n: nat)
    requires multiset(a) == multiset(b) && ElemsDofsBelow(a, n)
    ensures ElemsDofsBelow(b, n)
  {
    forall e | e in b ensures DofsBelow(e.dofs, n) {
      assert e in multiset(b);
    }
  }

  /** The assembled residual sensitivity is independent of the element order. */
  lemma ResidualOrderIndependent(ops: ElemOps, f: nat, x: seq<real>, a: seq<Elem>, b: seq<Elem>)
    requires multiset(a) == multiset(b) && ElemsDofsBelow(a, |x|)
    ensures ElemsDofsBelow(b, |x|)
    ensures AssembledResidual(ops, f, x, a) == AssembledResidual(ops, f, x, b)
  {
    SameElemsDofsBelow(a, b, |x|);
    forall k | 0 <= k < |x|
      ensures AssembledResidual(ops, f, x, a)[k] == AssembledResidual(ops, f, x, b)[k]
    {
      ResidualPrefixClosedForm(ops, f, x, a, |a|, k);
      ResidualPrefixClosedForm(ops, f, x, b, |b|, k);
      assert a[..|a|] == a && b[..|b|] == b;
      SumOverPermutation(a, b, ResidualWeight(ops, f, x, k));
    }
  }

  /** The assembled Jacobian sensitivity is independent of the element order. */
  lemma JacobianOrderIndependent(ops: ElemOps, f: nat, x: seq<real>, a: seq<Elem>, b: seq<Elem>)
    requires multiset(a) == multiset(b) && ElemsDofsBelow(a, |x|)
    ensures ElemsDofsBelow(b, |x|)
    ensures AssembledJacobian(ops, f, x, a) == AssembledJacobian(ops, f, x, b)
  {
    SameElemsDofsBelow(a, b, |x|);
    var ja := AssembledJacobian(ops, f, x, a);
    var jb := AssembledJacobian(ops, f, x, b);
    forall r | 0 <= r < |x|
      ensures ja[r] == jb[r]
    {
      forall c | 0 <= c < |x|
        ensures ja[r][c] == jb[r][c]
      {
        JacobianPrefixClosedForm(ops, f, x, a, |a|, r, c);
        JacobianPrefixClosedForm(ops, f, x, b, |b|, r, c);
        assert a[..|a|] == a && b[..|b|] == b;
        SumOverPermutation(a, b, JacobianWeight(ops, f, x, r, c));
      }
    }
  }

  /** The element operator's effect on the local residual buffer: its contributions are added in. */
  function AddElemResidual(buf: seq<real>, ops: ElemOps, e: Elem, f: nat, xl: seq<real>): (r: seq<real>)
    ensures |r| == |buf|
    ensures forall k :: 0 <= k < |buf| ==> r[k] == buf[k] + ops.residual(e, f, xl, k)
  {
    seq(|buf|, k requires 0 <= k < |buf| => buf[k] + ops.residual(e, f, xl, k))
  }

  /** The element operator's effect on the local Jacobian buffer. */
  function AddElemJacobian(buf: seq<seq<real>>, n: nat, ops: ElemOps, e: Elem, f: nat, xl: seq<real>): (r: seq<seq<real>>)
    requires IsLocalMatrix(buf, n)
    ensures IsLocalMatrix(r, n)
    ensures forall i, j :: 0 <= i < n && 0 <= j < n ==> r[i][j] == buf[i][j] + ops.jacobian(e, f, xl, i, j)
  {
    seq(n, i requires 0 <= i < n => seq(n, j requires 0 <= j < n => buf[i][j] + ops.jacobian(e, f, xl, i, j)))
  }

  /** Zeroing the buffers first makes them hold exactly the element's own contributions. */
  lemma ZeroThenAdd(ops: ElemOps, f: nat, x: seq<real>, e: Elem)
    requires DofsBelow(e.dofs, |x|)
    ensures AddElemResidual(Zeros(|e.dofs|), ops, e, f, Gather(x, e.dofs)) == LocalResidual(ops, f, x, e)
    ensures AddElemJacobian(ZeroMatrix(|e.dofs|), |e.dofs|, ops, e, f, Gather(x, e.dofs)) == LocalJacobian(ops, f, x, e)
  {
    var n := |e.dofs|;
    var a := AddElemJacobian(ZeroMatrix(n), n, ops, e, f, Gather(x, e.dofs));
    var b := LocalJacobian(ops, f, x, e);
    forall i | 0 <= i < n ensures a[i] == b[i] {
    }
  }

  /**
   * One element's evaluation: set it as the context's element, bind the
   * accessor to it, zero the local residual (and the local Jacobian only
   * when J is requested) and let the element operator add into them.
   */
  method EvaluateElement(c: AssemblyContext, accessor: SolutionAccessor, e: Elem, ops: ElemOps, f: nat, hasJ: bool,
                         jacIn: seq<seq<real>>)
    returns (resE: seq<real>, jacE: seq<seq<real>>)
    requires DofsBelow(e.dofs, |accessor.x|)
    modifies c, accessor
    ensures c.elem == Some(e) && accessor.dofIndices == e.dofs
    ensures resE == LocalResidual(ops, f, accessor.x, e)
    ensures hasJ ==> jacE == LocalJacobian(ops, f, accessor.x, e)
    ensures !hasJ ==> jacE == jacIn
  {
    // the context's element is set before the accessor is bound to it
    c.elem := Some(e);
    accessor.Init(c.elem.value);
    var n := accessor.NDofs();
    var xl := accessor.values;
    jacE := jacIn;

    resE := Zeros(n);
    if hasJ { jacE := ZeroMatrix(n); }
    resE := AddElemResidual(resE, ops, e, f, xl);
    if hasJ { jacE := AddElemJacobian(jacE, n, ops, e, f, xl); }
    ZeroThenAdd(ops, f, accessor.x, e);
  }

  /**
   * One element's scatter: matrix and vector when both outputs are requested,
   * vector only when only R is, matrix only otherwise.
   */
  method ScatterElement(R: Vector?, J: Matrix?, dofs: seq<nat>, resE: seq<real>, jacE: seq<seq<real>>) returns (mode: ScatterMode)
    requires R != null || J != null
    requires R != null ==> |resE| == |dofs| && DofsBelow(dofs, |R.entries|)
    requires J != null ==> IsSquare(J.entries, |J.entries|) && IsLocalMatrix(jacE, |dofs|) && DofsBelow(dofs, |J.entries|)
    modifies R, J
    ensures mode == ModeFor(R != null, J != null)
    ensures R != null ==> R.entries == ScatterVec(old(R.entries), dofs, resE) && !R.finalized
    ensures J != null ==> J.entries == ScatterMat(old(J.entries), dofs, jacE) && !J.finalized
  {
    if R != null && J != null {
      ConstrainAndAddMatrixAndVector(R, J, dofs, resE, jacE);
      mode := MatrixAndVector;
    } else if R != null {
      ConstrainAndAddVector(R, dofs, resE);
      mode := VectorOnly;
    } else {
      ConstrainAndAddMatrix(J, dofs, jacE);
      mode := MatrixOnly;
    }
  }

  /** The visits of the first `count` elements, each with the given scatter. */
  function VisitLog(elems: seq<Elem>, count: nat, mode: ScatterMode): seq<Visit>
    requires count <= |elems|
  {
    if count == 0 then [] else VisitLog(elems, count - 1, mode) + [Visit(elems[count - 1], mode)]
  }

  lemma {:induction false} VisitLogAt(elems: seq<Elem>, count: nat, mode: ScatterMode)
    requires count <= |elems|
    ensures |VisitLog(elems, count, mode)| == count
    ensures forall k :: 0 <= k < count ==> VisitLog(elems, count, mode)[k] == Visit(elems[k], mode)
  {
    if count > 0 {
      VisitLogAt(elems, count - 1, mode);
    }
  }

  /**
   * The state of the element loop after its first i passes: the requested
   * outputs hold the contributions of elements 0 .. i-1, the visit log lists
   * exactly those elements, and the context holds the last one visited.
   */
  ghost predicate Progress(c: AssemblyContext, R: Vector?, J: Matrix?, ops: ElemOps, f: nat, X: seq<real>,
                           i: nat, visits: seq<Visit>, start: Option<Elem>)
    reads c, R, J
  {
    && i <= |c.elems| && ElemsDofsBelow(c.elems, |X|)
    && (R != null ==> R.entries == ResidualPrefix(ops, f, X, c.elems, i) && !R.finalized)
    && (J != null ==> J.entries == JacobianPrefix(ops, f, X, c.elems, i) && !J.finalized)
    && visits == VisitLog(c.elems, i, ModeFor(R != null, J != null))
    && c.elem == if i == 0 then start else Some(c.elems[i - 1])
  }

  /**
   * One pass of the element loop: evaluate element i and scatter its
   * contributions, taking the outputs from i to i + 1 elements assembled.
   */
  method ElementStep(c: AssemblyContext, accessor: SolutionAccessor, ops: ElemOps, f: nat, X: seq<real>,
                     R: Vector?, J: Matrix?, i: nat, jacIn: seq<seq<real>>, visits: seq<Visit>, ghost start: Option<Elem>)
    returns (resE: seq<real>, jacE: seq<seq<real>>, visits': seq<Visit>)
    requires R != null || J != null
    requires i < |c.elems| && ElemsDofsBelow(c.elems, |X|) && accessor.x == X
    requires Progress(c, R, J, ops, f, X, i, visits, start)
    modifies c, accessor, R, J
    ensures Progress(c, R, J, ops, f, X, i + 1, visits', start)
  {
    var e := c.elems[i];
    assert e in c.elems;
    resE, jacE := EvaluateElement(c, accessor, e, ops, f, J != null, jacIn);
    var mode := ScatterElement(R, J, accessor.dofIndices, resE, jacE);
    visits' := visits + [Visit(c.elem.value, mode)];
  }

  /**
   * The element loop over zeroed outputs: every active local element is
   * visited once, in order, and its contributions are scattered into the
   * requested outputs.
   */
  method ElementLoop(c: AssemblyContext, ops: ElemOps, f: nat, X: seq<real>, R: Vector?, J: Matrix?)
    returns (visits: seq<Visit>)
    requires R != null || J != null
    requires ElemsDofsBelow(c.elems, |X|)
    requires R != null ==> R.entries == Zeros(|X|) && !R.finalized
    requires J != null ==> J.entries == ZeroMatrix(|X|) && !J.finalized
    modifies c, R, J
    ensures R != null ==> R.entries == AssembledResidual(ops, f, X, c.elems) && !R.finalized
    ensures J != null ==> J.entries == AssembledJacobian(ops, f, X, c.elems) && !J.finalized
    ensures |visits| == |c.elems|
    ensures forall k :: 0 <= k < |c.elems| ==> visits[k] == Visit(c.elems[k], ModeFor(R != null, J != null))
    ensures c.elem == if |c.elems| == 0 then old(c.elem) else Some(c.elems[|c.elems| - 1])
  {
    var accessor := new SolutionAccessor(X);
    var resE: seq<real> := [];
    var jacE: seq<seq<real>> := [];
    visits := [];

    assert R != null ==> R.entries == ResidualPrefix(ops, f, X, c.elems, 0);
    assert J != null ==> J.entries == JacobianPrefix(ops, f, X, c.elems, 0);
    var i := 0;
    while i < |c.elems|
      invariant accessor.x == X
      invariant Progress(c, R, J, ops, f, X, i, visits, old(c.elem))
    {
      resE, jacE, visits := ElementStep(c, accessor, ops, f, X, R, J, i, jacE, visits, old(c.elem));
      i := i + 1;
    }
    VisitLogAt(c.elems, |c.elems|, ModeFor(R != null, J != null));
  }

  /* ----- the assembly object ----- */

  /** The mesh's active local elements and the element currently being evaluated. */
  class AssemblyContext {
    const elems: seq<Elem>
    var elem: Option<Elem>

    constructor (es: seq<Elem>)
      ensures elems == es && elem == None
    {
      elems := es;
      elem := None;
    }
  }

  /** Reads the solution at the DOFs of the element it was last initialised on. */
  class SolutionAccessor {
    const x: seq<real>
    var dofIndices: seq<nat>
    var values: seq<real>

    constructor (sol: seq<real>)
      ensures x == sol && dofIndices == [] && values == []
    {
      x := sol;
      dofIndices := [];
      values := [];
    }

    method Init(e: Elem)
      requires DofsBelow(e.dofs, |x|)
      modifies this
      ensures dofIndices == e.dofs && values == Gather(x, e.dofs)
    {
      dofIndices := e.dofs;
      values := Gather(x, e.dofs);
    }

    function NDofs(): nat
      reads this
    {
      |dofIndices|
    }
  }

  /**
   * The JACOBIAN finalisation decision as the source writes it: with J
   * requested, the flag is read; None stands for a flag that was never
   * assigned, whose value is indeterminate.
   */
  function JacobianFinalizedAsWritten(flag: Option<bool>, hasJ: bool): (r: Option<bool>)
    ensures !hasJ ==> r == Some(false)
    ensures hasJ ==> (r.Some? <==> flag.Some?)
    ensures hasJ && flag.Some? ==> r == flag
  {
    if !hasJ then Some(false) else flag
  }

  class ResidualSensitivity {
    /** None until SetFinalizeJacobian is called: the source's constructor leaves it unassigned. */
    var finalizeJac: Option<bool>
    var eOps: Option<ElemOps>
    /** The element visits of the last assembly, in order. */
    ghost var visits: seq<Visit>

    constructor ()
      ensures eOps == None && finalizeJac == None && visits == []
    {
      eOps := None;
      finalizeJac := None;
      visits := [];
    }

    method SetElemOps(ops: ElemOps)
      modifies this
      ensures eOps == Some(ops) && finalizeJac == old(finalizeJac)
    {
      eOps := Some(ops);
    }

    method SetFinalizeJacobian(b: bool)
      modifies this
      ensures finalizeJac == Some(b) && eOps == old(eOps)
    {
      finalizeJac := Some(b);
    }

    /**
     * Assemble the sensitivities of the residual into R and of the Jacobian
     * into J, whichever are requested, from the solution X.
     */
    method Assemble(c: AssemblyContext, f: nat, X: seq<real>, R: Vector?, J: Matrix?) returns (out: Outcome)
      requires (R != null || J != null) && |c.elems| > 0 ==> eOps.Some?
      requires J != null ==> finalizeJac.Some?
      requires ElemsDofsBelow(c.elems, |X|)
      requires R != null ==> |R.entries| == |X|
      requires J != null ==> IsSquare(J.entries, |X|)
      modifies this, c, R, J
      ensures R == null && J == null ==> out == Fail("Atleast one assembled quantity should be specified.")
      ensures R == null && J == null ==> unchanged(this) && unchanged(c)
      ensures R != null || J != null ==> out == Pass
      ensures eOps == old(eOps) && finalizeJac == old(finalizeJac)
      ensures R != null ==> R.finalized
      ensures R != null && eOps.Some? ==> R.entries == AssembledResidual(eOps.value, f, X, c.elems)
      ensures R != null && eOps.None? ==> R.entries == Zeros(|X|)
      ensures J != null && eOps.Some? ==> J.entries == AssembledJacobian(eOps.value, f, X, c.elems)
      ensures J != null && eOps.None? ==> J.entries == ZeroMatrix(|X|)
      ensures J != null ==> J.finalized == finalizeJac.value
      ensures J != null ==> JacobianFinalizedAsWritten(finalizeJac, true) == Some(J.finalized)
      ensures R != null || J != null ==> |visits| == |c.elems|
      ensures R != null || J != null ==>
                forall k :: 0 <= k < |c.elems| ==> visits[k] == Visit(c.elems[k], ModeFor(R != null, J != null))
      ensures R != null || J != null ==> c.elem == if |c.elems| == 0 then old(c.elem) else Some(c.elems[|c.elems| - 1])
    {
      if R == null && J == null {
        return Fail("Atleast one assembled quantity should be specified.");
      }
      if R != null { R.SetZero(); }
      if J != null { J.SetZero(); }

      if eOps.Some? {
        visits := ElementLoop(c, eOps.value, f, X, R, J);
      } else {
        // no element operator is only allowed over an empty element range
        visits := [];
      }
      if R != null { R.Finalize(); }
      if J != null && finalizeJac.value { J.Finalize(); }
      out := Pass;
    }
  }

  /**
   * The source's call sequence, construction followed by `set_elem_ops`,
   * leaves the Jacobian finalisation flag unassigned: asked for J, the
   * assembler reads an indeterminate flag, and Assemble's precondition on
   * the flag cannot be met without a setter the source does not have.
   */
  method FreshAssemblerReadsUnsetFlag(ops: ElemOps) returns (a: ResidualSensitivity)
    ensures fresh(a)
    ensures a.eOps == Some(ops) && a.finalizeJac == None
    ensures JacobianFinalizedAsWritten(a.finalizeJac, true) == None
  {
    a := new ResidualSensitivity();
    a.SetElemOps(ops);
  }
}
