/**
 * The side-data holder of the libMesh FE wrapper: a one-shot state machine
 * (uninitialised -> initialised) owning a side quadrature rule, an FE basis
 * and an FE derivative object bound to that basis.  Owned objects are
 * nullable object fields; deletion is modelled by reporting which objects
 * the destructor releases.
 */
module FESideDataLifecycle {
  import opened Common

  /** libMesh's order, quadrature-type and FE-family enumerations, as codes. */
  type Order = nat
  type QuadratureType = nat
  type FEFamily = nat

  /** The evaluation context: the element whose side is being evaluated, when there is one. */
  datatype SideContext = SideContext(elem: Option<nat>)

  /** A side quadrature rule of a given type and order. */
  class Quadrature {
    const qType: QuadratureType
    const order: Order

    constructor (t: QuadratureType, o: Order)
      ensures qType == t && order == o
    {
      qType := t;
      order := o;
    }
  }

  /** An FE basis of a given order and family, reinitialised on one element side at a time. */
  class FEBasis {
    const order: Order
    const family: FEFamily
    var elem: Option<nat>
    var side: nat
    var rule: Quadrature?

    constructor (o: Order, f: FEFamily)
      ensures order == o && family == f
      ensures elem == None && rule == null
    {
      order := o;
      family := f;
      elem := None;
      side := 0;
      rule := null;
    }

    /** Evaluate the basis on side `s` of element `e` with quadrature rule `q`. */
    method ReinitForSide(e: nat, q: Quadrature, s: nat)
      modifies this
      ensures elem == Some(e) && rule == q && side == s
    {
      elem := Some(e);
      rule := q;
      side := s;
    }
  }

  /** Derivatives of an FE basis it is bound to. */
  class FEDerivative {
    var basis: FEBasis?
    var elem: Option<nat>

    constructor ()
      ensures basis == null && elem == None
    {
      basis := null;
      elem := None;
    }

    method SetFEBasis(b: FEBasis)
      modifies this
      ensures basis == b && elem == old(elem)
    {
      basis := b;
    }

    /** Recompute the derivatives for the context's element. */
    method ReinitForSide(c: SideContext)
      modifies this
      ensures elem == c.elem && basis == old(basis)
    {
      elem := c.elem;
    }
  }

  class FESideData {
    var initialized: bool
    var q: Quadrature?
    var feBasis: FEBasis?
    var feDeriv: FEDerivative?

    /**
     * Uninitialised objects own nothing; initialised ones own all three
     * objects, and the derivative object is bound to the owned basis.
     */
    predicate Valid()
      reads this, feDeriv
    {
      if initialized then q != null && feBasis != null && feDeriv != null && feDeriv.basis == feBasis
      else q == null && feBasis == null && feDeriv == null
    }

    constructor ()
      ensures Valid() && !initialized
      ensures q == null && feBasis == null && feDeriv == null
    {
      initialized := false;
      q := null;
      feBasis := null;
      feDeriv := null;
    }

    /**
     * Create the quadrature rule, basis and derivative objects.  A second call
     * fails with the source's message and changes nothing.
     */
    method Init(qOrder: Order, qType: QuadratureType, feOrder: Order, feFamily: FEFamily) returns (out: Outcome)
      requires Valid()
      modifies this
      ensures Valid()
      ensures old(initialized) ==> out == Fail("Object already initialized") && unchanged(this)
      ensures !old(initialized) ==> out == Pass && initialized
      ensures !old(initialized) ==> fresh(q) && fresh(feBasis) && fresh(feDeriv)
      ensures !old(initialized) ==> q.qType == qType && q.order == qOrder
      ensures !old(initialized) ==> feBasis.order == feOrder && feBasis.family == feFamily
    {
      if initialized {
        return Fail("Object already initialized");
      }
      q := new Quadrature(qType, qOrder);
      feBasis := new FEBasis(feOrder, feFamily);
      feDeriv := new FEDerivative();
      feDeriv.SetFEBasis(feBasis);
      initialized := true;
      out := Pass;
    }

    /**
     * Reinitialise the basis on side `s` of the context's element with the
     * owned rule, then the derivatives.  Both owned objects are dereferenced
     * unchecked, so the object must be initialised, and so is the context's element.
     */
    method ReinitForSide(c: SideContext, s: nat)
      requires Valid() && initialized
      requires c.elem.Some?
      modifies feBasis, feDeriv
      ensures Valid()
      ensures feBasis.elem == c.elem && feBasis.rule == q && feBasis.side == s
      ensures feDeriv.elem == c.elem
    {
      feBasis.ReinitForSide(c.elem.value, q, s);
      feDeriv.ReinitForSide(c);
    }

    /**
     * What the destructor deletes: exactly the non-null owned objects, in the
     * order rule, basis, derivative; nothing for an uninitialised object.
     */
    method Destroy() returns (released: seq<object>)
      requires Valid()
      ensures initialized ==> released == [q, feBasis, feDeriv]
      ensures !initialized ==> released == []
      ensures forall o :: o in released <==> o == q || o == feBasis || o == feDeriv
    {
      released := [];
      if q != null { released := released + [q]; }
      if feBasis != null { released := released + [feBasis]; }
      if feDeriv != null { released := released + [feDeriv]; }
    }
  }
}
