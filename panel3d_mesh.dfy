/**
 * Generation of the structured hexahedral panel mesh: the nodes of the
 * grid in lexicographic order, one HEX8 or HEX27 element per cell with
 * consecutive ids, the boundary and Dirichlet side tags of each element,
 * and the Dirichlet boundary the analysis then constrains. The mesh is a
 * class whose node and element tables are maps from id and whose boundary
 * information is the list of (element, side, id) triples in the order they
 * are added.
 */
module Panel3DMesh {
  import opened Common
  import opened Panel3DGrid

  datatype Point = Point(x: real, y: real, z: real)

  /** An element: its id, its geometric type and the ids of its nodes in local order. */
  datatype Elem = Elem(id: nat, etype: ElemType, nodes: seq<nat>)

  /** One boundary-information entry: side `side` of element `elem` carries boundary id `id`. */
  datatype BoundarySide = BoundarySide(elem: nat, side: nat, id: nat)

  class Mesh {
    var meshDimension: nat
    var spatialDimension: nat
    var reservedElems: nat
    var reservedNodes: nat
    var nodes: map<nat, Point>
    var elems: map<nat, Elem>
    var boundary: seq<BoundarySide>

    constructor ()
      ensures meshDimension == 0 && spatialDimension == 0
      ensures reservedElems == 0 && reservedNodes == 0
      ensures nodes == map[] && elems == map[] && boundary == []
    {
      meshDimension, spatialDimension := 0, 0;
      reservedElems, reservedNodes := 0, 0;
      nodes, elems, boundary := map[], map[], [];
    }

    /** Removes every node, element and boundary entry. */
    method Clear()
      modifies this
      ensures nodes == map[] && elems == map[] && boundary == []
      ensures reservedElems == 0 && reservedNodes == 0
      ensures meshDimension == old(meshDimension) && spatialDimension == old(spatialDimension)
    {
      nodes, elems, boundary := map[], map[], [];
      reservedElems, reservedNodes := 0, 0;
    }

    method AddPoint(p: Point, id: nat)
      modifies this
      ensures nodes == old(nodes)[id := p]
      ensures elems == old(elems) && boundary == old(boundary)
      ensures meshDimension == old(meshDimension) && spatialDimension == old(spatialDimension)
      ensures reservedElems == old(reservedElems) && reservedNodes == old(reservedNodes)
    {
      nodes := nodes[id := p];
    }

    method AddElem(e: Elem)
      modifies this
      ensures elems == old(elems)[e.id := e]
      ensures nodes == old(nodes) && boundary == old(boundary)
      ensures meshDimension == old(meshDimension) && spatialDimension == old(spatialDimension)
      ensures reservedElems == old(reservedElems) && reservedNodes == old(reservedNodes)
    {
      elems := elems[e.id := e];
    }

    method AddSide(elem: nat, side: nat, id: nat)
      modifies this
      ensures boundary == old(boundary) + [BoundarySide(elem, side, id)]
      ensures nodes == old(nodes) && elems == old(elems)
      ensures meshDimension == old(meshDimension) && spatialDimension == old(spatialDimension)
      ensures reservedElems == old(reservedElems) && reservedNodes == old(reservedNodes)
    {
      boundary := boundary + [BoundarySide(elem, side, id)];
    }
  }

  /** The arguments of the generator: divisions, extents, Dirichlet length fraction, element type. */
  datatype Cube = Cube(nx: nat, ny: nat, nz: nat, length: real, height: real, width: real, frac: real, etype: ElemType)

  /**
   * The coordinate of grid line i of `steps` equal steps across `extent`.
   * With no steps the source divides zero by zero; the model puts 0 there.
   */
  function Coordinate(i: nat, steps: nat, extent: real): real
  {
    if steps == 0 then 0.0 else (i as real / steps as real) * extent
  }

  /** The grid lines run from 0 to the extent, in order when the extent is not negative. */
  lemma CoordinateSpansExtent(steps: nat, extent: real, i: nat, i2: nat)
    requires steps > 0
    ensures Coordinate(0, steps, extent) == 0.0
    ensures Coordinate(steps, steps, extent) == extent
    ensures extent >= 0.0 && i <= i2 ==> Coordinate(i, steps, extent) <= Coordinate(i2, steps, extent)
  {
    var n := steps as real;
    assert (steps as real) / n == 1.0;
    if extent >= 0.0 && i <= i2 {
      assert i as real / n <= i2 as real / n;
    }
  }

  predicate GridPointIn(c: Cube, i: nat, j: nat, k: nat)
    requires IsHex(c.etype)
  {
    i < PointsAlong(c.etype, c.nx) && j < PointsAlong(c.etype, c.ny) && k < PointsAlong(c.etype, c.nz)
  }

  /** The id of grid point (i, j, k): what idx returns for it. */
  function NodeIdOf(c: Cube, i: nat, j: nat, k: nat): nat
    requires IsHex(c.etype)
  {
    Lex(PointsAlong(c.etype, c.nx), PointsAlong(c.etype, c.ny), i, j, k)
  }

  /** The position of grid point (i, j, k): its fraction of each division count times the extent. */
  function NodePoint(c: Cube, i: nat, j: nat, k: nat): Point
    requires IsHex(c.etype)
  {
    var st := Stride(c.etype);
    Point(Coordinate(i, st * c.nx, c.length), Coordinate(j, st * c.ny, c.height), Coordinate(k, st * c.nz, c.width))
  }

  /** The id of the element of cell (ci, cj, ck): the cells are numbered lexicographically too. */
  function ElemIdOf(c: Cube, ci: nat, cj: nat, ck: nat): nat
  {
    Lex(c.nx, c.ny, ci, cj, ck)
  }

  /** The element of cell (ci, cj, ck). */
  function CellElem(c: Cube, ci: nat, cj: nat, ck: nat): Elem
    requires IsHex(c.etype)
  {
    var st := Stride(c.etype);
    Elem(ElemIdOf(c, ci, cj, ck), c.etype, ElemNodes(c.etype, c.nx, c.ny, st * ci, st * cj, st * ck))
  }

  /** The side tags of element e, in the order they were added to the boundary information. */
  function SidesOf(bs: seq<BoundarySide>, e: nat): seq<SideTag>
  {
    if bs == [] then []
    else
      var b := bs[|bs| - 1];
      SidesOf(bs[..|bs| - 1], e) + (if b.elem == e then [SideTag(b.side, b.id)] else [])
  }

  /** The boundary entries that put the tags ts on element e. */
  function Tagged(e: nat, ts: seq<SideTag>): seq<BoundarySide>
  {
    if ts == [] then []
    else Tagged(e, ts[..|ts| - 1]) + [BoundarySide(e, ts[|ts| - 1].side, ts[|ts| - 1].id)]
  }

  lemma {:induction false} SidesOfConcat(a: seq<BoundarySide>, b: seq<BoundarySide>, e: nat)
    ensures SidesOf(a + b, e) == SidesOf(a, e) + SidesOf(b, e)
    decreases |b|
  {
    if b != [] {
      var b' := b[..|b| - 1];
      assert (a + b)[..|a + b| - 1] == a + b';
      SidesOfConcat(a, b', e);
    } else {
      assert a + b == a;
    }
  }

  lemma {:induction false} SidesOfTagged(e: nat, ts: seq<SideTag>, e2: nat)
    ensures SidesOf(Tagged(e, ts), e2) == if e == e2 then ts else []
    ensures forall b :: b in Tagged(e, ts) ==> b.elem == e
    decreases |ts|
  {
    if ts != [] {
      var ts' := ts[..|ts| - 1];
      var last := BoundarySide(e, ts[|ts| - 1].side, ts[|ts| - 1].id);
      SidesOfTagged(e, ts', e2);
      SidesOfConcat(Tagged(e, ts'), [last], e2);
      assert SidesOf([last], e2) == SidesOf([], e2) + (if e == e2 then [SideTag(last.side, last.id)] else []);
      if e == e2 {
        assert ts' + [ts[|ts| - 1]] == ts;
      }
    }
  }

  /** Tagging one more side, when `cond` holds, appends one boundary entry after whatever precedes the tags. */
  lemma TaggedStep(pre: seq<BoundarySide>, e: nat, ts: seq<SideTag>, cond: bool, t: SideTag)
    ensures pre + Tagged(e, ts + (if cond then [t] else []))
            == if cond then pre + Tagged(e, ts) + [BoundarySide(e, t.side, t.id)] else pre + Tagged(e, ts)
  {
    if cond {
      assert (ts + [t])[..|ts|] == ts;
    } else {
      assert ts + [] == ts;
    }
  }

  lemma {:induction false} TaggedConcat(e: nat, a: seq<SideTag>, b: seq<SideTag>)
    ensures Tagged(e, a + b) == Tagged(e, a) + Tagged(e, b)
    decreases |b|
  {
    if b == [] {
      assert a + b == a;
    } else {
      var b' := b[..|b| - 1];
      assert (a + b)[..|a + b| - 1] == a + b';
      TaggedConcat(e, a, b');
    }
  }

  /** The node map holds exactly ids 0..count-1, each at the position of its grid point. */
  ghost predicate NodesBuilt(nodes: map<nat, Point>, c: Cube, count: nat)
    requires IsHex(c.etype)
  {
    && (forall id: nat :: id in nodes <==> id < count)
    && (forall i, j, k :: GridPointIn(c, i, j, k) && NodeIdOf(c, i, j, k) < count ==>
          NodeIdOf(c, i, j, k) in nodes && nodes[NodeIdOf(c, i, j, k)] == NodePoint(c, i, j, k))
  }

  lemma NodesBuiltStep(nodes: map<nat, Point>, c: Cube, i: nat, j: nat, k: nat)
    requires IsHex(c.etype) && GridPointIn(c, i, j, k)
    requires NodesBuilt(nodes, c, NodeIdOf(c, i, j, k))
    ensures NodesBuilt(nodes[NodeIdOf(c, i, j, k) := NodePoint(c, i, j, k)], c, NodeIdOf(c, i, j, k) + 1)
  {
    var id := NodeIdOf(c, i, j, k);
    var nodes' := nodes[id := NodePoint(c, i, j, k)];
    forall i2, j2, k2 | GridPointIn(c, i2, j2, k2) && NodeIdOf(c, i2, j2, k2) < id + 1
      ensures NodeIdOf(c, i2, j2, k2) in nodes' && nodes'[NodeIdOf(c, i2, j2, k2)] == NodePoint(c, i2, j2, k2)
    {
      if NodeIdOf(c, i2, j2, k2) == id {
        LexInjective(PointsAlong(c.etype, c.nx), PointsAlong(c.etype, c.ny), i2, j2, k2, i, j, k);
      }
    }
  }

  /**
   * The element map holds exactly ids 0..count-1, each cell's element is
   * in place with its tags, and no boundary entry names a later element.
   */
  ghost predicate ElemsBuilt(elems: map<nat, Elem>, bs: seq<BoundarySide>, c: Cube, count: nat)
    requires IsHex(c.etype)
  {
    && (forall e: nat :: e in elems <==> e < count)
    && (forall b :: b in bs ==> b.elem < count)
    && (forall ci, cj, ck :: CellInGrid(c.nx, c.ny, c.nz, ci, cj, ck) && ElemIdOf(c, ci, cj, ck) < count ==>
          && ElemIdOf(c, ci, cj, ck) in elems
          && elems[ElemIdOf(c, ci, cj, ck)] == CellElem(c, ci, cj, ck)
          && SidesOf(bs, ElemIdOf(c, ci, cj, ck)) == ElemTags(c.etype, c.nx, c.ny, c.nz, c.frac, ci, cj, ck))
  }

  lemma ElemsBuiltStep(elems: map<nat, Elem>, bs: seq<BoundarySide>, c: Cube, ci: nat, cj: nat, ck: nat)
    requires IsHex(c.etype) && CellInGrid(c.nx, c.ny, c.nz, ci, cj, ck)
    requires ElemsBuilt(elems, bs, c, ElemIdOf(c, ci, cj, ck))
    ensures ElemsBuilt(elems[ElemIdOf(c, ci, cj, ck) := CellElem(c, ci, cj, ck)],
                       bs + Tagged(ElemIdOf(c, ci, cj, ck), ElemTags(c.etype, c.nx, c.ny, c.nz, c.frac, ci, cj, ck)),
                       c, ElemIdOf(c, ci, cj, ck) + 1)
  {
    var id := ElemIdOf(c, ci, cj, ck);
    var tags := ElemTags(c.etype, c.nx, c.ny, c.nz, c.frac, ci, cj, ck);
    var elems' := elems[id := CellElem(c, ci, cj, ck)];
    var bs' := bs + Tagged(id, tags);
    SidesOfTagged(id, tags, id);
    forall b | b in bs'
      ensures b.elem < id + 1
    {
    }
    forall ci2, cj2, ck2 | CellInGrid(c.nx, c.ny, c.nz, ci2, cj2, ck2) && ElemIdOf(c, ci2, cj2, ck2) < id + 1
      ensures && ElemIdOf(c, ci2, cj2, ck2) in elems'
              && elems'[ElemIdOf(c, ci2, cj2, ck2)] == CellElem(c, ci2, cj2, ck2)
              && SidesOf(bs', ElemIdOf(c, ci2, cj2, ck2)) == ElemTags(c.etype, c.nx, c.ny, c.nz, c.frac, ci2, cj2, ck2)
    {
      var id2 := ElemIdOf(c, ci2, cj2, ck2);
      SidesOfConcat(bs, Tagged(id, tags), id2);
      SidesOfTagged(id, tags, id2);
      if id2 == id {
        LexInjective(c.nx, c.ny, ci2, cj2, ck2, ci, cj, ck);
        SidesOfNone(bs, id);
      }
    }
  }

  /** No entry of bs names element e when every entry names an earlier one. */
  lemma {:induction false} SidesOfNone(bs: seq<BoundarySide>, e: nat)
    requires forall b :: b in bs ==> b.elem < e
    ensures SidesOf(bs, e) == []
    decreases |bs|
  {
    if bs != [] {
      assert bs[|bs| - 1] in bs;
      SidesOfNone(bs[..|bs| - 1], e);
    }
  }

  /** Creates the nodes, k outermost and i innermost, numbering them with a running counter. */
  method BuildNodes(mesh: Mesh, c: Cube)
    requires IsHex(c.etype) && mesh.nodes == map[]
    modifies mesh
    ensures NodesBuilt(mesh.nodes, c, NodeCount(c.etype, c.nx, c.ny, c.nz))
    ensures mesh.elems == old(mesh.elems) && mesh.boundary == old(mesh.boundary)
    ensures mesh.meshDimension == old(mesh.meshDimension) && mesh.spatialDimension == old(mesh.spatialDimension)
    ensures mesh.reservedElems == old(mesh.reservedElems) && mesh.reservedNodes == old(mesh.reservedNodes)
  {
    var w, h, d := PointsAlong(c.etype, c.nx), PointsAlong(c.etype, c.ny), PointsAlong(c.etype, c.nz);
    var nodeId := 0;
    var k := 0;
    while k < d
      invariant k <= d
      invariant nodeId == Lex(w, h, 0, 0, k)
      invariant NodesBuilt(mesh.nodes, c, nodeId)
      invariant mesh.elems == old(mesh.elems) && mesh.boundary == old(mesh.boundary)
      invariant mesh.meshDimension == old(mesh.meshDimension) && mesh.spatialDimension == old(mesh.spatialDimension)
      invariant mesh.reservedElems == old(mesh.reservedElems) && mesh.reservedNodes == old(mesh.reservedNodes)
    {
      var j := 0;
      while j < h
        invariant j <= h
        invariant nodeId == Lex(w, h, 0, j, k)
        invariant NodesBuilt(mesh.nodes, c, nodeId)
        invariant mesh.elems == old(mesh.elems) && mesh.boundary == old(mesh.boundary)
        invariant mesh.meshDimension == old(mesh.meshDimension) && mesh.spatialDimension == old(mesh.spatialDimension)
        invariant mesh.reservedElems == old(mesh.reservedElems) && mesh.reservedNodes == old(mesh.reservedNodes)
      {
        var i := 0;
        while i < w
          invariant i <= w
          invariant nodeId == Lex(w, h, i, j, k)
          invariant NodesBuilt(mesh.nodes, c, nodeId)
          invariant mesh.elems == old(mesh.elems) && mesh.boundary == old(mesh.boundary)
          invariant mesh.meshDimension == old(mesh.meshDimension) && mesh.spatialDimension == old(mesh.spatialDimension)
          invariant mesh.reservedElems == old(mesh.reservedElems) && mesh.reservedNodes == old(mesh.reservedNodes)
        {
          NodesBuiltStep(mesh.nodes, c, i, j, k);
          mesh.AddPoint(NodePoint(c, i, j, k), nodeId);
          nodeId := nodeId + 1;
          i := i + 1;
        }
        LexNextRow(w, h, j, k);
        j := j + 1;
      }
      LexNextLayer(w, h, k);
      k := k + 1;
    }
    LexEnd(w, h, d);
  }

  /**
   * Adds the element whose first corner is grid point (i, j, k), then its
   * face tags and, on the Dirichlet band, its Dirichlet tags.
   */
  method AddHexElement(mesh: Mesh, c: Cube, i: nat, j: nat, k: nat, elemId: nat)
    requires IsHex(c.etype)
    modifies mesh
    ensures mesh.elems == old(mesh.elems)[elemId := Elem(elemId, c.etype, ElemNodes(c.etype, c.nx, c.ny, i, j, k))]
    ensures mesh.boundary == old(mesh.boundary) + Tagged(elemId,
              CellTags(i, j, k, Stride(c.etype) * (c.nx - 1), Stride(c.etype) * (c.ny - 1), Stride(c.etype) * (c.nz - 1),
                       DirichletRow(j, c.frac, Stride(c.etype) * c.ny)))
    ensures mesh.nodes == old(mesh.nodes)
    ensures mesh.meshDimension == old(mesh.meshDimension) && mesh.spatialDimension == old(mesh.spatialDimension)
    ensures mesh.reservedElems == old(mesh.reservedElems) && mesh.reservedNodes == old(mesh.reservedNodes)
  {
    var st := Stride(c.etype);
    var li, lj, lk := st * (c.nx - 1), st * (c.ny - 1), st * (c.nz - 1);
    var band := DirichletRow(j, c.frac, st * c.ny);
    mesh.AddElem(Elem(elemId, c.etype, ElemNodes(c.etype, c.nx, c.ny, i, j, k)));
    ghost var pre := mesh.boundary;
    AddFaceSides(mesh, elemId, i, j, k, li, lj, lk);
    AddBandSides(mesh, elemId, i, k, li, lk, band);
    ghost var faces, bands := FaceTags(i, j, k, li, lj, lk), BandTags(i, k, li, lk, band);
    TaggedConcat(elemId, faces, bands);
    AppendAssoc(pre, Tagged(elemId, faces), Tagged(elemId, bands));
    assert CellTags(i, j, k, li, lj, lk, band) == faces + bands;
  }

  /** Tags side `t.side` of element `e` with boundary id `t.id` when `cond` holds, as each guarded `add_side` call does. */
  method AddSideIf(mesh: Mesh, e: nat, cond: bool, t: SideTag, ghost pre: seq<BoundarySide>, ghost ts: seq<SideTag>)
    requires mesh.boundary == pre + Tagged(e, ts)
    modifies mesh
    ensures mesh.boundary == pre + Tagged(e, ts + (if cond then [t] else []))
    ensures mesh.nodes == old(mesh.nodes) && mesh.elems == old(mesh.elems)
    ensures mesh.meshDimension == old(mesh.meshDimension) && mesh.spatialDimension == old(mesh.spatialDimension)
    ensures mesh.reservedElems == old(mesh.reservedElems) && mesh.reservedNodes == old(mesh.reservedNodes)
  {
    TaggedStep(pre, e, ts, cond, t);
    if cond {
      mesh.AddSide(e, t.side, t.id);
    }
  }

  /** The boundary tags of an element on the faces of the panel. */
  method AddFaceSides(mesh: Mesh, elemId: nat, i: nat, j: nat, k: nat, li: int, lj: int, lk: int)
    modifies mesh
    ensures mesh.boundary == old(mesh.boundary) + Tagged(elemId, FaceTags(i, j, k, li, lj, lk))
    ensures mesh.nodes == old(mesh.nodes) && mesh.elems == old(mesh.elems)
    ensures mesh.meshDimension == old(mesh.meshDimension) && mesh.spatialDimension == old(mesh.spatialDimension)
    ensures mesh.reservedElems == old(mesh.reservedElems) && mesh.reservedNodes == old(mesh.reservedNodes)
  {
    ghost var pre := mesh.boundary;
    ghost var added: seq<SideTag> := [];
    assert pre + Tagged(elemId, added) == pre;
    AddSideIf(mesh, elemId, k == 0, SideTag(0, 0), pre, added);
    added := added + (if k == 0 then [SideTag(0, 0)] else []);
    assert added == (if k == 0 then [SideTag(0, 0)] else []);
    AddSideIf(mesh, elemId, k == lk, SideTag(5, 5), pre, added);
    added := added + (if k == lk then [SideTag(5, 5)] else []);
    AddSideIf(mesh, elemId, j == 0, SideTag(1, 1), pre, added);
    added := added + (if j == 0 then [SideTag(1, 1)] else []);
    AddSideIf(mesh, elemId, j == lj, SideTag(3, 3), pre, added);
    added := added + (if j == lj then [SideTag(3, 3)] else []);
    AddSideIf(mesh, elemId, i == 0, SideTag(4, 4), pre, added);
    added := added + (if i == 0 then [SideTag(4, 4)] else []);
    AddSideIf(mesh, elemId, i == li, SideTag(2, 2), pre, added);
    added := added + (if i == li then [SideTag(2, 2)] else []);
    assert added == FaceTags(i, j, k, li, lj, lk);
  }

  /** The Dirichlet tags of an element whose row is in the Dirichlet band (`band`, rows with j >= (1 - frac) * ny). */
  method AddBandSides(mesh: Mesh, elemId: nat, i: nat, k: nat, li: int, lk: int, band: bool)
    modifies mesh
    ensures mesh.boundary == old(mesh.boundary) + Tagged(elemId, BandTags(i, k, li, lk, band))
    ensures mesh.nodes == old(mesh.nodes) && mesh.elems == old(mesh.elems)
    ensures mesh.meshDimension == old(mesh.meshDimension) && mesh.spatialDimension == old(mesh.spatialDimension)
    ensures mesh.reservedElems == old(mesh.reservedElems) && mesh.reservedNodes == old(mesh.reservedNodes)
  {
    ghost var pre := mesh.boundary;
    ghost var added: seq<SideTag> := [];
    assert pre + Tagged(elemId, added) == pre;
    AddSideIf(mesh, elemId, k == 0 && band, SideTag(0, 6), pre, added);
    added := added + (if k == 0 && band then [SideTag(0, 6)] else []);
    assert added == (if k == 0 && band then [SideTag(0, 6)] else []);
    AddSideIf(mesh, elemId, i == li && band, SideTag(2, 7), pre, added);
    added := added + (if i == li && band then [SideTag(2, 7)] else []);
    AddSideIf(mesh, elemId, i == 0 && band, SideTag(4, 8), pre, added);
    added := added + (if i == 0 && band then [SideTag(4, 8)] else []);
    AddSideIf(mesh, elemId, k == lk && band, SideTag(5, 9), pre, added);
    added := added + (if k == lk && band then [SideTag(5, 9)] else []);
    assert added == BandTags(i, k, li, lk, band);
  }

  /**
   * Adds the element of cell (ci, cj, ck) with the next id. The HEX27 loops
   * step their grid counters by 2, so the first corner is the stride times
   * the cell index.
   */
  method AddCellElement(mesh: Mesh, c: Cube, ci: nat, cj: nat, ck: nat)
    requires IsHex(c.etype) && CellInGrid(c.nx, c.ny, c.nz, ci, cj, ck)
    requires ElemsBuilt(mesh.elems, mesh.boundary, c, ElemIdOf(c, ci, cj, ck))
    modifies mesh
    ensures ElemsBuilt(mesh.elems, mesh.boundary, c, ElemIdOf(c, ci, cj, ck) + 1)
    ensures mesh.nodes == old(mesh.nodes)
    ensures mesh.meshDimension == old(mesh.meshDimension) && mesh.spatialDimension == old(mesh.spatialDimension)
    ensures mesh.reservedElems == old(mesh.reservedElems) && mesh.reservedNodes == old(mesh.reservedNodes)
  {
    var st := Stride(c.etype);
    var id := ElemIdOf(c, ci, cj, ck);
    ghost var tags := ElemTags(c.etype, c.nx, c.ny, c.nz, c.frac, ci, cj, ck);
    ElemsBuiltStep(mesh.elems, mesh.boundary, c, ci, cj, ck);
    AddHexElement(mesh, c, st * ci, st * cj, st * ck, id);
    assert mesh.elems == old(mesh.elems)[id := CellElem(c, ci, cj, ck)];
    assert mesh.boundary == old(mesh.boundary) + Tagged(id, tags);
  }

  /** Creates one element per cell, k outermost and i innermost, with consecutive ids from 0. */
  method BuildElems(mesh: Mesh, c: Cube)
    requires IsHex(c.etype) && mesh.elems == map[] && mesh.boundary == []
    modifies mesh
    ensures ElemsBuilt(mesh.elems, mesh.boundary, c, c.nx * c.ny * c.nz)
    ensures mesh.nodes == old(mesh.nodes)
    ensures mesh.meshDimension == old(mesh.meshDimension) && mesh.spatialDimension == old(mesh.spatialDimension)
    ensures mesh.reservedElems == old(mesh.reservedElems) && mesh.reservedNodes == old(mesh.reservedNodes)
  {
    var elemId := 0;
    var ck := 0;
    while ck < c.nz
      invariant ck <= c.nz
      invariant elemId == Lex(c.nx, c.ny, 0, 0, ck)
      invariant ElemsBuilt(mesh.elems, mesh.boundary, c, elemId)
      invariant mesh.nodes == old(mesh.nodes)
      invariant mesh.meshDimension == old(mesh.meshDimension) && mesh.spatialDimension == old(mesh.spatialDimension)
      invariant mesh.reservedElems == old(mesh.reservedElems) && mesh.reservedNodes == old(mesh.reservedNodes)
    {
      var cj := 0;
      while cj < c.ny
        invariant cj <= c.ny
        invariant elemId == Lex(c.nx, c.ny, 0, cj, ck)
        invariant ElemsBuilt(mesh.elems, mesh.boundary, c, elemId)
        invariant mesh.nodes == old(mesh.nodes)
        invariant mesh.meshDimension == old(mesh.meshDimension) && mesh.spatialDimension == old(mesh.spatialDimension)
        invariant mesh.reservedElems == old(mesh.reservedElems) && mesh.reservedNodes == old(mesh.reservedNodes)
      {
        var ci := 0;
        while ci < c.nx
          invariant ci <= c.nx
          invariant elemId == Lex(c.nx, c.ny, ci, cj, ck)
          invariant ElemsBuilt(mesh.elems, mesh.boundary, c, elemId)
          invariant mesh.nodes == old(mesh.nodes)
          invariant mesh.meshDimension == old(mesh.meshDimension) && mesh.spatialDimension == old(mesh.spatialDimension)
          invariant mesh.reservedElems == old(mesh.reservedElems) && mesh.reservedNodes == old(mesh.reservedNodes)
        {
          AddCellElement(mesh, c, ci, cj, ck);
          elemId := elemId + 1;
          ci := ci + 1;
        }
        LexNextRow(c.nx, c.ny, cj, ck);
        cj := cj + 1;
      }
      LexNextLayer(c.nx, c.ny, ck);
      ck := ck + 1;
    }
    LexEnd(c.nx, c.ny, c.nz);
  }

  /** Once every id below the node count is built, every grid point is in place. */
  lemma {:induction false} NodesComplete(nodes: map<nat, Point>, c: Cube, i: nat, j: nat, k: nat)
    requires IsHex(c.etype) && NodesBuilt(nodes, c, NodeCount(c.etype, c.nx, c.ny, c.nz))
    requires GridPointIn(c, i, j, k)
    ensures NodeIdOf(c, i, j, k) in nodes && nodes[NodeIdOf(c, i, j, k)] == NodePoint(c, i, j, k)
  {
    LexBound(PointsAlong(c.etype, c.nx), PointsAlong(c.etype, c.ny), PointsAlong(c.etype, c.nz), i, j, k);
  }

  /** Once every id below the cell count is built, every cell's element and tags are in place. */
  lemma {:induction false} ElemsComplete(elems: map<nat, Elem>, bs: seq<BoundarySide>, c: Cube, ci: nat, cj: nat, ck: nat)
    requires IsHex(c.etype) && ElemsBuilt(elems, bs, c, c.nx * c.ny * c.nz)
    requires CellInGrid(c.nx, c.ny, c.nz, ci, cj, ck)
    ensures ElemIdOf(c, ci, cj, ck) in elems && elems[ElemIdOf(c, ci, cj, ck)] == CellElem(c, ci, cj, ck)
    ensures SidesOf(bs, ElemIdOf(c, ci, cj, ck)) == ElemTags(c.etype, c.nx, c.ny, c.nz, c.frac, ci, cj, ck)
  {
    LexBound(c.nx, c.ny, c.nz, ci, cj, ck);
  }

  /** Every node an element refers to is one of the nodes created. */
  lemma {:induction false} CellNodesExist(nodes: map<nat, Point>, c: Cube, ci: nat, cj: nat, ck: nat)
    requires IsHex(c.etype) && NodesBuilt(nodes, c, NodeCount(c.etype, c.nx, c.ny, c.nz))
    requires CellInGrid(c.nx, c.ny, c.nz, ci, cj, ck)
    ensures forall s :: 0 <= s < |CellElem(c, ci, cj, ck).nodes| ==> CellElem(c, ci, cj, ck).nodes[s] in nodes
  {
    ElemNodesPermuteBlock(c.etype, c.nx, c.ny, c.nz, ci, cj, ck);
  }

  /**
   * Builds the nx x ny x nz panel of HEX8 or HEX27 elements over
   * [0, length] x [0, height] x [0, width]. Any other element type is
   * refused and the mesh is left as it was.
   */
  method BuildCube(mesh: Mesh, nx: nat, ny: nat, nz: nat, length: real, height: real, width: real,
                   frac: real, t: ElemType) returns (out: Outcome)
    modifies mesh
    ensures !IsHex(t) ==> out == Fail("Method only implemented for Hex8/Hex27")
    ensures !IsHex(t) ==> unchanged(mesh)
    ensures IsHex(t) ==> out == Pass
    ensures IsHex(t) ==> mesh.meshDimension == 3 && mesh.spatialDimension == 3
    ensures IsHex(t) ==> mesh.reservedElems == nx * ny * nz && mesh.reservedNodes == NodeCount(t, nx, ny, nz)
    ensures IsHex(t) ==> NodesBuilt(mesh.nodes, Cube(nx, ny, nz, length, height, width, frac, t), NodeCount(t, nx, ny, nz))
    ensures IsHex(t) ==> ElemsBuilt(mesh.elems, mesh.boundary, Cube(nx, ny, nz, length, height, width, frac, t), nx * ny * nz)
  {
    if !IsHex(t) {
      return Fail("Method only implemented for Hex8/Hex27");
    }
    mesh.Clear();
    mesh.meshDimension := 3;
    mesh.spatialDimension := 3;
    mesh.reservedElems := nx * ny * nz;
    if t == HEX8 {
      mesh.reservedNodes := (nx + 1) * (ny + 1) * (nz + 1);
    } else {
      mesh.reservedNodes := (2 * nx + 1) * (2 * ny + 1) * (2 * nz + 1);
    }
    assert mesh.reservedNodes == NodeCount(t, nx, ny, nz);
    var c := Cube(nx, ny, nz, length, height, width, frac, t);
    BuildNodes(mesh, c);
    ghost var built := mesh.nodes;
    BuildElems(mesh, c);
    assert mesh.nodes == built;
    out := Pass;
  }

  /** The Dirichlet boundaries registered with the degree-of-freedom map of the analysis system. */
  class DofMap {
    var dirichlet: seq<DirichletBoundary>

    constructor ()
      ensures dirichlet == []
    {
      dirichlet := [];
    }
  }

  /** Constrains variables 0, 1 and 2 to zero on boundary ids 6 to 9, the Dirichlet tags of the panel. */
  method InitAnalysisDirichletConditions(dofMap: DofMap)
    modifies dofMap
    ensures dofMap.dirichlet == old(dofMap.dirichlet) + [AnalysisDirichletBoundary()]
  {
    dofMap.dirichlet := dofMap.dirichlet + [DirichletBoundary({6, 7, 8, 9}, {0, 1, 2})];
  }
}
