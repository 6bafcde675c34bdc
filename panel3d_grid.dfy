/**
 * Integer layout of the structured hexahedral panel mesh: the lexicographic
 * node numbering `idx`, the position of every element node inside the
 * element's block of grid points, the boundary and Dirichlet side tags an
 * element receives, the Dirichlet boundary the analysis constrains, and
 * the reference volume of the panel.
 */
module Panel3DGrid {
  import opened Common

  /** The geometric element types the mesh generator can be asked for. */
  datatype ElemType = EDGE2 | QUAD4 | TET4 | TET10 | HEX8 | HEX20 | HEX27

  predicate IsHex(t: ElemType) { t == HEX8 || t == HEX27 }

  /** A user input read by name, with the default used when it is not given. */
  function Input(params: map<string, real>, name: string, default: real): real
  {
    if name in params then params[name] else default
  }

  /** Volume of the panel: length times height times width, with their defaults. */
  function ReferenceVolume(params: map<string, real>): real
  {
    Input(params, "length", 0.3) * Input(params, "height", 0.03) * Input(params, "width", 0.3)
  }

  lemma ReferenceVolumeDefault()
    ensures ReferenceVolume(map[]) == 0.0027
  {
  }

  /** The cells of a uniform nx x ny x nz subdivision of the panel fill exactly its reference volume. */
  lemma CellVolumesFillReferenceVolume(params: map<string, real>, nx: nat, ny: nat, nz: nat)
    requires nx > 0 && ny > 0 && nz > 0
    ensures var l := Input(params, "length", 0.3);
            var h := Input(params, "height", 0.03);
            var w := Input(params, "width", 0.3);
            ((nx * ny * nz) as real) * ((l / nx as real) * (h / ny as real) * (w / nz as real))
              == ReferenceVolume(params)
  {
    var l := Input(params, "length", 0.3);
    var h := Input(params, "height", 0.03);
    var w := Input(params, "width", 0.3);
    var a, b, c := nx as real, ny as real, nz as real;
    assert (nx * ny * nz) as real == a * b * c;
    assert a * (l / a) == l;
    assert b * (h / b) == h;
    assert c * (w / c) == w;
    calc {
      (a * b * c) * ((l / a) * (h / b) * (w / c));
      (a * (l / a)) * (b * (h / b)) * (c * (w / c));
      l * h * w;
    }
  }

  /** Lexicographic id of grid point (i, j, k) with w points per row and h rows per layer. */
  function Lex(w: nat, h: nat, i: nat, j: nat, k: nat): nat
  {
    i + w * (j + h * k)
  }

  /** Grid points per axis for n elements along it: corners only for HEX8, corners and mid-points for HEX27. */
  function PointsAlong(t: ElemType, n: nat): nat
    requires IsHex(t)
  {
    if t == HEX8 then n + 1 else 2 * n + 1
  }

  /** Grid steps per element along an axis: 1 for HEX8, 2 for HEX27. */
  function Stride(t: ElemType): nat
    requires IsHex(t)
  {
    if t == HEX8 then 1 else 2
  }

  /** The node id of grid point (i, j, k); any type other than HEX8 and HEX27 is an error. */
  function Idx(t: ElemType, nx: nat, ny: nat, i: nat, j: nat, k: nat): (r: Result<nat>)
    ensures r.Ok? <==> IsHex(t)
  {
    match t
    case HEX8 => Ok(Lex(nx + 1, ny + 1, i, j, k))
    case HEX27 => Ok(Lex(2 * nx + 1, 2 * ny + 1, i, j, k))
    case _ => Err("Invalid element type")
  }

  /** The number of nodes the generator reserves: the product of the points per axis. */
  function NodeCount(t: ElemType, nx: nat, ny: nat, nz: nat): nat
    requires IsHex(t)
  {
    PointsAlong(t, nx) * PointsAlong(t, ny) * PointsAlong(t, nz)
  }

  lemma MulMonotone(a: nat, b: nat, c: nat)
    requires b <= c
    ensures a * b <= a * c
  {
  }

  lemma MulStep(w: nat, a: nat, b: nat)
    requires a < b
    ensures w * a + w <= w * b
  {
    MulMonotone(w, a + 1, b);
    assert w * (a + 1) == w * a + w;
  }

  /** Splitting a number into a remainder below w and a multiple of w is unique. */
  lemma RowSplitUnique(w: nat, i: nat, m: nat, i2: nat, m2: nat)
    requires i < w && i2 < w
    requires i + w * m == i2 + w * m2
    ensures i == i2 && m == m2
  {
    if m < m2 {
      MulStep(w, m, m2);
      assert false;
    } else if m2 < m {
      MulStep(w, m2, m);
      assert false;
    }
  }

  /** Distinct points of a grid with w points per row and h rows per layer have distinct ids. */
  lemma LexInjective(w: nat, h: nat, i: nat, j: nat, k: nat, i2: nat, j2: nat, k2: nat)
    requires i < w && i2 < w && j < h && j2 < h
    requires Lex(w, h, i, j, k) == Lex(w, h, i2, j2, k2)
    ensures i == i2 && j == j2 && k == k2
  {
    RowSplitUnique(w, i, j + h * k, i2, j2 + h * k2);
    RowSplitUnique(h, j, k, j2, k2);
  }

  /** Every point of a w x h x d grid has an id below w * h * d. */
  lemma LexBound(w: nat, h: nat, d: nat, i: nat, j: nat, k: nat)
    requires i < w && j < h && k < d
    ensures Lex(w, h, i, j, k) < w * h * d
  {
    MulMonotone(h, k + 1, d);
    assert h * (k + 1) == h * k + h;
    MulMonotone(w, j + h * k + 1, h * d);
    assert w * (j + h * k + 1) == w * (j + h * k) + w;
    assert w * (h * d) == w * h * d;
  }

  /** Finishing a row continues with the first point of the next row. */
  lemma LexNextRow(w: nat, h: nat, j: nat, k: nat)
    ensures Lex(w, h, w, j, k) == Lex(w, h, 0, j + 1, k)
  {
    assert w * (j + 1 + h * k) == w * (j + h * k) + w;
  }

  /** Finishing a layer continues with the first point of the next layer. */
  lemma LexNextLayer(w: nat, h: nat, k: nat)
    ensures Lex(w, h, 0, h, k) == Lex(w, h, 0, 0, k + 1)
  {
    assert h * (k + 1) == h + h * k;
  }

  /** Finishing the last layer has counted every point of the grid. */
  lemma LexEnd(w: nat, h: nat, d: nat)
    ensures Lex(w, h, 0, 0, d) == w * h * d
  {
    assert w * (h * d) == w * h * d;
  }

  /** idx gives distinct grid points distinct ids, for HEX8 and HEX27 alike. */
  lemma IdxInjective(t: ElemType, nx: nat, ny: nat, i: nat, j: nat, k: nat, i2: nat, j2: nat, k2: nat)
    requires IsHex(t)
    requires i < PointsAlong(t, nx) && i2 < PointsAlong(t, nx)
    requires j < PointsAlong(t, ny) && j2 < PointsAlong(t, ny)
    requires Idx(t, nx, ny, i, j, k) == Idx(t, nx, ny, i2, j2, k2)
    ensures i == i2 && j == j2 && k == k2
  {
    LexInjective(PointsAlong(t, nx), PointsAlong(t, ny), i, j, k, i2, j2, k2);
  }

  /** idx stays below the number of reserved nodes on the whole grid. */
  lemma IdxBound(t: ElemType, nx: nat, ny: nat, nz: nat, i: nat, j: nat, k: nat)
    requires IsHex(t)
    requires i < PointsAlong(t, nx) && j < PointsAlong(t, ny) && k < PointsAlong(t, nz)
    ensures Idx(t, nx, ny, i, j, k).Ok? && Idx(t, nx, ny, i, j, k).value < NodeCount(t, nx, ny, nz)
  {
    LexBound(PointsAlong(t, nx), PointsAlong(t, ny), PointsAlong(t, nz), i, j, k);
  }

  /** Offset of an element node from the element's first corner, in grid steps along x, y and z. */
  datatype Offset = Offset(dx: nat, dy: nat, dz: nat)

  /** Grid offsets of HEX8 nodes 0..7, in the order the generator assigns them. */
  const Hex8Corners: seq<Offset> := [
    Offset(0, 0, 0), Offset(1, 0, 0), Offset(1, 1, 0), Offset(0, 1, 0),
    Offset(0, 0, 1), Offset(1, 0, 1), Offset(1, 1, 1), Offset(0, 1, 1)]

  /** Grid offset of HEX27 node s (s < 27) on the doubled grid, in the order the generator assigns them. */
  function Hex27Slot(s: nat): Offset
  {
    if s == 0 then Offset(0, 0, 0)
    else if s == 1 then Offset(2, 0, 0)
    else if s == 2 then Offset(2, 2, 0)
    else if s == 3 then Offset(0, 2, 0)
    else if s == 4 then Offset(0, 0, 2)
    else if s == 5 then Offset(2, 0, 2)
    else if s == 6 then Offset(2, 2, 2)
    else if s == 7 then Offset(0, 2, 2)
    else if s == 8 then Offset(1, 0, 0)
    else if s == 9 then Offset(2, 1, 0)
    else if s == 10 then Offset(1, 2, 0)
    else if s == 11 then Offset(0, 1, 0)
    else if s == 12 then Offset(0, 0, 1)
    else if s == 13 then Offset(2, 0, 1)
    else if s == 14 then Offset(2, 2, 1)
    else if s == 15 then Offset(0, 2, 1)
    else if s == 16 then Offset(1, 0, 2)
    else if s == 17 then Offset(2, 1, 2)
    else if s == 18 then Offset(1, 2, 2)
    else if s == 19 then Offset(0, 1, 2)
    else if s == 20 then Offset(1, 1, 0)
    else if s == 21 then Offset(1, 0, 1)
    else if s == 22 then Offset(2, 1, 1)
    else if s == 23 then Offset(1, 2, 1)
    else if s == 24 then Offset(0, 1, 1)
    else if s == 25 then Offset(1, 1, 2)
    else Offset(1, 1, 1)
  }

  /** The offsets of HEX27 nodes 0..26 as a sequence. */
  function Hex27Slots(): seq<Offset>
  {
    seq(27, s requires 0 <= s => Hex27Slot(s))
  }

  function Offsets(t: ElemType): seq<Offset>
    requires IsHex(t)
  {
    if t == HEX8 then Hex8Corners else Hex27Slots()
  }

  /** Position of an offset inside a 3 x 3 x 3 block, x fastest. */
  function BlockCode(o: Offset): nat
  {
    o.dx + 3 * o.dy + 9 * o.dz
  }

  /** The HEX27 slot holding block position c (c < 27), indexed by BlockCode. */
  function Hex27SlotOfCode(c: nat): nat
  {
    if c == 0 then 0
    else if c == 1 then 8
    else if c == 2 then 1
    else if c == 3 then 11
    else if c == 4 then 20
    else if c == 5 then 9
    else if c == 6 then 3
    else if c == 7 then 10
    else if c == 8 then 2
    else if c == 9 then 12
    else if c == 10 then 21
    else if c == 11 then 13
    else if c == 12 then 24
    else if c == 13 then 26
    else if c == 14 then 22
    else if c == 15 then 15
    else if c == 16 then 23
    else if c == 17 then 14
    else if c == 18 then 4
    else if c == 19 then 16
    else if c == 20 then 5
    else if c == 21 then 19
    else if c == 22 then 25
    else if c == 23 then 17
    else if c == 24 then 7
    else if c == 25 then 18
    else 6
  }

  predicate InBlock(o: Offset, n: nat)
  {
    o.dx < n && o.dy < n && o.dz < n
  }

  predicate SlotRoundTrip(s: nat)
    requires s < 27
  {
    InBlock(Hex27Slot(s), 3) && Hex27SlotOfCode(BlockCode(Hex27Slot(s))) == s
  }

  predicate CodeRoundTrip(c: nat)
    requires c < 27
  {
    Hex27SlotOfCode(c) < 27 && BlockCode(Hex27Slot(Hex27SlotOfCode(c))) == c
  }

  /** Each of the 27 slots round-trips through its block code, checked slot by slot. */
  lemma SlotRoundTripAt(s: nat)
    requires s < 27
    ensures SlotRoundTrip(s)
  {
    match s
    case 0 => {}
    case 1 => {}
    case 2 => {}
    case 3 => {}
    case 4 => {}
    case 5 => {}
    case 6 => {}
    case 7 => {}
    case 8 => {}
    case 9 => {}
    case 10 => {}
    case 11 => {}
    case 12 => {}
    case 13 => {}
    case 14 => {}
    case 15 => {}
    case 16 => {}
    case 17 => {}
    case 18 => {}
    case 19 => {}
    case 20 => {}
    case 21 => {}
    case 22 => {}
    case 23 => {}
    case 24 => {}
    case 25 => {}
    case _ => {}
  }

  /** Each of the 27 block codes round-trips through its slot, checked code by code. */
  lemma CodeRoundTripAt(c: nat)
    requires c < 27
    ensures CodeRoundTrip(c)
  {
    match c
    case 0 => {}
    case 1 => {}
    case 2 => {}
    case 3 => {}
    case 4 => {}
    case 5 => {}
    case 6 => {}
    case 7 => {}
    case 8 => {}
    case 9 => {}
    case 10 => {}
    case 11 => {}
    case 12 => {}
    case 13 => {}
    case 14 => {}
    case 15 => {}
    case 16 => {}
    case 17 => {}
    case 18 => {}
    case 19 => {}
    case 20 => {}
    case 21 => {}
    case 22 => {}
    case 23 => {}
    case 24 => {}
    case 25 => {}
    case _ => {}
  }

  lemma AllSlotRoundTrips()
    ensures forall s :: 0 <= s < 27 ==> SlotRoundTrip(s)
  {
    forall s | 0 <= s < 27 ensures SlotRoundTrip(s) {
      SlotRoundTripAt(s);
    }
  }

  lemma AllCodeRoundTrips()
    ensures forall c :: 0 <= c < 27 ==> CodeRoundTrip(c)
  {
    forall c | 0 <= c < 27 ensures CodeRoundTrip(c) {
      CodeRoundTripAt(c);
    }
  }

  lemma Hex27SlotsDistinct()
    ensures forall s, s2 :: 0 <= s < 27 && 0 <= s2 < 27 && Hex27Slots()[s] == Hex27Slots()[s2] ==> s == s2
  {
    AllSlotRoundTrips();
  }

  lemma BlockCodeInjective(o: Offset, o2: Offset)
    requires InBlock(o, 3) && InBlock(o2, 3) && BlockCode(o) == BlockCode(o2)
    ensures o == o2
  {
  }

  lemma Hex27SlotCovers(o: Offset)
    requires InBlock(o, 3)
    ensures o in Hex27Slots()
  {
    var c := BlockCode(o);
    CodeRoundTripAt(c);
    var s := Hex27SlotOfCode(c);
    SlotRoundTripAt(s);
    BlockCodeInjective(Hex27Slot(s), o);
    assert Hex27Slots()[s] == o;
  }

  lemma Hex27SlotsCoverBlock()
    ensures forall o :: InBlock(o, 3) ==> o in Hex27Slots()
  {
    forall o | InBlock(o, 3)
      ensures o in Hex27Slots()
    {
      Hex27SlotCovers(o);
    }
  }

  /** The 27 HEX27 slots are a permutation of the 3 x 3 x 3 block of grid offsets. */
  lemma Hex27SlotsPermuteBlock()
    ensures |Hex27Slots()| == 27
    ensures forall s :: 0 <= s < 27 ==> InBlock(Hex27Slots()[s], 3)
    ensures forall s, s2 :: 0 <= s < 27 && 0 <= s2 < 27 && Hex27Slots()[s] == Hex27Slots()[s2] ==> s == s2
    ensures forall o :: InBlock(o, 3) ==> o in Hex27Slots()
  {
    AllSlotRoundTrips();
    Hex27SlotsDistinct();
    Hex27SlotsCoverBlock();
  }

  /** The eight HEX8 corners are a permutation of the 2 x 2 x 2 block of grid offsets. */
  lemma Hex8CornersPermuteBlock()
    ensures |Hex8Corners| == 8
    ensures forall s :: 0 <= s < 8 ==> InBlock(Hex8Corners[s], 2)
    ensures forall s, s2 :: 0 <= s < 8 && 0 <= s2 < 8 && Hex8Corners[s] == Hex8Corners[s2] ==> s == s2
    ensures forall o :: InBlock(o, 2) ==> o in Hex8Corners
  {
    forall o | InBlock(o, 2)
      ensures o in Hex8Corners
    {
      assert o.dx == 0 || o.dx == 1;
      assert o.dy == 0 || o.dy == 1;
      assert o.dz == 0 || o.dz == 1;
    }
  }

  /** HEX27 nodes 0..7 are the HEX8 corners at twice the offset: the first eight nodes are the vertices. */
  lemma Hex27VerticesFirst()
    ensures forall s :: 0 <= s < 8 ==>
      Hex27Slots()[s] == Offset(2 * Hex8Corners[s].dx, 2 * Hex8Corners[s].dy, 2 * Hex8Corners[s].dz)
  {
  }

  /** Ids of the grid points reached from (i, j, k) by each offset in turn. */
  function NodesAt(w: nat, h: nat, i: nat, j: nat, k: nat, offs: seq<Offset>): seq<nat>
  {
    seq(|offs|, s requires 0 <= s < |offs| => Lex(w, h, i + offs[s].dx, j + offs[s].dy, k + offs[s].dz))
  }

  /**
   * Node ids of the element whose first corner is grid point (i, j, k):
   * entry s is idx of that corner moved by the offset of node s.
   */
  function ElemNodes(t: ElemType, nx: nat, ny: nat, i: nat, j: nat, k: nat): seq<nat>
    requires IsHex(t)
  {
    NodesAt(PointsAlong(t, nx), PointsAlong(t, ny), i, j, k, Offsets(t))
  }

  /** The offsets of an element's nodes enumerate the n x n x n block without repetition. */
  ghost predicate PermutesBlock(offs: seq<Offset>, n: nat)
  {
    && (forall s :: 0 <= s < |offs| ==> InBlock(offs[s], n))
    && (forall s, s2 :: 0 <= s < |offs| && 0 <= s2 < |offs| && offs[s] == offs[s2] ==> s == s2)
    && (forall o :: InBlock(o, n) ==> o in offs)
  }

  lemma OffsetsPermuteBlock(t: ElemType)
    requires IsHex(t)
    ensures PermutesBlock(Offsets(t), Stride(t) + 1)
  {
    if t == HEX8 { Hex8CornersPermuteBlock(); } else { Hex27SlotsPermuteBlock(); }
  }

  /** No id occurs twice. */
  predicate Distinct(ns: seq<nat>)
  {
    forall s, s2 :: 0 <= s < |ns| && 0 <= s2 < |ns| && ns[s] == ns[s2] ==> s == s2
  }

  /** Every id is below n: every referenced node exists among n nodes. */
  predicate AllBelow(ns: seq<nat>, n: nat)
  {
    forall s :: 0 <= s < |ns| ==> ns[s] < n
  }

  /** Every point of the n x n x n block at (i, j, k) is among the ids. */
  ghost predicate CoversBlock(ns: seq<nat>, w: nat, h: nat, i: nat, j: nat, k: nat, n: nat)
  {
    forall o :: InBlock(o, n) ==> Lex(w, h, i + o.dx, j + o.dy, k + o.dz) in ns
  }

  lemma NodesAtDistinct(w: nat, h: nat, i: nat, j: nat, k: nat, offs: seq<Offset>, n: nat)
    requires PermutesBlock(offs, n) && i + n <= w && j + n <= h
    ensures Distinct(NodesAt(w, h, i, j, k, offs))
  {
    var ns := NodesAt(w, h, i, j, k, offs);
    forall s, s2 | 0 <= s < |offs| && 0 <= s2 < |offs| && ns[s] == ns[s2]
      ensures s == s2
    {
      LexInjective(w, h, i + offs[s].dx, j + offs[s].dy, k + offs[s].dz,
                   i + offs[s2].dx, j + offs[s2].dy, k + offs[s2].dz);
    }
  }

  lemma NodesAtBounded(w: nat, h: nat, d: nat, i: nat, j: nat, k: nat, offs: seq<Offset>, n: nat)
    requires PermutesBlock(offs, n) && i + n <= w && j + n <= h && k + n <= d
    ensures AllBelow(NodesAt(w, h, i, j, k, offs), w * h * d)
  {
    forall s | 0 <= s < |offs|
      ensures NodesAt(w, h, i, j, k, offs)[s] < w * h * d
    {
      LexBound(w, h, d, i + offs[s].dx, j + offs[s].dy, k + offs[s].dz);
    }
  }

  lemma NodesAtCoverBlock(w: nat, h: nat, i: nat, j: nat, k: nat, offs: seq<Offset>, n: nat)
    requires PermutesBlock(offs, n)
    ensures CoversBlock(NodesAt(w, h, i, j, k, offs), w, h, i, j, k, n)
  {
    var ns := NodesAt(w, h, i, j, k, offs);
    forall o | InBlock(o, n)
      ensures Lex(w, h, i + o.dx, j + o.dy, k + o.dz) in ns
    {
      var s :| 0 <= s < |offs| && offs[s] == o;
      assert ns[s] == Lex(w, h, i + o.dx, j + o.dy, k + o.dz);
    }
  }

  /** Whether (ci, cj, ck) is one of the nx x ny x nz cells of the panel. */
  predicate CellInGrid(nx: nat, ny: nat, nz: nat, ci: nat, cj: nat, ck: nat)
  {
    ci < nx && cj < ny && ck < nz
  }

  /**
   * The nodes of cell (ci, cj, ck), whose first corner is the cell index
   * times the stride, are distinct, all exist (their ids are below the node
   * count), and every point of the cell's block of grid points, 2 x 2 x 2
   * for HEX8 and 3 x 3 x 3 for HEX27, is one of them.
   */
  lemma ElemNodesPermuteBlock(t: ElemType, nx: nat, ny: nat, nz: nat, ci: nat, cj: nat, ck: nat)
    requires IsHex(t) && CellInGrid(nx, ny, nz, ci, cj, ck)
    ensures |ElemNodes(t, nx, ny, Stride(t) * ci, Stride(t) * cj, Stride(t) * ck)| == |Offsets(t)|
    ensures Distinct(ElemNodes(t, nx, ny, Stride(t) * ci, Stride(t) * cj, Stride(t) * ck))
    ensures AllBelow(ElemNodes(t, nx, ny, Stride(t) * ci, Stride(t) * cj, Stride(t) * ck), NodeCount(t, nx, ny, nz))
    ensures CoversBlock(ElemNodes(t, nx, ny, Stride(t) * ci, Stride(t) * cj, Stride(t) * ck),
                        PointsAlong(t, nx), PointsAlong(t, ny), Stride(t) * ci, Stride(t) * cj, Stride(t) * ck,
                        Stride(t) + 1)
  {
    var st := Stride(t);
    var w, h, d := PointsAlong(t, nx), PointsAlong(t, ny), PointsAlong(t, nz);
    OffsetsPermuteBlock(t);
    assert st * ci + st + 1 <= w && st * cj + st + 1 <= h && st * ck + st + 1 <= d;
    NodesAtDistinct(w, h, st * ci, st * cj, st * ck, Offsets(t), st + 1);
    NodesAtBounded(w, h, d, st * ci, st * cj, st * ck, Offsets(t), st + 1);
    NodesAtCoverBlock(w, h, st * ci, st * cj, st * ck, Offsets(t), st + 1);
  }

  /** A boundary tag: side `side` of an element carries boundary id `id`. */
  datatype SideTag = SideTag(side: nat, id: nat)

  /**
   * Whether grid row j lies in the Dirichlet band: j at least (1 - frac)
   * times the number of grid steps `rows` across the height.
   */
  predicate DirichletRow(j: nat, frac: real, rows: nat)
  {
    j as real >= (1.0 - frac) * rows as real
  }

  /** The face tags, in the order they are added, of the element at (i, j, k) with last indices li, lj, lk. */
  function FaceTags(i: nat, j: nat, k: nat, li: int, lj: int, lk: int): seq<SideTag>
  {
    (if k == 0 then [SideTag(0, 0)] else [])
    + (if k == lk then [SideTag(5, 5)] else [])
    + (if j == 0 then [SideTag(1, 1)] else [])
    + (if j == lj then [SideTag(3, 3)] else [])
    + (if i == 0 then [SideTag(4, 4)] else [])
    + (if i == li then [SideTag(2, 2)] else [])
  }

  /** The Dirichlet tags, in the order they are added, when `band` says the row is in the Dirichlet band. */
  function BandTags(i: nat, k: nat, li: int, lk: int, band: bool): seq<SideTag>
  {
    (if k == 0 && band then [SideTag(0, 6)] else [])
    + (if i == li && band then [SideTag(2, 7)] else [])
    + (if i == 0 && band then [SideTag(4, 8)] else [])
    + (if k == lk && band then [SideTag(5, 9)] else [])
  }

  /**
   * The side tags added, in order, to the element whose first corner is
   * (i, j, k) when the last first-corner index along each axis is li, lj,
   * lk and `band` says whether its row is in the Dirichlet band.
   */
  function CellTags(i: nat, j: nat, k: nat, li: int, lj: int, lk: int, band: bool): seq<SideTag>
  {
    FaceTags(i, j, k, li, lj, lk) + BandTags(i, k, li, lk, band)
  }

  predicate FaceRule(tag: SideTag, i: nat, j: nat, k: nat, li: int, lj: int, lk: int)
  {
    || (tag == SideTag(0, 0) && k == 0)
    || (tag == SideTag(5, 5) && k == lk)
    || (tag == SideTag(1, 1) && j == 0)
    || (tag == SideTag(3, 3) && j == lj)
    || (tag == SideTag(4, 4) && i == 0)
    || (tag == SideTag(2, 2) && i == li)
  }

  predicate BandRule(tag: SideTag, i: nat, k: nat, li: int, lk: int, band: bool)
  {
    && band
    && (|| (tag == SideTag(0, 6) && k == 0)
        || (tag == SideTag(2, 7) && i == li)
        || (tag == SideTag(4, 8) && i == 0)
        || (tag == SideTag(5, 9) && k == lk))
  }

  lemma CellTagsMembers(i: nat, j: nat, k: nat, li: int, lj: int, lk: int, band: bool, tag: SideTag)
    ensures tag in FaceTags(i, j, k, li, lj, lk) <==> FaceRule(tag, i, j, k, li, lj, lk)
    ensures tag in BandTags(i, k, li, lk, band) <==> BandRule(tag, i, k, li, lk, band)
    ensures tag in CellTags(i, j, k, li, lj, lk, band)
        <==> FaceRule(tag, i, j, k, li, lj, lk) || BandRule(tag, i, k, li, lk, band)
  {
  }

  /** The tags of cell (ci, cj, ck) as the generator computes them on the grid of type t. */
  function ElemTags(t: ElemType, nx: nat, ny: nat, nz: nat, frac: real, ci: nat, cj: nat, ck: nat): seq<SideTag>
    requires IsHex(t)
  {
    var st := Stride(t);
    CellTags(st * ci, st * cj, st * ck, st * (nx - 1), st * (ny - 1), st * (nz - 1),
             DirichletRow(st * cj, frac, st * ny))
  }

  lemma DirichletRowDoubled(j: nat, frac: real, rows: nat)
    ensures DirichletRow(2 * j, frac, 2 * rows) == DirichletRow(j, frac, rows)
  {
    var c := 1.0 - frac;
    assert (2 * j) as real == 2.0 * (j as real);
    assert (2 * rows) as real == 2.0 * (rows as real);
    assert c * (2.0 * (rows as real)) == 2.0 * (c * (rows as real));
  }

  lemma CellTagsDoubled(i: nat, j: nat, k: nat, nx: nat, ny: nat, nz: nat, band: bool)
    ensures CellTags(2 * i, 2 * j, 2 * k, 2 * (nx - 1), 2 * (ny - 1), 2 * (nz - 1), band)
         == CellTags(i, j, k, nx - 1, ny - 1, nz - 1, band)
  {
    assert FaceTags(2 * i, 2 * j, 2 * k, 2 * (nx - 1), 2 * (ny - 1), 2 * (nz - 1))
        == FaceTags(i, j, k, nx - 1, ny - 1, nz - 1);
    assert BandTags(2 * i, 2 * k, 2 * (nx - 1), 2 * (nz - 1), band)
        == BandTags(i, k, nx - 1, nz - 1, band);
  }

  /** HEX27 tags its cells exactly as HEX8 does: doubling the grid changes no tag. */
  lemma ElemTagsStrideFree(t: ElemType, nx: nat, ny: nat, nz: nat, frac: real, ci: nat, cj: nat, ck: nat)
    requires IsHex(t)
    ensures ElemTags(t, nx, ny, nz, frac, ci, cj, ck)
         == CellTags(ci, cj, ck, nx - 1, ny - 1, nz - 1, DirichletRow(cj, frac, ny))
  {
    if t == HEX27 {
      DirichletRowDoubled(cj, frac, ny);
      CellTagsDoubled(ci, cj, ck, nx, ny, nz, DirichletRow(cj, frac, ny));
    }
  }

  /** The faces of the panel's box, named as the side and node sets are (z out of the screen). */
  datatype Face = Back | Bottom | Right | Top | Left | Front

  /** The face a boundary id stands for: ids 0..5 are the faces, 6..9 their Dirichlet parts. */
  function FaceOfId(id: nat): Face
    requires id < 10
  {
    if id == 0 || id == 6 then Back
    else if id == 1 then Bottom
    else if id == 2 || id == 7 then Right
    else if id == 3 then Top
    else if id == 4 || id == 8 then Left
    else Front
  }

  /** Whether grid point (x, y, z) lies on face f of an nx x ny x nz box of grid steps. */
  predicate OnFace(f: Face, nx: nat, ny: nat, nz: nat, x: nat, y: nat, z: nat)
  {
    match f
    case Back => z == 0
    case Front => z == nz
    case Bottom => y == 0
    case Top => y == ny
    case Left => x == 0
    case Right => x == nx
  }

  /** libMesh's HEX8 side-to-node table: the four local nodes of each of the six sides. */
  const Hex8SideNodes: seq<seq<nat>> := [
    [0, 3, 2, 1], [0, 1, 5, 4], [1, 2, 6, 5], [2, 3, 7, 6], [3, 0, 4, 7], [4, 5, 6, 7]]

  /** Whether corner q of side s of the cell with first corner (i, j, k) lies on face f. */
  predicate CornerOnFace(s: nat, q: nat, f: Face, nx: nat, ny: nat, nz: nat, i: nat, j: nat, k: nat)
    requires s < 6 && q < 4
  {
    var o := Hex8Corners[Hex8SideNodes[s][q]];
    OnFace(f, nx, ny, nz, i + o.dx, j + o.dy, k + o.dz)
  }

  /** Whether all four corners of side s of the cell with first corner (i, j, k) lie on face f. */
  predicate SideOnFace(s: nat, f: Face, nx: nat, ny: nat, nz: nat, i: nat, j: nat, k: nat)
    requires s < 6
  {
    && CornerOnFace(s, 0, f, nx, ny, nz, i, j, k)
    && CornerOnFace(s, 1, f, nx, ny, nz, i, j, k)
    && CornerOnFace(s, 2, f, nx, ny, nz, i, j, k)
    && CornerOnFace(s, 3, f, nx, ny, nz, i, j, k)
  }

  /** Every tag a cell receives names a side that lies on the face its id stands for. */
  lemma TaggedSidesLieOnTheirFace(nx: nat, ny: nat, nz: nat, band: bool, i: nat, j: nat, k: nat, tag: SideTag)
    requires CellInGrid(nx, ny, nz, i, j, k)
    requires tag in CellTags(i, j, k, nx - 1, ny - 1, nz - 1, band)
    ensures tag.side < 6 && tag.id < 10
    ensures SideOnFace(tag.side, FaceOfId(tag.id), nx, ny, nz, i, j, k)
  {
    CellTagsMembers(i, j, k, nx - 1, ny - 1, nz - 1, band, tag);
  }

  /** Conversely, every cell side lying on a face of the box gets that face's id. */
  lemma BoundarySidesAreTagged(nx: nat, ny: nat, nz: nat, band: bool, i: nat, j: nat, k: nat, s: nat)
    requires CellInGrid(nx, ny, nz, i, j, k)
    requires s < 6 && SideOnFace(s, FaceOfId(s), nx, ny, nz, i, j, k)
    ensures SideTag(s, s) in CellTags(i, j, k, nx - 1, ny - 1, nz - 1, band)
  {
    assert CornerOnFace(s, 0, FaceOfId(s), nx, ny, nz, i, j, k);
    CellTagsMembers(i, j, k, nx - 1, ny - 1, nz - 1, band, SideTag(s, s));
    if s == 0 {
      assert k == 0;
    } else if s == 1 {
      assert j == 0;
    } else if s == 2 {
      assert i == nx - 1;
    } else if s == 3 {
      assert j == ny - 1;
    } else if s == 4 {
      assert i == 0;
    } else {
      assert k == nz - 1;
    }
  }

  /** The side a Dirichlet id is put on: back, right, left, front. */
  function DirichletSideOf(id: nat): nat
    requires 6 <= id < 10
  {
    if id == 6 then 0 else if id == 7 then 2 else if id == 8 then 4 else 5
  }

  /**
   * A Dirichlet id (6..9) is put on a side exactly when the row is in the
   * Dirichlet band, the side is that id's side, and the side carries its
   * plain face tag.
   */
  lemma DirichletTagsRule(i: nat, j: nat, k: nat, li: int, lj: int, lk: int, band: bool, tag: SideTag)
    requires tag.id >= 6
    ensures tag in CellTags(i, j, k, li, lj, lk, band)
        <==> tag.id < 10 && band && tag.side == DirichletSideOf(tag.id)
             && SideTag(tag.side, tag.side) in CellTags(i, j, k, li, lj, lk, band)
  {
    CellTagsMembers(i, j, k, li, lj, lk, band, tag);
    CellTagsMembers(i, j, k, li, lj, lk, band, SideTag(tag.side, tag.side));
  }

  /** The analysis constrains boundaries 6, 7, 8 and 9 for variables 0, 1 and 2, to zero. */
  datatype DirichletBoundary = DirichletBoundary(ids: set<nat>, vars: set<nat>)

  function AnalysisDirichletBoundary(): DirichletBoundary
  {
    DirichletBoundary({6, 7, 8, 9}, {0, 1, 2})
  }

  /** The constrained ids are exactly the Dirichlet ids the generator can put on a side. */
  lemma ConstrainedIdsAreDirichletTags(i: nat, j: nat, k: nat, li: int, lj: int, lk: int, band: bool, tag: SideTag)
    requires tag in CellTags(i, j, k, li, lj, lk, band)
    ensures tag.id in AnalysisDirichletBoundary().ids <==> tag.id >= 6
    ensures tag.id in AnalysisDirichletBoundary().ids ==> band
  {
    CellTagsMembers(i, j, k, li, lj, lk, band, tag);
  }

  /**
   * Every constrained id is generated: on any nx x ny x nz panel, each row
   * of cells in the Dirichlet band has a cell that carries it, on the side
   * it belongs to, for both element types.
   */
  lemma EveryConstrainedIdIsGenerated(t: ElemType, nx: nat, ny: nat, nz: nat, frac: real, cj: nat, id: nat)
    requires IsHex(t)
    requires nx >= 1 && ny >= 1 && nz >= 1 && cj < ny && DirichletRow(cj, frac, ny)
    requires id in AnalysisDirichletBoundary().ids
    ensures exists ci: nat, ck: nat :: ci < nx && ck < nz
              && SideTag(DirichletSideOf(id), id) in ElemTags(t, nx, ny, nz, frac, ci, cj, ck)
  {
    var ci: nat := if id == 7 then nx - 1 else 0;
    var ck: nat := if id == 9 then nz - 1 else 0;
    var tag := SideTag(DirichletSideOf(id), id);
    CellTagsMembers(ci, cj, ck, nx - 1, ny - 1, nz - 1, DirichletRow(cj, frac, ny), tag);
    assert tag in CellTags(ci, cj, ck, nx - 1, ny - 1, nz - 1, DirichletRow(cj, frac, ny));
    ElemTagsStrideFree(t, nx, ny, nz, frac, ci, cj, ck);
  }
}
