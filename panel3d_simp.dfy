/**
 * Creation of the SIMP design variables of the panel: one topology
 * parameter per distinct node among the first eight nodes (the vertices)
 * of each hexahedral element, initialised to the volume fraction and placed
 * at the node, kept as owned when its density dof lies in this processor's
 * range [firstDof, endDof) and as ghosted otherwise.
 */
module Panel3DSimp {
  import opened Common
  import opened Panel3DGrid
  import opened Panel3DMesh

  /** The libMesh finite-element family and order codes the density must use. */
  const LAGRANGE: nat := 0
  const FIRST: nat := 1

  /** What the density system knows of a node: its position and its density dof. */
  datatype NodeInfo = NodeInfo(point: Point, dof: nat)

  /** A design parameter: its initial value and the point it sits at. */
  datatype DesignParameter = DesignParameter(value: real, point: Point)

  /** A design parameter bound to the density dof it drives. */
  datatype TopologyParameter = TopologyParameter(param: DesignParameter, dof: nat)

  class DesignParameterVector {
    var owned: seq<TopologyParameter>
    var ghosted: seq<TopologyParameter>

    constructor ()
      ensures owned == [] && ghosted == []
    {
      owned, ghosted := [], [];
    }

    method AddTopologyParameter(p: DesignParameter, dof: nat)
      modifies this
      ensures owned == old(owned) + [TopologyParameter(p, dof)] && ghosted == old(ghosted)
    {
      owned := owned + [TopologyParameter(p, dof)];
    }

    method AddGhostedTopologyParameter(p: DesignParameter, dof: nat)
      modifies this
      ensures ghosted == old(ghosted) + [TopologyParameter(p, dof)] && owned == old(owned)
    {
      ghosted := ghosted + [TopologyParameter(p, dof)];
    }
  }

  /** The elements are those of a mesh: every hexahedral element has its eight vertices first. */
  predicate HexHaveVertices(elems: seq<Elem>)
  {
    forall q :: 0 <= q < |elems| && IsHex(elems[q].etype) ==> |elems[q].nodes| >= 8
  }

  /** The number of leading hexahedral elements: where the element loop stops. */
  function HexPrefix(elems: seq<Elem>): (n: nat)
    ensures n <= |elems|
    ensures forall q :: 0 <= q < n ==> IsHex(elems[q].etype)
    ensures n < |elems| ==> !IsHex(elems[n].etype)
  {
    if elems == [] || !IsHex(elems[0].etype) then 0
    else 1 + HexPrefix(elems[1..])
  }

  /** The first eight nodes of each element in turn. */
  function FirstEight(elems: seq<Elem>): seq<nat>
    requires forall q :: 0 <= q < |elems| ==> |elems[q].nodes| >= 8
  {
    if elems == [] then []
    else FirstEight(elems[..|elems| - 1]) + elems[|elems| - 1].nodes[..8]
  }

  /** The vertices the element loop meets: those of the leading hexahedral elements. */
  function LoopVertices(elems: seq<Elem>): seq<nat>
    requires HexHaveVertices(elems)
  {
    FirstEight(elems[..HexPrefix(elems)])
  }

  /** The ids of ns in order of first occurrence, each once. */
  function Dedup(ns: seq<nat>): seq<nat>
  {
    if ns == [] then []
    else
      var init := ns[..|ns| - 1];
      Dedup(init) + (if ns[|ns| - 1] in init then [] else [ns[|ns| - 1]])
  }

  predicate InRange(dof: nat, firstDof: nat, endDof: nat)
  {
    firstDof <= dof < endDof
  }

  /** The parameter created for a node: the volume fraction, at the node, on its dof. */
  function ParamOf(vf: real, n: NodeInfo): TopologyParameter
  {
    TopologyParameter(DesignParameter(vf, n.point), n.dof)
  }

  /** The parameters of the nodes ids whose dof this processor owns, in order. */
  function Owned(ids: seq<nat>, info: nat -> NodeInfo, vf: real, firstDof: nat, endDof: nat): seq<TopologyParameter>
  {
    if ids == [] then []
    else
      var id := ids[|ids| - 1];
      Owned(ids[..|ids| - 1], info, vf, firstDof, endDof)
      + (if InRange(info(id).dof, firstDof, endDof) then [ParamOf(vf, info(id))] else [])
  }

  /** The parameters of the nodes ids whose dof another processor owns, in order. */
  function Ghosted(ids: seq<nat>, info: nat -> NodeInfo, vf: real, firstDof: nat, endDof: nat): seq<TopologyParameter>
  {
    if ids == [] then []
    else
      var id := ids[|ids| - 1];
      Ghosted(ids[..|ids| - 1], info, vf, firstDof, endDof)
      + (if InRange(info(id).dof, firstDof, endDof) then [] else [ParamOf(vf, info(id))])
  }

  /** Dedup keeps exactly the ids of its input. */
  lemma {:induction false} DedupMembers(ns: seq<nat>)
    ensures forall x :: x in Dedup(ns) <==> x in ns
    decreases |ns|
  {
    if ns != [] {
      var init := ns[..|ns| - 1];
      DedupMembers(init);
      assert ns == init + [ns[|ns| - 1]];
    }
  }

  /** Dedup lists no id twice. */
  lemma {:induction false} DedupDistinct(ns: seq<nat>)
    ensures Distinct(Dedup(ns))
    decreases |ns|
  {
    if ns != [] {
      var init := ns[..|ns| - 1];
      DedupDistinct(init);
      DedupMembers(init);
    }
  }

  /** The ids a list mentions. */
  function Members(ns: seq<nat>): set<nat>
  {
    set x | x in ns
  }

  /** A list that repeats nothing is as long as the set of its ids. */
  lemma {:induction false} DistinctCard(ns: seq<nat>)
    requires Distinct(ns)
    ensures |Members(ns)| == |ns|
    decreases |ns|
  {
    if ns != [] {
      var init := ns[..|ns| - 1];
      var last := ns[|ns| - 1];
      assert Distinct(init) by {
        forall s, s2 | 0 <= s < |init| && 0 <= s2 < |init| && init[s] == init[s2]
          ensures s == s2
        {
          assert ns[s] == init[s] && ns[s2] == init[s2];
        }
      }
      DistinctCard(init);
      assert last !in init;
      assert Members(ns) == Members(init) + {last} by {
        assert ns == init + [last];
      }
    }
  }

  /**
   * The owned and ghosted lists split the nodes: one parameter per node,
   * owned exactly when its dof is in range, each at its node with the
   * volume fraction as value.
   */
  lemma {:induction false} OwnedGhostedSplit(ids: seq<nat>, info: nat -> NodeInfo, vf: real, firstDof: nat, endDof: nat)
    ensures |Owned(ids, info, vf, firstDof, endDof)| + |Ghosted(ids, info, vf, firstDof, endDof)| == |ids|
    ensures forall p :: p in Owned(ids, info, vf, firstDof, endDof) ==> InRange(p.dof, firstDof, endDof) && p.param.value == vf
    ensures forall p :: p in Ghosted(ids, info, vf, firstDof, endDof) ==> !InRange(p.dof, firstDof, endDof) && p.param.value == vf
    ensures forall s :: 0 <= s < |ids| ==>
      if InRange(info(ids[s]).dof, firstDof, endDof) then ParamOf(vf, info(ids[s])) in Owned(ids, info, vf, firstDof, endDof)
      else ParamOf(vf, info(ids[s])) in Ghosted(ids, info, vf, firstDof, endDof)
    decreases |ids|
  {
    if ids != [] {
      var init := ids[..|ids| - 1];
      OwnedGhostedSplit(init, info, vf, firstDof, endDof);
      forall s | 0 <= s < |ids|
        ensures if InRange(info(ids[s]).dof, firstDof, endDof) then ParamOf(vf, info(ids[s])) in Owned(ids, info, vf, firstDof, endDof)
                else ParamOf(vf, info(ids[s])) in Ghosted(ids, info, vf, firstDof, endDof)
      {
        if s < |init| {
          assert ids[s] == init[s];
        }
      }
    }
  }

  /**
   * One parameter per distinct vertex: the two lists together are as long
   * as the set of vertex ids, and every vertex has its parameter in the
   * list its dof selects.
   */
  lemma OneParameterPerVertex(ns: seq<nat>, info: nat -> NodeInfo, vf: real, firstDof: nat, endDof: nat)
    ensures |Owned(Dedup(ns), info, vf, firstDof, endDof)| + |Ghosted(Dedup(ns), info, vf, firstDof, endDof)|
            == |Members(ns)|
    ensures forall s :: 0 <= s < |ns| ==>
      if InRange(info(ns[s]).dof, firstDof, endDof) then ParamOf(vf, info(ns[s])) in Owned(Dedup(ns), info, vf, firstDof, endDof)
      else ParamOf(vf, info(ns[s])) in Ghosted(Dedup(ns), info, vf, firstDof, endDof)
  {
    var ids := Dedup(ns);
    DedupMembers(ns);
    DedupDistinct(ns);
    OwnedGhostedSplit(ids, info, vf, firstDof, endDof);
    DistinctCard(ids);
    assert Members(ids) == Members(ns);
    forall s | 0 <= s < |ns|
      ensures if InRange(info(ns[s]).dof, firstDof, endDof) then ParamOf(vf, info(ns[s])) in Owned(ids, info, vf, firstDof, endDof)
              else ParamOf(vf, info(ns[s])) in Ghosted(ids, info, vf, firstDof, endDof)
    {
      assert ns[s] in ids;
      var s2 :| 0 <= s2 < |ids| && ids[s2] == ns[s];
    }
  }

  /** The vertices of one more element follow those of the elements before it. */
  lemma FirstEightSnoc(elems: seq<Elem>, q: nat)
    requires q < |elems| && forall r :: 0 <= r <= q ==> |elems[r].nodes| >= 8
    ensures FirstEight(elems[..q + 1]) == FirstEight(elems[..q]) + elems[q].nodes[..8]
  {
    assert elems[..q + 1][..q] == elems[..q];
  }

  /** Extending the prefix of ns by one more id appends that id. */
  lemma PrefixStep(seen: seq<nat>, ns: seq<nat>, i: nat)
    requires i < |ns|
    ensures seen + ns[..i + 1] == (seen + ns[..i]) + [ns[i]]
  {
    assert ns[..i + 1] == ns[..i] + [ns[i]];
  }

  /** A vertex met before changes neither the distinct vertices nor the ids met. */
  lemma RevisitVertex(vs: seq<nat>, n: nat)
    requires n in vs
    ensures Dedup(vs + [n]) == Dedup(vs)
    ensures Members(vs + [n]) == Members(vs)
  {
    assert (vs + [n])[..|vs|] == vs;
    assert Dedup(vs + [n]) == Dedup(vs) + [];
  }

  /** A new vertex is appended to the distinct vertices and to exactly one of the two lists. */
  lemma NewVertex(vs: seq<nat>, n: nat, info: nat -> NodeInfo, vf: real, firstDof: nat, endDof: nat)
    requires n !in vs
    ensures Dedup(vs + [n]) == Dedup(vs) + [n]
    ensures Members(vs + [n]) == Members(vs) + {n}
    ensures Owned(Dedup(vs + [n]), info, vf, firstDof, endDof) == Owned(Dedup(vs), info, vf, firstDof, endDof)
              + (if InRange(info(n).dof, firstDof, endDof) then [ParamOf(vf, info(n))] else [])
    ensures Ghosted(Dedup(vs + [n]), info, vf, firstDof, endDof) == Ghosted(Dedup(vs), info, vf, firstDof, endDof)
              + (if InRange(info(n).dof, firstDof, endDof) then [] else [ParamOf(vf, info(n))])
  {
    assert (vs + [n])[..|vs|] == vs;
    var ids := Dedup(vs) + [n];
    assert ids[..|ids| - 1] == Dedup(vs);
  }

  /**
   * The body of the element loop for one hexahedral element: each of its
   * first eight nodes not met before gets its parameter, owned or ghosted.
   * `seen` lists the vertices met before, `nodes` holds their ids, and the
   * lists hold the parameters of the distinct ones after `ownedBase` and
   * `ghostedBase`.
   */
  method AddVertexParameters(e: Elem, info: nat -> NodeInfo, vf: real, firstDof: nat, endDof: nat,
                             dvs: DesignParameterVector, nodes: set<nat>, ghost seen: seq<nat>,
                             ghost ownedBase: seq<TopologyParameter>, ghost ghostedBase: seq<TopologyParameter>)
    returns (nodes': set<nat>)
    requires |e.nodes| >= 8
    requires nodes == Members(seen)
    requires dvs.owned == ownedBase + Owned(Dedup(seen), info, vf, firstDof, endDof)
    requires dvs.ghosted == ghostedBase + Ghosted(Dedup(seen), info, vf, firstDof, endDof)
    modifies dvs
    ensures nodes' == Members(seen + e.nodes[..8])
    ensures dvs.owned == ownedBase + Owned(Dedup(seen + e.nodes[..8]), info, vf, firstDof, endDof)
    ensures dvs.ghosted == ghostedBase + Ghosted(Dedup(seen + e.nodes[..8]), info, vf, firstDof, endDof)
  {
    nodes' := nodes;
    assert seen + e.nodes[..0] == seen;
    for i := 0 to 8
      invariant nodes' == Members(seen + e.nodes[..i])
      invariant dvs.owned == ownedBase + Owned(Dedup(seen + e.nodes[..i]), info, vf, firstDof, endDof)
      invariant dvs.ghosted == ghostedBase + Ghosted(Dedup(seen + e.nodes[..i]), info, vf, firstDof, endDof)
    {
      PrefixStep(seen, e.nodes, i);
      nodes' := AddVertexParameter(e.nodes[i], info, vf, firstDof, endDof, dvs, nodes', seen + e.nodes[..i], ownedBase, ghostedBase);
    }
  }

  /**
   * The body of the vertex loop: a node met before is skipped; otherwise it
   * is recorded and its parameter goes to the owned list when its dof is in
   * range and to the ghosted list when not.
   */
  method AddVertexParameter(n: nat, info: nat -> NodeInfo, vf: real, firstDof: nat, endDof: nat,
                            dvs: DesignParameterVector, nodes: set<nat>, ghost seen: seq<nat>,
                            ghost ownedBase: seq<TopologyParameter>, ghost ghostedBase: seq<TopologyParameter>)
    returns (nodes': set<nat>)
    requires nodes == Members(seen)
    requires dvs.owned == ownedBase + Owned(Dedup(seen), info, vf, firstDof, endDof)
    requires dvs.ghosted == ghostedBase + Ghosted(Dedup(seen), info, vf, firstDof, endDof)
    modifies dvs
    ensures nodes' == Members(seen + [n])
    ensures dvs.owned == ownedBase + Owned(Dedup(seen + [n]), info, vf, firstDof, endDof)
    ensures dvs.ghosted == ghostedBase + Ghosted(Dedup(seen + [n]), info, vf, firstDof, endDof)
  {
    if n in nodes {
      RevisitVertex(seen, n);
      return nodes;
    }
    NewVertex(seen, n, info, vf, firstDof, endDof);
    nodes' := nodes + {n};
    var dof := info(n).dof;
    var dv := DesignParameter(vf, info(n).point);
    if firstDof <= dof && dof < endDof {
      AppendAssoc(ownedBase, Owned(Dedup(seen), info, vf, firstDof, endDof), [ParamOf(vf, info(n))]);
      dvs.AddTopologyParameter(dv, dof);
    } else {
      AppendAssoc(ghostedBase, Ghosted(Dedup(seen), info, vf, firstDof, endDof), [ParamOf(vf, info(n))]);
      dvs.AddGhostedTopologyParameter(dv, dof);
    }
  }

  /**
   * Creates the design parameters of the elements in iteration order,
   * stopping at the first element that is not a HEX8 or HEX27. The density
   * must be first-order Lagrange; otherwise nothing is created.
   */
  method InitSimpDvs(rhoFamily: nat, rhoOrder: nat, params: map<string, real>, elems: seq<Elem>,
                     info: nat -> NodeInfo, firstDof: nat, endDof: nat, dvs: DesignParameterVector)
    returns (out: Outcome)
    requires HexHaveVertices(elems)
    modifies dvs
    ensures rhoFamily != LAGRANGE || rhoOrder != FIRST ==>
      out == Fail("Method assumes Lagrange interpolation function for density")
      && dvs.owned == old(dvs.owned) && dvs.ghosted == old(dvs.ghosted)
    ensures rhoFamily == LAGRANGE && rhoOrder == FIRST ==>
      && out == (if HexPrefix(elems) < |elems| then Fail("Method requires Hex8/Hex27 element") else Pass)
      && dvs.owned == old(dvs.owned) + Owned(Dedup(LoopVertices(elems)), info, Input(params, "volume_fraction", 0.2), firstDof, endDof)
      && dvs.ghosted == old(dvs.ghosted) + Ghosted(Dedup(LoopVertices(elems)), info, Input(params, "volume_fraction", 0.2), firstDof, endDof)
  {
    if rhoFamily != LAGRANGE || rhoOrder != FIRST {
      return Fail("Method assumes Lagrange interpolation function for density");
    }
    var vf := Input(params, "volume_fraction", 0.2);
    var nodes: set<nat> := {};
    ghost var visited: seq<nat> := [];
    var q := 0;
    while q < |elems|
      invariant q <= HexPrefix(elems)
      invariant visited == FirstEight(elems[..q])
      invariant nodes == Members(visited)
      invariant dvs.owned == old(dvs.owned) + Owned(Dedup(visited), info, vf, firstDof, endDof)
      invariant dvs.ghosted == old(dvs.ghosted) + Ghosted(Dedup(visited), info, vf, firstDof, endDof)
    {
      var e := elems[q];
      if !IsHex(e.etype) {
        assert visited == LoopVertices(elems);
        return Fail("Method requires Hex8/Hex27 element");
      }
      nodes := AddVertexParameters(e, info, vf, firstDof, endDof, dvs, nodes, visited, old(dvs.owned), old(dvs.ghosted));
      FirstEightSnoc(elems, q);
      visited := visited + e.nodes[..8];
      q := q + 1;
    }
    assert elems[..q] == elems;
    assert visited == LoopVertices(elems);
    return Pass;
  }
}
