# MAST3 core in Dafny

MAST3 is a C++ finite-element and topology-optimisation toolkit. It is built
on libMesh, Eigen, ADOL-C and GCMMA. This project models the index,
assembly and lifecycle logic of six parts of it, plus the closed-form
formulas its tests check. Every scalar is an exact Dafny `real`.

- `residual_sensitivity.dfy` (module `ResidualSensitivityAssembly`):
  `ResidualSensitivity::assemble`. It is written as an imperative element
  loop over `Vector`/`Matrix` objects. The element operator and the DOF map
  are abstract inputs. The loop is proved equal to a zero-then-sum
  specification. The sums are proved independent of the element order.
- `bar_eigen.dfy` (module `BarEigenSetup`): the eigen-solver test's
  `setup_matrices`. It is written as loops over `array2` matrices, with the
  unconstrained-DOF list, the two calls the test makes and the
  eigenvalue-sensitivity expression. Proved: tridiagonal structure,
  symmetry, zero row sums, linearity in EA, and that the expression does not
  depend on how the eigenvector is scaled.
- `panel3d_grid.dfy`, `panel3d_mesh.dfy`, `panel3d_simp.dfy` (modules
  `Panel3DGrid`, `Panel3DMesh`, `Panel3DSimp`): the `Panel3D` structured
  hex mesh.
  - `idx` and `reference_volume`, as functions.
  - `build_cube`, as loops over a `Mesh` object: node numbering, HEX8/HEX27
    connectivity, and boundary and Dirichlet side tags.
  - `init_analysis_dirichlet_conditions`.
  - `init_simp_dvs`: one design parameter per distinct vertex, owned or
    ghosted.
- `penalized_density.dfy` (module `PenalizedDensitySensitivity`): the SIMP
  penalised density v^p and its derivative p v^(p-1) dv. The test's
  real, complex-step and forward-mode-AD instances are modelled with exact
  complex and dual numbers.
- `fe_side_data.dfy` (module `FESideDataLifecycle`): the `FESideData`
  one-shot state machine and the objects it owns.
- `rosenbrock.dfy` (module `GcmmaRosenbrock`): the Rosenbrock fixture of the
  GCMMA interface test.
- `common.dfy` (module `Common`): the `Option`, `Outcome` and `Result` types.

An `Assert0`/`Error` of the source becomes an `Outcome` or `Result` that
carries the source's message. An unchecked dereference becomes a
precondition.

## Model

| member | source | states |
|---|---|---|
| ResidualSensitivityAssembly.ResidualSensitivity.constructor | include/mast/base/assembly/libmesh/residual_sensitivity.hpp:30-32 | no element operator is set and the Jacobian finalisation flag is unassigned (None) |
| ResidualSensitivityAssembly.ResidualSensitivity.SetElemOps | include/mast/base/assembly/libmesh/residual_sensitivity.hpp:36 | the element operator is set and the flag is left alone |
| ResidualSensitivityAssembly.ResidualSensitivity.SetFinalizeJacobian | include/mast/base/assembly/libmesh/residual_sensitivity.hpp:101 | the flag is assigned and the operator is left alone (the corrected model's setter) |
| ResidualSensitivityAssembly.ResidualSensitivity.Assemble | include/mast/base/assembly/libmesh/residual_sensitivity.hpp:39-97 | with neither R nor J it fails with "Atleast one assembled quantity should be specified." and changes nothing, with or without an element operator; otherwise R is the sum of the element residual contributions, whatever it held before, and is finalised; J is the sum of the element Jacobian contributions and is finalised exactly when the flag says so, which is the as-written decision `JacobianFinalizedAsWritten` once the flag is assigned; over an empty element range no operator is needed and the outputs are zero; every element is visited once, in order, with the scatter mode chosen by which outputs are present |
| ResidualSensitivityAssembly.ElementLoop | include/mast/base/assembly/libmesh/residual_sensitivity.hpp:61-92 | starting from zeroed outputs, the loop leaves each requested output equal to the assembled sum, logs one visit per element in order, and leaves the last element in the context |
| ResidualSensitivityAssembly.ElementStep | include/mast/base/assembly/libmesh/residual_sensitivity.hpp:65-92 | one pass takes the outputs, visit log and context from i to i + 1 elements assembled |
| ResidualSensitivityAssembly.EvaluateElement | include/mast/base/assembly/libmesh/residual_sensitivity.hpp:68-76 | the context's element is set and the accessor is bound to its DOFs; the local residual is exactly the element's contribution; the local Jacobian is that too when J is requested, and is left untouched otherwise |
| ResidualSensitivityAssembly.ScatterElement | include/mast/base/assembly/libmesh/residual_sensitivity.hpp:80-91 | exactly one scatter runs: matrix and vector, vector only, or matrix only, as ModeFor says; each present output gets the local contributions added at the element's DOFs |
| ResidualSensitivityAssembly.ModeFor | include/mast/base/assembly/libmesh/residual_sensitivity.hpp:80-91 | matrix-and-vector iff both outputs are present, vector-only iff only R is, matrix-only iff R is absent |
| ResidualSensitivityAssembly.ConstrainAndAddVector | include/mast/base/assembly/libmesh/residual_sensitivity.hpp:84-87 | R becomes the additive scatter of the local residual at the element's DOFs |
| ResidualSensitivityAssembly.ConstrainAndAddMatrix | include/mast/base/assembly/libmesh/residual_sensitivity.hpp:88-91 | J becomes the additive scatter of the local Jacobian at the DOF pairs |
| ResidualSensitivityAssembly.ConstrainAndAddMatrixAndVector | include/mast/base/assembly/libmesh/residual_sensitivity.hpp:80-83 | both scatters, into R and J |
| ResidualSensitivityAssembly.ScatterVecAt | include/mast/base/assembly/libmesh/residual_sensitivity.hpp:84-87 | after the scatter, global entry k is its old value plus every local entry mapped to k |
| ResidualSensitivityAssembly.ScatterMatAt | include/mast/base/assembly/libmesh/residual_sensitivity.hpp:88-91 | after the scatter, global entry (r, c) is its old value plus every local entry mapped to (r, c) |
| ResidualSensitivityAssembly.Vector.SetZero | include/mast/base/assembly/libmesh/residual_sensitivity.hpp:47 | R becomes all zeros of the same length and is no longer finalised |
| ResidualSensitivityAssembly.Matrix.SetZero | include/mast/base/assembly/libmesh/residual_sensitivity.hpp:48 | J becomes the zero matrix of the same size and is no longer finalised |
| ResidualSensitivityAssembly.Vector.Finalize | include/mast/base/assembly/libmesh/residual_sensitivity.hpp:95 | the entries are kept and the vector is marked finalised |
| ResidualSensitivityAssembly.Matrix.Finalize | include/mast/base/assembly/libmesh/residual_sensitivity.hpp:96 | the entries are kept and the matrix is marked finalised |
| ResidualSensitivityAssembly.SolutionAccessor.constructor | include/mast/base/assembly/libmesh/residual_sensitivity.hpp:52-53 | the accessor holds the solution X and is not yet bound to any element |
| ResidualSensitivityAssembly.SolutionAccessor.Init | include/mast/base/assembly/libmesh/residual_sensitivity.hpp:70 | the accessor holds the element's DOF indices and the solution values at them |
| ResidualSensitivityAssembly.AssemblyContext.constructor | include/mast/base/assembly/libmesh/residual_sensitivity.hpp:61-63 | the context lists the active local elements and holds no current element |
| ResidualSensitivityAssembly.Gather | include/mast/base/assembly/libmesh/residual_sensitivity.hpp:70 | the local solution has one entry per element DOF, equal to the global solution there |
| ResidualSensitivityAssembly.ZeroThenAdd | include/mast/base/assembly/libmesh/residual_sensitivity.hpp:72-76 | buffers zeroed to n_dofs (and n_dofs x n_dofs) and then passed to the element operator hold exactly the element's own contributions |
| ResidualSensitivityAssembly.AddElemResidual | include/mast/base/assembly/libmesh/residual_sensitivity.hpp:76 | the element operator adds its residual contribution to each entry of the buffer |
| ResidualSensitivityAssembly.AddElemJacobian | include/mast/base/assembly/libmesh/residual_sensitivity.hpp:76 | the element operator adds its Jacobian contribution to each entry of the buffer |
| ResidualSensitivityAssembly.ResidualPrefixClosedForm | include/mast/base/assembly/libmesh/residual_sensitivity.hpp:65-92 | after the first count elements, residual entry k is the sum over those elements of their contributions to k |
| ResidualSensitivityAssembly.JacobianPrefixClosedForm | include/mast/base/assembly/libmesh/residual_sensitivity.hpp:65-92 | after the first count elements, Jacobian entry (r, c) is the sum over those elements of their contributions to (r, c) |
| ResidualSensitivityAssembly.SumOverPermutation | include/mast/base/assembly/libmesh/residual_sensitivity.hpp:65-92 | a sum over elements is the same for any ordering of the same elements |
| ResidualSensitivityAssembly.ResidualOrderIndependent | include/mast/base/assembly/libmesh/residual_sensitivity.hpp:65-92 | the assembled residual sensitivity is the same for every order of the element iteration |
| ResidualSensitivityAssembly.JacobianOrderIndependent | include/mast/base/assembly/libmesh/residual_sensitivity.hpp:65-92 | the assembled Jacobian sensitivity is the same for every order of the element iteration |
| ResidualSensitivityAssembly.VisitLogAt | include/mast/base/assembly/libmesh/residual_sensitivity.hpp:65-68 | the visit log after count elements has one entry per element, in iteration order |
| ResidualSensitivityAssembly.JacobianFinalizedAsWritten | include/mast/base/assembly/libmesh/residual_sensitivity.hpp:96 | as written: without J nothing is finalised; with J the decision is defined only when the flag was assigned, and then it equals the flag; `Assemble` is proved to finalise J exactly as this decision says |
| ResidualSensitivityAssembly.FreshAssemblerReadsUnsetFlag | include/mast/base/assembly/libmesh/residual_sensitivity.hpp:30-36 | the source's own call sequence, construction then `set_elem_ops`, yields an assembler whose flag is unassigned, so its as-written finalisation decision for a given J is undefined and `Assemble`'s requirement on the flag is not met |
| BarEigenSetup.AssembledIsTridiagonal | tests/solvers/eigen/constrained_generalized_hermitian_eigen_solver.cpp:75-83 | the summed element blocks have the closed tridiagonal form: the diagonal gets a11 of the element before and a00 of the element after, and the off-diagonals get a01/a10 |
| BarEigenSetup.AssembledSymmetric | tests/solvers/eigen/constrained_generalized_hermitian_eigen_solver.cpp:75-83 | a symmetric element block assembles into a symmetric matrix |
| BarEigenSetup.AssembledBanded | tests/solvers/eigen/constrained_generalized_hermitian_eigen_solver.cpp:75-83 | entries more than one off the diagonal stay zero |
| BarEigenSetup.AssembledLinear | tests/solvers/eigen/constrained_generalized_hermitian_eigen_solver.cpp:71-72 | scaling the element block scales every assembled entry |
| BarEigenSetup.AssembledRowSumZero | tests/solvers/eigen/constrained_generalized_hermitian_eigen_solver.cpp:75-83 | when every block row sums to zero, every row of the assembled matrix sums to zero |
| BarEigenSetup.StiffnessRowSumZero | tests/solvers/eigen/constrained_generalized_hermitian_eigen_solver.cpp:68-79 | every row of the bar stiffness matrix A sums to zero |
| BarEigenSetup.SensitivityMatrices | tests/solvers/eigen/constrained_generalized_hermitian_eigen_solver.cpp:115-116 | the call with (1, 0) gives Asens = A / EA and Bsens = 0 |
| BarEigenSetup.DofList.constructor | tests/solvers/eigen/constrained_generalized_hermitian_eigen_solver.cpp:112-113 | the DOF list starts empty |
| BarEigenSetup.AddElement | tests/solvers/eigen/constrained_generalized_hermitian_eigen_solver.cpp:76-82 | element i's scaled blocks are added at rows and columns {i, i+1}; every other entry is unchanged |
| BarEigenSetup.SetupMatrices | tests/solvers/eigen/constrained_generalized_hermitian_eigen_solver.cpp:37-84 | A and B are fresh 100 x 100 matrices equal to the assembled k_e EA/h and m_e rhoA h/2 with h = L/99; when requested, the DOF list is exactly 1..98 in ascending order, i.e. it holds d iff 0 < d < 99 |
| BarEigenSetup.SetupForSensitivity | tests/solvers/eigen/constrained_generalized_hermitian_eigen_solver.cpp:115-116 | the test's two calls give A = EA Asens entry by entry, Bsens = 0, and the DOF list 1..98 |
| BarEigenSetup.SensitivityWithoutMassTerm | tests/solvers/eigen/constrained_generalized_hermitian_eigen_solver.cpp:139-141 | with Bsens = 0 the sensitivity expression is phi^T Asens phi / phi^T B phi |
| BarEigenSetup.SensitivityScaleInvariant | tests/solvers/eigen/constrained_generalized_hermitian_eigen_solver.cpp:139-141 | scaling the eigenvector by any nonzero s leaves the sensitivity expression unchanged |
| BarEigenSetup.ScaledQuadraticForm | tests/solvers/eigen/constrained_generalized_hermitian_eigen_solver.cpp:141 | the denominator is quadratic in the eigenvector: scaling by s multiplies it by s^2 |
| BarEigenSetup.MatVecOfMultiple | tests/solvers/eigen/constrained_generalized_hermitian_eigen_solver.cpp:140 | when A = EA Asens entrywise, A v = EA (Asens v) |
| BarEigenSetup.ReducedRayleigh | tests/solvers/eigen/constrained_generalized_hermitian_eigen_solver.cpp:140 | when the eigen-equation holds on the rows where phi is nonzero, phi . (A phi) = lambda phi . (B phi) |
| BarEigenSetup.SensitivityOfExactEigenpair | tests/solvers/eigen/constrained_generalized_hermitian_eigen_solver.cpp:139-143 | for an eigenpair of the constrained problem (zero ends, A phi = lambda B phi on the interior rows), with A = EA Asens and Bsens = 0, the expression equals lambda / EA: the test's analytic 1/rhoA ((i+1) pi / L)^2 when lambda is EA/rhoA ((i+1) pi / L)^2 |
| Panel3DGrid.ReferenceVolumeDefault | include/mast/mesh/generation/panel3d.hpp:81-91 | with no inputs the reference volume is 0.3 x 0.03 x 0.3 = 0.0027 |
| Panel3DGrid.CellVolumesFillReferenceVolume | include/mast/mesh/generation/panel3d.hpp:81-91 | the nx ny nz cells of the uniform subdivision together have exactly the reference volume |
| Panel3DGrid.Idx | include/mast/mesh/generation/panel3d.hpp:94-118 | a node id is returned iff the type is HEX8 or HEX27; any other type gives the error "Invalid element type" |
| Panel3DGrid.IdxInjective | include/mast/mesh/generation/panel3d.hpp:103-111 | distinct grid points get distinct ids, on the HEX8 grid and on the doubled HEX27 grid |
| Panel3DGrid.IdxBound | include/mast/mesh/generation/panel3d.hpp:141-146 | every grid point's id is below the number of nodes reserved |
| Panel3DGrid.LexInjective | include/mast/mesh/generation/panel3d.hpp:105 | the lexicographic index is injective within a row and layer width |
| Panel3DGrid.LexBound | include/mast/mesh/generation/panel3d.hpp:105 | the lexicographic index of a w x h x d grid point is below w h d |
| Panel3DGrid.LexNextRow | include/mast/mesh/generation/panel3d.hpp:165-173 | the running counter moves on to the first point of the next row |
| Panel3DGrid.LexNextLayer | include/mast/mesh/generation/panel3d.hpp:165-173 | the running counter moves on to the first point of the next layer |
| Panel3DGrid.LexEnd | include/mast/mesh/generation/panel3d.hpp:165-173 | after the last layer the counter equals the number of points |
| Panel3DGrid.Hex8CornersPermuteBlock | include/mast/mesh/generation/panel3d.hpp:217-224 | the eight HEX8 corner offsets are distinct and are exactly the 2 x 2 x 2 block |
| Panel3DGrid.Hex27SlotsPermuteBlock | include/mast/mesh/generation/panel3d.hpp:275-302 | the 27 HEX27 node offsets are distinct and are exactly the 3 x 3 x 3 block |
| Panel3DGrid.Hex27VerticesFirst | include/mast/mesh/generation/panel3d.hpp:275-282 | HEX27 nodes 0..7 are the HEX8 corners at twice the offset |
| Panel3DGrid.OffsetsPermuteBlock | include/mast/mesh/generation/panel3d.hpp:203-302 | for either type the node offsets permute the element's block |
| Panel3DGrid.NodesAtDistinct | include/mast/mesh/generation/panel3d.hpp:217-224 | an element's nodes are distinct when its block fits in the grid |
| Panel3DGrid.NodesAtBounded | include/mast/mesh/generation/panel3d.hpp:217-224 | an element's nodes are all existing node ids |
| Panel3DGrid.NodesAtCoverBlock | include/mast/mesh/generation/panel3d.hpp:217-224 | every point of the element's block is one of its nodes |
| Panel3DGrid.ElemNodesPermuteBlock | include/mast/mesh/generation/panel3d.hpp:203-302 | each cell's element node list is a permutation of the cell's sub-grid: one node per offset, distinct, existing, covering the block |
| Panel3DGrid.CellTagsMembers | include/mast/mesh/generation/panel3d.hpp:226-258 | a face tag is added iff its rule holds (side 0/5 iff k first/last, 1/3 iff j first/last, 4/2 iff i first/last); a Dirichlet tag 6/7/8/9 on side 0/2/4/5 iff the row is in the band and the cell is on that face |
| Panel3DGrid.DirichletRowDoubled | include/mast/mesh/generation/panel3d.hpp:323-336 | the HEX27 band test on the doubled row and doubled height agrees with the HEX8 test |
| Panel3DGrid.CellTagsDoubled | include/mast/mesh/generation/panel3d.hpp:304-336 | on the doubled grid with last index 2(n-1), a cell gets the same tags as on the plain grid |
| Panel3DGrid.ElemTagsStrideFree | include/mast/mesh/generation/panel3d.hpp:304-336 | HEX27 cells get exactly the tags HEX8 cells get |
| Panel3DGrid.TaggedSidesLieOnTheirFace | include/mast/mesh/generation/panel3d.hpp:226-258 | every tag a cell receives names a side whose four corners lie on the face of the box its id stands for |
| Panel3DGrid.BoundarySidesAreTagged | include/mast/mesh/generation/panel3d.hpp:226-242 | every cell side lying on a face of the box gets that face's id |
| Panel3DGrid.DirichletTagsRule | include/mast/mesh/generation/panel3d.hpp:244-258 | a Dirichlet id is put on a side iff the row is in the band, the side is that id's side, and the side carries its plain face tag |
| Panel3DGrid.ConstrainedIdsAreDirichletTags | include/mast/mesh/generation/panel3d.hpp:430-431 | an id the analysis constrains is exactly a Dirichlet id, and it only occurs in the band |
| Panel3DGrid.EveryConstrainedIdIsGenerated | include/mast/mesh/generation/panel3d.hpp:244-258 | on any panel of at least one cell per direction, for HEX8 and HEX27 alike, every row of cells in the Dirichlet band has a cell carrying each id the analysis constrains at lines 430-431 (6-9) on the side it belongs to |
| Panel3DMesh.Mesh.constructor | include/mast/mesh/generation/panel3d.hpp:121 | an empty mesh |
| Panel3DMesh.Mesh.Clear | include/mast/mesh/generation/panel3d.hpp:135 | no nodes, elements, boundary entries or reservations remain |
| Panel3DMesh.Mesh.AddPoint | include/mast/mesh/generation/panel3d.hpp:168-172 | the node map gets the point at the given id, and nothing else changes |
| Panel3DMesh.Mesh.AddElem | include/mast/mesh/generation/panel3d.hpp:213-215 | the element map gets the element at its id, and nothing else changes |
| Panel3DMesh.Mesh.AddSide | include/mast/mesh/generation/panel3d.hpp:227 | one boundary entry is appended, and nothing else changes |
| Panel3DMesh.CoordinateSpansExtent | include/mast/mesh/generation/panel3d.hpp:169-171 | grid coordinates run from 0 to the extent, in order |
| Panel3DMesh.NodesBuiltStep | include/mast/mesh/generation/panel3d.hpp:165-173 | adding the point with the running counter's id extends the built prefix of nodes by one |
| Panel3DMesh.ElemsBuiltStep | include/mast/mesh/generation/panel3d.hpp:208-259 | adding a cell's element and tags extends the built prefix of elements by one |
| Panel3DMesh.BuildNodes | include/mast/mesh/generation/panel3d.hpp:163-194 | the node loops, with k outermost, create exactly the ids below the node count; id idx(i, j, k) sits at the point of grid point (i, j, k) |
| Panel3DMesh.AddHexElement | include/mast/mesh/generation/panel3d.hpp:212-258 | the element with the cell's nodes is added, and its face and Dirichlet tags are appended in the source's order |
| Panel3DMesh.AddSideIf | include/mast/mesh/generation/panel3d.hpp:226-227 | a guarded add_side appends the tag iff its condition holds |
| Panel3DMesh.AddFaceSides | include/mast/mesh/generation/panel3d.hpp:226-242 | the face tags of the cell are appended in the source's order |
| Panel3DMesh.AddBandSides | include/mast/mesh/generation/panel3d.hpp:244-258 | the Dirichlet tags of the cell are appended in the source's order |
| Panel3DMesh.AddCellElement | include/mast/mesh/generation/panel3d.hpp:206-340 | one pass of the element loop extends the built elements by the next cell |
| Panel3DMesh.BuildElems | include/mast/mesh/generation/panel3d.hpp:202-344 | the element loops create ids 0 .. nx ny nz - 1 consecutively, each with its cell's nodes and tags |
| Panel3DMesh.NodesComplete | include/mast/mesh/generation/panel3d.hpp:163-194 | after the node loops every grid point is in the node map at its idx |
| Panel3DMesh.ElemsComplete | include/mast/mesh/generation/panel3d.hpp:202-340 | after the element loops every cell's element and exactly its tags are present |
| Panel3DMesh.CellNodesExist | include/mast/mesh/generation/panel3d.hpp:217-224 | every node an element refers to was created |
| Panel3DMesh.BuildCube | include/mast/mesh/generation/panel3d.hpp:121-368 | another type fails with "Method only implemented for Hex8/Hex27" and leaves the mesh alone; HEX8/HEX27 give a 3-D mesh with nx ny nz elements and the node count reserved, all nodes built and all elements tagged |
| Panel3DMesh.InitAnalysisDirichletConditions | include/mast/mesh/generation/panel3d.hpp:428-434 | boundary ids {6, 7, 8, 9} are constrained for variables {0, 1, 2} |
| Panel3DSimp.DesignParameterVector.constructor | include/mast/mesh/generation/panel3d.hpp:460 | empty owned and ghosted lists |
| Panel3DSimp.DesignParameterVector.AddTopologyParameter | include/mast/mesh/generation/panel3d.hpp:520 | one owned parameter is appended and the ghosted list is unchanged |
| Panel3DSimp.DesignParameterVector.AddGhostedTopologyParameter | include/mast/mesh/generation/panel3d.hpp:522 | one ghosted parameter is appended and the owned list is unchanged |
| Panel3DSimp.HexPrefix | include/mast/mesh/generation/panel3d.hpp:490-496 | the element loop stops exactly at the first element that is not HEX8/HEX27 |
| Panel3DSimp.DedupMembers | include/mast/mesh/generation/panel3d.hpp:505-510 | the set-based skip keeps exactly the vertex ids met |
| Panel3DSimp.DedupDistinct | include/mast/mesh/generation/panel3d.hpp:505-510 | no vertex is processed twice |
| Panel3DSimp.DistinctCard | include/mast/mesh/generation/panel3d.hpp:488-510 | a repetition-free list is as long as the set of its ids |
| Panel3DSimp.OwnedGhostedSplit | include/mast/mesh/generation/panel3d.hpp:518-522 | each processed node lands in exactly one list: owned iff its dof is in [first_dof, end_dof); every parameter has the volume fraction as value |
| Panel3DSimp.OneParameterPerVertex | include/mast/mesh/generation/panel3d.hpp:488-523 | the two lists together hold one parameter per distinct vertex, and every vertex's parameter is in the list its dof selects |
| Panel3DSimp.FirstEightSnoc | include/mast/mesh/generation/panel3d.hpp:499 | the vertices met grow by the next element's first eight nodes |
| Panel3DSimp.RevisitVertex | include/mast/mesh/generation/panel3d.hpp:505-506 | a vertex met before changes neither the distinct vertices nor the set |
| Panel3DSimp.NewVertex | include/mast/mesh/generation/panel3d.hpp:510-522 | a new vertex is appended to the distinct vertices and to exactly one of the two lists |
| Panel3DSimp.AddVertexParameter | include/mast/mesh/generation/panel3d.hpp:501-522 | one vertex: skipped if met before, otherwise recorded and given its parameter in the list its dof selects |
| Panel3DSimp.AddVertexParameters | include/mast/mesh/generation/panel3d.hpp:499-523 | the first eight nodes of one element, in order |
| Panel3DSimp.InitSimpDvs | include/mast/mesh/generation/panel3d.hpp:456-528 | a density that is not first-order Lagrange fails with the source's message and creates nothing; otherwise the lists gain the owned and ghosted parameters of the distinct vertices of the leading hex elements, at value vf (default 0.2), and a non-hex element fails with "Method requires Hex8/Hex27 element" |
| PenalizedDensitySensitivity.DefaultFieldValues | tests/optimization/topology/simp/penalized_density_sensitivity.cpp:40-50 | the test's field reports 0.5 and, for any field asked about, 0.75; with penalty 3 the value is 0.125 and the derivative 0.5625 |
| PenalizedDensitySensitivity.DualPowTangent | tests/optimization/topology/simp/penalized_density_sensitivity.cpp:99-112 | forward-mode AD of v^p has value v^p and tangent p v^(p-1) d |
| PenalizedDensitySensitivity.AdMatchesAnalytic | tests/optimization/topology/simp/penalized_density_sensitivity.cpp:99-114 | for every field and penalty the AD value is the penalised value and its tangent is the analytic derivative |
| PenalizedDensitySensitivity.ComplexCube | tests/optimization/topology/simp/penalized_density_sensitivity.cpp:86-87 | (v + ih)^3 has real part v^3 - 3 v h^2 and imaginary part 3 v^2 h - h^3 |
| PenalizedDensitySensitivity.ComplexStepErrorForCube | tests/optimization/topology/simp/penalized_density_sensitivity.cpp:76-91 | for penalty 3 the complex-step estimate is the analytic derivative minus exactly dv h^2 |
| PenalizedDensitySensitivity.DerivativeLinearInRawDerivative | tests/optimization/topology/simp/penalized_density_sensitivity.cpp:89 | scaling the raw density derivative scales the penalised derivative |
| PenalizedDensitySensitivity.TestPenalizedDensitySensitivity | tests/optimization/topology/simp/penalized_density_sensitivity.cpp:56-117 | the test computes rho = 0.125 and drho = 0.5625; the AD derivative equals drho and the complex-step one is drho - 0.75 h^2 |
| FESideDataLifecycle.FESideData.constructor | include/mast/fe/libmesh/fe_side_data.hpp:32-37 | uninitialised, with all three owned objects absent |
| FESideDataLifecycle.FESideData.Init | include/mast/fe/libmesh/fe_side_data.hpp:47-61 | a second call fails with "Object already initialized" and changes nothing; the first creates fresh rule, basis and derivative objects with the requested orders and types, binds the derivative to that basis and marks the object initialised |
| FESideDataLifecycle.FESideData.ReinitForSide | include/mast/fe/libmesh/fe_side_data.hpp:64-69 | needs an initialised object; reinitialises the basis on side s of the context's element with the owned rule, then the derivative |
| FESideDataLifecycle.FESideData.Destroy | include/mast/fe/libmesh/fe_side_data.hpp:39-44 | releases exactly the owned objects that exist, in order: none when uninitialised |
| FESideDataLifecycle.Quadrature.constructor | include/mast/fe/libmesh/fe_side_data.hpp:54 | the rule has the requested type and order |
| FESideDataLifecycle.FEBasis.constructor | include/mast/fe/libmesh/fe_side_data.hpp:55 | the basis has the requested order and family |
| FESideDataLifecycle.FEDerivative.constructor | include/mast/fe/libmesh/fe_side_data.hpp:56 | the derivative object is not yet bound |
| FESideDataLifecycle.FEDerivative.SetFEBasis | include/mast/fe/libmesh/fe_side_data.hpp:58 | the derivative is bound to the given basis |
| FESideDataLifecycle.FEBasis.ReinitForSide | include/mast/fe/libmesh/fe_side_data.hpp:67 | the basis records the element, rule and side |
| FESideDataLifecycle.FEDerivative.ReinitForSide | include/mast/fe/libmesh/fe_side_data.hpp:68 | the derivative records the context's element |
| GcmmaRosenbrock.RosenbrockFunction.constructor | tests/optimization/solvers/gcmma_interface.cpp:42-49 | a = 1, b = 100, nothing recorded; 2 variables, no equality or inequality constraints |
| GcmmaRosenbrock.RosenbrockFunction.InitDvar | tests/optimization/solvers/gcmma_interface.cpp:50-57 | start point (5, -5) with bounds [-10, 10]^2, one entry per variable, and the start lies within the bounds |
| GcmmaRosenbrock.RosenbrockFunction.Evaluate | tests/optimization/solvers/gcmma_interface.cpp:59-75 | the objective is the Rosenbrock value, non-negative when b >= 0; the gradient is written iff it is asked for and otherwise comes back unchanged |
| GcmmaRosenbrock.RosenbrockFunction.Output | tests/optimization/solvers/gcmma_interface.cpp:77-84 | records the reported objective and design vector, and a and b are unchanged |
| GcmmaRosenbrock.ObjectiveNonNegative | tests/optimization/solvers/gcmma_interface.cpp:67 | with b >= 0 the objective is never negative |
| GcmmaRosenbrock.GlobalMinimiser | tests/optimization/solvers/gcmma_interface.cpp:67 | (a, a^2) has objective 0 and no point has a smaller one |
| GcmmaRosenbrock.GradientZeroAtMinimiser | tests/optimization/solvers/gcmma_interface.cpp:69-74 | the gradient vanishes at (a, a^2) |
| GcmmaRosenbrock.GradientIsFirstOrderTerm | tests/optimization/solvers/gcmma_interface.cpp:69-74 | the gradient components are the partial derivatives: moving one coordinate by h changes the objective by h times the component plus an explicit h^2 term |
| GcmmaRosenbrock.DefaultFixtureMinimum | tests/optimization/solvers/gcmma_interface.cpp:102-103 | for a = 1, b = 100 the objective is 0 at (1, 1), non-negative everywhere, and the gradient vanishes at (1, 1) |

## Left out

- Element operator and DOF map: the operator of `assemble` is an abstract pair of functions of the element, the field and the local solution. The DOF map is a per-element index sequence.
- Constraints in the scatters: the `constrain_and_add_*` routines are plain additive scatters. libMesh's hanging-node and Dirichlet constraint equations are not part of this model.
- Finalisation: `finalize` is a recorded flag, with no cross-process communication.
- Element iteration: the active-local element range is the given element sequence. Parallel partitioning and communicators are not modelled.
- Unused local Jacobian: with J absent, the element operator receives no Jacobian buffer. The model keeps the caller's buffer unchanged.
- ResidualSensitivityAssembly.ResidualSensitivity.Assemble: requires the element operator to be set when an output is requested and the element range is not empty, because the source then dereferences it unchecked. With neither output, or no elements, the operator is never used and may be unset.
- ResidualSensitivityAssembly.ResidualSensitivity.Assemble: requires the finalisation flag to be assigned when J is given. The source reads it unassigned; see Findings.
- The eigen solve and `Approx` checks: the generalized eigen solver, the 10% `Approx` tolerances and the ADOL-C and complex-step parts of the eigen test are floating-point library numerics. `SensitivityOfExactEigenpair` instead states the exact-eigenpair identity the tolerance check approximates.
- Element-matrix initialisation: lines 68-69 of the eigen test join the two comma initialisers with the built-in comma operator. Each initialiser still runs and fills its matrix, so the code produces k_e = [[1, -1], [-1, 1]] and m_e = [[2/3, 1/3], [1/3, 2/3]], the values the model uses.
- The comment at line 74 of the eigen test speaks of 11 elements; the model follows the code, which uses n = 100.
- Mesh construction side effects in `Panel3D`: sideset and nodeset names, `prepare_for_use`, `init_analysis_mesh` (GetPot inputs, element-type promotion, `MeshRefinement`, `flatten`) are not modelled.
- `Panel3D::Pressure` is not modelled: it is floating-point `fabs` tests on a type from another file.
- `build_pressure_load` is not modelled, for the same reason.
- Grid coordinates: with a zero division count along an axis the node loop still runs for index 0 along it, and the source computes 0/0 x extent, which is NaN. The model creates those nodes at coordinate 0.0 instead. Only the element loops are empty in that case.
- Node counters: `node_id` and `n` in `build_cube` always agree, so one counter is modelled.
- HEX27 element loop: it steps i, j and k by 2 over the doubled grid. The model loops over cell indices and uses twice the index.
- Node identity: nodes are identified by id, not by address.
- Node data in `init_simp_dvs`: the position and density dof of a node are a total function `info`. The density system is not modelled.
- Early `continue` in `init_simp_dvs`: modelled as an early return of `AddVertexParameter`.
- `DesignParameter` is allocated with `new` in the source and never freed. The model keeps it as a value.
- Parallel finish of `init_simp_dvs`: `dvs.synchronize` and `solution->close()` are parallel communication and are not modelled.
- libMesh enum codes: the element family and order are the codes LAGRANGE = 0 and FIRST = 1. Both source assertions carry the same message, so one combined check is modelled.
- Hex8 side table: libMesh's table is restated as a constant.
- SIMP density: the `PenalizedDensity` header is not part of this model. Its law is taken as value v^p and derivative p v^(p-1) dv.
- SIMP penalty: the penalty is a natural number, not a real exponent.
- ADOL-C and complex-step: rounding and the step size are not modelled. These instances are exact dual and complex numbers, so `ComplexStepErrorForCube` gives the exact gap.
- The GCMMA optimiser loop and its communicator are foreign calls and are not modelled.
- The fixture's final `CHECK`s: `DefaultFixtureMinimum` states what they approximate.
- GcmmaRosenbrock.RosenbrockFunction.Evaluate: the constraint outputs `fvals`, `eval_grads` and `grads` are not parameters, because the fixture never writes them.
- FESideData ownership: ownership is modelled with references, not memory. `Destroy` reports which objects the destructor deletes.
- FESideData element operations: the basis and derivative objects record what they were reinitialised with. Their numerics are not modelled.
- Scalars are exact reals, with no rounding.

## Findings

| source | as written | input that shows it | evidently intended | confidence | as-written member | corrected member |
|---|---|---|---|---|---|---|
| include/mast/base/assembly/libmesh/residual_sensitivity.hpp:96 | the constructor (lines 30-32) never initialises `_finalize_jac` (line 101), and `assemble` reads it whenever J is given | a freshly constructed assembler with `set_elem_ops` called, and `assemble` with J non-null: whether J is finalised is undefined | the flag is assigned before `assemble` reads it, and J is finalised exactly when the flag holds | not executed | ResidualSensitivityAssembly.FreshAssemblerReadsUnsetFlag | ResidualSensitivityAssembly.ResidualSensitivity.Assemble |
