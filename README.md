# vkrm core, modelled in Dafny

This project models the non-graphical core of vkrm, a Vulkan renderer and editor for
tetrahedral scenes. It covers six parts.

- **Mesh-deformation gizmos** (`LagragianMove.hpp`, `PBDMove.hpp`). Both start from a
  list of handle vertices and find a local region of the mesh with a breadth-first
  search over vertex adjacency. A reached neighbour is *active* when it lies strictly
  within the radius of some handle, as decided by a uniform grid of handle buckets, and
  *boundary* otherwise. `initLa`/`updateLa` build and feed a graph-Laplacian system on
  that region. `initPBD`/`updatePBD` build particles, distance constraints and volume
  constraints, and step them with XPBD.
- **Vertex selection and grab** (`VertexSelection.hpp`). This is a state machine over
  a committed selection, a depth-sorted candidate list with a cursor, and the
  positions recorded when a grab begins.
- **Sort keys.** `SortUtils.h` has the order-preserving float key and its inverse.
  `morton_sort_ply.py` has the 64-bit Morton code and the vertex/tetrahedron
  reindexing by that code.
- **COLMAP reader** (`ColmapUtils.h`). This covers byte order and the record layout
  of `cameras.bin` and `images.bin`, parsed from byte sequences.
- **Test-mesh generators** (`create_test_ply.py`).
- **Benchmark driver** (`BenchmarkApp.cpp`). This covers the `llffHold` camera filter
  and the per-frame benchmark state.

Modules:

- `Geometry`, `Mesh`: shared data — real-valued 3-vectors, the scene mesh as a record, and the scene whose positions `UpdateVertices` rewrites.
- `HandleGrid`, `Region`, `OrderedSet`: the handle grid and its query, the region search, and the `std::set`/`std::map` orders the solvers rely on.
- `Lagrangian`, `Pbd`, `PbdSolve`: the two solvers.
- `VertexSelection`.
- `SortUtils`, `Morton`, `Reindex`.
- `Endian`, `Colmap`, `ColmapFormat`: the reader, plus an encoder of well-formed files used to state round trips.
- `TestPly`, `Benchmark`.

Imperative source code is modelled by methods over sequences, maps, sets, arrays and
classes. Every method is proved against a specification function or predicate, and
the lemmas state what those specifications mean.

## Model

| member | source | states |
|---|---|---|
| Geometry.DistanceSquared | src/Gizmos/LagragianMove.hpp:26-31 | the squared distance is never negative and is zero between equal points |
| Geometry.SignedVolumeOrientation | src/Gizmos/PBDMove.hpp:48-50 | swapping two corners negates the signed volume; a tetrahedron whose last corner repeats the first has volume 0 |
| Geometry.AxisGapBelowRadius | src/Gizmos/LagragianMove.hpp:26-31 | a squared distance below r² bounds every coordinate difference by r |
| HandleGrid.BuildGrid | src/Gizmos/LagragianMove.hpp:55-66 | the grid buckets each handle exactly in the cell floor(p / cellSize) of its position, and buckets nothing else |
| HandleGrid.CellOf | src/Gizmos/LagragianMove.hpp:60-64 | on each axis the point lies in its cell: cell·size <= coordinate < (cell + 1)·size |
| HandleGrid.NearHandleInNeighbourCell | src/Gizmos/LagragianMove.hpp:91-101 | with cell size = radius, a handle strictly within the radius of p lies in one of the 27 cells around p's cell |
| HandleGrid.FloorsClose | src/Gizmos/LagragianMove.hpp:91-95 | reals less than one apart have floors at most one apart |
| HandleGrid.ScanCell | src/Gizmos/LagragianMove.hpp:103-110 | the bucket scan finds a hit iff some handle in the bucket has squared distance below r² |
| HandleGrid.ScanColumn | src/Gizmos/LagragianMove.hpp:100-111 | a hit means a handle is within radius; no hit means the three cells of the column hold none |
| HandleGrid.ScanPlane | src/Gizmos/LagragianMove.hpp:99-112 | a hit means a handle is within radius; no hit means the nine cells of the plane hold none |
| HandleGrid.Query | src/Gizmos/LagragianMove.hpp:89-115 | the 3×3×3 grid scan answers true iff some handle (brute force over all handles) is strictly within the radius |
| HandleGrid.NoHandleOutsideScannedCells | src/Gizmos/LagragianMove.hpp:97-113 | if none of the 27 cells holds a near handle then no handle at all is near |
| HandleGrid.BucketedInRange | src/Gizmos/LagragianMove.hpp:58-66 | every bucketed id is a handle and a vertex id |
| Region.Discover | src/Gizmos/LagragianMove.hpp:68-125 | the result is a region: handles active, the two sets disjoint, non-handle active vertices near a handle, boundary vertices near none, every neighbour of an active vertex classified, every active vertex reached through active vertices |
| Region.Seed | src/Gizmos/LagragianMove.hpp:75-79 | the queue starts as the handle list, every handle is active and nothing is boundary |
| Region.Dequeue | src/Gizmos/LagragianMove.hpp:81-125 | one dequeue keeps the search invariant and either classifies a new vertex or shortens the queue (termination) |
| Region.VisitNeighbours | src/Gizmos/LagragianMove.hpp:85-124 | after the neighbour loop every neighbour of v is active or boundary, the sets only grow, and exactly the new active vertices are enqueued |
| Region.Classify | src/Gizmos/LagragianMove.hpp:86-123 | an unvisited neighbour becomes active when the grid query finds a handle within radius, else boundary |
| Region.ReachedIsRegion | src/Gizmos/LagragianMove.hpp:68-125 | the loop invariant plus closure at an empty queue is the region specification |
| Region.AddActive | src/Gizmos/LagragianMove.hpp:118-120 | adding a near neighbour as active keeps classification and reachability |
| Region.AddBoundary | src/Gizmos/LagragianMove.hpp:121-123 | adding a far neighbour as boundary keeps classification and reachability |
| Region.NearMonotone | src/Gizmos/LagragianMove.hpp:105 | a vertex within radius r is within any larger radius |
| Region.OrderedWithin | src/Gizmos/LagragianMove.hpp:81-125 | every vertex reached at radius r is active in the region for any larger radius |
| Region.RegionMonotoneInRadius | src/Gizmos/LagragianMove.hpp:68-125 | a larger radius gives a superset of active vertices and of classified vertices |
| Region.RegionUnique | src/Gizmos/LagragianMove.hpp:68-125 | the active and boundary sets do not depend on the visiting order |
| OrderedSet.AscendingSpec | src/Gizmos/LagragianMove.hpp:130-131 | iterating a std::set lists each element once, in strictly increasing order |
| OrderedSet.ToAscending | src/Gizmos/LagragianMove.hpp:130-131 | the method lists the set in ascending order |
| OrderedSet.IndexMap | src/Gizmos/LagragianMove.hpp:133-136 | the map sends problem_vertices[i] to i, and every key is some problem_vertices[i] |
| Lagrangian.ProblemVerticesDistinct | src/Gizmos/LagragianMove.hpp:130-131 | ascending active then ascending boundary vertices is a duplicate-free listing of the union, of size |active|+|boundary| |
| Lagrangian.NeighbourEntriesSum | src/Gizmos/LagragianMove.hpp:157-165 | the off-diagonal entries of a free row sum to minus its in-problem degree |
| Lagrangian.NeighbourEntriesShape | src/Gizmos/LagragianMove.hpp:158-165 | each off-diagonal entry is −1 in the row, at the local index of an in-problem neighbour, and there are degree of them |
| Lagrangian.RowShape | src/Gizmos/LagragianMove.hpp:146-168 | a handle or boundary row is the single diagonal 1.0; a free row is −1 per in-problem neighbour, then the degree on the diagonal, summing to 0 |
| Lagrangian.AssembleRowsBelow | src/Gizmos/LagragianMove.hpp:146-168 | every triplet lies in a row of the sub-problem |
| Lagrangian.AssembledRow | src/Gizmos/LagragianMove.hpp:146-168 | the triplets of row i of the assembled system are exactly the row built for problem vertex i |
| Lagrangian.NoPinsOutsideBoundary | src/Gizmos/LagragianMove.hpp:152-154 | non-boundary vertices contribute no boundary constraint |
| Lagrangian.PinsAreBoundary | src/Gizmos/LagragianMove.hpp:149-154 | the boundary constraints are the boundary vertices in local order with their rest positions |
| Lagrangian.AssembledPins | src/Gizmos/LagragianMove.hpp:149-154 | boundary_constraints lists exactly the boundary vertices, ascending, with rest positions |
| Lagrangian.Assemble | src/Gizmos/LagragianMove.hpp:146-168 | at least one triplet per problem vertex (the diagonal entry) |
| Lagrangian.Rhs | src/Gizmos/LagragianMove.hpp:182-202 | one right-hand-side entry per problem vertex |
| Lagrangian.HandleWritesMeaning | src/Gizmos/LagragianMove.hpp:188-196 | a local index receives a handle target iff some handle in the map has it, and then the last such target |
| Lagrangian.PinWritesMeaning | src/Gizmos/LagragianMove.hpp:197-202 | the pins write exactly the local indices after the active block, each the rest coordinate |
| Lagrangian.RhsEntries | src/Gizmos/LagragianMove.hpp:183-202 | a right-hand-side entry is the rest coordinate for a boundary vertex, the last target for a targeted active vertex, and 0 otherwise |
| Lagrangian.DeformationContext.constructor | src/Gizmos/LagragianMove.hpp:34-46 | a fresh context is empty |
| Lagrangian.DeformationContext.InitLa | src/Gizmos/LagragianMove.hpp:48-174 | no handles leaves the context unchanged; otherwise the context holds the region's problem vertices, the index map, the assembled system and the boundary pins |
| Lagrangian.DeformationContext.UpdateLa | src/Gizmos/LagragianMove.hpp:176-224 | an empty problem gives no updates; otherwise one (global id, solved x/y/z) pair per problem vertex in local order |
| Lagrangian.DeformationContext.BuildRhs | src/Gizmos/LagragianMove.hpp:180-202 | the right-hand side is zeros, then the mapped handle targets, then the boundary pins |
| Lagrangian.Prepare | src/Gizmos/LagragianMove.hpp:48-168 | the region found by the search, then the sub-problem built on it |
| Lagrangian.BuildProblem | src/Gizmos/LagragianMove.hpp:129-168 | problem vertices are ascending active then ascending boundary, the map inverts them, and the system and pins are assembled from them |
| Lagrangian.AssembleSystem | src/Gizmos/LagragianMove.hpp:146-168 | the row loop produces the assembled triplets and the boundary pins |
| Lagrangian.LaplacianRow | src/Gizmos/LagragianMove.hpp:156-166 | the neighbour loop yields the off-diagonal entries and the in-problem degree |
| PbdSolve.StiffnessKernel | src/Gizmos/PBDMove.hpp:52-56 | the kernel is at least 1e-10, in fact at least 0.01, and exactly 0.01 at 0 |
| PbdSolve.StiffnessMonotone | src/Gizmos/PBDMove.hpp:52-56 | the kernel grows with a non-negative argument |
| PbdSolve.NearestMean | src/Gizmos/PBDMove.hpp:237-244 | k_x is at most 9999, no more than the mean distance to any handle, and equal to 9999 or to one of those means |
| PbdSolve.StiffNearHandles | src/Gizmos/PBDMove.hpp:237-248 | the compliance is 0.0001 iff the edge's mean distance to some handle is below 0.05, and otherwise 0.01 |
| PbdSolve.AlphaTildeNonNegative | src/Gizmos/PBDMove.hpp:290 | the scaled compliance alpha/dt² is non-negative |
| PbdSolve.ProjectDistanceFrame | src/Gizmos/PBDMove.hpp:280-302 | projecting changes only predicted positions, only of the two endpoints, and never a zero-inverse-mass particle |
| PbdSolve.ProjectDistance | src/Gizmos/PBDMove.hpp:280-302 | one particle out per particle in |
| PbdSolve.ProjectDistanceSkips | src/Gizmos/PBDMove.hpp:283-286 | length below 1e-6 or inverse-mass sum below 1e-6 changes nothing |
| PbdSolve.ProjectDistanceMoves | src/Gizmos/PBDMove.hpp:288-301 | otherwise each endpoint moves by the correction times its own inverse mass, in opposite directions |
| PbdSolve.ProjectDistanceBalanced | src/Gizmos/PBDMove.hpp:300-301 | the two moves weighted by the other endpoint's inverse mass cancel |
| PbdSolve.ProjectDistanceSeparation | src/Gizmos/PBDMove.hpp:293-301 | the new separation is the old one plus the correction times the inverse-mass sum |
| PbdSolve.ZeroComplianceReachesRest | src/Gizmos/PBDMove.hpp:288-301 | with compliance 0 one projection sets the separation to the rest length along the old direction |
| PbdSolve.ExactCorrection | src/Gizmos/PBDMove.hpp:290-297 | with compliance 0 the correction scales the separation by rest/length |
| PbdSolve.SolveVolumeFrame | src/Gizmos/PBDMove.hpp:304-338 | the volume projection changes only predicted positions, never a zero-inverse-mass particle, and nothing when the weighted gradient sum is below 1e-9 |
| PbdSolve.SolveVolume | src/Gizmos/PBDMove.hpp:304-338 | a corner with inverse mass 0 is left exactly as it was |
| PbdSolve.GradientsSumToZero | src/Gizmos/PBDMove.hpp:317-320 | the four volume gradients sum to zero |
| PbdSolve.GradientsAreExact | src/Gizmos/PBDMove.hpp:309-320 | moving any one of the four corners by d changes the signed volume by exactly that corner's gradient dotted with d |
| PbdSolve.FirstGradientIsExact | src/Gizmos/PBDMove.hpp:305-317 | moving p1 by d changes the signed volume by exactly d dotted with grad1 = cross(p2 − p3, p4 − p3) / 6 |
| PbdSolve.SolveVolumeKeepsCentroid | src/Gizmos/PBDMove.hpp:331-337 | with equal inverse masses the volume projection keeps the sum of the four predicted positions |
| Pbd.MakeParticles | src/Gizmos/PBDMove.hpp:162-182 | one particle per island vertex in order, at rest with zero velocity, inverse mass 0 exactly when pinned, and the map inverts the list |
| Pbd.Ordered | src/Gizmos/PBDMove.hpp:230 | the edge's endpoints in ascending order |
| Pbd.AddEdgeSound | src/Gizmos/PBDMove.hpp:226-252 | adding an edge keeps the edge bookkeeping sound: a constraint only for an unseen normalised pair, which is then recorded |
| Pbd.EndpointsDistinct | src/Gizmos/PBDMove.hpp:226-252 | no two distance constraints share a vertex pair in either order: their normalised edges differ and neither is the other reversed |
| Pbd.TetMarked | src/Gizmos/PBDMove.hpp:209-258 | marking a contained, unprocessed tetrahedron after its volume constraint and six edges keeps the tetrahedron bookkeeping sound |
| Pbd.NearestHandleMean | src/Gizmos/PBDMove.hpp:237-244 | the handle loop computes k_x |
| Pbd.InsertEdge | src/Gizmos/PBDMove.hpp:228-252 | the loop body for one tetrahedron edge |
| Pbd.ProcessTet | src/Gizmos/PBDMove.hpp:196-259 | a processed or not fully contained tetrahedron changes nothing; a contained one is processed and the bookkeeping stays sound |
| Pbd.VisitTets | src/Gizmos/PBDMove.hpp:195-260 | after the incidence loop every contained incident tetrahedron is processed, and only these |
| Pbd.BuildConstraints | src/Gizmos/PBDMove.hpp:184-261 | constraints are sound; every contained tetrahedron incident to the island is processed once, and no other |
| Pbd.ConstraintsInRange | src/Gizmos/PBDMove.hpp:233-248 | every constraint refers to particles, and every compliance is 0.0001 or 0.01 |
| Pbd.Populate | src/Gizmos/PBDMove.hpp:147-261 | particles and constraints of an island |
| Pbd.Prepare | src/Gizmos/PBDMove.hpp:58-261 | the island is active ∪ boundary ∪ handles, ascending, with handles and boundary pinned, plus its constraints |
| Pbd.WriteHandlesMeaning | src/Gizmos/PBDMove.hpp:349-355 | each particle's position becomes the last target naming its global id, else stays; nothing else changes |
| Pbd.ProjectAllFrame | src/Gizmos/PBDMove.hpp:370-374 | a pass over the distance constraints changes only predicted positions of free particles |
| Pbd.IterateFrame | src/Gizmos/PBDMove.hpp:369-381 | the solver iterations change only predicted positions of free particles |
| Pbd.IterateNothing | src/Gizmos/PBDMove.hpp:369-381 | with no constraints the iterations change nothing |
| Pbd.StepKeepsBodies | src/Gizmos/PBDMove.hpp:342-396 | a step keeps every particle's global id and inverse mass, so the index map stays valid |
| Pbd.Step | src/Gizmos/PBDMove.hpp:342-396 | one particle out per particle in |
| Pbd.StepPinned | src/Gizmos/PBDMove.hpp:349-366 | a pinned particle ends at its (possibly targeted) position, predicted equal to it, velocity unchanged |
| Pbd.StepFree | src/Gizmos/PBDMove.hpp:387-391 | a free particle commits its predicted position and gets velocity (new − start)/dt |
| Pbd.StepInertial | src/Gizmos/PBDMove.hpp:357-366 | without constraints a free particle moves by its velocity times the context's dt |
| Pbd.RunKeepsUntargeted | src/Gizmos/PBDMove.hpp:342-396 | a pinned particle that no frame targets keeps its position across any number of steps |
| Pbd.WriteTargets | src/Gizmos/PBDMove.hpp:349-355 | the handle-writing loop |
| Pbd.PredictParticles | src/Gizmos/PBDMove.hpp:358-366 | the prediction loop |
| Pbd.Solve | src/Gizmos/PBDMove.hpp:369-381 | the solver loop: 16 passes over the distance constraints |
| Pbd.CommitParticles | src/Gizmos/PBDMove.hpp:387-393 | the commit loop, and one (global id, position) pair per particle in particle order |
| Pbd.PBDContext.constructor | src/Gizmos/PBDMove.hpp:36-45 | a fresh context is empty |
| Pbd.PBDContext.InitPBD | src/Gizmos/PBDMove.hpp:58-262 | no handles clears particles, both constraint lists and the map; otherwise the context is the prepared island |
| Pbd.PBDContext.UpdatePBD | src/Gizmos/PBDMove.hpp:342-396 | particles become one step of the model, constraints and map are kept, and one pair per particle is returned |
| Mesh.WrittenMapMeaning | src/Gizmos/VertexSelection.hpp:147 | an id is written iff some update names it, and then with the last update naming it |
| Mesh.AppliedIsOverwrite | src/Gizmos/VertexSelection.hpp:147 | applying the updates in order equals overwriting with the last write per id |
| Mesh.Scene.UpdateVertices | src/Gizmos/VertexSelection.hpp:147 | the positions after applying the updates in order |
| VertexSelection.WritesFor | src/Gizmos/VertexSelection.hpp:212-216 | one update per key, carrying the target of that key |
| VertexSelection.AppliedFrom | src/Gizmos/VertexSelection.hpp:212-219 | applying such updates sets exactly the named vertices to their targets and keeps all others |
| VertexSelection.HitsMeaning | src/Gizmos/VertexSelection.hpp:250-265 | the candidates are exactly the vertices with w > 0 and screen distance² below radius², ascending by id, each with its clip z as depth |
| VertexSelection.HitsDepth | src/Gizmos/VertexSelection.hpp:250-262 | every candidate names a vertex in range and carries that vertex's clip-space z |
| VertexSelection.HitsIncreasing | src/Gizmos/VertexSelection.hpp:250-265 | the candidates come in strictly increasing vertex order, so no vertex appears twice |
| VertexSelection.HitsExactly | src/Gizmos/VertexSelection.hpp:250-265 | a vertex is a candidate exactly when it passes the screen test |
| VertexSelection.Hits | src/Gizmos/VertexSelection.hpp:250-265 | no more candidates than vertices, each naming a vertex in range |
| VertexSelection.InsertByDepth | src/Gizmos/VertexSelection.hpp:267-269 | inserting into a depth-ordered list keeps it ordered and adds exactly one element |
| VertexSelection.SortByDepth | src/Gizmos/VertexSelection.hpp:267-269 | the result is ordered by non-decreasing depth and is a permutation of the input |
| VertexSelection.CollectCandidates | src/Gizmos/VertexSelection.hpp:248-265 | the collecting loop produces the hits |
| VertexSelection.IdsOf | src/Gizmos/VertexSelection.hpp:271-274 | the candidate ids in order |
| VertexSelection.Rank | src/Gizmos/VertexSelection.hpp:248-274 | the ids are the hits reordered by depth |
| VertexSelection.Record | src/Gizmos/VertexSelection.hpp:160-167 | initial positions are recorded for exactly the selection, and the anchor is their mean |
| VertexSelection.NdcDepth | src/Gizmos/VertexSelection.hpp:169-175 | the depth times w is the clip z when w is non-zero; the depth is 0 when w is 0 |
| VertexSelection.UnderMouse | src/Gizmos/VertexSelection.hpp:186-206 | when the unprojected point has non-zero w, the result times w is that point: the perspective divide of the mouse position at the anchor depth |
| VertexSelection.Clamp | src/Gizmos/VertexSelection.hpp:281-285 | the result lies in [lo, hi], equals the input inside it and the nearer bound outside |
| VertexSelection.CentroidFollows | src/Gizmos/VertexSelection.hpp:209-219 | moving every recorded vertex by the same vector moves their mean by that vector |
| VertexSelection.VertexHighlightRenderer.Current | src/Gizmos/VertexSelection.hpp:122-124 | at most one current candidate, present exactly when the candidate list is non-empty |
| VertexSelection.VertexHighlightRenderer.constructor | src/Gizmos/VertexSelection.hpp:17-32 | the initial state: nothing selected, cursor −1, radius 10, idle |
| VertexSelection.VertexHighlightRenderer.GetSelection | src/Gizmos/VertexSelection.hpp:120-126 | the committed set plus the current candidate, each once |
| VertexSelection.VertexHighlightRenderer.ExtendSelection | src/Gizmos/VertexSelection.hpp:128-133 | the current candidate joins the committed set (no-op without one); the selection radius, the grab anchor and its depth are unchanged, and nothing else changes |
| VertexSelection.VertexHighlightRenderer.ClearSelection | src/Gizmos/VertexSelection.hpp:135-137 | the committed set is emptied, leaving only the current candidate selected; the selection radius, the grab anchor and its depth are unchanged |
| VertexSelection.VertexHighlightRenderer.MoveSelection | src/Gizmos/VertexSelection.hpp:139-148 | every selected vertex moves by the vector; no other vertex changes |
| VertexSelection.VertexHighlightRenderer.BeginGrab | src/Gizmos/VertexSelection.hpp:152-176 | an empty selection changes nothing (anchor, depth and grab order kept); otherwise grabbing, with the selection's positions recorded, the anchor their mean and its depth kept; the selection radius is unchanged |
| VertexSelection.VertexHighlightRenderer.UpdateGrab | src/Gizmos/VertexSelection.hpp:178-220 | every recorded vertex goes to its initial position plus one common move vector; no other vertex changes |
| VertexSelection.VertexHighlightRenderer.ConfirmGrab | src/Gizmos/VertexSelection.hpp:222-226 | idle, with no recorded positions and no scene change; the selection radius, the grab anchor and its depth are unchanged |
| VertexSelection.VertexHighlightRenderer.CancelGrab | src/Gizmos/VertexSelection.hpp:228-239 | idle, and every recorded vertex is restored to its initial position; the selection radius, the grab anchor and its depth are unchanged |
| VertexSelection.VertexHighlightRenderer.UpdateCandidates | src/Gizmos/VertexSelection.hpp:242-277 | the candidates are the hits ordered by depth; the cursor is 0, or −1 when there are none; the grab anchor and its depth are unchanged |
| VertexSelection.VertexHighlightRenderer.CycleSelection | src/Gizmos/VertexSelection.hpp:279-286 | no-op on an empty list; otherwise the cursor is index + delta clamped to the list; the selection radius, the grab anchor and its depth are unchanged |
| VertexSelection.GrabThenCancel | src/Gizmos/VertexSelection.hpp:152-239 | begin, any number of updates, then cancel leaves the scene exactly as before |
| SortUtils.FloatKey | src/SortUtils.h:3-9 | a non-negative pattern has only its sign bit flipped, a negative one is complemented, and negative patterns get exactly the keys below 0x80000000 |
| SortUtils.InverseFloatKey | src/SortUtils.h:10-15 | a key at or above 0x80000000 loses its sign bit and gives a non-negative pattern; a lower key is complemented into a negative one |
| SortUtils.KeyThenInverse | src/SortUtils.h:3-15 | the inverse undoes the key on every pattern |
| SortUtils.InverseThenKey | src/SortUtils.h:3-15 | the key undoes the inverse on every key, so the key is a bijection |
| SortUtils.KeyInjective | src/SortUtils.h:3-9 | distinct patterns have distinct keys |
| SortUtils.KeyPreservesOrder | src/SortUtils.h:3-9 | unsigned order of keys is exactly the sign-magnitude order of the patterns |
| SortUtils.BothNegative | src/SortUtils.h:6-8 | on negative patterns the key reverses unsigned order |
| SortUtils.BothNonNegative | src/SortUtils.h:6-8 | on non-negative patterns the key preserves unsigned order |
| SortUtils.MixedSigns | src/SortUtils.h:4-8 | every negative pattern's key is below every non-negative pattern's key |
| Morton.SplitIsSpread | morton_sort_ply.py:7-14 | for a 21-bit x, the five mask-and-shift rounds put bit i of x at bit 3i and clear all other bits |
| Morton.SplitBy3Bits21 | morton_sort_ply.py:7-14 | the result has bits only at positions that are multiples of 3 (inside the mask 0x1249249249249249) |
| Morton.MortonCode64 | morton_sort_ply.py:6-32 | the three 21-bit lanes fill bits 0 to 62 only, so the top bit of every code is clear |
| Morton.SplitLanes | morton_sort_ply.py:7-14 | the split uses only bit positions ≡ 0 mod 3 |
| Morton.CompactSplit | morton_sort_ply.py:7-14 | taking every third bit inverts the split |
| Morton.DeinterleaveInterleave | morton_sort_ply.py:29 | the interleaved code gives back (x, y, z) |
| Morton.DecodeX | morton_sort_ply.py:29 | x is recovered from the bits ≡ 0 mod 3 |
| Morton.DecodeY | morton_sort_ply.py:29 | y is recovered from the bits ≡ 1 mod 3 |
| Morton.DecodeZ | morton_sort_ply.py:29 | z is recovered from the bits ≡ 2 mod 3 |
| Morton.RelocateSign | morton_sort_ply.py:25-27 | the relocated value fits in 21 bits |
| Morton.RelocateIsTwosComplement21 | morton_sort_ply.py:21-27 | for a clipped coordinate in [−2^20, 2^20), the relocated value is its 21-bit two's complement, and flipping bit 20 gives p + 2^20 in [0, 2^21) |
| Morton.MortonIsOffsetInterleave | morton_sort_ply.py:25-32 | the code is the interleave of the coordinates offset by 2^20 |
| Morton.CodeFlipsSignBits | morton_sort_ply.py:29-32 | the final XOR flips exactly the relocated sign bit of each axis |
| Morton.MortonInjective | morton_sort_ply.py:21-32 | distinct clipped coordinate triples have distinct codes |
| Reindex.Codes | morton_sort_ply.py:42 | one code per vertex, in vertex order |
| Reindex.Scatter | morton_sort_ply.py:48-49 | the scatter puts old vertex i at index_map[i] |
| Reindex.Gather | morton_sort_ply.py:48-49 | the gather puts old vertex index_map[k] at k |
| Reindex.RemapTets | morton_sort_ply.py:51-55 | every tetrahedron corner c becomes relabel[c] |
| Reindex.Invert | morton_sort_ply.py:51-55 | the inverse permutation: rank[m[k]] = k and m[rank[v]] = v |
| Reindex.ReorderAsWritten | morton_sort_ply.py:48-55 | scatter then remap: old vertex i lands at index_map[i], every tetrahedron corner becomes index_map of its old value, and every corner still names the same position |
| Reindex.Reorder | morton_sort_ply.py:45-55 | gather then remap by the inverse: the vertices are sorted by code, index_map of every new tetrahedron corner is its old value, and every corner still names the same position |
| Reindex.GatherSorts | morton_sort_ply.py:45-49 | gathering through an argsort sorts the codes |
| Reindex.ScatterDoesNotSort | morton_sort_ply.py:45-49 | scattering through an argsort of [2, 0, 1] gives [1, 2, 0], which is not sorted |
| Reindex.ArgsortExample | morton_sort_ply.py:45 | [1, 2, 0] is the argsort of [2, 0, 1] |
| Endian.LittleEndianRoundTrip | src/ColmapUtils.h:57-62 | writing a value that fits in n bytes and reading it back gives the value |
| Endian.ReversedAt | src/ColmapUtils.h:37-46 | byte i of the reversal is byte n−1−i of the input |
| Endian.ReversedTwice | src/ColmapUtils.h:37-46 | reversing twice is the identity |
| Endian.ReverseBytes | src/ColmapUtils.h:37-46 | the byte loop computes the reversal |
| Endian.IsLittleEndian | src/ColmapUtils.h:29-35 | false exactly in a big-endian build |
| Endian.LittleEndianToNative | src/ColmapUtils.h:48-55 | the identity on a little-endian host and the byte reversal on a big-endian one |
| Endian.ReadIsLittleEndian | src/ColmapUtils.h:48-62 | on either host the native value read is the little-endian value of the file bytes |
| Colmap.ULittleEndian | src/ColmapUtils.h:57-62 | the n-byte number at pos is the little-endian value of those bytes |
| Colmap.ReadBinaryLittleEndian | src/ColmapUtils.h:57-62 | the read gives the n-byte little-endian value at the cursor, or nothing past the end |
| Colmap.NameEnd | src/ColmapUtils.h:224-231 | the name end, if found, lies between the cursor and the end of the file |
| Colmap.NameEndIsFirstNul | src/ColmapUtils.h:224-231 | the name ends at the first NUL at or after the cursor; with no NUL none is found |
| Colmap.FirstNul | src/ColmapUtils.h:224-231 | the first NUL after the cursor is where the name ends |
| Colmap.NoNameEnd | src/ColmapUtils.h:224-231 | without a NUL the name never ends |
| Colmap.ReadName | src/ColmapUtils.h:224-231 | the do-while loop yields the bytes before the first NUL and the position after it |
| Colmap.NameLoopHangs | src/ColmapUtils.h:224-231 | as written, with no NUL before the end of the file the do-while loop never finishes, whatever the number of steps allowed |
| Colmap.NameLoopAgrees | src/ColmapUtils.h:224-231 | when a NUL follows, the as-written loop stops right after it with the bytes before it, as the model's reader does |
| Colmap.ReadCameraRecord | src/ColmapUtils.h:188-199 | the six reads of one 56-byte camera record |
| Colmap.CameraLoop | src/ColmapUtils.h:187-200 | the camera loop over the count from the file |
| Colmap.ReadCameraParameters | src/ColmapUtils.h:184-200 | cameras.bin parses as a count and that many records |
| Colmap.ReadCameras | src/ColmapUtils.h:187-200 | a successful read keeps every earlier key, and the file holds all count records |
| Colmap.ParseCameras | src/ColmapUtils.h:185-200 | a successful parse had the 8-byte count and every record it announces |
| Colmap.ReadImage | src/ColmapUtils.h:210-265 | one pass of the image loop |
| Colmap.ImageLoop | src/ColmapUtils.h:209-266 | the image loop over the count from the file |
| Colmap.ReadImageRecords | src/ColmapUtils.h:208-266 | images.bin parses as a count and that many image records |
| Colmap.Entry | src/ColmapUtils.h:257-261 | the entry keeps the pose and intrinsics; each dimension is the 64-bit value cut to 32 bits, and equals it when it fits |
| Colmap.ImageStep | src/ColmapUtils.h:210-265 | a step moves past the record header, keeps every earlier key, and adds only 32-bit dimensions |
| Colmap.ReadImages | src/ColmapUtils.h:209-266 | a successful read keeps every earlier key and adds only 32-bit dimensions |
| Colmap.ParseImages | src/ColmapUtils.h:208-266 | a successful parse had the 8-byte count, and all its dimensions fit 32 bits |
| Colmap.Load | src/ColmapUtils.h:158-269 | a load holds only 32-bit dimensions, and when both files are open it succeeded only if both parsed |
| Colmap.LoadColmapBin | src/ColmapUtils.h:158-269 | an unopened file gives no cameras; otherwise the cameras parsed from both files, or Truncated |
| ColmapFormat.InsertKeys | src/ColmapUtils.h:199 | a key is in the map after the inserts iff it was before or some insert names it |
| ColmapFormat.InsertKeeps | src/ColmapUtils.h:261 | a key no insert names keeps its value |
| ColmapFormat.InsertLastWins | src/ColmapUtils.h:199 | a key maps to the value of the last insert naming it |
| ColmapFormat.InsertAppend | src/ColmapUtils.h:187-200 | inserting a + b is inserting a, then b |
| ColmapFormat.ReadBack | src/ColmapUtils.h:57-62 | an encoded n-byte value reads back as itself |
| ColmapFormat.EncodeCamera | src/ColmapUtils.h:188-197 | a valid camera record encodes to 56 bytes |
| ColmapFormat.CameraPairs | src/ColmapUtils.h:199 | each record contributes its id with its dimensions and intrinsics |
| ColmapFormat.CameraAtDecodes | src/ColmapUtils.h:188-199 | an encoded camera record decodes to its id, dimensions and intrinsics |
| ColmapFormat.ReadCamerasDecodes | src/ColmapUtils.h:187-200 | the camera loop over encoded records inserts their pairs in file order |
| ColmapFormat.ParseCamerasDecodes | src/ColmapUtils.h:185-200 | a file holding a count and that many encoded records parses to their pairs, the last record per id winning |
| ColmapFormat.CamerasRoundTrip | src/ColmapUtils.h:185-200 | encoding then parsing cameras.bin gives back the records, whatever follows them |
| ColmapFormat.NameFields | src/ColmapUtils.h:224-231 | a NUL-free name followed by NUL is read back exactly |
| ColmapFormat.ImageFields | src/ColmapUtils.h:210-231 | an encoded image record decodes to its ids, pose, name and point count |
| ColmapFormat.ImageStepDecodes | src/ColmapUtils.h:210-265 | one pass over an encoded image moves the cursor past the whole record and stores the image under its name when its camera is known |
| ColmapFormat.UnknownCameraDesyncs | src/ColmapUtils.h:233-236 | as written, an image with an unknown camera leaves the cursor on its point count, so the next pass reads the count as an image id |
| ColmapFormat.EncodedStep | src/ColmapUtils.h:209-266 | one pass over an encoded image, for every accumulator |
| ColmapFormat.EncodedSteps | src/ColmapUtils.h:209-266 | successive passes over encoded images each land on the next record |
| ColmapFormat.ReadImagesDecodes | src/ColmapUtils.h:209-266 | the image loop over encoded images inserts their entries in file order |
| ColmapFormat.ParseImagesDecodes | src/ColmapUtils.h:208-266 | a file holding a count and that many encoded images parses to their entries, the last image per name winning |
| ColmapFormat.ImagesRoundTrip | src/ColmapUtils.h:208-266 | encoding then parsing images.bin gives back one entry per image with a known camera |
| ColmapFormat.LoadRoundTrip | src/ColmapUtils.h:158-269 | loading encoded files yields, per image name, the image's pose with its camera's intrinsics and dimensions |
| TestPly.Bump | create_test_ply.py:33 | adding 1.0 to one coordinate moves the point by the unit vector of that axis |
| TestPly.GenTets | create_test_ply.py:25-42 | 4N vertices, N colours and N tetrahedra; vertex 4t+j is corner j of tetrahedron t; colour t is (0.5, 0.5, 0.5, 40) with component t mod 3 set to 1; tetrahedron t is [4t..4t+3]; all indices < 4N and no two tetrahedra share a vertex |
| TestPly.GenTetsVolume | create_test_ply.py:30-34 | every generated tetrahedron has signed volume 1/6 |
| TestPly.Inverse | create_test_ply.py:49 | a non-zero dimension's invShape component times the dimension is 1 |
| TestPly.DifferentCellsDisjoint | create_test_ply.py:76-85 | tetrahedra of different cells share no vertex |
| TestPly.GenTetsSphere | create_test_ply.py:44-87 | 5·N0·N1 vertices, 2·N0·N1 colours and tetrahedra; cell (i, j) holds its five vertices, two colours and two tetrahedra from v0 = 5(i·N1 + j); every index < the vertex count |
| TestPly.AddRow | create_test_ply.py:52-85 | one pass of the outer loop appends row i's cells, extending the lists |
| TestPly.AddCell | create_test_ply.py:53-85 | one pass of the inner loop appends the cell's five vertices, two colours and two tetrahedra |
| TestPly.SphereCellGrows | create_test_ply.py:76-85 | later appends keep earlier cells intact |
| Benchmark.LexIrreflexive | src/BenchmarkApp.cpp:54-56 | no name precedes itself |
| Benchmark.LexTransitive | src/BenchmarkApp.cpp:54-56 | name order is transitive |
| Benchmark.LexTotal | src/BenchmarkApp.cpp:54-56 | of two different names one precedes the other |
| Benchmark.HasLeast | src/BenchmarkApp.cpp:54-56 | a non-empty set of names has a first one |
| Benchmark.LexLess | src/BenchmarkApp.cpp:52-56 | a proper prefix comes first, and no key comes before itself |
| Benchmark.MapToVector | src/BenchmarkApp.cpp:52-56 | the map's values in strictly increasing name order, each name once |
| Benchmark.KeepEvery | src/BenchmarkApp.cpp:60-65 | the kept cameras are positions 0, h, 2h, … of the list, ceil(n/h) of them |
| Benchmark.KeptPosition | src/BenchmarkApp.cpp:62 | a position in the last window is a multiple of h iff it is that window's start |
| Benchmark.CeilCount | src/BenchmarkApp.cpp:60-65 | the count of kept positions is ceil(n/h) |
| Benchmark.LlffFilter | src/BenchmarkApp.cpp:59-68 | with hold > 0, exactly the positions i ≡ 0 mod hold, ceil(n/hold) of them, in order; otherwise all cameras |
| Benchmark.BenchmarkCameras | src/BenchmarkApp.cpp:52-68 | the filter applied to the cameras in name order |
| Benchmark.AsUint | src/BenchmarkApp.cpp:104 | the (uint) cast is below 2^32 and is the identity on values that fit |
| Benchmark.Downsample | src/BenchmarkApp.cpp:100-105 | each dimension is divided rounding down: result·factor <= dimension < (result + 1)·factor |
| Benchmark.BenchmarkSession.constructor | src/BenchmarkApp.cpp:82-88 | not benchmarking, index and frame count 0, no results, no override |
| Benchmark.BenchmarkSession.TryStart | src/BenchmarkApp.cpp:92-111 | Ctrl+O with no run in progress and a non-empty list resets the run and applies camera 0 at the reduced resolution; otherwise nothing changes |
| Benchmark.BenchmarkSession.Step | src/BenchmarkApp.cpp:114-148 | a frame counts itself; at the end of a window it appends one FPS result, advances the camera, and stops with the override cleared after the last one; once stopped, a frame only counts itself and keeps the camera; one result per finished camera throughout |
| Benchmark.BenchmarkSession.Frame | src/BenchmarkApp.cpp:90-148 | a run that ends holds exactly one result per benchmark camera |

## Left out

- The sparse LU factorisation and its solves are a foreign library. `UpdateLa` takes the solver as a function parameter, so no property of the solved positions is claimed.
- Floating point: positions and parameters are reals. `length` is a parameter `norm` with no assumed properties. `float`/`double` rounding, NaN and infinity are not modelled.
- Pbd: the volume-constraint projection is commented out of `updatePBD`. `PbdSolve.SolveVolume` models it on its own.
- PbdSolve.ProjectDistance: requires dt ≠ 0, since the source divides by dt².
- Pbd.Prepare: handles are seeded as visited and are never classified as active or boundary. The island is the source's active ∪ boundary ∪ handles, and the handles are pinned members of it. The shared region search counts handles in its active set, so the island is written as active ∪ boundary; the result is the same set.
- HandleGrid.Query: requires radius > 0. The source also accepts a negative radius, which it treats as |radius| (cells are floor(p / radius) and the test is against radius²). Radius 0 is undefined behaviour there, since ±inf or NaN is cast to int. Neither case is modelled.
- HandleGrid.BuildGrid: requires cellSize > 0, for the same reason as HandleGrid.Query (the cell size is the radius); HandleGrid.CellOf carries the same precondition.
- HandleGrid.ScanPlane: requires radius > 0, for the same reason as HandleGrid.Query.
- HandleGrid.ScanColumn: requires radius > 0, for the same reason as HandleGrid.Query.
- HandleGrid.NoHandleOutsideScannedCells: requires radius > 0, for the same reason as HandleGrid.Query.
- HandleGrid.BucketedInRange: requires radius > 0, for the same reason as HandleGrid.Query.
- Region.Discover: requires radius > 0, so a negative radius (|radius| in the source) and radius 0 (undefined behaviour there) are excluded. Region.Dequeue, Region.VisitNeighbours and Region.Classify carry the same requirement.
- Lagrangian.Prepare: requires radius > 0, as Region.Discover does.
- Lagrangian.DeformationContext.InitLa: requires radius > 0, as Region.Discover does.
- Pbd.Prepare: requires radius > 0, as Region.Discover does.
- Pbd.PBDContext.InitPBD: requires radius > 0, as Region.Discover does.
- Benchmark.BenchmarkSession.constructor: requires AsUint(downsample) != 0. The source divides by `(uint)downsampleFactor` from the command line, which is undefined behaviour when that value is 0. Benchmark.Downsample carries the same requirement.
- Mesh.Scene.UpdateVertices: the scene's `UpdateVertices` is not part of this model. The model applies the writes in order and ignores ids outside the vertex range.
- The grid cell type uses mathematical integers. The `static_cast<int>` overflow of very large coordinates over the radius is not modelled.
- VertexSelection: projection and unprojection are function parameters (`clip`, `unproject`). The viewport size is required non-zero in `UpdateGrab`.
- VertexSelection.VertexHighlightRenderer.GetSelection: returns the elements in some order, whereas the source returns unordered_set iteration order.
- Not modelled: GPU buffers, pipelines and rendering (`Render`, `PrepareBuffers`, `ResizeGpuBufferIfNeeded`), logging, and the editor's event dispatch.
- Morton: the float normalisation and the clip to [−2^20, 2^20) are float numerics. Coordinates enter as the bit patterns of the clipped integers, sign-extended to 64 bits. This assumes NumPy 1.x value-based promotion, where `int32_array & 0x80000000` is computed in int64. Under NumPy 2 promotion (NEP 50) that out-of-range Python integer raises OverflowError, which is not modelled.
- Reindex: `np.argsort` is an input. The reindexing methods require a permutation that argsorts the codes. Tetrahedron indices are required to be valid vertex ids, and colours are untouched.
- Colmap: stream I/O and file opening become optional byte sequences. A read past the end of a file makes the load `Truncated`, whereas the source stream then yields unspecified values; for an image name with no NUL before the end of the file the source loops forever (see "## Findings").
- Colmap: pose and intrinsics are opaque bytes. The model does not compute the quaternion/rotation conversion, `atanf` fields of view or degrees, and the camera model id is read past but not used.
- Colmap: the point-block skip `num_points2D * 24` uses unbounded integers, without 64-bit wrap-around.
- Colmap.LoadColmapBin: its image loop skips the point block of every image, including one whose camera is unknown. This is the corrected behaviour; the code as written is `UnknownCamera.StopAfterName`, described under Findings.
- Colmap.ReadName: stops with `Truncated` when no NUL follows before the end of the file, where the source's do-while loop never ends (Colmap.NameLoopAsWritten models that loop, Colmap.NameLoopHangs proves it does not stop); the model follows the evidently intended behaviour.
- `TransformPosesPCA` is not part of this model. It uses an eigendecomposition and quaternions, and is not called by the benchmark.
- TestPly.GenTetsSphere: the spherical-to-Cartesian map and the radius are a function parameter. The float32 conversion of positions, colours and tetrahedron indices is not modelled.
- TestPly.Inverse: a zero grid dimension gives component 0 instead of numpy's infinity. Such a component is never used, since the loops are then empty.
- Benchmark: the clock is an input. `Step` receives the elapsed seconds and `TryStart` the key state; the start time is implied.
- Benchmark: console output and the average-FPS print are not modelled. FPS results are reals, without the float cast.
- Benchmark: command-line parsing, the window and scene loading are not modelled. The defaults (hold 8, downsample 4, 0.5 s) are constants.
- Benchmark.BenchmarkSession.constructor: the interactive resolution override is assumed empty at start.
- PbdSolve.ProjectDistance: its own contract states only the length; the correction it applies is stated by PbdSolve.ProjectDistanceFrame, ProjectDistanceSkips, ProjectDistanceMoves, ProjectDistanceBalanced, ProjectDistanceSeparation and ExactCorrection.
- Pbd.Step: its own contract states only the length; the step is stated by Pbd.StepKeepsBodies, StepPinned, StepFree and StepInertial.
- VertexSelection.Hits: its own contract states only a length bound and the id range; the candidates are stated by VertexSelection.HitsMeaning, HitsDepth, HitsIncreasing and HitsExactly.
- Lagrangian.Assemble: its own contract states only a length bound; the rows are stated by Lagrangian.AssembleRowsBelow and Lagrangian.AssembledRow.
- Lagrangian.Rhs: its own contract states only the length; the entries are stated by Lagrangian.RhsEntries.

## Findings

| source | as written | input that shows it | evidently intended | confidence | as-written member | corrected member |
|---|---|---|---|---|---|---|
| morton_sort_ply.py:45-55 | `verts[index_map] = tmp` scatters vertex i to position `argsort[i]`, and tetrahedra are relabelled by `index_map` | codes [2, 0, 1]: argsort [1, 2, 0]; the scatter gives codes [1, 2, 0], which are not sorted | gather `verts = tmp[index_map]` (vertex k becomes the k-th smallest) and relabel tetrahedra by the inverse permutation | medium, not executed; tetrahedra still name the same positions either way, only the Morton order is lost | Reindex.ReorderAsWritten, Reindex.ScatterDoesNotSort | Reindex.Reorder, Reindex.GatherSorts |
| src/ColmapUtils.h:233-236 | an image whose camera_id has no intrinsics hits `continue` before its num_points2D count and point block are read (264-265) | one image record with an unknown camera_id followed by another image: the next pass reads the point count as the next image id | read the count and skip the points before skipping the image | high, not executed | ColmapFormat.UnknownCameraDesyncs | Colmap.LoadColmapBin, ColmapFormat.ImagesRoundTrip |
| src/ColmapUtils.h:224-231 | the do-while reads one byte per pass and leaves only on a NUL; at the end of the file the failed read leaves `name_char` unchanged | an `images.bin` whose last image name has no terminating NUL | stop at the end of the file and report the file as truncated | high, not executed | Colmap.NameLoopAsWritten, Colmap.NameLoopHangs | Colmap.ReadName, Colmap.NameLoopAgrees |
