# DirectX11 renderer: ray picking and scene bookkeeping in Dafny

This project models the parts of the renderer that do not touch the GPU.
It proves properties of each of them.

- **Ray-picking spatial index.** The model covers:
  - the axis-aligned `Box`: containment, `expand` and the slab ray test;
  - the `Plane` and `Triangle` ray tests;
  - the `Intersection`/`MeshIntersection` best-so-far records;
  - the mesh bounding box;
  - the `TriangleOctree`. It is built by lazy top-down insertion with a
    32-triangle leaf capacity and eight octants stretched by 5% across the
    split plane. A nearest-hit walk visits children in order of box-entry
    distance.

  Every ray test follows the same "improve or leave alone" rule. A hit
  commits a strictly nearer distance, the point `origin + direction * t` and
  a normal. A miss leaves the record exactly as it was. Geometry is over
  `real`. A zero ray-direction component divides to a signed infinity, as
  in IEEE floats. Only a zero direction and the 0/0 case are excluded by
  precondition: the 0/0 case is a zero component with the origin on one of
  that axis's box planes.
- **Containers and bit-level algorithms.** The model covers:
  - `SolidVector`, an id-stable dense array with forward and backward maps
    and a LIFO chain of free ids;
  - the `TransformSystem` built on top of it;
  - Herf's float radix sort: the order-preserving `FloatFlip`, and three
    stable counting passes over 11-, 11- and 10-bit digits.
- **Scene bookkeeping.** The model covers:
  - the nested per-model, per-mesh, per-material instance lists of a
    shading group, with `add`, the per-model merge, lookup by object id and
    removal by object id;
  - object-id allocation and dispatch in `MeshSystem` across its seven
    groups;
  - the vertex and index ranges a `Model` records per mesh;
  - the bloom mip chain;
  - the fog-mode flags;
  - the window-listener list of the `EventDispatcher`.

Each file holds one module.

| file | module | models |
|---|---|---|
| `vectors.dfy` | `Vectors` | `Vec3f` arithmetic and `Ray` (`ray(t) = origin + direction * t`) |
| `intersection.dfy` | `Intersections` | `Intersection`, `MeshIntersection`, with distances that may be infinite |
| `box.dfy` | `Boxes` | `Box` containment, `size`, `center`, `reset` and both `expand`s |
| `box_ray.dfy` | `BoxRay` | `Box::intersects` with both record types |
| `plane.dfy`, `triangle.dfy` | `Planes`, `Triangles` | the plane and triangle ray tests |
| `octree.dfy` | `Octree` | `TriangleOctree` as an arena of nodes |
| `mesh.dfy` | `Meshes` | `Mesh::createBoundingBox`, `initializeOctree` |
| `solid_vector.dfy`, `transform_system.dfy` | `SolidVectors`, `TransformSystems` | the id-stable array and the matrix store |
| `radix_sort.dfy` | `RadixSort` | `FloatFlip`, `IFloatFlip`, `RadixSort11` |
| `shading_data.dfy`, `shading_add.dfy`, `lit_instances.dfy`, `shading_group.dfy` | `ShadingData`, `ShadingAdd`, `LitInstances`, `ShadingGroups` | a shading group's instance lists |
| `mesh_system.dfy` | `MeshSystems` | the seven groups and the instance counter |
| `model_ranges.dfy` | `ModelRanges` | `Model::createVertexBuffer`'s `MeshRange`s |
| `post_process.dfy` | `PostProcessing` | the bloom chain and its passes |
| `fog_renderer.dfy` | `FogRenderers` | the fog settings |
| `event_dispatcher.dfy` | `EventDispatchers` | the window-listener list |

Types and state:

- Where the source changes an object's fields step by step, the model is a
  class whose methods state the new state. These are `SolidVector`,
  `TransformSystem`, `TriangleOctree`, `Mesh`, `ShadingGroup`,
  `MeshSystem`, `Model`, `PostProcess`, `FogRenderer` and `EventDispatcher`.
- The radix sort works in place on arrays, as the source does.
- Value records passed by reference (`Box`, `Intersection`,
  `MeshIntersection`) are datatypes. An operation on them returns the
  updated record.
- The nested shading-group lists are also datatypes. The loops that update
  them are methods proved equal to specification functions, and the lemmas
  are about those functions.

## Model

All paths are relative to the repository root.

| member | source | states |
|---|---|---|
| Vectors.RayAffine | Engine/src/math/ray.h:11-19 | the ray starts at its origin at t = 0, and moving along it by t - s moves by direction * (t - s) |
| Vectors.DotAlongRay | Engine/src/math/ray.h:11-19 | a dot product with a point of the ray is affine in t: n.ray(t) = n.origin + (n.direction) t |
| Intersections.Intersection.Reset | Engine/src/math/intersection.h:17-20 | after `reset` the record is not valid, and position and normal are unchanged |
| Intersections.MeshIntersection.Reset | Engine/src/math/intersection.h:31-35 | `reset(n, f)` sets near to n and t to f (infinity by default), is valid exactly when f is finite, and keeps position, normal and triangle |
| Intersections.MeshIntersection.WithHit | Engine/src/math/box.cpp:96-112 | copying a generic hit back changes t, position and normal only; near and triangle are kept |
| Intersections.LessIsStrictOrder | Engine/src/math/intersection.h:12-15 | the "strictly nearer" order on possibly infinite distances is asymmetric (so irreflexive) and transitive, and agrees with the non-strict order |
| Boxes.Box.Expand | Engine/src/math/box.h:55-59 | after `expand(p)` the box contains p and every point it contained before |
| Boxes.Box.ExpandBox | Engine/src/math/box.h:49-53 | after `expand(b)` the box contains every point of both boxes |
| Boxes.ResetBox | Engine/src/math/box.h:42-47 | the reset box (min +FLT_MAX, max -FLT_MAX) is not proper and contains no point |
| Boxes.ResetThenExpand | Engine/src/math/box.h:42-59 | reset then `expand(p)` for an in-range p gives exactly [p, p], which contains p and nothing else |
| Boxes.ExpandIsSmallest | Engine/src/math/box.h:55-59 | `expand(p)` only grows the box and stays inside every box holding the old box and p |
| Boxes.ExpandBoxIsSmallest | Engine/src/math/box.h:49-53 | `expand(box)` is commutative and idempotent, encloses both boxes, and lies inside every box enclosing both |
| Boxes.CenterAndSize | Engine/src/math/box.h:27-35 | center -/+ size/2 are exactly min and max, and a proper box contains its center and both corners |
| Boxes.ContainsCentroid | Engine/src/math/box.h:61-67 | the closed box contains the centroid of any three points it contains |
| BoxRay.MergeStep | Engine/src/math/box.cpp:25-38 | with both intervals ordered, the early-out test fires exactly when the merged interval is empty, and the two conditional assignments compute its bounds |
| BoxRay.MergeMonotone | Engine/src/math/box.cpp:25-38 | a non-empty merge implies the earlier interval was non-empty |
| BoxRay.ClampOnFinite | Engine/src/math/box.cpp:63 | the distance clamp is min(max(tmin, 0), max(tmax, 0)) on finite bounds |
| BoxRay.SwapOrders | Engine/src/math/box.cpp:9-15 | the swap puts the smaller slab crossing first, giving the near and far crossing of the axis |
| BoxRay.OverlapIsFinite | Engine/src/math/box.cpp:48-61 | when the three slabs overlap, the merged entry and exit distances are finite |
| BoxRay.FaceNormalAsWrittenMissesPlusX | Engine/src/math/box.cpp:76-91 | the normal as written is never +x for a point on the +x face, while the outward normal there is +x |
| BoxRay.FaceNormalAsWrittenSignFromX | Engine/src/math/box.cpp:76-91 | on the lower y face, at or right of the center in x, the normal as written is +y, pointing into the box, while the outward normal is -y |
| BoxRay.CubeBottomHitNormal | Engine/src/math/box.cpp:76-91 | the hit (0.5, -1, 0) on the cube [-1, 1]^3 gets the normal (0, 1, 0) |
| BoxRay.FaceNormal | Engine/src/math/box.cpp:72-91 | the corrected normal is always one of the six axis unit vectors |
| BoxRay.HalfRatioOnAxis | Engine/src/math/box.cpp:72-78 | the center-to-point ratio is -0.5 on the max face, 0.5 on the min face, 0 at the center and below 0.5 in magnitude strictly inside |
| BoxRay.FaceNormalIsOutward | Engine/src/math/box.cpp:72-91 | for a point on any face of a box with no flat axis, the corrected normal is that face's outward axis vector |
| BoxRay.MergeSlabs | Engine/src/math/box.cpp:9-61 | the merge reports an overlap exactly when the three slab intervals overlap, and then returns the merged entry and exit distances |
| BoxRay.AxisCrossings | Engine/src/math/box.cpp:9-15 | one axis's slab test returns the near and far crossing, in order |
| BoxRay.Intersects | Engine/src/math/box.cpp:7-94 | hits exactly when the slabs overlap and the entry distance is no farther than the record's; a hit writes the entry distance, the ray point there and the normal as box.cpp computes it (axis by signed ratios, sign from the x offset); a miss leaves the record unchanged |
| BoxRay.IntersectsMesh | Engine/src/math/box.cpp:96-112 | the same for the mesh record, with the same as-written normal; near and triangle are never touched |
| BoxRay.AxisMeaning | Engine/src/math/box.cpp:9-23 | t lies between an axis's near and far crossing exactly when ray(t) lies in that axis's slab |
| BoxRay.SlabMeaning | Engine/src/math/box.cpp:9-61 | t lies in the merged interval exactly when the box contains ray(t) |
| BoxRay.EntryIsFirstPointInside | Engine/src/math/box.cpp:63-70 | when the box is not behind the origin, the committed distance is the first t >= 0 at which the ray is inside the box |
| BoxRay.BoxBehindOriginHitsAtZero | Engine/src/math/box.cpp:63 | when the box lies behind the origin the clamp yields t = 0, though no point at t >= 0 is inside |
| BoxRay.HitWhenInsideBeforeNearest | Engine/src/math/box.cpp:63-67 | if some t >= 0 inside the box is within the record's distance, the test hits, at or before t |
| Planes.IsIntersecting | Engine/src/math/plane.cpp:8-25 | hits exactly when the ray is not nearly parallel and t = (point - origin).N / (N.d) is >= 0 and strictly nearer; a hit writes t, ray(t) and the plane normal; a miss changes nothing |
| Planes.HitLiesOnPlane | Engine/src/math/plane.cpp:13-18 | the committed point lies on the plane |
| Planes.CommitsMonotone | Engine/src/math/plane.cpp:14 | a hit against one bound is a hit against any farther bound, and strictly nearer than the bound |
| Triangles.IsIntersecting | Engine/src/math/triangle.cpp:8-48 | hits exactly when |N.d| > epsilon, t >= 0 is strictly nearer and ray(t) is strictly inside all three edges; a hit writes t, ray(t) and the face normal; a miss changes nothing |
| Triangles.IsIntersectingMesh | Engine/src/math/triangle.cpp:50-67 | the same for the mesh record, keeping near and triangle |
| Triangles.DistanceIsPlaneDistance | Engine/src/math/triangle.cpp:16-17 | the triangle's t is the distance to the plane through v0 with the face normal |
| Triangles.HitLiesInTrianglePlane | Engine/src/math/triangle.cpp:16-21 | the committed point satisfies N.P + D = 0 |
| Triangles.EdgePointsAreOutside | Engine/src/math/triangle.cpp:34-36 | no point on the line through v0 and v1 passes the strict inside test, so edges and vertices never hit |
| Triangles.CommitsMonotone | Engine/src/math/triangle.cpp:19 | a hit against one bound is a hit against any farther bound, and strictly nearer than it |
| Octree.OctantsTileParent | Engine/src/render/meshSystem/mesh/triangleOctree.cpp:70-101 | each child's strict box is a proper box inside the parent, and each point of the parent lies in the strict box of its octant (bit 0 picks x, bit 1 y, bit 2 z) |
| Octree.ChildBoxStretchesAcrossSplit | Engine/src/render/meshSystem/mesh/triangleOctree.cpp:103-131 | each child's elongated box contains its strict box and extends it by 0.05 x its size only on the side facing the parent's split plane |
| Octree.ChildBoxesNonDegenerate | Engine/src/render/meshSystem/mesh/triangleOctree.cpp:63-132 | a child of a box with no flat axis has no flat axis either |
| Octree.EnclosedMeshIsAccepted | Engine/src/render/meshSystem/mesh/triangleOctree.cpp:36-49 | the root padded by 1e-5 accepts every triangle of a mesh whose box encloses its vertices |
| Octree.AddTriangle | Engine/src/render/meshSystem/mesh/triangleOctree.cpp:134-205 | accepts exactly when the centroid is in the strict box and all three vertices are in the elongated box, and otherwise changes nothing; on acceptance the index is stored once more, at or below the node: a leaf under 32 triangles appends it to its own list; a full leaf splits, keeps exactly the triangles no child takes, hands each of the others to its first accepting child, and then passes the new index on; a split node passes it on directly, to the first accepting child, keeping it only when no child accepts; every node outside node k's subtree keeps its list, and every index stored in an old node's subtree stays stored there; the tree invariant and every node's depth are kept |
| Octree.AddBelow | Engine/src/render/meshSystem/mesh/triangleOctree.cpp:145-203 | past the containment test on a full leaf or a split node: the node ends split, the index is stored once more below it, and it sits with the first accepting child or, when none accepts, at the end of the node's list; a full leaf's old triangles that a child takes sit with their first accepting child; every node outside node k's subtree keeps its list, and every index stored in an old node's subtree stays stored there |
| Octree.SplitLeaf | Engine/src/render/meshSystem/mesh/triangleOctree.cpp:150-186 | a full leaf gets its eight children; the tree holds the same indices; the node keeps, in order, exactly those no child accepts, and each of the others is stored below its first accepting child; no earlier node changes, every box is kept, and every node outside node k's subtree keeps its list, and every index stored in an old node's subtree stays stored there |
| Octree.PassDown | Engine/src/render/meshSystem/mesh/triangleOctree.cpp:188-203 | on a split node the index goes to the first child that accepts it and is stored below that child, or onto the end of the node's own list when no child accepts; it is stored exactly once more; every node outside node k's subtree keeps its list, and every index stored in an old node's subtree stays stored there |
| Octree.Redistribute | Engine/src/render/meshSystem/mesh/triangleOctree.cpp:161-186 | after a split, the tree holds the same indices, the node keeps, in order, exactly those no child accepts, each of the others is stored below its first accepting child, and every node outside node k's subtree keeps its list, and every index stored in an old node's subtree stays stored there |
| Octree.PlaceOrKeep | Engine/src/render/meshSystem/mesh/triangleOctree.cpp:163-183 | one redistribution step: an index some child accepts is stored below the first accepting child and is not kept; any other index is appended to the kept list and nothing else changes; the loop invariant is kept |
| Octree.TryChildren | Engine/src/render/meshSystem/mesh/triangleOctree.cpp:188-197 | the index is placed exactly when some child accepts it; then the first accepting child took it and the index is stored exactly once more; otherwise nothing changes; every node outside node k's subtree keeps its list, and every index stored in an old node's subtree stays stored there |
| Octree.TryChild | Engine/src/render/meshSystem/mesh/triangleOctree.cpp:192-196 | child j tries the index with one unit of depth less: it is placed exactly when that child accepts; on refusal nothing changes; on acceptance it is stored below that child, once more; every node outside node k's subtree keeps its list, and every index stored in an old node's subtree stays stored there |
| Octree.ChildStep | Engine/src/render/meshSystem/mesh/triangleOctree.cpp:188-197 | after child j tries the index: on refusal the refusing prefix grows by one; on acceptance child j is the first accepting child |
| Octree.HandOverDone | Engine/src/render/meshSystem/mesh/triangleOctree.cpp:161-186 | when the redistribution loop ends, every original index either stays on the node's list or is stored below its first accepting child, and replacing the list with the kept indices leaves every node outside node k's subtree keeps its list, and every index stored in an old node's subtree stays stored there |
| Octree.TurnDone | Engine/src/render/meshSystem/mesh/triangleOctree.cpp:163-183 | one redistribution turn keeps the loop's accounting, and the triangle a child took is stored below its first accepting child, while every earlier hand-down and the frame are kept |
| Octree.TurnCounts | Engine/src/render/meshSystem/mesh/triangleOctree.cpp:163-183 | one redistribution turn: the tree plus the kept list hold the original tree plus one more original index, and that index is kept exactly when no child accepts it |
| Octree.HandOverStep | Engine/src/render/meshSystem/mesh/triangleOctree.cpp:163-183 | a turn that hands an index down keeps every earlier index with its first accepting child and adds this one; a turn that keeps it changes nothing |
| Octree.ChildFrame | Engine/src/render/meshSystem/mesh/triangleOctree.cpp:192-196 | what a call on child j changes lies within its parent's subtree too |
| Octree.StaysSplit | Engine/src/render/meshSystem/mesh/triangleOctree.cpp:150-159 | splitting node k changes no node outside k's subtree and loses no stored index |
| Octree.StaysAppend | Engine/src/render/meshSystem/mesh/triangleOctree.cpp:145-149 | appending to node k's list changes no other node and loses no stored index |
| Octree.HandedDownKept | Engine/src/render/meshSystem/mesh/triangleOctree.cpp:161-186 | indices already with their first accepting child stay there when the tree grows further below |
| Octree.SentIsStored | Engine/src/render/meshSystem/mesh/triangleOctree.cpp:188-203 | an index held by the first accepting child of a node is stored below that node |
| Octree.ShallowAfterSplit | Engine/src/render/meshSystem/mesh/triangleOctree.cpp:150-159 | splitting a node shallower than depth 64 keeps every node's depth, and every split node stays shallower than 64, so a split node always has depth left to pass an index on |
| Octree.SplitAtKeeps | Engine/src/render/meshSystem/mesh/triangleOctree.cpp:145-159 | splitting a leaf adds its eight octant children and keeps the tree invariant and every stored index |
| Octree.AppendKeeps | Engine/src/render/meshSystem/mesh/triangleOctree.cpp:145-149 | appending an accepted index to a node keeps the invariant and adds exactly that index |
| Octree.ShapeAfterSplit | Engine/src/render/meshSystem/mesh/triangleOctree.cpp:150-159 | a split leaf with eight fresh children is still a tree rooted at node 0 |
| Octree.AllTrianglesUpdate | Engine/src/render/meshSystem/mesh/triangleOctree.cpp:145-186 | replacing one node's list changes the tree's stored indices by exactly that list's difference |
| Octree.NonDegenerateBelowRoot | Engine/src/render/meshSystem/mesh/triangleOctree.cpp:63-132 | every node below a root with no flat axis has no flat axis |
| Octree.TraversableFromRoot | Engine/src/render/meshSystem/mesh/triangleOctree.cpp:207-283 | every node's boxes can be slab-tested against a ray with nonzero direction components |
| Octree.SortOctants | Engine/src/render/meshSystem/mesh/triangleOctree.cpp:263-267 | the child entries end up in ascending entry distance and are a permutation of the input |
| Octree.IntersectOwn | Engine/src/render/meshSystem/mesh/triangleOctree.cpp:219-226 | the node's own list ends strictly nearer exactly when some slot hit; a hit records its slot position as `triangle`; afterwards no listed triangle commits against the result |
| Octree.CollectOctants | Engine/src/render/meshSystem/mesh/triangleOctree.cpp:241-262 | child j is listed exactly when its box contains the origin or admits the ray within the bound, with distance 0 or its entry distance; the others are marked -1 |
| Octree.IntersectNode | Engine/src/render/meshSystem/mesh/triangleOctree.cpp:207-283 | t never increases, a true result means a real hit on a stored slot strictly nearer than before, a box that does not admit the ray gives false, and, when the node's box admits the ray, no triangle on node k's own list commits against the result |
| Octree.Build | Engine/src/render/meshSystem/mesh/triangleOctree.cpp:28-50 | the root's boxes are the mesh box padded by 1e-5, and the tree stores exactly the triangles the root accepts, each once |
| Octree.TriangleOctree.Clear | Engine/src/render/meshSystem/mesh/triangleOctree.h:24-27 | `clear` only detaches the mesh |
| Octree.TriangleOctree.Initialize | Engine/src/render/meshSystem/mesh/triangleOctree.cpp:28-50 | when the mesh box encloses the vertices, every triangle index is stored exactly once |
| Octree.TriangleOctree.Intersect | Engine/src/render/meshSystem/mesh/triangleOctree.cpp:52-61 | a ray that misses the root's strict box or its elongated box returns false and leaves the record unchanged; a hit is real and strictly nearer; when both root boxes admit the ray, no triangle on the root's own list commits against the result |
| Meshes.BoundsEnclose | Engine/src/render/meshSystem/mesh/mesh.cpp:5-15 | the box after n triangles contains every vertex of those triangles |
| Meshes.BoundsAreTight | Engine/src/render/meshSystem/mesh/mesh.cpp:7-14 | with at least one triangle, each bound on each axis equals some vertex's coordinate |
| Meshes.BoundsEncloseMesh | Engine/src/render/meshSystem/mesh/mesh.cpp:5-15 | the finished box encloses all vertices of all triangles |
| Meshes.Mesh.CreateBoundingBox | Engine/src/render/meshSystem/mesh/mesh.cpp:5-15 | the box is the reset box expanded by every triangle vertex; it stays the reset box with no triangles and encloses the mesh |
| Meshes.Mesh.InitializeOctree | Engine/src/render/meshSystem/mesh/mesh.cpp:17-20 | the octree is rebuilt from this mesh, its root is the padded box, and every triangle is stored once |
| SolidVectors.CountIsSize | Engine/src/utils/containers/solidVector.h:20-23 | the number of occupied ids equals the dense size |
| SolidVectors.GrowKeeps | Engine/src/utils/containers/solidVector.h:67-71 | growing the id range by a free id keeps the maps linked and the contents |
| SolidVectors.TakeHeadKeeps | Engine/src/utils/containers/solidVector.h:73-80 | storing at the head of the free chain maps that id to the new value and changes nothing else |
| SolidVectors.EraseKeeps | Engine/src/utils/containers/solidVector.h:85-105 | moving the last slot into the erased one keeps the maps inverse bijections and removes exactly that id |
| SolidVectors.SolidVector.Occupied | Engine/src/utils/containers/solidVector.h:13-18 | `occupied(id)` holds exactly when id has a value |
| SolidVectors.SolidVector.Size | Engine/src/utils/containers/solidVector.h:20-23 | `size()` is the number of stored values |
| SolidVectors.SolidVector.At | Engine/src/utils/containers/solidVector.h:34-46 | `at(index)` returns the value of the id that owns dense slot index |
| SolidVectors.SolidVector.SetAt | Engine/src/utils/containers/solidVector.h:40-45 | assigning through the reference `at(index)` returns changes the value of the id owning slot index and nothing else |
| SolidVectors.SolidVector.Get | Engine/src/utils/containers/solidVector.h:48-60 | `operator[](id)` returns the value stored under id |
| SolidVectors.SolidVector.Insert | Engine/src/utils/containers/solidVector.h:62-83 | returns the head of the free chain, a previously unused id, which now holds the value; size grows by one; with no erasures the id is the old size |
| SolidVectors.SolidVector.GrowIds | Engine/src/utils/containers/solidVector.h:67-71 | with the free chain empty, one unoccupied id is appended whose link points past the end, so the chain holds exactly that id and no value changes |
| SolidVectors.SolidVector.OccupyNext | Engine/src/utils/containers/solidVector.h:73-80 | the head of the free chain, which was unoccupied, now owns a new last dense slot holding the value; the maps stay inverse and the rest of the chain is kept |
| SolidVectors.SolidVector.Erase | Engine/src/utils/containers/solidVector.h:85-105 | removes exactly id, keeps every other id's value, shrinks size by one, and makes id the next one `insert` returns |
| SolidVectors.SolidVector.Clear | Engine/src/utils/containers/solidVector.h:107-114 | empties the store and resets the next id to 0 |
| SolidVectors.SolidVector.constructor | Engine/src/utils/containers/solidVector.h:130-135 | starts empty with next id 0 |
| TransformSystems.Identity | Engine/src/transformSystem/transformSystem.cpp:21-24 | the identity matrix: ones on the diagonal, zeros elsewhere |
| TransformSystems.TransformSystem.GetMatrix | Engine/src/transformSystem/transformSystem.cpp:26-29 | reading dense slot id with `at` gives the matrix stored under id, because ids stay equal to slots |
| TransformSystems.TransformSystem.SetMatrix | Engine/src/transformSystem/transformSystem.cpp:26-29 | assigning through the reference `getMatrix(id)` returns replaces the matrix of id and keeps every other id's matrix |
| TransformSystems.TransformSystem.CreateMatrix | Engine/src/transformSystem/transformSystem.cpp:21-24 | returns a fresh id, the old count, whose matrix is the identity, and `getMatrix` then returns it |
| TransformSystems.TransformSystem.Clear | Engine/src/transformSystem/transformSystem.cpp:30-33 | removes every matrix |
| RadixSort.FlipRoundTrip | Engine/src/utils/sorting/radixSort.h:66-88 | `IFloatFlip` undoes `FloatFlip` and the other way round, for every 32-bit word |
| RadixSort.FlipOrdersFloats | Engine/src/utils/sorting/radixSort.h:60-70 | flipped words compare as unsigned integers exactly as the floats they encode compare |
| RadixSort.DigitRange | Engine/src/utils/sorting/radixSort.h:91-93 | digits 0 and 1 lie below 2048, digit 2 below 1024 |
| RadixSort.DigitsReassemble | Engine/src/utils/sorting/radixSort.h:91-93 | the three digits reassemble the word |
| RadixSort.PosBefore | Engine/src/utils/sorting/radixSort.h:152-161 | a pass places a smaller digit first, and equal digits in input order, so each pass is stable |
| RadixSort.Histograms | Engine/src/utils/sorting/radixSort.h:113-149 | the three histograms hold each digit's start position minus one |
| RadixSort.CountDigits | Engine/src/utils/sorting/radixSort.h:120-129 | the counting loop tallies every digit of every flipped key |
| RadixSort.SumCounts | Engine/src/utils/sorting/radixSort.h:132-149 | the prefix-sum loop turns the tallies into exclusive prefix sums stored as sum - 1 |
| RadixSort.Place | Engine/src/utils/sorting/radixSort.h:154-160 | one step of a pass writes word i and its payload at their final position and advances that digit's counter |
| RadixSort.Scatter | Engine/src/utils/sorting/radixSort.h:152-161 | a pass writes every word and payload at the position the stable counting sort gives it |
| RadixSort.Pass | Engine/src/utils/sorting/radixSort.h:165-171 | words ordered by their low k digits come out ordered by their low k + 1 digits, payloads following their words |
| RadixSort.Conclude | Engine/src/utils/sorting/radixSort.h:175-182 | after the last pass the output is the input permuted, ascending by flipped value, equal words in input order |
| RadixSort.KeysEmitted | Engine/src/utils/sorting/radixSort.h:175-182 | the last pass's flip-back yields the original words |
| RadixSort.RadixSort11 | Engine/src/utils/sorting/radixSort.h:99-186 | `out` is the input words permuted into ascending float order, stably, and `vOut` is the payloads permuted identically |
| EventDispatchers.RemoveFirst | Project/src/Listener/eventDispatcher.cpp:8-18 | removes only the first occurrence, and is the identity when the listener is absent |
| EventDispatchers.AddThenRemove | Project/src/Listener/eventDispatcher.cpp:3-18 | removing a new listener right after adding it restores the list |
| EventDispatchers.EventDispatcher.AddWindowListener | Project/src/Listener/eventDispatcher.cpp:3-6 | appends to the end, duplicates allowed |
| EventDispatchers.EventDispatcher.RemoveWindowListener | Project/src/Listener/eventDispatcher.cpp:8-18 | the list loses its first occurrence of the listener, if any |
| EventDispatchers.EventDispatcher.Dispatch | Project/src/Listener/eventDispatcher.cpp:20-106 | each listener is called once with the event, in insertion order, and the list is unchanged |
| ShadingData.GrowthKeepsIds | Engine/src/render/meshSystem/ShadingGroups/shadingGroup.h:64-164 | an append-only change keeps every object id the group held |
| ShadingData.GrowthTransitive | Engine/src/render/meshSystem/ShadingGroups/shadingGroup.h:64-164 | two append-only changes in a row are append-only |
| ShadingAdd.FindModel | Engine/src/render/meshSystem/ShadingGroups/shadingGroup.h:74-82 | the first per-model entry of the model, or the list's length when there is none |
| ShadingAdd.MatchLog | Engine/src/render/meshSystem/ShadingGroups/shadingGroup.h:88-97 | the record gets one entry per matching material, each holding the material and just this instance, and is non-empty exactly when some material matches |
| ShadingAdd.AppendToMatching | Engine/src/render/meshSystem/ShadingGroups/shadingGroup.h:88-97 | the instance is appended to every material equal to the given one, and found reports whether one was |
| ShadingAdd.AddToMeshes | Engine/src/render/meshSystem/ShadingGroups/shadingGroup.h:84-98 | every mesh of the model gets the append, and found reports a match in any mesh |
| ShadingAdd.AddToFoundModel | Engine/src/render/meshSystem/ShadingGroups/shadingGroup.h:83-116 | the found model's entry becomes its added form (appended to every equal material, or a new material per mesh when none matched) and the returned record is what was added |
| ShadingAdd.AddAsNewMaterial | Engine/src/render/meshSystem/ShadingGroups/shadingGroup.h:105-114 | with no match, the first meshCount meshes each get a new material holding just this instance, in both the group and the record |
| ShadingAdd.NoMatchLeavesMesh | Engine/src/render/meshSystem/ShadingGroups/shadingGroup.h:88-97 | a mesh with no equal material is left unchanged |
| ShadingAdd.AddUnknownModel | Engine/src/render/meshSystem/ShadingGroups/shadingGroup.h:74-82 | an unknown model gets exactly one new per-model entry with one per-mesh entry per model mesh, each holding the instance |
| ShadingAdd.AddGrows | Engine/src/render/meshSystem/ShadingGroups/shadingGroup.h:64-117 | `add` is append-only: no instance is removed or reordered |
| ShadingAdd.AddStores | Engine/src/render/meshSystem/ShadingGroups/shadingGroup.h:84-114 | when some material matches or the model has meshes, the group then holds the instance's object id |
| ShadingAdd.AddDropsWithoutMeshes | Engine/src/render/meshSystem/ShadingGroups/shadingGroup.h:105-114 | with no match and no meshes, the instance is not stored |
| ShadingAdd.AddedRecordShape | Engine/src/render/meshSystem/ShadingGroups/shadingGroup.h:84-98 | the returned record holds the instance once per matching material, or once per mesh as a new material |
| ShadingAdd.AddOnlyAddsInstance | Engine/src/render/meshSystem/ShadingGroups/shadingGroup.h:64-117 | every object id in the group after `add` was there before or is the instance's |
| ShadingAdd.MergeMeshGrows | Engine/src/render/meshSystem/ShadingGroups/shadingGroup.h:128-156 | merging one mesh's front material is append-only |
| ShadingAdd.MergeGrows | Engine/src/render/meshSystem/ShadingGroups/shadingGroup.h:119-164 | `add(PerModel&)` is append-only |
| ShadingAdd.MergeNewModel | Engine/src/render/meshSystem/ShadingGroups/shadingGroup.h:160-163 | when no entry shares the model, the whole object is appended and the group's ids become the old ones plus the object's |
| ShadingAdd.MergeOnlyAddsObject | Engine/src/render/meshSystem/ShadingGroups/shadingGroup.h:119-164 | every object id after the merge was in the group or in the object |
| ShadingAdd.MergeStoresFront | Engine/src/render/meshSystem/ShadingGroups/shadingGroup.h:134-147 | for a known model, every instance of each mesh's front material ends up in the group |
| ShadingAdd.PushInstances | Engine/src/render/meshSystem/ShadingGroups/shadingGroup.h:141-145 | the incoming instances are appended in order, and the flag reports whether there were any |
| ShadingAdd.PassFront | Engine/src/render/meshSystem/ShadingGroups/shadingGroup.h:134-147 | the front material's instances are appended to every equal material, and the flag reports whether any were added |
| ShadingAdd.MergeMeshes | Engine/src/render/meshSystem/ShadingGroups/shadingGroup.h:130-155 | merges one mesh as the per-mesh loop body does |
| ShadingAdd.MergeInto | Engine/src/render/meshSystem/ShadingGroups/shadingGroup.h:128-156 | merges every mesh of the object into the matching per-model entry |
| LitInstances.FindInInstances | Engine/src/render/meshSystem/ShadingGroups/litInstances.cpp:25-35 | the first instance with the id, or the list's length |
| LitInstances.FindInMaterials | Engine/src/render/meshSystem/ShadingGroups/litInstances.cpp:23-36 | the first material and instance with the id, in order, and the end exactly when none has it |
| LitInstances.FindInMeshes | Engine/src/render/meshSystem/ShadingGroups/litInstances.cpp:21-38 | the first mesh, material and instance with the id, in order, and the end exactly when none has it |
| LitInstances.RemoveFromInstances | Engine/src/render/meshSystem/ShadingGroups/litInstances.cpp:76-98 | the list keeps, in order, the instances without the id; each removed one is recorded with the material; the flag reports a removal |
| LitInstances.PushRecord | Engine/src/render/meshSystem/ShadingGroups/litInstances.cpp:80-91 | one removed instance is appended to the record; the record takes the model only while it holds nothing yet |
| LitInstances.RemoveFromMaterials | Engine/src/render/meshSystem/ShadingGroups/litInstances.cpp:74-99 | the same across one mesh's materials |
| LitInstances.RemoveFromMeshes | Engine/src/render/meshSystem/ShadingGroups/litInstances.cpp:72-100 | the same across one model's meshes |
| LitInstances.KeepConcat | Engine/src/render/meshSystem/ShadingGroups/litInstances.cpp:77-98 | filtering distributes over concatenation, so survivors keep their relative order |
| LitInstances.KeepTakenPartition | Engine/src/render/meshSystem/ShadingGroups/litInstances.cpp:77-98 | kept and removed instances together are the original list, as a multiset |
| LitInstances.TakenIffHas | Engine/src/render/meshSystem/ShadingGroups/litInstances.cpp:77-98 | something is removed from a list exactly when it holds the id |
| LitInstances.GroupEntriesIffHas | Engine/src/render/meshSystem/ShadingGroups/litInstances.cpp:66-104 | the removal record grows exactly when the group holds the id |
| LitInstances.NoneLeft | Engine/src/render/meshSystem/ShadingGroups/litInstances.cpp:66-104 | after removal no instance with the id remains |
| LitInstances.KeepAbsent | Engine/src/render/meshSystem/ShadingGroups/litInstances.cpp:77-98 | a list without the id is left unchanged |
| LitInstances.RemovedRecords | Engine/src/render/meshSystem/ShadingGroups/litInstances.cpp:81-92 | the record gains one per-mesh entry per removed instance, each one material holding that instance, and keeps its model once it has entries |
| LitInstances.RemovedModel | Engine/src/render/meshSystem/ShadingGroups/litInstances.cpp:81-84 | an empty record takes the model of the first model holding the id |
| LitInstances.NothingRemoved | Engine/src/render/meshSystem/ShadingGroups/litInstances.cpp:66-104 | with no instance of the id, the record is unchanged |
| LitInstances.WithoutOnlyRemoves | Engine/src/render/meshSystem/ShadingGroups/litInstances.cpp:66-104 | every id left after removal was there before |
| LitInstances.WithoutAbsent | Engine/src/render/meshSystem/ShadingGroups/litInstances.cpp:66-104 | removing an absent id leaves the group unchanged |
| LitInstances.StampAppend | Engine/src/render/meshSystem/ShadingGroups/litInstances.cpp:81-92 | recording removals in two batches equals recording them at once |
| ShadingGroups.FirstAtUnique | Engine/src/render/meshSystem/ShadingGroups/litInstances.cpp:17-42 | the first position of an id in model, mesh, material, instance order is unique |
| ShadingGroups.ShadingGroup.Add | Engine/src/render/meshSystem/ShadingGroups/shadingGroup.h:64-117 | the group becomes the added group and the returned record is the one built for the model |
| ShadingGroups.ShadingGroup.AddPerModel | Engine/src/render/meshSystem/ShadingGroups/shadingGroup.h:119-164 | the group becomes the merged group |
| ShadingGroups.ShadingGroup.GetModels | Engine/src/render/meshSystem/ShadingGroups/shadingGroup.h:336-339 | returns the per-model list entry by entry |
| ShadingGroups.ShadingGroup.Clear | Engine/src/render/meshSystem/ShadingGroups/shadingGroup.h:340-346 | empties the list, so no object id remains |
| ShadingGroups.ShadingGroup.GetObjectID | Engine/src/render/meshSystem/ShadingGroups/litInstances.cpp:13-16 | returns the object id at the four given indices |
| ShadingGroups.ShadingGroup.GetObjectByID | Engine/src/render/meshSystem/ShadingGroups/litInstances.cpp:17-42 | returns the first location of the id in model, mesh, material, instance order, or not found exactly when the group lacks it |
| ShadingGroups.ShadingGroup.GetObjectTransformID | Engine/src/render/meshSystem/ShadingGroups/litInstances.cpp:43-65 | reports the id exactly when the group holds it, with the transform id of its first instance |
| ShadingGroups.ShadingGroup.RemoveObjectByID | Engine/src/render/meshSystem/ShadingGroups/litInstances.cpp:66-104 | removes every instance of the id, extends the removal record, and returns true exactly when something was removed |
| MeshSystems.Index | Engine/src/render/meshSystem/meshSystem.h:318-324 | each of the seven groups has its own slot, incineration the last |
| MeshSystems.NextID | Engine/src/render/meshSystem/meshSystem.h:136 | `++instanceCounter` on an unsigned 32-bit counter: the next value, wrapping to 0 |
| MeshSystems.StampedCarriesOnlyID | Engine/src/render/meshSystem/meshSystem.h:141-152 | stamping keeps the object's shape and leaves the new id as its only id, exactly when it holds an instance |
| MeshSystems.StampKeepsReady | Engine/src/render/meshSystem/meshSystem.h:139-155 | stamping keeps the object mergeable into the group |
| MeshSystems.StampInstanceList | Engine/src/render/meshSystem/meshSystem.h:143-152 | the innermost loop stamps every instance |
| MeshSystems.StampMaterialList | Engine/src/render/meshSystem/meshSystem.h:143-152 | the material loop stamps every material's instances |
| MeshSystems.StampObject | Engine/src/render/meshSystem/meshSystem.h:141-152 | the mesh loop stamps every instance of the object |
| MeshSystems.AddIssuesFreshID | Engine/src/render/meshSystem/meshSystem.h:134-138 | without wrap-around, the new id is larger than every id held by any group, and afterwards every id is at most the counter |
| MeshSystems.MergeIssuesFreshID | Engine/src/render/meshSystem/meshSystem.h:139-155 | the same for a per-model add, which stamps one fresh id on all its instances |
| MeshSystems.FirstHolder | Engine/src/render/meshSystem/meshSystem.cpp:66-96 | the first of the six searched groups that holds the id, or the end |
| MeshSystems.RemoveStopsAtFirst | Engine/src/render/meshSystem/meshSystem.cpp:108-145 | removal empties the id from the first searched group holding it and from no other |
| MeshSystems.RemoveKeepsIdsIssued | Engine/src/render/meshSystem/meshSystem.cpp:108-145 | removal keeps every id within the issued bound |
| MeshSystems.FindIntersection | Engine/src/render/meshSystem/meshSystem.cpp:37-54 | returns true exactly when the nearest hit is valid, and only then resets the mover to a matrix mover |
| MeshSystems.MeshSystem.constructor | Engine/src/render/meshSystem/meshSystem.h:318-326 | seven empty groups and a counter of 0 |
| MeshSystems.MeshSystem.AddInstance | Engine/src/render/meshSystem/meshSystem.h:134-138 | advances the counter by one, stamps the instance with it, adds it to the chosen group only, and keeps ids fresh |
| MeshSystems.MeshSystem.AddPerModelInstance | Engine/src/render/meshSystem/meshSystem.h:139-155 | advances the counter by one, stamps every instance of the object with it, and merges it into the chosen group only |
| MeshSystems.MeshSystem.RemoveLitInstance | Engine/src/render/meshSystem/meshSystem.h:224-227 | delegates to the lit group and changes no other group |
| MeshSystems.MeshSystem.GetObjectTransformID | Engine/src/render/meshSystem/meshSystem.cpp:66-96 | the transform id of the first match in the first searched group holding the id, skipping incineration, else 0 |
| MeshSystems.MeshSystem.RemoveObjectByID | Engine/src/render/meshSystem/meshSystem.cpp:108-145 | removes the id from the first searched group that holds it, and from no other |
| MeshSystems.MeshSystem.DeleteAllInstances | Engine/src/render/meshSystem/meshSystem.cpp:98-106 | empties six groups and leaves incineration untouched |
| ModelRanges.TriangleIndices | Engine/src/render/meshSystem/mesh/model.cpp:23-28 | three indices per triangle |
| ModelRanges.RangesOf | Engine/src/render/meshSystem/mesh/model.cpp:13-33 | one range per mesh, with its vertex count and 3 x its triangle count |
| ModelRanges.TriangleIndicesAt | Engine/src/render/meshSystem/mesh/model.cpp:23-28 | triangle i's indices sit at 3i, 3i + 1 and 3i + 2 |
| ModelRanges.RangeLocatesMesh | Engine/src/render/meshSystem/mesh/model.cpp:13-33 | each range's slice of the vertex buffer is its mesh's vertices, and its slice of the index buffer is its mesh's indices, not rebased |
| ModelRanges.RangesTile | Engine/src/render/meshSystem/mesh/model.cpp:13-33 | the ranges start at 0, each starts where the previous ends, and the last ends at the buffer's end |
| ModelRanges.PushTriangleIndices | Engine/src/render/meshSystem/mesh/model.cpp:23-28 | the triangle loop appends each triangle's three indices |
| ModelRanges.CollectMeshes | Engine/src/render/meshSystem/mesh/model.cpp:13-33 | the mesh loop builds both buffers and the ranges |
| ModelRanges.Model.CreateVertexBuffer | Engine/src/render/meshSystem/mesh/model.cpp:6-41 | with no meshes nothing changes; otherwise one range per mesh is appended to the existing ranges, never cleared, and the buffers are rebuilt |
| PostProcessing.HalfFixedIff | Engine/src/render/postProcess/postProcess.cpp:137-141 | halving with a floor of 1 changes nothing exactly at 1x1 |
| PostProcessing.ChainShape | Engine/src/render/postProcess/postProcess.cpp:116-151 | the chain starts at the source size, has at most length + 1 entries, halves from each to the next, and stops early only at 1x1 |
| PostProcessing.DownsampleInRange | Engine/src/render/postProcess/postProcess.cpp:153-194 | n - 1 downsample draws, all inside the chain |
| PostProcessing.UpsampleInRangeIff | Engine/src/render/postProcess/postProcess.cpp:196-272 | the upsample as written stays inside the chain exactly when it has at least two levels |
| PostProcessing.OneByOneSourceReadsPastChain | Engine/src/render/postProcess/postProcess.cpp:259-260 | a 1x1 source gives a one-level chain, and the upsample as written then samples level 1, which does not exist |
| PostProcessing.OneLevelOnlyAtOneByOne | Engine/src/render/postProcess/postProcess.cpp:116-151 | only a 1x1 source gives a one-level chain |
| PostProcessing.PostProcess.InitBloomChain | Engine/src/render/postProcess/postProcess.cpp:116-151 | the sizes are the halving chain, and sizes and textures have equal length, level 0 holding the source |
| PostProcessing.PostProcess.BloomDownsample | Engine/src/render/postProcess/postProcess.cpp:153-194 | draws level i from level i - 1 for every i from 1 up |
| PostProcessing.PostProcess.BloomUpsample | Engine/src/render/postProcess/postProcess.cpp:196-272 | draws each level from n - 2 down to 1 from the level below it, then the destination from levels 1 and 0 |
| PostProcessing.PostProcess.ApplyBloom | Engine/src/render/postProcess/postProcess.cpp:102-114 | nothing happens for a length below 1; otherwise the chain is built and every draw stays inside it |
| FogRenderers.FogTransformEntries | Engine/src/render/fogRenderer/fogRenderer.cpp:135-143 | the fog transform holds the scale on the diagonal and the position in row 3, zeros elsewhere |
| FogRenderers.FogTranslationRoundTrip | Engine/src/math/mathUtils.h:135-155 | reading the translation back gives the position |
| FogRenderers.FogRenderer.constructor | Engine/src/render/fogRenderer/fogRenderer.cpp:8-19 | density 0.1, phase -0.7, no fog mode on, one volumetric fog at (0, 3, 0) scaled by 3 |
| FogRenderers.FogRenderer.AddVolumetricFog | Engine/src/render/fogRenderer/fogRenderer.cpp:135-143 | appends that transform and changes nothing else |
| FogRenderers.FogRenderer.SetDensity | Engine/src/render/fogRenderer/fogRenderer.cpp:145-153 | the getter returns the value set, and nothing else changes |
| FogRenderers.FogRenderer.SetPhaseFunctionParameter | Engine/src/render/fogRenderer/fogRenderer.cpp:155-163 | the getter returns the value set, and nothing else changes |
| FogRenderers.FogRenderer.EnableUniformFog | Engine/src/render/fogRenderer/fogRenderer.cpp:165-169 | uniform on, volumetric off, fog enabled |
| FogRenderers.FogRenderer.EnableVolumetricFog | Engine/src/render/fogRenderer/fogRenderer.cpp:176-180 | volumetric on, uniform off, fog enabled |
| FogRenderers.FogRenderer.DisableFog | Engine/src/render/fogRenderer/fogRenderer.cpp:187-191 | both off, fog disabled |
| FogRenderers.FogEnabledIffOneMode | Engine/src/render/fogRenderer/fogRenderer.cpp:193-196 | fog is enabled exactly when one mode is on, never both |

## Left out

- GPU work: Direct3D buffers, shaders, textures, constant buffers, render passes and draw calls. The bloom passes are kept only as the chain levels each draw targets and samples. `FogRenderer::update` and its rendering, and `updateInstanceBuffers` and the other buffer uploads, are not modelled.
- Floating point. Geometry is over `real`: no rounding, no inf or NaN.
  - FLT_EPSILON, FLT_MAX, the 1e-5 root padding, the 1.05 stretch ratio and the fog defaults 0.1 and -0.7 are exact reals.
  - `Box::empty()` (infinite sentinels) is not modelled. `reset()` with ±FLT_MAX is.
  - The slab test divides by the ray-direction components. A zero component gives a signed infinity. The 0/0 case (a zero component with the origin on one of that axis's box planes) and the zero direction are excluded by precondition, since IEEE floats give NaN there.
  - `Box::unit()` and `Box::radius()` (a square root) are not part of this model.
- `Triangle::computeNormalVector` (normalisation with a square root) is not modelled. The triangle's normal is an input.
- Triangles.IsIntersecting: takes the face normal as given, so it does not state that the normal is perpendicular to the edges.
- Octree.AddTriangle: carries a depth bound `fuel` (64 at the root, one less per level). Every split node provably has depth left, so passing an index down is never cut short. Only a full leaf at depth 64 differs from the source: it appends the index to its own list instead of splitting. The source recurses without a bound and may not terminate for coincident triangles.
- The octree's heap nodes, each owning an array of eight children, are an arena of nodes with consecutive children. Node identity and allocation are not modelled.
- Octree.TriangleOctree.Intersect: does not state that the hit is the nearest over all triangles of the mesh. It states that the hit is real and strictly nearer than the bound, that a missed root box means no hit, and that no triangle on the root's own list commits against the result. It does not state this for the nodes below the root. The pruning argument over the stretched boxes was not proved.
- Octree.IntersectNode: states the same as above, and that no triangle on node k's own list commits against the result. It does not state this for the nodes below k.
- Octree.CollectOctants: a child whose boxes the ray misses is marked by the entry `Octant(-1, Infinite)`. The source sets only the index to -1 and leaves the distance uninitialised (triangleOctree.cpp:256-260). The walk skips every entry with index -1 (triangleOctree.cpp:267-270), so only the order of the listed children matters, and the model sorts them by distance. In the source the sort also compares the uninitialised distances; the model puts the unlisted entries after every listed child and does not model what an arbitrary (or NaN) value there would do to the sort.
- TransformSystems.TransformSystem.GetMatrix: the source returns a mutable reference `Mat4f&`. Reading it is `GetMatrix`, and assigning through it is `SetMatrix`. Holding the reference and writing through it later, after other calls, is not modelled; that is aliasing.
- The octree's `triangle` field holds the hit's position in the node's own list, not the mesh triangle index (triangleOctree.cpp:223). The model keeps this as written.
- Meshes.Mesh.InitializeOctree: states "every triangle stored exactly once" only when the bounding box is the one `createBoundingBox` computed. With a stale box the source's `DEV_ASSERT(inserted)` would fire. Assertions are not modelled.
- SolidVector `reserve` and `data` (capacity and raw pointer) are not modelled. `TransformSystem`'s singleton `create`/`instance` and `MeshSystem`'s singleton are not modelled either.
- `MeshRange` fields are `uint32`. The model uses unbounded integers, since no wrap can occur for buffers that fit in memory.
- The instance counter's 32-bit wrap is modelled by `MeshSystems.NextID`.
- MeshSystems.AddIssuesFreshID: the freshness lemmas assume the counter does not wrap, since after a wrap ids repeat.
- MeshSystems.MeshSystem.RemoveObjectByID: does not itself state that ids stay within the issued bound. `MeshSystems.RemoveKeepsIdsIssued` states it about the same removal function.
- Radix sort:
  - `FloatFlipX` (in place) is the same map as `FloatFlip` and is modelled by it.
  - The prefetch macros are hints with no effect and are left out.
  - The three histograms are three arrays rather than one array of 3 x 2048.
  - Each prefix sum stored as `sum - 1` is an integer; the unsigned wrap of the first one to 2^32 - 1 is written as -1, and the increment before use restores the same position.
- RadixSort.RadixSort11: does not state what `in` and `vIn` hold afterwards; the source uses them as scratch space.
- Materials:
  - A material is a value type compared with `==`.
  - The `shared_ptr` identity of materials and models is not modelled.
  - The copy in the new-material fallback (shadingGroup.h:105-114) shares a value, not a pointer.
  - A model is represented by an id and its mesh count.
- Instances carry only `objectID` and `modelToWorldID`. The extra per-group fields (colours, dissolution time and so on) are not modelled, because no bookkeeping operation reads them.
- The other groups' `removeObjectByID` and lookups (hologram, dissolution, incineration, emission-only) are modelled once, generically, by the lit group's logic. In hologramInstances.cpp:145-146 and emissionOnlyInstances.cpp:81-82, a shadowed local makes the removed entry's material a self-assignment. That quirk is not modelled.
- `ShadingGroup::findIntersection` and `MeshSystem::findIntersectionInternal` transform rays by inverse matrices, which is float numerics. `MeshSystems.FindIntersection` takes their result (the nearest record and the matrix id) as parameters.
- `setNormalVisualization` and `updateShadingGroupsInstanceBuffers` are not modelled; they only upload GPU data.
- `EventDispatcher` dispatch is recorded as the sequence of (listener, event) calls. The listeners' own reactions are outside this model.
- The mover held by `MeshSystem` is an abstract slot. Its dragging behaviour is not part of this model.

## Findings

| source | as written | input that shows it | evidently intended | confidence | as-written member | corrected member |
|---|---|---|---|---|---|---|
| Engine/src/math/box.cpp:76-91 | the face normal picks the axis by comparing signed center-to-point ratios with a strict `>`; the signed x ratio is -1/2 on the +x face, below the other two | any box with no flat axis and a hit point on its +x face, e.g. the cube [-1, 1]^3 and (1, 0, 0), which gets +z | the outward normal of the face hit: the axis of the largest absolute ratio, pointing away from the center | not executed | BoxRay.FaceNormalAsWrittenMissesPlusX | BoxRay.FaceNormal (with BoxRay.FaceNormalIsOutward) |
| Engine/src/math/box.cpp:82-90 | every branch (lines 82, 86 and 90) takes the sign of the normal from the x offset `pX`, including the y and z branches | the cube [-1, 1]^3 and the hit (0.5, -1, 0) on its lower y face, which gets (0, 1, 0) | the sign from the offset on the chosen axis | not executed | BoxRay.FaceNormalAsWrittenSignFromX (with BoxRay.CubeBottomHitNormal) | BoxRay.FaceNormal (with BoxRay.FaceNormalIsOutward) |
| Engine/src/render/postProcess/postProcess.cpp:259-260 | `bloomUpsample` always samples chain level 1 for its final draw | a 1x1 source texture with any chain length >= 1: `initBloomChain` stops at one level | skip the upsample, or guard level 1, when the chain has fewer than two levels | not executed | PostProcessing.OneByOneSourceReadsPastChain | PostProcessing.PostProcess.ApplyBloom (with PostProcessing.UpsampleInRangeIff) |

The box ray tests `BoxRay.Intersects` and `BoxRay.IntersectsMesh` commit the
normal as box.cpp computes it, so that the records they produce are the
source's. `BoxRay.FaceNormal` is the corrected normal, with its outward
property proved beside it; no caller in the model reads a box hit's normal.
