# mnCollisionDeformer, modelled in Dafny

mnCollisionDeformer is a Maya deformer node. It dents a mesh where the mesh
pushes into a collider mesh, and it bulges the surrounding vertices outwards.
One evaluation of the node (`deform`) does three things:

1. **Contact pass.** Each vertex is probed once. The probe runs from the
   vertex's world position along its inverted world normal, and the collider's
   parity inside test (`getIntersection`) decides whether there is a contact.
   A vertex with a contact is pulled the `envelope` fraction of the way towards
   its contact point. Its index and its connected vertices are recorded.
2. **Full enclosure.** If every vertex had a contact, the original positions
   are restored.
3. **Bulge.** Otherwise, when `levels` and `bulge` are both non-zero, the ring
   of vertices around the contact region is pushed out along its normals.
   This is `deformNeighbours`, a layered walk over the adjacency, `levels`
   layers deep. The amount for each layer is read from the bulge-shape ramp,
   or falls back to `levels² / maxLevels`. Each offset is capped at the first
   collider hit along the normal.

The model works on exact reals. The local-to-world matrix is an abstract
`Transform`: the map of points, the map of directions, and the inverse map of
directions. Lemmas that need the matrix to behave like a real affine matrix
say so with the predicates `Affine`, `Inverts` and `Isometric`. The collider's
two queries (closest normal; all ray intersections, ordered by distance) and
`MFloatVector.angle` are given as functions, and the model states everything in
terms of what they return.

Files:

- `wrappers.dfy`: the Option type.
- `vectors.dfy`: vectors and transforms.
- `inside_test.dfy`: `getIntersection`.
- `contact.dfy`: the contact loop of `deform`.
- `bulge.dfy`: `deformNeighbours`.
- `deformer.dfy`: `deform` as a whole.

The positions are an `array<Vec>`, which `Deform`, `ContactPass` and
`DeformNeighbours` update in place. Each method is proved equal to a pure
function of the old positions, and the properties are lemmas about those
functions.

Three behaviours of the code are worth noting:

- The bulge starts when `levels` is non-zero (`if levels and bulge`). This
  includes negative values, which give exactly one layer.
- The walk recurses while `levels - 1 > 0`, even when the next layer is empty.
  An empty layer moves nothing.
- The cap is meant to keep the bulge from clipping through the collider (the
  comment at `plugins/mnCollisionDeformer.py:385-386`). It compares the
  world-space distance to the hit with the length of the **local** offset, so
  it keeps the vertex short of the collider only when the transform preserves
  lengths (`Bulge.ClampKeepsShortOfHit`). `Bulge.ClampMissesUnderScale` shows a
  uniform scale by 2 that lets a vertex pass the hit.

## Model

| member | source | states |
|---|---|---|
| InsideTest.GetIntersection | plugins/mnCollisionDeformer.py:428-474 | a contact exists exactly when the probe ray's hit count is odd, and then it is the first (nearest) hit |
| InsideTest.SearchDirectionChoice | plugins/mnCollisionDeformer.py:450-457 | the ray follows the given normal when the surface normal is opposed (angle ≥ π or ≤ -π); otherwise it departs from the given normal by exactly the surface normal; the ray equals the given normal only when they are opposed or the surface normal is zero |
| Contact.Contacts | plugins/mnCollisionDeformer.py:204-226 | vertex i has a contact exactly when the inside test, probed from its world position along its negated world normal, returns a point |
| Contact.DentedPoints | plugins/mnCollisionDeformer.py:225-251 | the contact pass keeps the vertex count; each vertex goes to its dented position, and a vertex without a contact keeps its position |
| Contact.AllHitMeansEvery | plugins/mnCollisionDeformer.py:200-251 | `inside_mesh` as the loop accumulates it is true exactly when no visited vertex missed |
| Contact.ScanPoints | plugins/mnCollisionDeformer.py:202-254 | after k iterations the first k vertices hold their dented positions and the rest their original ones |
| Contact.ScanAhead | plugins/mnCollisionDeformer.py:202-254 | an iteration never touches a vertex that has not been visited yet |
| Contact.ScanIntersecting | plugins/mnCollisionDeformer.py:248-249 | after k iterations `intersecting_indices` is the ascending list of contacted vertices below k |
| Contact.ScanNeighbouring | plugins/mnCollisionDeformer.py:240-243 | after k iterations `neighbouring_indices` is the concatenation, in vertex order, of the connected vertices of each contacted vertex below k |
| Contact.ScanInside | plugins/mnCollisionDeformer.py:200-251 | after k iterations `inside_mesh` holds exactly when every vertex below k had a contact |
| Contact.ScanComplete | plugins/mnCollisionDeformer.py:197-254 | the loop's final state is the dented positions, the contacted list, the neighbour list, and "every vertex had a contact" |
| Contact.ContactPass | plugins/mnCollisionDeformer.py:197-254 | the while loop leaves the positions dented and returns `intersecting_indices`, `neighbouring_indices` and `inside_mesh` as computed from the original positions |
| Contact.VisitVertex | plugins/mnCollisionDeformer.py:204-254 | one loop iteration: probe the vertex; move it and record it and its neighbours on a contact; otherwise clear `inside_mesh` |
| Contact.IntersectingIsContacted | plugins/mnCollisionDeformer.py:248-249 | `intersecting_indices` holds a vertex iff that vertex had a contact |
| Contact.IntersectingAscending | plugins/mnCollisionDeformer.py:197-254 | `intersecting_indices` is strictly ascending and in range, so no vertex is recorded twice |
| Contact.NeighbouringIsAdjacent | plugins/mnCollisionDeformer.py:240-243 | `neighbouring_indices` holds x iff x is connected to some contacted vertex |
| Contact.ZeroEnvelopeDentsNothing | plugins/mnCollisionDeformer.py:229-235 | with envelope 0 no vertex moves, for any linear inverse map |
| Contact.DentInterpolates | plugins/mnCollisionDeformer.py:229-235 | for an affine, invertible transform a contacted vertex lands, in world space, at `ws + envelope·(contact − ws)` |
| Bulge.BulgeAmount | plugins/mnCollisionDeformer.py:332-351 | the amount is the ramp's sample at `levels/maxLevels` when the sample succeeds and is non-zero, and `levels² / maxLevels` when the sample fails or is zero; it is never zero when `levels` is non-zero |
| Bulge.DefaultRampFallsBack | plugins/mnCollisionDeformer.py:125-142 | with the default ramp (two keys valued 0.0) the amount is always `levels² / maxLevels` |
| Bulge.BulgeOffset | plugins/mnCollisionDeformer.py:370-390 | without a hit the offset is `normal·multiplier·amount`; a first hit strictly closer (in world space) than that offset is long replaces it with the inverse-mapped vector to the hit; whenever the offset differs from `normal·multiplier·amount`, it is that vector |
| Bulge.UncappedWhenHitFar | plugins/mnCollisionDeformer.py:387-390 | a hit at least as far as the offset is long leaves the offset uncapped |
| Bulge.ClampKeepsShortOfHit | plugins/mnCollisionDeformer.py:385-390 | for a length-preserving, invertible transform the world displacement is never longer than the distance to the first hit |
| Bulge.ClampMissesUnderScale | plugins/mnCollisionDeformer.py:383-390 | the scale by 2 is affine with an exact inverse, and under it a vertex with a hit 1.5 away gets an uncapped offset that moves it 2 in world space, past the hit |
| Bulge.LayerApplied | plugins/mnCollisionDeformer.py:354-394 | one layer moves exactly its own vertices, each once from its current position, and leaves every other vertex alone |
| Bulge.CollectAdd | plugins/mnCollisionDeformer.py:396-402 | visiting one more vertex adds exactly its connected vertices to the collected neighbours |
| Bulge.LayerCount | plugins/mnCollisionDeformer.py:404-425 | the walk processes `levels` layers, and exactly one when `levels ≤ 1` |
| Bulge.LayersDisjoint | plugins/mnCollisionDeformer.py:404-413 | starting outside `past_indices`, the layers are pairwise disjoint and none meets `past_indices`, so no vertex is bulged twice |
| Bulge.VisitedIsPastAndLayers | plugins/mnCollisionDeformer.py:405-413 | the final `past_indices` is the starting one plus every layer except the last |
| Bulge.BulgedOutsideLayers | plugins/mnCollisionDeformer.py:290-425 | a vertex in no layer ends where it started |
| Bulge.BulgedInLayer | plugins/mnCollisionDeformer.py:332-425 | a vertex of layer a ends bulged once from its starting position, by the amount of level `levels − a` |
| Bulge.ZeroMultiplierStill | plugins/mnCollisionDeformer.py:383-394 | with multiplier 0 the walk moves no vertex |
| Bulge.DeformNeighbours | plugins/mnCollisionDeformer.py:290-425 | the recursive method leaves the positions the walk specifies, and returns the final `past_indices` |
| Deformer.DeformResult | plugins/mnCollisionDeformer.py:257-288 | deform keeps the vertex count |
| Deformer.Deform | plugins/mnCollisionDeformer.py:145-288 | without a collider nothing moves; otherwise: the original positions if fully enclosed; else the dented positions bulged from the seed ring when `levels` and `bulge` are non-zero; else the dented positions |
| Deformer.SeedLayerWithinMesh | plugins/mnCollisionDeformer.py:270-272 | `outer_neighbour_indices` only names vertices of the mesh |
| Deformer.ContactRegionMembers | plugins/mnCollisionDeformer.py:197-249 | the contact region holds exactly the vertices with a contact |
| Deformer.SeedLayerMembers | plugins/mnCollisionDeformer.py:270-272 | `outer_neighbour_indices` holds x iff x is connected to a contacted vertex and has no contact itself |
| Deformer.ContactedVertexKeepsDent | plugins/mnCollisionDeformer.py:259-288 | unless fully enclosed, a contacted vertex keeps its dented position; the bulge never reaches it |
| Deformer.LayerVertexBulged | plugins/mnCollisionDeformer.py:261-288 | a vertex in bulge layer a had no contact, and ends bulged from its original position with multiplier `bulge·envelope` and the amount of level `levels − a` |
| Deformer.ZeroEnvelopeIsIdentity | plugins/mnCollisionDeformer.py:229-235 | with envelope 0 deform moves nothing, whatever the bulge, levels or ramp, for any linear inverse map |

## Left out

- Maya node plumbing is not part of this model: `initialize`, `creator`, `__init__`, attribute registration, `getDeformerInputGeometry`, plug-in (de)registration and the MEL attribute template. Of `postConstructor`, only its default ramp keys are kept, as `Bulge.DefaultRamp`.
- The collider's `getClosestPointAndNormal` and `allIntersections`, and `MFloatVector.angle`, are given as functions. The model assumes their results; it does not compute them from geometry.
- The 4x4 `MMatrix` is an abstract `Transform`. Lemmas about the real matrix carry the `Affine`, `Inverts` or `Isometric` hypothesis they need.
- Float precision is not modelled: exact reals replace the single- and double-precision values and the `MFloatPoint`/`MPoint` conversions.
- Ramp interpolation is given as a function `real -> Option<real>`. None stands for the exception from `getValueAtPosition`, and also for calling `deformNeighbours` without a ramp handle.
- Bulge.LayerCount: the walk recurses once per level, so a `levels` near Python's recursion limit (about 1000 frames) would raise `RecursionError` part-way through. The model has no recursion limit and always completes all `levels` layers.
- The exception handling around reading the collider is modelled only as "no collider, nothing changes". Exceptions raised elsewhere are not modelled.
- `if intersecting_point:` is read as "a point was returned".
- Bulge.DeformNeighbours: each layer is visited in ascending index order, while the source uses the order of `list(set(...))`. A vertex's new position depends only on its own position, so the order does not change the result.
- Bulge.DeformNeighbours: `past_indices` is a set, so the source extending the caller's `intersecting_indices` list in place is not modelled. `deform` does not read that list again.
- Bulge.ClampKeepsShortOfHit: the never-past-the-collider guarantee is stated only for length-preserving transforms. The source compares a world length with a local length, and `Bulge.ClampMissesUnderScale` shows the guarantee failing under scaling.
- The unused global `vertexIncrement`, `deformerTemplate.py` and `demo_node.py` are not part of this model.
