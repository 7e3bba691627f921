# Geodesic "Burst of Knowledge" mesh — a Dafny model

The model covers the geometric core that the three scripts `geodesic_2d.py`, `geodesic_3d.py` and
`smcl_burst_of_knowledge.py` share. The pipeline is:

1. Start from the twelve vertices and twenty faces of a regular icosahedron.
2. Subdivide the mesh `subdivisions` times. Each round splits every face into four. Each undirected edge gets
   exactly one new vertex, found through a midpoint cache keyed by the sorted index pair.
3. Turn every face into a free triangle. The triangle is first multiplied by `scale` (the two Manim scripts) or
   left as is (the burst script). It is then shrunk towards its centroid by `shrink_factor`.
4. For the 2D logo only:
   - rotate the triangles by `rot_y @ rot_x`, where each factor is the quaternion-built `rotation_matrix`;
   - project the triangles orthographically by dropping `z`, keeping the mean `z` of each triangle as its depth;
   - draw the triangles back to front in `np.argsort` order;
   - give each triangle the fill opacity `clip(0.6 + 0.4 (z + 2.5) / 5, 0.4, 1)`.

The pipeline methods also return two ghost outputs: every intermediate mesh and every round's midpoint cache.
With these, their contracts can say that the mesh they use is the icosahedron subdivided `subdivisions` times,
and not merely a mesh of the right size.

Modules, one per concern:

| module | file | models |
|---|---|---|
| `Geometry` | geometry.dfy | vectors, triangles, centroid, squared norms |
| `Mesh` | mesh.dfy | faces, sorted edge keys, edge sets, face counts, closed triangulations |
| `Icosahedron` | icosahedron.dfy | `get_icosahedron`: the vertex and face tables |
| `Subdivision` | subdivision.dfy | `subdivide` and its inner `get_midpoint` |
| `Shrink` | shrink.dfy | `center + (v - center) * shrink_factor`, with and without `scale` |
| `Rotation` | rotation.dfy | `rotation_matrix`: the quaternion formula and its orthogonality |
| `Projection` | projection.dfy | `project_to_2d` |
| `DepthOrder` | depthorder.dfy | `np.argsort(z_depths)`, the opacity formula, the drawing loop |
| `Pipeline` | pipeline.dfy | `create_geodesic_triangles_3d`, `create_geodesic_triangles`, `create_burst_logo`, the static logo frame |

Coordinates are exact reals. Several things the code computes are passed in as parameters instead:

- the square root behind `normalize`, passed as a function `normalize: Vec3 -> Vec3`;
- the golden ratio `t`;
- the cosine and sine of the half angles.

## Model

| member | source | states |
|---|---|---|
| Geometry.Mean3 | geodesic_2d.py:100 | definition: `np.mean(tri_verts, axis=0)`, the componentwise mean of the three corners |
| Mesh.Key | geodesic_2d.py:49 | definition: `tuple(sorted((i1, i2)))`, the index pair in ascending order, the same for (i1, i2) and (i2, i1) |
| Icosahedron.FacesValid | geodesic_2d.py:32-37 | the face table has 20 rows, every index below 12 |
| Icosahedron.FaceTableClosed | smcl_burst_of_knowledge.py:40-45 | the face table has exactly 30 distinct undirected edges and every one of them lies in exactly two faces |
| Icosahedron.EdgeSetOfFaces | geodesic_3d.py:32-37 | the edges of the face table are exactly the ten edges of the cap around vertex 0, the ten of the cap around vertex 3 and the ten zig-zag edges of the band between them |
| Icosahedron.Vertices | geodesic_2d.py:24-39 | definition: the twelve rows (±1, ±t, 0), (0, ±1, ±t), (±t, 0, ±1) in table order, each passed through `normalize` |
| Icosahedron.Faces | geodesic_2d.py:32-37 | definition: the twenty index triples, in table order and winding, as four rows of five |
| Subdivision.MidVertex | geodesic_2d.py:53-55 | definition: `(v1 + v2) / 2.0` componentwise, passed through `normalize` |
| Subdivision.GetMidpoint | geodesic_2d.py:48-60 | after a call the sorted key is cached and maps to the returned index, older entries are unchanged, the key set grows by exactly that key, and the vertex list only grows at its end |
| Subdivision.GetMidpointSymmetric | smcl_burst_of_knowledge.py:58-62 | asking for (i1, i2) or (i2, i1) gives the same index and the same new state |
| Subdivision.GetMidpointAppends | geodesic_2d.py:50-59 | a cache hit returns the cached index and appends nothing; a miss appends exactly the normalized midpoint at index len(new_verts) - 1 |
| Subdivision.GetMidpointConsistent | geodesic_3d.py:48-60 | a call preserves the cache invariant: input vertices kept as a prefix, one appended vertex per cached edge at its own index, each the midpoint of its edge, nothing else appended |
| Subdivision.ProcessFace | geodesic_2d.py:62-73 | one loop iteration adds the face's three edge keys to the cache, leaves old entries alone and yields the face's four children |
| Subdivision.ChildrenCorners | smcl_burst_of_knowledge.py:74-85 | the children are (v1,a,c), (v2,b,a), (v3,c,b), (a,b,c): each old corner lies in exactly one child, as its first entry, and the centre child uses new vertices only |
| Subdivision.ChildrenStable | geodesic_2d.py:62-66 | later cache growth never changes the children of an already processed face |
| Subdivision.ProcessFaceValid | geodesic_2d.py:68-73 | the children index only vertices that exist once the face is processed |
| Subdivision.Children | geodesic_2d.py:68-73 | definition: with a, b, c the cached midpoints of edges v1v2, v2v3, v3v1, the faces [v1,a,c], [v2,b,a], [v3,c,b], [a,b,c] in that order |
| Subdivision.Subdivide | geodesic_2d.py:42-75 | four times as many faces, all valid; old vertices kept as a prefix; exactly one new vertex per distinct edge, so V becomes V + E; cached indices are distinct, each holds its edge's normalized midpoint, and every new vertex is some edge's; face i becomes children 4i..4i+3 in source order |
| Shrink.ShrinkTri | smcl_burst_of_knowledge.py:113-121 | definition: with `center` the mean of the three corners, each corner becomes `center + (v - center) * f` |
| Shrink.ShrinkScaledTri | geodesic_2d.py:99-101 | definition: the face's corners are multiplied by `scale` first, then shrunk as above about the scaled centroid |
| Shrink.ShrinkCentroid | smcl_burst_of_knowledge.py:116-120 | shrinking about the centroid keeps the centroid |
| Shrink.ShrinkCharacterized | smcl_burst_of_knowledge.py:119-120 | a triangle is the shrink of t by f if and only if it has t's centroid and each corner's offset from it is f times the original offset |
| Shrink.ShrinkEdges | geodesic_3d.py:90-91 | every edge vector of the shrunk triangle is the original edge vector times f |
| Shrink.ShrinkIdentity | geodesic_2d.py:100-101 | a factor of 1 returns the triangle unchanged |
| Shrink.ShrinkCompose | smcl_burst_of_knowledge.py:120 | shrinking by f and then by g equals shrinking by f times g |
| Shrink.ShrinkCloser | smcl_burst_of_knowledge.py:96 | for 0 < f < 1 each corner away from the centroid moves strictly closer to it, and a corner on it stays put |
| Shrink.ScaledCentroid | geodesic_2d.py:99-100 | the scaled-then-shrunk triangle's centroid is the original centroid times scale |
| Shrink.ScaledEdges | geodesic_3d.py:89-91 | its edge vectors are the original ones times f times scale |
| Shrink.ScaledIdentity | geodesic_2d.py:99-101 | with factor 1 the result is just the triangle times scale |
| Shrink.UnscaledIsScaleOne | smcl_burst_of_knowledge.py:113-120 | the unscaled shrink of the burst script is the scaled one with scale 1 |
| Rotation.QuaternionMatrix | geodesic_2d.py:83-87 | definition: the nine entries of the returned matrix, entry by entry, for the quaternion (a, b, c, d) |
| Rotation.RotationMatrix | geodesic_2d.py:78-87 | definition: a = cos(θ/2) and (b, c, d) = -axis · sin(θ/2), with the half-angle cosine and sine as inputs and a unit axis, fed to the matrix above |
| Rotation.QuaternionGram | geodesic_2d.py:83-87 | for any a, b, c, d the transpose of the matrix times the matrix is (a²+b²+c²+d²)² times the identity |
| Rotation.QuaternionOrthogonal | geodesic_2d.py:83-87 | when a²+b²+c²+d² = 1 the matrix is orthogonal |
| Rotation.QuaternionAxis | geodesic_2d.py:84-86 | the matrix maps the vector part (b, c, d) to itself times a²+b²+c²+d² |
| Rotation.RotationQuaternionUnit | geodesic_2d.py:80-82 | a unit axis and cos² + sin² = 1 give a unit quaternion (a, b, c, d) |
| Rotation.RotationOrthogonal | geodesic_2d.py:78-87 | `rotation_matrix` of a unit axis is orthogonal |
| Rotation.RotationByZero | geodesic_2d.py:81-87 | a zero half-angle sine (angle 0) gives the identity matrix |
| Rotation.RotationFixesAxis | geodesic_2d.py:78-87 | the rotation leaves its own axis fixed |
| Rotation.OrthogonalSqDist | geodesic_2d.py:122 | an orthogonal matrix preserves squared distances |
| Rotation.ApplyMatMul | geodesic_2d.py:115 | applying a product matrix is applying the right factor first, then the left |
| Projection.ViewMatrix | geodesic_2d.py:113-115 | definition: `rot_y @ rot_x`, the y-axis rotation times the x-axis rotation |
| Projection.ProjectTri | geodesic_2d.py:122-127 | definition: one loop iteration: rotate the three corners, keep their x and y, and take the mean of their z as the depth |
| Projection.ProjectTo2D | geodesic_2d.py:107-129 | one 2D triangle and one depth per input triangle; each 2D triangle is the first two components of the rotated corners, each depth the mean of the rotated z values, under rot = rot_y @ rot_x |
| Projection.DepthOfCentroid | geodesic_2d.py:127 | the depth is the z of the rotated centroid |
| Projection.ProjectedCentroid | geodesic_2d.py:122-124 | the centroid of the flattened triangle is the flattened rotated centroid |
| Projection.ProjectComposed | geodesic_2d.py:113-124 | projecting under rot_y @ rot_x equals rotating by rot_x first and projecting under rot_y |
| Projection.ViewIsRigid | geodesic_2d.py:113-115 | for valid cosine/sine pairs the view rotation preserves all squared distances |
| DepthOrder.ArgSort | geodesic_2d.py:147 | the order is a permutation of the indices and reads the depths in non-decreasing order |
| DepthOrder.PermutationDrawsEachOnce | geodesic_2d.py:154-156 | a permutation of 0..n-1 has length n, only valid indices, and each index exactly once |
| DepthOrder.Insert | geodesic_2d.py:211 | insertion into a depth-sorted order adds exactly the new index and keeps the order sorted |
| DepthOrder.Clip | geodesic_2d.py:160 | definition: `np.clip`, the value raised to `lo` if below it, then lowered to `hi` if above it |
| DepthOrder.Opacity | geodesic_2d.py:159-160 | definition: `clip(0.6 + 0.4 * (z + 2.5) / 5.0, 0.4, 1.0)` |
| DepthOrder.ClipRange | geodesic_2d.py:160 | clipping to [lo, hi] lands in the interval, leaves inside values alone and saturates at either end |
| DepthOrder.OpacityBounds | geodesic_2d.py:159-160 | the opacity lies in [0.4, 1.0] |
| DepthOrder.OpacityMonotone | geodesic_2d.py:218-219 | a greater depth never gets a smaller opacity |
| DepthOrder.OpacityPiecewise | geodesic_2d.py:275-276 | on [-5, 2.5] the opacity is 0.8 + 0.08 z; at or below -5 it is 0.4, at or above 2.5 it is 1.0 |
| DepthOrder.PaintOrder | geodesic_2d.py:154-160 | triangles are drawn in a depth-sorted permutation, each with the opacity of its own depth, so opacities never decrease along the drawing |
| Pipeline.Rounds | geodesic_2d.py:94 | definition: the number of passes of `range(subdivisions)`, which is zero for any subdivisions below 1 |
| Pipeline.FaceTri | geodesic_2d.py:99 | definition: `verts[face]`, the three corners the face's indices select, in face order |
| Pipeline.BuildMesh | geodesic_2d.py:92-95 | the result is the last mesh of a chain of n + 1 meshes (n rounds, none for n below 1) that starts at the icosahedron, each later mesh being the `subdivide` of the one before, with all of `Subdivision.Subdivide`'s guarantees between neighbours; it has 20·4ⁿ valid faces with the icosahedron vertices first; zero rounds give the icosahedron itself and one round gives 42 vertices |
| Pipeline.SubdivideRound | geodesic_2d.py:94-95 | one loop pass `verts, faces = subdivide(verts, faces)` extends the chain by one round ending at the new mesh; faces quadruple, stay valid, the old vertices stay first, and the pass on the icosahedron gives 42 vertices |
| Pipeline.FirstRoundVertices | geodesic_2d.py:92-95 | subdividing the icosahedron once gives exactly 12 + 30 = 42 vertices |
| Pipeline.ChainExtend | geodesic_2d.py:94-95 | appending the subdivision of a chain's last mesh gives a longer chain |
| Pipeline.ShrinkFaces | geodesic_2d.py:97-102 | definition: the shrink loop, one triangle per face, in face order: `verts[face] * scale` shrunk by `shrink_factor` |
| Pipeline.CreateGeodesicTriangles3D | geodesic_2d.py:90-104 | the mesh is the last of the icosahedron's subdivision chain; 20·4ⁿ triangles and faces; triangle i is face i, looked up in the scaled vertex list, shrunk about its centroid; the scaled list starts with the scaled icosahedron |
| Pipeline.CreateGeodesicTriangles | geodesic_3d.py:78-94 | the mesh is the last of the icosahedron's subdivision chain; one triangle per face, 20·4ⁿ in all, triangle i being face i of that mesh scaled by `scale` and shrunk by `shrink_factor` about its centroid |
| Pipeline.CreateBurstLogo | smcl_burst_of_knowledge.py:90-123 | the mesh is the last of the icosahedron's subdivision chain; one polygon per face, 20·4ⁿ in all, polygon i being face i of that mesh, unscaled, shrunk by `shrink_factor` about its centroid |
| Pipeline.LogoFrame | geodesic_2d.py:137-171 | the mesh is the last of the icosahedron's subdivision chain; its 20·4ⁿ triangles are those of `create_geodesic_triangles_3d` (face i of the scaled mesh, shrunk); the drawing order is a permutation of them, so each is drawn exactly once, in non-decreasing depth under `rot_y @ rot_x`; polygon i is the projection of triangle `order[i]` with the opacity of that triangle's own depth; opacities lie in [0.4, 1.0] and never decrease along the drawing |

## Left out

- `normalize` and `np.linalg.norm`: the projection onto the unit sphere is a parameter. Nothing is proved about
  vertex lengths.
- `np.sqrt(5)`, `np.cos` and `np.sin` are not computed. The golden ratio `t` and the half-angle cosines and sines
  are inputs. The rotation lemmas take `cos² + sin² = 1` as a hypothesis.
- Floating-point rounding: all arithmetic is on exact reals.
- `Rotation.RotationMatrix` takes an axis of unit length. The source's `axis / np.linalg.norm(axis)` step is left
  out because it needs a square root. Every call site passes a unit axis (`[1, 0, 0]` or `[0, 1, 0]`).
- `np.argsort` tie order: numpy's default sort is not stable. Only "a permutation, sorted by depth" is stated.
- The Manim scenes' animation code (`LaggedStart`, `Rotate`, `Transform`, camera settings), the matplotlib
  `visualize`, colours, stroke widths, and the `__main__` block.
- `LogoRotate2D` (geodesic_2d.py:196-233) repeats the projection and drawing inline for each frame, with the
  x angle fixed at 0.4 and the y angle stepping round a full turn. `LogoBuildUp` (geodesic_2d.py:257-291) uses the
  same angles as `LogoStyle`. `Pipeline.LogoFrame` takes the half-angle cosines and sines as inputs, so one frame of
  either scene is an instance of it; the frame loop and the fly-in animation are not modelled.
- The 3D script's scenes `RotatingGeodesic` and `GeodesicBuildUp` (geodesic_3d.py:97-176) do not project or sort.
  They hand the 3D triangles, at a fixed opacity of 0.9, to a rotating camera. Only the triangles they draw
  (`Pipeline.CreateGeodesicTriangles`) are modelled.
- No parameter validation exists in the code. A negative `subdivisions` makes `range` empty, so zero rounds are
  run (`Pipeline.Rounds`). Non-positive `shrink_factor` and `scale` are accepted as they are.
- Out-of-range face indices would raise `IndexError` in the source. The model makes valid indices a precondition
  of `Subdivision.Subdivide`, and the face table is proved to meet it.
- Pipeline.BuildMesh: every round is stated to be a subdivision, so each round adds one vertex per distinct edge
  (V + E). The closed count 12 + 30 = 42 is given for the first round only. Later rounds are not proved to keep
  the mesh closed, so the count 10·4ⁿ + 2 is not stated for n ≥ 2.
- Subdivision.Subdivide also returns the final midpoint cache. The source discards it; it is returned here so
  that the contract can describe the new vertices.
