# Drawing demo: stroke meshes and hull tracing, modelled in Dafny

This project models the core of a Unity drawing demo. It has three parts:

- **LineMeshGenerator** turns a timed polyline into a triangle mesh. Each point contributes a
  straight joint (two vertices, bridged to the previous pair by a quad) or a rounded corner
  (entry pair, hub, fan of rim vertices, exit pair). The stroke is capped at the end. When a
  stroke of more than three points ends fast and its second-to-last point does not decelerate,
  its half-width tapers from the last decelerating point (or from point 1, if none decelerates)
  down to the end. When the second point is already a corner, the corner's entry pair is not
  bridged to the first pair, so the
  first segment is left unfilled (`Ribbon.CornerSecondGap`).
- **CustomLineRenderer** emits the same ribbon into a UI `VertexHelper`, at a constant width.
- **GridManager** keeps an occupancy grid (`bool[H, V]`) whose border is blocked. It refreshes the
  interior from a physics probe. From a free seed cell it walks down to a blocked cell, then traces
  the blocked cells that touch free space: a depth-first walk over the 8 neighbours, with an
  explicit stack, a visited set and a cap of H·V rounds.

Modules:

- `Ribbon` holds the index bookkeeping both renderers share, generic in the vertex type:
  - the `Builder` (vertices, triangles, `curVertexIndex`);
  - the joint, corner and end-cap steps;
  - a per-point `Shape`;
  - `Run` and `Mesh`, which fold a sequence of shapes into the reference mesh.
- `LineMeshGenerator`, `CustomLineRenderer` and `GridManager` are classes with the source's fields.
  Their methods follow the source's loops and branches.
  - The two renderers' drawing methods are proved, by postconditions, to build the reference mesh.
    Properties of that reference are proved as lemmas: counts, indices in range, the corner
    layout, the width taper.
  - GridManager builds no mesh. Its methods are proved against specifications of the grid: the
    blocked border, the refreshed interior, and the cells the hull walk visits.

The floating-point geometry is not modelled: positions, normals, angles, velocities and dot
products. For each point it would decide whether the point is a corner, the turn's sign and the
number of increments (`Turn`). It would also decide whether the end segment is fast and which
points decelerate (`StrokeAnalysis`). These decisions are inputs. Vertices are symbolic
`Position`s: a point index, a side, a half-width and a `Normal`. The stroke's timestamps and the
width arithmetic are modelled exactly, over the reals.

Strokes with fewer than two points:

- **LineMeshGenerator with fewer than two points.** `DrawLine` returns before it builds a `Mesh`,
  so the previously uploaded mesh stays. Only the width and the colour list are reset.
  (`DrawLine` ensures `mesh == old(mesh)` in that case.)
- **CustomLineRenderer with fewer than two points.** `OnPopulateMesh` clears the helper first, so
  the helper is left empty.

## Model

| member | source | states |
|---|---|---|
| Ribbon.Joint | Drawing/Assets/Scripts/LineMeshGenerator.cs:323-342 | a joint appends its two vertices; once four vertices exist it appends the quad (c-2, c-1, c+1, c+1, c, c-2) with c = vertices-4, otherwise no triangle; it restores `curVertexIndex == vertices-2` and keeps every index in range |
| Ribbon.EndCap | Drawing/Assets/Scripts/LineMeshGenerator.cs:344-352 | the end cap adds no vertex, closes the last quad once four vertices exist (advancing the index by 2), and otherwise changes nothing |
| Ribbon.CornerPhases | Drawing/Assets/Scripts/LineMeshGenerator.cs:244-321 | a rounded corner is its four phases in order: the entry pair with its two bridging quads, the hub and first rim vertex with their triangles, the fan over the remaining rim vertices, the exit pair |
| Ribbon.CornerInvariant | Drawing/Assets/Scripts/LineMeshGenerator.cs:244-321 | after a corner `curVertexIndex == vertices-2` again; it adds 1 + rim fan triangles plus 4 bridging ones when two joints precede it, and keeps indices in range |
| Ribbon.CornerIndicesValid | Drawing/Assets/Scripts/LineMeshGenerator.cs:258-303 | every index a corner emits, including the hub triangle's forward reference to the next rim vertex, names a vertex of the finished corner |
| Ribbon.CornerWithin | Drawing/Assets/Scripts/LineMeshGenerator.cs:258-303 | a corner after a builder whose triangles name only its vertices leaves triangles that name only the finished corner's vertices |
| Ribbon.CornerLayout | Drawing/Assets/Scripts/LineMeshGenerator.cs:258-288 | the hub is vertex `centerIndex` = old count + 2, the first rim vertex comes right after it, the hub triangle is (centerIndex-1, centerIndex, centerIndex+1), the first rim triangle depends on the turn's sign, and the bridge is Quad(n-2) + Quad(n) |
| Ribbon.CornerRim | Drawing/Assets/Scripts/LineMeshGenerator.cs:278-306 | a corner whose turn needs incTimes increments has 1 + max(0, incTimes-2) rim vertices |
| Ribbon.CornerRimAt | Drawing/Assets/Scripts/LineMeshGenerator.cs:278-306 | rim vertex j lies on the turn's side at the entering normal rotated by j+1 increments (clipped to the turn) |
| Ribbon.FanWithin | Drawing/Assets/Scripts/LineMeshGenerator.cs:290-306 | every index of the fan is the hub or one of the rim vertices first .. first+m |
| Ribbon.CornerOwnWithin | Drawing/Assets/Scripts/LineMeshGenerator.cs:274-306 | a corner's own triangles number 3(1+rim) indices, all below the corner's last vertex |
| Ribbon.PointShape | Drawing/Assets/Scripts/LineMeshGenerator.cs:195-231 | the dispatch per point: the last point a joint on the previous segment, an inner corner point a rounded corner on the previous segment, otherwise a joint on its own segment; always well shaped |
| Ribbon.CornerOwnAbove | Drawing/Assets/Scripts/LineMeshGenerator.cs:274-306 | a corner's own triangles name no vertex before its entry pair |
| Ribbon.StepAbove | Drawing/Assets/Scripts/LineMeshGenerator.cs:189-232 | a point drawn after at least lo + 4 vertices names no vertex below lo |
| Ribbon.EndCapAbove | Drawing/Assets/Scripts/LineMeshGenerator.cs:344-352 | the end cap after at least lo + 4 vertices names no vertex below lo |
| Ribbon.CornerSecondBase | Drawing/Assets/Scripts/LineMeshGenerator.cs:258-266 | a straight first point then a corner: the corner does not bridge, and its triangles name no vertex below 2 |
| Ribbon.CornerSecondRun | Drawing/Assets/Scripts/LineMeshGenerator.cs:258-266 | when the second point is a corner, it does not bridge, and from it on no triangle names vertex 0 or 1 |
| Ribbon.CornerSecondGap | Drawing/Assets/Scripts/LineMeshGenerator.cs:258-266 | a stroke whose second point is a corner names vertex 0 or 1 in none of its triangles: the first segment is left unfilled |
| Ribbon.StepInvariant | Drawing/Assets/Scripts/LineMeshGenerator.cs:189-232 | drawing one point keeps `curVertexIndex == vertices-2` and valid indices and adds the shape's fan and bridge triangles |
| Ribbon.Run | Drawing/Assets/Scripts/LineMeshGenerator.cs:189-232 | the vertices after any prefix of points are the concatenation of the points' own vertices |
| Ribbon.RunExtend | Drawing/Assets/Scripts/LineMeshGenerator.cs:189-232 | one more pass of the loop extends the run by that point's shape; after the last point the end cap completes the mesh |
| Ribbon.RunInvariant | Drawing/Assets/Scripts/LineMeshGenerator.cs:189-232 | the loop invariant: any sequence of points keeps the threading and the validity of all indices |
| Ribbon.FlattenLength | Drawing/Assets/Scripts/LineMeshGenerator.cs:189-232 | the vertex list is as long as the sum of the points' vertex counts |
| Ribbon.FlattenMember | Drawing/Assets/Scripts/LineMeshGenerator.cs:189-232 | every vertex of the stroke was emitted by some point |
| Ribbon.VertexTotalAtLeastTwice | Drawing/Assets/Scripts/LineMeshGenerator.cs:189-232 | every point emits at least two vertices |
| Ribbon.RunTriangles | Drawing/Assets/Scripts/LineMeshGenerator.cs:189-232 | the triangle count of a run is the reference count (bridges counted only once two points precede them) |
| Ribbon.RibbonMesh | Drawing/Assets/Scripts/LineMeshGenerator.cs:189-232 | a whole stroke: indices in range, vertices = the points' vertices, the reference counts, and `curVertexIndex` = vertex count after the end cap |
| Ribbon.StraightTotals | Drawing/Assets/Scripts/LineMeshGenerator.cs:323-342 | n joints give 2n vertices and 2(n-2) bridging triangles before the end cap |
| Ribbon.StraightRibbon | Drawing/Assets/Scripts/LineMeshGenerator.cs:189-232 | a stroke of n >= 2 points with no corner has 2n vertices and 2(n-1) triangles |
| Ribbon.RunLayout | Drawing/Assets/CustomLineRenderer.cs:53-127 | two runs over shapes of the same kinds (same rim lengths and signs) produce the same triangles, vertex counts and index, whatever the vertex type |
| Ribbon.MeshLayout | Drawing/Assets/CustomLineRenderer.cs:53-127 | the renderer's mesh has the layout of the generator's for the same shapes |
| LineMeshGenerator.StopIndex | Drawing/Assets/Scripts/LineMeshGenerator.cs:150-177 | walking back from i, the backtrace stops at the largest index whose deceleration test fires, or at 1; no index above it fires |
| LineMeshGenerator.TailStart | Drawing/Assets/Scripts/LineMeshGenerator.cs:128-186 | the tail start is n (no tail) or in [1, n-3]; a tail exists exactly when n > 3, the end segment is fast and the point before the last does not decelerate; it is then the stop index |
| LineMeshGenerator.AnalyzeTail | Drawing/Assets/Scripts/LineMeshGenerator.cs:128-186 | the backward loop computes the tail start and the tail's duration as defined |
| LineMeshGenerator.Clamp | Drawing/Assets/Scripts/LineMeshGenerator.cs:199 | the clamped value lies in [min, max], is the value when it already does, and is min below it |
| LineMeshGenerator.ClampMonotone | Drawing/Assets/Scripts/LineMeshGenerator.cs:199 | clamping is monotone |
| LineMeshGenerator.StrokeWidth | Drawing/Assets/Scripts/LineMeshGenerator.cs:195-201 | the half-width of every point lies in [0.001, originalWidth] |
| LineMeshGenerator.WidthAtPoint | Drawing/Assets/Scripts/LineMeshGenerator.cs:195-201 | before the tail the half-width is originalWidth; from the tail on it is Clamp(ow·(1 - (t_i - t_ts) / tailLastTime), 0.001, ow), with a positive tail duration |
| LineMeshGenerator.TailTaper | Drawing/Assets/Scripts/LineMeshGenerator.cs:195-201 | the tail starts at the full width and ends at the minimum width 0.001 |
| LineMeshGenerator.TailNonIncreasing | Drawing/Assets/Scripts/LineMeshGenerator.cs:195-201 | over the tail the half-width never grows |
| LineMeshGenerator.StrokeStep | Drawing/Assets/Scripts/LineMeshGenerator.cs:189-232 | drawing point i at its width extends the mesh built so far; the last point and the end cap complete the stroke's mesh |
| LineMeshGenerator.CornerPlacement | Drawing/Assets/Scripts/LineMeshGenerator.cs:210-221 | a rounded corner is drawn exactly at inner points whose turn is a corner, with 1 + max(0, incTimes-2) rim vertices |
| LineMeshGenerator.StrokeMeshValid | Drawing/Assets/Scripts/LineMeshGenerator.cs:189-232 | the stroke's mesh has every index in range, the reference counts, and its index at the vertex count |
| LineMeshGenerator.StraightStroke | Drawing/Assets/Scripts/LineMeshGenerator.cs:189-232 | with no corner, n points give 2n vertices and 2(n-1) triangles |
| LineMeshGenerator.PointShapeVertices | Drawing/Assets/Scripts/LineMeshGenerator.cs:244-342 | every vertex a point emits belongs to that point and sits at its half-width; only corners emit a hub |
| LineMeshGenerator.StrokeVertices | Drawing/Assets/Scripts/LineMeshGenerator.cs:189-232 | every vertex of the mesh belongs to a stroke point, offset vertices sit at that point's half-width, and hubs only at inner corner points |
| LineMeshGenerator.RepeatConcat | Drawing/Assets/Scripts/LineMeshGenerator.cs:354-358 | colour lists of one colour concatenate |
| LineMeshGenerator.LineMeshGenerator.constructor | Drawing/Assets/Scripts/LineMeshGenerator.cs:25-30 | an empty stroke, the given width and colour, an untapered width of 0, no colours and an empty mesh |
| LineMeshGenerator.LineMeshGenerator.OnEnable | Drawing/Assets/Scripts/LineMeshGenerator.cs:109-112 | remembers the configured width as the original width |
| LineMeshGenerator.LineMeshGenerator.RefreshPoints | Drawing/Assets/Scripts/LineMeshGenerator.cs:103-107 | replaces the points and redraws |
| LineMeshGenerator.LineMeshGenerator.DrawLine | Drawing/Assets/Scripts/LineMeshGenerator.cs:114-243 | with two or more points the mesh is the stroke's reference mesh, one colour per vertex, and the width left at the last point's; with fewer the width is reset, the colour list emptied and the old mesh kept |
| LineMeshGenerator.LineMeshGenerator.DrawPoints | Drawing/Assets/Scripts/LineMeshGenerator.cs:189-232 | the loop over the points builds the reference mesh and one colour per vertex |
| LineMeshGenerator.LineMeshGenerator.DrawPass | Drawing/Assets/Scripts/LineMeshGenerator.cs:191-231 | one pass of the loop extends the mesh by point i at its width |
| LineMeshGenerator.LineMeshGenerator.TaperWidth | Drawing/Assets/Scripts/LineMeshGenerator.cs:195-201 | the width update leaves the field at point i's half-width |
| LineMeshGenerator.LineMeshGenerator.DrawPoint | Drawing/Assets/Scripts/LineMeshGenerator.cs:203-231 | the per-point dispatch draws that point's shape, then the end cap after the last point |
| LineMeshGenerator.LineMeshGenerator.DrawVerticesForCornerOptimized | Drawing/Assets/Scripts/LineMeshGenerator.cs:244-321 | appends the corner's shape to the mesh and one colour per added vertex |
| LineMeshGenerator.LineMeshGenerator.DrawCornerEntry | Drawing/Assets/Scripts/LineMeshGenerator.cs:250-266 | the entry pair and, when bridged, the two quads |
| LineMeshGenerator.LineMeshGenerator.DrawCornerHub | Drawing/Assets/Scripts/LineMeshGenerator.cs:269-288 | the hub at `centerIndex` = index + 2, the first rim vertex, and their two triangles |
| LineMeshGenerator.LineMeshGenerator.DrawCornerRim | Drawing/Assets/Scripts/LineMeshGenerator.cs:290-306 | the remaining rim vertices, each with its fan triangle from the hub |
| LineMeshGenerator.LineMeshGenerator.DrawVerticesForPoint | Drawing/Assets/Scripts/LineMeshGenerator.cs:323-342 | appends a joint: two vertices, two colours, and the bridging quad when due |
| LineMeshGenerator.LineMeshGenerator.FillEndTriangles | Drawing/Assets/Scripts/LineMeshGenerator.cs:344-352 | the end cap |
| LineMeshGenerator.LineMeshGenerator.AddVert | Drawing/Assets/Scripts/LineMeshGenerator.cs:354-358 | appends the vertex and the component's colour |
| LineMeshGenerator.LineMeshGenerator.AddTriangle | Drawing/Assets/Scripts/LineMeshGenerator.cs:360-366 | appends the three indices and advances the triangle index by 3 |
| CustomLineRenderer.PaintedShapesKind | Drawing/Assets/CustomLineRenderer.cs:53-127 | giving vertices a colour keeps every shape's kind and well-shapedness |
| CustomLineRenderer.FlattenPainted | Drawing/Assets/CustomLineRenderer.cs:53-127 | the coloured stroke's vertices are the plain vertices, each in the colour |
| CustomLineRenderer.StrokeShapes | Drawing/Assets/CustomLineRenderer.cs:61-113 | one shape per point at the constant width, the first a joint |
| CustomLineRenderer.StrokeMeshPainted | Drawing/Assets/CustomLineRenderer.cs:53-127 | the renderer's mesh has indices in range, the triangles of the plain ribbon, and vertex k equal to plain vertex k in the component's colour |
| CustomLineRenderer.StrokeCorners | Drawing/Assets/CustomLineRenderer.cs:78-94 | rounded corners only at inner corner points, with 1 + max(0, incTimes-2) rim vertices and the turn's sign |
| CustomLineRenderer.StraightStroke | Drawing/Assets/CustomLineRenderer.cs:53-127 | at constant width with no corner, n points give 2n vertices and 2(n-1) triangles |
| CustomLineRenderer.PlainCornerShapes | Drawing/Assets/CustomLineRenderer.cs:133-158 | the plain corner is incTimes+1 joints, the i-th along the normal rotated by i increments |
| CustomLineRenderer.BridgedJoints | Drawing/Assets/CustomLineRenderer.cs:150-156 | the joint-by-joint count of bridging joints equals m once four vertices precede the run, and otherwise m less the (5 - v) / 2 leading joints that find `curVertecIndex` at most 1 |
| CustomLineRenderer.StraightRunFrom | Drawing/Assets/CustomLineRenderer.cs:135-158 | from any threaded builder, each joint adds two vertices, each bridging joint two triangles, and the threading is kept |
| CustomLineRenderer.PlainCornerCounts | Drawing/Assets/CustomLineRenderer.cs:129-160 | from any threaded builder the plain corner adds 2k vertices for its k = max(0, incTimes+1) joints and two triangles per bridging joint; once two pairs precede it, 2k triangles |
| CustomLineRenderer.CustomLineRenderer.constructor | Drawing/Assets/CustomLineRenderer.cs:9-14 | the serialized defaults: width 0.2, black, 64 subdivisions, threshold 45 |
| CustomLineRenderer.CustomLineRenderer.OnPopulateMesh | Drawing/Assets/CustomLineRenderer.cs:53-127 | clears the helper; with fewer than two points leaves it empty, otherwise fills it with the renderer's reference mesh |
| CustomLineRenderer.CustomLineRenderer.DrawPoint | Drawing/Assets/CustomLineRenderer.cs:63-113 | the per-point dispatch draws the point's coloured shape, then the end cap after the last point |
| CustomLineRenderer.CustomLineRenderer.DrawVerticesForCorner | Drawing/Assets/CustomLineRenderer.cs:129-160 | the loop appends the plain corner's joints |
| CustomLineRenderer.CustomLineRenderer.DrawVerticesForCornerOptimized | Drawing/Assets/CustomLineRenderer.cs:162-240 | appends the rounded corner's coloured shape |
| CustomLineRenderer.CustomLineRenderer.DrawCornerEntry | Drawing/Assets/CustomLineRenderer.cs:168-185 | the entry pair and, when bridged, the two quads |
| CustomLineRenderer.CustomLineRenderer.DrawCornerHub | Drawing/Assets/CustomLineRenderer.cs:187-207 | the hub at `centerIndex` = index + 2, the first rim vertex and their two triangles |
| CustomLineRenderer.CustomLineRenderer.DrawCornerRim | Drawing/Assets/CustomLineRenderer.cs:209-225 | the remaining rim vertices with their fan triangles |
| CustomLineRenderer.CustomLineRenderer.DrawVerticesForPoint | Drawing/Assets/CustomLineRenderer.cs:242-262 | appends a coloured joint |
| CustomLineRenderer.CustomLineRenderer.FillEndTriangles | Drawing/Assets/CustomLineRenderer.cs:264-272 | the end cap |
| GridManager.Step | Drawing/Assets/Scripts/GridManager.cs:44-52 | each direction steps to one of the eight neighbours (never to the cell itself) |
| GridManager.SkipIsOpposite | Drawing/Assets/Scripts/GridManager.cs:251-255 | the skip test `d == i-4 or d == i+4` holds exactly for the opposite direction (d+4) mod 8 |
| GridManager.OppositeStepsBack | Drawing/Assets/Scripts/GridManager.cs:44-52 | the opposite direction steps straight back |
| GridManager.StepsDistinct | Drawing/Assets/Scripts/GridManager.cs:44-52 | the eight steps are distinct |
| GridManager.GridManager.constructor | Drawing/Assets/Scripts/GridManager.cs:34-43 | the resolution is fixed and no grid exists before Start |
| GridManager.GridManager.OpenCountRange | Drawing/Assets/Scripts/GridManager.cs:311-326 | the count of free neighbours is at most 8, and positive exactly when some in-bounds neighbour is free |
| GridManager.GridManager.Start | Drawing/Assets/Scripts/GridManager.cs:121-134 | a fresh H×V grid whose cells are blocked exactly on the border |
| GridManager.GridManager.RefreshGrid | Drawing/Assets/Scripts/GridManager.cs:172-196 | every interior cell becomes the probe's answer for it; border cells are unchanged |
| GridManager.GridManager.GetUnblockedCellsCountAround | Drawing/Assets/Scripts/GridManager.cs:311-326 | the number of in-bounds free neighbours, in [0, 8], positive exactly when a free neighbour exists |
| GridManager.GridManager.ScanNeighbours | Drawing/Assets/Scripts/GridManager.cs:249-280 | scanning in direction order, the first non-reversing direction that reaches the start closes the hull, and the first one onto an untraced blocked cell next to a free one is taken; otherwise nothing is found |
| GridManager.GridManager.HullSearcher | Drawing/Assets/Scripts/GridManager.cs:198-309 | the seed is valid exactly when a grid exists and the cell is in bounds and free, and otherwise the result is `[]`. The first point is the start cell, entered Left: the first blocked cell down the seed's column, or the seed itself when the column below is free, with every cell in between free. No position is traced twice. Every later point is a blocked cell next to a free one, entered from an earlier point by a non-reversing step. At most H·V rounds run |
| GridManager.GridManager.AppendTraced | Drawing/Assets/Scripts/GridManager.cs:264-273 | pushing a found cell keeps the list traced and adds its position to the visited set |
| GridManager.PositionsSnoc | Drawing/Assets/Scripts/GridManager.cs:264-270 | the visited set stays the set of the listed positions |

The contracts above are stated in terms of these specification functions, which have no row of
their own: `LineMeshGenerator.StrokeShapes`, `LineMeshGenerator.StrokeRun`,
`LineMeshGenerator.StrokeMesh` and `LineMeshGenerator.Repeat` (the generator's stroke, point by point);
`CustomLineRenderer.StrokeMesh`, `CustomLineRenderer.Painted`, `CustomLineRenderer.PaintedShape`
and `CustomLineRenderer.PaintedShapes` (the renderer's stroke and its colouring). The
`CustomLineRenderer.VertexHelper` methods (`Clear`, `CurrentVertCount`, `AddVert`, `AddTriangle`)
stand in for Unity's class (see "## Left out").

## Left out

- Floating-point geometry is not modelled: normals, `Vector3.Angle`, the cross-product sign, `Quaternion.AngleAxis`, velocities, accelerations and dot products. Its decisions are inputs (`Turn`, `StrokeAnalysis`). `incTimes` is taken as given, not computed from `cornerSubdivisions` and the angle. The corner threshold (`cornerAngleThreshold`) is folded into `Turn.isCorner`.
- Timestamps are assumed strictly increasing (`ValidStroke`). The tail formula divides by a time span. With equal timestamps the source computes infinities or NaN, and the model does not.
- Width arithmetic is over the reals, not 32-bit floats.
- Unity plumbing is not modelled: `Profiler`, `Debug.Log`, gizmos, `OnDrawGizmos`, `Update`, key handling, `meshRenderer` and the `MeshFilter` assignment. The uploaded `Mesh` is the field `mesh`.
- The debug collections `debugVertices`, `accList` and `velList` are not modelled; they only record values for gizmos.
- `CustomLineRenderer`'s `VertexHelper` is Unity's class. Here it is two lists, `vertices` and `indices`, with `Clear`, `AddVert`, `AddTriangle` and `currentVertCount`.
- In GridManager, the canvas bounds, the mouse-to-cell conversion (`FloorToInt`) and the raycast are not modelled. `HullSearcher` takes the seed cell directly. `RefreshGrid` takes the probe as a function from cell to "hit".
- GridManager.GridManager.HullSearcher: the postcondition says each later point is entered from an earlier point. It does not say that point is the one on top of the stack at that round (`ScanNeighbours` states that for one round). The walk's order over the stack is not in the postcondition.
- GridManager.GridManager.RefreshGrid requires that `Start` has run (`gridBlock != null`). The source would throw on a missing grid.
- GridManager.GridManager.constructor requires positive resolutions (2560 × 1440 by default). With a zero resolution the source's border loops go out of range.
- Vertex colours in `CustomLineRenderer` are kept as the real-valued `Color`. Unity's `UIVertex.color` is a `Color32`, so assigning `color` clamps and rounds each channel to a byte; that conversion is not modelled.
- `HullPoint` is a class in the source but is never mutated after construction, so it is a value here.
