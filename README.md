# Metawater in Dafny

A model of the core of Metawater, a Unity demo that rains metaballs onto a
heightmap terrain and draws the water surface with marching cubes. The
model covers the parts of the scripts that are logic rather than engine glue:

- **Terrain** (`Terrain`, `Grid3D`): the heightmap's red channel goes into a
  one-point-high uniform grid. The grid becomes a mesh with vertex (i, k) at
  k * nx + i and two clockwise triangles per grid cell, written through a
  running offset.
- **Uniform grids** (`Grid3D`, `Grid2D`): constructor validation with the
  exact exception messages. The flat 3-D index i + nx * j + nx * ny * k, and
  the 2-D grids (float and Vector2, one generic class here) with their
  indexers and grid-point coordinates.
- **Collision queries** (`AabbTree`, `IntersectionTests`): the AABB tree
  node, the left-first descent that finds the leaf containing a point, and
  the ray/triangle test with its parallel, range and edge checks.
- **Hand-written physics** (`Physics`): each frame every ball gets gravity,
  an explicit Euler step, and a scan over every terrain triangle. Each hit
  bounces the ball with a damped speed, and the scan does not stop after a
  hit.
- **Spawn lifecycle** (`NativePhysics`): dormant balls are activated one per
  interval, and balls that fall below the terrain respawn. The activated
  balls always form a prefix of the array, counted by `numInstantiatedBalls`.
- **Marching-cubes bookkeeping** (`Renderer`):
  - the corner layout of a cell;
  - the 32-bit cube index;
  - the vertex dictionary that hands out dense indices;
  - the triangle list with its swapped winding;
  - the vertex array ordered by index;
  - the bounding box around the balls.
- **Interpolation helpers** (`HelperFunctions`).

Vectors and scalars are exact reals. The vector length is a caller-supplied
function constrained by `Geometry.IsMagnitude`, and `Normalize` is built on
it with Unity's 1e-5 cut-off. Random draws, the frame time, the
marching-cubes tables and the edge interpolation are parameters.

Module layout:

- `geometry.dfy` holds the shared engine value types.
- `particles.dfy` holds the ball record.
- `wrappers.dfy` holds Option and Result.
- Every other file models one source file.

## Model

| member | source | states |
|---|---|---|
| HelperFunctions.InterpolateLinear | Metawater/Assets/Scripts/HelperFunctions.cs:3-5 | f0 at t = 0 and f1 at t = 1; f0 when both ends are equal; between f0 and f1 for t in [0, 1] |
| HelperFunctions.InterpolateBilinear | Metawater/Assets/Scripts/HelperFunctions.cs:7-11 | the same t for both stages gives f00 at t = 0 and f11 at t = 1, and for t in [0, 1] a value within the four corner values |
| HelperFunctions.InterpolateTrilinear | Metawater/Assets/Scripts/HelperFunctions.cs:13-18 | f000 at t = 0 and f111 at t = 1, and for t in [0, 1] a value within the eight corner values |
| HelperFunctions.InterpolationOfConstant | Metawater/Assets/Scripts/HelperFunctions.cs:3-18 | with every corner equal to f, all three variants return f for every t |
| AabbTree.NewNode | Metawater_Legacy/Assets/Scripts/AABBTreeNode.cs:10-12 | a new node keeps the given bounds, has no children (so it is a leaf) and no triangle array |
| AabbTree.SetLeftChild | Metawater_Legacy/Assets/Scripts/AABBTreeNode.cs:5-6 | the left-child setter changes only the left child; bounds, right child and triangles are unchanged |
| AabbTree.SetRightChild | Metawater_Legacy/Assets/Scripts/AABBTreeNode.cs:5-7 | the right-child setter changes only the right child; bounds, left child and triangles are unchanged |
| AabbTree.SetTriangles | Metawater_Legacy/Assets/Scripts/AABBTreeNode.cs:5-8 | the triangles setter changes only the triangle array; bounds and children are unchanged |
| AabbTree.AttachChildren | Metawater_Legacy/Assets/Scripts/AABBTreeNode.cs:5-12 | giving a new node two well-formed children gives a well-formed internal node that keeps its bounds |
| AabbTree.OneChildIsMalformed | Metawater_Legacy/Assets/Scripts/AABBTreeNode.cs:6-7 | a node given only one child has the shape the tree query cannot walk |
| IntersectionTests.GetTriangles | Metawater/Assets/Scripts/IntersectionTests.cs:11-29 | false with no array when the point is outside the node's bounds; true with the leaf's own array at a containing leaf; never an array on false |
| IntersectionTests.ContainingLeafPaths | Metawater/Assets/Scripts/IntersectionTests.cs:14-23 | every listed path leads to a leaf through nodes whose bounds all contain the point |
| IntersectionTests.GetTrianglesFindsFirstContainingLeaf | Metawater/Assets/Scripts/IntersectionTests.cs:11-29 | true exactly when some root-to-leaf path contains the point throughout, and then the array of the first such leaf, searching left before right |
| IntersectionTests.ContainingLeafPathsComplete | Metawater/Assets/Scripts/IntersectionTests.cs:14-23 | every root-to-leaf path that contains the point throughout is among the listed ones |
| IntersectionTests.GetTrianglesMissMeansNoLeaf | Metawater/Assets/Scripts/IntersectionTests.cs:22-28 | when the query returns false, no leaf's root path contains the point |
| IntersectionTests.RayTriangleTest | Metawater/Assets/Scripts/IntersectionTests.cs:36-69 | no hit when abs(dot(dir, n)) < 0.001 or the plane parameter t lies outside [0, maxDistance]; otherwise a hit exactly when origin + t * dir passes all three edge tests (edges included), and the hit is that point on the triangle's plane |
| IntersectionTests.EdgeValuesSum | Metawater/Assets/Scripts/IntersectionTests.cs:58-60 | the three edge values add up to the squared length of the normal for every point |
| IntersectionTests.HitHasBarycentricWeights | Metawater/Assets/Scripts/IntersectionTests.cs:58-66 | at a hit the normal is non-zero and each edge value lies between 0 and the normal's squared length |
| IntersectionTests.HitWithinReach | Metawater/Assets/Scripts/IntersectionTests.cs:48-54 | for a unit direction, a hit is no further than maxDistance from the ray origin |
| Physics.StartPosition | Metawater/Assets/Scripts/PhysicsController.cs:38-40 | on each axis the start point lies between terrain min + meanRadius and terrain max - meanRadius, in whichever order they come |
| Physics.StartBall | Metawater/Assets/Scripts/PhysicsController.cs:36-48 | a new ball is at its start point, at rest, with lastPosition equal to its position and radius meanRadius |
| Physics.Gravity | Metawater/Assets/Scripts/PhysicsController.cs:65 | only the vertical velocity changes, by -g * dt |
| Physics.Integrate | Metawater/Assets/Scripts/PhysicsController.cs:68-69 | lastPosition becomes the old position, and the ball moves by velocity * dt |
| Physics.Bounce | Metawater/Assets/Scripts/PhysicsController.cs:86-93 | after a hit the step restarts at the hit point and moves by the new velocity * dt; radius and flag kept |
| Physics.CollideMiss | Metawater/Assets/Scripts/PhysicsController.cs:79-84 | a step that misses the triangle leaves the ball exactly as it was |
| Physics.CollideOnPlane | Metawater/Assets/Scripts/PhysicsController.cs:84-93 | after a hit, lastPosition is the hit point and lies on the triangle's plane |
| Physics.CollideKeepsRecord | Metawater/Assets/Scripts/PhysicsController.cs:84-94 | a collision never changes the radius or the instantiated flag |
| Physics.BounceDamping | Metawater/Assets/Scripts/PhysicsController.cs:88-91 | after a hit the new speed is exactly (1 - groundDamping) times the old speed |
| Physics.HitIsAlongUnits | Metawater/Assets/Scripts/PhysicsController.cs:79-89 | at a hit both the step direction and the normalised triangle normal are unit vectors |
| Physics.ReflectIsUnit | Metawater/Assets/Scripts/PhysicsController.cs:90 | reflecting a unit direction in a unit normal gives a unit vector |
| Physics.CollideNeverSpeedsUp | Metawater/Assets/Scripts/PhysicsController.cs:84-94 | one triangle test never increases the ball's speed |
| Physics.ScanNeverSpeedsUp | Metawater/Assets/Scripts/PhysicsController.cs:73-95 | the whole triangle scan, bounce after bounce, never increases the ball's speed |
| Physics.ScanKeepsRecord | Metawater/Assets/Scripts/PhysicsController.cs:73-95 | the scan never changes a ball's radius or flag |
| Physics.NoHitNoChange | Metawater/Assets/Scripts/PhysicsController.cs:73-95 | when no triangle is hit, the scan leaves the ball as the Euler step left it |
| Physics.FreeFall | Metawater/Assets/Scripts/PhysicsController.cs:63-96 | a ball that hits nothing ends the frame with only its vertical velocity changed by -g * dt, moved by the new velocity * dt from its old position |
| Physics.TriangleOffsets | Metawater/Assets/Scripts/PhysicsController.cs:73-77 | with a whole number of triangles, offset 3k is inside the buffer exactly while k is below the triangle count, and then so is 3k + 2 |
| Physics.CollideStep | Metawater/Assets/Scripts/PhysicsController.cs:78-94 | one pass of the triangle loop (ray from lastPosition, length, normalise, test, bounce) is the specified collision |
| Physics.ScanTriangles | Metawater/Assets/Scripts/PhysicsController.cs:73-95 | the loop over offsets 0, 3, 6, ... computes the full scan over every triangle, with no early exit |
| Physics.UpdateBall | Metawater/Assets/Scripts/PhysicsController.cs:63-96 | one ball's frame is gravity, then the Euler step, then the full scan |
| Physics.PhysicsController.constructor | Metawater/Assets/Scripts/PhysicsController.cs:7-16 | the serialized settings, with damping in [0, 1] and 2 to 10 balls |
| Physics.PhysicsController.Start | Metawater/Assets/Scripts/PhysicsController.cs:27-56 | numBalls fresh balls, ball i placed by its own draws as StartBall says, and the terrain mesh and bounds recorded |
| Physics.PhysicsController.Update | Metawater/Assets/Scripts/PhysicsController.cs:60-97 | every ball takes its own frame from its old state and the terrain, so balls do not interact |
| NativePhysics.GetRandomSpawnPoint | Metawater/Assets/Scripts/NativeCollisionPhysicsController.cs:103-109 | on each axis the point lies in [min, max] of the spawn volume, so the volume contains it |
| NativePhysics.SpawnVelocity | Metawater/Assets/Scripts/NativeCollisionPhysicsController.cs:62 | lerp(0, maxVelocity, r) is r times maxVelocity, never longer than maxVelocity |
| NativePhysics.Process | Metawater/Assets/Scripts/NativeCollisionPhysicsController.cs:76-97 | a processed ball is active; below the terrain it respawns with a fresh point and velocity, otherwise it is unchanged; lastPosition is never touched |
| NativePhysics.ExpectedCount | Metawater/Assets/Scripts/NativeCollisionPhysicsController.cs:76-91 | within the interval no ball activates; past it, a non-negative interval activates one dormant ball if any is left and a negative one activates all; the count never decreases or exceeds numBalls |
| NativePhysics.VisitAll | Metawater/Assets/Scripts/NativeCollisionPhysicsController.cs:74-99 | the loop over the first k balls keeps the number of balls |
| NativePhysics.VisitAllClosedForm | Metawater/Assets/Scripts/NativeCollisionPhysicsController.cs:74-99 | after k balls the count is as specified, the frame counter is 0 exactly when something activated, the active balls still form a prefix, and only visited balls below the new count changed |
| NativePhysics.NativeCollisionPhysicsController.constructor | Metawater/Assets/Scripts/NativeCollisionPhysicsController.cs:13-38 | the serialized settings with 1 to 100 balls, and both counters at 0 |
| NativePhysics.NativeCollisionPhysicsController.Start | Metawater/Assets/Scripts/NativeCollisionPhysicsController.cs:41-70 | numBalls dormant balls, each at a spawn point with lastPosition equal to it, a spawn velocity and radius meanRadius; terrain bounds and kill heights recorded |
| NativePhysics.NativeCollisionPhysicsController.Update | Metawater/Assets/Scripts/NativeCollisionPhysicsController.cs:72-101 | the activation count moves as ExpectedCount says; the frame counter restarts after an activation and then goes up by one; balls below the new count are processed and the rest are unchanged; active balls stay a prefix |
| Grid3D.ConstructorError | Metawater/Assets/Scripts/UniformGrid.cs:17-23 | the constructor throws exactly when a max coordinate is below the min or a point count is negative (zero allowed), with the corner message first |
| Grid3D.GridBounds | Metawater/Assets/Scripts/UniformGrid.cs:33-34 | the bounds span exactly from minPoint to maxPoint |
| Grid3D.FlatIndexInRange | Metawater/Assets/Scripts/UniformGrid.cs:31-39 | every in-range (i, j, k) has its flat index inside the nx * ny * nz storage |
| Grid3D.FlatIndexInjective | Metawater/Assets/Scripts/UniformGrid.cs:37-45 | two in-range points with the same flat index are the same point |
| Grid3D.OtherPointOtherIndex | Metawater/Assets/Scripts/UniformGrid.cs:37-45 | a different in-range point has a different, in-range flat index |
| Grid3D.StoreKeepsOtherPoints | Metawater/Assets/Scripts/UniformGrid.cs:43 | storing at one point leaves every other in-range point's value unchanged |
| Grid3D.RowOverrunAliases | Metawater/Assets/Scripts/UniformGrid.cs:37-45 | without per-axis checks, point (nx, j, k) reaches the same cell as (0, j + 1, k) |
| Grid3D.UniformGrid.constructor | Metawater/Assets/Scripts/UniformGrid.cs:25-34 | the arguments recorded, nx * ny * nz values all 0, and the bounds from min to max |
| Grid3D.UniformGrid.Create | Metawater/Assets/Scripts/UniformGrid.cs:16-35 | fails with the thrown message exactly when ConstructorError reports one, and otherwise gives a valid grid with the arguments, bounds spanning minPoint to maxPoint and every cell 0 |
| Grid3D.UniformGrid.Set | Metawater/Assets/Scripts/UniformGrid.cs:42-44 | throws IndexOutOfRangeException, storing nothing, exactly when the flat index is outside the storage; otherwise the point reads back the value and only its flat slot changes, so in a valid grid every other in-range point keeps its value |
| Grid2D.ConstructorError | Metawater/Assets/Scripts/UniformGrid2D.cs:21-27 | the constructors throw exactly when a max coordinate is below the min or a point count is below 2, with the corner message first |
| Grid2D.Spacing | Metawater/Assets/Scripts/UniformGrid2D.cs:34-35 | (n - 1) spacings span exactly max - min, and the spacing is not negative when min <= max |
| Grid2D.UniformGrid2D.constructor | Metawater/Assets/Scripts/UniformGrid2D.cs:29-39 | the arguments recorded, the spacings computed, and an nx-by-ny array of default values |
| Grid2D.UniformGrid2D.Create | Metawater/Assets/Scripts/UniformGrid2D.cs:20-40 | fails with the thrown message exactly when ConstructorError reports one, and otherwise gives a valid grid with the arguments and every cell the default value |
| Grid2D.UniformGrid2D.Set | Metawater/Assets/Scripts/UniformGrid2D.cs:42-50 | throws IndexOutOfRangeException, storing nothing, exactly when either index is outside its axis; otherwise the cell reads back the value; every other cell is unchanged |
| Grid2D.UniformGrid2D.CornerCoordinates | Metawater/Assets/Scripts/UniformGrid2D.cs:52-54 | grid point (0, 0) is minPoint and (nx - 1, ny - 1) is maxPoint |
| Grid2D.UniformGrid2D.CoordinatesMonotone | Metawater/Assets/Scripts/UniformGrid2D.cs:52-54 | grid-point coordinates never decrease as i or j grows |
| Terrain.PixelHeight | Metawater/Assets/Scripts/TerrainConstructor.cs:54 | red / 255 lies in [0, 1]; it is 0 exactly for red 0 and 1 exactly for red 255 |
| Terrain.HeightField | Metawater/Assets/Scripts/TerrainConstructor.cs:50-57 | the grid storage holds each pixel's height at the pixel's own position |
| Terrain.TerrainCorners | Metawater/Assets/Scripts/TerrainConstructor.cs:46-48 | the grid constructor accepts the corners exactly when areaScale is not negative or the heightmap is a single pixel; the corners are level with the position and centred on it |
| Terrain.PixelIndex | Metawater/Assets/Scripts/TerrainConstructor.cs:50-71 | pixel (i, k) is inside the pixel array, at the same position as grid point (i, 0, k) and vertex (i, k) |
| Terrain.VertexIndexInjective | Metawater/Assets/Scripts/TerrainConstructor.cs:71 | different grid points get different vertex slots |
| Terrain.VertexHeightWithinScale | Metawater/Assets/Scripts/TerrainConstructor.cs:71 | a vertex with grid value in [0, 1] lies between the origin's height and heightScale above it |
| Terrain.ConstructVertices | Metawater/Assets/Scripts/TerrainConstructor.cs:62-73 | nz * nx vertices, vertex (i, k) at k * nx + i, offset by i and k times areaScale and raised by its grid value times heightScale |
| Terrain.TriangleBufferLength | Metawater/Assets/Scripts/TerrainConstructor.cs:78-93 | the cells emit 6 * (nz - 1) * (nx - 1) indices, the size of the allocated array |
| Terrain.TriangleBufferWithin | Metawater/Assets/Scripts/TerrainConstructor.cs:80-92 | every emitted index names one of the nx * nz vertices |
| Terrain.GridDistinct | Metawater/Assets/Scripts/TerrainConstructor.cs:84-91 | every emitted triangle has three different vertices |
| Terrain.CellInBuffer | Metawater/Assets/Scripts/TerrainConstructor.cs:82-91 | cell (i, k) fills the six slots from 6 * (k * (nx - 1) + i) with (c, c + nx, c + 1) and (c + 1, c + nx, c + nx + 1), sharing the diagonal c + 1 to c + nx |
| Terrain.TerrainMeshIsValid | Metawater/Assets/Scripts/TerrainConstructor.cs:78-99 | the terrain mesh is one the physics scan can read (whole triangles, in-range indices) and has no degenerate triangle |
| Terrain.EmitCell | Metawater/Assets/Scripts/TerrainConstructor.cs:84-91 | the six writes through triangleOffset++ append the cell's two triangles and advance the offset by 6 |
| Terrain.ConstructTriangles | Metawater/Assets/Scripts/TerrainConstructor.cs:78-93 | the array of 6 * (nz - 1) * (nx - 1) indices is filled exactly with the buffer the cells emit, row by row |
| Terrain.TerrainConstructor.constructor | Metawater/Assets/Scripts/TerrainConstructor.cs:14-20 | the serialized scales, no grid yet and an empty mesh |
| Terrain.TerrainConstructor.ExtractHeightMapData | Metawater/Assets/Scripts/TerrainConstructor.cs:37-58 | a width-by-1-by-height grid centred on the position, holding pixel (i, k)'s height at (i, 0, k); when the grid constructor throws, the old grid stays and the mesh is untouched |
| Terrain.TerrainConstructor.UpdateMesh | Metawater/Assets/Scripts/TerrainConstructor.cs:60-101 | the mesh gets one vertex per grid point at k * nx + i and the two-triangles-per-cell buffer |
| Terrain.TerrainConstructor.Rebuild | Metawater/Assets/Scripts/TerrainConstructor.cs:22-35 | Awake and OnValidate: the grid rebuilt from the heightmap, then the mesh from the grid; a throwing constructor stops before the mesh |
| Renderer.CornersFormCube | Metawater/Assets/Scripts/MetaballRenderer.cs:255-275 | the eight corner offsets are the eight unit-cube corners, each once, and each of the twelve edges joins corners one step apart |
| Renderer.ConstructGridCell | Metawater/Assets/Scripts/MetaballRenderer.cs:253-278 | eight corners, corner c's position and value both read from the grid point at the cell origin plus c's offset |
| Renderer.CubeIndexBits | Metawater/Assets/Scripts/MetaballRenderer.cs:180-183 | bit j of the cube index is set exactly when corner j's value is strictly above the threshold |
| Renderer.CubeIndexBelow | Metawater/Assets/Scripts/MetaballRenderer.cs:180-183 | n corner values give an index below 2^n, so eight give one of the 256 table rows |
| Renderer.SameBits | Metawater/Assets/Scripts/MetaballRenderer.cs:182 | two 32-bit indices with the same bits are equal |
| Renderer.CubeIndex | Metawater/Assets/Scripts/MetaballRenderer.cs:180-183 | the loop that ors in 1 << i for each value above the threshold computes the cube index |
| Renderer.CellIndex | Metawater/Assets/Scripts/MetaballRenderer.cs:180-188 | the table row a cell selects is below 256, with bit j set exactly when corner j is above the threshold |
| Renderer.EdgeMasksAreBits | Metawater/Assets/Scripts/MetaballRenderer.cs:188-221 | the twelve edge-table masks are 1 << e for edges 0 to 11 |
| Renderer.EdgeVertices | Metawater/Assets/Scripts/MetaballRenderer.cs:185-223 | the vertex list has twelve entries |
| Renderer.AddVertex | Metawater/Assets/Scripts/MetaballRenderer.cs:231-242 | after a lookup the vertex is in the dictionary under the returned index, and every old vertex keeps its index |
| Renderer.AddVertexDense | Metawater/Assets/Scripts/MetaballRenderer.cs:233-242 | a lookup adds at most the one vertex, under index Count, so the indices stay dense |
| Renderer.AddVerticesKeeps | Metawater/Assets/Scripts/MetaballRenderer.cs:230-243 | a run of lookups keeps every old vertex under its index |
| Renderer.AddVerticesDense | Metawater/Assets/Scripts/MetaballRenderer.cs:230-243 | a run of lookups keeps the indices dense and never shrinks the dictionary |
| Renderer.AddVerticesLookup | Metawater/Assets/Scripts/MetaballRenderer.cs:230-243 | after a run, each vertex of the run is in the dictionary under the index the run gave it |
| Renderer.EmitTriangles | Metawater/Assets/Scripts/MetaballRenderer.cs:227-249 | the old triangle list is a prefix of the new one, which grows by 3 per table triple |
| Renderer.EmitTrianglesKeeps | Metawater/Assets/Scripts/MetaballRenderer.cs:227-249 | emitting a row keeps every old vertex under its index |
| Renderer.EmitTrianglesValid | Metawater/Assets/Scripts/MetaballRenderer.cs:233-248 | emitting a row keeps the indices dense, and every triangle entry is below the vertex count |
| Renderer.EmitTrianglesWound | Metawater/Assets/Scripts/MetaballRenderer.cs:244-248 | what a row appends is each table triple's vertices as first, third, second, indexed by the final dictionary |
| Renderer.PolygonizeCellFacts | Metawater/Assets/Scripts/MetaballRenderer.cs:178-250 | polygonizing a cell keeps the dictionary dense, all triangle entries in range and the list whole triangles; it keeps old vertices and triangles and appends the cell's table row, wound clockwise |
| Renderer.EmitRowFacts | Metawater/Assets/Scripts/MetaballRenderer.cs:226-249 | emitting a whole row keeps the indices dense, the entries in range and the list whole triangles |
| Renderer.LookupTriangle | Metawater/Assets/Scripts/MetaballRenderer.cs:228-243 | the three in-place lookups of one triple compute the specified lookups and leave the triangle list alone |
| Renderer.EmitRow | Metawater/Assets/Scripts/MetaballRenderer.cs:226-249 | the loop up to the -1 marker updates the dictionary and list as EmitTriangles specifies |
| Renderer.Polygonize | Metawater/Assets/Scripts/MetaballRenderer.cs:178-250 | one cell computes its cube index, its edge vertices and its table row, updating the buffers as specified |
| Renderer.MarchXExtends | Metawater/Assets/Scripts/MetaballRenderer.cs:169-172 | marching over the grid keeps the dictionary dense, all triangle entries in range and whole triangles, and only adds to what was there |
| Renderer.MarchingCubes | Metawater/Assets/Scripts/MetaballRenderer.cs:167-176 | the three loops, each stopping one short of the grid size (so every +1 corner is in range), polygonize every cell in order into the buffers |
| Renderer.DenseIndicesAreRange | Metawater/Assets/Scripts/MetaballRenderer.cs:226-242 | the indices of a dense dictionary are exactly 0 .. Count - 1 |
| Renderer.SortedEntriesExist | Metawater/Assets/Scripts/MetaballRenderer.cs:79 | a dense dictionary's entries can be sorted by index |
| Renderer.SortedEntriesIndexed | Metawater/Assets/Scripts/MetaballRenderer.cs:79 | in the sorted entries of a dense dictionary, entry i has index i |
| Renderer.OrderVertices | Metawater/Assets/Scripts/MetaballRenderer.cs:79-83 | the ordered vertex array has one slot per vertex, and slot v holds the vertex whose index is v |
| Renderer.RenderMesh | Metawater/Assets/Scripts/MetaballRenderer.cs:73-89 | the mesh from a fresh dictionary and list is whole triangles, and every triangle entry names a slot of the ordered vertex array holding that vertex |
| Renderer.LowestBelow | Metawater/Assets/Scripts/MetaballRenderer.cs:125-131 | the running minimum is at or below every scanned position on every axis |
| Renderer.HighestAbove | Metawater/Assets/Scripts/MetaballRenderer.cs:125-136 | the running maximum is at or above every scanned position on every axis |
| Renderer.LowestAttained | Metawater/Assets/Scripts/MetaballRenderer.cs:125-131 | on every axis the running minimum is some scanned position's coordinate |
| Renderer.HighestAttained | Metawater/Assets/Scripts/MetaballRenderer.cs:125-136 | on every axis the running maximum is some scanned position's coordinate |
| Renderer.LowestBelowHighest | Metawater/Assets/Scripts/MetaballRenderer.cs:122-136 | with at least one scanned position, the minimum is at or below the maximum on every axis |
| Renderer.PaddedBoundsSpan | Metawater/Assets/Scripts/MetaballRenderer.cs:137-144 | a zero-size box at the midpoint grown to take in the padded min and max spans exactly from one to the other |
| Renderer.SkipFirstBoundsContains | Metawater/Assets/Scripts/MetaballRenderer.cs:122-144 | with padding at least zero, the box as written spans the padded extremes of balls 1 onwards and contains each of them |
| Renderer.BoundsContainAll | Metawater/Assets/Scripts/MetaballRenderer.cs:122-144 | the padded box over every scanned position contains each of them |
| Renderer.FirstBallLeftOut | Metawater/Assets/Scripts/MetaballRenderer.cs:125 | balls (5,5,5), (0,0,0), (1,1,1) with no padding give a box that leaves out the first ball |
| Renderer.AllBallsBounds | Metawater/Assets/Scripts/MetaballRenderer.cs:120-145 | the box over every ball, from the first on, contains every ball and spans their padded extremes |
| Renderer.ScanCandidate | Metawater/Assets/Scripts/MetaballRenderer.cs:126-135 | the six per-axis comparisons give the component-wise min and max with the candidate |
| Renderer.ScanExtremes | Metawater/Assets/Scripts/MetaballRenderer.cs:122-136 | the loop from index 1 yields the running minimum and maximum of balls 1 onwards |
| Renderer.MetaballRenderer.constructor | Metawater/Assets/Scripts/MetaballRenderer.cs:51-56 | Awake's placeholder box at the object's position, as large as its scale |
| Renderer.MetaballRenderer.UpdateBounds | Metawater/Assets/Scripts/MetaballRenderer.cs:120-145 | the box becomes the padded min/max box of balls 1 onwards, as written |

## Left out

- CameraController, SceneSwitcher, TerrainIntersector: input handling, scene loading and engine collision callbacks with no logic of their own.
- MetaballSystem: debug visualisation that instantiates GameObjects in float-stepped loops.
- River: its integrator and gradient grid live in files that are not part of this model, and it is float numerics.
- Metaball.Falloff and UpdateGridValues: the field value uses a float distance and is infinite at the centre. Grid values are inputs to marching cubes.
- ConstructGrid: the point counts come from a float-to-int truncation of the box size over the increment. The grid is an input (`array3<GridPoint>`) to MarchingCubes and RenderMesh.
- InterpolateVertex: float division. It is the `interpolate` parameter of EdgeVertices and Polygonize, so no property of the placed vertex is proved.
- MarchingCubesTables: the edge and triangle tables are not part of this model. They are inputs, and `ValidTables` states what indexing them requires: 256 rows, edges below 12 and a -1 at a multiple of three.
- UniformGrid2D.Interpolate and Visualize: Interpolate reads `grid[i + j, j]` and passes a Vector2 t to the float-t helper; Visualize only draws debug lines.
- UniformGrid2DFloat and UniformGrid2DVector2 are one generic class, UniformGrid2D<T>; C#'s `default(T)` cell value is its `blank` constructor argument.
- MetaballRenderer.Update timers, Mesh assignment, RecalculateNormals and RecalculateBounds: rendering glue. RenderMesh models the data that goes into the mesh.
- Unity engine calls: Random.Range draws, Time.deltaTime, the terrain mesh arrays and bounds, GetPixels32 and the heightmap size are parameters. GameObject creation, parenting, FindWithTag, Rigidbody and SphereCollider components, layers, IgnoreLayerCollision, debug sprites and Debug.Log are not modelled.
- The rigid-body simulation the engine runs on active native-collision balls between frames is not modelled. NativePhysics models only the frame script.
- Floats: all arithmetic is exact real arithmetic. Rounding, NaN, infinities and 32-bit overflow of the index products are not modelled. The cube index is the one exception: it is kept as the source's 32-bit int.
- Vector length: the square root is a caller-supplied function constrained by IsMagnitude, not computed.
- AABB tree construction: no script builds the tree, so trees are inputs satisfying `WellFormed` (both children or neither).
- Inter-particle forces: none exist in the source, and balls do not interact.
- Renderer.MetaballRenderer.UpdateBounds: requires at least two balls. The scan's infinite start is modelled by starting from ball 1, which replaces an infinite start on every axis. With fewer balls the source builds a box from infinities. The physics controller always creates 2 to 10 balls.
- Renderer.OrderVertices: requires a dense dictionary, which every dictionary Polygonize builds from empty is (EmitTrianglesValid). The LINQ OrderBy is modelled by SortedEntries, the order any stable sort by index gives.
- Renderer.CubeIndex: requires exactly eight corner values, which every cell ConstructGridCell builds has.
- Renderer.EdgeVertices: states only the list's length. Each entry's value is left to EdgeVertex, because the interpolation is a parameter.
- Grid3D.UniformGrid.Get, Grid2D.UniformGrid2D.Get: the getters require the index in range, since a function cannot throw. The C# getter throws IndexOutOfRangeException otherwise, which is not modelled. Every read in the model (the terrain's vertex loop) stays in range. The setters do model the throw.
- Physics.PhysicsController.Start: requires a mesh the scan can read (whole triangles, in-range indices), which TerrainMeshIsValid proves for the terrain's own mesh.

## Findings

| source | as written | input that shows it | evidently intended | confidence | as-written member | corrected member |
|---|---|---|---|---|---|---|
| Metawater/Assets/Scripts/MetaballRenderer.cs:125 | the bounds scan starts at `i = 1`, so ball 0 never enters the running min/max | balls at (5,5,5), (0,0,0), (1,1,1) with zero offset give the box (0,0,0)-(1,1,1), which leaves out ball 0 | scan from `i = 0`, so the grid's box contains every ball | not executed | Renderer.FirstBallLeftOut | Renderer.AllBallsBounds |
