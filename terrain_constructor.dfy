/**
 * The terrain builder: the heightmap's pixels become the values of a uniform
 * grid one point high, and the grid becomes a mesh with one vertex per grid
 * point and two triangles per grid cell.
 */
module Terrain {
  import opened Geometry
  import opened Grid3D
  import Physics

  newtype byte = x: int | 0 <= x < 256

  /** Color32: four 8-bit channels, of which only red is read. */
  datatype Color32 = Color32(r: byte, g: byte, b: byte, a: byte)

  /**
   * A heightmap texture: its size and the pixel array GetPixels32 returns,
   * row by row (column i of row k at k * width + i).
   */
  datatype Heightmap = Heightmap(width: int, height: int, pixels: seq<Color32>)

  /** A texture is at least one pixel each way and holds width * height pixels. */
  predicate ValidHeightmap(h: Heightmap) {
    1 <= h.width && 1 <= h.height && |h.pixels| == h.width * h.height
  }

  // ---------------------------------------------------------------------------
  // Pixels to grid values

  /** The height a pixel stands for: its red channel divided by 255. */
  function PixelHeight(c: Color32): (h: real)
    ensures 0.0 <= h <= 1.0
    ensures h == 0.0 <==> c.r == 0
    ensures h == 1.0 <==> c.r == 255
  {
    (c.r as int) as real / 255.0
  }

  /** The grid storage ExtractHeightMapData leaves behind: pixel n's height at flat position n. */
  function HeightField(pixels: seq<Color32>): (cells: seq<real>)
    ensures |cells| == |pixels|
    ensures forall n :: 0 <= n < |pixels| ==> cells[n] == PixelHeight(pixels[n])
  {
    seq(|pixels|, n requires 0 <= n < |pixels| => PixelHeight(pixels[n]))
  }

  /** Half the extent of n grid points spaced areaScale apart: (n - 1) * 0.5 * areaScale. */
  function HalfExtent(n: int, areaScale: real): real {
    (n - 1) as real * 0.5 * areaScale
  }

  /** The grid's minimum corner: the position moved back along forward by half the height and along right by half the width. */
  function TerrainMinPoint(position: Vec3, width: int, height: int, areaScale: real): Vec3 {
    Sub(Sub(position, Scale(HalfExtent(height, areaScale), Forward)), Scale(HalfExtent(width, areaScale), Right))
  }

  /** The grid's maximum corner: the mirror image of the minimum corner through the position. */
  function TerrainMaxPoint(position: Vec3, width: int, height: int, areaScale: real): Vec3 {
    Add(Add(position, Scale(HalfExtent(height, areaScale), Forward)), Scale(HalfExtent(width, areaScale), Right))
  }

  lemma ProductSign(n: real, s: real)
    requires 0.0 <= n
    ensures 0.0 <= s ==> 0.0 <= n * s
    ensures 0.0 < n && s < 0.0 ==> n * s < 0.0
  {
  }

  /**
   * The grid constructor accepts the corners exactly when areaScale is not
   * negative or the heightmap is a single pixel; the corners are centred on
   * the position and level with it.
   */
  lemma {:induction false} TerrainCorners(position: Vec3, width: int, height: int, areaScale: real)
    requires 1 <= width && 1 <= height
    ensures ConstructorError(TerrainMinPoint(position, width, height, areaScale),
                             TerrainMaxPoint(position, width, height, areaScale), width, 1, height).None?
        <==> (0.0 <= areaScale || (width == 1 && height == 1))
    ensures TerrainMinPoint(position, width, height, areaScale).y == position.y
    ensures TerrainMaxPoint(position, width, height, areaScale).y == position.y
    ensures Add(TerrainMinPoint(position, width, height, areaScale), TerrainMaxPoint(position, width, height, areaScale))
         == Scale(2.0, position)
  {
    var lo := TerrainMinPoint(position, width, height, areaScale);
    var hi := TerrainMaxPoint(position, width, height, areaScale);
    assert hi.x - lo.x == (width - 1) as real * areaScale;
    assert hi.z - lo.z == (height - 1) as real * areaScale;
    ProductSign((width - 1) as real, areaScale);
    ProductSign((height - 1) as real, areaScale);
  }

  /** The position of grid point (i, k) in the vertex array: row k, column i, rows nx long. */
  function VertexIndex(nx: int, i: int, k: int): int {
    k * nx + i
  }

  /**
   * Pixel (i, k) of a width-by-height heightmap is inside the pixel array, at
   * the same position as grid point (i, 0, k) of a width-by-1-by-height grid
   * and as vertex (i, k).
   */
  lemma PixelIndex(width: int, height: int, i: int, k: int)
    requires 0 <= i < width && 0 <= k < height
    ensures 0 <= VertexIndex(width, i, k) < width * height
    ensures FlatIndex(width, 1, i, 0, k) == VertexIndex(width, i, k)
  {
    ProductBelow(k, width, height);
  }

  /** Distinct grid points of a row-major layout have distinct vertex positions. */
  lemma VertexIndexInjective(nx: int, nz: int, i: int, k: int, i': int, k': int)
    requires 0 <= i < nx && 0 <= k < nz && 0 <= i' < nx && 0 <= k' < nz && (i, k) != (i', k')
    ensures VertexIndex(nx, i, k) != VertexIndex(nx, i', k')
  {
    if VertexIndex(nx, i, k) == VertexIndex(nx, i', k') {
      assert i + nx * k == i' + nx * k';
      QuotientUnique(nx, i, k, i', k');
    }
  }

  // ---------------------------------------------------------------------------
  // Grid to vertices

  /** Vertex (i, k): areaScale apart in x and z from the origin, raised by the grid value times heightScale. */
  function TerrainVertex(origin: Vec3, h: real, i: int, k: int, areaScale: real, heightScale: real): Vec3 {
    Vec3(origin.x + i as real * areaScale, origin.y + h * heightScale, origin.z + k as real * areaScale)
  }

  /** A vertex whose grid value lies in [0, 1] lies between the origin's height and heightScale above it. */
  lemma VertexHeightWithinScale(origin: Vec3, h: real, i: int, k: int, areaScale: real, heightScale: real)
    requires 0.0 <= h <= 1.0 && 0.0 <= heightScale
    ensures origin.y <= TerrainVertex(origin, h, i, k, areaScale, heightScale).y <= origin.y + heightScale
  {
    assert h * heightScale <= 1.0 * heightScale;
  }

  /** The vertices of grid points before (i, k) in row-major order hold their final values. */
  ghost predicate VerticesBefore(vertices: seq<Vec3>, origin: Vec3, cells: seq<real>, nx: int, nz: int,
                                 k: int, i: int, areaScale: real, heightScale: real)
  {
    forall k', i' :: 0 <= i' < nx && 0 <= k' < nz && (k' < k || (k' == k && i' < i)) ==>
      && 0 <= VertexIndex(nx, i', k') < |vertices| && VertexIndex(nx, i', k') < |cells|
      && vertices[VertexIndex(nx, i', k')]
         == TerrainVertex(origin, cells[VertexIndex(nx, i', k')], i', k', areaScale, heightScale)
  }

  /**
   * The first half of UpdateMesh: one vertex per point of a one-layer grid,
   * vertex (i, k) at k * nx + i, built from the grid value at (i, 0, k).
   */
  method ConstructVertices(grid: UniformGrid, areaScale: real, heightScale: real) returns (vertices: array<Vec3>)
    requires grid.Valid() && grid.numPointsY == 1
    ensures vertices.Length == grid.numPointsZ * grid.numPointsX
    ensures forall i, k :: 0 <= i < grid.numPointsX && 0 <= k < grid.numPointsZ ==>
      && 0 <= VertexIndex(grid.numPointsX, i, k) < vertices.Length
      && 0 <= FlatIndex(grid.numPointsX, grid.numPointsY, i, 0, k) < grid.grid.Length
      && vertices[VertexIndex(grid.numPointsX, i, k)]
         == TerrainVertex(grid.minPoint, grid.Get(i, 0, k), i, k, areaScale, heightScale)
  {
    var nx, nz := grid.numPointsX, grid.numPointsZ;
    var origin := grid.minPoint;
    assert 0 <= nz * nx;
    assert grid.grid.Length == nx * nz;
    vertices := new Vec3[nz * nx];
    for k := 0 to nz
      invariant VerticesBefore(vertices[..], origin, grid.grid[..], nx, nz, k, 0, areaScale, heightScale)
    {
      for i := 0 to nx
        invariant VerticesBefore(vertices[..], origin, grid.grid[..], nx, nz, k, i, areaScale, heightScale)
      {
        PixelIndex(nx, nz, i, k);
        ghost var before := vertices[..];
        vertices[VertexIndex(nx, i, k)] := TerrainVertex(origin, grid.Get(i, 0, k), i, k, areaScale, heightScale);
        forall k', i' | 0 <= i' < nx && 0 <= k' < nz && (k' < k || (k' == k && i' < i))
          ensures VertexIndex(nx, i', k') != VertexIndex(nx, i, k)
        {
          VertexIndexInjective(nx, nz, i, k, i', k');
        }
        assert vertices[..] == before[VertexIndex(nx, i, k) := TerrainVertex(origin, grid.Get(i, 0, k), i, k, areaScale, heightScale)];
      }
    }
    forall i, k | 0 <= i < nx && 0 <= k < nz
      ensures FlatIndex(nx, 1, i, 0, k) == VertexIndex(nx, i, k) < nx * nz
    {
      PixelIndex(nx, nz, i, k);
    }
  }

  // ---------------------------------------------------------------------------
  // The triangle index buffer

  /** The six indices grid cell c emits: (c, c + nx, c + 1), then (c + 1, c + nx, c + nx + 1). */
  function CellTriangles(nx: int, c: int): seq<int> {
    [c, c + nx, c + 1, c + 1, c + nx, c + nx + 1]
  }

  /** The indices emitted by the first i cells of row k. */
  function RowTriangles(nx: int, k: int, i: int): seq<int>
    decreases i
  {
    if i <= 0 then [] else RowTriangles(nx, k, i - 1) + CellTriangles(nx, VertexIndex(nx, i - 1, k))
  }

  /** The indices emitted by the first k rows of cells, each nx - 1 cells long. */
  function GridTriangles(nx: int, k: int): seq<int>
    decreases k
  {
    if k <= 0 then [] else GridTriangles(nx, k - 1) + RowTriangles(nx, k - 1, nx - 1)
  }

  /** The whole index buffer of an nx-by-nz grid: its nz - 1 rows of cells. */
  function TriangleBuffer(nx: int, nz: int): seq<int> {
    GridTriangles(nx, nz - 1)
  }

  lemma {:induction false} RowLength(nx: int, k: int, i: int)
    requires 0 <= i
    ensures |RowTriangles(nx, k, i)| == 6 * i
    decreases i
  {
    if i > 0 {
      RowLength(nx, k, i - 1);
    }
  }

  lemma {:induction false} GridLength(nx: int, k: int)
    requires 1 <= nx && 0 <= k
    ensures |GridTriangles(nx, k)| == 6 * (nx - 1) * k
    decreases k
  {
    if k > 0 {
      GridLength(nx, k - 1);
      RowLength(nx, k - 1, nx - 1);
      assert 6 * (nx - 1) * (k - 1) + 6 * (nx - 1) == 6 * (nx - 1) * k;
    }
  }

  /** The buffer has six indices per cell: 6 * (nz - 1) * (nx - 1), the size of the array allocated for it. */
  lemma TriangleBufferLength(nx: int, nz: int)
    requires 1 <= nx && 1 <= nz
    ensures |TriangleBuffer(nx, nz)| == 6 * (nz - 1) * (nx - 1)
  {
    GridLength(nx, nz - 1);
    assert 6 * (nx - 1) * (nz - 1) == 6 * (nz - 1) * (nx - 1);
  }

  /** Every index of s lies in [lo, hi). */
  predicate IndicesWithin(s: seq<int>, lo: int, hi: int) {
    forall p :: 0 <= p < |s| ==> lo <= s[p] < hi
  }

  /** Row k of cells names only grid points of rows k and k + 1. */
  lemma {:induction false} RowWithin(nx: int, k: int, i: int)
    requires 0 <= k && 0 <= i <= nx - 1
    ensures IndicesWithin(RowTriangles(nx, k, i), k * nx, (k + 2) * nx)
    decreases i
  {
    if i > 0 {
      RowWithin(nx, k, i - 1);
      var c := VertexIndex(nx, i - 1, k);
      assert (k + 2) * nx == k * nx + 2 * nx;
      assert IndicesWithin(CellTriangles(nx, c), k * nx, (k + 2) * nx);
    }
  }

  lemma MulMonotone(a: int, k: int, b: int)
    requires 0 <= a && k <= b
    ensures a * k <= a * b
  {
    assert a * b - a * k == a * (b - k);
  }

  /** The first k rows of cells name only grid points of rows 0 to k. */
  lemma {:induction false} GridWithin(nx: int, k: int)
    requires 1 <= nx && 0 <= k
    ensures IndicesWithin(GridTriangles(nx, k), 0, (k + 1) * nx)
    decreases k
  {
    if k > 0 {
      GridWithin(nx, k - 1);
      RowWithin(nx, k - 1, nx - 1);
      MulMonotone(nx, k - 1, k);
      assert (k - 1) * nx == nx * (k - 1) && k * nx == nx * k;
      assert 0 <= (k - 1) * nx;
      assert (k + 1) * nx == (k - 1 + 2) * nx;
    }
  }

  /** Every index in the buffer names one of the nx * nz vertices. */
  lemma TriangleBufferWithin(nx: int, nz: int)
    requires 1 <= nx && 1 <= nz
    ensures IndicesWithin(TriangleBuffer(nx, nz), 0, nx * nz)
  {
    GridWithin(nx, nz - 1);
    assert (nz - 1 + 1) * nx == nx * nz;
  }

  /** Triangle t of an index buffer: its three indices. */
  function TriangleOf(s: seq<int>, t: int): (int, int, int)
    requires 0 <= t && 3 * t + 2 < |s|
  {
    (s[3 * t], s[3 * t + 1], s[3 * t + 2])
  }

  predicate DistinctCorners(tri: (int, int, int)) {
    tri.0 != tri.1 && tri.0 != tri.2 && tri.1 != tri.2
  }

  /** A whole number of triangles, none with a repeated index. */
  predicate DistinctTriangles(s: seq<int>) {
    && |s| % 3 == 0
    && forall t :: 0 <= t < |s| / 3 ==> DistinctCorners(TriangleOf(s, t))
  }

  lemma DistinctTrianglesAppend(a: seq<int>, b: seq<int>)
    requires DistinctTriangles(a) && DistinctTriangles(b)
    ensures DistinctTriangles(a + b)
  {
    var n := |a| / 3;
    forall t | 0 <= t < |a + b| / 3
      ensures DistinctCorners(TriangleOf(a + b, t))
    {
      if t < n {
        assert TriangleOf(a + b, t) == TriangleOf(a, t);
      } else {
        assert TriangleOf(a + b, t) == TriangleOf(b, t - n);
      }
    }
  }

  lemma CellDistinct(nx: int, c: int)
    requires 2 <= nx
    ensures DistinctTriangles(CellTriangles(nx, c))
  {
    var s := CellTriangles(nx, c);
    assert TriangleOf(s, 0) == (c, c + nx, c + 1);
    assert TriangleOf(s, 1) == (c + 1, c + nx, c + nx + 1);
  }

  lemma {:induction false} RowDistinct(nx: int, k: int, i: int)
    requires 0 <= i <= nx - 1
    ensures DistinctTriangles(RowTriangles(nx, k, i))
    decreases i
  {
    if i > 0 {
      RowDistinct(nx, k, i - 1);
      CellDistinct(nx, VertexIndex(nx, i - 1, k));
      DistinctTrianglesAppend(RowTriangles(nx, k, i - 1), CellTriangles(nx, VertexIndex(nx, i - 1, k)));
    }
  }

  /** Every triangle of the buffer has three different vertices. */
  lemma {:induction false} GridDistinct(nx: int, k: int)
    requires 1 <= nx
    ensures DistinctTriangles(GridTriangles(nx, k))
    decreases k
  {
    if k > 0 {
      GridDistinct(nx, k - 1);
      RowDistinct(nx, k - 1, nx - 1);
      DistinctTrianglesAppend(GridTriangles(nx, k - 1), RowTriangles(nx, k - 1, nx - 1));
    }
  }

  lemma {:induction false} RowPrefix(nx: int, k: int, i: int, i': int)
    requires i <= i'
    ensures RowTriangles(nx, k, i) <= RowTriangles(nx, k, i')
    decreases i' - i
  {
    if i < i' {
      RowPrefix(nx, k, i, i' - 1);
    }
  }

  lemma {:induction false} GridPrefix(nx: int, k: int, k': int)
    requires k <= k'
    ensures GridTriangles(nx, k) <= GridTriangles(nx, k')
    decreases k' - k
  {
    if k < k' {
      GridPrefix(nx, k, k' - 1);
    }
  }

  /** The rows before row k, then the first i + 1 cells of row k, begin the buffer. */
  lemma CellsBeginBuffer(nx: int, nz: int, i: int, k: int)
    requires 0 <= i < nx - 1 && 0 <= k < nz - 1
    ensures GridTriangles(nx, k) + RowTriangles(nx, k, i) + CellTriangles(nx, VertexIndex(nx, i, k))
         <= TriangleBuffer(nx, nz)
  {
    CellsBeginRows(nx, i, k);
    GridPrefix(nx, k + 1, nz - 1);
    PrefixTransitive(GridTriangles(nx, k) + RowTriangles(nx, k, i) + CellTriangles(nx, VertexIndex(nx, i, k)),
                     GridTriangles(nx, k + 1), TriangleBuffer(nx, nz));
  }

  /** The rows before row k, then the first i + 1 cells of row k, begin the first k + 1 rows. */
  lemma CellsBeginRows(nx: int, i: int, k: int)
    requires 0 <= i < nx - 1 && 0 <= k
    ensures GridTriangles(nx, k) + RowTriangles(nx, k, i) + CellTriangles(nx, VertexIndex(nx, i, k))
         <= GridTriangles(nx, k + 1)
  {
    RowPrefix(nx, k, i + 1, nx - 1);
    PrefixAppended(GridTriangles(nx, k), RowTriangles(nx, k, i), CellTriangles(nx, VertexIndex(nx, i, k)),
                   RowTriangles(nx, k, i + 1), RowTriangles(nx, k, nx - 1), GridTriangles(nx, k + 1));
  }

  /** rows + r + c begins rows + row when r + c begins row. */
  lemma PrefixAppended(rows: seq<int>, r: seq<int>, c: seq<int>, cells: seq<int>, row: seq<int>, whole: seq<int>)
    requires cells == r + c && cells <= row && whole == rows + row
    ensures rows + r + c <= whole
  {
    assert rows + r + c == rows + cells;
    PrefixAfter(rows, cells, row);
  }

  lemma PrefixTransitive(a: seq<int>, b: seq<int>, c: seq<int>)
    requires a <= b && b <= c
    ensures a <= c
  {
    assert c[..|a|] == b[..|a|];
  }

  /** Putting the same indices in front keeps a prefix a prefix. */
  lemma PrefixAfter(a: seq<int>, b: seq<int>, c: seq<int>)
    requires b <= c
    ensures a + b <= a + c
  {
    assert a + c == (a + b) + c[|b|..];
  }

  lemma SliceOfPrefix(a: seq<int>, c: seq<int>, s: seq<int>)
    requires a + c <= s
    ensures |a| + |c| <= |s| && s[|a|..|a| + |c|] == c
  {
    assert (a + c)[|a|..|a| + |c|] == c;
  }

  /**
   * Cell (i, k) occupies the six positions from 6 * (k * (nx - 1) + i) of the
   * buffer and emits its two triangles, which share the diagonal from
   * c + 1 to c + nx.
   */
  lemma CellInBuffer(nx: int, nz: int, i: int, k: int)
    requires 0 <= i < nx - 1 && 0 <= k < nz - 1
    ensures 6 * (k * (nx - 1) + i) + 6 <= |TriangleBuffer(nx, nz)|
    ensures TriangleBuffer(nx, nz)[6 * (k * (nx - 1) + i)..6 * (k * (nx - 1) + i) + 6]
         == CellTriangles(nx, VertexIndex(nx, i, k))
  {
    GridLength(nx, k);
    RowLength(nx, k, i);
    assert 6 * (k * (nx - 1) + i) == |GridTriangles(nx, k) + RowTriangles(nx, k, i)|;
    CellsBeginBuffer(nx, nz, i, k);
    SliceOfPrefix(GridTriangles(nx, k) + RowTriangles(nx, k, i), CellTriangles(nx, VertexIndex(nx, i, k)),
                  TriangleBuffer(nx, nz));
  }

  /** A mesh from this buffer is one the physics scan accepts: whole triangles, every index a vertex. */
  lemma TerrainMeshIsValid(vertices: seq<Vec3>, nx: int, nz: int)
    requires 1 <= nx && 1 <= nz && |vertices| == nz * nx
    ensures Physics.ValidMesh(vertices, TriangleBuffer(nx, nz))
    ensures DistinctTriangles(TriangleBuffer(nx, nz))
  {
    TriangleBufferLength(nx, nz);
    TriangleBufferWithin(nx, nz);
    GridDistinct(nx, nz - 1);
  }

  lemma CursorBound(a: int, b: int, k: int, i: int)
    requires 0 <= a && 0 <= i <= a && 0 <= k < b
    ensures a * k + i <= a * b
  {
    MulMonotone(a, k + 1, b);
  }

  /**
   * The six writes of one cell through the running offset: c, c + nx, c + 1,
   * then c + 1, c + nx, c + nx + 1, each followed by triangleOffset++.
   */
  method EmitCell(triangles: array<int>, triangleOffset: int, nx: int, cellOffset: int) returns (next: int)
    requires 0 <= triangleOffset && triangleOffset + 6 <= triangles.Length
    modifies triangles
    ensures next == triangleOffset + 6
    ensures triangles[..next] == old(triangles[..triangleOffset]) + CellTriangles(nx, cellOffset)
  {
    next := triangleOffset;
    triangles[next] := cellOffset;
    next := next + 1;
    triangles[next] := cellOffset + nx;
    next := next + 1;
    triangles[next] := cellOffset + 1;
    next := next + 1;
    triangles[next] := cellOffset + 1;
    next := next + 1;
    triangles[next] := cellOffset + nx;
    next := next + 1;
    triangles[next] := cellOffset + nx + 1;
    next := next + 1;
    assert triangles[..next] == old(triangles[..triangleOffset]) + CellTriangles(nx, cellOffset);
  }

  /**
   * The second half of UpdateMesh: the triangles array filled through the
   * running offset, which ends at the array's length.
   */
  method ConstructTriangles(nx: int, nz: int) returns (triangles: array<int>)
    requires 1 <= nx && 1 <= nz
    ensures triangles.Length == 6 * (nz - 1) * (nx - 1)
    ensures triangles[..] == TriangleBuffer(nx, nz)
  {
    TriangleBufferLength(nx, nz);
    triangles := new int[6 * (nz - 1) * (nx - 1)];
    var triangleOffset := 0;
    for k := 0 to nz - 1
      invariant triangleOffset == |GridTriangles(nx, k)| <= triangles.Length
      invariant triangles[..triangleOffset] == GridTriangles(nx, k)
    {
      GridPrefix(nx, k + 1, nz - 1);
      for i := 0 to nx - 1
        invariant triangleOffset == |GridTriangles(nx, k) + RowTriangles(nx, k, i)| <= triangles.Length
        invariant triangles[..triangleOffset] == GridTriangles(nx, k) + RowTriangles(nx, k, i)
      {
        CellsBeginBuffer(nx, nz, i, k);
        assert triangleOffset + 6 <= triangles.Length;
        var cellOffset := k * nx + i;
        triangleOffset := EmitCell(triangles, triangleOffset, nx, cellOffset);
      }
    }
  }

  // ---------------------------------------------------------------------------
  // The component

  class TerrainConstructor {
    const areaScale: real
    const heightScale: real
    var terrainGrid: UniformGrid?
    /** The shared mesh's vertex and triangle arrays. */
    var meshVertices: seq<Vec3>
    var meshTriangles: seq<int>

    /** A grid ExtractHeightMapData built: valid, one point high, at least one point along x and z. */
    predicate GridReady()
      reads this
    {
      && terrainGrid != null && terrainGrid.Valid() && terrainGrid.numPointsY == 1
      && 1 <= terrainGrid.numPointsX && 1 <= terrainGrid.numPointsZ
    }

    /** The serialized settings (0.1 and 1.0 by default), no grid yet and an empty mesh. */
    constructor(areaScale: real, heightScale: real)
      ensures this.areaScale == areaScale && this.heightScale == heightScale
      ensures terrainGrid == null && meshVertices == [] && meshTriangles == []
    {
      this.areaScale := areaScale;
      this.heightScale := heightScale;
      terrainGrid := null;
      meshVertices := [];
      meshTriangles := [];
    }

    /**
     * A width-by-1-by-height grid centred on the position, holding each
     * pixel's height at the pixel's own position; when the grid constructor
     * throws, the old grid stays.
     */
    method ExtractHeightMapData(position: Vec3, heightmap: Heightmap) returns (ok: bool)
      requires ValidHeightmap(heightmap)
      modifies this
      ensures ok <==> ConstructorError(TerrainMinPoint(position, heightmap.width, heightmap.height, areaScale),
                                       TerrainMaxPoint(position, heightmap.width, heightmap.height, areaScale),
                                       heightmap.width, 1, heightmap.height).None?
      ensures !ok ==> terrainGrid == old(terrainGrid)
      ensures meshVertices == old(meshVertices) && meshTriangles == old(meshTriangles)
      ensures ok ==>
        && GridReady() && fresh(terrainGrid) && fresh(terrainGrid.grid)
        && terrainGrid.numPointsX == heightmap.width && terrainGrid.numPointsZ == heightmap.height
        && terrainGrid.minPoint == TerrainMinPoint(position, heightmap.width, heightmap.height, areaScale)
        && terrainGrid.maxPoint == TerrainMaxPoint(position, heightmap.width, heightmap.height, areaScale)
        && terrainGrid.grid[..] == HeightField(heightmap.pixels)
    {
      var width, height := heightmap.width, heightmap.height;
      var created := UniformGrid.Create(TerrainMinPoint(position, width, height, areaScale),
                                        TerrainMaxPoint(position, width, height, areaScale), width, 1, height);
      if created.Failure? {
        return false;
      }
      var g := created.value;
      terrainGrid := g;
      assert g.grid.Length == |heightmap.pixels|;
      for k := 0 to g.numPointsZ
        modifies g.grid
        invariant forall n :: 0 <= n < |heightmap.pixels| && n < k * width ==>
          g.grid[n] == PixelHeight(heightmap.pixels[n])
      {
        for i := 0 to g.numPointsX
          modifies g.grid
          invariant forall n :: 0 <= n < |heightmap.pixels| && n < k * width + i ==>
            g.grid[n] == PixelHeight(heightmap.pixels[n])
        {
          PixelIndex(width, height, i, k);
          var color := PixelHeight(heightmap.pixels[k * width + i]);
          var outOfRange := g.Set(i, 0, k, color);
        }
      }
      assert height * width == |heightmap.pixels|;
      assert g.grid[..] == HeightField(heightmap.pixels);
      return true;
    }

    /** The mesh of the current grid: vertex (i, k) at k * nx + i, and the two-triangles-per-cell index buffer. */
    method UpdateMesh()
      requires GridReady()
      modifies this
      ensures terrainGrid == old(terrainGrid) && GridReady()
      ensures meshTriangles == TriangleBuffer(terrainGrid.numPointsX, terrainGrid.numPointsZ)
      ensures |meshVertices| == terrainGrid.numPointsZ * terrainGrid.numPointsX
      ensures forall i, k :: 0 <= i < terrainGrid.numPointsX && 0 <= k < terrainGrid.numPointsZ ==>
        && 0 <= VertexIndex(terrainGrid.numPointsX, i, k) < |meshVertices|
        && 0 <= FlatIndex(terrainGrid.numPointsX, 1, i, 0, k) < terrainGrid.grid.Length
        && meshVertices[VertexIndex(terrainGrid.numPointsX, i, k)]
           == TerrainVertex(terrainGrid.minPoint, terrainGrid.Get(i, 0, k), i, k, areaScale, heightScale)
    {
      var g := terrainGrid;
      var vertices := ConstructVertices(g, areaScale, heightScale);
      var triangles := ConstructTriangles(g.numPointsX, g.numPointsZ);
      meshVertices := vertices[..];
      meshTriangles := triangles[..];
    }

    /**
     * Awake with a fresh empty mesh, or OnValidate with the current one:
     * rebuild the grid from the heightmap, then the mesh from the grid; a
     * throwing grid constructor ends it before the mesh is touched.
     */
    method Rebuild(position: Vec3, heightmap: Heightmap) returns (ok: bool)
      requires ValidHeightmap(heightmap)
      modifies this
      ensures ok <==> ConstructorError(TerrainMinPoint(position, heightmap.width, heightmap.height, areaScale),
                                       TerrainMaxPoint(position, heightmap.width, heightmap.height, areaScale),
                                       heightmap.width, 1, heightmap.height).None?
      ensures !ok ==> terrainGrid == old(terrainGrid) && meshVertices == old(meshVertices)
                      && meshTriangles == old(meshTriangles)
      ensures ok ==>
        && meshTriangles == TriangleBuffer(heightmap.width, heightmap.height)
        && |meshVertices| == heightmap.height * heightmap.width
        && forall i, k :: 0 <= i < heightmap.width && 0 <= k < heightmap.height ==>
          && 0 <= VertexIndex(heightmap.width, i, k) < |meshVertices|
          && meshVertices[VertexIndex(heightmap.width, i, k)]
             == TerrainVertex(TerrainMinPoint(position, heightmap.width, heightmap.height, areaScale),
                              PixelHeight(heightmap.pixels[VertexIndex(heightmap.width, i, k)]),
                              i, k, areaScale, heightScale)
    {
      ok := ExtractHeightMapData(position, heightmap);
      if ok {
        ghost var cells := terrainGrid.grid[..];
        UpdateMesh();
        assert terrainGrid.grid[..] == cells;
        forall i, k | 0 <= i < heightmap.width && 0 <= k < heightmap.height
          ensures terrainGrid.Get(i, 0, k) == PixelHeight(heightmap.pixels[VertexIndex(heightmap.width, i, k)])
        {
          PixelIndex(heightmap.width, heightmap.height, i, k);
        }
      }
    }
  }
}
