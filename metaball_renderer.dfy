/**
 * The bookkeeping of the marching-cubes renderer: the corners of a grid cell,
 * the cube index built from the corner values, the vertex dictionary that
 * hands out dense indices, the triangle list with its swapped winding, the
 * reordering of vertices by index, and the bounding box around the balls.
 * The two lookup tables and the edge interpolation are inputs.
 */
module Renderer {
  import opened Geometry

  /** A grid point: a position and the field value there. */
  datatype GridPoint = GridPoint(position: Vec3, value: real)

  /** A grid cell: the eight corner positions and their values. */
  datatype GridCell = GridCell(points: seq<Vec3>, values: seq<real>)

  // ---------------------------------------------------------------------------
  // Grid cells

  /** The offset (x, y, z) of each cell corner from the cell's lowest grid point, in the order of Lorensen and Cline. */
  const CornerOffsets: seq<(int, int, int)> :=
    [(0, 0, 0), (0, 0, 1), (1, 0, 1), (1, 0, 0), (0, 1, 0), (0, 1, 1), (1, 1, 1), (1, 1, 0)]

  /** The two corners each of the twelve cell edges joins. */
  const EdgeCorners: seq<(int, int)> :=
    [(0, 1), (1, 2), (2, 3), (3, 0), (4, 5), (5, 6), (6, 7), (7, 4), (0, 4), (1, 5), (2, 6), (3, 7)]

  predicate UnitOffset(o: (int, int, int)) {
    0 <= o.0 <= 1 && 0 <= o.1 <= 1 && 0 <= o.2 <= 1
  }

  /** The number of coordinates in which two corner offsets differ. */
  function OffsetDistance(a: (int, int, int), b: (int, int, int)): int {
    (if a.0 == b.0 then 0 else 1) + (if a.1 == b.1 then 0 else 1) + (if a.2 == b.2 then 0 else 1)
  }

  /**
   * The eight offsets are the eight corners of the unit cube, each once, and
   * every one of the twelve edges joins two corners one step apart.
   */
  lemma CornersFormCube()
    ensures |CornerOffsets| == 8 && |EdgeCorners| == 12
    ensures forall c :: 0 <= c < 8 ==> UnitOffset(CornerOffsets[c])
    ensures forall c, c' :: 0 <= c < c' < 8 ==> CornerOffsets[c] != CornerOffsets[c']
    ensures forall e :: 0 <= e < 12 ==>
      && 0 <= EdgeCorners[e].0 < 8 && 0 <= EdgeCorners[e].1 < 8
      && OffsetDistance(CornerOffsets[EdgeCorners[e].0], CornerOffsets[EdgeCorners[e].1]) == 1
  {
  }

  /**
   * The cell whose lowest grid point is (x, y, z): each corner's position and
   * value read from the same grid point, at the corner's offset.
   */
  function ConstructGridCell(grid: array3<GridPoint>, x: int, y: int, z: int): (cell: GridCell)
    requires 0 <= x && x + 1 < grid.Length0 && 0 <= y && y + 1 < grid.Length1 && 0 <= z && z + 1 < grid.Length2
    reads grid
    ensures |cell.points| == 8 && |cell.values| == 8
    ensures forall c :: 0 <= c < 8 ==>
      && UnitOffset(CornerOffsets[c])
      && cell.points[c] == grid[x + CornerOffsets[c].0, y + CornerOffsets[c].1, z + CornerOffsets[c].2].position
      && cell.values[c] == grid[x + CornerOffsets[c].0, y + CornerOffsets[c].1, z + CornerOffsets[c].2].value
  {
    GridCell(
      [grid[x, y, z].position, grid[x, y, z + 1].position, grid[x + 1, y, z + 1].position, grid[x + 1, y, z].position,
       grid[x, y + 1, z].position, grid[x, y + 1, z + 1].position, grid[x + 1, y + 1, z + 1].position,
       grid[x + 1, y + 1, z].position],
      [grid[x, y, z].value, grid[x, y, z + 1].value, grid[x + 1, y, z + 1].value, grid[x + 1, y, z].value,
       grid[x, y + 1, z].value, grid[x, y + 1, z + 1].value, grid[x + 1, y + 1, z + 1].value,
       grid[x + 1, y + 1, z].value])
  }

  // ---------------------------------------------------------------------------
  // The cube index

  /** Whether bit i of a 32-bit index is set. */
  predicate BitSet(index: bv32, i: bv32)
    requires i < 32
  {
    index & (1 << i) != 0
  }

  /**
   * The cube index of the first n corner values: bit i set for each value
   * strictly above the threshold. The counter is the source's 32-bit int.
   */
  function CubeIndexOf(values: seq<real>, threshold: real, n: bv32): bv32
    requires |values| == 8 && n <= 8
    decreases n
  {
    if n == 0 then 0
    else CubeIndexOf(values, threshold, n - 1) | (if values[n - 1] > threshold then 1 << (n - 1) else 0)
  }

  /**
   * The step of CubeIndexBits: or-ing in bit m when on sets bit m and no
   * other, so bit j of the wider index says whether j < m + 1 and p.
   */
  lemma OrBit(index: bv32, bit: bv32, m: bv32, j: bv32, on: bool, p: bool)
    requires m < 32 && j < 32 && bit == (if on then 1 << m else 0)
    requires BitSet(index, j) <==> j < m && p
    requires j == m ==> (on <==> p)
    ensures BitSet(index | bit, j) <==> j < m + 1 && p
  {
  }

  /** Bit j of the cube index is set exactly when corner j's value is strictly above the threshold. */
  lemma {:induction false} CubeIndexBits(values: seq<real>, threshold: real, n: bv32, j: bv32)
    requires |values| == 8 && n <= 8 && j < 32
    ensures BitSet(CubeIndexOf(values, threshold, n), j) <==> j < n && values[j] > threshold
    decreases n
  {
    if n > 0 {
      var m := n - 1;
      var above := j < n && values[j] > threshold;
      CubeIndexBits(values, threshold, m, j);
      OrBit(CubeIndexOf(values, threshold, m), if values[m] > threshold then 1 << m else 0,
            m, j, values[m] > threshold, above);
    }
  }

  /** Or-ing bit n - 1 into an index below 2^(n-1) stays below 2^n. */
  lemma BelowPower(index: bv32, bit: bv32, n: bv32)
    requires 1 <= n < 32 && index < 1 << (n - 1) && (bit == 0 || bit == 1 << (n - 1))
    ensures index | bit < 1 << n
  {
  }

  /** The first n corner values give an index below 2^n; eight corners give one of the 256 table rows. */
  lemma {:induction false} CubeIndexBelow(values: seq<real>, threshold: real, n: bv32)
    requires |values| == 8 && n <= 8
    ensures CubeIndexOf(values, threshold, n) < 1 << n
    ensures n == 8 ==> (CubeIndexOf(values, threshold, n) as int) < 256
    decreases n
  {
    if n > 0 {
      CubeIndexBelow(values, threshold, n - 1);
      BelowPower(CubeIndexOf(values, threshold, n - 1),
                 if values[n - 1] > threshold then 1 << (n - 1) else 0, n);
    }
  }

  /** An index with no bit set is zero. */
  lemma NoBits(z: bv32)
    requires forall j: bv32 :: j < 32 ==> !BitSet(z, j)
    ensures z == 0
  {
    assert !BitSet(z, 0) && !BitSet(z, 1) && !BitSet(z, 2) && !BitSet(z, 3);
    assert !BitSet(z, 4) && !BitSet(z, 5) && !BitSet(z, 6) && !BitSet(z, 7);
    assert !BitSet(z, 8) && !BitSet(z, 9) && !BitSet(z, 10) && !BitSet(z, 11);
    assert !BitSet(z, 12) && !BitSet(z, 13) && !BitSet(z, 14) && !BitSet(z, 15);
    assert !BitSet(z, 16) && !BitSet(z, 17) && !BitSet(z, 18) && !BitSet(z, 19);
    assert !BitSet(z, 20) && !BitSet(z, 21) && !BitSet(z, 22) && !BitSet(z, 23);
    assert !BitSet(z, 24) && !BitSet(z, 25) && !BitSet(z, 26) && !BitSet(z, 27);
    assert !BitSet(z, 28) && !BitSet(z, 29) && !BitSet(z, 30) && !BitSet(z, 31);
  }

  /** Bit j of x ^ y is set exactly when x and y differ there. */
  lemma XorBit(x: bv32, y: bv32, j: bv32)
    requires j < 32
    ensures BitSet(x ^ y, j) <==> BitSet(x, j) != BitSet(y, j)
  {
  }

  /** Two indices with the same 32 bits are equal. */
  lemma SameBits(x: bv32, y: bv32)
    requires forall j: bv32 :: j < 32 ==> (BitSet(x, j) <==> BitSet(y, j))
    ensures x == y
  {
    var difference := x ^ y;
    forall j: bv32 | j < 32
      ensures !BitSet(difference, j)
    {
      XorBit(x, y, j);
    }
    NoBits(difference);
  }

  /** The loop at the head of Polygonize: or-ing in 1 << i for every corner value above the threshold. */
  method CubeIndex(values: seq<real>, threshold: real) returns (cubeIndex: bv32)
    requires |values| == 8
    ensures cubeIndex == CubeIndexOf(values, threshold, 8)
  {
    cubeIndex := 0;
    var i: bv32 := 0;
    while i < 8
      invariant i <= 8
      invariant forall j: bv32 :: j < 32 ==> (BitSet(cubeIndex, j) <==> j < i && values[j] > threshold)
    {
      ghost var previous := cubeIndex;
      if values[i] > threshold {
        cubeIndex := cubeIndex | (1 << i);
      }
      forall j: bv32 | j < 32
        ensures BitSet(cubeIndex, j) <==> j < i + 1 && values[j] > threshold
      {
        OrBit(previous, if values[i] > threshold then 1 << i else 0, i, j, values[i] > threshold,
              j < i + 1 && values[j] > threshold);
      }
      i := i + 1;
    }
    forall j: bv32 | j < 32
      ensures BitSet(cubeIndex, j) <==> BitSet(CubeIndexOf(values, threshold, 8), j)
    {
      CubeIndexBits(values, threshold, 8, j);
    }
    SameBits(cubeIndex, CubeIndexOf(values, threshold, 8));
  }

  // ---------------------------------------------------------------------------
  // The lookup tables and the edge vertices

  /**
   * A triangle-table row read from position p: triples of edge numbers, each
   * below 12, up to a -1 at a multiple of three inside the row.
   */
  predicate RowFrom(row: seq<int>, p: nat)
    decreases |row| - p
  {
    && p < |row|
    && (|| row[p] == -1
        || (&& p + 3 < |row| && 0 <= row[p] < 12 && 0 <= row[p + 1] < 12 && 0 <= row[p + 2] < 12
            && RowFrom(row, p + 3)))
  }

  /** Tables the renderer can index with any cube index: 256 edge masks and 256 well-formed triangle rows. */
  predicate ValidTables(edgeTable: seq<bv32>, triTable: seq<seq<int>>) {
    |edgeTable| == 256 && |triTable| == 256 && forall r :: 0 <= r < 256 ==> RowFrom(triTable[r], 0)
  }

  /** The mask of each edge's bit in the edge table: 1 << e. */
  const EdgeMasks: seq<bv32> := [1, 2, 4, 8, 16, 32, 64, 128, 256, 512, 1024, 2048]

  lemma EdgeMasksAreBits()
    ensures |EdgeMasks| == 12
    ensures forall e: bv32 :: e < 12 ==> EdgeMasks[e] == 1 << e
  {
  }

  /** The point edge e contributes: the interpolated crossing if the edge's bit is set in the mask, else the zero vector. */
  function EdgeVertex(cell: GridCell, edgeBits: bv32, e: int, interpolate: (Vec3, Vec3, real, real) -> Vec3): Vec3
    requires |cell.points| == 8 && |cell.values| == 8 && 0 <= e < 12
  {
    var a, b := EdgeCorners[e].0, EdgeCorners[e].1;
    if edgeBits & EdgeMasks[e] != 0 then interpolate(cell.points[a], cell.points[b], cell.values[a], cell.values[b])
    else Zero
  }

  /**
   * vertexList as Polygonize's twelve if-statements fill it: entry e is edge
   * e's point, the edges and their masks taken from EdgeCorners and EdgeMasks.
   */
  function EdgeVertices(cell: GridCell, edgeBits: bv32, interpolate: (Vec3, Vec3, real, real) -> Vec3): (vertexList: seq<Vec3>)
    requires |cell.points| == 8 && |cell.values| == 8
    ensures |vertexList| == 12
  {
    seq(12, e requires 0 <= e < 12 => EdgeVertex(cell, edgeBits, e, interpolate))
  }

  // ---------------------------------------------------------------------------
  // The vertex dictionary and the triangle list

  /** Dense indices: every index is below the dictionary's size and no two vertices share one. */
  predicate DenseIndices(m: map<Vec3, int>) {
    && (forall v :: v in m ==> 0 <= m[v] < |m|)
    && (forall v, w :: v in m && w in m && v != w ==> m[v] != m[w])
  }

  /** Every entry of a triangle list names one of n vertices. */
  predicate IndicesBelow(t: seq<int>, n: int) {
    forall p :: 0 <= p < |t| ==> 0 <= t[p] < n
  }

  /** m2 keeps every vertex of m1 under the same index. */
  predicate Keeps(m1: map<Vec3, int>, m2: map<Vec3, int>) {
    forall w :: w in m1 ==> w in m2 && m2[w] == m1[w]
  }

  /**
   * One vertex looked up in the dictionary: its existing index, or else the
   * next index, vertices.Count, under which it is then added.
   */
  function AddVertex(m: map<Vec3, int>, v: Vec3): (r: (map<Vec3, int>, int))
    ensures v in r.0 && r.0[v] == r.1 && Keeps(m, r.0)
  {
    if v in m then (m, m[v]) else (m[v := |m|], |m|)
  }

  /** A lookup adds at most the one vertex, under the next index, so the dictionary stays dense. */
  lemma AddVertexDense(m: map<Vec3, int>, v: Vec3)
    requires DenseIndices(m)
    ensures AddVertex(m, v).0.Keys == m.Keys + {v}
    ensures DenseIndices(AddVertex(m, v).0) && |AddVertex(m, v).0| == |m| + (if v in m then 0 else 1)
  {
  }

  /** The indices a sequence of vertices gets, one lookup after another. */
  function AddVertices(m: map<Vec3, int>, vs: seq<Vec3>): (r: (map<Vec3, int>, seq<int>))
    ensures |r.1| == |vs|
    decreases |vs|
  {
    if |vs| == 0 then (m, [])
    else
      var front := AddVertices(m, vs[..|vs| - 1]);
      var last := AddVertex(front.0, vs[|vs| - 1]);
      (last.0, front.1 + [last.1])
  }

  lemma KeepsTransitive(m1: map<Vec3, int>, m2: map<Vec3, int>, m3: map<Vec3, int>)
    requires Keeps(m1, m2) && Keeps(m2, m3)
    ensures Keeps(m1, m3)
  {
  }

  /** A run of lookups keeps every vertex the dictionary held, under its index. */
  lemma {:induction false} AddVerticesKeeps(m: map<Vec3, int>, vs: seq<Vec3>)
    ensures Keeps(m, AddVertices(m, vs).0)
    decreases |vs|
  {
    if |vs| > 0 {
      var front := AddVertices(m, vs[..|vs| - 1]);
      AddVerticesKeeps(m, vs[..|vs| - 1]);
      var last := AddVertex(front.0, vs[|vs| - 1]);
      assert AddVertices(m, vs).0 == last.0;
      KeepsTransitive(m, front.0, last.0);
    }
  }

  /** A run of lookups keeps the dictionary dense, and does not shrink it. */
  lemma {:induction false} AddVerticesDense(m: map<Vec3, int>, vs: seq<Vec3>)
    requires DenseIndices(m)
    ensures DenseIndices(AddVertices(m, vs).0) && |m| <= |AddVertices(m, vs).0|
    decreases |vs|
  {
    if |vs| > 0 {
      var front := AddVertices(m, vs[..|vs| - 1]);
      AddVerticesDense(m, vs[..|vs| - 1]);
      AddVertexDense(front.0, vs[|vs| - 1]);
      var last := AddVertex(front.0, vs[|vs| - 1]);
      assert AddVertices(m, vs).0 == last.0;
    }
  }

  /** After a run of lookups, the run's q-th vertex is in the dictionary under the index the run gave it. */
  lemma {:induction false} AddVerticesLookup(m: map<Vec3, int>, vs: seq<Vec3>, q: nat)
    requires q < |vs|
    ensures vs[q] in AddVertices(m, vs).0 && AddVertices(m, vs).0[vs[q]] == AddVertices(m, vs).1[q]
    decreases |vs|
  {
    var init := vs[..|vs| - 1];
    var front := AddVertices(m, init);
    var last := AddVertex(front.0, vs[|vs| - 1]);
    assert AddVertices(m, vs).0 == last.0;
    assert AddVertices(m, vs).1 == front.1 + [last.1];
    if q < |vs| - 1 {
      AddVerticesLookup(m, init, q);
      assert vs[q] == init[q];
      assert (front.1 + [last.1])[q] == front.1[q];
    }
  }

  /** One more lookup at the end of a run. */
  lemma AddVerticesSnoc(m: map<Vec3, int>, vs: seq<Vec3>, j: nat)
    requires j < |vs|
    ensures AddVertices(m, vs[..j + 1]).0 == AddVertex(AddVertices(m, vs[..j]).0, vs[j]).0
    ensures AddVertices(m, vs[..j + 1]).1 == AddVertices(m, vs[..j]).1 + [AddVertex(AddVertices(m, vs[..j]).0, vs[j]).1]
  {
    assert vs[..j + 1][..j] == vs[..j];
  }

  /** The three vertices of the triangle-table triple at position p. */
  function TriangleCorners(vertexList: seq<Vec3>, row: seq<int>, p: nat): seq<Vec3>
    requires |vertexList| == 12 && RowFrom(row, p) && row[p] != -1
  {
    [vertexList[row[p]], vertexList[row[p + 1]], vertexList[row[p + 2]]]
  }

  /** The number of triples in a row from position p on. */
  function TriangleCount(row: seq<int>, p: nat): nat
    requires RowFrom(row, p)
    decreases |row| - p
  {
    if row[p] == -1 then 0 else 1 + TriangleCount(row, p + 3)
  }

  /**
   * The inner loop of Polygonize from triple p on: each triple's three
   * vertices looked up in order, their indices appended as first, third,
   * second to turn the table's counter-clockwise winding clockwise.
   */
  function EmitTriangles(m: map<Vec3, int>, triangles: seq<int>, vertexList: seq<Vec3>, row: seq<int>, p: nat)
    : (r: (map<Vec3, int>, seq<int>))
    requires |vertexList| == 12 && RowFrom(row, p)
    ensures triangles <= r.1 && |r.1| == |triangles| + 3 * TriangleCount(row, p)
    decreases |row| - p
  {
    if row[p] == -1 then (m, triangles)
    else
      var added := AddVertices(m, TriangleCorners(vertexList, row, p));
      EmitTriangles(added.0, triangles + [added.1[0], added.1[2], added.1[1]], vertexList, row, p + 3)
  }

  /**
   * The reference reading of a row: from position p, e holds one triple per
   * table triple, the indices the dictionary m gives its first, third and
   * second vertex.
   */
  predicate WoundAs(m: map<Vec3, int>, e: seq<int>, vertexList: seq<Vec3>, row: seq<int>, p: nat)
    requires |vertexList| == 12 && RowFrom(row, p)
    decreases |row| - p
  {
    if row[p] == -1 then e == []
    else
      var a, b, c := vertexList[row[p]], vertexList[row[p + 1]], vertexList[row[p + 2]];
      && 3 <= |e| && a in m && b in m && c in m
      && e[0] == m[a] && e[1] == m[c] && e[2] == m[b]
      && WoundAs(m, e[3..], vertexList, row, p + 3)
  }

  lemma {:induction false} WoundAsKept(m: map<Vec3, int>, m': map<Vec3, int>, e: seq<int>,
                                       vertexList: seq<Vec3>, row: seq<int>, p: nat)
    requires |vertexList| == 12 && RowFrom(row, p)
    requires WoundAs(m, e, vertexList, row, p) && Keeps(m, m')
    ensures WoundAs(m', e, vertexList, row, p)
    decreases |row| - p
  {
    if row[p] != -1 {
      WoundAsKept(m, m', e[3..], vertexList, row, p + 3);
    }
  }

  /** The index a run of lookups gives its q-th vertex is an index of the resulting dense dictionary. */
  lemma AddVerticesIndexBelow(m: map<Vec3, int>, vs: seq<Vec3>, q: nat)
    requires DenseIndices(m) && q < |vs|
    ensures 0 <= AddVertices(m, vs).1[q] < |AddVertices(m, vs).0|
  {
    AddVerticesDense(m, vs);
    AddVerticesLookup(m, vs, q);
  }

  /** Emitting a row keeps the old vertices under their indices. */
  lemma {:induction false} EmitTrianglesKeeps(m: map<Vec3, int>, triangles: seq<int>, vertexList: seq<Vec3>,
                                              row: seq<int>, p: nat)
    requires |vertexList| == 12 && RowFrom(row, p)
    ensures Keeps(m, EmitTriangles(m, triangles, vertexList, row, p).0)
    decreases |row| - p
  {
    if row[p] != -1 {
      var added := AddVertices(m, TriangleCorners(vertexList, row, p));
      var next := triangles + [added.1[0], added.1[2], added.1[1]];
      AddVerticesKeeps(m, TriangleCorners(vertexList, row, p));
      EmitTrianglesKeeps(added.0, next, vertexList, row, p + 3);
      KeepsTransitive(m, added.0, EmitTriangles(added.0, next, vertexList, row, p + 3).0);
    }
  }

  /** Appending a triangle whose indices are below n' to a list whose indices are below n <= n'. */
  lemma AppendBelow(t: seq<int>, a: int, b: int, c: int, n: int, n': int)
    requires IndicesBelow(t, n) && n <= n'
    requires 0 <= a < n' && 0 <= b < n' && 0 <= c < n'
    ensures IndicesBelow(t + [a, b, c], n')
  {
    forall p | 0 <= p < |t| + 3
      ensures 0 <= (t + [a, b, c])[p] < n'
    {
      if p < |t| {
        assert (t + [a, b, c])[p] == t[p];
      }
    }
  }

  /** One triangle's lookups and append keep the dictionary dense and the indices in range. */
  lemma AppendTriangleValid(m: map<Vec3, int>, triangles: seq<int>, corners: seq<Vec3>)
    requires |corners| == 3 && DenseIndices(m) && IndicesBelow(triangles, |m|)
    ensures var added := AddVertices(m, corners);
      DenseIndices(added.0) && IndicesBelow(triangles + [added.1[0], added.1[2], added.1[1]], |added.0|)
  {
    var added := AddVertices(m, corners);
    AddVerticesDense(m, corners);
    AddVerticesIndexBelow(m, corners, 0);
    AddVerticesIndexBelow(m, corners, 1);
    AddVerticesIndexBelow(m, corners, 2);
    AppendBelow(triangles, added.1[0], added.1[2], added.1[1], |m|, |added.0|);
  }

  /** Emitting a row keeps the dictionary dense and every triangle index naming one of its vertices. */
  lemma {:induction false} EmitTrianglesValid(m: map<Vec3, int>, triangles: seq<int>, vertexList: seq<Vec3>,
                                              row: seq<int>, p: nat)
    requires |vertexList| == 12 && RowFrom(row, p)
    requires DenseIndices(m) && IndicesBelow(triangles, |m|)
    ensures DenseIndices(EmitTriangles(m, triangles, vertexList, row, p).0)
    ensures IndicesBelow(EmitTriangles(m, triangles, vertexList, row, p).1,
                         |EmitTriangles(m, triangles, vertexList, row, p).0|)
    decreases |row| - p
  {
    if row[p] != -1 {
      var corners := TriangleCorners(vertexList, row, p);
      var added := AddVertices(m, corners);
      var next := triangles + [added.1[0], added.1[2], added.1[1]];
      AppendTriangleValid(m, triangles, corners);
      EmitTrianglesValid(added.0, next, vertexList, row, p + 3);
    }
  }

  /**
   * What emitting a row appends is exactly the row's triangles, wound first,
   * third, second, as the final dictionary indexes their vertices.
   */
  lemma {:induction false} EmitTrianglesWound(m: map<Vec3, int>, triangles: seq<int>, vertexList: seq<Vec3>,
                                              row: seq<int>, p: nat)
    requires |vertexList| == 12 && RowFrom(row, p)
    ensures WoundAs(EmitTriangles(m, triangles, vertexList, row, p).0,
                    EmitTriangles(m, triangles, vertexList, row, p).1[|triangles|..], vertexList, row, p)
    decreases |row| - p
  {
    var r := EmitTriangles(m, triangles, vertexList, row, p);
    if row[p] == -1 {
      assert r.1[|triangles|..] == [];
    } else {
      var corners := TriangleCorners(vertexList, row, p);
      var added := AddVertices(m, corners);
      var next := triangles + [added.1[0], added.1[2], added.1[1]];
      assert r == EmitTriangles(added.0, next, vertexList, row, p + 3);
      EmitTrianglesKeeps(added.0, next, vertexList, row, p + 3);
      EmitTrianglesWound(added.0, next, vertexList, row, p + 3);
      AddVerticesLookup(m, corners, 0);
      AddVerticesLookup(m, corners, 1);
      AddVerticesLookup(m, corners, 2);
      WoundPrepend(added.0, r.0, triangles, next, r.1, vertexList, row, p);
    }
  }

  /** One more triple in front: the step of EmitTrianglesWound. */
  lemma WoundPrepend(m1: map<Vec3, int>, m': map<Vec3, int>, triangles: seq<int>, next: seq<int>, t': seq<int>,
                     vertexList: seq<Vec3>, row: seq<int>, p: nat)
    requires |vertexList| == 12 && RowFrom(row, p) && row[p] != -1
    requires var a, b, c := vertexList[row[p]], vertexList[row[p + 1]], vertexList[row[p + 2]];
      && a in m1 && b in m1 && c in m1 && next == triangles + [m1[a], m1[c], m1[b]]
    requires next <= t' && Keeps(m1, m') && WoundAs(m', t'[|next|..], vertexList, row, p + 3)
    ensures WoundAs(m', t'[|triangles|..], vertexList, row, p)
  {
    var tail := t'[|triangles|..];
    assert tail[..3] == next[|triangles|..];
    assert tail[3..] == t'[|next|..];
  }

  // ---------------------------------------------------------------------------
  // Polygonizing a cell

  predicate EightCorners(cell: GridCell) {
    |cell.points| == 8 && |cell.values| == 8
  }

  /** The table row a cell selects: its cube index, below 256. */
  function CellIndex(cell: GridCell, threshold: real): (ci: bv32)
    requires EightCorners(cell)
    ensures (ci as int) < 256
    ensures forall j: bv32 :: j < 8 ==> (BitSet(ci, j) <==> cell.values[j] > threshold)
  {
    CubeIndexBelow(cell.values, threshold, 8);
    forall j: bv32 | j < 8
      ensures BitSet(CubeIndexOf(cell.values, threshold, 8), j) <==> cell.values[j] > threshold
    {
      CubeIndexBits(cell.values, threshold, 8, j);
    }
    CubeIndexOf(cell.values, threshold, 8)
  }

  /**
   * What Polygonize does to the dictionary m and triangle list t: the cell's
   * row of the triangle table emitted over the cell's edge vertices.
   */
  function PolygonizeCell(m: map<Vec3, int>, t: seq<int>, cell: GridCell, threshold: real,
                          edgeTable: seq<bv32>, triTable: seq<seq<int>>,
                          interpolate: (Vec3, Vec3, real, real) -> Vec3): (map<Vec3, int>, seq<int>)
    requires EightCorners(cell) && ValidTables(edgeTable, triTable)
  {
    var ci := CellIndex(cell, threshold);
    EmitTriangles(m, t, EdgeVertices(cell, edgeTable[ci], interpolate), triTable[ci], 0)
  }

  /**
   * Polygonizing a cell keeps the dictionary dense with every triangle index
   * naming one of its vertices, keeps old vertices and old triangles, and
   * appends whole triangles: exactly the cell's table row, wound clockwise.
   */
  lemma PolygonizeCellFacts(m: map<Vec3, int>, t: seq<int>, cell: GridCell, threshold: real,
                            edgeTable: seq<bv32>, triTable: seq<seq<int>>,
                            interpolate: (Vec3, Vec3, real, real) -> Vec3)
    requires EightCorners(cell) && ValidTables(edgeTable, triTable)
    requires DenseIndices(m) && IndicesBelow(t, |m|) && |t| % 3 == 0
    ensures var r := PolygonizeCell(m, t, cell, threshold, edgeTable, triTable, interpolate);
      && DenseIndices(r.0) && IndicesBelow(r.1, |r.0|) && |r.1| % 3 == 0
      && Keeps(m, r.0) && t <= r.1
    ensures var ci := CellIndex(cell, threshold);
      var r := PolygonizeCell(m, t, cell, threshold, edgeTable, triTable, interpolate);
      WoundAs(r.0, r.1[|t|..], EdgeVertices(cell, edgeTable[ci], interpolate), triTable[ci], 0)
  {
    var ci := CellIndex(cell, threshold);
    EmitRowFacts(m, t, EdgeVertices(cell, edgeTable[ci], interpolate), triTable[ci]);
  }

  /** EmitTriangles over a whole row, its facts gathered. */
  lemma EmitRowFacts(m: map<Vec3, int>, t: seq<int>, vertexList: seq<Vec3>, row: seq<int>)
    requires |vertexList| == 12 && RowFrom(row, 0)
    requires DenseIndices(m) && IndicesBelow(t, |m|) && |t| % 3 == 0
    ensures var r := EmitTriangles(m, t, vertexList, row, 0);
      && DenseIndices(r.0) && IndicesBelow(r.1, |r.0|) && |r.1| % 3 == 0
      && Keeps(m, r.0) && t <= r.1
      && WoundAs(r.0, r.1[|t|..], vertexList, row, 0)
  {
    EmitTrianglesValid(m, t, vertexList, row, 0);
    EmitTrianglesKeeps(m, t, vertexList, row, 0);
    EmitTrianglesWound(m, t, vertexList, row, 0);
    WholeTriangles(t, EmitTriangles(m, t, vertexList, row, 0).1, TriangleCount(row, 0));
  }

  /** Appending n whole triangles to a list of whole triangles. */
  lemma WholeTriangles(t: seq<int>, t': seq<int>, n: nat)
    requires |t| % 3 == 0 && |t'| == |t| + 3 * n
    ensures |t'| % 3 == 0
  {
    assert |t'| == 3 * (|t| / 3 + n);
  }

  /** The vertex dictionary and triangle list the renderer builds a mesh from. */
  class MeshBuffers {
    var vertices: map<Vec3, int>
    var triangles: seq<int>

    /** Dense vertex indices, triangle entries naming vertices, whole triangles. */
    predicate Valid()
      reads this
    {
      DenseIndices(vertices) && IndicesBelow(triangles, |vertices|) && |triangles| % 3 == 0
    }

    constructor()
      ensures vertices == map[] && triangles == [] && Valid()
    {
      vertices := map[];
      triangles := [];
    }
  }

  /**
   * The three lookups of one table triple: each vertex's index, the vertex
   * added under the next index first when it is new.
   */
  method LookupTriangle(vertexList: seq<Vec3>, row: seq<int>, i: nat, buffers: MeshBuffers)
    returns (triangle: array<int>)
    requires |vertexList| == 12 && RowFrom(row, i) && row[i] != -1
    modifies buffers
    ensures fresh(triangle) && buffers.triangles == old(buffers.triangles)
    ensures buffers.vertices == AddVertices(old(buffers.vertices), TriangleCorners(vertexList, row, i)).0
    ensures triangle[..] == AddVertices(old(buffers.vertices), TriangleCorners(vertexList, row, i)).1
  {
    triangle := new int[3];
    ghost var corners := TriangleCorners(vertexList, row, i);
    for j := 0 to 3
      invariant buffers.triangles == old(buffers.triangles)
      invariant buffers.vertices == AddVertices(old(buffers.vertices), corners[..j]).0
      invariant triangle[..j] == AddVertices(old(buffers.vertices), corners[..j]).1
    {
      var vertex := vertexList[row[i + j]];
      assert vertex == corners[j];
      AddVerticesSnoc(old(buffers.vertices), corners, j);
      if vertex in buffers.vertices {
        triangle[j] := buffers.vertices[vertex];
      } else {
        triangle[j] := |buffers.vertices|;
        buffers.vertices := buffers.vertices[vertex := |buffers.vertices|];
      }
    }
    assert corners[..3] == corners;
    assert triangle[..] == triangle[..3];
  }

  /** The loop over a table row: one triangle per triple, up to the -1. */
  method EmitRow(vertexList: seq<Vec3>, row: seq<int>, buffers: MeshBuffers)
    requires |vertexList| == 12 && RowFrom(row, 0)
    modifies buffers
    ensures (buffers.vertices, buffers.triangles)
      == EmitTriangles(old(buffers.vertices), old(buffers.triangles), vertexList, row, 0)
  {
    var i := 0;
    while row[i] != -1
      invariant RowFrom(row, i)
      invariant EmitTriangles(buffers.vertices, buffers.triangles, vertexList, row, i)
        == EmitTriangles(old(buffers.vertices), old(buffers.triangles), vertexList, row, 0)
      decreases |row| - i
    {
      ghost var m0, t0 := buffers.vertices, buffers.triangles;
      var triangle := LookupTriangle(vertexList, row, i, buffers);
      ghost var added := AddVertices(m0, TriangleCorners(vertexList, row, i));
      buffers.triangles := buffers.triangles + [triangle[0]];
      buffers.triangles := buffers.triangles + [triangle[2]];
      buffers.triangles := buffers.triangles + [triangle[1]];
      assert buffers.triangles == t0 + [added.1[0], added.1[2], added.1[1]];
      i := i + 3;
    }
  }

  /**
   * One cell of marching cubes: the cube index from the corner values, the
   * edge vertices, then the cell's row of the triangle table emitted.
   */
  method Polygonize(cell: GridCell, threshold: real, edgeTable: seq<bv32>, triTable: seq<seq<int>>,
                    interpolate: (Vec3, Vec3, real, real) -> Vec3, buffers: MeshBuffers)
    requires EightCorners(cell) && ValidTables(edgeTable, triTable)
    modifies buffers
    ensures (buffers.vertices, buffers.triangles)
      == PolygonizeCell(old(buffers.vertices), old(buffers.triangles), cell, threshold, edgeTable, triTable, interpolate)
  {
    var cubeIndex := CubeIndex(cell.values, threshold);
    assert cubeIndex == CellIndex(cell, threshold);
    var vertexList := EdgeVertices(cell, edgeTable[cubeIndex], interpolate);
    EmitRow(vertexList, triTable[cubeIndex], buffers);
  }

  // ---------------------------------------------------------------------------
  // Marching over the grid

  /** The dictionary and the triangle list together. */
  type MeshState = (map<Vec3, int>, seq<int>)

  predicate ValidState(s: MeshState) {
    DenseIndices(s.0) && IndicesBelow(s.1, |s.0|) && |s.1| % 3 == 0
  }

  /** r extends s: every vertex of s kept under its index, the triangles of s a prefix of r's. */
  predicate Extends(s: MeshState, r: MeshState) {
    Keeps(s.0, r.0) && s.1 <= r.1
  }

  lemma ExtendsTransitive(s1: MeshState, s2: MeshState, s3: MeshState)
    requires Extends(s1, s2) && Extends(s2, s3)
    ensures Extends(s1, s3)
  {
    KeepsTransitive(s1.0, s2.0, s3.0);
  }

  /** The cells (x, y, z), (x, y, z + 1), ... of one column, each polygonized in turn. */
  function MarchZ(s: MeshState, grid: array3<GridPoint>, x: int, y: int, z: int, threshold: real,
                  edgeTable: seq<bv32>, triTable: seq<seq<int>>, interpolate: (Vec3, Vec3, real, real) -> Vec3)
    : MeshState
    requires 0 <= x && x + 1 < grid.Length0 && 0 <= y && y + 1 < grid.Length1 && 0 <= z
    requires ValidTables(edgeTable, triTable)
    reads grid
    decreases grid.Length2 - z
  {
    if z + 1 >= grid.Length2 then s
    else
      var next := PolygonizeCell(s.0, s.1, ConstructGridCell(grid, x, y, z), threshold, edgeTable, triTable, interpolate);
      MarchZ(next, grid, x, y, z + 1, threshold, edgeTable, triTable, interpolate)
  }

  /** The columns y, y + 1, ... of one slab. */
  function MarchY(s: MeshState, grid: array3<GridPoint>, x: int, y: int, threshold: real,
                  edgeTable: seq<bv32>, triTable: seq<seq<int>>, interpolate: (Vec3, Vec3, real, real) -> Vec3)
    : MeshState
    requires 0 <= x && x + 1 < grid.Length0 && 0 <= y
    requires ValidTables(edgeTable, triTable)
    reads grid
    decreases grid.Length1 - y
  {
    if y + 1 >= grid.Length1 then s
    else
      MarchY(MarchZ(s, grid, x, y, 0, threshold, edgeTable, triTable, interpolate),
             grid, x, y + 1, threshold, edgeTable, triTable, interpolate)
  }

  /** The slabs x, x + 1, ...: from x = 0, every cell of the grid in the order of MarchingCubes' loops. */
  function MarchX(s: MeshState, grid: array3<GridPoint>, x: int, threshold: real,
                  edgeTable: seq<bv32>, triTable: seq<seq<int>>, interpolate: (Vec3, Vec3, real, real) -> Vec3)
    : MeshState
    requires 0 <= x
    requires ValidTables(edgeTable, triTable)
    reads grid
    decreases grid.Length0 - x
  {
    if x + 1 >= grid.Length0 then s
    else
      MarchX(MarchY(s, grid, x, 0, threshold, edgeTable, triTable, interpolate),
             grid, x + 1, threshold, edgeTable, triTable, interpolate)
  }

  /** Polygonizing one cell keeps a valid state valid and extends it. */
  lemma PolygonizeCellExtends(s: MeshState, cell: GridCell, threshold: real,
                              edgeTable: seq<bv32>, triTable: seq<seq<int>>,
                              interpolate: (Vec3, Vec3, real, real) -> Vec3)
    requires EightCorners(cell) && ValidTables(edgeTable, triTable) && ValidState(s)
    ensures ValidState(PolygonizeCell(s.0, s.1, cell, threshold, edgeTable, triTable, interpolate))
    ensures Extends(s, PolygonizeCell(s.0, s.1, cell, threshold, edgeTable, triTable, interpolate))
  {
    PolygonizeCellFacts(s.0, s.1, cell, threshold, edgeTable, triTable, interpolate);
  }

  lemma {:induction false} MarchZExtends(s: MeshState, grid: array3<GridPoint>, x: int, y: int, z: int, threshold: real,
                                         edgeTable: seq<bv32>, triTable: seq<seq<int>>,
                                         interpolate: (Vec3, Vec3, real, real) -> Vec3)
    requires 0 <= x && x + 1 < grid.Length0 && 0 <= y && y + 1 < grid.Length1 && 0 <= z
    requires ValidTables(edgeTable, triTable) && ValidState(s)
    ensures ValidState(MarchZ(s, grid, x, y, z, threshold, edgeTable, triTable, interpolate))
    ensures Extends(s, MarchZ(s, grid, x, y, z, threshold, edgeTable, triTable, interpolate))
    decreases grid.Length2 - z
  {
    if z + 1 < grid.Length2 {
      var next := PolygonizeCell(s.0, s.1, ConstructGridCell(grid, x, y, z), threshold, edgeTable, triTable, interpolate);
      PolygonizeCellExtends(s, ConstructGridCell(grid, x, y, z), threshold, edgeTable, triTable, interpolate);
      MarchZExtends(next, grid, x, y, z + 1, threshold, edgeTable, triTable, interpolate);
      ExtendsTransitive(s, next, MarchZ(next, grid, x, y, z + 1, threshold, edgeTable, triTable, interpolate));
    }
  }

  lemma {:induction false} MarchYExtends(s: MeshState, grid: array3<GridPoint>, x: int, y: int, threshold: real,
                                         edgeTable: seq<bv32>, triTable: seq<seq<int>>,
                                         interpolate: (Vec3, Vec3, real, real) -> Vec3)
    requires 0 <= x && x + 1 < grid.Length0 && 0 <= y
    requires ValidTables(edgeTable, triTable) && ValidState(s)
    ensures ValidState(MarchY(s, grid, x, y, threshold, edgeTable, triTable, interpolate))
    ensures Extends(s, MarchY(s, grid, x, y, threshold, edgeTable, triTable, interpolate))
    decreases grid.Length1 - y
  {
    if y + 1 < grid.Length1 {
      var next := MarchZ(s, grid, x, y, 0, threshold, edgeTable, triTable, interpolate);
      MarchZExtends(s, grid, x, y, 0, threshold, edgeTable, triTable, interpolate);
      MarchYExtends(next, grid, x, y + 1, threshold, edgeTable, triTable, interpolate);
      ExtendsTransitive(s, next, MarchY(next, grid, x, y + 1, threshold, edgeTable, triTable, interpolate));
    }
  }

  /**
   * Marching over the whole grid keeps the dictionary dense, every triangle
   * index naming one of its vertices and the list made of whole triangles,
   * and only adds to what was there.
   */
  lemma {:induction false} MarchXExtends(s: MeshState, grid: array3<GridPoint>, x: int, threshold: real,
                                         edgeTable: seq<bv32>, triTable: seq<seq<int>>,
                                         interpolate: (Vec3, Vec3, real, real) -> Vec3)
    requires 0 <= x
    requires ValidTables(edgeTable, triTable) && ValidState(s)
    ensures ValidState(MarchX(s, grid, x, threshold, edgeTable, triTable, interpolate))
    ensures Extends(s, MarchX(s, grid, x, threshold, edgeTable, triTable, interpolate))
    decreases grid.Length0 - x
  {
    if x + 1 < grid.Length0 {
      var next := MarchY(s, grid, x, 0, threshold, edgeTable, triTable, interpolate);
      MarchYExtends(s, grid, x, 0, threshold, edgeTable, triTable, interpolate);
      MarchXExtends(next, grid, x + 1, threshold, edgeTable, triTable, interpolate);
      ExtendsTransitive(s, next, MarchX(next, grid, x + 1, threshold, edgeTable, triTable, interpolate));
    }
  }

  /**
   * Marching cubes: every cell of the grid, skipping the last grid point in
   * each direction, polygonized into the same dictionary and triangle list.
   */
  method MarchingCubes(grid: array3<GridPoint>, threshold: real, edgeTable: seq<bv32>, triTable: seq<seq<int>>,
                       interpolate: (Vec3, Vec3, real, real) -> Vec3, buffers: MeshBuffers)
    requires ValidTables(edgeTable, triTable)
    modifies buffers
    ensures (buffers.vertices, buffers.triangles)
      == MarchX((old(buffers.vertices), old(buffers.triangles)), grid, 0, threshold, edgeTable, triTable, interpolate)
  {
    ghost var goal := MarchX((buffers.vertices, buffers.triangles), grid, 0, threshold, edgeTable, triTable, interpolate);
    var i := 0;
    while i < grid.Length0 - 1
      invariant 0 <= i
      invariant MarchX((buffers.vertices, buffers.triangles), grid, i, threshold, edgeTable, triTable, interpolate) == goal
      decreases grid.Length0 - i
    {
      var j := 0;
      while j < grid.Length1 - 1
        invariant 0 <= j
        invariant MarchX(MarchY((buffers.vertices, buffers.triangles), grid, i, j, threshold, edgeTable, triTable, interpolate),
                         grid, i + 1, threshold, edgeTable, triTable, interpolate) == goal
        decreases grid.Length1 - j
      {
        var k := 0;
        while k < grid.Length2 - 1
          invariant 0 <= k
          invariant MarchX(MarchY(MarchZ((buffers.vertices, buffers.triangles), grid, i, j, k, threshold, edgeTable, triTable, interpolate),
                                  grid, i, j + 1, threshold, edgeTable, triTable, interpolate),
                           grid, i + 1, threshold, edgeTable, triTable, interpolate) == goal
          decreases grid.Length2 - k
        {
          Polygonize(ConstructGridCell(grid, i, j, k), threshold, edgeTable, triTable, interpolate, buffers);
          k := k + 1;
        }
        j := j + 1;
      }
      i := i + 1;
    }
  }

  // ---------------------------------------------------------------------------
  // Ordering the vertices by index

  /** The indices 0 .. n - 1. */
  function IndexRange(n: nat): (r: set<int>)
    ensures forall i :: i in r <==> 0 <= i < n
    ensures |r| == n
  {
    if n == 0 then {} else IndexRange(n - 1) + {n - 1}
  }

  /** An injective dictionary has as many distinct indices as vertices. */
  lemma {:induction false} InjectiveValuesCount(m: map<Vec3, int>)
    requires forall v, w :: v in m && w in m && v != w ==> m[v] != m[w]
    ensures |m.Values| == |m|
    decreases |m|
  {
    if |m| > 0 {
      var k :| k in m;
      var m' := m - {k};
      forall x ensures x in m'.Values <==> x in m.Values - {m[k]} {
        if x in m'.Values {
          var w :| w in m' && m'[w] == x;
          assert w in m && m[w] == x;
        }
        if x in m.Values - {m[k]} {
          var w :| w in m && m[w] == x;
          assert w in m';
        }
      }
      assert m'.Values == m.Values - {m[k]};
      InjectiveValuesCount(m');
    }
  }

  lemma SubsetOfSameSize(a: set<int>, b: set<int>)
    requires a <= b && |a| == |b|
    ensures a == b
  {
    assert a * b == a;
    assert |b - a| == 0;
  }

  /** A dense dictionary's indices are exactly 0 .. Count - 1. */
  lemma DenseIndicesAreRange(m: map<Vec3, int>)
    requires DenseIndices(m)
    ensures m.Values == IndexRange(|m|)
  {
    InjectiveValuesCount(m);
    SubsetOfSameSize(m.Values, IndexRange(|m|));
  }

  /** The vertex a dense dictionary holds under index i. */
  ghost function KeyOf(m: map<Vec3, int>, i: int): (v: Vec3)
    requires DenseIndices(m) && 0 <= i < |m|
    ensures v in m && m[v] == i
  {
    DenseIndicesAreRange(m);
    assert i in m.Values;
    var v :| v in m && m[v] == i; v
  }

  /**
   * What sorting the dictionary's entries by index yields: every entry once,
   * in non-decreasing index order.
   */
  predicate SortedEntries(p: seq<(Vec3, int)>, m: map<Vec3, int>) {
    && |p| == |m|
    && (forall i :: 0 <= i < |p| ==> p[i].0 in m && m[p[i].0] == p[i].1)
    && (forall i, j :: 0 <= i < j < |p| ==> p[i].0 != p[j].0)
    && (forall i, j :: 0 <= i < j < |p| ==> p[i].1 <= p[j].1)
  }

  /** A dense dictionary has a sorted list of entries: its vertices by index. */
  lemma SortedEntriesExist(m: map<Vec3, int>)
    requires DenseIndices(m)
    ensures exists p :: SortedEntries(p, m)
  {
    var p := seq(|m|, i requires 0 <= i < |m| => (KeyOf(m, i), i));
    assert SortedEntries(p, m);
  }

  lemma {:induction false} IncreasingAtLeast(s: seq<int>, i: nat)
    requires forall a :: 0 <= a < |s| ==> 0 <= s[a]
    requires forall a :: 0 < a < |s| ==> s[a - 1] < s[a]
    requires i < |s|
    ensures i <= s[i]
  {
    if i > 0 {
      IncreasingAtLeast(s, i - 1);
    }
  }

  lemma {:induction false} IncreasingAtMost(s: seq<int>, i: nat)
    requires forall a :: 0 <= a < |s| ==> s[a] < |s|
    requires forall a :: 0 < a < |s| ==> s[a - 1] < s[a]
    requires i < |s|
    ensures s[i] <= i
    decreases |s| - i
  {
    if i + 1 < |s| {
      IncreasingAtMost(s, i + 1);
    }
  }

  /** Sorted entries of a dense dictionary: entry i has index i. */
  lemma SortedEntriesIndexed(m: map<Vec3, int>, p: seq<(Vec3, int)>)
    requires DenseIndices(m) && SortedEntries(p, m)
    ensures forall i :: 0 <= i < |p| ==> p[i].1 == i
  {
    var s := seq(|p|, i requires 0 <= i < |p| => p[i].1);
    forall a | 0 < a < |s|
      ensures s[a - 1] < s[a]
    {
      assert p[a - 1].0 != p[a].0;
    }
    forall i | 0 <= i < |p|
      ensures p[i].1 == i
    {
      IncreasingAtLeast(s, i);
      IncreasingAtMost(s, i);
    }
  }

  /**
   * The vertex array of the mesh: the dictionary's entries sorted by index,
   * their vertices copied out in that order, so that slot i holds the vertex
   * with index i.
   */
  method OrderVertices(vertices: map<Vec3, int>) returns (orderedVertices: array<Vec3>)
    requires DenseIndices(vertices)
    ensures fresh(orderedVertices) && orderedVertices.Length == |vertices|
    ensures forall v :: v in vertices ==> orderedVertices[vertices[v]] == v
    ensures forall i :: 0 <= i < orderedVertices.Length ==>
      orderedVertices[i] in vertices && vertices[orderedVertices[i]] == i
  {
    SortedEntriesExist(vertices);
    var vertexIndexPairs: seq<(Vec3, int)> :| SortedEntries(vertexIndexPairs, vertices);
    SortedEntriesIndexed(vertices, vertexIndexPairs);
    orderedVertices := new Vec3[|vertexIndexPairs|];
    for i := 0 to orderedVertices.Length
      invariant forall q :: 0 <= q < i ==> orderedVertices[q] == vertexIndexPairs[q].0
    {
      orderedVertices[i] := vertexIndexPairs[i].0;
    }
    forall v | v in vertices
      ensures orderedVertices[vertices[v]] == v
    {
      var i := vertices[v];
      assert vertices[vertexIndexPairs[i].0] == i;
    }
  }

  // ---------------------------------------------------------------------------
  // Rendering the mesh

  /**
   * The rendering half of Update: a fresh dictionary and triangle list,
   * marching cubes over the grid, then the vertices ordered by index. Every
   * triangle entry names a slot of the vertex array and the list holds whole
   * triangles.
   */
  method RenderMesh(grid: array3<GridPoint>, threshold: real, edgeTable: seq<bv32>, triTable: seq<seq<int>>,
                    interpolate: (Vec3, Vec3, real, real) -> Vec3)
    returns (orderedVertices: array<Vec3>, triangles: seq<int>)
    requires ValidTables(edgeTable, triTable)
    ensures fresh(orderedVertices)
    ensures var r := MarchX((map[], []), grid, 0, threshold, edgeTable, triTable, interpolate);
      && ValidState(r) && triangles == r.1 && orderedVertices.Length == |r.0|
      && (forall v :: v in r.0 ==> orderedVertices[r.0[v]] == v)
    ensures |triangles| % 3 == 0
    ensures forall i :: 0 <= i < |triangles| ==> 0 <= triangles[i] < orderedVertices.Length
  {
    var buffers := new MeshBuffers();
    MarchingCubes(grid, threshold, edgeTable, triTable, interpolate, buffers);
    MarchXExtends((map[], []), grid, 0, threshold, edgeTable, triTable, interpolate);
    orderedVertices := OrderVertices(buffers.vertices);
    triangles := buffers.triangles;
  }

  // ---------------------------------------------------------------------------
  // The bounding box around the balls

  /** One of the three axes, to state the per-axis facts once. */
  datatype Axis = X | Y | Z

  function Coord(p: Vec3, a: Axis): real {
    match a
    case X => p.x
    case Y => p.y
    case Z => p.z
  }

  /**
   * The running minimum of the bounds scan over ps: on each axis a candidate
   * at or below the current minimum replaces it. The scan starts from
   * positive infinity, so the first candidate always replaces it.
   */
  function Lowest(ps: seq<Vec3>): Vec3
    requires 1 <= |ps|
  {
    if |ps| == 1 then ps[0] else MinVec(ps[|ps| - 1], Lowest(ps[..|ps| - 1]))
  }

  /** The running maximum: a candidate at or above the current maximum replaces it. */
  function Highest(ps: seq<Vec3>): Vec3
    requires 1 <= |ps|
  {
    if |ps| == 1 then ps[0] else MaxVec(ps[|ps| - 1], Highest(ps[..|ps| - 1]))
  }

  /** The running minimum is at or below every candidate, on every axis. */
  lemma {:induction false} LowestBelow(ps: seq<Vec3>, i: int, a: Axis)
    requires 0 <= i < |ps|
    ensures Coord(Lowest(ps), a) <= Coord(ps[i], a)
    decreases |ps|
  {
    if i < |ps| - 1 {
      LowestBelow(ps[..|ps| - 1], i, a);
    }
  }

  /** The running maximum is at or above every candidate, on every axis. */
  lemma {:induction false} HighestAbove(ps: seq<Vec3>, i: int, a: Axis)
    requires 0 <= i < |ps|
    ensures Coord(ps[i], a) <= Coord(Highest(ps), a)
    decreases |ps|
  {
    if i < |ps| - 1 {
      HighestAbove(ps[..|ps| - 1], i, a);
    }
  }

  /** On every axis the running minimum is some candidate's coordinate. */
  lemma {:induction false} LowestAttained(ps: seq<Vec3>, a: Axis)
    requires 1 <= |ps|
    ensures exists i :: 0 <= i < |ps| && Coord(Lowest(ps), a) == Coord(ps[i], a)
    decreases |ps|
  {
    if |ps| == 1 {
      assert Coord(Lowest(ps), a) == Coord(ps[0], a);
    } else if Coord(ps[|ps| - 1], a) <= Coord(Lowest(ps[..|ps| - 1]), a) {
      assert Coord(Lowest(ps), a) == Coord(ps[|ps| - 1], a);
    } else {
      var prefix := ps[..|ps| - 1];
      LowestAttained(prefix, a);
      var i :| 0 <= i < |prefix| && Coord(Lowest(prefix), a) == Coord(prefix[i], a);
      assert Coord(Lowest(ps), a) == Coord(ps[i], a);
    }
  }

  /** On every axis the running maximum is some candidate's coordinate. */
  lemma {:induction false} HighestAttained(ps: seq<Vec3>, a: Axis)
    requires 1 <= |ps|
    ensures exists i :: 0 <= i < |ps| && Coord(Highest(ps), a) == Coord(ps[i], a)
    decreases |ps|
  {
    if |ps| == 1 {
      assert Coord(Highest(ps), a) == Coord(ps[0], a);
    } else if Coord(ps[|ps| - 1], a) >= Coord(Highest(ps[..|ps| - 1]), a) {
      assert Coord(Highest(ps), a) == Coord(ps[|ps| - 1], a);
    } else {
      var prefix := ps[..|ps| - 1];
      HighestAttained(prefix, a);
      var i :| 0 <= i < |prefix| && Coord(Highest(prefix), a) == Coord(prefix[i], a);
      assert Coord(Highest(ps), a) == Coord(ps[i], a);
    }
  }

  /** With at least one candidate, the running minimum is at or below the running maximum on every axis. */
  lemma LowestBelowHighest(ps: seq<Vec3>, a: Axis)
    requires 1 <= |ps|
    ensures Coord(Lowest(ps), a) <= Coord(Highest(ps), a)
  {
    LowestBelow(ps, 0, a);
    HighestAbove(ps, 0, a);
  }

  /** Every axis of p at or below the same axis of q. */
  predicate AtMost(p: Vec3, q: Vec3) {
    p.x <= q.x && p.y <= q.y && p.z <= q.z
  }

  /**
   * The box UpdateBounds builds from a minimum and maximum padded by
   * offset: a zero-size box at their midpoint, grown to take in both.
   */
  function PaddedBounds(lo: Vec3, hi: Vec3, offset: Vec3): Box {
    var low := Sub(lo, offset);
    var high := Add(hi, offset);
    Encapsulate(Encapsulate(BoxOf(Lerp(low, high, 0.5), Zero), low), high)
  }

  /** When the padded minimum is at or below the padded maximum, the box spans exactly from one to the other. */
  lemma PaddedBoundsSpan(lo: Vec3, hi: Vec3, offset: Vec3)
    requires AtMost(Sub(lo, offset), Add(hi, offset))
    ensures PaddedBounds(lo, hi, offset).Min() == Sub(lo, offset)
    ensures PaddedBounds(lo, hi, offset).Max() == Add(hi, offset)
  {
    var low := Sub(lo, offset);
    var high := Add(hi, offset);
    var middle := Lerp(low, high, 0.5);
    MidpointBetween(low, high);
    ZeroSizeBox(middle);
    GrowFromPoint(BoxOf(middle, Zero), middle, low, high);
  }

  /** A point box between low and high, grown to take in low and then high, spans from low to high. */
  lemma GrowFromPoint(start: Box, middle: Vec3, low: Vec3, high: Vec3)
    requires start.Min() == middle && start.Max() == middle
    requires AtMost(low, middle) && AtMost(middle, high)
    ensures Encapsulate(Encapsulate(start, low), high).Min() == low
    ensures Encapsulate(Encapsulate(start, low), high).Max() == high
  {
    EncapsulateBelow(start, low);
    EncapsulateAbove(Encapsulate(start, low), high);
  }

  /** A box of size zero has its minimum and maximum at its centre. */
  lemma ZeroSizeBox(center: Vec3)
    ensures BoxOf(center, Zero).Min() == center && BoxOf(center, Zero).Max() == center
  {
    assert BoxOf(center, Zero) == Box(center, Zero);
  }

  /** Lerp at one half lies between its two ends. */
  lemma MidpointBetween(low: Vec3, high: Vec3)
    requires AtMost(low, high)
    ensures AtMost(low, Lerp(low, high, 0.5)) && AtMost(Lerp(low, high, 0.5), high)
  {
    assert Clamp01(0.5) == 0.5;
  }

  /** Taking in a point below the box moves only its minimum, to the point. */
  lemma EncapsulateBelow(b: Box, p: Vec3)
    requires AtMost(p, b.Min()) && AtMost(b.Min(), b.Max())
    ensures Encapsulate(b, p).Min() == p && Encapsulate(b, p).Max() == b.Max()
  {
  }

  /** Taking in a point above the box moves only its maximum, to the point. */
  lemma EncapsulateAbove(b: Box, p: Vec3)
    requires AtMost(b.Max(), p) && AtMost(b.Min(), b.Max())
    ensures Encapsulate(b, p).Min() == b.Min() && Encapsulate(b, p).Max() == p
  {
  }

  /** The box of the as-written scan over every ball but the first. */
  function SkipFirstBounds(positions: seq<Vec3>, offset: Vec3): Box
    requires 2 <= |positions|
  {
    PaddedBounds(Lowest(positions[1..]), Highest(positions[1..]), offset)
  }

  /**
   * With a padding of at least zero, the as-written box contains every ball
   * from the second on, and its corners are the scan's extremes padded by
   * the offset.
   */
  lemma SkipFirstBoundsContains(positions: seq<Vec3>, offset: Vec3)
    requires 2 <= |positions| && AtMost(Zero, offset)
    ensures SkipFirstBounds(positions, offset).Min() == Sub(Lowest(positions[1..]), offset)
    ensures SkipFirstBounds(positions, offset).Max() == Add(Highest(positions[1..]), offset)
    ensures forall i :: 1 <= i < |positions| ==> SkipFirstBounds(positions, offset).Contains(positions[i])
  {
    BoundsContainAll(positions[1..], offset);
    forall i | 1 <= i < |positions|
      ensures SkipFirstBounds(positions, offset).Contains(positions[i])
    {
      assert positions[i] == positions[1..][i - 1];
    }
  }

  /** The box of the scan over all of ps, padded by offset, contains every point of ps. */
  lemma BoundsContainAll(ps: seq<Vec3>, offset: Vec3)
    requires 1 <= |ps| && AtMost(Zero, offset)
    ensures PaddedBounds(Lowest(ps), Highest(ps), offset).Min() == Sub(Lowest(ps), offset)
    ensures PaddedBounds(Lowest(ps), Highest(ps), offset).Max() == Add(Highest(ps), offset)
    ensures forall i :: 0 <= i < |ps| ==> PaddedBounds(Lowest(ps), Highest(ps), offset).Contains(ps[i])
  {
    LowestBelowHighest(ps, X);
    LowestBelowHighest(ps, Y);
    LowestBelowHighest(ps, Z);
    PaddedBoundsSpan(Lowest(ps), Highest(ps), offset);
    forall i | 0 <= i < |ps|
      ensures PaddedBounds(Lowest(ps), Highest(ps), offset).Contains(ps[i])
    {
      LowestBelow(ps, i, X);
      LowestBelow(ps, i, Y);
      LowestBelow(ps, i, Z);
      HighestAbove(ps, i, X);
      HighestAbove(ps, i, Y);
      HighestAbove(ps, i, Z);
    }
  }

  /**
   * The scan starts at index 1, so the first ball can fall outside the box:
   * balls at (5, 5, 5), (0, 0, 0) and (1, 1, 1) with no padding give the box
   * from (0, 0, 0) to (1, 1, 1).
   */
  lemma FirstBallLeftOut()
    ensures var positions := [Vec3(5.0, 5.0, 5.0), Zero, Vec3(1.0, 1.0, 1.0)];
      !SkipFirstBounds(positions, Zero).Contains(positions[0])
  {
    var positions := [Vec3(5.0, 5.0, 5.0), Zero, Vec3(1.0, 1.0, 1.0)];
    var rest := positions[1..];
    assert rest == [Zero, Vec3(1.0, 1.0, 1.0)];
    assert rest[..1] == [Zero];
    assert Lowest(rest) == Zero;
    assert Highest(rest) == Vec3(1.0, 1.0, 1.0);
    PaddedBoundsSpan(Lowest(rest), Highest(rest), Zero);
  }

  /** The box the scan is evidently meant to give: over every ball, from the first on. */
  function AllBallsBounds(positions: seq<Vec3>, offset: Vec3): (b: Box)
    requires 1 <= |positions| && AtMost(Zero, offset)
    ensures forall i :: 0 <= i < |positions| ==> b.Contains(positions[i])
    ensures b.Min() == Sub(Lowest(positions), offset) && b.Max() == Add(Highest(positions), offset)
  {
    BoundsContainAll(positions, offset);
    PaddedBounds(Lowest(positions), Highest(positions), offset)
  }

  /** The renderer's own state: its settings and the box the grid is laid over. */
  class MetaballRenderer {
    const threshold: real
    const boundsOffset: Vec3
    var boundingBox: Box

    /** Awake: a placeholder box at the object's position, as large as its scale. */
    constructor(threshold: real, boundsOffset: Vec3, position: Vec3, localScale: Vec3)
      ensures this.threshold == threshold && this.boundsOffset == boundsOffset
      ensures boundingBox == BoxOf(position, localScale)
    {
      this.threshold := threshold;
      this.boundsOffset := boundsOffset;
      boundingBox := BoxOf(position, localScale);
    }

    /**
     * UpdateBounds: the per-axis minimum and maximum of the ball positions
     * from index 1 on, padded by boundsOffset, made into a box.
     */
    method UpdateBounds(positions: seq<Vec3>)
      requires 2 <= |positions|
      modifies this
      ensures boundingBox == SkipFirstBounds(positions, boundsOffset)
    {
      var currentMin, currentMax := ScanExtremes(positions);
      boundingBox := PaddedBounds(currentMin, currentMax, boundsOffset);
    }
  }

  /** The loop of UpdateBounds: the running minimum and maximum over the balls from index 1 on. */
  method ScanExtremes(positions: seq<Vec3>) returns (currentMin: Vec3, currentMax: Vec3)
    requires 2 <= |positions|
    ensures currentMin == Lowest(positions[1..]) && currentMax == Highest(positions[1..])
  {
    currentMin := positions[1];
    currentMax := positions[1];
    for i := 2 to |positions|
      invariant currentMin == Lowest(positions[1..i]) && currentMax == Highest(positions[1..i])
    {
      assert positions[1..i + 1][..i - 1] == positions[1..i];
      currentMin, currentMax := ScanCandidate(currentMin, currentMax, positions[i]);
    }
    assert positions[1..|positions|] == positions[1..];
  }

  /** The body of the bounds scan: each axis of the candidate at or beyond the running extreme replaces it. */
  method ScanCandidate(currentMin: Vec3, currentMax: Vec3, candidate: Vec3) returns (newMin: Vec3, newMax: Vec3)
    ensures newMin == MinVec(candidate, currentMin) && newMax == MaxVec(candidate, currentMax)
  {
    newMin, newMax := currentMin, currentMax;
    if candidate.x <= newMin.x { newMin := newMin.(x := candidate.x); }
    if candidate.y <= newMin.y { newMin := newMin.(y := candidate.y); }
    if candidate.z <= newMin.z { newMin := newMin.(z := candidate.z); }
    if candidate.x >= newMax.x { newMax := newMax.(x := candidate.x); }
    if candidate.y >= newMax.y { newMax := newMax.(y := candidate.y); }
    if candidate.z >= newMax.z { newMax := newMax.(z := candidate.z); }
  }
}
