/**
 * The 3-D uniform grid of scalar values: constructor validation, the flat
 * storage array addressed as i + nx * j + nx * ny * k, and the grid's bounds.
 */
module Grid3D {
  import opened Geometry
  import opened Wrappers

  /** The flat position of grid point (i, j, k) in an nx-by-ny-by-nz grid. */
  function FlatIndex(nx: int, ny: int, i: int, j: int, k: int): int {
    i + nx * j + nx * ny * k
  }

  /** The constructor's two checks, in its order: the corners first, then the point counts. */
  function ConstructorError(minPoint: Vec3, maxPoint: Vec3, nx: int, ny: int, nz: int): (e: Option<string>)
    ensures e.None? <==>
      && minPoint.x <= maxPoint.x && minPoint.y <= maxPoint.y && minPoint.z <= maxPoint.z
      && 0 <= nx && 0 <= ny && 0 <= nz
    ensures (maxPoint.x < minPoint.x || maxPoint.y < minPoint.y || maxPoint.z < minPoint.z) ==>
      e == Some("minimum point greater than maximum point")
  {
    if maxPoint.x < minPoint.x || maxPoint.y < minPoint.y || maxPoint.z < minPoint.z then
      Some("minimum point greater than maximum point")
    else if nx < 0 || ny < 0 || nz < 0 then
      Some("number of points below 0")
    else None
  }

  /** new Bounds(min + (max - min) / 2, max - min): exactly the box from min to max. */
  function GridBounds(minPoint: Vec3, maxPoint: Vec3): (b: Box)
    ensures b.Min() == minPoint && b.Max() == maxPoint
  {
    BoxOf(Add(minPoint, Scale(0.5, Sub(maxPoint, minPoint))),
          Vec3(maxPoint.x - minPoint.x, maxPoint.y - minPoint.y, maxPoint.z - minPoint.z))
  }

  lemma ProductBelow(a: int, b: int, n: int)
    requires 0 <= a < n && 0 <= b
    ensures b * a + b <= b * n
  {
    assert b * (a + 1) <= b * n;
  }

  /** Every in-range point has a flat index inside the storage. */
  lemma {:induction false} FlatIndexInRange(nx: int, ny: int, nz: int, i: int, j: int, k: int)
    requires 0 <= i < nx && 0 <= j < ny && 0 <= k < nz
    ensures 0 <= FlatIndex(nx, ny, i, j, k) < nx * ny * nz
  {
    ProductBelow(j, nx, ny);
    assert 0 <= i + nx * j < nx * ny;
    ProductBelow(k, nx * ny, nz);
    assert nx * ny * k == (nx * ny) * k;
    assert nx * ny * nz == (nx * ny) * nz;
    assert 0 <= nx * j;
    assert 0 <= (nx * ny) * k;
  }

  /** A number written as r + m * q with 0 <= r < m has only one such form. */
  lemma QuotientUnique(m: int, r: int, q: int, r': int, q': int)
    requires 0 <= r < m && 0 <= r' < m && r + m * q == r' + m * q'
    ensures q == q' && r == r'
  {
    var d := q' - q;
    Distribute(m, q, q');
    assert r - r' == m * d;
    if d >= 1 {
      MulAtLeast(m, d);
      assert false;
    } else if d <= -1 {
      MulAtLeast(m, -d);
      assert false;
    }
  }

  lemma Distribute(m: int, q: int, q': int)
    ensures m * q' - m * q == m * (q' - q)
  {
  }

  lemma MulAtLeast(m: int, d: int)
    requires 0 < m && 1 <= d
    ensures m <= m * d
  {
    assert m * d == m * (d - 1) + m;
    assert 0 <= m * (d - 1);
  }

  /** The part of a flat index below one layer: i + nx * j lies in [0, nx * ny). */
  lemma LayerOffsetInRange(nx: int, ny: int, i: int, j: int)
    requires 0 <= i < nx && 0 <= j < ny
    ensures 0 <= i + nx * j < nx * ny
  {
    ProductBelow(j, nx, ny);
    assert 0 <= nx * j;
  }

  /** Distinct in-range points have distinct flat indices. */
  lemma {:induction false} FlatIndexInjective(nx: int, ny: int, nz: int, i: int, j: int, k: int, i': int, j': int, k': int)
    requires 0 <= i < nx && 0 <= j < ny && 0 <= k < nz
    requires 0 <= i' < nx && 0 <= j' < ny && 0 <= k' < nz
    requires FlatIndex(nx, ny, i, j, k) == FlatIndex(nx, ny, i', j', k')
    ensures i == i' && j == j' && k == k'
  {
    LayerOffsetInRange(nx, ny, i, j);
    LayerOffsetInRange(nx, ny, i', j');
    QuotientUnique(nx * ny, i + nx * j, k, i' + nx * j', k');
    QuotientUnique(nx, i, j, i', j');
  }

  lemma OtherPointOtherIndex(nx: int, ny: int, nz: int, i: int, j: int, k: int, i': int, j': int, k': int)
    requires 0 <= i < nx && 0 <= j < ny && 0 <= k < nz
    requires 0 <= i' < nx && 0 <= j' < ny && 0 <= k' < nz && (i', j', k') != (i, j, k)
    ensures 0 <= FlatIndex(nx, ny, i', j', k') < nx * ny * nz
    ensures FlatIndex(nx, ny, i', j', k') != FlatIndex(nx, ny, i, j, k)
  {
    FlatIndexInRange(nx, ny, nz, i', j', k');
    if FlatIndex(nx, ny, i', j', k') == FlatIndex(nx, ny, i, j, k) {
      FlatIndexInjective(nx, ny, nz, i, j, k, i', j', k');
    }
  }

  /** Storing at one point's flat index leaves every other in-range point's cell as it was. */
  lemma StoreKeepsOtherPoints(cells: seq<real>, cells': seq<real>, nx: int, ny: int, nz: int,
                              i: int, j: int, k: int, value: real)
    requires 0 <= i < nx && 0 <= j < ny && 0 <= k < nz && |cells| == nx * ny * nz
    requires 0 <= FlatIndex(nx, ny, i, j, k) < |cells| && cells' == cells[FlatIndex(nx, ny, i, j, k) := value]
    ensures forall i', j', k' ::
      (0 <= i' < nx && 0 <= j' < ny && 0 <= k' < nz && (i', j', k') != (i, j, k)) ==>
      0 <= FlatIndex(nx, ny, i', j', k') < |cells| && cells'[FlatIndex(nx, ny, i', j', k')] == cells[FlatIndex(nx, ny, i', j', k')]
  {
    forall i', j', k' | 0 <= i' < nx && 0 <= j' < ny && 0 <= k' < nz && (i', j', k') != (i, j, k)
      ensures 0 <= FlatIndex(nx, ny, i', j', k') < |cells|
      ensures cells'[FlatIndex(nx, ny, i', j', k')] == cells[FlatIndex(nx, ny, i', j', k')]
    {
      OtherPointOtherIndex(nx, ny, nz, i, j, k, i', j', k');
    }
  }

  /**
   * The indexer checks only the flat index, not each axis: one step past the
   * end of a row lands on the first point of the next row.
   */
  lemma RowOverrunAliases(nx: int, ny: int, j: int, k: int)
    ensures FlatIndex(nx, ny, nx, j, k) == FlatIndex(nx, ny, 0, j + 1, k)
  {
  }

  class UniformGrid {
    const bounds: Box
    const numPointsX: int
    const numPointsY: int
    const numPointsZ: int
    const minPoint: Vec3
    const maxPoint: Vec3
    const grid: array<real>

    /** Valid arguments and storage of one value per grid point. */
    predicate Valid() {
      && ConstructorError(minPoint, maxPoint, numPointsX, numPointsY, numPointsZ).None?
      && grid.Length == numPointsX * numPointsY * numPointsZ
    }

    /** The constructor past its checks: every value starts at 0. */
    constructor(minPoint: Vec3, maxPoint: Vec3, numPointsX: int, numPointsY: int, numPointsZ: int)
      requires ConstructorError(minPoint, maxPoint, numPointsX, numPointsY, numPointsZ).None?
      ensures Valid() && fresh(grid)
      ensures this.minPoint == minPoint && this.maxPoint == maxPoint
      ensures this.numPointsX == numPointsX && this.numPointsY == numPointsY && this.numPointsZ == numPointsZ
      ensures bounds == GridBounds(minPoint, maxPoint)
      ensures forall n :: 0 <= n < grid.Length ==> grid[n] == 0.0
    {
      this.minPoint := minPoint;
      this.maxPoint := maxPoint;
      this.numPointsX := numPointsX;
      this.numPointsY := numPointsY;
      this.numPointsZ := numPointsZ;
      assert 0 <= numPointsX * numPointsY;
      assert 0 <= numPointsX * numPointsY * numPointsZ;
      grid := new real[numPointsX * numPointsY * numPointsZ](_ => 0.0);
      bounds := GridBounds(minPoint, maxPoint);
    }

    /** new UniformGrid(...): the grid, or the message of the exception the constructor throws. */
    static method Create(minPoint: Vec3, maxPoint: Vec3, numPointsX: int, numPointsY: int, numPointsZ: int)
      returns (r: Result<UniformGrid, string>)
      ensures r.Failure? <==> ConstructorError(minPoint, maxPoint, numPointsX, numPointsY, numPointsZ).Some?
      ensures r.Failure? ==> r.error == ConstructorError(minPoint, maxPoint, numPointsX, numPointsY, numPointsZ).value
      ensures r.Success? ==>
        && fresh(r.value.grid) && r.value.Valid() && r.value.minPoint == minPoint
        && r.value.maxPoint == maxPoint && r.value.numPointsX == numPointsX
        && r.value.numPointsY == numPointsY && r.value.numPointsZ == numPointsZ
        && r.value.bounds == GridBounds(minPoint, maxPoint)
        && (forall n :: 0 <= n < r.value.grid.Length ==> r.value.grid[n] == 0.0)
    {
      var e := ConstructorError(minPoint, maxPoint, numPointsX, numPointsY, numPointsZ);
      if e.Some? {
        return Failure(e.value);
      }
      var g := new UniformGrid(minPoint, maxPoint, numPointsX, numPointsY, numPointsZ);
      return Success(g);
    }

    /** The indexer's get. */
    function Get(i: int, j: int, k: int): real
      requires 0 <= FlatIndex(numPointsX, numPointsY, i, j, k) < grid.Length
      reads grid
    {
      grid[FlatIndex(numPointsX, numPointsY, i, j, k)]
    }

    /**
     * The indexer's set. A flat index outside the storage throws
     * IndexOutOfRangeException (`outOfRange`) and stores nothing. Otherwise
     * the point reads back the value, and every other in-range point of a
     * valid grid reads what it did before (its flat index is in the storage,
     * by FlatIndexInRange).
     */
    method Set(i: int, j: int, k: int, value: real) returns (outOfRange: bool)
      modifies grid
      ensures outOfRange <==> !(0 <= FlatIndex(numPointsX, numPointsY, i, j, k) < grid.Length)
      ensures outOfRange ==> grid[..] == old(grid[..])
      ensures !outOfRange ==> Get(i, j, k) == value
      ensures !outOfRange ==> grid[..] == old(grid[..])[FlatIndex(numPointsX, numPointsY, i, j, k) := value]
      ensures Valid() && 0 <= i < numPointsX && 0 <= j < numPointsY && 0 <= k < numPointsZ ==>
        forall i', j', k' ::
          (&& 0 <= i' < numPointsX && 0 <= j' < numPointsY && 0 <= k' < numPointsZ && (i', j', k') != (i, j, k)
           && 0 <= FlatIndex(numPointsX, numPointsY, i', j', k') < grid.Length)
          ==> Get(i', j', k') == old(Get(i', j', k'))
    {
      var n := FlatIndex(numPointsX, numPointsY, i, j, k);
      if !(0 <= n < grid.Length) {
        return true;
      }
      ghost var before := grid[..];
      grid[n] := value;
      if Valid() && 0 <= i < numPointsX && 0 <= j < numPointsY && 0 <= k < numPointsZ {
        StoreKeepsOtherPoints(before, grid[..], numPointsX, numPointsY, numPointsZ, i, j, k, value);
      }
      return false;
    }
  }
}
