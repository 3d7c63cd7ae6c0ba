/**
 * The two 2-D uniform grids (one of floats, one of 2-D vectors), which
 * differ only in their cell type: one generic class here. C#'s default cell
 * value, default(T), is the constructor argument `blank`.
 */
module Grid2D {
  import opened Geometry
  import opened Wrappers

  /** The constructor's two checks, in its order: the corners first, then the point counts. */
  function ConstructorError(minPoint: Vec2, maxPoint: Vec2, numPointsX: int, numPointsY: int): (e: Option<string>)
    ensures e.None? <==> minPoint.x <= maxPoint.x && minPoint.y <= maxPoint.y && 2 <= numPointsX && 2 <= numPointsY
    ensures (maxPoint.x < minPoint.x || maxPoint.y < minPoint.y) ==>
      e == Some("minimum point greater than maximum point")
  {
    if maxPoint.x < minPoint.x || maxPoint.y < minPoint.y then Some("minimum point greater than maximum point")
    else if numPointsX < 2 || numPointsY < 2 then Some("number of grid points below 2")
    else None
  }

  /** The spacing between neighbouring grid points along one axis. */
  function Spacing(lo: real, hi: real, numPoints: int): (length: real)
    requires 2 <= numPoints
    ensures lo <= hi ==> 0.0 <= length
    ensures (numPoints - 1) as real * length == hi - lo
  {
    (hi - lo) / (numPoints - 1) as real
  }

  lemma ScaleMonotone(a: real, b: real, s: real)
    requires a <= b && 0.0 <= s
    ensures a * s <= b * s
  {
  }

  lemma OffsetMonotone(base: real, a: real, b: real)
    requires a <= b
    ensures base + a <= base + b
  {
  }

  class UniformGrid2D<T> {
    const numPointsX: int
    const numPointsY: int
    const minPoint: Vec2
    const maxPoint: Vec2
    const grid: array2<T>
    const xLength: real
    const yLength: real

    /** Valid arguments, one cell per grid point, and the spacing that spans min to max. */
    predicate Valid() {
      && ConstructorError(minPoint, maxPoint, numPointsX, numPointsY).None?
      && grid.Length0 == numPointsX && grid.Length1 == numPointsY
      && xLength == Spacing(minPoint.x, maxPoint.x, numPointsX)
      && yLength == Spacing(minPoint.y, maxPoint.y, numPointsY)
    }

    /** The constructor past its checks: every cell holds the default value. */
    constructor(minPoint: Vec2, maxPoint: Vec2, numPointsX: int, numPointsY: int, blank: T)
      requires ConstructorError(minPoint, maxPoint, numPointsX, numPointsY).None?
      ensures Valid() && fresh(grid)
      ensures this.minPoint == minPoint && this.maxPoint == maxPoint
      ensures this.numPointsX == numPointsX && this.numPointsY == numPointsY
      ensures forall i, j :: 0 <= i < numPointsX && 0 <= j < numPointsY ==> grid[i, j] == blank
    {
      this.minPoint := minPoint;
      this.maxPoint := maxPoint;
      this.numPointsX := numPointsX;
      this.numPointsY := numPointsY;
      xLength := Spacing(minPoint.x, maxPoint.x, numPointsX);
      yLength := Spacing(minPoint.y, maxPoint.y, numPointsY);
      grid := new T[numPointsX, numPointsY]((_, _) => blank);
    }

    /** new UniformGrid2DFloat(...) or new UniformGrid2DVector2(...): the grid, or the thrown message. */
    static method Create(minPoint: Vec2, maxPoint: Vec2, numPointsX: int, numPointsY: int, blank: T)
      returns (r: Result<UniformGrid2D<T>, string>)
      ensures r.Failure? <==> ConstructorError(minPoint, maxPoint, numPointsX, numPointsY).Some?
      ensures r.Failure? ==> r.error == ConstructorError(minPoint, maxPoint, numPointsX, numPointsY).value
      ensures r.Success? ==>
        && fresh(r.value.grid) && r.value.Valid()
        && r.value.minPoint == minPoint && r.value.maxPoint == maxPoint
        && r.value.numPointsX == numPointsX && r.value.numPointsY == numPointsY
        && (forall i, j :: 0 <= i < numPointsX && 0 <= j < numPointsY ==> r.value.grid[i, j] == blank)
    {
      var e := ConstructorError(minPoint, maxPoint, numPointsX, numPointsY);
      if e.Some? {
        return Failure(e.value);
      }
      var g := new UniformGrid2D(minPoint, maxPoint, numPointsX, numPointsY, blank);
      return Success(g);
    }

    /** The indexer's get. */
    function Get(i: int, j: int): T
      requires 0 <= i < grid.Length0 && 0 <= j < grid.Length1
      reads grid
    {
      grid[i, j]
    }

    /**
     * The indexer's set. Either index outside its axis throws
     * IndexOutOfRangeException (`outOfRange`) and stores nothing; otherwise
     * the cell reads back the value. No other cell changes either way.
     */
    method Set(i: int, j: int, value: T) returns (outOfRange: bool)
      modifies grid
      ensures outOfRange <==> !(0 <= i < grid.Length0 && 0 <= j < grid.Length1)
      ensures !outOfRange ==> Get(i, j) == value
      ensures forall i', j' :: 0 <= i' < grid.Length0 && 0 <= j' < grid.Length1 && (i', j') != (i, j) ==>
        Get(i', j') == old(Get(i', j'))
    {
      if !(0 <= i < grid.Length0 && 0 <= j < grid.Length1) {
        return true;
      }
      grid[i, j] := value;
      return false;
    }

    /** The coordinates of grid point (i, j): min + i * xLength * right + j * yLength * up, axis by axis. */
    function GridPointCoordinates(i: int, j: int): Vec2 {
      Vec2(minPoint.x + i as real * xLength, minPoint.y + j as real * yLength)
    }

    /** The first grid point is the minimum corner and the last one the maximum corner. */
    lemma CornerCoordinates()
      requires Valid()
      ensures GridPointCoordinates(0, 0) == minPoint
      ensures GridPointCoordinates(numPointsX - 1, numPointsY - 1) == maxPoint
    {
      assert (numPointsX - 1) as real * xLength == maxPoint.x - minPoint.x;
      assert (numPointsY - 1) as real * yLength == maxPoint.y - minPoint.y;
    }

    /** Grid point coordinates never decrease along either axis. */
    lemma CoordinatesMonotone(i: int, j: int, i': int, j': int)
      requires Valid() && i <= i' && j <= j'
      ensures GridPointCoordinates(i, j).x <= GridPointCoordinates(i', j').x
      ensures GridPointCoordinates(i, j).y <= GridPointCoordinates(i', j').y
    {
      assert minPoint.x <= maxPoint.x && minPoint.y <= maxPoint.y;
      assert 0.0 <= xLength && 0.0 <= yLength;
      ScaleMonotone(i as real, i' as real, xLength);
      ScaleMonotone(j as real, j' as real, yLength);
      OffsetMonotone(minPoint.x, i as real * xLength, i' as real * xLength);
      OffsetMonotone(minPoint.y, j as real * yLength, j' as real * yLength);
    }
  }
}
