/**
 * The two collision queries: the descent of the bounding-box tree to the leaf
 * whose box holds a point, and the ray/triangle predicate.
 */
module IntersectionTests {
  import opened Geometry
  import opened Wrappers
  import opened AabbTree

  /** The parallel-ray threshold on |dot(direction, normal)|. */
  const Epsilon: real := 0.001

  // ---------------------------------------------------------------------------
  // Tree descent

  /** The bool result of GetTriangles together with its out parameter. */
  datatype Lookup = Lookup(found: bool, triangles: Option<seq<int>>)

  datatype Side = Left | Right

  function Child(n: Node, s: Side): Option<Node> {
    match s
    case Left => n.leftChild
    case Right => n.rightChild
  }

  /** The node reached from n by following the sides in path, if every step has a child. */
  function Follow(n: Node, path: seq<Side>): Option<Node>
    decreases |path|
  {
    if path == [] then Some(n)
    else match Child(n, path[0])
      case None => None
      case Some(c) => Follow(c, path[1..])
  }

  /** path leads from n to a leaf and every node on the way, both ends included, contains p. */
  ghost predicate ContainingPathToLeaf(n: Node, p: Vec3, path: seq<Side>) {
    && (forall k :: 0 <= k <= |path| ==>
          Follow(n, path[..k]).Some? && Follow(n, path[..k]).value.bounds.Contains(p))
    && Follow(n, path).Some?
    && IsLeaf(Follow(n, path).value)
  }

  function Prefixed(s: Side, paths: seq<seq<Side>>): (r: seq<seq<Side>>)
    ensures |r| == |paths|
    ensures forall i :: 0 <= i < |r| ==> r[i] == [s] + paths[i]
  {
    seq(|paths|, i requires 0 <= i < |paths| => [s] + paths[i])
  }

  lemma FollowStep(n: Node, s: Side, c: Node, path: seq<Side>)
    requires Child(n, s) == Some(c)
    ensures Follow(n, [s] + path) == Follow(c, path)
  {
    assert ([s] + path)[0] == s;
    assert ([s] + path)[1..] == path;
  }

  /** A containing path from a child extends, through a containing parent, to one from the parent. */
  lemma ExtendContainingPath(n: Node, s: Side, c: Node, p: Vec3, path: seq<Side>)
    requires Child(n, s) == Some(c) && n.bounds.Contains(p)
    requires ContainingPathToLeaf(c, p, path)
    ensures ContainingPathToLeaf(n, p, [s] + path)
  {
    var q := [s] + path;
    FollowStep(n, s, c, path);
    forall k | 0 <= k <= |q|
      ensures Follow(n, q[..k]).Some? && Follow(n, q[..k]).value.bounds.Contains(p)
    {
      if k == 0 {
        assert q[..k] == [];
      } else {
        assert q[..k] == [s] + path[..k - 1];
        FollowStep(n, s, c, path[..k - 1]);
      }
    }
  }

  /**
   * Every leaf whose whole root path contains p, as the list of those paths
   * from left to right: the reference the descent is measured against.
   */
  function ContainingLeafPaths(n: Node, p: Vec3): (r: seq<seq<Side>>)
    requires WellFormed(n)
    ensures forall q :: q in r ==> ContainingPathToLeaf(n, p, q)
    decreases n
  {
    if !n.bounds.Contains(p) then []
    else if IsLeaf(n) then
      assert Follow(n, []) == Some(n);
      [[]]
    else
      var l, rt := n.leftChild.value, n.rightChild.value;
      var fromLeft := ContainingLeafPaths(l, p);
      var fromRight := ContainingLeafPaths(rt, p);
      var r := Prefixed(Left, fromLeft) + Prefixed(Right, fromRight);
      assert forall q :: q in r ==> ContainingPathToLeaf(n, p, q) by {
        forall q | q in r ensures ContainingPathToLeaf(n, p, q) {
          var i :| 0 <= i < |r| && r[i] == q;
          if i < |fromLeft| {
            ExtendContainingPath(n, Left, l, p, fromLeft[i]);
          } else {
            ExtendContainingPath(n, Right, rt, p, fromRight[i - |fromLeft|]);
          }
        }
      }
      r
  }

  /**
   * GetTriangles: false (with a null array) when the point is outside the
   * node's box; at a leaf that contains it, true with the leaf's own array;
   * otherwise the left subtree first, then the right one.
   */
  function GetTriangles(point: Vec3, currentNode: Node): (r: Lookup)
    requires WellFormed(currentNode)
    ensures !currentNode.bounds.Contains(point) ==> r == Lookup(false, None)
    ensures IsLeaf(currentNode) && currentNode.bounds.Contains(point) ==> r == Lookup(true, currentNode.triangles)
    ensures !r.found ==> r.triangles.None?
    decreases currentNode
  {
    if currentNode.bounds.Contains(point) then
      if currentNode.leftChild.None? && currentNode.rightChild.None? then
        Lookup(true, currentNode.triangles)
      else
        var fromLeft := GetTriangles(point, currentNode.leftChild.value);
        if fromLeft.found then fromLeft else GetTriangles(point, currentNode.rightChild.value)
    else
      Lookup(false, None)
  }

  /**
   * GetTriangles returns true exactly when some leaf has a root path whose
   * every box contains the point, and then it returns the array of the first
   * such leaf in left-to-right order.
   */
  lemma {:induction false} GetTrianglesFindsFirstContainingLeaf(point: Vec3, n: Node)
    requires WellFormed(n)
    ensures var paths := ContainingLeafPaths(n, point);
      && GetTriangles(point, n).found == (|paths| > 0)
      && (|paths| > 0 ==>
            Follow(n, paths[0]).Some? &&
            GetTriangles(point, n).triangles == Follow(n, paths[0]).value.triangles)
    decreases n
  {
    if n.bounds.Contains(point) && !IsLeaf(n) {
      var l, rt := n.leftChild.value, n.rightChild.value;
      GetTrianglesFindsFirstContainingLeaf(point, l);
      GetTrianglesFindsFirstContainingLeaf(point, rt);
      var fromLeft := ContainingLeafPaths(l, point);
      var fromRight := ContainingLeafPaths(rt, point);
      var paths := ContainingLeafPaths(n, point);
      assert paths == Prefixed(Left, fromLeft) + Prefixed(Right, fromRight);
      if |fromLeft| > 0 {
        assert paths[0] == [Left] + fromLeft[0];
        FollowStep(n, Left, l, fromLeft[0]);
      } else if |fromRight| > 0 {
        assert paths[0] == [Right] + fromRight[0];
        FollowStep(n, Right, rt, fromRight[0]);
      }
    } else if n.bounds.Contains(point) {
      assert Follow(n, []) == Some(n);
    }
  }

  /** Every containing path to a leaf is one of the listed ones: the list is complete. */
  lemma {:induction false} ContainingLeafPathsComplete(n: Node, p: Vec3, path: seq<Side>)
    requires WellFormed(n)
    requires ContainingPathToLeaf(n, p, path)
    ensures path in ContainingLeafPaths(n, p)
    decreases n
  {
    assert path[..0] == [];
    assert n.bounds.Contains(p);
    if path == [] {
      assert IsLeaf(n);
      assert ContainingLeafPaths(n, p) == [[]];
    } else {
      var s := path[0];
      assert Child(n, s).Some? by {
        assert path[..1] == [s];
        assert Follow(n, path[..1]).Some?;
      }
      var c := Child(n, s).value;
      assert !IsLeaf(n);
      var rest := path[1..];
      assert path == [s] + rest;
      assert ContainingPathToLeaf(c, p, rest) by {
        FollowStep(n, s, c, rest);
        forall k | 0 <= k <= |rest|
          ensures Follow(c, rest[..k]).Some? && Follow(c, rest[..k]).value.bounds.Contains(p)
        {
          assert path[..k + 1] == [s] + rest[..k];
          FollowStep(n, s, c, rest[..k]);
        }
      }
      ContainingLeafPathsComplete(c, p, rest);
      var fromLeft := ContainingLeafPaths(n.leftChild.value, p);
      var fromRight := ContainingLeafPaths(n.rightChild.value, p);
      var all := Prefixed(Left, fromLeft) + Prefixed(Right, fromRight);
      assert ContainingLeafPaths(n, p) == all;
      if s == Left {
        var i :| 0 <= i < |fromLeft| && fromLeft[i] == rest;
        assert all[i] == path;
      } else {
        var i :| 0 <= i < |fromRight| && fromRight[i] == rest;
        assert all[|fromLeft| + i] == path;
      }
    }
  }

  /** When GetTriangles returns false, no leaf's root path contains the point throughout. */
  lemma GetTrianglesMissMeansNoLeaf(point: Vec3, n: Node, path: seq<Side>)
    requires WellFormed(n)
    requires !GetTriangles(point, n).found
    ensures !ContainingPathToLeaf(n, point, path)
  {
    GetTrianglesFindsFirstContainingLeaf(point, n);
    if ContainingPathToLeaf(n, point, path) {
      ContainingLeafPathsComplete(n, point, path);
    }
  }

  // ---------------------------------------------------------------------------
  // Ray/triangle predicate

  /** The three vertices, in clockwise order seen from the front face. */
  datatype Triangle = Triangle(v0: Vec3, v1: Vec3, v2: Vec3)

  function Abs(x: real): real { if x < 0.0 then -x else x }

  /** cross(v2 - v0, v1 - v0): the front-face normal under clockwise winding. */
  function Normal(tri: Triangle): Vec3 {
    Cross(Sub(tri.v2, tri.v0), Sub(tri.v1, tri.v0))
  }

  /** dot(normal, cross(p - a, b - a)): non-negative when p is on the inner side of edge a to b. */
  function EdgeValue(normal: Vec3, p: Vec3, a: Vec3, b: Vec3): real {
    Dot(normal, Cross(Sub(p, a), Sub(b, a)))
  }

  predicate InsideEdges(tri: Triangle, p: Vec3) {
    var n := Normal(tri);
    EdgeValue(n, p, tri.v0, tri.v1) >= 0.0 && EdgeValue(n, p, tri.v1, tri.v2) >= 0.0 &&
    EdgeValue(n, p, tri.v2, tri.v0) >= 0.0
  }

  /** The ray parameter of the crossing with the triangle's plane. */
  function RayParameter(origin: Vec3, direction: Vec3, tri: Triangle): real
    requires Dot(direction, Normal(tri)) != 0.0
  {
    Dot(Sub(tri.v0, origin), Normal(tri)) / Dot(direction, Normal(tri))
  }

  /**
   * RayTriangleTest: no hit for a ray (nearly) parallel to the plane, nor for
   * a crossing behind the origin or beyond maxDistance; otherwise a hit
   * exactly when the crossing passes all three edge tests (an edge counts as
   * inside). A hit is the point origin + t * direction, with t in
   * [0, maxDistance], and it lies on the triangle's plane.
   */
  function RayTriangleTest(rayOrigin: Vec3, rayDirection: Vec3, maxDistance: real, tri: Triangle): (r: Option<Vec3>)
    ensures Abs(Dot(rayDirection, Normal(tri))) < Epsilon ==> r.None?
    ensures Abs(Dot(rayDirection, Normal(tri))) >= Epsilon ==>
      var t := RayParameter(rayOrigin, rayDirection, tri);
      var p := Add(rayOrigin, Scale(t, rayDirection));
      && ((t < 0.0 || t > maxDistance) ==> r.None?)
      && (r.Some? <==> 0.0 <= t <= maxDistance && InsideEdges(tri, p))
      && (r.Some? ==> r.value == p)
    ensures r.Some? ==> Dot(Sub(r.value, tri.v0), Normal(tri)) == 0.0
  {
    var normal := Normal(tri);
    var d := Dot(rayDirection, normal);
    if Abs(d) < Epsilon then None
    else
      var t := Dot(Sub(tri.v0, rayOrigin), normal) / d;
      if t < 0.0 || t > maxDistance then None
      else
        var candidate := Add(rayOrigin, Scale(t, rayDirection));
        var relative0To1 := EdgeValue(normal, candidate, tri.v0, tri.v1);
        var relative1To2 := EdgeValue(normal, candidate, tri.v1, tri.v2);
        var relative2To0 := EdgeValue(normal, candidate, tri.v2, tri.v0);
        if relative0To1 >= 0.0 && relative1To2 >= 0.0 && relative2To0 >= 0.0 then
          OnPlane(rayOrigin, rayDirection, tri.v0, normal, t);
          Some(candidate)
        else None
  }

  /** The ray point at the plane parameter lies on the plane through v0 with normal n. */
  lemma OnPlane(o: Vec3, dir: Vec3, v0: Vec3, n: Vec3, t: real)
    requires Dot(dir, n) != 0.0 && t == Dot(Sub(v0, o), n) / Dot(dir, n)
    ensures Dot(Sub(Add(o, Scale(t, dir)), v0), n) == 0.0
  {
    var d := Dot(dir, n);
    assert t * d == Dot(Sub(v0, o), n);
    assert Dot(Sub(Add(o, Scale(t, dir)), v0), n) == Dot(Sub(o, v0), n) + t * d;
  }

  /** The three edge values always add up to |normal|^2, whatever the point. */
  lemma EdgeValuesSum(tri: Triangle, p: Vec3)
    ensures var n := Normal(tri);
      EdgeValue(n, p, tri.v0, tri.v1) + EdgeValue(n, p, tri.v1, tri.v2) + EdgeValue(n, p, tri.v2, tri.v0)
      == Dot(n, n)
  {
  }

  /**
   * At a hit the edge values, divided by |normal|^2, are barycentric weights:
   * each lies in [0, 1] and together they sum to 1.
   */
  lemma HitHasBarycentricWeights(rayOrigin: Vec3, rayDirection: Vec3, maxDistance: real, tri: Triangle)
    requires RayTriangleTest(rayOrigin, rayDirection, maxDistance, tri).Some?
    ensures var n := Normal(tri);
      var p := RayTriangleTest(rayOrigin, rayDirection, maxDistance, tri).value;
      && Dot(n, n) > 0.0
      && 0.0 <= EdgeValue(n, p, tri.v0, tri.v1) <= Dot(n, n)
      && 0.0 <= EdgeValue(n, p, tri.v1, tri.v2) <= Dot(n, n)
      && 0.0 <= EdgeValue(n, p, tri.v2, tri.v0) <= Dot(n, n)
  {
    var n := Normal(tri);
    var p := RayTriangleTest(rayOrigin, rayDirection, maxDistance, tri).value;
    EdgeValuesSum(tri, p);
    DotSelfNonNegative(n);
    if Dot(n, n) == 0.0 {
      ZeroVectorHasZeroDot(n, rayDirection);
      assert false;
    }
  }

  lemma ZeroVectorHasZeroDot(n: Vec3, v: Vec3)
    requires Dot(n, n) == 0.0
    ensures Dot(v, n) == 0.0
  {
    ZeroNormalDot(n.x, n.y, n.z, v.x, v.y, v.z);
  }

  lemma ZeroNormalDot(a: real, b: real, c: real, x: real, y: real, z: real)
    requires a * a + b * b + c * c == 0.0
    ensures x * a + y * b + z * c == 0.0
  {
    SumOfSquaresZero(a, b, c);
  }

  lemma SumOfSquaresZero(a: real, b: real, c: real)
    requires a * a + b * b + c * c == 0.0
    ensures a == 0.0 && b == 0.0 && c == 0.0
  {
    SquareNonNegative(a);
    SquareNonNegative(b);
    SquareNonNegative(c);
    SquareZero(a);
    SquareZero(b);
    SquareZero(c);
  }

  lemma SquareZero(a: real)
    requires a * a == 0.0
    ensures a == 0.0
  {
    if a != 0.0 {
      ZeroProduct(a, a);
    }
  }

  /**
   * A hit is at most maxDistance from the ray origin along a unit direction:
   * |p - origin|^2 = t^2 <= maxDistance^2.
   */
  lemma HitWithinReach(rayOrigin: Vec3, rayDirection: Vec3, maxDistance: real, tri: Triangle)
    requires Dot(rayDirection, rayDirection) == 1.0
    requires RayTriangleTest(rayOrigin, rayDirection, maxDistance, tri).Some?
    ensures var p := RayTriangleTest(rayOrigin, rayDirection, maxDistance, tri).value;
      Dot(Sub(p, rayOrigin), Sub(p, rayOrigin)) <= maxDistance * maxDistance
  {
    var t := RayParameter(rayOrigin, rayDirection, tri);
    var p := Add(rayOrigin, Scale(t, rayDirection));
    assert Sub(p, rayOrigin) == Scale(t, rayDirection);
    DotScaleBoth(t, rayDirection);
    SquareAtMost(t, maxDistance);
  }
}
