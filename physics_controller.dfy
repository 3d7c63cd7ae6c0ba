/**
 * The hand-written particle physics of PhysicsController: every frame each
 * ball falls under gravity, takes one explicit Euler step, and then scans all
 * terrain triangles, reflecting off every triangle its current step crosses,
 * with a damped speed. Balls never interact with each other.
 *
 * The engine inputs are parameters: the terrain mesh arrays and bounds, the
 * frame time dt, the uniform draws behind Random.Range, and the vector length
 * (see Geometry.IsMagnitude).
 */
module Physics {
  import opened Geometry
  import opened Wrappers
  import opened Particles
  import opened IntersectionTests

  /** A mesh the scan can read: whole triangles, and every index names a vertex. */
  predicate ValidMesh(vertices: seq<Vec3>, triangles: seq<int>) {
    && |triangles| % 3 == 0
    && forall i :: 0 <= i < |triangles| ==> 0 <= triangles[i] < |vertices|
  }

  /** The number of triangles in the index buffer. */
  function TriangleCount(triangles: seq<int>): nat {
    |triangles| / 3
  }

  /** Triangle number k: the vertices named at indices 3k, 3k + 1 and 3k + 2. */
  function TriangleAt(vertices: seq<Vec3>, triangles: seq<int>, k: int): Triangle
    requires ValidMesh(vertices, triangles) && 0 <= k < TriangleCount(triangles)
  {
    Triangle(vertices[triangles[3 * k]], vertices[triangles[3 * k + 1]], vertices[triangles[3 * k + 2]])
  }

  // ---------------------------------------------------------------------------
  // Start

  /**
   * The start position of a ball: on each axis Random.Range between the
   * terrain minimum plus the radius and the terrain maximum minus the radius
   * (between them in whichever order they come).
   */
  function StartPosition(bounds: Box, meanRadius: real, u: Vec3): (p: Vec3)
    requires 0.0 <= u.x <= 1.0 && 0.0 <= u.y <= 1.0 && 0.0 <= u.z <= 1.0
    ensures bounds.Min().x + meanRadius <= bounds.Max().x - meanRadius ==>
      bounds.Min().x + meanRadius <= p.x <= bounds.Max().x - meanRadius
    ensures bounds.Min().y + meanRadius <= bounds.Max().y - meanRadius ==>
      bounds.Min().y + meanRadius <= p.y <= bounds.Max().y - meanRadius
    ensures bounds.Min().z + meanRadius <= bounds.Max().z - meanRadius ==>
      bounds.Min().z + meanRadius <= p.z <= bounds.Max().z - meanRadius
    ensures bounds.Max().x - meanRadius <= bounds.Min().x + meanRadius ==>
      bounds.Max().x - meanRadius <= p.x <= bounds.Min().x + meanRadius
    ensures bounds.Max().y - meanRadius <= bounds.Min().y + meanRadius ==>
      bounds.Max().y - meanRadius <= p.y <= bounds.Min().y + meanRadius
    ensures bounds.Max().z - meanRadius <= bounds.Min().z + meanRadius ==>
      bounds.Max().z - meanRadius <= p.z <= bounds.Min().z + meanRadius
  {
    Vec3(RandomRange(bounds.Min().x + meanRadius, bounds.Max().x - meanRadius, u.x),
         RandomRange(bounds.Min().y + meanRadius, bounds.Max().y - meanRadius, u.y),
         RandomRange(bounds.Min().z + meanRadius, bounds.Max().z - meanRadius, u.z))
  }

  /** A ball as Start creates it: at rest, with no previous step, and of the mean radius. */
  function StartBall(bounds: Box, meanRadius: real, u: Vec3): (b: Ball)
    requires 0.0 <= u.x <= 1.0 && 0.0 <= u.y <= 1.0 && 0.0 <= u.z <= 1.0
    ensures b.position == StartPosition(bounds, meanRadius, u)
    ensures b.velocity == Zero && b.lastPosition == b.position
    ensures b.radius == meanRadius && !b.instantiated
  {
    var p := StartPosition(bounds, meanRadius, u);
    Ball(p, p, Zero, meanRadius, false)
  }

  predicate UnitDraws(draws: seq<Vec3>) {
    forall i :: 0 <= i < |draws| ==> 0.0 <= draws[i].x <= 1.0 && 0.0 <= draws[i].y <= 1.0 && 0.0 <= draws[i].z <= 1.0
  }

  // ---------------------------------------------------------------------------
  // The per-ball frame, as functions

  /** The gravity step: only the vertical velocity changes, by -g * dt. */
  function Gravity(b: Ball, g: real, dt: real): (r: Ball)
    ensures r.velocity == Vec3(b.velocity.x, b.velocity.y - g * dt, b.velocity.z)
    ensures r.position == b.position && r.lastPosition == b.lastPosition
    ensures r.radius == b.radius && r.instantiated == b.instantiated
  {
    b.(velocity := Add(b.velocity, Scale(dt, Scale(g, Down))))
  }

  /** The Euler step: the previous position is remembered and the ball moves by velocity * dt. */
  function Integrate(b: Ball, dt: real): (r: Ball)
    ensures r.lastPosition == b.position
    ensures Sub(r.position, r.lastPosition) == Scale(dt, b.velocity)
    ensures r.velocity == b.velocity && r.radius == b.radius && r.instantiated == b.instantiated
  {
    b.(lastPosition := b.position, position := Add(b.position, Scale(dt, b.velocity)))
  }

  /** The ball's current step as a ray: from lastPosition, normalised, as long as the step. */
  function Hit(b: Ball, tri: Triangle, magnitude: Vec3 -> real): Option<Vec3> {
    var rayDirection := Sub(b.position, b.lastPosition);
    RayTriangleTest(b.lastPosition, Normalize(magnitude, rayDirection), magnitude(rayDirection), tri)
  }

  /** dir mirrored in the plane with unit normal n: 2 * dot(-dir, n) * n + dir. */
  function Reflect(dir: Vec3, n: Vec3): Vec3 {
    Add(Scale(2.0 * Dot(Neg(dir), n), n), dir)
  }

  /**
   * The response to a hit at point: the velocity turns into the reflected
   * direction with its speed scaled by 1 - groundDamping, and the ball
   * restarts its step from the hit point.
   */
  function Bounce(b: Ball, point: Vec3, tri: Triangle, magnitude: Vec3 -> real, groundDamping: real, dt: real): (r: Ball)
    ensures r.lastPosition == point
    ensures Sub(r.position, point) == Scale(dt, r.velocity)
    ensures r.radius == b.radius && r.instantiated == b.instantiated
  {
    var rayDirection := Normalize(magnitude, Sub(b.position, b.lastPosition));
    var normal := Normalize(magnitude, Normal(tri));
    var newDirection := Normalize(magnitude, Reflect(rayDirection, normal));
    var velocity := Scale((1.0 - groundDamping) * magnitude(b.velocity), newDirection);
    b.(velocity := velocity, lastPosition := point, position := Add(point, Scale(dt, velocity)))
  }

  /**
   * One triangle of the scan: a ball whose step misses the triangle is left
   * as it is; one whose step hits it bounces, and its new step starts on the
   * triangle's plane.
   */
  function Collide(b: Ball, tri: Triangle, magnitude: Vec3 -> real, groundDamping: real, dt: real): Ball {
    match Hit(b, tri, magnitude)
    case None => b
    case Some(point) => Bounce(b, point, tri, magnitude, groundDamping, dt)
  }

  /** A step that misses the triangle leaves the ball as it is. */
  lemma CollideMiss(b: Ball, tri: Triangle, magnitude: Vec3 -> real, groundDamping: real, dt: real)
    requires Hit(b, tri, magnitude).None?
    ensures Collide(b, tri, magnitude, groundDamping, dt) == b
  {
  }

  /** A step that hits the triangle restarts from the hit point, which lies on the triangle's plane. */
  lemma CollideOnPlane(b: Ball, tri: Triangle, magnitude: Vec3 -> real, groundDamping: real, dt: real)
    requires Hit(b, tri, magnitude).Some?
    ensures var r := Collide(b, tri, magnitude, groundDamping, dt);
      r.lastPosition == Hit(b, tri, magnitude).value && Dot(Sub(r.lastPosition, tri.v0), Normal(tri)) == 0.0
  {
  }

  /** A collision changes neither the radius nor the flag. */
  lemma CollideKeepsRecord(b: Ball, tri: Triangle, magnitude: Vec3 -> real, groundDamping: real, dt: real)
    ensures var r := Collide(b, tri, magnitude, groundDamping, dt);
      r.radius == b.radius && r.instantiated == b.instantiated
  {
  }

  /** The ball after the first k triangles of the scan; there is no early exit after a hit. */
  function Scan(b: Ball, vertices: seq<Vec3>, triangles: seq<int>, k: int,
                magnitude: Vec3 -> real, groundDamping: real, dt: real): Ball
    requires ValidMesh(vertices, triangles) && 0 <= k <= TriangleCount(triangles)
    decreases k
  {
    if k == 0 then b
    else Collide(Scan(b, vertices, triangles, k - 1, magnitude, groundDamping, dt),
                 TriangleAt(vertices, triangles, k - 1), magnitude, groundDamping, dt)
  }

  /** A whole frame of one ball: gravity, the Euler step, then the full triangle scan. */
  function Frame(b: Ball, vertices: seq<Vec3>, triangles: seq<int>, magnitude: Vec3 -> real,
                 g: real, groundDamping: real, dt: real): Ball
    requires ValidMesh(vertices, triangles)
  {
    Scan(Integrate(Gravity(b, g, dt), dt), vertices, triangles, TriangleCount(triangles), magnitude, groundDamping, dt)
  }

  // ---------------------------------------------------------------------------
  // The per-ball frame, as the loop that runs it

  /** One pass of the triangle loop in Update: cast the ball's step at the triangle and bounce on a hit. */
  method CollideStep(ball: Ball, triangle: Triangle, magnitude: Vec3 -> real, groundDamping: real, dt: real)
    returns (r: Ball)
    ensures r == Collide(ball, triangle, magnitude, groundDamping, dt)
  {
    var rayDirection := Sub(ball.position, ball.lastPosition);
    var distance := magnitude(rayDirection);
    rayDirection := Normalize(magnitude, rayDirection);
    var intersectionPoint := RayTriangleTest(ball.lastPosition, rayDirection, distance, triangle);
    assert intersectionPoint == Hit(ball, triangle, magnitude);
    r := ball;
    if intersectionPoint.Some? {
      r := Bounce(ball, intersectionPoint.value, triangle, magnitude, groundDamping, dt);
    }
  }

  /** The body of the foreach in Update, for one ball. */
  method UpdateBall(b: Ball, vertices: seq<Vec3>, triangles: seq<int>, magnitude: Vec3 -> real,
                    g: real, groundDamping: real, dt: real) returns (ball: Ball)
    requires ValidMesh(vertices, triangles)
    ensures ball == Frame(b, vertices, triangles, magnitude, g, groundDamping, dt)
  {
    ball := Gravity(b, g, dt);
    ball := Integrate(ball, dt);
    ball := ScanTriangles(ball, vertices, triangles, magnitude, groundDamping, dt);
  }

  /** The inner loop of Update: every triangle of the terrain in turn, with no early exit. */
  method ScanTriangles(start: Ball, vertices: seq<Vec3>, triangles: seq<int>, magnitude: Vec3 -> real,
                       groundDamping: real, dt: real) returns (ball: Ball)
    requires ValidMesh(vertices, triangles)
    ensures ball == Scan(start, vertices, triangles, TriangleCount(triangles), magnitude, groundDamping, dt)
  {
    ball := start;
    var i := 0;
    ghost var k := 0;
    while i < |triangles|
      invariant 0 <= k <= TriangleCount(triangles) && i == 3 * k
      invariant ball == Scan(start, vertices, triangles, k, magnitude, groundDamping, dt)
    {
      TriangleOffsets(triangles, k);
      var triangle := Triangle(vertices[triangles[i]], vertices[triangles[i + 1]], vertices[triangles[i + 2]]);
      assert triangle == TriangleAt(vertices, triangles, k);
      ball := CollideStep(ball, triangle, magnitude, groundDamping, dt);
      i := i + 3;
      k := k + 1;
    }
    TriangleOffsets(triangles, k);
  }

  /** Offset 3k starts a whole triangle exactly while k is below the triangle count. */
  lemma TriangleOffsets(triangles: seq<int>, k: nat)
    requires |triangles| % 3 == 0
    ensures 3 * k < |triangles| <==> k < TriangleCount(triangles)
    ensures 3 * k < |triangles| ==> 3 * k + 2 < |triangles|
  {
  }

  // ---------------------------------------------------------------------------
  // The controller

  class PhysicsController {
    const gravityAcceleration: real
    const groundDamping: real
    const numBalls: int
    const meanRadius: real
    var metaballs: array<Ball>
    var terrainBounds: Box
    var terrainVertices: seq<Vec3>
    var terrainTriangles: seq<int>

    /** The editor ranges on groundDamping and numBalls, a readable mesh, and one ball per slot. */
    ghost predicate Valid()
      reads this
    {
      && 0.0 <= groundDamping <= 1.0
      && 2 <= numBalls <= 10
      && metaballs.Length == numBalls
      && ValidMesh(terrainVertices, terrainTriangles)
    }

    /** The serialized settings; the ball array is created by Start. */
    constructor(gravityAcceleration: real, groundDamping: real, numBalls: int, meanRadius: real)
      requires 0.0 <= groundDamping <= 1.0 && 2 <= numBalls <= 10
      ensures this.gravityAcceleration == gravityAcceleration && this.groundDamping == groundDamping
      ensures this.numBalls == numBalls && this.meanRadius == meanRadius
      ensures metaballs.Length == 0
    {
      this.gravityAcceleration := gravityAcceleration;
      this.groundDamping := groundDamping;
      this.numBalls := numBalls;
      this.meanRadius := meanRadius;
      metaballs := new Ball[0];
    }

    /**
     * Start: take the terrain's mesh and bounds, then create numBalls balls,
     * ball i placed by the three draws in draws[i].
     */
    method Start(bounds: Box, vertices: seq<Vec3>, triangles: seq<int>, draws: seq<Vec3>)
      requires 0.0 <= groundDamping <= 1.0 && 2 <= numBalls <= 10
      requires ValidMesh(vertices, triangles)
      requires |draws| == numBalls && UnitDraws(draws)
      modifies this
      ensures Valid() && fresh(metaballs)
      ensures terrainBounds == bounds && terrainVertices == vertices && terrainTriangles == triangles
      ensures forall i :: 0 <= i < numBalls ==> metaballs[i] == StartBall(bounds, meanRadius, draws[i])
    {
      var balls := new Ball[numBalls];
      for i := 0 to numBalls
        invariant forall j :: 0 <= j < i ==> balls[j] == StartBall(bounds, meanRadius, draws[j])
      {
        var x := RandomRange(bounds.Min().x + meanRadius, bounds.Max().x - meanRadius, draws[i].x);
        var y := RandomRange(bounds.Min().y + meanRadius, bounds.Max().y - meanRadius, draws[i].y);
        var z := RandomRange(bounds.Min().z + meanRadius, bounds.Max().z - meanRadius, draws[i].z);
        var position := Vec3(x, y, z);
        balls[i] := Ball(position, position, Vec3(0.0, 0.0, 0.0), meanRadius, false);
      }
      terrainVertices := vertices;
      terrainTriangles := triangles;
      terrainBounds := bounds;
      metaballs := balls;
    }

    /** Update: every ball takes its own frame, reading only itself and the terrain. */
    method Update(magnitude: Vec3 -> real, dt: real)
      requires Valid()
      modifies metaballs
      ensures Valid()
      ensures forall i :: 0 <= i < metaballs.Length ==>
        metaballs[i] == Frame(old(metaballs[i]), terrainVertices, terrainTriangles, magnitude,
                              gravityAcceleration, groundDamping, dt)
    {
      for i := 0 to metaballs.Length
        invariant forall j :: 0 <= j < i ==>
          metaballs[j] == Frame(old(metaballs[j]), terrainVertices, terrainTriangles, magnitude,
                                gravityAcceleration, groundDamping, dt)
        invariant forall j :: i <= j < metaballs.Length ==> metaballs[j] == old(metaballs[j])
      {
        metaballs[i] := UpdateBall(metaballs[i], terrainVertices, terrainTriangles, magnitude,
                                   gravityAcceleration, groundDamping, dt);
      }
    }
  }

  // ---------------------------------------------------------------------------
  // Properties of the frame

  /**
   * A bounce scales the speed by exactly 1 - groundDamping: a hit means the
   * step direction is a unit vector not parallel to the triangle, so the
   * triangle's normal normalises to a unit vector and the reflection is a
   * unit vector too.
   */
  lemma BounceDamping(b: Ball, tri: Triangle, magnitude: Vec3 -> real, groundDamping: real, dt: real)
    requires IsMagnitude(magnitude) && 0.0 <= groundDamping <= 1.0
    requires Hit(b, tri, magnitude).Some?
    ensures magnitude(Collide(b, tri, magnitude, groundDamping, dt).velocity)
      == (1.0 - groundDamping) * magnitude(b.velocity)
  {
    var dir := Normalize(magnitude, Sub(b.position, b.lastPosition));
    var normal := Normalize(magnitude, Normal(tri));
    HitIsAlongUnits(b, tri, magnitude);
    var reflected := Reflect(dir, normal);
    ReflectIsUnit(dir, normal);
    MagnitudeOfUnit(magnitude, reflected);
    UnitNormalizesToItself(magnitude, reflected);
    var speed := (1.0 - groundDamping) * magnitude(b.velocity);
    ProductNonNegative(1.0 - groundDamping, magnitude(b.velocity));
    MagnitudeOfScaledUnit(magnitude, speed, reflected);
    var point := Hit(b, tri, magnitude).value;
    assert Collide(b, tri, magnitude, groundDamping, dt) == Bounce(b, point, tri, magnitude, groundDamping, dt);
    assert Bounce(b, point, tri, magnitude, groundDamping, dt).velocity == Scale(speed, reflected);
  }

  lemma UnitNormalizesToItself(magnitude: Vec3 -> real, u: Vec3)
    requires magnitude(u) == 1.0
    ensures Normalize(magnitude, u) == u
  {
    assert 1.0 / magnitude(u) == 1.0;
  }

  /** At a hit both the step direction and the triangle's normalised normal are unit vectors. */
  lemma HitIsAlongUnits(b: Ball, tri: Triangle, magnitude: Vec3 -> real)
    requires IsMagnitude(magnitude)
    requires Hit(b, tri, magnitude).Some?
    ensures var dir := Normalize(magnitude, Sub(b.position, b.lastPosition));
      Dot(dir, dir) == 1.0 && Dot(Normalize(magnitude, Normal(tri)), Normalize(magnitude, Normal(tri))) == 1.0
  {
    var rayDirection := Sub(b.position, b.lastPosition);
    var dir := Normalize(magnitude, rayDirection);
    var n := Normal(tri);
    var k := Dot(dir, n);
    assert Abs(k) >= Epsilon;
    if magnitude(rayDirection) <= NormalizeEpsilon {
      ZeroHasZeroDot(n);
      assert false;
    }
    NormalizeIsUnit(magnitude, rayDirection);
    AbsAtLeast(k, Epsilon);
    CauchySchwarz(dir, n);
    UnitNormalFromHit(k, Dot(n, n), Dot(dir, dir));
    MagnitudeAboveEpsilon(magnitude, n);
    NormalizeIsUnit(magnitude, n);
  }

  lemma ZeroHasZeroDot(n: Vec3)
    ensures Abs(Dot(Zero, n)) < Epsilon
  {
  }

  lemma AbsAtLeast(a: real, c: real)
    requires 0.0 <= c <= Abs(a)
    ensures c * c <= a * a
  {
    SquareAtMost(c, Abs(a));
    assert Abs(a) * Abs(a) == a * a;
  }

  /** From k^2 >= 0.001^2 and k^2 <= 1 * |n|^2 (Cauchy-Schwarz with a unit direction). */
  lemma UnitNormalFromHit(k: real, nn: real, dd: real)
    requires Epsilon * Epsilon <= k * k && k * k <= dd * nn && dd == 1.0
    ensures nn >= 0.000001
  {
  }

  /** Mirroring a unit vector in a plane with a unit normal keeps it a unit vector. */
  lemma ReflectIsUnit(dir: Vec3, n: Vec3)
    requires Dot(dir, dir) == 1.0 && Dot(n, n) == 1.0
    ensures Dot(Reflect(dir, n), Reflect(dir, n)) == 1.0
  {
    var k := Dot(dir, n);
    var s := 2.0 * Dot(Neg(dir), n);
    NegDot(dir, n);
    DotOfShifted(s, n, dir);
    ReflectSquares(s, k, Dot(n, n), Dot(dir, dir), Dot(Reflect(dir, n), Reflect(dir, n)));
  }

  lemma NegDot(d: Vec3, n: Vec3)
    ensures Dot(Neg(d), n) == -Dot(d, n) && Dot(n, d) == Dot(d, n)
  {
  }

  lemma DotOfShifted(s: real, n: Vec3, d: Vec3)
    ensures Dot(Add(Scale(s, n), d), Add(Scale(s, n), d)) == s * s * Dot(n, n) + 2.0 * s * Dot(d, n) + Dot(d, d)
  {
  }

  lemma ReflectSquares(s: real, k: real, nn: real, dd: real, rr: real)
    requires s == 2.0 * -k && nn == 1.0 && dd == 1.0
    requires rr == s * s * nn + 2.0 * s * k + dd
    ensures rr == 1.0
  {
  }

  /** The scan never speeds a ball up: each bounce scales its speed by a factor in [0, 1]. */
  lemma {:induction false} ScanNeverSpeedsUp(b: Ball, vertices: seq<Vec3>, triangles: seq<int>, k: int,
                                            magnitude: Vec3 -> real, groundDamping: real, dt: real)
    requires IsMagnitude(magnitude) && 0.0 <= groundDamping <= 1.0
    requires ValidMesh(vertices, triangles) && 0 <= k <= TriangleCount(triangles)
    ensures magnitude(Scan(b, vertices, triangles, k, magnitude, groundDamping, dt).velocity) <= magnitude(b.velocity)
    decreases k
  {
    if k > 0 {
      var prev := Scan(b, vertices, triangles, k - 1, magnitude, groundDamping, dt);
      ScanNeverSpeedsUp(b, vertices, triangles, k - 1, magnitude, groundDamping, dt);
      var tri := TriangleAt(vertices, triangles, k - 1);
      assert Scan(b, vertices, triangles, k, magnitude, groundDamping, dt) == Collide(prev, tri, magnitude, groundDamping, dt);
      CollideNeverSpeedsUp(prev, tri, magnitude, groundDamping, dt);
    }
  }

  lemma CollideNeverSpeedsUp(b: Ball, tri: Triangle, magnitude: Vec3 -> real, groundDamping: real, dt: real)
    requires IsMagnitude(magnitude) && 0.0 <= groundDamping <= 1.0
    ensures magnitude(Collide(b, tri, magnitude, groundDamping, dt).velocity) <= magnitude(b.velocity)
  {
    if Hit(b, tri, magnitude).Some? {
      BounceDamping(b, tri, magnitude, groundDamping, dt);
      DampedAtMost(groundDamping, magnitude(b.velocity));
    }
  }

  lemma DampedAtMost(groundDamping: real, m: real)
    requires 0.0 <= groundDamping <= 1.0 && 0.0 <= m
    ensures (1.0 - groundDamping) * m <= m
  {
    ProductNonNegative(groundDamping, m);
  }

  /** The scan moves balls but never changes their radius or flag. */
  lemma {:induction false} ScanKeepsRecord(b: Ball, vertices: seq<Vec3>, triangles: seq<int>, k: int,
                                          magnitude: Vec3 -> real, groundDamping: real, dt: real)
    requires ValidMesh(vertices, triangles) && 0 <= k <= TriangleCount(triangles)
    ensures var r := Scan(b, vertices, triangles, k, magnitude, groundDamping, dt);
      r.radius == b.radius && r.instantiated == b.instantiated
    decreases k
  {
    if k > 0 {
      ScanKeepsRecord(b, vertices, triangles, k - 1, magnitude, groundDamping, dt);
      CollideKeepsRecord(Scan(b, vertices, triangles, k - 1, magnitude, groundDamping, dt),
                   TriangleAt(vertices, triangles, k - 1), magnitude, groundDamping, dt);
    }
  }

  /** When no triangle is hit along the way, the scan leaves the ball exactly as the Euler step left it. */
  lemma {:induction false} NoHitNoChange(b: Ball, vertices: seq<Vec3>, triangles: seq<int>, k: int,
                                        magnitude: Vec3 -> real, groundDamping: real, dt: real)
    requires ValidMesh(vertices, triangles) && 0 <= k <= TriangleCount(triangles)
    requires forall j :: 0 <= j < k ==> Hit(b, TriangleAt(vertices, triangles, j), magnitude).None?
    ensures Scan(b, vertices, triangles, k, magnitude, groundDamping, dt) == b
    decreases k
  {
    if k > 0 {
      NoHitNoChange(b, vertices, triangles, k - 1, magnitude, groundDamping, dt);
      CollideMiss(b, TriangleAt(vertices, triangles, k - 1), magnitude, groundDamping, dt);
    }
  }

  /**
   * A ball that hits nothing in a frame ends it one Euler step after the
   * gravity step: its velocity changed only vertically, by -g * dt, and it
   * moved by the new velocity times dt.
   */
  lemma FreeFall(b: Ball, vertices: seq<Vec3>, triangles: seq<int>, magnitude: Vec3 -> real,
                 g: real, groundDamping: real, dt: real)
    requires ValidMesh(vertices, triangles)
    requires forall j :: 0 <= j < TriangleCount(triangles) ==>
      Hit(Integrate(Gravity(b, g, dt), dt), TriangleAt(vertices, triangles, j), magnitude).None?
    ensures var r := Frame(b, vertices, triangles, magnitude, g, groundDamping, dt);
      && r.velocity == Vec3(b.velocity.x, b.velocity.y - g * dt, b.velocity.z)
      && r.lastPosition == b.position
      && Sub(r.position, b.position) == Scale(dt, r.velocity)
  {
    NoHitNoChange(Integrate(Gravity(b, g, dt), dt), vertices, triangles, TriangleCount(triangles), magnitude, groundDamping, dt);
  }
}
