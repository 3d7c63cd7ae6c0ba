/**
 * The spawn lifecycle of NativeCollisionPhysicsController. Balls start
 * dormant in the spawn volume; each frame a dormant ball is activated when
 * more than waterSpawnInterval frames have passed since the last activation,
 * and an active ball that has fallen below the terrain is put back at a
 * fresh spawn point. The engine's rigid-body simulation moves active balls
 * between frames and is not part of this model.
 *
 * The random draws behind Random.Range are parameters: one SpawnDraw per
 * ball, of which a respawn uses the three coordinates and the speed.
 */
module NativePhysics {
  import opened Geometry
  import opened Particles

  /** Three uniform draws for a spawn point and one for the spawn speed, all in [0, 1]. */
  datatype SpawnDraw = SpawnDraw(x: real, y: real, z: real, speed: real)

  predicate IsUnitDraw(d: SpawnDraw) {
    0.0 <= d.x <= 1.0 && 0.0 <= d.y <= 1.0 && 0.0 <= d.z <= 1.0 && 0.0 <= d.speed <= 1.0
  }

  predicate UnitDraws(draws: seq<SpawnDraw>) {
    forall i :: 0 <= i < |draws| ==> IsUnitDraw(draws[i])
  }

  /** GetRandomSpawnPoint: on each axis a draw between the volume's minimum and maximum. */
  function GetRandomSpawnPoint(volume: Box, d: SpawnDraw): (p: Vec3)
    requires IsUnitDraw(d)
    ensures volume.Min().x <= volume.Max().x ==> volume.Min().x <= p.x <= volume.Max().x
    ensures volume.Min().y <= volume.Max().y ==> volume.Min().y <= p.y <= volume.Max().y
    ensures volume.Min().z <= volume.Max().z ==> volume.Min().z <= p.z <= volume.Max().z
    ensures volume.Min().x <= volume.Max().x && volume.Min().y <= volume.Max().y && volume.Min().z <= volume.Max().z
      ==> volume.Contains(p)
  {
    Vec3(RandomRange(volume.Min().x, volume.Max().x, d.x),
         RandomRange(volume.Min().y, volume.Max().y, d.y),
         RandomRange(volume.Min().z, volume.Max().z, d.z))
  }

  /**
   * The spawn velocity lerp(0, maxVelocity, r): the draw's fraction of the
   * maximum velocity, so never longer than it.
   */
  function SpawnVelocity(maxVelocity: Vec3, d: SpawnDraw): (v: Vec3)
    requires IsUnitDraw(d)
    ensures v == Scale(d.speed, maxVelocity)
    ensures Dot(v, v) <= Dot(maxVelocity, maxVelocity)
  {
    SpawnSpeedAtMost(d.speed, maxVelocity);
    Lerp(Zero, maxVelocity, d.speed)
  }

  lemma SpawnSpeedAtMost(r: real, v: Vec3)
    requires 0.0 <= r <= 1.0
    ensures Dot(Scale(r, v), Scale(r, v)) <= Dot(v, v)
  {
    DotScaleBoth(r, v);
    DotSelfNonNegative(v);
    UnitSquareShrinks(r, Dot(v, v));
  }

  lemma UnitSquareShrinks(r: real, a: real)
    requires 0.0 <= r <= 1.0 && 0.0 <= a
    ensures r * r * a <= a
  {
    assert r * r <= 1.0 by { SquareAtMost(r, 1.0); }
    assert r * r * a <= 1.0 * a;
  }

  /** The settings one frame reads: the spawn volume and velocity, the interval and the kill height. */
  datatype SpawnSettings = SpawnSettings(volume: Box, maxVelocity: Vec3, interval: int, minY: real)

  /**
   * What a frame does to a ball it does not skip: the ball is (or stays)
   * active, and if it has fallen below the terrain it is moved to a fresh
   * spawn point with a fresh velocity; otherwise nothing about it changes.
   * Its previous position is never touched.
   */
  function Process(b: Ball, settings: SpawnSettings, d: SpawnDraw): (r: Ball)
    requires IsUnitDraw(d)
    ensures r.instantiated && r.radius == b.radius && r.lastPosition == b.lastPosition
    ensures b.position.y >= settings.minY ==> r.position == b.position && r.velocity == b.velocity
    ensures b.position.y < settings.minY ==>
      r.position == GetRandomSpawnPoint(settings.volume, d) && r.velocity == SpawnVelocity(settings.maxVelocity, d)
    ensures b.instantiated && b.position.y >= settings.minY ==> r == b
  {
    var active := b.(instantiated := true);
    if active.position.y < settings.minY then
      active.(position := GetRandomSpawnPoint(settings.volume, d), velocity := SpawnVelocity(settings.maxVelocity, d))
    else active
  }

  /** The balls together with the controller's two counters. */
  datatype SpawnState = SpawnState(balls: seq<Ball>, frames: int, count: int)

  /** One pass of the foreach body over ball j. */
  function Visit(s: SpawnState, j: int, settings: SpawnSettings, d: SpawnDraw): SpawnState
    requires 0 <= j < |s.balls| && IsUnitDraw(d)
  {
    var b := s.balls[j];
    if !b.instantiated && s.frames <= settings.interval then s
    else if !b.instantiated then SpawnState(s.balls[j := Process(b, settings, d)], 0, s.count + 1)
    else SpawnState(s.balls[j := Process(b, settings, d)], s.frames, s.count)
  }

  /** The loop over the first k balls. */
  function VisitAll(s: SpawnState, k: int, settings: SpawnSettings, draws: seq<SpawnDraw>): (t: SpawnState)
    requires 0 <= k <= |s.balls| == |draws| && UnitDraws(draws)
    ensures |t.balls| == |s.balls|
    decreases k
  {
    if k == 0 then s
    else Visit(VisitAll(s, k - 1, settings, draws), k - 1, settings, draws[k - 1])
  }

  /** The activated balls are exactly the first count ones. */
  predicate ActivePrefix(balls: seq<Ball>, count: int) {
    && 0 <= count <= |balls|
    && forall j :: 0 <= j < |balls| ==> (balls[j].instantiated <==> j < count)
  }

  /**
   * The activation count after the loop has visited k balls, starting from
   * n0 active balls with frames0 frames since the last activation: none is
   * activated while the counter is within the interval; otherwise, with a
   * non-negative interval, only the first dormant ball is (the counter drops
   * to 0), and with a negative interval every dormant ball visited is.
   */
  function CountAfter(n0: int, frames0: int, interval: int, k: int): int {
    if frames0 <= interval then n0
    else if interval >= 0 then (if k > n0 then n0 + 1 else n0)
    else if k > n0 then k else n0
  }

  /** The count after a whole frame over n balls. */
  function ExpectedCount(n0: int, frames0: int, interval: int, n: int): (c: int)
    requires 0 <= n0 <= n
    ensures frames0 <= interval ==> c == n0
    ensures frames0 > interval && interval >= 0 ==> c == if n0 < n then n0 + 1 else n
    ensures frames0 > interval && interval < 0 ==> c == n
    ensures n0 <= c <= n
  {
    CountAfter(n0, frames0, interval, n)
  }

  /**
   * What the loop over the first k balls does, in closed form: the count is
   * CountAfter, the frame counter is 0 if anything was activated and is
   * otherwise untouched, the active balls still form a prefix, and each
   * visited ball below the new count has been processed while every other
   * ball is as it was.
   */
  lemma {:induction false} VisitAllClosedForm(s: SpawnState, k: int, settings: SpawnSettings, draws: seq<SpawnDraw>)
    requires ActivePrefix(s.balls, s.count)
    requires 0 <= k <= |s.balls| == |draws| && UnitDraws(draws)
    ensures var t := VisitAll(s, k, settings, draws);
      && t.count == CountAfter(s.count, s.frames, settings.interval, k)
      && t.frames == (if t.count > s.count then 0 else s.frames)
      && ActivePrefix(t.balls, t.count)
      && forall j :: 0 <= j < |s.balls| ==>
           t.balls[j] == if j < k && j < t.count then Process(s.balls[j], settings, draws[j]) else s.balls[j]
    decreases k
  {
    if k > 0 {
      VisitAllClosedForm(s, k - 1, settings, draws);
      var t := VisitAll(s, k - 1, settings, draws);
      var u := Visit(t, k - 1, settings, draws[k - 1]);
      assert VisitAll(s, k, settings, draws) == u;
      var c := CountAfter(s.count, s.frames, settings.interval, k - 1);
      var c' := CountAfter(s.count, s.frames, settings.interval, k);
      assert t.count == c;
      if !t.balls[k - 1].instantiated && t.frames <= settings.interval {
        assert u == t;
        assert c' == c;
      } else if !t.balls[k - 1].instantiated {
        assert c == k - 1;
        assert c' == k;
      } else {
        assert c' == c;
      }
    }
  }

  // ---------------------------------------------------------------------------
  // The controller

  class NativeCollisionPhysicsController {
    const waterSpawnVolume: Box
    const waterInitialMaxVelocity: Vec3
    const waterSpawnInterval: int
    const numBalls: int
    const meanRadius: real
    var metaballs: array<Ball>
    var numInstantiatedBalls: int
    var terrainBounds: Box
    var maxY: real
    var minY: real
    var framesSinceInstantiation: int

    /** The editor range on numBalls, one ball per slot, and the active balls a prefix counted by numInstantiatedBalls. */
    ghost predicate Valid()
      reads this, metaballs
    {
      && 1 <= numBalls <= 100
      && metaballs.Length == numBalls
      && ActivePrefix(metaballs[..], numInstantiatedBalls)
      && framesSinceInstantiation >= 0
    }

    /** The settings a frame reads; the kill height is the terrain's minimum y. */
    function Settings(): SpawnSettings
      reads this
    {
      SpawnSettings(waterSpawnVolume, waterInitialMaxVelocity, waterSpawnInterval, terrainBounds.Min().y)
    }

    /** The serialized settings; both counters start at 0 and the ball array is created by Start. */
    constructor(waterSpawnVolume: Box, waterInitialMaxVelocity: Vec3, waterSpawnInterval: int, numBalls: int, meanRadius: real)
      requires 1 <= numBalls <= 100
      ensures this.waterSpawnVolume == waterSpawnVolume && this.waterInitialMaxVelocity == waterInitialMaxVelocity
      ensures this.waterSpawnInterval == waterSpawnInterval && this.numBalls == numBalls && this.meanRadius == meanRadius
      ensures numInstantiatedBalls == 0 && framesSinceInstantiation == 0 && metaballs.Length == 0
    {
      this.waterSpawnVolume := waterSpawnVolume;
      this.waterInitialMaxVelocity := waterInitialMaxVelocity;
      this.waterSpawnInterval := waterSpawnInterval;
      this.numBalls := numBalls;
      this.meanRadius := meanRadius;
      numInstantiatedBalls := 0;
      framesSinceInstantiation := 0;
      metaballs := new Ball[0];
    }

    /**
     * Start: record the terrain bounds and create numBalls dormant balls,
     * ball i at a spawn point with a spawn velocity from draws[i].
     */
    method Start(bounds: Box, draws: seq<SpawnDraw>)
      requires 1 <= numBalls <= 100 && numInstantiatedBalls == 0 && framesSinceInstantiation >= 0
      requires |draws| == numBalls && UnitDraws(draws)
      modifies this
      ensures Valid() && fresh(metaballs)
      ensures terrainBounds == bounds && maxY == bounds.Max().y && minY == bounds.Min().y
      ensures numInstantiatedBalls == 0 && framesSinceInstantiation == old(framesSinceInstantiation)
      ensures forall i :: 0 <= i < numBalls ==>
        var b := metaballs[i];
        && b.position == GetRandomSpawnPoint(waterSpawnVolume, draws[i])
        && b.lastPosition == b.position
        && b.velocity == SpawnVelocity(waterInitialMaxVelocity, draws[i])
        && b.radius == meanRadius && !b.instantiated
    {
      var balls := new Ball[numBalls];
      for i := 0 to numBalls
        modifies balls
        invariant forall j :: 0 <= j < i ==>
          balls[j] == Ball(GetRandomSpawnPoint(waterSpawnVolume, draws[j]), GetRandomSpawnPoint(waterSpawnVolume, draws[j]),
                           SpawnVelocity(waterInitialMaxVelocity, draws[j]), meanRadius, false)
      {
        var position := GetRandomSpawnPoint(waterSpawnVolume, draws[i]);
        var velocity := Lerp(Zero, waterInitialMaxVelocity, draws[i].speed);
        balls[i] := Ball(position, position, velocity, meanRadius, false);
      }
      terrainBounds := bounds;
      maxY := bounds.Max().y;
      minY := bounds.Min().y;
      metaballs := balls;
    }

    /**
     * Update: one frame of the lifecycle. The activation count grows as
     * ExpectedCount says, the frame counter restarts from 0 after an
     * activation and otherwise counts on, and each ball below the new count
     * is processed (activated, and respawned if it fell below the terrain)
     * while every dormant ball beyond it is left exactly as it was.
     */
    method Update(draws: seq<SpawnDraw>)
      requires Valid() && |draws| == numBalls && UnitDraws(draws)
      modifies this, metaballs
      ensures Valid() && metaballs == old(metaballs) && terrainBounds == old(terrainBounds)
      ensures numInstantiatedBalls
        == ExpectedCount(old(numInstantiatedBalls), old(framesSinceInstantiation), waterSpawnInterval, numBalls)
      ensures framesSinceInstantiation
        == (if numInstantiatedBalls > old(numInstantiatedBalls) then 0 else old(framesSinceInstantiation)) + 1
      ensures forall j :: 0 <= j < numBalls ==>
        metaballs[j] == if j < numInstantiatedBalls then Process(old(metaballs[j]), Settings(), draws[j]) else old(metaballs[j])
    {
      ghost var s0 := SpawnState(metaballs[..], framesSinceInstantiation, numInstantiatedBalls);
      for i := 0 to metaballs.Length
        invariant metaballs == old(metaballs) && terrainBounds == old(terrainBounds)
        invariant SpawnState(metaballs[..], framesSinceInstantiation, numInstantiatedBalls)
          == VisitAll(s0, i, Settings(), draws)
      {
        var ball := metaballs[i];
        if !ball.instantiated {
          if framesSinceInstantiation > waterSpawnInterval {
            framesSinceInstantiation := 0;
            ball := ball.(instantiated := true);
            numInstantiatedBalls := numInstantiatedBalls + 1;
          } else {
            continue;
          }
        }
        if ball.position.y < terrainBounds.Min().y {
          ball := ball.(position := GetRandomSpawnPoint(waterSpawnVolume, draws[i]),
                        velocity := Lerp(Zero, waterInitialMaxVelocity, draws[i].speed));
        }
        metaballs[i] := ball;
      }
      VisitAllClosedForm(s0, numBalls, Settings(), draws);
      framesSinceInstantiation := framesSinceInstantiation + 1;
    }
  }
}
