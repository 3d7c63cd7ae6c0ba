/**
 * The engine value types the scripts use: 3-D and 2-D vectors, axis-aligned
 * bounds, interpolation and the uniform random range, all over exact reals.
 * Vector length is a square root, which the model does not compute: it is an
 * oracle `magnitude` passed in by the caller and constrained by IsMagnitude.
 */
module Geometry {

  datatype Vec3 = Vec3(x: real, y: real, z: real)

  datatype Vec2 = Vec2(x: real, y: real)

  const Zero: Vec3 := Vec3(0.0, 0.0, 0.0)

  /** Vector3.down */
  const Down: Vec3 := Vec3(0.0, -1.0, 0.0)

  /** Vector3.forward */
  const Forward: Vec3 := Vec3(0.0, 0.0, 1.0)

  /** Vector3.right */
  const Right: Vec3 := Vec3(1.0, 0.0, 0.0)

  function Add(a: Vec3, b: Vec3): Vec3 { Vec3(a.x + b.x, a.y + b.y, a.z + b.z) }

  function Sub(a: Vec3, b: Vec3): Vec3 { Vec3(a.x - b.x, a.y - b.y, a.z - b.z) }

  function Neg(a: Vec3): Vec3 { Vec3(-a.x, -a.y, -a.z) }

  function Scale(s: real, a: Vec3): Vec3 { Vec3(s * a.x, s * a.y, s * a.z) }

  function Dot(a: Vec3, b: Vec3): real { a.x * b.x + a.y * b.y + a.z * b.z }

  function Cross(a: Vec3, b: Vec3): Vec3 {
    Vec3(a.y * b.z - a.z * b.y, a.z * b.x - a.x * b.z, a.x * b.y - a.y * b.x)
  }

  function MinReal(a: real, b: real): real { if a <= b then a else b }

  function MaxReal(a: real, b: real): real { if a >= b then a else b }

  /** Vector3.Min and Vector3.Max: component-wise. */
  function MinVec(a: Vec3, b: Vec3): Vec3 { Vec3(MinReal(a.x, b.x), MinReal(a.y, b.y), MinReal(a.z, b.z)) }

  function MaxVec(a: Vec3, b: Vec3): Vec3 { Vec3(MaxReal(a.x, b.x), MaxReal(a.y, b.y), MaxReal(a.z, b.z)) }

  function Clamp01(t: real): real { if t < 0.0 then 0.0 else if t > 1.0 then 1.0 else t }

  /** Vector3.Lerp clamps its parameter to [0, 1]. */
  function Lerp(a: Vec3, b: Vec3, t: real): Vec3 { Add(a, Scale(Clamp01(t), Sub(b, a))) }

  /**
   * Random.Range(lo, hi) for floats, given the uniform draw u in [0, 1] that
   * the engine would have made: the result lies between the two bounds, in
   * whichever order they are given.
   */
  function RandomRange(lo: real, hi: real, u: real): (r: real)
    requires 0.0 <= u <= 1.0
    ensures lo <= hi ==> lo <= r <= hi
    ensures hi <= lo ==> hi <= r <= lo
    ensures u == 0.0 ==> r == lo
    ensures u == 1.0 ==> r == hi
  {
    var r := lo + (hi - lo) * u;
    RangeBetween(lo, hi, u, r);
    r
  }

  lemma RangeBetween(lo: real, hi: real, u: real, r: real)
    requires 0.0 <= u <= 1.0 && r == lo + (hi - lo) * u
    ensures lo <= hi ==> lo <= r <= hi
    ensures hi <= lo ==> hi <= r <= lo
  {
    assert hi - r == (hi - lo) * (1.0 - u);
    if lo <= hi {
      ProductNonNegative(hi - lo, u);
      ProductNonNegative(hi - lo, 1.0 - u);
    } else {
      ProductNonNegative(lo - hi, u);
      ProductNonNegative(lo - hi, 1.0 - u);
      assert (lo - hi) * u == -((hi - lo) * u);
      assert (lo - hi) * (1.0 - u) == -((hi - lo) * (1.0 - u));
    }
  }

  lemma ProductNonNegative(a: real, b: real)
    requires 0.0 <= a && 0.0 <= b
    ensures 0.0 <= a * b
  {
  }

  /** The caller's vector length: non-negative, and its square is the dot product. */
  ghost predicate IsMagnitude(magnitude: Vec3 -> real) {
    forall v :: 0.0 <= magnitude(v) && magnitude(v) * magnitude(v) == Dot(v, v)
  }

  /** Vector3.kEpsilon, below which Normalize gives the zero vector. */
  const NormalizeEpsilon: real := 0.00001

  /** Vector3.Normalize: v divided by its length, or zero when that is tiny. */
  function Normalize(magnitude: Vec3 -> real, v: Vec3): Vec3 {
    var m := magnitude(v);
    if m > NormalizeEpsilon then Scale(1.0 / m, v) else Zero
  }

  lemma DotScaleBoth(s: real, v: Vec3)
    ensures Dot(Scale(s, v), Scale(s, v)) == s * s * Dot(v, v)
  {
  }

  lemma SquareNonNegative(a: real)
    ensures 0.0 <= a * a
  {
  }

  lemma DotSelfNonNegative(v: Vec3)
    ensures 0.0 <= Dot(v, v)
  {
    SquareNonNegative(v.x);
    SquareNonNegative(v.y);
    SquareNonNegative(v.z);
  }

  /** A normalised vector whose length is above the threshold has unit length. */
  lemma NormalizeIsUnit(magnitude: Vec3 -> real, v: Vec3)
    requires IsMagnitude(magnitude)
    requires magnitude(v) > NormalizeEpsilon
    ensures Dot(Normalize(magnitude, v), Normalize(magnitude, v)) == 1.0
  {
    var m := magnitude(v);
    var s := 1.0 / m;
    DotScaleBoth(s, v);
    assert m * m == Dot(v, v);
    assert s * m == 1.0;
    calc {
      s * s * Dot(v, v);
      s * s * (m * m);
      (s * m) * (s * m);
      1.0;
    }
  }

  /** Lagrange's identity, which gives the Cauchy-Schwarz inequality in three dimensions. */
  lemma CauchySchwarz(a: Vec3, b: Vec3)
    ensures Dot(a, b) * Dot(a, b) <= Dot(a, a) * Dot(b, b)
  {
    var c := Cross(a, b);
    assert Dot(a, a) * Dot(b, b) - Dot(a, b) * Dot(a, b) == Dot(c, c);
    DotSelfNonNegative(c);
  }

  /** A vector whose squared length is at least 0.000001 is longer than the normalising threshold. */
  lemma MagnitudeAboveEpsilon(magnitude: Vec3 -> real, v: Vec3)
    requires IsMagnitude(magnitude)
    requires Dot(v, v) >= 0.000001
    ensures magnitude(v) > NormalizeEpsilon
  {
    var m := magnitude(v);
    assert 0.0 <= m && m * m == Dot(v, v);
    SquareAtLeast(m, Dot(v, v));
  }

  lemma SquareAtLeast(m: real, d: real)
    requires 0.0 <= m && m * m == d && d >= 0.000001
    ensures m > NormalizeEpsilon
  {
    if m <= NormalizeEpsilon {
      SquareAtMost(m, NormalizeEpsilon);
      assert false;
    }
  }

  lemma SquareAtMost(m: real, c: real)
    requires 0.0 <= m <= c
    ensures m * m <= c * c
  {
    assert m * m <= m * c;
  }

  /** Two non-negative numbers with equal squares are equal. */
  lemma SquareRootUnique(m: real, s: real)
    requires 0.0 <= m && 0.0 <= s && m * m == s * s
    ensures m == s
  {
    assert (m - s) * (m + s) == 0.0;
    if m + s != 0.0 {
      ZeroProduct(m - s, m + s);
    }
  }

  lemma ZeroProduct(a: real, b: real)
    requires a * b == 0.0 && b != 0.0
    ensures a == 0.0
  {
    assert a == (a * b) / b;
  }

  /** The magnitude of s * u, for a unit vector u and s >= 0, is s. */
  lemma MagnitudeOfScaledUnit(magnitude: Vec3 -> real, s: real, u: Vec3)
    requires IsMagnitude(magnitude)
    requires 0.0 <= s && Dot(u, u) == 1.0
    ensures magnitude(Scale(s, u)) == s
  {
    var m := magnitude(Scale(s, u));
    DotScaleBoth(s, u);
    assert 0.0 <= m && m * m == s * s;
    SquareRootUnique(m, s);
  }

  /** A unit vector has length 1. */
  lemma MagnitudeOfUnit(magnitude: Vec3 -> real, u: Vec3)
    requires IsMagnitude(magnitude)
    requires Dot(u, u) == 1.0
    ensures magnitude(u) == 1.0
  {
    var m := magnitude(u);
    assert 0.0 <= m && m * m == 1.0 * 1.0;
    SquareRootUnique(m, 1.0);
  }

  /**
   * Unity's Bounds: a centre and half-size. The engine's Contains is
   * inclusive on every axis.
   */
  datatype Box = Box(center: Vec3, extents: Vec3) {
    function Min(): Vec3 { Sub(center, extents) }

    function Max(): Vec3 { Add(center, extents) }

    predicate Contains(p: Vec3) {
      Min().x <= p.x <= Max().x && Min().y <= p.y <= Max().y && Min().z <= p.z <= Max().z
    }
  }

  /** new Bounds(center, size) */
  function BoxOf(center: Vec3, size: Vec3): Box { Box(center, Scale(0.5, size)) }

  /** Bounds.SetMinMax */
  function BoxFromMinMax(lo: Vec3, hi: Vec3): (b: Box)
    ensures b.Min() == lo && b.Max() == hi
  {
    var extents := Scale(0.5, Sub(hi, lo));
    Box(Add(lo, extents), extents)
  }

  /** Bounds.Encapsulate(point): grow the box to the component-wise hull of itself and the point. */
  function Encapsulate(b: Box, p: Vec3): (r: Box)
    ensures r.Min() == MinVec(b.Min(), p) && r.Max() == MaxVec(b.Max(), p)
    ensures r.Contains(p)
  {
    BoxFromMinMax(MinVec(b.Min(), p), MaxVec(b.Max(), p))
  }
}
