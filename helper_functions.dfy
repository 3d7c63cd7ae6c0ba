/**
 * The scalar interpolation helpers. The "bilinear" and "trilinear" variants
 * reuse one parameter t for every stage, so they blend along the diagonal of
 * the square or cube rather than at an independent point in it.
 */
module HelperFunctions {
  import opened Geometry

  /** Affine blend of f0 and f1: exact at both ends, constant when they agree, and between them for t in [0, 1]. */
  function InterpolateLinear(f0: real, f1: real, t: real): (r: real)
    ensures t == 0.0 ==> r == f0
    ensures t == 1.0 ==> r == f1
    ensures f0 == f1 ==> r == f0
    ensures 0.0 <= t <= 1.0 ==> MinReal(f0, f1) <= r <= MaxReal(f0, f1)
  {
    LinearBetween(f0, f1, t);
    (1.0 - t) * f0 + t * f1
  }

  lemma LinearBetween(f0: real, f1: real, t: real)
    ensures f0 == f1 ==> (1.0 - t) * f0 + t * f1 == f0
    ensures 0.0 <= t <= 1.0 && f0 <= f1 ==> f0 <= (1.0 - t) * f0 + t * f1 <= f1
    ensures 0.0 <= t <= 1.0 && f1 <= f0 ==> f1 <= (1.0 - t) * f0 + t * f1 <= f0
  {
    if 0.0 <= t <= 1.0 && f0 <= f1 {
      assert t * f0 <= t * f1;
    }
    if 0.0 <= t <= 1.0 && f1 <= f0 {
      assert t * f1 <= t * f0;
    }
  }

  /** Smallest and largest of four values, for the bounds of the blended results. */
  function Min4(a: real, b: real, c: real, d: real): real { MinReal(MinReal(a, b), MinReal(c, d)) }

  function Max4(a: real, b: real, c: real, d: real): real { MaxReal(MaxReal(a, b), MaxReal(c, d)) }

  /**
   * Two linear blends (f00 to f01, f10 to f11) blended again with the same t:
   * f00 at t = 0, f11 at t = 1, and within the four corners for t in [0, 1].
   */
  function InterpolateBilinear(f00: real, f01: real, f10: real, f11: real, t: real): (r: real)
    ensures t == 0.0 ==> r == f00
    ensures t == 1.0 ==> r == f11
    ensures 0.0 <= t <= 1.0 ==> Min4(f00, f01, f10, f11) <= r <= Max4(f00, f01, f10, f11)
  {
    var value1 := InterpolateLinear(f00, f01, t);
    var value2 := InterpolateLinear(f10, f11, t);
    InterpolateLinear(value1, value2, t)
  }

  /**
   * Two bilinear blends of the cube's faces, blended again with the same t:
   * f000 at t = 0, f111 at t = 1, and within the eight corners for t in [0, 1].
   */
  function InterpolateTrilinear(f000: real, f001: real, f010: real, f011: real,
                                f100: real, f101: real, f110: real, f111: real, t: real): (r: real)
    ensures t == 0.0 ==> r == f000
    ensures t == 1.0 ==> r == f111
    ensures 0.0 <= t <= 1.0 ==>
      MinReal(Min4(f000, f001, f010, f011), Min4(f100, f101, f110, f111)) <= r
    ensures 0.0 <= t <= 1.0 ==>
      r <= MaxReal(Max4(f000, f001, f010, f011), Max4(f100, f101, f110, f111))
  {
    var value1 := InterpolateBilinear(f000, f001, f010, f011, t);
    var value2 := InterpolateBilinear(f100, f101, f110, f111, t);
    InterpolateLinear(value1, value2, t)
  }

  /** With all corners equal, every variant returns that value whatever t is. */
  lemma InterpolationOfConstant(f: real, t: real)
    ensures InterpolateLinear(f, f, t) == f
    ensures InterpolateBilinear(f, f, f, f, t) == f
    ensures InterpolateTrilinear(f, f, f, f, f, f, f, f, t) == f
  {
  }
}
