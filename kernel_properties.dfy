/**
 * What the three kernels promise: when a sample is accepted, which voxels
 * it reads, where tricubic falls back to trilinear, and that all three
 * agree at grid points.
 */
module KernelProperties {
  import opened Geometry
  import opened Calibration
  import opened Interpolation

  // ---------------------------------------------------------------------
  // Rounding and the nearest-neighbour kernel

  /** ROUND is within half a unit of its argument. */
  lemma RoundIsNearest(x: real)
    ensures -0.5 <= Round(x) as real - x <= 0.5
  {
  }

  /** ROUND treats both signs alike, so halves go away from zero. */
  lemma RoundIsSymmetric(x: real)
    ensures Round(-x) == -Round(x)
  {
  }

  /** A rounded coordinate is a grid index exactly when the coordinate is within half a voxel of the grid. */
  lemma RoundInRange(x: real, n: nat)
    ensures 0 <= Round(x) < n <==> -0.5 < x < n as real - 0.5
  {
  }

  /** The coordinate is less than half a voxel outside the grid on every axis. */
  predicate WithinHalfVoxel(v: Volume, c: Vec3) {
    && -0.5 < c.s < v.nslc as real - 0.5
    && -0.5 < c.r < v.nrow as real - 0.5
    && -0.5 < c.c < v.ncol as real - 0.5
  }

  /**
   * Nearest neighbour accepts exactly the coordinates less than half a voxel
   * outside the grid whose nearest voxel holds genuine data, and then gives
   * that voxel calibrated with the scale and offset of its own slice.
   */
  lemma NearestAcceptance(v: Volume, c: Vec3)
    requires WellFormed(v)
    ensures RoundedInside(v, c) <==> WithinHalfVoxel(v, c)
    ensures Nearest(v, c).accepted <==>
      WithinHalfVoxel(v, c) && RoundedInside(v, c) &&
      IsValid(v, RawAt(v, Round(c.s), Round(c.r), Round(c.c)))
    ensures Nearest(v, c).accepted ==>
      RoundedInside(v, c) &&
      Nearest(v, c).value == CalibrateAt(v, Round(c.s), RawAt(v, Round(c.s), Round(c.r), Round(c.c)))
    ensures !Nearest(v, c).accepted ==> Nearest(v, c).value == v.fillvalue
  {
    RoundInRange(c.s, v.nslc);
    RoundInRange(c.r, v.nrow);
    RoundInRange(c.c, v.ncol);
  }

  // ---------------------------------------------------------------------
  // Trilinear

  /**
   * Trilinear accepts exactly the coordinates on the grid whose whole cell
   * holds genuine data; a single fill marker among the eight corners, or a
   * coordinate off the grid, gives the fill value.
   */
  lemma TrilinearAcceptance(v: Volume, c: Vec3)
    requires HasCells(v)
    ensures Trilinear(v, c).accepted <==>
      InGrid(v, c) &&
      CellValid(v, CellIndex(c.s, v.nslc), CellIndex(c.r, v.nrow), CellIndex(c.c, v.ncol))
    ensures !Trilinear(v, c).accepted ==> Trilinear(v, c).value == v.fillvalue
  {
  }

  /** The floor of a whole number is that number. */
  lemma FloorOfWhole(i: int)
    ensures (i as real).Floor == i
  {
  }

  /** On a grid point the cell index is one of the two cells the point belongs to. */
  lemma CellIndexAtGridPoint(i: int, size: nat)
    requires size >= 2 && 0 <= i < size
    ensures CellIndex(i as real, size) == i || (i == size - 1 && CellIndex(i as real, size) == i - 1)
  {
    FloorOfWhole(i);
  }

  /** With whole weights the bilinear blend is the corner the weights point to. */
  lemma BilinearAtCorner(v: Volume, i: int, j: int, k: int, a: int, b: int)
    requires WellFormed(v)
    requires 0 <= i < v.nslc && 0 <= j && j + 1 < v.nrow && 0 <= k && k + 1 < v.ncol
    requires 0 <= a <= 1 && 0 <= b <= 1
    ensures Bilinear(v, i, j, k, a as real, b as real) == RawAt(v, i, j + a, k + b)
  {
  }

  /** A linear blend with a whole weight picks one end. */
  lemma LinearAtEnd(x: real, y: real, a: int)
    requires 0 <= a <= 1
    ensures Lerp(x, y, a as real) == if a == 0 then x else y
  {
    if a == 1 {
      assert (1.0 - a as real) * x + (a as real) * y == 0.0 * x + 1.0 * y;
    } else {
      assert (1.0 - a as real) * x + (a as real) * y == 1.0 * x + 0.0 * y;
    }
  }

  /**
   * At a grid point trilinear reproduces the calibrated voxel, and agrees
   * with nearest neighbour whenever it accepts.
   */
  lemma TrilinearAtGridPoint(v: Volume, i: int, j: int, k: int)
    requires HasCells(v)
    requires 0 <= i < v.nslc && 0 <= j < v.nrow && 0 <= k < v.ncol
    requires Trilinear(v, Vec3(i as real, j as real, k as real)).accepted
    ensures Trilinear(v, Vec3(i as real, j as real, k as real)).value == CalibrateAt(v, i, RawAt(v, i, j, k))
    ensures Nearest(v, Vec3(i as real, j as real, k as real)) == Trilinear(v, Vec3(i as real, j as real, k as real))
  {
    var c := Vec3(i as real, j as real, k as real);
    var ci, cj, ck := CellIndex(c.s, v.nslc), CellIndex(c.r, v.nrow), CellIndex(c.c, v.ncol);
    CellIndexAtGridPoint(i, v.nslc);
    CellIndexAtGridPoint(j, v.nrow);
    CellIndexAtGridPoint(k, v.ncol);
    var a, b, e := i - ci, j - cj, k - ck;
    assert c.s - ci as real == a as real && c.r - cj as real == b as real && c.c - ck as real == e as real;
    BilinearAtCorner(v, ci, cj, ck, b, e);
    BilinearAtCorner(v, ci + 1, cj, ck, b, e);
    var lower := SliceBlend(v, ci, cj, ck, b as real, e as real);
    var upper := SliceBlend(v, ci + 1, cj, ck, b as real, e as real);
    LinearAtEnd(lower, upper, a);
    assert Trilinear(v, c).value == CalibrateAt(v, i, RawAt(v, i, j, k));
    assert IsValid(v, RawAt(v, i, j, k));
    RoundOfWhole(i);
    RoundOfWhole(j);
    RoundOfWhole(k);
  }

  lemma RoundOfWhole(i: int)
    requires i >= 0
    ensures Round(i as real) == i
  {
    assert (i as real + 0.5).Floor == i;
  }

  // ---------------------------------------------------------------------
  // Blends stay between their ends

  /** The smaller and the larger of two values: the bounds of a blend and of a slice's calibrated span. */
  function Min(x: real, y: real): real { if x <= y then x else y }
  function Max(x: real, y: real): real { if x <= y then y else x }

  /** A linear blend with a weight in [0, 1] lies between its two ends. */
  lemma BlendBetween(x: real, y: real, f: real)
    requires 0.0 <= f <= 1.0
    ensures Min(x, y) <= Lerp(x, y, f) <= Max(x, y)
  {
    var d := y - x;
    ScaledBetween(f, d);
    assert Lerp(x, y, f) == x + f * d by {
      assert (1.0 - f) * x + f * y == x - f * x + f * y;
      assert f * d == f * y - f * x;
    }
    if x <= y {
      assert Min(x, y) == x && Max(x, y) == y;
    } else {
      assert Min(x, y) == y && Max(x, y) == x;
    }
  }

  /** A fraction in [0, 1] of d lies between 0 and d. */
  lemma ScaledBetween(f: real, d: real)
    requires 0.0 <= f <= 1.0
    ensures d >= 0.0 ==> 0.0 <= f * d <= d
    ensures d < 0.0 ==> d <= f * d <= 0.0
  {
    assert d - f * d == (1.0 - f) * d;
    if d >= 0.0 {
      NonNegativeProduct(f, d);
      NonNegativeProduct(1.0 - f, d);
    } else {
      NonNegativeProduct(f, -d);
      NonNegativeProduct(1.0 - f, -d);
      assert f * -d == -(f * d) && (1.0 - f) * -d == -((1.0 - f) * d);
    }
  }

  lemma NonNegativeProduct(a: real, b: real)
    requires a >= 0.0 && b >= 0.0
    ensures a * b >= 0.0
  {
  }

  /** The bilinear blend of four genuine samples is itself within the valid range. */
  lemma BilinearInRange(v: Volume, i: int, j: int, k: int, f1: real, f2: real)
    requires WellFormed(v)
    requires 0 <= i < v.nslc && 0 <= j && j + 1 < v.nrow && 0 <= k && k + 1 < v.ncol
    requires 0.0 <= f1 <= 1.0 && 0.0 <= f2 <= 1.0
    requires IsValid(v, RawAt(v, i, j, k)) && IsValid(v, RawAt(v, i, j, k + 1))
    requires IsValid(v, RawAt(v, i, j + 1, k)) && IsValid(v, RawAt(v, i, j + 1, k + 1))
    ensures v.vrange.lo <= Bilinear(v, i, j, k, f1, f2) <= v.vrange.hi
  {
    var p, q := RawAt(v, i, j, k), RawAt(v, i, j, k + 1);
    var r, s := RawAt(v, i, j + 1, k), RawAt(v, i, j + 1, k + 1);
    var near, far := Lerp(p, q, f2), Lerp(r, s, f2);
    BlendBetween(p, q, f2);
    BlendBetween(r, s, f2);
    BlendBetween(near, far, f1);
    assert Bilinear(v, i, j, k, f1, f2) == Lerp(near, far, f1);
  }

  /** The span a slice's calibration gives the valid range. */
  function SpanLow(v: Volume, i: int): real
    requires WellFormed(v) && 0 <= i < v.nslc
  {
    Min(CalibrateAt(v, i, v.vrange.lo), CalibrateAt(v, i, v.vrange.hi))
  }

  function SpanHigh(v: Volume, i: int): real
    requires WellFormed(v) && 0 <= i < v.nslc
  {
    Max(CalibrateAt(v, i, v.vrange.lo), CalibrateAt(v, i, v.vrange.hi))
  }

  /** Calibrating a value of the valid range stays within the slice's span. */
  lemma CalibratedInSpan(v: Volume, i: int, x: real)
    requires WellFormed(v) && 0 <= i < v.nslc
    requires v.vrange.lo <= x <= v.vrange.hi
    ensures SpanLow(v, i) <= CalibrateAt(v, i, x) <= SpanHigh(v, i)
  {
    var sc := v.scale[i];
    if sc >= 0.0 {
      assert sc * (x - v.vrange.lo) >= 0.0 && sc * (v.vrange.hi - x) >= 0.0;
    } else {
      assert sc * (x - v.vrange.lo) <= 0.0 && sc * (v.vrange.hi - x) <= 0.0;
    }
  }

  /**
   * An accepted trilinear sample lies within the calibrated spans of the two
   * slices it blends: calibration never leaves the range that the slices'
   * maps give the valid range.
   */
  lemma TrilinearWithinSpans(v: Volume, c: Vec3)
    requires HasCells(v)
    requires Trilinear(v, c).accepted
    ensures InGrid(v, c)
    ensures var i := CellIndex(c.s, v.nslc);
      Min(SpanLow(v, i), SpanLow(v, i + 1)) <= Trilinear(v, c).value <= Max(SpanHigh(v, i), SpanHigh(v, i + 1))
  {
    var i := CellIndex(c.s, v.nslc);
    var f0, lower, upper := TrilinearBlend(v, c);
    BlendWithinSpans(lower, upper, f0,
                     SpanLow(v, i), SpanHigh(v, i), SpanLow(v, i + 1), SpanHigh(v, i + 1));
  }

  /** An accepted trilinear sample blends a value of slice i's span with one of slice i + 1's. */
  lemma TrilinearBlend(v: Volume, c: Vec3) returns (f0: real, lower: real, upper: real)
    requires HasCells(v)
    requires Trilinear(v, c).accepted
    ensures InGrid(v, c)
    ensures var i := CellIndex(c.s, v.nslc);
      && 0.0 <= f0 <= 1.0
      && SpanLow(v, i) <= lower <= SpanHigh(v, i)
      && SpanLow(v, i + 1) <= upper <= SpanHigh(v, i + 1)
      && Trilinear(v, c).value == Lerp(lower, upper, f0)
  {
    var i, j, k := CellIndex(c.s, v.nslc), CellIndex(c.r, v.nrow), CellIndex(c.c, v.ncol);
    var f1, f2 := c.r - j as real, c.c - k as real;
    f0 := c.s - i as real;
    lower, upper := SliceBlend(v, i, j, k, f1, f2), SliceBlend(v, i + 1, j, k, f1, f2);
    CellSlices(v, i, j, k);
    SliceWithinSpan(v, i, j, k, f1, f2);
    SliceWithinSpan(v, i + 1, j, k, f1, f2);
  }

  lemma CellSlices(v: Volume, i: int, j: int, k: int)
    requires WellFormed(v)
    requires 0 <= i && i + 1 < v.nslc && 0 <= j && j + 1 < v.nrow && 0 <= k && k + 1 < v.ncol
    requires CellValid(v, i, j, k)
    ensures IsValid(v, RawAt(v, i, j, k)) && IsValid(v, RawAt(v, i, j, k + 1))
    ensures IsValid(v, RawAt(v, i, j + 1, k)) && IsValid(v, RawAt(v, i, j + 1, k + 1))
    ensures IsValid(v, RawAt(v, i + 1, j, k)) && IsValid(v, RawAt(v, i + 1, j, k + 1))
    ensures IsValid(v, RawAt(v, i + 1, j + 1, k)) && IsValid(v, RawAt(v, i + 1, j + 1, k + 1))
  {
  }

  /** One slice's bilinear blend, calibrated, stays within that slice's span. */
  lemma SliceWithinSpan(v: Volume, i: int, j: int, k: int, f1: real, f2: real)
    requires WellFormed(v)
    requires 0 <= i < v.nslc && 0 <= j && j + 1 < v.nrow && 0 <= k && k + 1 < v.ncol
    requires 0.0 <= f1 <= 1.0 && 0.0 <= f2 <= 1.0
    requires IsValid(v, RawAt(v, i, j, k)) && IsValid(v, RawAt(v, i, j, k + 1))
    requires IsValid(v, RawAt(v, i, j + 1, k)) && IsValid(v, RawAt(v, i, j + 1, k + 1))
    ensures SpanLow(v, i) <= SliceBlend(v, i, j, k, f1, f2) <= SpanHigh(v, i)
  {
    BilinearInRange(v, i, j, k, f1, f2);
    CalibratedInSpan(v, i, Bilinear(v, i, j, k, f1, f2));
  }

  lemma BlendWithinSpans(x: real, y: real, f: real, xlo: real, xhi: real, ylo: real, yhi: real)
    requires 0.0 <= f <= 1.0 && xlo <= x <= xhi && ylo <= y <= yhi
    ensures Min(xlo, ylo) <= Lerp(x, y, f) <= Max(xhi, yhi)
  {
    BlendBetween(x, y, f);
  }

  // ---------------------------------------------------------------------
  // The cubic blend

  /** The blend passes through the middle two values. */
  lemma CubicEndpoints(v0: real, v1: real, v2: real, v3: real)
    ensures CubicBlend(v0, v1, v2, v3, 0.0) == v1
    ensures CubicBlend(v0, v1, v2, v3, 1.0) == v2
  {
  }

  /** The derivative of the blend in u. */
  function CubicSlope(v0: real, v1: real, v2: real, v3: real, u: real): real {
    0.5 * (v2 - v0) + 2.0 * u * (v0 - 2.5 * v1 + 2.0 * v2 - 0.5 * v3) +
    3.0 * u * u * (-0.5 * v0 + 1.5 * v1 - 1.5 * v2 + 0.5 * v3)
  }

  /** CubicSlope is the derivative: the blend's increments are the slope plus higher-order terms. */
  lemma CubicSlopeIsDerivative(v0: real, v1: real, v2: real, v3: real, u: real, h: real)
    ensures var b := v0 - 2.5 * v1 + 2.0 * v2 - 0.5 * v3;
      var c := -0.5 * v0 + 1.5 * v1 - 1.5 * v2 + 0.5 * v3;
      CubicBlend(v0, v1, v2, v3, u + h) - CubicBlend(v0, v1, v2, v3, u) ==
        h * CubicSlope(v0, v1, v2, v3, u) + h * h * (b + 3.0 * c * u) + h * h * h * c
  {
  }

  /**
   * Neighbouring cells share the value and the slope where they meet: the
   * blend of (v0, v1, v2, v3) at u = 1 and that of (v1, v2, v3, v4) at u = 0.
   */
  lemma CubicContinuity(v0: real, v1: real, v2: real, v3: real, v4: real)
    ensures CubicBlend(v0, v1, v2, v3, 1.0) == CubicBlend(v1, v2, v3, v4, 0.0)
    ensures CubicSlope(v0, v1, v2, v3, 1.0) == CubicSlope(v1, v2, v3, v4, 0.0)
  {
  }

  /** The blend reproduces evenly spaced (linear) data exactly. */
  lemma CubicReproducesLines(a: real, d: real, u: real)
    ensures CubicBlend(a, a + d, a + 2.0 * d, a + 3.0 * d, u) == a + d + d * u
  {
  }

  // ---------------------------------------------------------------------
  // The recursive evaluator

  /** A raw sample of the stencil with lower corner idx, at offsets (a, b, e). */
  function StencilSample(v: Volume, idx: seq<int>, a: int, b: int, e: int): real
    requires WellFormed(v) && |idx| == 3
    requires 0 <= idx[0] + a < v.nslc && 0 <= idx[1] + b < v.nrow && 0 <= idx[2] + e < v.ncol
  {
    RawAt(v, idx[0] + a, idx[1] + b, idx[2] + e)
  }

  lemma StencilBounds(v: Volume, idx: seq<int>, dim: nat)
    requires |idx| == 3 && StencilInRange(v, idx, dim)
    ensures 0 <= idx[0] && idx[0] + Reach(dim, 0) < v.nslc
    ensures 0 <= idx[1] && idx[1] + Reach(dim, 1) < v.nrow
    ensures 0 <= idx[2] && idx[2] + Reach(dim, 2) < v.ncol
  {
    assert SizeOf(v, 0) == v.nslc && SizeOf(v, 1) == v.nrow && SizeOf(v, 2) == v.ncol;
  }

  /** Every raw sample of the evaluator's stencil is genuine data. */
  predicate StencilValid(v: Volume, idx: seq<int>, dim: nat)
    requires WellFormed(v) && |idx| == 3 && StencilInRange(v, idx, dim)
  {
    StencilBounds(v, idx, dim);
    forall a, b, e :: 0 <= a <= Reach(dim, 0) && 0 <= b <= Reach(dim, 1) && 0 <= e <= Reach(dim, 2) ==>
      IsValid(v, StencilSample(v, idx, a, b, e))
  }

  /** Stepping the index along axis dim shifts the stencil along that axis. */
  lemma StepSample(v: Volume, idx: seq<int>, dim: nat, k: int, a: int, b: int, e: int)
    requires WellFormed(v) && |idx| == 3 && dim < 3
    requires 0 <= idx[0] + a + (if dim == 0 then k else 0) < v.nslc
    requires 0 <= idx[1] + b + (if dim == 1 then k else 0) < v.nrow
    requires 0 <= idx[2] + e + (if dim == 2 then k else 0) < v.ncol
    ensures StencilSample(v, Step(idx, dim, k), a, b, e) ==
      StencilSample(v, idx, a + (if dim == 0 then k else 0), b + (if dim == 1 then k else 0),
                    e + (if dim == 2 then k else 0))
  {
  }

  /** On the last axis the evaluator accepts exactly when its four samples are genuine data. */
  lemma AcceptanceOnLine(v: Volume, idx: seq<int>, frac: seq<real>)
    requires WellFormed(v) && |idx| == 3 && |frac| == 3
    requires StencilInRange(v, idx, 2)
    ensures NCubicSpec(v, idx, 2, frac).accepted <==> StencilValid(v, idx, 2)
  {
    StencilBounds(v, idx, 2);
    var g := AxisSamples(v, idx, 2, frac);
    forall e | 0 <= e < 4 ensures g[e].accepted == IsValid(v, StencilSample(v, idx, 0, 0, e)) { }
    if AllAccepted(g) {
      forall a, b, e | 0 <= a <= Reach(2, 0) && 0 <= b <= Reach(2, 1) && 0 <= e <= Reach(2, 2)
        ensures IsValid(v, StencilSample(v, idx, a, b, e))
      {
        assert a == 0 && b == 0;
        assert e == 0 || e == 1 || e == 2 || e == 3;
      }
    }
    if StencilValid(v, idx, 2) {
      assert IsValid(v, StencilSample(v, idx, 0, 0, 0)) && IsValid(v, StencilSample(v, idx, 0, 0, 1));
      assert IsValid(v, StencilSample(v, idx, 0, 0, 2)) && IsValid(v, StencilSample(v, idx, 0, 0, 3));
    }
  }

  /** A genuine stencil has genuine sub-stencils at every step along its axis. */
  lemma ValidDown(v: Volume, idx: seq<int>, dim: nat, k: int)
    requires WellFormed(v) && |idx| == 3 && dim < 2 && 0 <= k <= 3
    requires StencilInRange(v, idx, dim) && StencilValid(v, idx, dim)
    ensures StencilInRange(v, Step(idx, dim, k), dim + 1) && StencilValid(v, Step(idx, dim, k), dim + 1)
  {
    StepInRange(v, idx, dim, k);
    var st := Step(idx, dim, k);
    StencilBounds(v, idx, dim);
    StencilBounds(v, st, dim + 1);
    forall a, b, e | 0 <= a <= Reach(dim + 1, 0) && 0 <= b <= Reach(dim + 1, 1) && 0 <= e <= Reach(dim + 1, 2)
      ensures IsValid(v, StencilSample(v, st, a, b, e))
    {
      StepSample(v, idx, dim, k, a, b, e);
    }
  }

  /** A stencil whose four sub-stencils along its axis are genuine is genuine. */
  lemma ValidUp(v: Volume, idx: seq<int>, dim: nat)
    requires WellFormed(v) && |idx| == 3 && dim < 2
    requires StencilInRange(v, idx, dim)
    requires forall k :: 0 <= k <= 3 ==>
      StencilInRange(v, Step(idx, dim, k), dim + 1) && StencilValid(v, Step(idx, dim, k), dim + 1)
    ensures StencilValid(v, idx, dim)
  {
    StencilBounds(v, idx, dim);
    forall a, b, e | 0 <= a <= Reach(dim, 0) && 0 <= b <= Reach(dim, 1) && 0 <= e <= Reach(dim, 2)
      ensures IsValid(v, StencilSample(v, idx, a, b, e))
    {
      var k := if dim == 0 then a else b;
      var st := Step(idx, dim, k);
      assert StencilInRange(v, st, dim + 1) && StencilValid(v, st, dim + 1);
      StencilBounds(v, st, dim + 1);
      if dim == 0 {
        StepSample(v, idx, 0, k, 0, b, e);
        assert IsValid(v, StencilSample(v, st, 0, b, e));
      } else {
        StepSample(v, idx, 1, k, a, 0, e);
        assert IsValid(v, StencilSample(v, st, a, 0, e));
      }
    }
  }

  /**
   * The evaluator accepts exactly when every sample of its 4x4x4 (on axis 0),
   * 4x4 or 4 stencil is genuine data: one fill marker anywhere, at any depth
   * of the recursion, rejects the whole evaluation.
   */
  lemma {:induction false} NCubicAcceptance(v: Volume, idx: seq<int>, dim: nat, frac: seq<real>)
    requires WellFormed(v) && |idx| == 3 && |frac| == 3 && dim < 3
    requires StencilInRange(v, idx, dim)
    ensures NCubicSpec(v, idx, dim, frac).accepted <==> StencilValid(v, idx, dim)
    decreases 3 - dim, 2
  {
    if dim == 2 {
      AcceptanceOnLine(v, idx, frac);
    } else {
      var g := AxisSamples(v, idx, dim, frac);
      assert NCubicSpec(v, idx, dim, frac).accepted == AllAccepted(g);
      if StencilValid(v, idx, dim) {
        AcceptedWhenValid(v, idx, dim, frac);
      }
      if AllAccepted(g) {
        ValidWhenAccepted(v, idx, dim, frac);
      }
    }
  }

  /** A stencil of genuine data gives four accepted samples along its axis. */
  lemma {:induction false} AcceptedWhenValid(v: Volume, idx: seq<int>, dim: nat, frac: seq<real>)
    requires WellFormed(v) && |idx| == 3 && |frac| == 3 && dim < 2
    requires StencilInRange(v, idx, dim) && StencilValid(v, idx, dim)
    ensures AllAccepted(AxisSamples(v, idx, dim, frac))
    decreases 3 - dim, 1
  {
    ValidDown(v, idx, dim, 0);
    ValidDown(v, idx, dim, 1);
    ValidDown(v, idx, dim, 2);
    ValidDown(v, idx, dim, 3);
    AxisAcceptance(v, idx, dim, frac, 0);
    AxisAcceptance(v, idx, dim, frac, 1);
    AxisAcceptance(v, idx, dim, frac, 2);
    AxisAcceptance(v, idx, dim, frac, 3);
  }

  /** Four accepted samples along the axis mean the whole stencil is genuine data. */
  lemma {:induction false} ValidWhenAccepted(v: Volume, idx: seq<int>, dim: nat, frac: seq<real>)
    requires WellFormed(v) && |idx| == 3 && |frac| == 3 && dim < 2
    requires StencilInRange(v, idx, dim) && AllAccepted(AxisSamples(v, idx, dim, frac))
    ensures StencilValid(v, idx, dim)
    decreases 3 - dim, 1
  {
    forall k | 0 <= k <= 3
      ensures StencilInRange(v, Step(idx, dim, k), dim + 1) && StencilValid(v, Step(idx, dim, k), dim + 1)
    {
      AxisAcceptance(v, idx, dim, frac, k);
      assert k == 0 || k == 1 || k == 2 || k == 3;
    }
    ValidUp(v, idx, dim);
  }

  /** Point k along axis dim is accepted exactly when its sub-stencil is genuine data. */
  lemma {:induction false} AxisAcceptance(v: Volume, idx: seq<int>, dim: nat, frac: seq<real>, k: int)
    requires WellFormed(v) && |idx| == 3 && |frac| == 3 && dim < 2
    requires StencilInRange(v, idx, dim) && 0 <= k <= 3
    ensures StencilInRange(v, Step(idx, dim, k), dim + 1)
    ensures AxisSample(v, idx, dim, frac, k).accepted <==> StencilValid(v, Step(idx, dim, k), dim + 1)
    decreases 3 - dim, 0
  {
    StepInRange(v, idx, dim, k);
    NCubicAcceptance(v, Step(idx, dim, k), dim + 1, frac);
  }

  /** The offset of the centre sample the evaluator at axis dim reproduces at zero fractions. */
  function Lift(dim: nat, d: nat): int {
    if d >= dim then 1 else 0
  }

  /** The centre sample of the stencil: the second point along every axis the evaluator blends. */
  function Centre(v: Volume, idx: seq<int>, dim: nat): real
    requires WellFormed(v) && |idx| == 3 && StencilInRange(v, idx, dim)
  {
    StencilBounds(v, idx, dim);
    StencilSample(v, idx, Lift(dim, 0), Lift(dim, 1), Lift(dim, 2))
  }

  /** The centre of the sub-stencil one step along the axis is the stencil's own centre. */
  lemma CentreOfStep(v: Volume, idx: seq<int>, dim: nat)
    requires WellFormed(v) && |idx| == 3 && dim < 2 && StencilInRange(v, idx, dim)
    ensures StencilInRange(v, Step(idx, dim, 1), dim + 1)
    ensures Centre(v, Step(idx, dim, 1), dim + 1) == Centre(v, idx, dim)
  {
    StepInRange(v, idx, dim, 1);
    StencilBounds(v, idx, dim);
    StencilBounds(v, Step(idx, dim, 1), dim + 1);
    StepSample(v, idx, dim, 1, Lift(dim + 1, 0), Lift(dim + 1, 1), Lift(dim + 1, 2));
  }

  /**
   * At zero fractions an accepted evaluation gives the stencil's centre
   * sample, genuine data, calibrated when it blends slices.
   */
  lemma {:induction false} NCubicAtGridPoint(v: Volume, idx: seq<int>, dim: nat, frac: seq<real>)
    requires WellFormed(v) && |idx| == 3 && |frac| == 3 && dim < 3
    requires StencilInRange(v, idx, dim)
    requires frac[0] == 0.0 && frac[1] == 0.0 && frac[2] == 0.0
    requires NCubicSpec(v, idx, dim, frac).accepted
    ensures dim == 0 ==> 0 <= idx[0] + 1 < v.nslc
    ensures IsValid(v, Centre(v, idx, dim))
    ensures NCubicSpec(v, idx, dim, frac).value ==
      if dim == 0 then CalibrateAt(v, idx[0] + 1, Centre(v, idx, dim)) else Centre(v, idx, dim)
    decreases 3 - dim
  {
    StencilBounds(v, idx, dim);
    var g := AxisSamples(v, idx, dim, frac);
    if dim == 2 {
      CubicEndpoints(g[0].value, g[1].value, g[2].value, g[3].value);
      assert g[1].value == Centre(v, idx, dim);
    } else {
      CentreOfStep(v, idx, dim);
      NCubicAtGridPoint(v, Step(idx, dim, 1), dim + 1, frac);
      assert g[1] == NCubicSpec(v, Step(idx, dim, 1), dim + 1, frac);
      assert g[1].value == Centre(v, idx, dim);
      if dim == 0 {
        CubicEndpoints(CalibrateAt(v, idx[0], g[0].value), CalibrateAt(v, idx[0] + 1, g[1].value),
                       CalibrateAt(v, idx[0] + 2, g[2].value), CalibrateAt(v, idx[0] + 3, g[3].value));
      } else {
        CubicEndpoints(g[0].value, g[1].value, g[2].value, g[3].value);
      }
    }
  }

  /**
   * The evaluator calibrates only when blending slices: below axis 0 its
   * answer does not depend on the scale and offset arrays at all.
   */
  lemma {:induction false} InnerAxesIgnoreCalibration(v: Volume, scale: seq<real>, offset: seq<real>,
                                                       idx: seq<int>, dim: nat, frac: seq<real>)
    requires WellFormed(v) && |scale| == v.nslc && |offset| == v.nslc
    requires |idx| == 3 && |frac| == 3 && 1 <= dim < 3
    requires StencilInRange(v, idx, dim)
    ensures NCubicSpec(v.(scale := scale, offset := offset), idx, dim, frac) == NCubicSpec(v, idx, dim, frac)
    decreases 3 - dim, 1
  {
    var w := v.(scale := scale, offset := offset);
    assert StencilInRange(w, idx, dim) by {
      forall d | 0 <= d < 3 ensures SizeOf(w, d) == SizeOf(v, d) { }
    }
    AxisIgnoresCalibration(v, scale, offset, idx, dim, frac, 0);
    AxisIgnoresCalibration(v, scale, offset, idx, dim, frac, 1);
    AxisIgnoresCalibration(v, scale, offset, idx, dim, frac, 2);
    AxisIgnoresCalibration(v, scale, offset, idx, dim, frac, 3);
    assert AxisSamples(w, idx, dim, frac) == AxisSamples(v, idx, dim, frac);
  }

  /** Point k along an inner axis does not depend on the calibration either. */
  lemma {:induction false} AxisIgnoresCalibration(v: Volume, scale: seq<real>, offset: seq<real>,
                                                  idx: seq<int>, dim: nat, frac: seq<real>, k: int)
    requires WellFormed(v) && |scale| == v.nslc && |offset| == v.nslc
    requires |idx| == 3 && |frac| == 3 && 1 <= dim < 3
    requires StencilInRange(v, idx, dim) && StencilInRange(v.(scale := scale, offset := offset), idx, dim)
    requires 0 <= k <= 3
    ensures AxisSample(v.(scale := scale, offset := offset), idx, dim, frac, k) == AxisSample(v, idx, dim, frac, k)
    decreases 3 - dim, 0
  {
    if dim == 1 {
      StepInRange(v, idx, 1, k);
      InnerAxesIgnoreCalibration(v, scale, offset, Step(idx, 1, k), 2, frac);
    }
  }

  // ---------------------------------------------------------------------
  // Tricubic dispatch

  /**
   * Less than one voxel from the low edge, or at most one voxel from the
   * high edge, on any axis, tricubic is exactly trilinear at the same
   * coordinate: the shifted stencil would leave the grid there.
   */
  lemma TricubicEdgeFallback(v: Volume, c: Vec3)
    requires HasCells(v) && InGrid(v, c)
    requires || c.s < 1.0 || c.s >= v.nslc as real - 2.0
             || c.r < 1.0 || c.r >= v.nrow as real - 2.0
             || c.c < 1.0 || c.c >= v.ncol as real - 2.0
    ensures Tricubic(v, c) == Trilinear(v, c)
  {
  }

  /**
   * Away from the edges tricubic runs the evaluator on the 4x4x4 stencil
   * whose lower corner is one below the coordinate's whole part, and every
   * index of that stencil lies on the grid.
   */
  lemma TricubicInterior(v: Volume, c: Vec3)
    requires HasCells(v)
    requires 1.0 <= c.s < v.nslc as real - 2.0
    requires 1.0 <= c.r < v.nrow as real - 2.0
    requires 1.0 <= c.c < v.ncol as real - 2.0
    ensures CornerFits(v, StencilCorner(c))
    ensures StencilInRange(v, StencilCorner(c), 0)
    ensures Tricubic(v, c) == NCubicSpec(v, StencilCorner(c), 0, Fractions(c))
    ensures 0.0 <= Fractions(c)[0] < 1.0 && 0.0 <= Fractions(c)[1] < 1.0 && 0.0 <= Fractions(c)[2] < 1.0
  {
    assert InGrid(v, c) && CornerFits(v, StencilCorner(c));
    TricubicOnStencil(v, c);
  }

  /** Off the grid, tricubic gives the fill value. */
  lemma TricubicOutside(v: Volume, c: Vec3)
    requires HasCells(v) && !InGrid(v, c)
    ensures Tricubic(v, c) == Fill(v)
  {
  }

  /** A corner with room for four samples on every axis starts a stencil on the grid. */
  lemma CornerInRange(v: Volume, idx: seq<int>)
    requires |idx| == 3 && CornerFits(v, idx)
    ensures StencilInRange(v, idx, 0)
  {
    forall d | 0 <= d < 3 ensures 0 <= idx[d] && idx[d] + Reach(0, d) < SizeOf(v, d) {
    }
  }

  /** The centre of a whole stencil is the sample one up from its corner on every axis. */
  lemma CentreOfCorner(v: Volume, idx: seq<int>, i: int, j: int, k: int)
    requires WellFormed(v) && idx == [i - 1, j - 1, k - 1] && StencilInRange(v, idx, 0)
    ensures 0 <= i < v.nslc && 0 <= j < v.nrow && 0 <= k < v.ncol
    ensures Centre(v, idx, 0) == RawAt(v, i, j, k)
  {
    StencilBounds(v, idx, 0);
  }

  /**
   * At a grid point tricubic agrees with nearest neighbour whenever it
   * accepts, on the cubic path and on the trilinear fallback alike.
   */
  lemma TricubicAtGridPoint(v: Volume, i: int, j: int, k: int)
    requires HasCells(v)
    requires 0 <= i < v.nslc && 0 <= j < v.nrow && 0 <= k < v.ncol
    requires Tricubic(v, Vec3(i as real, j as real, k as real)).accepted
    ensures Nearest(v, Vec3(i as real, j as real, k as real)) == Tricubic(v, Vec3(i as real, j as real, k as real))
  {
    if !CornerFits(v, StencilCorner(Vec3(i as real, j as real, k as real))) {
      FallbackAtGridPoint(v, i, j, k);
    } else {
      StencilAtGridPoint(v, i, j, k);
    }
  }

  /** The trilinear fallback at a grid point. */
  lemma FallbackAtGridPoint(v: Volume, i: int, j: int, k: int)
    requires HasCells(v)
    requires 0 <= i < v.nslc && 0 <= j < v.nrow && 0 <= k < v.ncol
    requires !CornerFits(v, StencilCorner(Vec3(i as real, j as real, k as real)))
    requires Tricubic(v, Vec3(i as real, j as real, k as real)).accepted
    ensures Nearest(v, Vec3(i as real, j as real, k as real)) == Tricubic(v, Vec3(i as real, j as real, k as real))
  {
    var c := Vec3(i as real, j as real, k as real);
    assert Tricubic(v, c) == Trilinear(v, c);
    TrilinearAtGridPoint(v, i, j, k);
  }

  /** The cubic path at a grid point. */
  lemma StencilAtGridPoint(v: Volume, i: int, j: int, k: int)
    requires HasCells(v)
    requires 0 <= i < v.nslc && 0 <= j < v.nrow && 0 <= k < v.ncol
    requires CornerFits(v, StencilCorner(Vec3(i as real, j as real, k as real)))
    requires Tricubic(v, Vec3(i as real, j as real, k as real)).accepted
    ensures Nearest(v, Vec3(i as real, j as real, k as real)) == Tricubic(v, Vec3(i as real, j as real, k as real))
  {
    var c := Vec3(i as real, j as real, k as real);
    GridPointStencil(i, j, k);
    TricubicOnStencil(v, c);
    CubicPathAtGridPoint(v, StencilCorner(c), Fractions(c), i, j, k);
    NearestAtGridPoint(v, i, j, k);
  }

  /** The stencil around a grid point has its corner one below it on every axis and zero fractions. */
  lemma GridPointStencil(i: int, j: int, k: int)
    ensures StencilCorner(Vec3(i as real, j as real, k as real)) == [i - 1, j - 1, k - 1]
    ensures Fractions(Vec3(i as real, j as real, k as real)) == [0.0, 0.0, 0.0]
  {
    FloorOfWhole(i);
    FloorOfWhole(j);
    FloorOfWhole(k);
  }

  /** Where the stencil fits, tricubic is the evaluator run on it. */
  lemma TricubicOnStencil(v: Volume, c: Vec3)
    requires HasCells(v) && InGrid(v, c) && CornerFits(v, StencilCorner(c))
    ensures StencilInRange(v, StencilCorner(c), 0)
    ensures Tricubic(v, c) == NCubicSpec(v, StencilCorner(c), 0, Fractions(c))
  {
    CornerInRange(v, StencilCorner(c));
  }

  /** At a grid point nearest neighbour gives the calibrated voxel, or the fill value when the voxel is not genuine. */
  lemma NearestAtGridPoint(v: Volume, i: int, j: int, k: int)
    requires WellFormed(v)
    requires 0 <= i < v.nslc && 0 <= j < v.nrow && 0 <= k < v.ncol
    ensures Nearest(v, Vec3(i as real, j as real, k as real)) ==
      if IsValid(v, RawAt(v, i, j, k)) then Sample(true, CalibrateAt(v, i, RawAt(v, i, j, k))) else Fill(v)
  {
    RoundOfWhole(i);
    RoundOfWhole(j);
    RoundOfWhole(k);
  }

  /**
   * The evaluator on the stencil around grid point (i, j, k), at zero
   * fractions, accepts only a genuine voxel and then gives it calibrated.
   */
  lemma CubicPathAtGridPoint(v: Volume, idx: seq<int>, frac: seq<real>, i: int, j: int, k: int)
    requires WellFormed(v) && idx == [i - 1, j - 1, k - 1] && StencilInRange(v, idx, 0)
    requires |frac| == 3 && frac[0] == 0.0 && frac[1] == 0.0 && frac[2] == 0.0
    requires NCubicSpec(v, idx, 0, frac).accepted
    ensures 0 <= i < v.nslc && 0 <= j < v.nrow && 0 <= k < v.ncol
    ensures IsValid(v, RawAt(v, i, j, k))
    ensures NCubicSpec(v, idx, 0, frac) == Sample(true, CalibrateAt(v, i, RawAt(v, i, j, k)))
  {
    NCubicAtGridPoint(v, idx, 0, frac);
    CentreOfCorner(v, idx, i, j, k);
    assert idx[0] + 1 == i;
  }

  // ---------------------------------------------------------------------
  // Span bounds of nearest neighbour and tricubic

  /** An accepted nearest-neighbour sample lies within the calibrated span of its own slice. */
  lemma NearestWithinSpan(v: Volume, c: Vec3)
    requires WellFormed(v) && Nearest(v, c).accepted
    ensures 0 <= Round(c.s) < v.nslc
    ensures SpanLow(v, Round(c.s)) <= Nearest(v, c).value <= SpanHigh(v, Round(c.s))
  {
    NearestAcceptance(v, c);
    CalibratedInSpan(v, Round(c.s), RawAt(v, Round(c.s), Round(c.r), Round(c.c)));
  }

  /**
   * A 4x4x4 window whose every column reads (1, 0, 0, 1), all genuine
   * data for the valid range [0, 1], calibrated with scale 1 and offset 0.
   */
  predicate Overshooting(v: Volume) {
    && WellFormed(v) && v.nslc == 4 && v.nrow == 4 && v.ncol == 4
    && v.vrange == ValidRange(0.0, 1.0)
    && (forall i, j :: 0 <= i < 4 && 0 <= j < 4 ==> v.data[i][j] == [1.0, 0.0, 0.0, 1.0])
    && (forall i :: 0 <= i < 4 ==> v.scale[i] == 1.0 && v.offset[i] == 0.0)
  }

  /** One such window. */
  function OvershootVolume(): (v: Volume)
    ensures Overshooting(v)
  {
    var column := [1.0, 0.0, 0.0, 1.0];
    var plane := [column, column, column, column];
    Volume(4, 4, 4, [plane, plane, plane, plane], ValidRange(0.0, 1.0), 0.0,
           [1.0, 1.0, 1.0, 1.0], [0.0, 0.0, 0.0, 0.0], false)
  }

  /** Every line of the window, blended halfway, dips to -1/8. */
  lemma OvershootLine(v: Volume, idx: seq<int>)
    requires Overshooting(v) && |idx| == 3 && idx[2] == 0
    requires StencilInRange(v, idx, 2)
    ensures NCubicSpec(v, idx, 2, [0.5, 0.5, 0.5]) == Sample(true, -0.125)
  {
    assert v.data[idx[0]][idx[1]] == [1.0, 0.0, 0.0, 1.0];
    assert CubicBlend(1.0, 0.0, 0.0, 1.0, 0.5) == -0.125;
  }

  /** Every row plane of the window blends four equal lines, so it keeps -1/8. */
  lemma OvershootPlane(v: Volume, idx: seq<int>)
    requires Overshooting(v) && |idx| == 3 && idx[2] == 0
    requires StencilInRange(v, idx, 1)
    ensures NCubicSpec(v, idx, 1, [0.5, 0.5, 0.5]) == Sample(true, -0.125)
  {
    OvershootLines(v, idx);
    assert CubicBlend(-0.125, -0.125, -0.125, -0.125, 0.5) == -0.125;
  }

  /** The four lines of such a row plane each give -1/8. */
  lemma OvershootLines(v: Volume, idx: seq<int>)
    requires Overshooting(v) && |idx| == 3 && idx[2] == 0
    requires StencilInRange(v, idx, 1)
    ensures AxisSamples(v, idx, 1, [0.5, 0.5, 0.5]) == [Sample(true, -0.125), Sample(true, -0.125), Sample(true, -0.125), Sample(true, -0.125)]
  {
    forall k | 0 <= k <= 3
      ensures AxisSample(v, idx, 1, [0.5, 0.5, 0.5], k) == Sample(true, -0.125)
    {
      StepInRange(v, idx, 1, k);
      OvershootLine(v, Step(idx, 1, k));
    }
  }

  /** The whole window blends four equal row planes, calibrated as they are, so it keeps -1/8. */
  lemma OvershootCube(v: Volume)
    requires Overshooting(v)
    ensures StencilInRange(v, [0, 0, 0], 0)
    ensures NCubicSpec(v, [0, 0, 0], 0, [0.5, 0.5, 0.5]) == Sample(true, -0.125)
  {
    OvershootSlices(v);
    OvershootBlend(v, AxisSamples(v, [0, 0, 0], 0, [0.5, 0.5, 0.5]));
  }

  /** The four slices around slice 1 of such a window each give -1/8. */
  lemma OvershootSlices(v: Volume)
    requires Overshooting(v)
    ensures StencilInRange(v, [0, 0, 0], 0)
    ensures AxisSamples(v, [0, 0, 0], 0, [0.5, 0.5, 0.5]) == [Sample(true, -0.125), Sample(true, -0.125), Sample(true, -0.125), Sample(true, -0.125)]
  {
    var idx := [0, 0, 0];
    forall k | 0 <= k <= 3
      ensures AxisSample(v, idx, 0, [0.5, 0.5, 0.5], k) == Sample(true, -0.125)
    {
      StepInRange(v, idx, 0, k);
      OvershootPlane(v, Step(idx, 0, k));
    }
  }

  /** Four slices of -1/8 calibrate to themselves and blend to -1/8. */
  lemma OvershootBlend(v: Volume, g: seq<Sample>)
    requires Overshooting(v)
    requires g == [Sample(true, -0.125), Sample(true, -0.125), Sample(true, -0.125), Sample(true, -0.125)]
    ensures Combine(v, 0, 0, [0.5, 0.5, 0.5], g) == Sample(true, -0.125)
  {
    forall k | 0 <= k <= 3
      ensures CalibrateAt(v, k, -0.125) == -0.125
    {
      assert v.scale[k] == 1.0 && v.offset[k] == 0.0;
    }
    assert CubicBlend(-0.125, -0.125, -0.125, -0.125, 0.5) == -0.125;
  }

  /**
   * The tricubic blend is not bounded by its samples: on such a window,
   * whose every slice has the span [0, 1], tricubic accepts the point
   * (1.5, 1.5, 1.5) with the value -1/8, below every slice's span.
   */
  lemma TricubicLeavesSpan(v: Volume)
    requires Overshooting(v)
    ensures HasCells(v)
    ensures Tricubic(v, Vec3(1.5, 1.5, 1.5)) == Sample(true, -0.125)
    ensures forall i :: 0 <= i < 4 ==> SpanLow(v, i) == 0.0 && SpanHigh(v, i) == 1.0
  {
    var c := Vec3(1.5, 1.5, 1.5);
    OvershootCube(v);
    assert c.s.Floor == 1;
    assert StencilCorner(c) == [0, 0, 0] && Fractions(c) == [0.5, 0.5, 0.5];
    TricubicInterior(v, c);
  }
}
