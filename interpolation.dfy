/**
 * The three interpolation kernels of the resampler, over a loaded volume
 * window.  Every kernel answers (accepted, value): a rejected sample, whose
 * coordinate is outside the grid or whose raw samples include a value
 * outside the valid range, carries the volume's fill value.  Raw samples
 * are calibrated with their own slice's scale and offset, and calibration
 * is never mixed across slices before blending.
 */
module Interpolation {
  import opened Geometry
  import opened Calibration

  /**
   * A loaded volume window: raw samples indexed [slice][row][column], the
   * valid range of raw values, the fill value, the per-slice calibration and
   * whether fill values count towards a slice's range.
   */
  datatype Volume = Volume(
    nslc: nat, nrow: nat, ncol: nat,
    data: seq<seq<seq<real>>>,
    vrange: ValidRange,
    fillvalue: real,
    scale: seq<real>,
    offset: seq<real>,
    useFill: bool)

  /** The buffer and the calibration arrays have the sizes the volume declares. */
  predicate WellFormed(v: Volume) {
    && |v.data| == v.nslc
    && (forall i :: 0 <= i < v.nslc ==> |v.data[i]| == v.nrow)
    && (forall i, j :: 0 <= i < v.nslc && 0 <= j < v.nrow ==> |v.data[i][j]| == v.ncol)
    && |v.scale| == v.nslc
    && |v.offset| == v.nslc
  }

  /** The sizes the linear and cubic kernels need: two grid points on every axis. */
  predicate HasCells(v: Volume) {
    WellFormed(v) && v.nslc >= 2 && v.nrow >= 2 && v.ncol >= 2
  }

  /** The size of axis d (0 = slice, 1 = row, 2 = column). */
  function SizeOf(v: Volume, d: nat): nat
    requires d < 3
  {
    if d == 0 then v.nslc else if d == 1 then v.nrow else v.ncol
  }

  /** VOLUME_VALUE: the raw sample at a grid point. */
  function RawAt(v: Volume, i: int, j: int, k: int): real
    requires WellFormed(v)
    requires 0 <= i < v.nslc && 0 <= j < v.nrow && 0 <= k < v.ncol
  {
    v.data[i][j][k]
  }

  /** A raw value is genuine data, not a fill marker. */
  predicate IsValid(v: Volume, raw: real) {
    v.vrange.lo <= raw <= v.vrange.hi
  }

  /** A raw value of slice i, calibrated with that slice's scale and offset. */
  function CalibrateAt(v: Volume, i: int, raw: real): real
    requires WellFormed(v) && 0 <= i < v.nslc
  {
    Calibrated(raw, v.scale[i], v.offset[i])
  }

  datatype Sample = Sample(accepted: bool, value: real)

  function Fill(v: Volume): (r: Sample)
    ensures !r.accepted && r.value == v.fillvalue
  {
    Sample(false, v.fillvalue)
  }

  /** The coordinate lies in [0, size-1] on every axis. */
  predicate InGrid(v: Volume, c: Vec3) {
    && 0.0 <= c.s <= v.nslc as real - 1.0
    && 0.0 <= c.r <= v.nrow as real - 1.0
    && 0.0 <= c.c <= v.ncol as real - 1.0
  }

  // ---------------------------------------------------------------------
  // Nearest neighbour

  /** ROUND: to the nearest integer, halves away from zero. */
  function Round(x: real): int {
    if x >= 0.0 then (x + 0.5).Floor else -((0.5 - x).Floor)
  }

  /** The rounded coordinate is a grid point. */
  predicate RoundedInside(v: Volume, c: Vec3) {
    && 0 <= Round(c.s) < v.nslc
    && 0 <= Round(c.r) < v.nrow
    && 0 <= Round(c.c) < v.ncol
  }

  /** nearest_neighbour_interpolant */
  function Nearest(v: Volume, c: Vec3): (r: Sample)
    requires WellFormed(v)
  {
    var i, j, k := Round(c.s), Round(c.r), Round(c.c);
    if i < 0 || i > v.nslc - 1 || j < 0 || j > v.nrow - 1 || k < 0 || k > v.ncol - 1 then Fill(v)
    else
      var raw := RawAt(v, i, j, k);
      if !IsValid(v, raw) then Fill(v)
      else Sample(true, CalibrateAt(v, i, raw))
  }

  // ---------------------------------------------------------------------
  // Trilinear

  /**
   * The lower corner of the cell along one axis: the whole part of the
   * (non-negative) coordinate, capped so that the upper corner stays on
   * the grid; on the last grid line the last cell is reused.
   */
  function CellIndex(x: real, size: nat): (i: int)
    requires size >= 2 && 0.0 <= x <= size as real - 1.0
    ensures 0 <= i <= size - 2
    ensures i as real <= x <= i as real + 1.0
  {
    var w := x.Floor;
    if w >= size - 2 then size - 2 else w
  }

  /** All eight corners of the cell with lower corner (i, j, k) are genuine data. */
  predicate CellValid(v: Volume, i: int, j: int, k: int)
    requires WellFormed(v)
    requires 0 <= i && i + 1 < v.nslc && 0 <= j && j + 1 < v.nrow && 0 <= k && k + 1 < v.ncol
  {
    && IsValid(v, RawAt(v, i, j, k))
    && IsValid(v, RawAt(v, i, j, k + 1))
    && IsValid(v, RawAt(v, i, j + 1, k))
    && IsValid(v, RawAt(v, i, j + 1, k + 1))
    && IsValid(v, RawAt(v, i + 1, j, k))
    && IsValid(v, RawAt(v, i + 1, j, k + 1))
    && IsValid(v, RawAt(v, i + 1, j + 1, k))
    && IsValid(v, RawAt(v, i + 1, j + 1, k + 1))
  }

  /** The bilinear blend, within slice i, of the four corners of a cell (raw values). */
  function Bilinear(v: Volume, i: int, j: int, k: int, f1: real, f2: real): real
    requires WellFormed(v)
    requires 0 <= i < v.nslc && 0 <= j && j + 1 < v.nrow && 0 <= k && k + 1 < v.ncol
  {
    var r1, r2 := 1.0 - f1, 1.0 - f2;
    r1 * r2 * RawAt(v, i, j, k) + r1 * f2 * RawAt(v, i, j, k + 1) +
    f1 * r2 * RawAt(v, i, j + 1, k) + f1 * f2 * RawAt(v, i, j + 1, k + 1)
  }

  /** trilinear_interpolant */
  function Trilinear(v: Volume, c: Vec3): (r: Sample)
    requires HasCells(v)
  {
    if !InGrid(v, c) then Fill(v)
    else
      var i, j, k := CellIndex(c.s, v.nslc), CellIndex(c.r, v.nrow), CellIndex(c.c, v.ncol);
      if !CellValid(v, i, j, k) then Fill(v)
      else
        var f0, f1, f2 := c.s - i as real, c.r - j as real, c.c - k as real;
        Sample(true, Lerp(SliceBlend(v, i, j, k, f1, f2), SliceBlend(v, i + 1, j, k, f1, f2), f0))
  }

  /** The bilinear blend within slice i, calibrated with that slice's map. */
  function SliceBlend(v: Volume, i: int, j: int, k: int, f1: real, f2: real): real
    requires WellFormed(v)
    requires 0 <= i < v.nslc && 0 <= j && j + 1 < v.nrow && 0 <= k && k + 1 < v.ncol
  {
    CalibrateAt(v, i, Bilinear(v, i, j, k, f1, f2))
  }

  /** The linear blend of x and y at fraction f from x. */
  function Lerp(x: real, y: real, f: real): real {
    (1.0 - f) * x + f * y
  }

  // ---------------------------------------------------------------------
  // Tricubic

  /**
   * The cubic blend of four equally spaced values at fraction u between
   * the middle two; it gives v1 at u = 0 and v2 at u = 1.
   */
  function CubicBlend(v0: real, v1: real, v2: real, v3: real, u: real): real {
    v1 + u * (0.5 * (v2 - v0) + u * (
      v0 - 2.5 * v1 + 2.0 * v2 - 0.5 * v3 + u * (
      -0.5 * v0 + 1.5 * v1 - 1.5 * v2 + 0.5 * v3)))
  }

  /** How far past index d the stencil of the evaluator at axis dim reaches. */
  function Reach(dim: nat, d: nat): nat {
    if d >= dim then 3 else 0
  }

  /**
   * The evaluator at axis dim works on a stencil whose lower corner is idx:
   * axes before dim are fixed grid points, the others span four points.
   */
  predicate StencilInRange(v: Volume, idx: seq<int>, dim: nat)
    requires |idx| == 3
  {
    forall d :: 0 <= d < 3 ==> 0 <= idx[d] && idx[d] + Reach(dim, d) < SizeOf(v, d)
  }

  /** idx with its axis-dim entry moved k points up. */
  function Step(idx: seq<int>, dim: nat, k: int): (r: seq<int>)
    requires dim < |idx|
    ensures |r| == |idx| && r[dim] == idx[dim] + k
    ensures forall d :: 0 <= d < |idx| && d != dim ==> r[d] == idx[d]
  {
    idx[dim := idx[dim] + k]
  }

  lemma StepInRange(v: Volume, idx: seq<int>, dim: nat, k: int)
    requires |idx| == 3 && dim < 2 && StencilInRange(v, idx, dim) && 0 <= k <= 3
    ensures StencilInRange(v, Step(idx, dim, k), dim + 1)
  {
    var st := Step(idx, dim, k);
    forall d | 0 <= d < 3
      ensures 0 <= st[d] && st[d] + Reach(dim + 1, d) < SizeOf(v, d)
    {
      assert 0 <= idx[d] && idx[d] + Reach(dim, d) < SizeOf(v, d);
    }
  }

  /**
   * The four values the evaluator at axis dim gathers along that axis:
   * raw samples on the last axis (accepted when genuine data), results of
   * the evaluator at the next axis otherwise.
   */
  function AxisSamples(v: Volume, idx: seq<int>, dim: nat, frac: seq<real>): (g: seq<Sample>)
    requires WellFormed(v) && |idx| == 3 && |frac| == 3 && dim < 3
    requires StencilInRange(v, idx, dim)
    ensures |g| == 4
    decreases 3 - dim, 1
  {
    [AxisSample(v, idx, dim, frac, 0), AxisSample(v, idx, dim, frac, 1),
     AxisSample(v, idx, dim, frac, 2), AxisSample(v, idx, dim, frac, 3)]
  }

  /** The value k points along axis dim: a raw sample on the last axis, the next axis evaluated there otherwise. */
  function AxisSample(v: Volume, idx: seq<int>, dim: nat, frac: seq<real>, k: int): Sample
    requires WellFormed(v) && |idx| == 3 && |frac| == 3 && dim < 3
    requires StencilInRange(v, idx, dim) && 0 <= k <= 3
    decreases 3 - dim, 0
  {
    if dim == 2 then
      var raw := RawAt(v, idx[0], idx[1], idx[2] + k);
      Sample(IsValid(v, raw), raw)
    else
      StepInRange(v, idx, dim, k);
      NCubicSpec(v, Step(idx, dim, k), dim + 1, frac)
  }

  predicate AllAccepted(g: seq<Sample>)
    requires |g| == 4
  {
    g[0].accepted && g[1].accepted && g[2].accepted && g[3].accepted
  }

  /**
   * do_Ncubic_interpolation as a function of the index vector: the four
   * values along axis dim, rejected as a whole if any is rejected,
   * calibrated per slice on axis 0 only, then blended.
   */
  function NCubicSpec(v: Volume, idx: seq<int>, dim: nat, frac: seq<real>): (r: Sample)
    requires WellFormed(v) && |idx| == 3 && |frac| == 3 && dim < 3
    requires StencilInRange(v, idx, dim)
    decreases 3 - dim, 2
  {
    Combine(v, idx[0], dim, frac, AxisSamples(v, idx, dim, frac))
  }

  /**
   * The four values gathered along axis dim combined: rejected as a whole
   * if any is rejected, calibrated from slice base on when they are
   * slices, then blended at that axis's fraction.
   */
  function Combine(v: Volume, base: int, dim: nat, frac: seq<real>, g: seq<Sample>): (r: Sample)
    requires WellFormed(v) && |frac| == 3 && dim < 3 && |g| == 4
    requires dim == 0 ==> 0 <= base && base + 3 < v.nslc
    ensures r.accepted == AllAccepted(g)
    ensures !r.accepted ==> r.value == v.fillvalue
  {
    if !AllAccepted(g) then Fill(v)
    else if dim == 0 then
      Sample(true, CubicBlend(CalibrateAt(v, base, g[0].value), CalibrateAt(v, base + 1, g[1].value),
                              CalibrateAt(v, base + 2, g[2].value), CalibrateAt(v, base + 3, g[3].value),
                              frac[0]))
    else
      Sample(true, CubicBlend(g[0].value, g[1].value, g[2].value, g[3].value, frac[dim]))
  }

  /** The whole parts of a grid coordinate, and the fractions left over. */
  function Wholes(c: Vec3): seq<int> {
    [c.s.Floor, c.r.Floor, c.c.Floor]
  }

  function Fractions(c: Vec3): seq<real> {
    [c.s - c.s.Floor as real, c.r - c.r.Floor as real, c.c - c.c.Floor as real]
  }

  /** The lower corner of the 4x4x4 stencil: one below the whole part on every axis. */
  function StencilCorner(c: Vec3): seq<int> {
    [c.s.Floor - 1, c.r.Floor - 1, c.c.Floor - 1]
  }

  /** The stencil's corner leaves room for four samples on every axis. */
  predicate CornerFits(v: Volume, idx: seq<int>)
    requires |idx| == 3
  {
    && 0 <= idx[0] <= v.nslc - 4
    && 0 <= idx[1] <= v.nrow - 4
    && 0 <= idx[2] <= v.ncol - 4
  }

  /** tricubic_interpolant */
  function Tricubic(v: Volume, c: Vec3): (r: Sample)
    requires HasCells(v)
  {
    if !InGrid(v, c) then Fill(v)
    else
      var idx := StencilCorner(c);
      if !CornerFits(v, idx) then Trilinear(v, c)
      else NCubicSpec(v, idx, 0, Fractions(c))
  }

  // ---------------------------------------------------------------------
  // The evaluator as the source runs it: on an index array it changes and restores

  /**
   * do_Ncubic_interpolation: index[curDim] is moved over the four points of
   * the current axis and restored before returning; the answer is the one
   * NCubicSpec gives for the index vector it was called with.
   */
  method NCubic(v: Volume, index: array<int>, curDim: nat, frac: seq<real>) returns (ok: bool, result: real)
    requires WellFormed(v) && index.Length == 3 && |frac| == 3 && curDim < 3
    requires StencilInRange(v, index[..], curDim)
    modifies index
    ensures index[..] == old(index[..])
    ensures Sample(ok, result) == NCubicSpec(v, old(index[..]), curDim, frac)
    decreases 3 - curDim, 3
  {
    ghost var idx := index[..];
    var baseIndex := index[curDim];
    var foundFillvalue, v0, v1, v2, v3;
    if curDim == 2 {
      foundFillvalue, v0, v1, v2, v3 := GatherLine(v, index, frac);
    } else {
      foundFillvalue, v0, v1, v2, v3 := GatherAxis(v, index, curDim, frac);
    }

    // Restore index
    index[curDim] := baseIndex;
    assert index[..] == idx;

    ok, result := Blend(v, AxisSamples(v, idx, curDim, frac), curDim, baseIndex, frac, foundFillvalue, v0, v1, v2, v3);
  }

  /**
   * The end of do_Ncubic_interpolation: the fill value if any of the four
   * values was rejected, otherwise their cubic blend, calibrated first
   * when blending slices.
   */
  method Blend(v: Volume, ghost g: seq<Sample>, curDim: nat, baseIndex: int, frac: seq<real>,
               foundFillvalue: bool, v0: real, v1: real, v2: real, v3: real)
    returns (ok: bool, result: real)
    requires WellFormed(v) && |frac| == 3 && curDim < 3 && |g| == 4
    requires curDim == 0 ==> 0 <= baseIndex && baseIndex + 3 < v.nslc
    requires foundFillvalue == !AllAccepted(g)
    requires v0 == g[0].value && v1 == g[1].value && v2 == g[2].value && v3 == g[3].value
    ensures Sample(ok, result) == Combine(v, baseIndex, curDim, frac, g)
  {
    if foundFillvalue {
      return false, v.fillvalue;
    }

    var u := frac[curDim];
    if curDim == 0 {
      // Scale values for slices
      var w0, w1, w2, w3 := CalibrateAt(v, baseIndex, v0), CalibrateAt(v, baseIndex + 1, v1),
                            CalibrateAt(v, baseIndex + 2, v2), CalibrateAt(v, baseIndex + 3, v3);
      result := CubicBlend(w0, w1, w2, w3, u);
    } else {
      result := CubicBlend(v0, v1, v2, v3, u);
    }
    ok := true;
  }

  /**
   * The last-axis part of do_Ncubic_interpolation: read the four samples
   * of the line, stepping index[2], and flag any fill marker among them.
   */
  method GatherLine(v: Volume, index: array<int>, frac: seq<real>)
    returns (foundFillvalue: bool, v0: real, v1: real, v2: real, v3: real)
    requires WellFormed(v) && index.Length == 3 && |frac| == 3
    requires StencilInRange(v, index[..], 2)
    modifies index
    ensures index[..] == old(index[..])[2 := old(index[2]) + 3]
    ensures var g := AxisSamples(v, old(index[..]), 2, frac);
      && foundFillvalue == !AllAccepted(g)
      && v0 == g[0].value && v1 == g[1].value && v2 == g[2].value && v3 == g[3].value
  {
    v0 := RawAt(v, index[0], index[1], index[2]);
    index[2] := index[2] + 1;
    v1 := RawAt(v, index[0], index[1], index[2]);
    index[2] := index[2] + 1;
    v2 := RawAt(v, index[0], index[1], index[2]);
    index[2] := index[2] + 1;
    v3 := RawAt(v, index[0], index[1], index[2]);
    foundFillvalue := !IsValid(v, v0) || !IsValid(v, v1) || !IsValid(v, v2) || !IsValid(v, v3);
  }

  /**
   * The recursive part of do_Ncubic_interpolation: evaluate the next axis
   * at the four points of axis curDim, stepping index[curDim], and flag
   * any rejected evaluation.
   */
  method GatherAxis(v: Volume, index: array<int>, curDim: nat, frac: seq<real>)
    returns (foundFillvalue: bool, v0: real, v1: real, v2: real, v3: real)
    requires WellFormed(v) && index.Length == 3 && |frac| == 3 && curDim < 2
    requires StencilInRange(v, index[..], curDim)
    modifies index
    ensures index[..] == Step(old(index[..]), curDim, 3)
    ensures var g := AxisSamples(v, old(index[..]), curDim, frac);
      && foundFillvalue == !AllAccepted(g)
      && v0 == g[0].value && v1 == g[1].value && v2 == g[2].value && v3 == g[3].value
    decreases 3 - curDim, 2
  {
    ghost var idx := index[..];
    var ok0, ok1, ok2, ok3;
    assert index[..] == Step(idx, curDim, 0);
    ok0, v0 := EvaluateAt(v, index, curDim, frac, idx, 0);
    index[curDim] := index[curDim] + 1;
    assert index[..] == Step(idx, curDim, 1);
    ok1, v1 := EvaluateAt(v, index, curDim, frac, idx, 1);
    index[curDim] := index[curDim] + 1;
    assert index[..] == Step(idx, curDim, 2);
    ok2, v2 := EvaluateAt(v, index, curDim, frac, idx, 2);
    index[curDim] := index[curDim] + 1;
    assert index[..] == Step(idx, curDim, 3);
    ok3, v3 := EvaluateAt(v, index, curDim, frac, idx, 3);
    foundFillvalue := !ok0 || !ok1 || !ok2 || !ok3;
  }

  /** One recursive call of do_Ncubic_interpolation, at point k of axis curDim. */
  method EvaluateAt(v: Volume, index: array<int>, curDim: nat, frac: seq<real>, ghost idx: seq<int>, ghost k: int)
    returns (ok: bool, value: real)
    requires WellFormed(v) && index.Length == 3 && |frac| == 3 && curDim < 2
    requires |idx| == 3 && StencilInRange(v, idx, curDim) && 0 <= k <= 3
    requires index[..] == Step(idx, curDim, k)
    modifies index
    ensures index[..] == old(index[..])
    ensures Sample(ok, value) == AxisSample(v, idx, curDim, frac, k)
    decreases 3 - curDim, 1
  {
    StepInRange(v, idx, curDim, k);
    ok, value := NCubic(v, index, curDim + 1, frac);
  }


  /** tricubic_interpolant as the source runs it, through the index array. */
  method TricubicInterpolant(v: Volume, coord: Vec3) returns (ok: bool, result: real)
    requires HasCells(v)
    ensures Sample(ok, result) == Tricubic(v, coord)
  {
    if !InGrid(v, coord) {
      return false, v.fillvalue;
    }
    var slcind, rowind, colind := coord.s.Floor, coord.r.Floor, coord.c.Floor;
    var frac := [coord.s - slcind as real, coord.r - rowind as real, coord.c - colind as real];
    slcind, rowind, colind := slcind - 1, rowind - 1, colind - 1;
    assert [slcind, rowind, colind] == StencilCorner(coord) && frac == Fractions(coord);
    if slcind > v.nslc - 4 || slcind < 0 || rowind > v.nrow - 4 || rowind < 0 ||
       colind > v.ncol - 4 || colind < 0 {
      var s := Trilinear(v, coord);
      return s.accepted, s.value;
    }
    ok, result := StencilInterpolant(v, slcind, rowind, colind, frac);
  }

  /** The cubic path of tricubic_interpolant: the evaluator on the stencil with lower corner (slcind, rowind, colind). */
  method StencilInterpolant(v: Volume, slcind: int, rowind: int, colind: int, frac: seq<real>) returns (ok: bool, result: real)
    requires WellFormed(v) && |frac| == 3 && CornerFits(v, [slcind, rowind, colind])
    ensures Sample(ok, result) == NCubicSpec(v, [slcind, rowind, colind], 0, frac)
  {
    var index := new int[3];
    index[0], index[1], index[2] := slcind, rowind, colind;
    assert index[..] == [slcind, rowind, colind];
    ok, result := NCubic(v, index, 0, frac);
  }
}
