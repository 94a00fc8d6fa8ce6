/**
 * get_slice: resample one output slice from the loaded input window.
 *
 * Every output pixel (row, column) of slice sliceNum is mapped from output
 * voxel units to world units, through the world transformation, and into
 * input voxel units; the chosen kernel interpolates the input window there
 * and the result (the fill value when rejected) is written to the slice
 * buffer in row-major order.  The slice's range is the running minimum and
 * maximum of the pixels that count (accepted ones, or all of them when fill
 * values are used), made non-degenerate before it is reported.
 */
module SliceResampler {
  import opened Geometry
  import opened Interpolation
  import opened Limits

  /** The interpolant the program was asked for (the INTERPOLATE function pointer). */
  datatype Kernel = NearestNeighbour | TrilinearKernel | TricubicKernel

  /** The window has the grid points the kernel reads. */
  predicate KernelReady(kernel: Kernel, v: Volume) {
    match kernel
    case NearestNeighbour => WellFormed(v)
    case _ => HasCells(v)
  }

  function Interpolate(kernel: Kernel, v: Volume, c: Vec3): Sample
    requires KernelReady(kernel, v)
  {
    match kernel
    case NearestNeighbour => Nearest(v, c)
    case TrilinearKernel => Trilinear(v, c)
    case TricubicKernel => Tricubic(v, c)
  }

  /** Whatever the kernel, a rejected sample carries the fill value. */
  lemma RejectedIsFill(kernel: Kernel, v: Volume, c: Vec3)
    requires KernelReady(kernel, v)
    requires !Interpolate(kernel, v, c).accepted
    ensures Interpolate(kernel, v, c).value == v.fillvalue
  {
  }

  /** INTERPOLATE: call the kernel as the program does. */
  method InterpolateAt(kernel: Kernel, v: Volume, c: Vec3) returns (ok: bool, value: real)
    requires KernelReady(kernel, v)
    ensures Sample(ok, value) == Interpolate(kernel, v, c)
  {
    match kernel
    case NearestNeighbour =>
      var s := Nearest(v, c);
      ok, value := s.accepted, s.value;
    case TrilinearKernel =>
      var s := Trilinear(v, c);
      ok, value := s.accepted, s.value;
    case TricubicKernel =>
      ok, value := TricubicInterpolant(v, c);
  }

  /** The three transforms get_slice concatenates. */
  datatype Mapping = Mapping(outVoxelToWorld: Transform, transformation: Transform, inWorldToVoxel: Transform)

  /** The point of the input window that output pixel (irow, icol) of slice sliceNum maps to. */
  function SamplePoint(m: Mapping, sliceNum: int, irow: int, icol: int): Vec3 {
    Eval(m.inWorldToVoxel, Eval(m.transformation,
      Eval(m.outVoxelToWorld, Vec3(sliceNum as real, irow as real, icol as real))))
  }

  /** The concatenated transform, output voxel to input voxel. */
  function Total(m: Mapping): Transform {
    Concat(Concat(m.outVoxelToWorld, m.transformation), m.inWorldToVoxel)
  }

  /** total maps every point as the three transforms of m do in turn. */
  ghost predicate Composes(total: Transform, m: Mapping) {
    forall p :: Eval(total, p) == Eval(m.inWorldToVoxel, Eval(m.transformation, Eval(m.outVoxelToWorld, p)))
  }

  /** The concatenated transform is the composition of its three parts. */
  lemma TotalComposes(m: Mapping)
    ensures Composes(Total(m), m)
  {
    forall p ensures Eval(Total(m), p) == Eval(m.inWorldToVoxel, Eval(m.transformation, Eval(m.outVoxelToWorld, p))) {
      ConcatEval(Concat(m.outVoxelToWorld, m.transformation), m.inWorldToVoxel, p);
      ConcatEval(m.outVoxelToWorld, m.transformation, p);
    }
  }

  /** The sample of output pixel (irow, icol). */
  function Pixel(kernel: Kernel, v: Volume, m: Mapping, sliceNum: int, irow: int, icol: int): Sample
    requires KernelReady(kernel, v)
  {
    Interpolate(kernel, v, SamplePoint(m, sliceNum, irow, icol))
  }

  /** The kernel's answer at every pixel of slice sliceNum, as a map from (row, column). */
  function PixelMap(kernel: Kernel, v: Volume, m: Mapping, sliceNum: int): (int, int) -> Sample
    requires KernelReady(kernel, v)
  {
    (irow: int, icol: int) => Pixel(kernel, v, m, sliceNum, irow, icol)
  }

  /** Row irow of a pixel map, column by column. */
  function RowOf(pixel: (int, int) -> Sample, irow: int, ncol: nat): (r: seq<Sample>)
    ensures |r| == ncol
  {
    seq(ncol, icol => pixel(irow, icol))
  }

  /** The first nrow rows of a pixel map, in row-major order. */
  function Grid(pixel: (int, int) -> Sample, nrow: nat, ncol: nat): seq<Sample>
    decreases nrow
  {
    if nrow == 0 then [] else Grid(pixel, nrow - 1, ncol) + RowOf(pixel, nrow - 1, ncol)
  }

  /** The samples of the first nrow rows of slice sliceNum, in row-major order. */
  function SliceSamples(kernel: Kernel, v: Volume, m: Mapping, sliceNum: int, nrow: nat, ncol: nat): seq<Sample>
    requires KernelReady(kernel, v)
  {
    Grid(PixelMap(kernel, v, m, sliceNum), nrow, ncol)
  }

  /** The grid holds one sample per pixel. */
  lemma {:induction false} GridLength(pixel: (int, int) -> Sample, nrow: nat, ncol: nat)
    ensures |Grid(pixel, nrow, ncol)| == nrow * ncol
    decreases nrow
  {
    if nrow > 0 {
      GridLength(pixel, nrow - 1, ncol);
      assert (nrow - 1) * ncol + ncol == nrow * ncol;
    }
  }

  /** The sample of pixel (irow, icol) sits at irow * ncol + icol, row after row. */
  lemma {:induction false} GridAt(pixel: (int, int) -> Sample, nrow: nat, ncol: nat, irow: int, icol: int)
    requires 0 <= irow < nrow && 0 <= icol < ncol
    ensures 0 <= irow * ncol + icol < |Grid(pixel, nrow, ncol)|
    ensures Grid(pixel, nrow, ncol)[irow * ncol + icol] == pixel(irow, icol)
    decreases nrow
  {
    GridLength(pixel, nrow, ncol);
    GridLength(pixel, nrow - 1, ncol);
    RowBelow(irow, icol, nrow, ncol);
    var init := Grid(pixel, nrow - 1, ncol);
    var last := RowOf(pixel, nrow - 1, ncol);
    if irow == nrow - 1 {
      assert (init + last)[irow * ncol + icol] == last[icol];
    } else {
      GridAt(pixel, nrow - 1, ncol, irow, icol);
      assert (init + last)[irow * ncol + icol] == init[irow * ncol + icol];
    }
  }

  /** The slice holds one sample per pixel. */
  lemma SliceLength(kernel: Kernel, v: Volume, m: Mapping, sliceNum: int, nrow: nat, ncol: nat)
    requires KernelReady(kernel, v)
    ensures |SliceSamples(kernel, v, m, sliceNum, nrow, ncol)| == nrow * ncol
  {
    GridLength(PixelMap(kernel, v, m, sliceNum), nrow, ncol);
  }

  /** The sample of pixel (irow, icol) of the slice is that pixel's, at irow * ncol + icol. */
  lemma SliceAt(kernel: Kernel, v: Volume, m: Mapping, sliceNum: int, nrow: nat, ncol: nat, irow: int, icol: int)
    requires KernelReady(kernel, v)
    requires 0 <= irow < nrow && 0 <= icol < ncol
    ensures 0 <= irow * ncol + icol < |SliceSamples(kernel, v, m, sliceNum, nrow, ncol)|
    ensures SliceSamples(kernel, v, m, sliceNum, nrow, ncol)[irow * ncol + icol] == Pixel(kernel, v, m, sliceNum, irow, icol)
  {
    GridAt(PixelMap(kernel, v, m, sliceNum), nrow, ncol, irow, icol);
  }

  /** Pixel (irow, icol) lies in the first nrow rows, in the last of them exactly when irow == nrow - 1. */
  lemma RowBelow(irow: int, icol: int, nrow: nat, ncol: nat)
    requires 0 <= irow < nrow && 0 <= icol < ncol
    ensures 0 <= irow * ncol + icol < nrow * ncol
    ensures irow < nrow - 1 ==> irow * ncol + icol < (nrow - 1) * ncol
    ensures irow == nrow - 1 ==> irow * ncol + icol - (nrow - 1) * ncol == icol
  {
    assert irow * ncol >= 0;
    MultipleAtLeast(nrow - irow, ncol);
    assert (nrow - irow) * ncol == nrow * ncol - irow * ncol;
    if irow < nrow - 1 {
      MultipleAtLeast(nrow - 1 - irow, ncol);
      assert (nrow - 1 - irow) * ncol == (nrow - 1) * ncol - irow * ncol;
    }
  }

  lemma MultipleAtLeast(k: int, n: nat)
    requires k >= 1
    ensures k * n >= n
  {
    assert k * n == (k - 1) * n + n;
    assert (k - 1) * n >= 0;
  }

  /** A buffer holding the values of a, then those of b, holds the values of a + b. */
  lemma BufferExtended(data: array<real>, a: seq<Sample>, b: seq<Sample>)
    requires |a| + |b| <= data.Length
    requires forall p :: 0 <= p < |a| ==> data[p] == a[p].value
    requires forall p :: |a| <= p < |a| + |b| ==> data[p] == b[p - |a|].value
    ensures forall p :: 0 <= p < |a + b| ==> data[p] == (a + b)[p].value
  {
  }

  /** A pixel takes part in the slice's range. */
  predicate Counted(s: Sample, useFill: bool) {
    s.accepted || useFill
  }

  /** The running maximum of the counted values, started at m0. */
  function MaxFrom(m0: real, samples: seq<Sample>, useFill: bool): real
    decreases |samples|
  {
    if |samples| == 0 then m0
    else
      MaxStep(MaxFrom(m0, samples[..|samples| - 1], useFill), samples[|samples| - 1], useFill)
  }

  /** One step of the running maximum: a counted value above it replaces it. */
  function MaxStep(m: real, s: Sample, useFill: bool): real {
    if Counted(s, useFill) && s.value > m then s.value else m
  }

  /** The running minimum of the counted values, started at m0. */
  function MinFrom(m0: real, samples: seq<Sample>, useFill: bool): real
    decreases |samples|
  {
    if |samples| == 0 then m0
    else
      MinStep(MinFrom(m0, samples[..|samples| - 1], useFill), samples[|samples| - 1], useFill)
  }

  /** One step of the running minimum: a counted value below it replaces it. */
  function MinStep(m: real, s: Sample, useFill: bool): real {
    if Counted(s, useFill) && s.value < m then s.value else m
  }

  /** Extending the scanned prefix by one sample takes one step. */
  lemma ScanStep(m0: real, n0: real, samples: seq<Sample>, k: nat, useFill: bool)
    requires k < |samples|
    ensures MaxFrom(m0, samples[..k + 1], useFill) == MaxStep(MaxFrom(m0, samples[..k], useFill), samples[k], useFill)
    ensures MinFrom(n0, samples[..k + 1], useFill) == MinStep(MinFrom(n0, samples[..k], useFill), samples[k], useFill)
  {
    assert samples[..k + 1][..k] == samples[..k];
  }

  /** The running extrema get_slice starts from -DBL_MAX and DBL_MAX. */
  function RunningMax(samples: seq<Sample>, useFill: bool): real {
    MaxFrom(-DblMax, samples, useFill)
  }

  function RunningMin(samples: seq<Sample>, useFill: bool): real {
    MinFrom(DblMax, samples, useFill)
  }

  /** Scanning a + b is scanning a, then b from where a left off. */
  lemma {:induction false} ScanConcat(m0: real, n0: real, a: seq<Sample>, b: seq<Sample>, useFill: bool)
    ensures MaxFrom(m0, a + b, useFill) == MaxFrom(MaxFrom(m0, a, useFill), b, useFill)
    ensures MinFrom(n0, a + b, useFill) == MinFrom(MinFrom(n0, a, useFill), b, useFill)
    decreases |b|
  {
    if |b| == 0 {
      assert a + b == a;
    } else {
      assert (a + b)[..|a + b| - 1] == a + b[..|b| - 1];
      ScanConcat(m0, n0, a, b[..|b| - 1], useFill);
    }
  }

  /**
   * The range get_slice reports, as (minimum, maximum): (0, SMALL_VALUE)
   * when no pixel counted; a collapsed range is widened above its minimum.
   */
  function ReportedRange(lo: real, hi: real, smallValue: real): (real, real) {
    if hi == -DblMax && lo == DblMax then (0.0, smallValue)
    else if hi <= lo then
      if lo == 0.0 then (lo, smallValue)
      else if lo < 0.0 then (lo, 0.0)
      else (lo, 2.0 * lo)
    else (lo, hi)
  }

  // ---------------------------------------------------------------------
  // What the running extrema and the reported range mean

  /** Every counted value lies between the running minimum and maximum, which never pass their start values. */
  lemma {:induction false} ScanBounds(m0: real, n0: real, samples: seq<Sample>, useFill: bool)
    ensures MaxFrom(m0, samples, useFill) >= m0 && MinFrom(n0, samples, useFill) <= n0
    ensures forall p :: 0 <= p < |samples| && Counted(samples[p], useFill) ==>
      MinFrom(n0, samples, useFill) <= samples[p].value <= MaxFrom(m0, samples, useFill)
    decreases |samples|
  {
    if |samples| > 0 {
      var init := samples[..|samples| - 1];
      ScanBounds(m0, n0, init, useFill);
      forall p | 0 <= p < |samples| - 1 ensures samples[p] == init[p] { }
    }
  }

  /** The running maximum is either its start value or a counted value. */
  lemma {:induction false} MaxAttained(m0: real, samples: seq<Sample>, useFill: bool)
    ensures MaxFrom(m0, samples, useFill) == m0 ||
      exists p :: 0 <= p < |samples| && Counted(samples[p], useFill) && samples[p].value == MaxFrom(m0, samples, useFill)
    decreases |samples|
  {
    if |samples| > 0 {
      var init := samples[..|samples| - 1];
      MaxAttained(m0, init, useFill);
      if MaxFrom(m0, samples, useFill) != m0 && MaxFrom(m0, samples, useFill) == MaxFrom(m0, init, useFill) {
        var p :| 0 <= p < |init| && Counted(init[p], useFill) && init[p].value == MaxFrom(m0, init, useFill);
        assert samples[p] == init[p];
      }
    }
  }

  /** The running minimum is either its start value or a counted value. */
  lemma {:induction false} MinAttained(n0: real, samples: seq<Sample>, useFill: bool)
    ensures MinFrom(n0, samples, useFill) == n0 ||
      exists p :: 0 <= p < |samples| && Counted(samples[p], useFill) && samples[p].value == MinFrom(n0, samples, useFill)
    decreases |samples|
  {
    if |samples| > 0 {
      var init := samples[..|samples| - 1];
      MinAttained(n0, init, useFill);
      if MinFrom(n0, samples, useFill) != n0 && MinFrom(n0, samples, useFill) == MinFrom(n0, init, useFill) {
        var p :| 0 <= p < |init| && Counted(init[p], useFill) && init[p].value == MinFrom(n0, init, useFill);
        assert samples[p] == init[p];
      }
    }
  }

  /** When nothing counts, both running extrema keep their start values. */
  lemma {:induction false} NothingCountedKeepsStart(m0: real, n0: real, samples: seq<Sample>, useFill: bool)
    requires forall p :: 0 <= p < |samples| ==> !Counted(samples[p], useFill)
    ensures MaxFrom(m0, samples, useFill) == m0 && MinFrom(n0, samples, useFill) == n0
    decreases |samples|
  {
    if |samples| > 0 {
      var init := samples[..|samples| - 1];
      forall p | 0 <= p < |init| ensures !Counted(init[p], useFill) {
        assert init[p] == samples[p];
      }
      NothingCountedKeepsStart(m0, n0, init, useFill);
    }
  }

  /**
   * The sentinel test of get_slice is exact: both extrema keep their start
   * values if and only if no pixel counted.
   */
  lemma SentinelMeansNothingCounted(samples: seq<Sample>, useFill: bool)
    ensures (RunningMax(samples, useFill) == -DblMax && RunningMin(samples, useFill) == DblMax) <==>
      forall p :: 0 <= p < |samples| ==> !Counted(samples[p], useFill)
  {
    ScanBounds(-DblMax, DblMax, samples, useFill);
    if forall p :: 0 <= p < |samples| ==> !Counted(samples[p], useFill) {
      NothingCountedKeepsStart(-DblMax, DblMax, samples, useFill);
    }
  }

  /**
   * The reported range is never empty, contains every counted pixel value,
   * reports the true minimum whenever some pixel counted, and is exactly the
   * true range when that range is not collapsed.
   */
  lemma ReportedRangeMeaning(samples: seq<Sample>, useFill: bool, smallValue: real)
    requires smallValue > 0.0
    ensures var lo, hi := RunningMin(samples, useFill), RunningMax(samples, useFill);
      var r := ReportedRange(lo, hi, smallValue);
      && r.0 < r.1
      && (forall p :: 0 <= p < |samples| && Counted(samples[p], useFill) ==> r.0 <= samples[p].value <= r.1)
      && ((exists p :: 0 <= p < |samples| && Counted(samples[p], useFill)) ==> r.0 == lo)
      && ((forall p :: 0 <= p < |samples| ==> !Counted(samples[p], useFill)) ==> r == (0.0, smallValue))
      && (lo < hi ==> r == (lo, hi))
  {
    SentinelMeansNothingCounted(samples, useFill);
    ScanBounds(-DblMax, DblMax, samples, useFill);
  }

  // ---------------------------------------------------------------------
  // get_slice

  /**
   * get_slice: fill the slice buffer with the slice's samples and report the
   * slice's range.  On a linear transform the coordinates are stepped from
   * the images of the slice origin and the unit row and column vectors; on
   * any other they are transformed pixel by pixel; both give each pixel's
   * SamplePoint.
   */
  method GetSlice(sliceNum: int, kernel: Kernel, v: Volume, m: Mapping, data: array<real>,
                  nrow: nat, ncol: nat, smallValue: real)
    returns (minimum: real, maximum: real)
    requires KernelReady(kernel, v)
    requires data.Length == nrow * ncol
    modifies data
    ensures var samples := SliceSamples(kernel, v, m, sliceNum, nrow, ncol);
      && |samples| == data.Length
      && (forall p :: 0 <= p < data.Length ==> data[p] == samples[p].value)
      && (minimum, maximum) == ReportedRange(RunningMin(samples, v.useFill), RunningMax(samples, v.useFill), smallValue)
  {
    var total, allLinear, row, column, start := SteppingSetup(sliceNum, m);
    ghost var pixel := PixelMap(kernel, v, m, sliceNum);
    SteppingFeedsPixels(kernel, v, m, sliceNum, total, allLinear, row, column, start, ncol);
    maximum, minimum := FillSlice(pixel, kernel, v, total, allLinear, row, column, start, data, nrow, ncol);
    GridLength(pixel, nrow, ncol);
    minimum, maximum := FinishRange(minimum, maximum, smallValue);
  }

  /** At every pixel the kernel, applied where stepping leads, gives that pixel's sample. */
  lemma SteppingFeedsPixels(kernel: Kernel, v: Volume, m: Mapping, sliceNum: int,
                            total: Transform, allLinear: bool, row: Vec3, column: Vec3, start: Vec3, ncol: nat)
    requires KernelReady(kernel, v)
    requires SteppingReaches(total, allLinear, row, column, start, m, sliceNum)
    ensures forall irow :: RowFeeds(kernel, v, total, allLinear, row, column, start, PixelMap(kernel, v, m, sliceNum), irow, ncol)
  {
    var pixel := PixelMap(kernel, v, m, sliceNum);
    forall irow ensures RowFeeds(kernel, v, total, allLinear, row, column, start, pixel, irow, ncol) {
      forall icol | 0 <= icol < ncol
        ensures PixelFeeds(kernel, v, total, allLinear, RowStep(row, start, column, irow, icol), pixel(irow, icol))
      {
        assert Transformed(total, allLinear, RowStep(row, start, column, irow, icol)) == SamplePoint(m, sliceNum, irow, icol);
      }
    }
  }

  /** Stepping, and transforming when the transform is not linear, reaches every pixel's SamplePoint. */
  ghost predicate SteppingReaches(total: Transform, allLinear: bool, row: Vec3, column: Vec3, start: Vec3,
                                  m: Mapping, sliceNum: int)
  {
    forall irow: int, icol: nat ::
      Transformed(total, allLinear, RowStep(row, start, column, irow, icol)) == SamplePoint(m, sliceNum, irow, icol)
  }

  /** The coordinate get_slice reaches at column icol of row irow, by stepping. */
  function RowStep(row: Vec3, start: Vec3, column: Vec3, irow: int, icol: nat): Vec3 {
    Stepped(Add(Mul(row, irow as real), start), column, icol)
  }

  /** The kernel, applied where the coordinate coord leads, gives want. */
  ghost predicate PixelFeeds(kernel: Kernel, v: Volume, total: Transform, allLinear: bool, coord: Vec3, want: Sample)
    requires KernelReady(kernel, v)
  {
    Interpolate(kernel, v, Transformed(total, allLinear, coord)) == want
  }

  /** Stepping along row irow feeds the kernel the points whose samples pixel gives for that row. */
  ghost predicate RowFeeds(kernel: Kernel, v: Volume, total: Transform, allLinear: bool, row: Vec3, column: Vec3, start: Vec3,
                           pixel: (int, int) -> Sample, irow: int, ncol: nat)
    requires KernelReady(kernel, v)
  {
    forall icol {:trigger PixelFeeds(kernel, v, total, allLinear, RowStep(row, start, column, irow, icol), pixel(irow, icol))} ::
      0 <= icol < ncol ==> PixelFeeds(kernel, v, total, allLinear, RowStep(row, start, column, irow, icol), pixel(irow, icol))
  }

  /**
   * The buffer holds the samples of the first irow rows of the pixel map,
   * and maximum and minimum are their running extrema.
   */
  ghost predicate Written(pixel: (int, int) -> Sample, irow: nat, ncol: nat, data: array<real>,
                          maximum: real, minimum: real, useFill: bool)
    reads data
  {
    var done := Grid(pixel, irow, ncol);
    && |done| <= data.Length
    && (forall p :: 0 <= p < |done| ==> data[p] == done[p].value)
    && maximum == RunningMax(done, useFill)
    && minimum == RunningMin(done, useFill)
  }

  /** The row loop of get_slice, from the sentinel extrema -DBL_MAX and DBL_MAX. */
  method FillSlice(ghost pixel: (int, int) -> Sample, kernel: Kernel, v: Volume,
                   total: Transform, allLinear: bool, row: Vec3, column: Vec3, start: Vec3,
                   data: array<real>, nrow: nat, ncol: nat)
    returns (maximum: real, minimum: real)
    requires KernelReady(kernel, v)
    requires data.Length == nrow * ncol
    requires forall irow :: RowFeeds(kernel, v, total, allLinear, row, column, start, pixel, irow, ncol)
    modifies data
    ensures Written(pixel, nrow, ncol, data, maximum, minimum, v.useFill)
  {
    maximum := -DblMax;
    minimum := DblMax;
    var irow := 0;
    while irow < nrow
      invariant 0 <= irow <= nrow
      invariant Written(pixel, irow, ncol, data, maximum, minimum, v.useFill)
    {
      GridLength(pixel, irow + 1, ncol);
      MultipleAtLeast(nrow - irow, ncol);
      assert (irow + 1) * ncol <= nrow * ncol by {
        assert nrow * ncol - (irow + 1) * ncol == (nrow - irow) * ncol - ncol;
      }
      maximum, minimum := NextRow(pixel, irow, kernel, v, total, allLinear, row, column, start,
                                  data, ncol, maximum, minimum);
      irow := irow + 1;
    }
  }

  /** One pass of the row loop of get_slice. */
  method NextRow(ghost pixel: (int, int) -> Sample, irow: nat, kernel: Kernel, v: Volume,
                 total: Transform, allLinear: bool, row: Vec3, column: Vec3, start: Vec3,
                 data: array<real>, ncol: nat, max0: real, min0: real)
    returns (maximum: real, minimum: real)
    requires KernelReady(kernel, v)
    requires |Grid(pixel, irow + 1, ncol)| <= data.Length
    requires RowFeeds(kernel, v, total, allLinear, row, column, start, pixel, irow, ncol)
    requires Written(pixel, irow, ncol, data, max0, min0, v.useFill)
    modifies data
    ensures Written(pixel, irow + 1, ncol, data, maximum, minimum, v.useFill)
    ensures forall p :: (irow + 1) * ncol <= p < data.Length ==> data[p] == old(data[p])
  {
    ghost var done := Grid(pixel, irow, ncol);
    ghost var rowSamples := RowOf(pixel, irow, ncol);
    var dptr := irow * ncol;
    assert dptr + ncol == (irow + 1) * ncol;
    GridLength(pixel, irow, ncol);
    maximum, minimum := ResampleRow(pixel, irow, kernel, v, total, allLinear,
                                    row, column, start, data, dptr, ncol, max0, min0);
    ScanConcat(-DblMax, DblMax, done, rowSamples, v.useFill);
    BufferExtended(data, done, rowSamples);
  }

  /**
   * The end of get_slice: report (0, SMALL_VALUE) when the sentinels are
   * untouched, and widen a collapsed range above its minimum.
   */
  method FinishRange(minimum0: real, maximum0: real, smallValue: real) returns (minimum: real, maximum: real)
    ensures (minimum, maximum) == ReportedRange(minimum0, maximum0, smallValue)
  {
    minimum, maximum := minimum0, maximum0;
    if maximum == -DblMax && minimum == DblMax {
      minimum := 0.0;
      maximum := smallValue;
    } else if maximum <= minimum {
      if minimum == 0.0 {
        maximum := smallValue;
      } else if minimum < 0.0 {
        maximum := 0.0;
      } else {
        maximum := 2.0 * minimum;
      }
    }
  }

  /** Concatenate the output-voxel-to-world, world and input-world-to-voxel transforms. */
  method ConcatTransforms(m: Mapping) returns (total: Transform)
    ensures Composes(total, m)
    ensures total.Linear? <==> m.outVoxelToWorld.Linear? && m.transformation.Linear? && m.inWorldToVoxel.Linear?
  {
    total := Concat(Concat(m.outVoxelToWorld, m.transformation), m.inWorldToVoxel);
    TotalComposes(m);
  }

  /**
   * The set-up of get_slice: concatenate the transforms and, when the result
   * is linear, transform the slice origin and the unit row and column points,
   * taking the image of the origin off the latter two.  Stepping with the
   * result reaches every pixel's SamplePoint.
   */
  method SteppingSetup(sliceNum: int, m: Mapping)
    returns (total: Transform, allLinear: bool, row: Vec3, column: Vec3, start: Vec3)
    ensures SteppingReaches(total, allLinear, row, column, start, m, sliceNum)
  {
    total := ConcatTransforms(m);
    allLinear := total.Linear?;
    var zero;
    zero, column, row := Vec3(0.0, 0.0, 0.0), Vec3(0.0, 0.0, 1.0), Vec3(0.0, 1.0, 0.0);
    start := Vec3(sliceNum as real, 0.0, 0.0);
    if allLinear {
      zero := Eval(total, zero);
      column := Eval(total, column);
      row := Eval(total, row);
      start := Eval(total, start);
    }
    row := Sub(row, zero);
    column := Sub(column, zero);
    assert SteppingVectors(total, allLinear, sliceNum, zero, row, column, start);
    forall irow: int, icol: nat
      ensures Transformed(total, allLinear, RowStep(row, start, column, irow, icol)) == SamplePoint(m, sliceNum, irow, icol)
    {
      var rowStart := Add(Mul(row, irow as real), start);
      var coord := Stepped(rowStart, column, icol);
      PixelPoint(m, allLinear, total, sliceNum, irow, icol, zero, row, column, start, rowStart, coord,
                 Transformed(total, allLinear, coord));
    }
  }

  /** The vectors get_slice steps with, as it sets them up for a linear or a general transform. */
  predicate SteppingVectors(total: Transform, allLinear: bool, sliceNum: int,
                            zero: Vec3, row: Vec3, column: Vec3, start: Vec3)
  {
    && allLinear == total.Linear?
    && (allLinear ==> zero == Eval(total, Vec3(0.0, 0.0, 0.0)))
    && (allLinear ==> row == Sub(Eval(total, Vec3(0.0, 1.0, 0.0)), zero))
    && (allLinear ==> column == Sub(Eval(total, Vec3(0.0, 0.0, 1.0)), zero))
    && (allLinear ==> start == Eval(total, Vec3(sliceNum as real, 0.0, 0.0)))
    && (!allLinear ==> row == Vec3(0.0, 1.0, 0.0))
    && (!allLinear ==> column == Vec3(0.0, 0.0, 1.0))
    && (!allLinear ==> start == Vec3(sliceNum as real, 0.0, 0.0))
  }

  /** The point the column loop interpolates at, given the stepped coordinate. */
  function Transformed(total: Transform, allLinear: bool, coord: Vec3): Vec3 {
    if allLinear then coord else Eval(total, coord)
  }

  /**
   * The column loop of get_slice: step the coordinate along the row, write
   * the sample of each pixel of the row at dptr onwards and fold the
   * counted ones into the running extrema.
   */
  method ResampleRow(ghost pixel: (int, int) -> Sample, irow: int, kernel: Kernel, v: Volume,
                     total: Transform, allLinear: bool, row: Vec3, column: Vec3, start: Vec3,
                     data: array<real>, dptr0: nat, ncol: nat, max0: real, min0: real)
    returns (maximum: real, minimum: real)
    requires KernelReady(kernel, v)
    requires dptr0 + ncol <= data.Length
    requires RowFeeds(kernel, v, total, allLinear, row, column, start, pixel, irow, ncol)
    modifies data
    ensures forall p :: 0 <= p < dptr0 ==> data[p] == old(data[p])
    ensures forall p :: dptr0 + ncol <= p < data.Length ==> data[p] == old(data[p])
    ensures forall p :: dptr0 <= p < dptr0 + ncol ==> data[p] == RowOf(pixel, irow, ncol)[p - dptr0].value
    ensures maximum == MaxFrom(max0, RowOf(pixel, irow, ncol), v.useFill)
    ensures minimum == MinFrom(min0, RowOf(pixel, irow, ncol), v.useFill)
  {
    ghost var samples := RowOf(pixel, irow, ncol);
    maximum, minimum := max0, min0;
    var coord := Add(Mul(row, irow as real), start);
    var dptr := dptr0;
    var icol := 0;
    while icol < ncol
      invariant 0 <= icol <= ncol && dptr == dptr0 + icol
      invariant coord == RowStep(row, start, column, irow, icol)
      invariant forall p :: 0 <= p < dptr0 ==> data[p] == old(data[p])
      invariant forall p :: dptr0 + ncol <= p < data.Length ==> data[p] == old(data[p])
      invariant forall p :: dptr0 <= p < dptr ==> data[p] == samples[p - dptr0].value
      invariant maximum == MaxFrom(max0, samples[..icol], v.useFill)
      invariant minimum == MinFrom(min0, samples[..icol], v.useFill)
    {
      var ok, value := ResamplePixel(pixel, irow, icol, kernel, v, total, allLinear, row, column, start, coord, ncol);
      data[dptr] := value;
      maximum, minimum := UpdateExtrema(maximum, minimum, ok, value, v.useFill);
      ScanStep(max0, min0, samples, icol, v.useFill);
      coord := Add(coord, column);
      dptr := dptr + 1;
      icol := icol + 1;
    }
    assert samples[..ncol] == samples;
  }

  /** Fold one pixel into the running extrema when it is accepted or fill values count. */
  method UpdateExtrema(maximum0: real, minimum0: real, ok: bool, value: real, useFill: bool)
    returns (maximum: real, minimum: real)
    ensures maximum == MaxStep(maximum0, Sample(ok, value), useFill)
    ensures minimum == MinStep(minimum0, Sample(ok, value), useFill)
  {
    maximum, minimum := maximum0, minimum0;
    if ok || useFill {
      if value > maximum {
        maximum := value;
      }
      if value < minimum {
        minimum := value;
      }
    }
  }

  /** One pixel of the column loop: transform the coordinate if need be, then interpolate. */
  method ResamplePixel(ghost pixel: (int, int) -> Sample, ghost irow: int, ghost icol: int, kernel: Kernel, v: Volume,
                       total: Transform, allLinear: bool, ghost row: Vec3, ghost column: Vec3, ghost start: Vec3,
                       coord: Vec3, ghost ncol: nat)
    returns (ok: bool, value: real)
    requires KernelReady(kernel, v)
    requires 0 <= icol < ncol && coord == RowStep(row, start, column, irow, icol)
    requires RowFeeds(kernel, v, total, allLinear, row, column, start, pixel, irow, ncol)
    ensures Sample(ok, value) == pixel(irow, icol)
  {
    assert PixelFeeds(kernel, v, total, allLinear, RowStep(row, start, column, irow, icol), pixel(irow, icol));
    var transfCoord := coord;
    if !allLinear {
      transfCoord := Eval(total, transfCoord);
    }
    ok, value := InterpolateAt(kernel, v, transfCoord);
  }

  /** base with step added n times, as the column loop advances the coordinate. */
  function Stepped(base: Vec3, step: Vec3, n: nat): Vec3 {
    if n == 0 then base else Add(Stepped(base, step, n - 1), step)
  }

  /** Adding the step n times is adding n times the step. */
  lemma {:induction false} SteppedIsScaled(base: Vec3, step: Vec3, n: nat)
    ensures Stepped(base, step, n) == Add(base, Mul(step, n as real))
  {
    if n > 0 {
      SteppedIsScaled(base, step, n - 1);
      StepOnce(base, step, (n - 1) as real);
    }
  }

  lemma StepOnce(base: Vec3, step: Vec3, x: real)
    ensures Add(Add(base, Mul(step, x)), step) == Add(base, Mul(step, x + 1.0))
  {
  }

  /**
   * The coordinate get_slice interpolates at, on either path, is the
   * pixel's SamplePoint.
   */
  lemma PixelPoint(m: Mapping, allLinear: bool, total: Transform, sliceNum: int, irow: int, icol: nat,
                   zero: Vec3, row: Vec3, column: Vec3, start: Vec3, rowStart: Vec3, coord: Vec3, transfCoord: Vec3)
    requires Composes(total, m)
    requires SteppingVectors(total, allLinear, sliceNum, zero, row, column, start)
    requires rowStart == Add(Mul(row, irow as real), start)
    requires coord == Stepped(rowStart, column, icol)
    requires transfCoord == if allLinear then coord else Eval(total, coord)
    ensures transfCoord == SamplePoint(m, sliceNum, irow, icol)
  {
    SteppedIsScaled(rowStart, column, icol);
    if allLinear {
      LinearPixelPoint(total, sliceNum, irow, icol, zero, row, column, start, coord);
    } else {
      GeneralPixelPoint(sliceNum, irow, icol, row, column, start, coord);
    }
  }

  lemma LinearPixelPoint(total: Transform, sliceNum: int, irow: int, icol: int,
                         zero: Vec3, row: Vec3, column: Vec3, start: Vec3, coord: Vec3)
    requires total.Linear?
    requires zero == Eval(total, Vec3(0.0, 0.0, 0.0))
    requires row == Sub(Eval(total, Vec3(0.0, 1.0, 0.0)), zero)
    requires column == Sub(Eval(total, Vec3(0.0, 0.0, 1.0)), zero)
    requires start == Eval(total, Vec3(sliceNum as real, 0.0, 0.0))
    requires coord == Add(Add(Mul(row, irow as real), start), Mul(column, icol as real))
    ensures coord == Eval(total, Vec3(sliceNum as real, irow as real, icol as real))
  {
    SteppedCoordinate(total, sliceNum as real, irow as real, icol as real);
  }

  lemma GeneralPixelPoint(sliceNum: int, irow: int, icol: int, row: Vec3, column: Vec3, start: Vec3, coord: Vec3)
    requires row == Vec3(0.0, 1.0, 0.0)
    requires column == Vec3(0.0, 0.0, 1.0)
    requires start == Vec3(sliceNum as real, 0.0, 0.0)
    requires coord == Add(Add(Mul(row, irow as real), start), Mul(column, icol as real))
    ensures coord == Vec3(sliceNum as real, irow as real, icol as real)
  {
  }
}
