# mincresample: the resampling engine, modelled in Dafny

This project models the core of `mincresample`, the MINC tool that
resamples one image volume onto the sampling grid of another. The core
is `progs/mincresample/resample_volumes.c`. It reads the input file one
volume window at a time and calibrates each window's raw voxels into
real intensities. It then resamples every output slice from the window
with one of three kernels: nearest neighbour, trilinear or tricubic. It
writes each slice together with its range and keeps a global valid range
across the whole run.

The model uses `real` for the source's doubles and `int` for its
indices, so the algebraic identities hold exactly. The pieces are:

- `limits.dfy` (`Limits`): DBL_MAX, written out exactly. It is the sentinel of the running extrema.
- `geometry.dfy` (`Geometry`): coordinate vectors and transforms.
  - A transform is either linear (matrix and translation) or general (any point map).
  - Concatenation stays linear only when both parts are linear.
- `calibration.dfy` (`Calibration`): the calibration part of `load_volume`.
  - Functions give what the arrays should hold.
  - In-place array methods fill them, as the source does.
- `odometer.dfy` (`Odometer`): the `in_start` counter of `resample_volumes`.
  - The start vector is read as a mixed-radix number, and each advance adds one to it.
  - So the run visits every window exactly once, in order, and stops after the product of the radices.
- `interpolation.dfy` (`Interpolation`): the three kernels.
  - Each kernel is a specification function.
  - `tricubic_interpolant` and the recursive `do_Ncubic_interpolation` are also methods over an index array that they mutate and restore.
- `kernel_properties.dfy` (`KernelProperties`): what the kernels promise.
  - Exact acceptance conditions.
  - The fallback of tricubic to trilinear at the edges.
  - Range bounds.
  - The cubic blend's endpoint and continuity identities.
  - Agreement at grid points.
- `slice.dfy` (`SliceResampler`): `get_slice`, as imperative code over the slice buffer.
  - The stepped coordinates of the linear path equal the direct evaluation of each pixel's sample point.
  - The reported range is never empty.
- `resample.dfy` (`Resampler`): the run, `resample_volumes`.
  - `ResampleVolumes` returns the slices written, the valid-range attribute (if written) and the fatal calibration error (if one stopped the run).
  - Its contract ties these to the windows in odometer order.
- `findings.dfy` (`Findings`): the uninitialised `found_fillvalue` flag, modelled as written (see Findings).

The caller's part is parameters, not I/O:

- The input file is a `read` function from a start vector to the raw voxels and image-max/min values of that window.
- The output is the sequence of `SliceRecord`s written.
- The interpolation kernel the user picked is the `Kernel` argument.
- `SMALL_VALUE` is a parameter `smallValue`. Properties that need it assume it is positive.

Some of the code's behaviour is easy to misread; the model follows the code as written:

- **Missing image-max/min.** When the variables are missing, max and min become 1 and 0 (`DEFAULT_MAX`, `DEFAULT_MIN`, comment at lines 231-232), and integer data is then calibrated with them like any other max/min. `Calibration.ExtremesSource` and `Calibration.WindowRoundTrip` state what the code does.
- **The global minimum.** The lower end of the global valid range is updated with `>` (line 143). It is therefore a running maximum of the slice minima, starting from DBL_MAX. The model keeps this. `Resampler.GlobalMinimumStaysAtSentinel` proves that it never leaves DBL_MAX for double-precision slice minima. For a constant field of 7, each slice reports the range (7, 14), since an empty range is widened, and the written global range is [DBL_MAX, 14].
- **The odometer's length.** The odometer steps `in_start` from `ofp->ndims-1` (line 162), while `in_start` has `ifp->ndims` entries. The model requires the two files to have the same number of dimensions (`Resampler.Layout`) and uses that one length.
- **Tricubic can leave the calibrated span.** The cubic blend at lines 668-678 passes through its middle two samples but is not bounded by its samples. Trilinear and nearest-neighbour samples stay within the calibrated spans of the slices they read (`KernelProperties.TrilinearWithinSpans`, `KernelProperties.NearestWithinSpan`). A tricubic sample need not: on a 4×4×4 window whose every column is (1, 0, 0, 1), with valid range [0, 1], scale 1 and offset 0, tricubic accepts the point (1.5, 1.5, 1.5) with the value -1/8, below every slice's span (`KernelProperties.TricubicLeavesSpan`).

## Model

| member | source | states |
|---|---|---|
| Geometry.Concat | progs/mincresample/resample_volumes.c:352-359 | The concatenated transform is linear exactly when both parts are linear. |
| Geometry.ConcatEval | progs/mincresample/resample_volumes.c:352-356 | Evaluating a concatenation applies the first transform, then the second. |
| Geometry.Eval | progs/mincresample/resample_volumes.c:364-367 | DO_TRANSFORM on one point: a linear transform applies its matrix and adds its translation, a general one applies its map. There is no ensures of its own. Geometry.ConcatEval and Geometry.SteppedCoordinate state what evaluation gives for concatenations and for point differences. |
| Geometry.SteppedCoordinate | progs/mincresample/resample_volumes.c:362-372 | For a linear transform, the image of the slice start plus irow times the row difference plus icol times the column difference is the image of (slice, irow, icol): the translation cancels. |
| Calibration.PerSlice | progs/mincresample/resample_volumes.c:261-275 | A read is acceptable exactly when it holds 1 value or one per slice; a single value is copied to every slice; otherwise the values read are kept as they are. |
| Calibration.SliceExtremes | progs/mincresample/resample_volumes.c:231-279 | On success there is one max and one min per slice. Which values they are is stated by Calibration.ExtremesSource, and when the read fails by Calibration.CountMismatchIsFatal. |
| Calibration.Scale | progs/mincresample/resample_volumes.c:292-300 | A slice's scale: (max - min) over the width of the valid range, or 0 when that width is 0. There is no ensures of its own. Calibration.CalibrationRoundTrip and Calibration.DegenerateRangeGivesMinimum state its meaning. |
| Calibration.Offset | progs/mincresample/resample_volumes.c:301-302 | A slice's offset: min less the low end of the valid range times the scale. There is no ensures of its own. Calibration.CalibrationRoundTrip states that the low end maps to min and the high end to max. |
| Calibration.Convert | progs/mincresample/resample_volumes.c:282-306 | The conversion yields one scale and one offset per slice. What they mean is stated by Calibration.CalibrationRoundTrip, Calibration.DegenerateRangeGivesMinimum and Calibration.FloatingIsIdentity. |
| Calibration.WindowCalibration | progs/mincresample/resample_volumes.c:231-306 | On success load_volume leaves one scale and one offset per slice. Their meaning is stated by Calibration.WindowRoundTrip and Calibration.FloatingIsIdentity. |
| Calibration.ReadExtremum | progs/mincresample/resample_volumes.c:252-275 | Succeeds exactly when the count is acceptable. Then the array holds the value read for each slice (one value broadcast to every slice); on failure the array is unchanged. |
| Calibration.ReadExtremes | progs/mincresample/resample_volumes.c:231-279 | Fails exactly when the source's max/min is in error, with that error. Otherwise scale[] holds the per-slice maxima and offset[] the minima (the defaults when the variables are missing or the file type is floating). |
| Calibration.ConvertSlices | progs/mincresample/resample_volumes.c:282-306 | In place, each slice's (max, min) becomes the scale and offset that Convert gives for it. |
| Calibration.LoadVolume | progs/mincresample/resample_volumes.c:231-306 | Fails exactly when the window's calibration is fatal, with its error. Otherwise the arrays hold the window's scale and offset. |
| Calibration.FloatingIsIdentity | progs/mincresample/resample_volumes.c:285-289 | Floating-point volume data gets scale 1 and offset 0 on every slice. |
| Calibration.CalibrationRoundTrip | progs/mincresample/resample_volumes.c:292-303 | With a non-zero valid-range width, raw = lo calibrates to the slice's min and raw = hi to its max. |
| Calibration.DegenerateRangeGivesMinimum | progs/mincresample/resample_volumes.c:295-303 | With a zero-width valid range the scale is 0 and the offset is min, so every raw value maps to min. |
| Calibration.WindowRoundTrip | progs/mincresample/resample_volumes.c:231-306 | For integer data and every slice, the window's calibration maps lo to that slice's min and hi to its max. These are the values read (or the defaults). |
| Calibration.ExtremesSource | progs/mincresample/resample_volumes.c:231-279 | The per-slice max/min are the defaults when a variable is missing or the file type is floating. Otherwise they are the single value read, or the slice's own value. |
| Calibration.CountMismatchIsFatal | progs/mincresample/resample_volumes.c:261-275 | The calibration fails exactly when the variables exist, the file type is integer, and a count read is neither 1 nor the number of slices. The error names the max read first. |
| Odometer.Carry | progs/mincresample/resample_volumes.c:162-168 | Dimension idim steps by its count, then settles. There is no ensures of its own. Odometer.CarryFrame and Odometer.CarryAddsOne state that it keeps later dimensions and adds one to the rank. |
| Odometer.Settle | progs/mincresample/resample_volumes.c:163-168 | A dimension above 0 at or past its end resets to 0 and carries into the one before. There is no ensures of its own. Its meaning is stated through Carry by Odometer.CarryFrame and Odometer.CarryAddsOne. |
| Odometer.Advance | progs/mincresample/resample_volumes.c:162-168 | One advance of in_start from the last dimension. There is no ensures of its own. Odometer.AdvanceAddsOne states that it adds one to the rank, and Odometer.AdvanceStart computes it in place. |
| Odometer.CarryFrame | progs/mincresample/resample_volumes.c:164-168 | A carry from dimension idim keeps the length and leaves every later dimension unchanged. |
| Odometer.AdvanceStart | progs/mincresample/resample_volumes.c:162-168 | In place, the start vector becomes its advance: step the last dimension, then reset and carry into the previous dimension while the current one (above 0) reaches its end. |
| Odometer.AdvanceAddsOne | progs/mincresample/resample_volumes.c:162-168 | An advance keeps a valid position and adds exactly one to its mixed-radix rank. |
| Odometer.CarryAddsOne | progs/mincresample/resample_volumes.c:164-168 | A carry from dimension idim adds one to the rank of the first idim + 1 dimensions. |
| Odometer.RankBelowWindows | progs/mincresample/resample_volumes.c:116 | While the first coordinate is below its end, the rank is below the number of windows. |
| Odometer.RankAtEnd | progs/mincresample/resample_volumes.c:116 | Once the first coordinate reaches its end, the rank has reached the number of windows. |
| Odometer.WindowCount | progs/mincresample/resample_volumes.c:80-88 | in_count: the whole length on the volume's dimensions, 1 elsewhere. There is no ensures of its own. Odometer.WindowCountSteps states the radices it gives. |
| Odometer.WindowCountSteps | progs/mincresample/resample_volumes.c:80-88 | The counter set up for a volume at a time steps properly. The volume's dimensions have radix 1 and every other dimension has its length. |
| Odometer.StartAfter | progs/mincresample/resample_volumes.c:80 | The start vector after r advances from all zeros has one entry per dimension. Its order and range are stated by Odometer.StartAfterRank and Odometer.StartInside. |
| Odometer.StartAfterRank | progs/mincresample/resample_volumes.c:80-168 | The r-th window starts at a valid position of rank r, so windows come in order. |
| Odometer.StartsDistinct | progs/mincresample/resample_volumes.c:116-170 | Two different windows of the run have different start vectors: no window is read twice. |
| Odometer.StartInside | progs/mincresample/resample_volumes.c:116 | The r-th start passes the loop test exactly when r is below the number of windows, so the run reads exactly that many. |
| Interpolation.Round | progs/mincresample/resample_volumes.c:708-710 | ROUND, halves away from zero. There is no ensures of its own. KernelProperties.RoundIsNearest, KernelProperties.RoundIsSymmetric and KernelProperties.RoundInRange state its meaning. |
| Interpolation.Nearest | progs/mincresample/resample_volumes.c:699-731 | nearest_neighbour_interpolant. There is no ensures of its own. KernelProperties.NearestAcceptance states when it accepts and what value it gives, and KernelProperties.NearestWithinSpan bounds that value. |
| Interpolation.Trilinear | progs/mincresample/resample_volumes.c:447-524 | trilinear_interpolant. There is no ensures of its own. KernelProperties.TrilinearAcceptance states when it accepts, and KernelProperties.TrilinearWithinSpans and KernelProperties.TrilinearAtGridPoint state its value. |
| Interpolation.CubicBlend | progs/mincresample/resample_volumes.c:671-678 | The cubic blend of four equally spaced values. There is no ensures of its own. KernelProperties.CubicEndpoints, KernelProperties.CubicContinuity and KernelProperties.CubicReproducesLines state its meaning. |
| Interpolation.AxisSamples | progs/mincresample/resample_volumes.c:611-648 | The four values gathered along axis dim. Its ensures gives their number; KernelProperties.AxisAcceptance states when each is accepted. |
| Interpolation.AxisSample | progs/mincresample/resample_volumes.c:611-648 | Point k along axis dim: a raw sample flagged by the valid range on the last axis, the next axis evaluated otherwise. There is no ensures of its own. KernelProperties.AxisAcceptance and KernelProperties.AxisIgnoresCalibration state its meaning. |
| Interpolation.NCubicSpec | progs/mincresample/resample_volumes.c:599-681 | do_Ncubic_interpolation as a function of the index vector. There is no ensures of its own. KernelProperties.NCubicAcceptance, KernelProperties.NCubicAtGridPoint and KernelProperties.InnerAxesIgnoreCalibration state its meaning, and Interpolation.NCubic computes it in place. |
| Interpolation.Tricubic | progs/mincresample/resample_volumes.c:541-580 | tricubic_interpolant. There is no ensures of its own. KernelProperties.TricubicOutside, KernelProperties.TricubicEdgeFallback, KernelProperties.TricubicInterior, KernelProperties.TricubicAtGridPoint and KernelProperties.TricubicLeavesSpan state its meaning, and Interpolation.TricubicInterpolant computes it. |
| Interpolation.CellIndex | progs/mincresample/resample_volumes.c:466-471 | The lower cell corner lies in [0, size-2] and brackets the coordinate. |
| Interpolation.Combine | progs/mincresample/resample_volumes.c:651-678 | The combination is accepted exactly when all four inputs are; a rejected one gives the fill value. |
| Interpolation.NCubic | progs/mincresample/resample_volumes.c:599-681 | The index array is restored on return, and (ok, result) is the spec evaluator's answer for the index it was called with. |
| Interpolation.Blend | progs/mincresample/resample_volumes.c:651-678 | The flag, calibration at axis 0 and the cubic blend together give Combine of the four values. |
| Interpolation.GatherLine | progs/mincresample/resample_volumes.c:610-627 | Reads the four samples of the line, leaving index[2] three up. Flags a fill marker exactly when one of them is not genuine. |
| Interpolation.GatherAxis | progs/mincresample/resample_volumes.c:629-646 | Evaluates the next axis at the four points, leaving index[curDim] three up. Flags exactly when one of those evaluations is rejected. |
| Interpolation.EvaluateAt | progs/mincresample/resample_volumes.c:631-645 | One recursive call restores the index and gives the next axis's answer at point k. |
| Interpolation.TricubicInterpolant | progs/mincresample/resample_volumes.c:541-580 | Running the source's steps through the index array gives the Tricubic spec's answer. |
| Interpolation.StencilInterpolant | progs/mincresample/resample_volumes.c:575-578 | The cubic path gives the evaluator's answer on the stencil with the shifted lower corner. |
| KernelProperties.RoundIsNearest | progs/mincresample/resample_volumes.c:708-710 | ROUND is within half a unit of its argument. |
| KernelProperties.RoundIsSymmetric | progs/mincresample/resample_volumes.c:708-710 | ROUND(-x) = -ROUND(x). |
| KernelProperties.RoundInRange | progs/mincresample/resample_volumes.c:708-716 | A rounded coordinate is a grid index exactly when the coordinate is in (-1/2, n-1/2). |
| KernelProperties.NearestAcceptance | progs/mincresample/resample_volumes.c:699-731 | Accepts exactly the coordinates less than half a voxel outside the grid whose nearest voxel is genuine data. The value is then that voxel calibrated with its own slice's scale and offset; otherwise it is the fill value. |
| KernelProperties.TrilinearAcceptance | progs/mincresample/resample_volumes.c:454-494 | Accepts exactly the coordinates in [0, size-1] on every axis whose whole 2x2x2 cell is genuine data; otherwise gives the fill value. |
| KernelProperties.CellIndexAtGridPoint | progs/mincresample/resample_volumes.c:466-471 | At grid point i the cell index is i, or i-1 on the last grid line. |
| KernelProperties.CellSlices | progs/mincresample/resample_volumes.c:483-494 | A valid cell has all eight corners genuine. |
| KernelProperties.TrilinearAtGridPoint | progs/mincresample/resample_volumes.c:496-520 | At an accepted grid point trilinear gives the calibrated voxel and agrees with nearest neighbour. |
| KernelProperties.BilinearInRange | progs/mincresample/resample_volumes.c:505-514 | The in-slice blend of four genuine samples stays in the valid range. |
| KernelProperties.CalibratedInSpan | progs/mincresample/resample_volumes.c:509-520 | Calibrating a value of the valid range stays within the span that the slice's map gives the valid range. |
| KernelProperties.SliceWithinSpan | progs/mincresample/resample_volumes.c:509-520 | One slice's calibrated blend stays within that slice's span. |
| KernelProperties.TrilinearBlend | progs/mincresample/resample_volumes.c:496-520 | An accepted sample is a blend, with weight f0 in [0,1], of a value in slice i's span and one in slice i+1's span. |
| KernelProperties.TrilinearWithinSpans | progs/mincresample/resample_volumes.c:496-520 | An accepted sample lies within the union of the calibrated spans of the two slices it blends. |
| KernelProperties.NearestWithinSpan | progs/mincresample/resample_volumes.c:708-729 | An accepted nearest-neighbour sample lies within the calibrated span of the slice of its nearest voxel. |
| KernelProperties.OvershootVolume | progs/mincresample/resample_volumes.c:668-678 | Builds the 4×4×4 window whose every column is (1, 0, 0, 1), with valid range [0, 1], scale 1 and offset 0. |
| KernelProperties.OvershootLine | progs/mincresample/resample_volumes.c:668-678 | On that window, each column blended halfway between its middle samples gives -1/8. |
| KernelProperties.OvershootLines | progs/mincresample/resample_volumes.c:630-650 | On that window, the four columns of a row plane each give -1/8. |
| KernelProperties.OvershootPlane | progs/mincresample/resample_volumes.c:668-678 | On that window, each row plane blended halfway gives -1/8. |
| KernelProperties.OvershootSlices | progs/mincresample/resample_volumes.c:630-650 | On that window, the four slices of the stencil at the origin each give -1/8. |
| KernelProperties.OvershootBlend | progs/mincresample/resample_volumes.c:657-678 | Four slice values of -1/8, calibrated with scale 1 and offset 0 and blended halfway, give -1/8. |
| KernelProperties.OvershootCube | progs/mincresample/resample_volumes.c:600-678 | On that window, the stencil at the origin blended halfway on every axis gives an accepted -1/8. |
| KernelProperties.TricubicLeavesSpan | progs/mincresample/resample_volumes.c:541-580 | On that window, every slice's calibrated span is [0, 1], yet tricubic accepts (1.5, 1.5, 1.5) with the value -1/8. |
| KernelProperties.CubicEndpoints | progs/mincresample/resample_volumes.c:668-678 | The cubic blend gives v1 at u = 0 and v2 at u = 1. |
| KernelProperties.CubicSlopeIsDerivative | progs/mincresample/resample_volumes.c:668-678 | The blend's increment from u to u+h is h times CubicSlope plus higher-order terms, so CubicSlope is its derivative. |
| KernelProperties.CubicContinuity | progs/mincresample/resample_volumes.c:668-678 | Neighbouring cells meet with equal value and equal first derivative. |
| KernelProperties.CubicReproducesLines | progs/mincresample/resample_volumes.c:671-678 | Evenly spaced data is reproduced exactly. |
| KernelProperties.AcceptanceOnLine | progs/mincresample/resample_volumes.c:610-655 | On the last axis the evaluator accepts exactly when its four samples are genuine. |
| KernelProperties.NCubicAcceptance | progs/mincresample/resample_volumes.c:599-655 | The evaluator accepts exactly when every sample of its 4x4x4, 4x4 or 4-sample stencil is genuine. One fill marker anywhere rejects the whole evaluation. |
| KernelProperties.AcceptedWhenValid | progs/mincresample/resample_volumes.c:629-646 | A genuine stencil gives four accepted sub-evaluations. |
| KernelProperties.ValidWhenAccepted | progs/mincresample/resample_volumes.c:629-646 | Four accepted sub-evaluations mean the whole stencil is genuine. |
| KernelProperties.AxisAcceptance | progs/mincresample/resample_volumes.c:629-646 | Point k along the axis is accepted exactly when its sub-stencil is genuine. |
| KernelProperties.NCubicAtGridPoint | progs/mincresample/resample_volumes.c:657-678 | At zero fractions an accepted evaluation gives the stencil's centre sample, genuine, calibrated with its own slice when blending slices. |
| KernelProperties.InnerAxesIgnoreCalibration | progs/mincresample/resample_volumes.c:657-663 | Below axis 0 the evaluator's answer does not depend on scale[] and offset[]: calibration happens only at axis 0. |
| KernelProperties.AxisIgnoresCalibration | progs/mincresample/resample_volumes.c:657-663 | A point along an inner axis does not depend on the calibration either. |
| KernelProperties.TricubicEdgeFallback | progs/mincresample/resample_volumes.c:569-574 | Less than one voxel from the low edge, or at most one from the high edge, on any axis, tricubic is exactly trilinear. |
| KernelProperties.TricubicInterior | progs/mincresample/resample_volumes.c:558-578 | Away from the edges, tricubic is the evaluator on the stencil one below the whole part. Every stencil index is on the grid, and the fractions are in [0,1). |
| KernelProperties.TricubicOutside | progs/mincresample/resample_volumes.c:547-556 | Off the grid, tricubic gives the fill value. |
| KernelProperties.TricubicOnStencil | progs/mincresample/resample_volumes.c:575-578 | Where the stencil fits, tricubic is the evaluator run on it. |
| KernelProperties.GridPointStencil | progs/mincresample/resample_volumes.c:558-567 | At grid point (i, j, k) the stencil corner is (i-1, j-1, k-1) and the fractions are zero. |
| KernelProperties.CubicPathAtGridPoint | progs/mincresample/resample_volumes.c:575-578 | The cubic path at a grid point accepts only a genuine voxel and then gives it calibrated. |
| KernelProperties.FallbackAtGridPoint | progs/mincresample/resample_volumes.c:569-574 | The trilinear fallback at a grid point agrees with nearest neighbour when it accepts. |
| KernelProperties.StencilAtGridPoint | progs/mincresample/resample_volumes.c:575-578 | The cubic path at a grid point agrees with nearest neighbour when it accepts. |
| KernelProperties.TricubicAtGridPoint | progs/mincresample/resample_volumes.c:541-580 | At a grid point, an accepted tricubic sample equals nearest neighbour on both paths. |
| KernelProperties.NearestAtGridPoint | progs/mincresample/resample_volumes.c:708-729 | At a grid point nearest neighbour gives the calibrated voxel, or the fill value when the voxel is not genuine. |
| SliceResampler.Interpolate | progs/mincresample/resample_volumes.c:400 | INTERPOLATE: the kernel the user picked. There is no ensures of its own. SliceResampler.RejectedIsFill and SliceResampler.InterpolateAt state its meaning. |
| SliceResampler.RejectedIsFill | progs/mincresample/resample_volumes.c:400 | Whatever the kernel, a rejected sample carries the fill value. |
| SliceResampler.InterpolateAt | progs/mincresample/resample_volumes.c:400 | The kernel call gives the chosen kernel's specified sample. |
| SliceResampler.SamplePoint | progs/mincresample/resample_volumes.c:352-397 | The input point of output pixel (irow, icol): the three transforms in turn. There is no ensures of its own. SliceResampler.PixelPoint and SliceResampler.SteppingSetup state that the program's stepping reaches it. |
| SliceResampler.TotalComposes | progs/mincresample/resample_volumes.c:352-356 | The concatenated transform maps every point as output voxel-to-world, then the world transform, then input world-to-voxel. |
| SliceResampler.GridLength | progs/mincresample/resample_volumes.c:380-411 | The slice holds nrow * ncol samples. |
| SliceResampler.GridAt | progs/mincresample/resample_volumes.c:388-409 | Pixel (irow, icol) is stored at irow * ncol + icol. |
| SliceResampler.SliceLength | progs/mincresample/resample_volumes.c:380-411 | The slice's samples number nrow * ncol. |
| SliceResampler.SliceAt | progs/mincresample/resample_volumes.c:388-409 | The sample at irow * ncol + icol is the kernel at that pixel's sample point. |
| SliceResampler.ScanStep | progs/mincresample/resample_volumes.c:400-403 | Extending the scanned pixels by one takes one update step. |
| SliceResampler.ScanConcat | progs/mincresample/resample_volumes.c:380-412 | Scanning two runs of pixels is scanning the second from where the first left off. |
| SliceResampler.ScanBounds | progs/mincresample/resample_volumes.c:400-403 | Every counted pixel lies between the running minimum and maximum. These never move past their start values. |
| SliceResampler.MaxAttained | progs/mincresample/resample_volumes.c:401 | The running maximum is its start value or the value of a counted pixel. |
| SliceResampler.MinAttained | progs/mincresample/resample_volumes.c:402 | The running minimum is its start value or the value of a counted pixel. |
| SliceResampler.NothingCountedKeepsStart | progs/mincresample/resample_volumes.c:375-403 | When no pixel counts, both extrema keep the sentinels. |
| SliceResampler.SentinelMeansNothingCounted | progs/mincresample/resample_volumes.c:414 | The sentinel test holds exactly when no pixel counted (accepted, or any pixel with use_fill). |
| SliceResampler.ReportedRange | progs/mincresample/resample_volumes.c:414-425 | The range get_slice reports from the running extrema. There is no ensures of its own. SliceResampler.ReportedRangeMeaning and SliceResampler.SentinelMeansNothingCounted state its meaning, and SliceResampler.FinishRange computes it. |
| SliceResampler.ReportedRangeMeaning | progs/mincresample/resample_volumes.c:414-425 | The reported range is never empty (min < max) and contains every counted pixel. It is (0, SMALL_VALUE) when nothing counted, has the true minimum when something did, and is the true range when that range is not collapsed. |
| SliceResampler.FinishRange | progs/mincresample/resample_volumes.c:414-425 | The end of get_slice reports ReportedRange of the running extrema. |
| SliceResampler.UpdateExtrema | progs/mincresample/resample_volumes.c:400-403 | A pixel is folded into the extrema exactly when it is accepted or fill values count. |
| SliceResampler.ConcatTransforms | progs/mincresample/resample_volumes.c:351-359 | The total transform composes the three, and it is linear exactly when all three are. |
| SliceResampler.SteppingSetup | progs/mincresample/resample_volumes.c:351-372 | The start, row and column vectors set up reach every pixel's sample point, on the linear and the general path. |
| SliceResampler.SteppingFeedsPixels | progs/mincresample/resample_volumes.c:380-406 | Stepping and interpolating at every pixel gives that pixel's sample. |
| SliceResampler.ResamplePixel | progs/mincresample/resample_volumes.c:393-400 | One pixel transforms the stepped coordinate if the transform is not linear, and interpolates there, giving the pixel's sample. |
| SliceResampler.ResampleRow | progs/mincresample/resample_volumes.c:383-411 | The row's samples are written at dptr onwards and nothing before it changes. The extrema are the running extrema continued over the row. |
| SliceResampler.NextRow | progs/mincresample/resample_volumes.c:380-412 | After one more row, the buffer and the extrema hold the first irow + 1 rows. |
| SliceResampler.FillSlice | progs/mincresample/resample_volumes.c:374-412 | The buffer holds every pixel's sample in row-major order, and the extrema are their running extrema from the sentinels. |
| SliceResampler.GetSlice | progs/mincresample/resample_volumes.c:326-430 | The slice buffer holds every pixel's sample. (min, max) is the reported range of the counted pixels. |
| SliceResampler.SteppedIsScaled | progs/mincresample/resample_volumes.c:383-406 | Adding the column step n times is adding n times the step. |
| SliceResampler.PixelPoint | progs/mincresample/resample_volumes.c:362-406 | The coordinate handed to the kernel is the pixel's sample point on either path, so the linear stepping path and the per-pixel path agree. |
| SliceResampler.LinearPixelPoint | progs/mincresample/resample_volumes.c:362-372 | On the linear path the stepped coordinate is the total transform of (slice, irow, icol). |
| SliceResampler.GeneralPixelPoint | progs/mincresample/resample_volumes.c:338-341 | On the general path the coordinate before the transform is exactly (slice, irow, icol). |
| Resampler.WindowVolume | progs/mincresample/resample_volumes.c:123 | A window loads exactly when its calibration is not fatal. The volume then has the read voxels, the input's axis sizes and the window's calibration. |
| Resampler.Highest | progs/mincresample/resample_volumes.c:142-143 | The running maximum of the update at 142-143. There is no ensures of its own. Resampler.HighestIsMaximum and Resampler.HighestStep state its meaning. |
| Resampler.GlobalRange | progs/mincresample/resample_volumes.c:105-106 | The global valid range after the slices written so far, from the sentinels set at 105-106. There is no ensures of its own. Resampler.GlobalMaximum, Resampler.GlobalMinimumStaysAtSentinel and Resampler.FoldRange state its meaning. |
| Resampler.HighestIsMaximum | progs/mincresample/resample_volumes.c:142 | The running maximum is at least its start and every value, and it is its start or one of the values. |
| Resampler.HighestStep | progs/mincresample/resample_volumes.c:142 | One more value takes one update step. |
| Resampler.GlobalMaximum | progs/mincresample/resample_volumes.c:105-142 | The upper end of the global range bounds every slice maximum, is -DBL_MAX before any slice, and is attained by a slice. |
| Resampler.GlobalMinimumStaysAtSentinel | progs/mincresample/resample_volumes.c:105-143 | The lower end never goes below DBL_MAX, and equals it exactly when no slice minimum exceeds DBL_MAX. |
| Resampler.WindowStart | progs/mincresample/resample_volumes.c:80 | The r-th window's start vector has one entry per file dimension. Resampler.ResampleNextWindow ties it to the odometer's in_start. |
| Resampler.LoadWindow | progs/mincresample/resample_volumes.c:123 | Reads and calibrates the window. It fails exactly when the calibration is fatal, with that error; otherwise it yields the window's volume. |
| Resampler.ResampleSlice | progs/mincresample/resample_volumes.c:134-139 | The record is written at the window's start with the slice axis set to islice, and holds get_slice's samples and range for that slice. |
| Resampler.SliceAppended | progs/mincresample/resample_volumes.c:134-157 | Writing the next slice keeps the records the window's slices in order. |
| Resampler.FoldRange | progs/mincresample/resample_volumes.c:141-143 | The update gives the global range of the records with the new slice. |
| Resampler.ResampleWindow | progs/mincresample/resample_volumes.c:126-159 | Appends one record per output slice to the earlier ones, each the window's slice in order, and keeps the global range. |
| Resampler.SlotInWindow | progs/mincresample/resample_volumes.c:126-135 | The k-th record written is slice k - r*nslice of window r. |
| Resampler.WindowAppended | progs/mincresample/resample_volumes.c:126-159 | A run of r windows followed by the slices of window r is a run of r + 1 windows. |
| Resampler.ResampleNextWindow | progs/mincresample/resample_volumes.c:118-168 | A fatal calibration stops at once and writes nothing of the window. Otherwise all its slices are appended, the global range is kept and the start advances to window r + 1. |
| Resampler.ReadWindows | progs/mincresample/resample_volumes.c:116-170 | The records are the slices of the first r windows in order, with r at most the number of windows. The loop stops early exactly on a fatal calibration of window r; otherwise the global range is that of all records. An input with an empty record dimension is excluded by `Resampler.Layout` (see Left out). |
| Resampler.ResampleVolumes | progs/mincresample/resample_volumes.c:62-184 | The records are, in order, every output slice of the first r windows. Every window is read exactly when no calibration failed; a failure is window r's fatal error. The valid range is written, as the global range, only for a complete run with floating-point output. An input with an empty record dimension is excluded by `Resampler.Layout` (see Left out). |
| Findings.FoundFillAsWritten | progs/mincresample/resample_volumes.c:605-645 | The flag ends up set exactly when its indeterminate start value was set or some input was rejected. |
| Findings.CombineAsWritten | progs/mincresample/resample_volumes.c:651-678 | As written, the evaluator accepts exactly when the flag starts cleared and all four values are accepted; otherwise it gives the fill value. |
| Findings.IndeterminateFlagRejectsGenuineStencil | progs/mincresample/resample_volumes.c:605-655 | With all four inputs accepted and a set start value, the code as written rejects with the fill value where Combine accepts. With a clear start value it equals Combine. |

## Left out

- netCDF/MINC I/O: `miicv_get`, `ncvarget`, `mivarget`, `ncvarinq`, `mitranslate_coords`, `mivarput1`, `miicv_put` and `ncattput` (lines 123, 146-157, 180-181, 210-214, 252-262).
  - The windowed read is the `read` parameter of `Resampler.Input`.
  - The count the source computes from `mm_count` is the length of the sequence read.
  - The writes are the `SliceRecord`s and the `validRange` field of the result.
- The image-conversion-variable branch of `load_volume` (lines 209-211, 222-229). Its normalisation happens in a foreign library.
- The transform library: `concat_general_transforms`, `get_transform_type`, `delete_general_transform` and `DO_TRANSFORM` (lines 352-368). They are modelled by `Geometry.Transform`, `Geometry.Eval` and `Geometry.Concat`; deleting a transform has no counterpart.
- The header macros are modelled as follows: `VOLUME_VALUE` as indexing into a three-level sequence, `INTERPOLATE` as the `Kernel` argument, `ROUND` as rounding halves away from zero, and `SMALL_VALUE` as a parameter.
- `DEFAULT_MAX` and `DEFAULT_MIN` are taken as 1 and 0, following the comment at lines 231-232. The header that defines them is not part of this model.
- Verbose progress logging (lines 109-112, 129-132, 173-176) and the message at line 272.
  - `exit(EXIT_FAILURE)` at line 274 becomes a `CalibrationError` that stops the run with nothing more written.
  - The maximum read is checked before the minimum read, so a bad maximum count is the error reported.
- IEEE double rounding. The model computes over the reals, so results are exact; DBL_MAX is written out exactly.
- Integer widths. `long` and `int` are unbounded; the fixed `MAX_VAR_DIMS` arrays are sequences and arrays of the file's length.
- The `(long)` casts at lines 466-468 and 559-561 are modelled as `Floor`. They act only on coordinates that passed the non-negative bounds check.
- The `static` temporaries of `trilinear_interpolant` (lines 451-452) hold no state between calls that anything observes.
- Sizes. The linear and cubic kernels require every axis to have at least two points (`Interpolation.HasCells`, `Resampler.KernelFits`). With one point, the cap at lines 469-471 gives index -1, and the source reads outside the volume.
- The end-to-end examples of a constant field are not stated as one lemma. Their parts are proved:
  - at grid points every kernel gives the calibrated voxel (`KernelProperties.NearestAtGridPoint`, `KernelProperties.TrilinearAtGridPoint`, `KernelProperties.TricubicAtGridPoint`);
  - a collapsed slice range is widened (`SliceResampler.ReportedRangeMeaning`);
  - the global range is as `Resampler.GlobalMaximum` and `Resampler.GlobalMinimumStaysAtSentinel` state.
- Resampler.ResampleVolumes: an input whose record dimension (dimension 0, the only one netCDF lets be empty) has length 0 is not modelled, because `Resampler.Layout` requires every dimension to have length at least 1. On such an input the source sets `in_end[0]` to 0 (lines 82-83), so the loop test at line 116 fails at once: no window is loaded and no slice is written. For floating-point output it then writes the untouched sentinels [DBL_MAX, -DBL_MAX] of lines 105-106 at lines 179-182, an inverted range. That is the global range of no records (`Resampler.GlobalMaximum` and `Resampler.GlobalMinimumStaysAtSentinel` give -DBL_MAX and DBL_MAX for an empty run), but the run itself is not proved on that input.
- Resampler.ReadWindows: the same exclusion. On an empty record dimension the source's loop runs zero times; the model does not state that run.
- Resampler.ResampleVolumes: its records say which window and output start each slice was written at. The order of the netCDF writes within one slice (maximum, minimum, then pixels) is not modelled.

## Findings

| source | as written | input that shows it | evidently intended | confidence | as-written member | corrected member |
|---|---|---|---|---|---|---|
| progs/mincresample/resample_volumes.c:605 | `found_fillvalue` is declared without an initial value. It is only ever set to TRUE (lines 625, 632-644) and tested at line 652, so on a stencil with no fill marker the outcome depends on whatever the variable held. | Any stencil of the tricubic evaluator whose samples are all within the valid range, when the uninitialised flag happens to be non-zero: the code returns FALSE with the fill value instead of the cubic blend. | The flag starts FALSE, so a stencil is rejected exactly when one of its samples or sub-evaluations is. | High that the flag is uninitialised; its effect depends on stack contents; not executed | Findings.IndeterminateFlagRejectsGenuineStencil | Interpolation.Combine |
