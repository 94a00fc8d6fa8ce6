/**
 * resample_volumes: the run over the whole input file.
 *
 * The input file is read one volume window at a time.  Each window is
 * calibrated as it is loaded; every output slice is then resampled from
 * it and written together with its own minimum and maximum, and the
 * slice's range is folded into the global valid range.  The start vector
 * of the window then advances like an odometer.  When the output is of a
 * floating-point type the global valid range is written once at the end.
 *
 * The global range starts at [DBL_MAX, -DBL_MAX].  Its upper end is the
 * running maximum of the slice maxima; its lower end is, as the program
 * is written, also a running maximum, of the slice minima, so it never
 * moves below DBL_MAX.
 */
module Resampler {
  import opened Geometry
  import opened Calibration
  import opened Interpolation
  import opened SliceResampler
  import opened Odometer
  import opened Limits

  /** What one windowed read of the input file yields: the voxels [slice][row][column] and its image-max/min variables. */
  datatype WindowData = WindowData(raw: seq<seq<seq<real>>>, extremes: MaxMinSource)

  /**
   * The input file and its volume: the length of every file dimension, the
   * file dimensions holding the volume's slice, row and column axes, the
   * types and valid ranges of the file and of the volume, the fill policy,
   * and the windowed read, from a start vector to what it reads.
   */
  datatype Input = Input(
    nelements: seq<int>,
    indices: seq<int>,
    fileType: NcType,
    volumeType: NcType,
    fileRange: ValidRange,
    vrange: ValidRange,
    fillvalue: real,
    useFill: bool,
    read: seq<int> -> WindowData)

  /** The output file: dimension lengths, the dimensions of its slice, row and column axes, and its type. */
  datatype Output = Output(nelements: seq<int>, indices: seq<int>, dataType: NcType)

  /**
   * One slice written to the output: the input window it was resampled
   * from, its output start vector, its reported range and its pixels.
   */
  datatype SliceRecord = SliceRecord(window: seq<int>, start: seq<int>, minimum: real, maximum: real, data: seq<real>)

  /**
   * What a run leaves behind: the slices written, the valid_range attribute
   * if it was written, and the fatal calibration error that stopped the
   * run, if one did.
   */
  datatype RunResult = RunResult(records: seq<SliceRecord>, validRange: Option<(real, real)>, failure: Option<CalibrationError>)

  /** The file layout the run relies on: one number of dimensions, three axes each, and no empty dimension. */
  predicate Layout(input: Input, output: Output) {
    && 0 < |input.nelements| && |output.nelements| == |input.nelements|
    && |input.indices| == 3 && |output.indices| == 3
    && (forall d :: 0 <= d < 3 ==> 0 <= input.indices[d] < |input.nelements|)
    && (forall d :: 0 <= d < 3 ==> 0 <= output.indices[d] < |output.nelements|)
    && (forall i :: 0 <= i < |input.nelements| ==> input.nelements[i] >= 1)
    && (forall i :: 0 <= i < |output.nelements| ==> output.nelements[i] >= 1)
  }

  /** The length of input volume axis d. */
  function InSize(input: Input, d: nat): nat
    requires d < 3 && |input.indices| == 3
    requires 0 <= input.indices[d] < |input.nelements| && input.nelements[input.indices[d]] >= 0
  {
    input.nelements[input.indices[d]]
  }

  /** The length of output volume axis d. */
  function OutSize(output: Output, d: nat): nat
    requires d < 3 && |output.indices| == 3
    requires 0 <= output.indices[d] < |output.nelements| && output.nelements[output.indices[d]] >= 0
  {
    output.nelements[output.indices[d]]
  }

  /** Every read yields a window of the volume's shape. */
  ghost predicate ReadsShaped(input: Input)
    requires Layout(input, Output(input.nelements, input.indices, NcDouble))
  {
    forall w :: Shaped(input.read(w).raw, InSize(input, 0), InSize(input, 1), InSize(input, 2))
  }

  predicate Shaped(raw: seq<seq<seq<real>>>, nslc: nat, nrow: nat, ncol: nat) {
    && |raw| == nslc
    && (forall i :: 0 <= i < nslc ==> |raw[i]| == nrow)
    && (forall i, j :: 0 <= i < nslc && 0 <= j < nrow ==> |raw[i][j]| == ncol)
  }

  /** The volume loaded for the window starting at w, unless its calibration is fatal. */
  function WindowVolume(input: Input, w: seq<int>): (r: Option<Volume>)
    requires Layout(input, Output(input.nelements, input.indices, NcDouble))
    requires ReadsShaped(input)
    ensures r.Some? ==> WellFormed(r.value) && r.value.data == input.read(w).raw
    ensures r.Some? ==> r.value.nslc == InSize(input, 0) && r.value.nrow == InSize(input, 1) && r.value.ncol == InSize(input, 2)
    ensures r.Some? <==>
      WindowCalibration(input.fileType, input.volumeType, input.read(w).extremes, input.fileRange, InSize(input, 0)).CalibrationOk?
    ensures r.Some? ==>
      var cal := WindowCalibration(input.fileType, input.volumeType, input.read(w).extremes, input.fileRange, InSize(input, 0));
      cal.CalibrationOk? && r.value.scale == cal.maps.scale && r.value.offset == cal.maps.offset
  {
    var nslc := InSize(input, 0);
    match WindowCalibration(input.fileType, input.volumeType, input.read(w).extremes, input.fileRange, nslc)
    case CalibrationFail(_) => None
    case CalibrationOk(maps) =>
      Some(Volume(nslc, InSize(input, 1), InSize(input, 2), input.read(w).raw, input.vrange, input.fillvalue,
                  maps.scale, maps.offset, input.useFill))
  }

  /** The kernel can run on every window of the input. */
  predicate KernelFits(kernel: Kernel, input: Input)
    requires Layout(input, Output(input.nelements, input.indices, NcDouble))
  {
    kernel != NearestNeighbour ==> InSize(input, 0) >= 2 && InSize(input, 1) >= 2 && InSize(input, 2) >= 2
  }

  /** Everything the run demands of its caller. */
  ghost predicate RunReady(input: Input, output: Output, kernel: Kernel) {
    && Layout(input, output)
    && Layout(input, Output(input.nelements, input.indices, NcDouble))
    && ReadsShaped(input)
    && KernelFits(kernel, input)
  }

  /**
   * A written slice is what get_slice computes for its slice of the volume
   * loaded from its window, written where its window starts with the
   * output slice axis set to the slice number.
   */
  ghost predicate Faithful(input: Input, output: Output, kernel: Kernel, m: Mapping, smallValue: real, rec: SliceRecord)
    requires RunReady(input, output, kernel)
  {
    var sliceIndex := output.indices[0];
    && |rec.window| == |input.nelements| && |rec.start| == |rec.window|
    && rec.start == rec.window[sliceIndex := rec.start[sliceIndex]]
    && 0 <= rec.start[sliceIndex] < OutSize(output, 0)
    && WindowVolume(input, rec.window).Some?
    && var v := WindowVolume(input, rec.window).value;
       assert KernelReady(kernel, v);
       var samples := SliceSamples(kernel, v, m, rec.start[sliceIndex], OutSize(output, 1), OutSize(output, 2));
       && |rec.data| == |samples|
       && (forall p :: 0 <= p < |samples| ==> rec.data[p] == samples[p].value)
       && (rec.minimum, rec.maximum) == ReportedRange(RunningMin(samples, v.useFill), RunningMax(samples, v.useFill), smallValue)
  }

  // ---------------------------------------------------------------------
  // The global valid range

  /** A running maximum from m0, replacing it by every value above it, as the update at lines 142-143 does. */
  function Highest(m0: real, xs: seq<real>): real
    decreases |xs|
  {
    if |xs| == 0 then m0
    else
      var h := Highest(m0, xs[..|xs| - 1]);
      if xs[|xs| - 1] > h then xs[|xs| - 1] else h
  }

  function Maxima(records: seq<SliceRecord>): (r: seq<real>)
    ensures |r| == |records| && forall k :: 0 <= k < |records| ==> r[k] == records[k].maximum
  {
    seq(|records|, k requires 0 <= k < |records| => records[k].maximum)
  }

  function Minima(records: seq<SliceRecord>): (r: seq<real>)
    ensures |r| == |records| && forall k :: 0 <= k < |records| ==> r[k] == records[k].minimum
  {
    seq(|records|, k requires 0 <= k < |records| => records[k].minimum)
  }

  /** The global valid range after the slices written so far, as [valid_range[0], valid_range[1]]. */
  function GlobalRange(records: seq<SliceRecord>): (real, real) {
    (Highest(DblMax, Minima(records)), Highest(-DblMax, Maxima(records)))
  }

  /** The running maximum is at least its start and every value, and it is its start or one of the values. */
  lemma {:induction false} HighestIsMaximum(m0: real, xs: seq<real>)
    ensures Highest(m0, xs) >= m0
    ensures forall k :: 0 <= k < |xs| ==> xs[k] <= Highest(m0, xs)
    ensures Highest(m0, xs) == m0 || exists k :: 0 <= k < |xs| && xs[k] == Highest(m0, xs)
    decreases |xs|
  {
    if |xs| > 0 {
      var init := xs[..|xs| - 1];
      HighestIsMaximum(m0, init);
      forall k | 0 <= k < |xs| - 1 ensures xs[k] == init[k] { }
      if Highest(m0, xs) != m0 && Highest(m0, xs) == Highest(m0, init) {
        var k :| 0 <= k < |init| && init[k] == Highest(m0, init);
        assert xs[k] == init[k];
      }
    }
  }

  /** Extending the values by one takes one step of the running maximum. */
  lemma HighestStep(m0: real, xs: seq<real>, x: real)
    ensures Highest(m0, xs + [x]) == if x > Highest(m0, xs) then x else Highest(m0, xs)
  {
    assert (xs + [x])[..|xs + [x]| - 1] == xs;
  }

  /**
   * The upper end of the global range is the largest slice maximum once a
   * slice has been written, and -DBL_MAX before.
   */
  lemma GlobalMaximum(records: seq<SliceRecord>)
    ensures forall k :: 0 <= k < |records| ==> records[k].maximum <= GlobalRange(records).1
    ensures |records| == 0 ==> GlobalRange(records).1 == -DblMax
    ensures (exists k :: 0 <= k < |records| && records[k].maximum >= -DblMax) ==>
      exists k :: 0 <= k < |records| && records[k].maximum == GlobalRange(records).1
  {
    HighestIsMaximum(-DblMax, Maxima(records));
  }

  /**
   * The lower end of the global range never moves below DBL_MAX, and stays
   * exactly DBL_MAX unless some slice minimum lies above DBL_MAX, which no
   * double-precision value does.
   */
  lemma GlobalMinimumStaysAtSentinel(records: seq<SliceRecord>)
    ensures GlobalRange(records).0 >= DblMax
    ensures GlobalRange(records).0 == DblMax <==> forall k :: 0 <= k < |records| ==> records[k].minimum <= DblMax
  {
    HighestIsMaximum(DblMax, Minima(records));
  }

  // ---------------------------------------------------------------------
  // The windows of the run

  /** The start vector of the r-th window the run reads. */
  function WindowStart(input: Input, r: nat): (s: seq<int>)
    requires 0 < |input.nelements|
    ensures |s| == |input.nelements|
  {
    StartAfter(WindowCount(input.nelements, input.indices), input.nelements, r)
  }

  /** How many windows the input file holds. */
  function TotalWindows(input: Input): int
    requires Layout(input, Output(input.nelements, input.indices, NcDouble))
  {
    WindowCountSteps(input.nelements, input.indices);
    Windows(WindowCount(input.nelements, input.indices), input.nelements, |input.nelements|)
  }

  /** The calibration of the r-th window, as load_volume computes it. */
  ghost function CalibrationAt(input: Input, r: nat): CalibrationResult
    requires Layout(input, Output(input.nelements, input.indices, NcDouble))
  {
    WindowCalibration(input.fileType, input.volumeType, input.read(WindowStart(input, r)).extremes,
                      input.fileRange, InSize(input, 0))
  }

  /** The k-th slice written is slice k % nslice of window k / nslice, resampled faithfully. */
  ghost predicate Slot(input: Input, output: Output, kernel: Kernel, m: Mapping, smallValue: real, rec: SliceRecord, k: nat)
    requires RunReady(input, output, kernel)
  {
    var nslice := OutSize(output, 0);
    && rec.window == WindowStart(input, k / nslice)
    && rec.start == rec.window[output.indices[0] := k % nslice]
    && Faithful(input, output, kernel, m, smallValue, rec)
  }

  /** After r windows: every slice of each of them, in order, and each of them calibrated without error. */
  ghost predicate RunSoFar(input: Input, output: Output, kernel: Kernel, m: Mapping, smallValue: real,
                           records: seq<SliceRecord>, r: nat)
    requires RunReady(input, output, kernel)
  {
    && |records| == r * OutSize(output, 0)
    && (forall j :: 0 <= j < r ==> CalibrationAt(input, j).CalibrationOk?)
    && forall k {:trigger Slot(input, output, kernel, m, smallValue, records[k], k)} ::
         0 <= k < |records| ==> Slot(input, output, kernel, m, smallValue, records[k], k)
  }

  /** The number of windows whose slices a run wrote. */
  function WindowsRead(output: Output, result: RunResult): int
    requires |output.indices| == 3 && 0 <= output.indices[0] < |output.nelements| && output.nelements[output.indices[0]] >= 1
  {
    |result.records| / OutSize(output, 0)
  }

  /** Appending the slices of window r, in order, to a run of r windows makes a run of r + 1 windows. */
  lemma WindowAppended(input: Input, output: Output, kernel: Kernel, m: Mapping, smallValue: real,
                       records0: seq<SliceRecord>, records: seq<SliceRecord>, r: nat)
    requires RunReady(input, output, kernel)
    requires RunSoFar(input, output, kernel, m, smallValue, records0, r)
    requires CalibrationAt(input, r).CalibrationOk?
    requires |records| == |records0| + OutSize(output, 0) && records[..|records0|] == records0
    requires WindowSlices(input, output, kernel, m, smallValue, WindowStart(input, r), records, |records0|)
    ensures RunSoFar(input, output, kernel, m, smallValue, records, r + 1)
  {
    var nslice := OutSize(output, 0);
    assert |records| == (r + 1) * nslice;
    forall k | 0 <= k < |records|
      ensures Slot(input, output, kernel, m, smallValue, records[k], k)
    {
      if k < |records0| {
        assert records[k] == records0[k];
      } else {
        assert WindowSliceAt(input, output, kernel, m, smallValue, WindowStart(input, r), records, |records0|, k);
        SlotInWindow(input, output, kernel, m, smallValue, records[k], k, r);
      }
    }
  }

  /** Slice k - r * nslice of window r is the k-th slice written. */
  lemma SlotInWindow(input: Input, output: Output, kernel: Kernel, m: Mapping, smallValue: real,
                     rec: SliceRecord, k: nat, r: nat)
    requires RunReady(input, output, kernel)
    requires r * OutSize(output, 0) <= k < r * OutSize(output, 0) + OutSize(output, 0)
    requires rec.window == WindowStart(input, r) && Faithful(input, output, kernel, m, smallValue, rec)
    requires rec.start == WindowStart(input, r)[output.indices[0] := k - r * OutSize(output, 0)]
    ensures Slot(input, output, kernel, m, smallValue, rec, k)
  {
    DivUnique(k, OutSize(output, 0), r, k - r * OutSize(output, 0));
  }

  /** Read the window at w and calibrate it into the scale and offset buffers. */
  method LoadWindow(input: Input, w: seq<int>, scale: array<real>, offset: array<real>)
    returns (err: Option<CalibrationError>, v: Volume)
    requires Layout(input, Output(input.nelements, input.indices, NcDouble)) && ReadsShaped(input)
    requires scale != offset && scale.Length == InSize(input, 0) && offset.Length == InSize(input, 0)
    modifies scale, offset
    ensures var want := WindowCalibration(input.fileType, input.volumeType, input.read(w).extremes, input.fileRange, InSize(input, 0));
      && (err.None? <==> want.CalibrationOk?)
      && (err.Some? ==> err.value == want.err)
    ensures err.None? ==> WindowVolume(input, w) == Some(v)
  {
    var data := input.read(w);
    err := LoadVolume(scale, offset, input.fileType, input.volumeType, data.extremes, input.fileRange);
    v := Volume(InSize(input, 0), InSize(input, 1), InSize(input, 2), data.raw, input.vrange, input.fillvalue,
                scale[..], offset[..], input.useFill);
  }

  // ---------------------------------------------------------------------
  // The run

  /**
   * The loop over the output slices of one window: resample each slice
   * into the slice buffer, fold its range into the global range and write
   * it at the window's start with the slice axis set to the slice number.
   */
  method ResampleWindow(input: Input, output: Output, kernel: Kernel, m: Mapping, smallValue: real,
                        window: seq<int>, v: Volume, slice: array<real>,
                        records0: seq<SliceRecord>, low0: real, high0: real)
    returns (records: seq<SliceRecord>, low: real, high: real)
    requires RunReady(input, output, kernel)
    requires |window| == |input.nelements|
    requires WindowVolume(input, window) == Some(v)
    requires slice.Length == OutSize(output, 1) * OutSize(output, 2)
    requires (low0, high0) == GlobalRange(records0)
    modifies slice
    ensures |records| == |records0| + OutSize(output, 0)
    ensures records[..|records0|] == records0
    ensures WindowSlices(input, output, kernel, m, smallValue, window, records, |records0|)
    ensures (low, high) == GlobalRange(records)
  {
    var nslice := OutSize(output, 0);
    records, low, high := records0, low0, high0;
    var islice := 0;
    while islice < nslice
      invariant 0 <= islice <= nslice
      invariant |records| == |records0| + islice
      invariant records[..|records0|] == records0
      invariant WindowSlices(input, output, kernel, m, smallValue, window, records, |records0|)
      invariant (low, high) == GlobalRange(records)
    {
      var rec := ResampleSlice(input, output, kernel, m, smallValue, window, v, slice, islice);
      low, high := FoldRange(records, rec, low, high);
      SliceAppended(input, output, kernel, m, smallValue, window, records, rec, |records0|);
      records := records + [rec];
      islice := islice + 1;
    }
  }

  /** records[k] is slice k - base of the window starting at window, resampled faithfully. */
  ghost predicate WindowSliceAt(input: Input, output: Output, kernel: Kernel, m: Mapping, smallValue: real,
                          window: seq<int>, records: seq<SliceRecord>, base: int, k: int)
    requires RunReady(input, output, kernel)
    requires 0 <= k < |records|
  {
    && |window| == |input.nelements|
    && records[k].window == window
    && records[k].start == window[output.indices[0] := k - base]
    && Faithful(input, output, kernel, m, smallValue, records[k])
  }

  /** The records from base on are the slices of one window, in slice order. */
  ghost predicate WindowSlices(input: Input, output: Output, kernel: Kernel, m: Mapping, smallValue: real,
                               window: seq<int>, records: seq<SliceRecord>, base: nat)
    requires RunReady(input, output, kernel)
  {
    forall k {:trigger WindowSliceAt(input, output, kernel, m, smallValue, window, records, base, k)} ::
      base <= k < |records| ==> WindowSliceAt(input, output, kernel, m, smallValue, window, records, base, k)
  }

  /** Writing the next slice of the window keeps the records a run of its slices. */
  lemma SliceAppended(input: Input, output: Output, kernel: Kernel, m: Mapping, smallValue: real,
                      window: seq<int>, records: seq<SliceRecord>, rec: SliceRecord, base: nat)
    requires RunReady(input, output, kernel)
    requires base <= |records| && |window| == |input.nelements|
    requires WindowSlices(input, output, kernel, m, smallValue, window, records, base)
    requires rec.window == window && rec.start == window[output.indices[0] := |records| - base]
    requires Faithful(input, output, kernel, m, smallValue, rec)
    ensures WindowSlices(input, output, kernel, m, smallValue, window, records + [rec], base)
  {
    var records' := records + [rec];
    forall k | base <= k < |records'|
      ensures WindowSliceAt(input, output, kernel, m, smallValue, window, records', base, k)
    {
      if k < |records| {
        assert WindowSliceAt(input, output, kernel, m, smallValue, window, records, base, k);
        assert records'[k] == records[k];
      }
    }
  }

  /**
   * One pass of the slice loop: set the slice number in the output start
   * vector, resample the slice and take what is written for it.
   */
  method ResampleSlice(input: Input, output: Output, kernel: Kernel, m: Mapping, smallValue: real,
                       window: seq<int>, v: Volume, slice: array<real>, islice: int)
    returns (rec: SliceRecord)
    requires RunReady(input, output, kernel)
    requires |window| == |input.nelements|
    requires WindowVolume(input, window) == Some(v)
    requires slice.Length == OutSize(output, 1) * OutSize(output, 2)
    requires 0 <= islice < OutSize(output, 0)
    modifies slice
    ensures rec.window == window && rec.start == window[output.indices[0] := islice]
    ensures Faithful(input, output, kernel, m, smallValue, rec)
  {
    var outStart := window[output.indices[0] := islice];
    var minimum, maximum := GetSlice(islice, kernel, v, m, slice, OutSize(output, 1), OutSize(output, 2), smallValue);
    rec := SliceRecord(window, outStart, minimum, maximum, slice[..]);
  }

  /** Update the global range with the range of the slice just resampled. */
  method FoldRange(ghost records: seq<SliceRecord>, rec: SliceRecord, low0: real, high0: real)
    returns (low: real, high: real)
    requires (low0, high0) == GlobalRange(records)
    ensures (low, high) == GlobalRange(records + [rec])
  {
    low, high := low0, high0;
    if rec.maximum > high {
      high := rec.maximum;
    }
    if rec.minimum > low {
      low := rec.minimum;
    }
    HighestStep(DblMax, Minima(records), rec.minimum);
    HighestStep(-DblMax, Maxima(records), rec.maximum);
    assert Minima(records + [rec]) == Minima(records) + [rec.minimum];
    assert Maxima(records + [rec]) == Maxima(records) + [rec.maximum];
  }

  /**
   * The whole run.  Windows are read in odometer order until the start
   * vector runs off the end of the file; each is calibrated and every
   * output slice is resampled from it.  A fatal calibration error ends the
   * run at once.  A run that finishes writes the global valid range when
   * the output is of a floating-point type.
   */
  method ResampleVolumes(input: Input, output: Output, kernel: Kernel, m: Mapping, smallValue: real)
    returns (result: RunResult)
    requires RunReady(input, output, kernel)
    ensures |result.records| % OutSize(output, 0) == 0
    ensures RunSoFar(input, output, kernel, m, smallValue, result.records, WindowsRead(output, result))
    ensures WindowsRead(output, result) <= TotalWindows(input)
    ensures result.failure.None? <==> WindowsRead(output, result) == TotalWindows(input)
    ensures result.failure.Some? ==> CalibrationAt(input, WindowsRead(output, result)) == CalibrationFail(result.failure.value)
    ensures result.validRange ==
      if result.failure.None? && IsFloating(output.dataType) then Some(GlobalRange(result.records)) else None
  {
    var n := |input.nelements|;
    var inStart := new int[n](_ => 0);
    var nslice := OutSize(output, 0);
    var scale := new real[InSize(input, 0)];
    var offset := new real[InSize(input, 0)];
    var slice := new real[OutSize(output, 1) * OutSize(output, 2)];
    var records, failure, low, high, r := ReadWindows(input, output, kernel, m, smallValue, inStart, scale, offset, slice);
    DivUnique(|records|, nslice, r, 0);
    var validRange := if failure.None? && IsFloating(output.dataType) then Some((low, high)) else None;
    result := RunResult(records, validRange, failure);
  }

  /** The loop over input volumes, from the all-zero start vector. */
  method ReadWindows(input: Input, output: Output, kernel: Kernel, m: Mapping, smallValue: real,
                     inStart: array<int>, scale: array<real>, offset: array<real>, slice: array<real>)
    returns (records: seq<SliceRecord>, failure: Option<CalibrationError>, low: real, high: real, ghost r: nat)
    requires RunReady(input, output, kernel)
    requires scale != offset && scale.Length == InSize(input, 0) && offset.Length == InSize(input, 0)
    requires slice.Length == OutSize(output, 1) * OutSize(output, 2)
    requires inStart[..] == WindowStart(input, 0)
    modifies inStart, scale, offset, slice
    ensures RunSoFar(input, output, kernel, m, smallValue, records, r)
    ensures r <= TotalWindows(input)
    ensures failure.None? <==> r == TotalWindows(input)
    ensures failure.Some? ==> CalibrationAt(input, r) == CalibrationFail(failure.value)
    ensures failure.None? ==> (low, high) == GlobalRange(records)
  {
    var inCount := WindowCount(input.nelements, input.indices);
    var inEnd := input.nelements;
    WindowCountSteps(input.nelements, input.indices);
    records := [];
    low, high := DblMax, -DblMax;
    r := 0;
    WindowsPositive(inCount, inEnd, |inEnd|);
    failure := None;
    while failure.None? && inStart[0] < inEnd[0]
      invariant failure.None? ==> inStart[..] == WindowStart(input, r)
      invariant r <= TotalWindows(input)
      invariant RunSoFar(input, output, kernel, m, smallValue, records, r)
      invariant failure.None? ==> (low, high) == GlobalRange(records)
      invariant failure.Some? ==> r < TotalWindows(input) && CalibrationAt(input, r) == CalibrationFail(failure.value)
      decreases TotalWindows(input) - r, if failure.None? then 1 else 0
    {
      failure, records, low, high := ResampleNextWindow(input, output, kernel, m, smallValue, inStart, scale, offset, slice,
                                                        records, low, high, r);
      if failure.None? {
        r := r + 1;
      }
    }
    if failure.None? {
      StartInside(inCount, inEnd, r);
    }
  }

  /**
   * One pass of the loop over input volumes: load the window at the start
   * vector, resample all its slices, and advance the start vector.  A
   * fatal calibration error stops before any slice of the window is
   * written.
   */
  method ResampleNextWindow(input: Input, output: Output, kernel: Kernel, m: Mapping, smallValue: real,
                            inStart: array<int>, scale: array<real>, offset: array<real>, slice: array<real>,
                            records0: seq<SliceRecord>, low0: real, high0: real, ghost r: nat)
    returns (err: Option<CalibrationError>, records: seq<SliceRecord>, low: real, high: real)
    requires RunReady(input, output, kernel)
    requires scale != offset && scale.Length == InSize(input, 0) && offset.Length == InSize(input, 0)
    requires slice.Length == OutSize(output, 1) * OutSize(output, 2)
    requires inStart[..] == WindowStart(input, r) && inStart[0] < input.nelements[0]
    requires RunSoFar(input, output, kernel, m, smallValue, records0, r)
    requires (low0, high0) == GlobalRange(records0)
    modifies inStart, scale, offset, slice
    ensures r < TotalWindows(input)
    ensures err.None? <==> CalibrationAt(input, r).CalibrationOk?
    ensures err.Some? ==> err.value == CalibrationAt(input, r).err && records == records0
    ensures err.None? ==> inStart[..] == WindowStart(input, r + 1)
    ensures err.None? ==> RunSoFar(input, output, kernel, m, smallValue, records, r + 1)
    ensures err.None? ==> (low, high) == GlobalRange(records)
  {
    WindowCountSteps(input.nelements, input.indices);
    StartInside(WindowCount(input.nelements, input.indices), input.nelements, r);
    records, low, high := records0, low0, high0;
    var v;
    err, v := LoadWindow(input, inStart[..], scale, offset);
    if err.None? {
      records, low, high := ResampleWindow(input, output, kernel, m, smallValue, inStart[..], v, slice, records0, low0, high0);
      WindowAppended(input, output, kernel, m, smallValue, records0, records, r);
      AdvanceStart(inStart, WindowCount(input.nelements, input.indices), input.nelements);
    }
  }
}
