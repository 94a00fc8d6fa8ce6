/**
 * Per-slice intensity calibration of a freshly loaded volume window
 * (load_volume, after the raw read).
 *
 * The image-max and image-min values of the window are first read into the
 * scale and offset arrays (maxima into scale, minima into offset), a single
 * value being copied to every slice; a count that is neither 1 nor the
 * number of slices aborts the run.  Each slice's (max, min) pair is then
 * turned into the affine map raw * scale + offset that sends the valid
 * range [lo, hi] of raw values onto [min, max].  Floating-point data is
 * never scaled.
 */
module Calibration {

  /** netCDF data types of a variable. */
  datatype NcType = NcByte | NcChar | NcShort | NcLong | NcFloat | NcDouble

  predicate IsFloating(t: NcType) {
    t == NcFloat || t == NcDouble
  }

  /** A valid range [lo, hi] of raw sample values (vrange[0], vrange[1]). */
  datatype ValidRange = ValidRange(lo: real, hi: real)

  /** Max and min used when the image-max/min variables are not available. */
  const DefaultMax: real := 1.0
  const DefaultMin: real := 0.0

  /**
   * What the file says about image-max/min for one window: either at least
   * one of the two variables is missing, or both exist and these are the
   * values read from them (their length is the count read).
   */
  datatype MaxMinSource =
    | Missing
    | Present(maxRead: seq<real>, minRead: seq<real>)

  /** The fatal cardinality error, for the image-max or the image-min variable. */
  datatype CalibrationError =
    | MaxCountMismatch(nread: nat, nslices: nat)
    | MinCountMismatch(nread: nat, nslices: nat)

  datatype Option<T> = None | Some(value: T)

  /** The per-slice values that a read of |read| values gives, if its count is acceptable. */
  function PerSlice(read: seq<real>, nslices: nat): (r: Option<seq<real>>)
    ensures r.Some? <==> |read| == 1 || |read| == nslices
    ensures r.Some? ==> |r.value| == nslices
    ensures r.Some? && |read| == 1 ==> forall s :: 0 <= s < nslices ==> r.value[s] == read[0]
    ensures r.Some? && |read| != 1 ==> r.value == read
  {
    if |read| == 1 then Some(seq(nslices, _ => read[0]))
    else if |read| == nslices then Some(read)
    else None
  }

  /** A slice's scale: its calibrated span over the raw span, or 0 for a zero-width valid range. */
  function Scale(maximum: real, minimum: real, vr: ValidRange): real {
    var denom := vr.hi - vr.lo;
    if denom != 0.0 then (maximum - minimum) / denom else 0.0
  }

  /** A slice's offset, chosen so that the low end of the valid range maps to the slice's min. */
  function Offset(maximum: real, minimum: real, vr: ValidRange): real {
    minimum - vr.lo * Scale(maximum, minimum, vr)
  }

  /** The calibration of one raw value; every kernel applies it this way. */
  function Calibrated(raw: real, scale: real, offset: real): real {
    raw * scale + offset
  }

  /** A window's per-slice (max, min) as left in scale[]/offset[] before conversion. */
  datatype Extremes = Extremes(maxima: seq<real>, minima: seq<real>)

  datatype ExtremesResult = ExtremesOk(ext: Extremes) | ExtremesFail(err: CalibrationError)

  /**
   * The first half of load_volume: where the per-slice max and min come
   * from.  Missing variables or a floating-point file give the defaults;
   * otherwise the image-max read is checked first and the image-min read
   * second.
   */
  function SliceExtremes(fileType: NcType, src: MaxMinSource, nslices: nat): (r: ExtremesResult)
    ensures r.ExtremesOk? ==> |r.ext.maxima| == nslices && |r.ext.minima| == nslices
  {
    if src.Missing? || IsFloating(fileType) then
      ExtremesOk(Extremes(seq(nslices, _ => DefaultMax), seq(nslices, _ => DefaultMin)))
    else
      match PerSlice(src.maxRead, nslices)
      case None => ExtremesFail(MaxCountMismatch(|src.maxRead|, nslices))
      case Some(maxima) =>
        match PerSlice(src.minRead, nslices)
        case None => ExtremesFail(MinCountMismatch(|src.minRead|, nslices))
        case Some(minima) => ExtremesOk(Extremes(maxima, minima))
  }

  /** The per-slice scale and offset of a window. */
  datatype SliceMaps = SliceMaps(scale: seq<real>, offset: seq<real>)

  datatype CalibrationResult = CalibrationOk(maps: SliceMaps) | CalibrationFail(err: CalibrationError)

  /** The second half of load_volume: convert each slice's (max, min). */
  function Convert(volumeType: NcType, ext: Extremes, vr: ValidRange): (r: SliceMaps)
    requires |ext.maxima| == |ext.minima|
    ensures |r.scale| == |ext.maxima| && |r.offset| == |ext.maxima|
  {
    var n := |ext.maxima|;
    if IsFloating(volumeType) then SliceMaps(seq(n, _ => 1.0), seq(n, _ => 0.0))
    else SliceMaps(seq(n, s requires 0 <= s < n => Scale(ext.maxima[s], ext.minima[s], vr)),
                   seq(n, s requires 0 <= s < n => Offset(ext.maxima[s], ext.minima[s], vr)))
  }

  /** What load_volume leaves in scale[] and offset[], or the fatal error. */
  function WindowCalibration(fileType: NcType, volumeType: NcType, src: MaxMinSource,
                             vr: ValidRange, nslices: nat): (r: CalibrationResult)
    ensures r.CalibrationOk? ==> |r.maps.scale| == nslices && |r.maps.offset| == nslices
  {
    match SliceExtremes(fileType, src, nslices)
    case ExtremesFail(e) => CalibrationFail(e)
    case ExtremesOk(ext) => CalibrationOk(Convert(volumeType, ext, vr))
  }

  // ---------------------------------------------------------------------
  // load_volume, as the in-place computation on the two arrays

  /**
   * The read of one of the two variables into `values`: the values read
   * land in the array, and a single value is copied to every slice.
   * Returns false on the count the source treats as a program bug.
   */
  method ReadExtremum(values: array<real>, read: seq<real>) returns (ok: bool)
    modifies values
    ensures ok <==> PerSlice(read, values.Length).Some?
    ensures ok ==> values[..] == PerSlice(read, values.Length).value
    ensures !ok ==> values[..] == old(values[..])
  {
    var n := values.Length;
    if |read| == 1 {
      if n > 0 {
        values[0] := read[0];
      }
      var islice := 1;
      while islice < n
        invariant 1 <= islice <= n || n == 0
        invariant forall s :: 0 <= s < islice && s < n ==> values[s] == read[0]
      {
        values[islice] := values[0];
        islice := islice + 1;
      }
      ok := true;
    } else if |read| != n {
      ok := false;
    } else {
      var k := 0;
      while k < n
        invariant 0 <= k <= n
        invariant values[..k] == read[..k]
      {
        values[k] := read[k];
        k := k + 1;
      }
      ok := true;
    }
  }

  /**
   * The first half of load_volume: fill scale[] with the per-slice maxima
   * and offset[] with the per-slice minima, or report the fatal count.
   */
  method ReadExtremes(scale: array<real>, offset: array<real>, fileType: NcType, src: MaxMinSource)
    returns (err: Option<CalibrationError>)
    requires scale != offset && scale.Length == offset.Length
    modifies scale, offset
    ensures var want := SliceExtremes(fileType, src, scale.Length);
      && (err.None? <==> want.ExtremesOk?)
      && (err.Some? ==> err.value == want.err)
      && (err.None? ==> scale[..] == want.ext.maxima && offset[..] == want.ext.minima)
  {
    var n := scale.Length;
    if src.Missing? || IsFloating(fileType) {
      var islice := 0;
      while islice < n
        invariant 0 <= islice <= n
        invariant forall s :: 0 <= s < islice ==> scale[s] == DefaultMax && offset[s] == DefaultMin
      {
        scale[islice] := DefaultMax;
        offset[islice] := DefaultMin;
        islice := islice + 1;
      }
      return None;
    }
    var ok := ReadExtremum(scale, src.maxRead);
    if !ok {
      return Some(MaxCountMismatch(|src.maxRead|, n));
    }
    ok := ReadExtremum(offset, src.minRead);
    if !ok {
      return Some(MinCountMismatch(|src.minRead|, n));
    }
    err := None;
  }

  /** The second half of load_volume: turn each slice's (max, min) into (scale, offset) in place. */
  method ConvertSlices(scale: array<real>, offset: array<real>, volumeType: NcType, fileRange: ValidRange)
    requires scale != offset && scale.Length == offset.Length
    modifies scale, offset
    ensures var want := Convert(volumeType, Extremes(old(scale[..]), old(offset[..])), fileRange);
      scale[..] == want.scale && offset[..] == want.offset
  {
    ghost var ext := Extremes(scale[..], offset[..]);
    ghost var want := Convert(volumeType, ext, fileRange);
    var n := scale.Length;
    var islice := 0;
    while islice < n
      invariant 0 <= islice <= n
      invariant forall s :: islice <= s < n ==> scale[s] == ext.maxima[s] && offset[s] == ext.minima[s]
      invariant forall s :: 0 <= s < islice ==> scale[s] == want.scale[s] && offset[s] == want.offset[s]
    {
      if IsFloating(volumeType) {
        scale[islice] := 1.0;
        offset[islice] := 0.0;
      } else {
        var maximum := scale[islice];
        var minimum := offset[islice];
        var denom := fileRange.hi - fileRange.lo;
        if denom != 0.0 {
          scale[islice] := (maximum - minimum) / denom;
        } else {
          scale[islice] := 0.0;
        }
        offset[islice] := minimum - fileRange.lo * scale[islice];
      }
      islice := islice + 1;
    }
  }

  /**
   * load_volume's calibration part.  The arrays hold one entry per slice of
   * the window.  On success they hold the window's scale and offset; on the
   * fatal count error the run stops, so their contents no longer matter.
   */
  method LoadVolume(scale: array<real>, offset: array<real>, fileType: NcType, volumeType: NcType,
                    src: MaxMinSource, fileRange: ValidRange) returns (err: Option<CalibrationError>)
    requires scale != offset && scale.Length == offset.Length
    modifies scale, offset
    ensures var want := WindowCalibration(fileType, volumeType, src, fileRange, scale.Length);
      && (err.None? <==> want.CalibrationOk?)
      && (err.Some? ==> err.value == want.err)
      && (err.None? ==> scale[..] == want.maps.scale && offset[..] == want.maps.offset)
  {
    err := ReadExtremes(scale, offset, fileType, src);
    if err.None? {
      ConvertSlices(scale, offset, volumeType, fileRange);
    }
  }

  // ---------------------------------------------------------------------
  // Properties of the calibration

  /** Floating-point volume data is never scaled. */
  lemma FloatingIsIdentity(fileType: NcType, volumeType: NcType, src: MaxMinSource,
                           vr: ValidRange, nslices: nat, s: nat)
    requires IsFloating(volumeType)
    requires WindowCalibration(fileType, volumeType, src, vr, nslices).CalibrationOk?
    requires s < nslices
    ensures var maps := WindowCalibration(fileType, volumeType, src, vr, nslices).maps;
      maps.scale[s] == 1.0 && maps.offset[s] == 0.0
  {
  }

  /**
   * The round trip: with a non-degenerate valid range the calibration of a
   * slice maps the ends of the valid range onto that slice's min and max.
   */
  lemma {:induction false} CalibrationRoundTrip(maximum: real, minimum: real, vr: ValidRange)
    requires vr.hi - vr.lo != 0.0
    ensures Calibrated(vr.lo, Scale(maximum, minimum, vr), Offset(maximum, minimum, vr)) == minimum
    ensures Calibrated(vr.hi, Scale(maximum, minimum, vr), Offset(maximum, minimum, vr)) == maximum
  {
    var denom := vr.hi - vr.lo;
    var sc := Scale(maximum, minimum, vr);
    assert sc * denom == maximum - minimum;
    calc {
      Calibrated(vr.hi, sc, Offset(maximum, minimum, vr));
      vr.hi * sc + minimum - vr.lo * sc;
      sc * denom + minimum;
      maximum;
    }
  }

  /** With a zero-width valid range every raw value maps to the slice's min. */
  lemma DegenerateRangeGivesMinimum(maximum: real, minimum: real, vr: ValidRange, raw: real)
    requires vr.hi - vr.lo == 0.0
    ensures Scale(maximum, minimum, vr) == 0.0 && Offset(maximum, minimum, vr) == minimum
    ensures Calibrated(raw, Scale(maximum, minimum, vr), Offset(maximum, minimum, vr)) == minimum
  {
  }

  /**
   * The window-level round trip for integer data: for every slice s the
   * calibration maps lo to the slice's min and hi to its max, where these
   * are the values read (a single value read standing for every slice) or
   * the defaults when the variables are missing.
   */
  lemma WindowRoundTrip(fileType: NcType, volumeType: NcType, src: MaxMinSource,
                        vr: ValidRange, nslices: nat, s: nat)
    requires !IsFloating(volumeType) && vr.hi - vr.lo != 0.0
    requires WindowCalibration(fileType, volumeType, src, vr, nslices).CalibrationOk?
    requires s < nslices
    ensures var maps := WindowCalibration(fileType, volumeType, src, vr, nslices).maps;
      var ext := SliceExtremes(fileType, src, nslices).ext;
      && Calibrated(vr.lo, maps.scale[s], maps.offset[s]) == ext.minima[s]
      && Calibrated(vr.hi, maps.scale[s], maps.offset[s]) == ext.maxima[s]
  {
    var ext := SliceExtremes(fileType, src, nslices).ext;
    CalibrationRoundTrip(ext.maxima[s], ext.minima[s], vr);
  }

  /** Which per-slice max/min a window gets: defaults, a broadcast value, or one value per slice. */
  lemma ExtremesSource(fileType: NcType, src: MaxMinSource, nslices: nat, s: nat)
    requires SliceExtremes(fileType, src, nslices).ExtremesOk?
    requires s < nslices
    ensures var ext := SliceExtremes(fileType, src, nslices).ext;
      && (src.Missing? || IsFloating(fileType) ==> ext.maxima[s] == DefaultMax && ext.minima[s] == DefaultMin)
      && (src.Present? && !IsFloating(fileType) ==>
            && ext.maxima[s] == (if |src.maxRead| == 1 then src.maxRead[0] else src.maxRead[s])
            && ext.minima[s] == (if |src.minRead| == 1 then src.minRead[0] else src.minRead[s]))
  {
  }

  /** The fatal error happens exactly when a count read is neither 1 nor the number of slices. */
  lemma CountMismatchIsFatal(fileType: NcType, volumeType: NcType, src: MaxMinSource,
                             vr: ValidRange, nslices: nat)
    ensures WindowCalibration(fileType, volumeType, src, vr, nslices).CalibrationFail? <==>
      src.Present? && !IsFloating(fileType) &&
      ((|src.maxRead| != 1 && |src.maxRead| != nslices) ||
       (|src.minRead| != 1 && |src.minRead| != nslices))
    ensures WindowCalibration(fileType, volumeType, src, vr, nslices).CalibrationFail? ==>
      WindowCalibration(fileType, volumeType, src, vr, nslices).err ==
        if |src.maxRead| != 1 && |src.maxRead| != nslices
        then MaxCountMismatch(|src.maxRead|, nslices)
        else MinCountMismatch(|src.minRead|, nslices)
  {
  }
}
