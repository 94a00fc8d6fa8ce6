/**
 * The window counter of resample_volumes.  The input file is read one
 * volume window at a time; in_start holds the file coordinates of the
 * current window and in_count its extent (the whole dimension for the
 * three volume dimensions, 1 for every other dimension).  After each
 * window in_start advances like an odometer: the last dimension steps by
 * its count and, while it reaches its end, is reset to 0 and the step
 * carries into the dimension before it.  Dimension 0 is never reset;
 * reaching its end stops the run.
 *
 * Read as a mixed-radix number whose digit at dimension i is
 * in_start[i] / in_count[i] and whose radix is in_end[i] / in_count[i],
 * each advance adds exactly one, so the run visits every window once, in
 * order, and stops after the product of the radices.
 */
module Odometer {

  /** Dimension idim steps by its count; a dimension above 0 that reaches its end resets and carries. */
  function Carry(s: seq<int>, count: seq<int>, end: seq<int>, idim: nat): (r: seq<int>)
    requires idim < |s| && |count| == |s| && |end| == |s|
    decreases idim
  {
    Settle(s[idim := s[idim] + count[idim]], count, end, idim)
  }

  /** What remains after dimension idim has stepped: carry on while it is at or past its end. */
  function Settle(t: seq<int>, count: seq<int>, end: seq<int>, idim: nat): (r: seq<int>)
    requires idim < |t| && |count| == |t| && |end| == |t|
    decreases idim, 0
  {
    if idim > 0 && t[idim] >= end[idim] then Carry(t[idim := 0], count, end, idim - 1) else t
  }

  /** One advance of in_start, starting from the last dimension. */
  function Advance(s: seq<int>, count: seq<int>, end: seq<int>): (r: seq<int>)
    requires 0 < |s| && |count| == |s| && |end| == |s|
  {
    Carry(s, count, end, |s| - 1)
  }

  /** Carrying changes nothing beyond the dimension it starts at, and keeps the length. */
  lemma {:induction false} CarryFrame(s: seq<int>, count: seq<int>, end: seq<int>, idim: nat)
    requires idim < |s| && |count| == |s| && |end| == |s|
    ensures |Carry(s, count, end, idim)| == |s|
    ensures forall j :: idim < j < |s| ==> Carry(s, count, end, idim)[j] == s[j]
    decreases idim
  {
    var t := s[idim := s[idim] + count[idim]];
    if idim > 0 && t[idim] >= end[idim] {
      CarryFrame(t[idim := 0], count, end, idim - 1);
    }
  }

  /**
   * The increment of in_start at source lines 162-168: step the last
   * dimension, then, while the current dimension is above 0 and at or past
   * its end, reset it and step the one before.
   */
  method AdvanceStart(inStart: array<int>, inCount: seq<int>, inEnd: seq<int>)
    requires 0 < inStart.Length && |inCount| == inStart.Length && |inEnd| == inStart.Length
    modifies inStart
    ensures inStart[..] == Advance(old(inStart[..]), inCount, inEnd)
  {
    var idim := inStart.Length - 1;
    inStart[idim] := inStart[idim] + inCount[idim];
    while idim > 0 && inStart[idim] >= inEnd[idim]
      invariant 0 <= idim < inStart.Length
      invariant Settle(inStart[..], inCount, inEnd, idim) == Advance(old(inStart[..]), inCount, inEnd)
      decreases idim
    {
      inStart[idim] := 0;
      idim := idim - 1;
      inStart[idim] := inStart[idim] + inCount[idim];
    }
  }

  // ---------------------------------------------------------------------
  // The counter as a mixed-radix number

  /** Every dimension steps by a positive count that divides its positive length. */
  predicate Steps(count: seq<int>, end: seq<int>) {
    && |count| == |end|
    && forall i :: 0 <= i < |count| ==> count[i] >= 1 && end[i] >= 1 && end[i] % count[i] == 0
  }

  /**
   * A start vector the counter can hold: every coordinate is a non-negative
   * multiple of its count, and every one but the first is below its end.
   */
  predicate Position(s: seq<int>, count: seq<int>, end: seq<int>)
    requires Steps(count, end)
  {
    && |s| == |count|
    && forall i :: 0 <= i < |s| ==> 0 <= s[i] && s[i] % count[i] == 0 && (i > 0 ==> s[i] < end[i])
  }

  function Digit(s: seq<int>, count: seq<int>, i: nat): int
    requires i < |s| && |count| == |s| && count[i] >= 1
  {
    s[i] / count[i]
  }

  function Radix(count: seq<int>, end: seq<int>, i: nat): int
    requires i < |count| && |end| == |count| && count[i] >= 1
  {
    end[i] / count[i]
  }

  /** The value of the first k digits, dimension 0 most significant. */
  function Rank(s: seq<int>, count: seq<int>, end: seq<int>, k: nat): int
    requires Steps(count, end) && |s| == |count| && k <= |s|
  {
    if k == 0 then 0 else Rank(s, count, end, k - 1) * Radix(count, end, k - 1) + Digit(s, count, k - 1)
  }

  /** The number of windows in the first k dimensions: the product of their radices. */
  function Windows(count: seq<int>, end: seq<int>, k: nat): int
    requires Steps(count, end) && k <= |count|
  {
    if k == 0 then 1 else Windows(count, end, k - 1) * Radix(count, end, k - 1)
  }

  // Digit arithmetic on multiples of a step c.

  lemma MulAtLeast(c: int, k: int)
    requires c >= 1 && k >= 1
    ensures c * k >= c
  {
    assert c * k == c * (k - 1) + c;
    assert c * (k - 1) >= 0;
  }

  /** Multiplying by a positive c keeps the order of x and y. */
  lemma MulOrder(c: int, x: int, y: int)
    requires c >= 1
    ensures x < y <==> c * x < c * y
  {
    if x < y {
      MulAtLeast(c, y - x);
      assert c * y == c * x + c * (y - x);
    } else {
      assert c * x == c * y + c * (x - y);
      assert c * (x - y) >= 0;
    }
  }

  /** Quotient and remainder are determined by a == c * q + r with 0 <= r < c. */
  lemma DivUnique(a: int, c: int, q: int, r: int)
    requires c >= 1 && a == c * q + r && 0 <= r < c
    ensures a / c == q && a % c == r
  {
    var q', r' := a / c, a % c;
    assert a == c * q' + r' && 0 <= r' < c;
    assert c * (q - q') == r' - r;
    if q > q' {
      MulAtLeast(c, q - q');
    } else if q < q' {
      MulAtLeast(c, q' - q);
    }
  }

  lemma StepDigit(a: int, c: int)
    requires c >= 1 && a >= 0 && a % c == 0
    ensures (a + c) / c == a / c + 1 && (a + c) % c == 0
  {
    var q := a / c;
    assert a == c * q;
    DivUnique(a + c, c, q + 1, 0);
  }

  lemma DigitOrder(a: int, e: int, c: int)
    requires c >= 1 && a % c == 0 && e % c == 0
    ensures a < e <==> a / c < e / c
  {
    assert a == c * (a / c) && e == c * (e / c);
    MulOrder(c, a / c, e / c);
  }

  lemma ZeroDigit(c: int)
    requires c >= 1
    ensures 0 / c == 0 && 0 % c == 0
  {
  }

  lemma {:induction false} WindowsPositive(count: seq<int>, end: seq<int>, k: nat)
    requires Steps(count, end) && k <= |count|
    ensures Windows(count, end, k) >= 1
  {
    if k > 0 {
      WindowsPositive(count, end, k - 1);
      DigitOrder(0, end[k - 1], count[k - 1]);
      ZeroDigit(count[k - 1]);
      assert Radix(count, end, k - 1) >= 1;
      MulPositive(Windows(count, end, k - 1), Radix(count, end, k - 1));
    }
  }

  lemma MulPositive(a: int, b: int)
    requires a >= 1 && b >= 1
    ensures a * b >= 1
  {
  }

  /** Two start vectors that agree on the first k dimensions have the same rank there. */
  lemma {:induction false} RankPrefix(s: seq<int>, t: seq<int>, count: seq<int>, end: seq<int>, k: nat)
    requires Steps(count, end) && |s| == |count| && |t| == |count| && k <= |s|
    requires forall j :: 0 <= j < k ==> s[j] == t[j]
    ensures Rank(s, count, end, k) == Rank(t, count, end, k)
  {
    if k > 0 {
      RankPrefix(s, t, count, end, k - 1);
    }
  }

  /**
   * Carrying from dimension idim adds one to the rank of the first idim + 1
   * dimensions and leaves a start vector the counter can hold.
   */
  lemma {:induction false} CarryAddsOne(s: seq<int>, count: seq<int>, end: seq<int>, idim: nat)
    requires Steps(count, end) && Position(s, count, end) && idim < |s|
    ensures |Carry(s, count, end, idim)| == |s|
    ensures Position(Carry(s, count, end, idim), count, end)
    ensures Rank(Carry(s, count, end, idim), count, end, idim + 1) == Rank(s, count, end, idim + 1) + 1
    decreases idim
  {
    var t := s[idim := s[idim] + count[idim]];
    if idim > 0 && t[idim] >= end[idim] {
      var u := t[idim := 0];
      ResetIsPosition(s, count, end, idim);
      CarryAddsOne(u, count, end, idim - 1);
      CarryFrame(u, count, end, idim - 1);
      WrapAddsOne(s, Carry(u, count, end, idim - 1), count, end, idim);
    } else {
      StepAddsOne(s, count, end, idim);
    }
  }

  /** Resetting a coordinate to 0 keeps a position. */
  lemma ResetIsPosition(s: seq<int>, count: seq<int>, end: seq<int>, idim: nat)
    requires Steps(count, end) && Position(s, count, end) && idim < |s|
    ensures Position(s[idim := s[idim] + count[idim]][idim := 0], count, end)
  {
    ZeroDigit(count[idim]);
  }

  /** Without a carry the digit at idim goes up by one and nothing below it changes. */
  lemma StepAddsOne(s: seq<int>, count: seq<int>, end: seq<int>, idim: nat)
    requires Steps(count, end) && Position(s, count, end) && idim < |s|
    requires var t := s[idim := s[idim] + count[idim]]; !(idim > 0 && t[idim] >= end[idim])
    ensures |Carry(s, count, end, idim)| == |s|
    ensures Position(Carry(s, count, end, idim), count, end)
    ensures Rank(Carry(s, count, end, idim), count, end, idim + 1) == Rank(s, count, end, idim + 1) + 1
  {
    var t := s[idim := s[idim] + count[idim]];
    assert Carry(s, count, end, idim) == t;
    StepDigit(s[idim], count[idim]);
    RankPrefix(s, t, count, end, idim);
  }

  /**
   * With a carry the digit at idim was one below its radix and becomes 0,
   * while the dimensions before it, carried into, gained one.
   */
  lemma WrapAddsOne(s: seq<int>, r: seq<int>, count: seq<int>, end: seq<int>, idim: nat)
    requires Steps(count, end) && Position(s, count, end) && 0 < idim < |s|
    requires s[idim] + count[idim] >= end[idim]
    requires |r| == |s| && r[idim] == 0
    requires Rank(r, count, end, idim) == Rank(s[idim := s[idim] + count[idim]][idim := 0], count, end, idim) + 1
    ensures Rank(r, count, end, idim + 1) == Rank(s, count, end, idim + 1) + 1
  {
    var c := count[idim];
    var u := s[idim := s[idim] + c][idim := 0];
    RankPrefix(s, u, count, end, idim);
    ZeroDigit(c);
    StepDigit(s[idim], c);
    DigitOrder(s[idim], end[idim], c);
    DigitOrder(s[idim] + c, end[idim], c);
    var R := Radix(count, end, idim);
    var d := Digit(s, count, idim);
    assert d + 1 == R;
    assert Digit(r, count, idim) == 0;
    WrapArith(Rank(s, count, end, idim), R, d);
  }

  lemma WrapArith(below: int, r: int, d: int)
    requires d + 1 == r
    ensures (below + 1) * r + 0 == below * r + d + 1
  {
  }

  /** One advance adds one to the rank of the whole start vector. */
  lemma AdvanceAddsOne(s: seq<int>, count: seq<int>, end: seq<int>)
    requires Steps(count, end) && Position(s, count, end) && 0 < |s|
    ensures |Advance(s, count, end)| == |s|
    ensures Position(Advance(s, count, end), count, end)
    ensures Rank(Advance(s, count, end), count, end, |s|) == Rank(s, count, end, |s|) + 1
  {
    CarryAddsOne(s, count, end, |s| - 1);
  }

  /** Every digit is non-negative and every radix positive; a coordinate below its end has a digit below its radix. */
  lemma DigitRange(s: seq<int>, count: seq<int>, end: seq<int>, i: nat)
    requires Steps(count, end) && Position(s, count, end) && i < |s|
    ensures 0 <= Digit(s, count, i) && 1 <= Radix(count, end, i)
    ensures s[i] < end[i] <==> Digit(s, count, i) < Radix(count, end, i)
  {
    ZeroDigit(count[i]);
    DigitOrder(0, end[i], count[i]);
    DigitOrder(s[i], end[i], count[i]);
    if s[i] > 0 {
      DigitOrder(0, s[i], count[i]);
    }
  }

  lemma MixedBound(below: int, w: int, d: int, r: int)
    requires 0 <= below < w && 0 <= d < r
    ensures 0 <= below * r + d < w * r
  {
    MulOrder(r, below, w - 1 + 1);
    assert below * r <= (w - 1) * r;
    assert (w - 1) * r + r == w * r;
  }

  lemma ScaledStep(below: int, r0: int, d0: int, w: int, r: int, d: int)
    requires below * r0 >= d0 * w && r >= 1 && d >= 0 && r0 >= 0
    ensures (below * r + d) * r0 >= d0 * (w * r)
  {
    assert (below * r0) * r >= (d0 * w) * r by {
      MulOrder(r, below * r0, d0 * w);
    }
    assert d * r0 >= 0;
    assert (below * r + d) * r0 == (below * r0) * r + d * r0;
    assert (d0 * w) * r == d0 * (w * r);
  }

  lemma ScaledAtLeast(rank: int, r0: int, d0: int, w: int)
    requires rank * r0 >= d0 * w && d0 >= r0 >= 1 && w >= 1
    ensures rank >= w
  {
    MulOrder(w, r0, d0 + 1);
    assert d0 * w >= r0 * w;
    MulOrder(r0, rank, w);
  }

  /** While every coordinate is below its end, the rank is below the number of windows. */
  lemma {:induction false} RankBelowWindows(s: seq<int>, count: seq<int>, end: seq<int>, k: nat)
    requires Steps(count, end) && Position(s, count, end) && k <= |s|
    requires 0 < |s| ==> s[0] < end[0]
    ensures 0 <= Rank(s, count, end, k) < Windows(count, end, k)
  {
    if k > 0 {
      RankBelowWindows(s, count, end, k - 1);
      DigitRange(s, count, end, k - 1);
      MixedBound(Rank(s, count, end, k - 1), Windows(count, end, k - 1),
                 Digit(s, count, k - 1), Radix(count, end, k - 1));
    }
  }

  /** Once the first coordinate has reached its end, the rank has reached the number of windows. */
  lemma RankAtEnd(s: seq<int>, count: seq<int>, end: seq<int>)
    requires Steps(count, end) && Position(s, count, end) && 0 < |s|
    requires s[0] >= end[0]
    ensures Rank(s, count, end, |s|) >= Windows(count, end, |s|)
  {
    DigitRange(s, count, end, 0);
    RankScaled(s, count, end, |s|);
    WindowsPositive(count, end, |s|);
    ScaledAtLeast(Rank(s, count, end, |s|), Radix(count, end, 0), Digit(s, count, 0), Windows(count, end, |s|));
  }

  /** The rank, scaled by the first radix, is at least the first digit times the number of windows. */
  lemma {:induction false} RankScaled(s: seq<int>, count: seq<int>, end: seq<int>, k: nat)
    requires Steps(count, end) && Position(s, count, end) && 0 < k <= |s|
    ensures Rank(s, count, end, k) * Radix(count, end, 0) >= Digit(s, count, 0) * Windows(count, end, k)
  {
    DigitRange(s, count, end, 0);
    if k > 1 {
      RankScaled(s, count, end, k - 1);
      DigitRange(s, count, end, k - 1);
      ScaledStep(Rank(s, count, end, k - 1), Radix(count, end, 0), Digit(s, count, 0),
                 Windows(count, end, k - 1), Radix(count, end, k - 1), Digit(s, count, k - 1));
    } else {
      assert Rank(s, count, end, 1) == Digit(s, count, 0);
      assert Windows(count, end, 1) == Radix(count, end, 0);
    }
  }

  /** The first window, all zeros, has rank 0. */
  lemma {:induction false} ZeroRank(s: seq<int>, count: seq<int>, end: seq<int>, k: nat)
    requires Steps(count, end) && |s| == |count| && k <= |s|
    requires forall i :: 0 <= i < |s| ==> s[i] == 0
    ensures Rank(s, count, end, k) == 0
  {
    if k > 0 {
      ZeroRank(s, count, end, k - 1);
      ZeroDigit(count[k - 1]);
    }
  }

  // ---------------------------------------------------------------------
  // The counter resample_volumes sets up

  /** in_count: the whole length on the volume's dimensions, 1 on every other (source lines 81-88). */
  function WindowCount(nelements: seq<int>, volumeDims: seq<int>): (r: seq<int>)
  {
    seq(|nelements|, i requires 0 <= i < |nelements| => if i in volumeDims then nelements[i] else 1)
  }

  /**
   * With every dimension non-empty, the set-up counter steps properly, the
   * volume's dimensions have radix 1 and every other dimension its length.
   */
  lemma WindowCountSteps(nelements: seq<int>, volumeDims: seq<int>)
    requires forall i :: 0 <= i < |nelements| ==> nelements[i] >= 1
    ensures Steps(WindowCount(nelements, volumeDims), nelements)
    ensures forall i :: 0 <= i < |nelements| ==>
      Radix(WindowCount(nelements, volumeDims), nelements, i) == if i in volumeDims then 1 else nelements[i]
  {
    var count := WindowCount(nelements, volumeDims);
    forall i | 0 <= i < |nelements|
      ensures count[i] >= 1 && nelements[i] % count[i] == 0
      ensures Radix(count, nelements, i) == if i in volumeDims then 1 else nelements[i]
    {
      if i in volumeDims {
        SelfDivides(nelements[i]);
      }
    }
  }

  lemma SelfDivides(n: int)
    requires n >= 1
    ensures n % n == 0 && n / n == 1
  {
    assert n == n * 1 + 0;
  }

  // ---------------------------------------------------------------------
  // The windows of a run

  /** The start vector after r advances from the all-zero start the run begins with (source line 80). */
  function StartAfter(count: seq<int>, end: seq<int>, r: nat): (s: seq<int>)
    requires 0 < |count| && |end| == |count|
    ensures |s| == |count|
    decreases r
  {
    if r == 0 then seq(|count|, _ => 0)
    else
      var prev := StartAfter(count, end, r - 1);
      CarryFrame(prev, count, end, |prev| - 1);
      Advance(prev, count, end)
  }

  /** The r-th window of the run starts at a position of rank r: windows come in order. */
  lemma {:induction false} StartAfterRank(count: seq<int>, end: seq<int>, r: nat)
    requires Steps(count, end) && 0 < |count|
    ensures Position(StartAfter(count, end, r), count, end)
    ensures Rank(StartAfter(count, end, r), count, end, |count|) == r
    decreases r
  {
    var s := StartAfter(count, end, r);
    if r == 0 {
      forall i | 0 <= i < |s| ensures 0 <= s[i] && s[i] % count[i] == 0 && (i > 0 ==> s[i] < end[i]) {
        ZeroDigit(count[i]);
      }
      ZeroRank(s, count, end, |count|);
    } else {
      StartAfterRank(count, end, r - 1);
      AdvanceAddsOne(StartAfter(count, end, r - 1), count, end);
    }
  }

  /** No window is read twice. */
  lemma StartsDistinct(count: seq<int>, end: seq<int>, r1: nat, r2: nat)
    requires Steps(count, end) && 0 < |count| && r1 != r2
    ensures StartAfter(count, end, r1) != StartAfter(count, end, r2)
  {
    StartAfterRank(count, end, r1);
    StartAfterRank(count, end, r2);
  }

  /** The run reads exactly Windows windows: the r-th is still inside the file exactly when r is below that count. */
  lemma StartInside(count: seq<int>, end: seq<int>, r: nat)
    requires Steps(count, end) && 0 < |count|
    ensures StartAfter(count, end, r)[0] < end[0] <==> r < Windows(count, end, |count|)
  {
    StartAfterRank(count, end, r);
    var s := StartAfter(count, end, r);
    if s[0] < end[0] {
      RankBelowWindows(s, count, end, |count|);
    } else {
      RankAtEnd(s, count, end);
    }
  }
}
