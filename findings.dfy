/**
 * The flag do_Ncubic_interpolation uses to reject a stencil, as the
 * source declares it: it is set when a fill marker or a rejected
 * evaluation is met, but it is never cleared first, so when nothing is
 * rejected its value is whatever the uninitialised variable held.
 */
module Findings {
  import opened Interpolation

  /** The flag after the four checks, starting from the indeterminate value initial. */
  function FoundFillAsWritten(initial: bool, g: seq<Sample>): (found: bool)
    requires |g| == 4
    ensures found <==> initial || !AllAccepted(g)
  {
    var f0 := if !g[0].accepted then true else initial;
    var f1 := if !g[1].accepted then true else f0;
    var f2 := if !g[2].accepted then true else f1;
    if !g[3].accepted then true else f2
  }

  /** The end of the evaluator as written, deciding on the flag above. */
  function CombineAsWritten(v: Volume, base: int, dim: nat, frac: seq<real>, g: seq<Sample>, initial: bool): (r: Sample)
    requires WellFormed(v) && |frac| == 3 && dim < 3 && |g| == 4
    requires dim == 0 ==> 0 <= base && base + 3 < v.nslc
    ensures r.accepted <==> !initial && AllAccepted(g)
    ensures !r.accepted ==> r.value == v.fillvalue
  {
    if FoundFillAsWritten(initial, g) then Fill(v) else Combine(v, base, dim, frac, g)
  }

  /**
   * When the indeterminate flag happens to be set, a stencil of genuine
   * values is rejected and the fill value returned; only a flag that
   * starts cleared gives the behaviour Combine states.
   */
  lemma IndeterminateFlagRejectsGenuineStencil(v: Volume, base: int, dim: nat, frac: seq<real>, g: seq<Sample>)
    requires WellFormed(v) && |frac| == 3 && dim < 3 && |g| == 4
    requires dim == 0 ==> 0 <= base && base + 3 < v.nslc
    requires AllAccepted(g)
    ensures !CombineAsWritten(v, base, dim, frac, g, true).accepted
    ensures CombineAsWritten(v, base, dim, frac, g, true).value == v.fillvalue
    ensures Combine(v, base, dim, frac, g).accepted
    ensures CombineAsWritten(v, base, dim, frac, g, false) == Combine(v, base, dim, frac, g)
  {
    assert FoundFillAsWritten(true, g);
    assert !FoundFillAsWritten(false, g);
  }
}
