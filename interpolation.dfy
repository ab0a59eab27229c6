/** The render-side mapping of the swipe container: the animated drive value is
    turned into the horizontal translation of the foreground by a two-point
    interpolation from [0, leftWidth] onto [-leftWidth, 0]. */
module Interpolation {

  /** Two-point linear interpolation from [in0, in1] onto [out0, out1]; inputs
      outside the domain extrapolate along the same line (no clamping). */
  function Interpolate(x: real, in0: real, in1: real, out0: real, out1: real): (y: real)
    requires in0 < in1
    ensures x == in0 ==> y == out0
    ensures x == in1 ==> y == out1
    // (x, y) lies on the line through (in0, out0) and (in1, out1)
    ensures (y - out0) * (in1 - in0) == (x - in0) * (out1 - out0)
  {
    out0 + (x - in0) * (out1 - out0) / (in1 - in0)
  }

  /** The foreground's translateX for a given drive value, once the hidden left
      panel has been measured: the map is a shift by -leftWidth. */
  function RenderOffset(drive: real, leftWidth: real): (offset: real)
    requires leftWidth > 0.0
    ensures offset == drive - leftWidth
  {
    var y := Interpolate(drive, 0.0, leftWidth, -leftWidth, 0.0);
    CancelWidth(y + leftWidth, drive, leftWidth);
    y
  }

  /** Cancelling a positive factor on both sides of an equation. */
  lemma CancelWidth(a: real, b: real, w: real)
    requires w > 0.0
    requires a * w == b * w
    ensures a == b
  {
  }

  /** Drive 0 hides the panel behind the foreground, drive leftWidth reveals it
      completely, and every drive in between lands inside [-leftWidth, 0]. */
  lemma OffsetEndpoints(leftWidth: real)
    requires leftWidth > 0.0
    ensures RenderOffset(0.0, leftWidth) == -leftWidth
    ensures RenderOffset(leftWidth, leftWidth) == 0.0
    ensures forall d :: 0.0 <= d <= leftWidth ==> -leftWidth <= RenderOffset(d, leftWidth) <= 0.0
  {
  }

  /** The offset is strictly increasing in the drive value, also outside the
      domain: a drag past leftWidth pushes the foreground past its resting place. */
  lemma OffsetMonotone(d1: real, d2: real, leftWidth: real)
    requires leftWidth > 0.0
    requires d1 < d2
    ensures RenderOffset(d1, leftWidth) < RenderOffset(d2, leftWidth)
  {
  }
}
