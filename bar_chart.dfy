/** The per-bar callbacks of src/BarChart.tsx: one rectangle per
    occupancy bin, hidden outside a half-open window, placed at the
    unrounded scale position and as wide as the distance to the next bin.
    The d3 scale is the parameter `x`. */
module BarChart {
  import opened Model
  import opened ColorBuckets
  import SegmentBuilder
  import Normalisation

  datatype BarRect = BarRect(fill: string, stroke: string, visible: bool, x: real, y: real, width: real)

  ghost predicate StrictlyIncreasing(x: real -> real)
  {
    forall a: real, b: real :: a < b ==> x(a) < x(b)
  }

  /** The `visibility` callback. */
  predicate Hidden(d: Occupancy, minX: real, maxX: real)
  {
    d.frequency < minX || d.frequency >= maxX
  }

  /** The `width` callback: up to the next bin when its frequency is
      truthy (non-zero), else up to `maxX`; neither clipped nor made
      non-negative. */
  function BarWidth(d: Occupancy, maxX: real, x: real -> real): real
  {
    if d.next.Some? && d.next.value.frequency != 0.0 then x(d.next.value.frequency) - x(d.frequency)
    else x(maxX) - x(d.frequency)
  }

  function Bar(d: Occupancy, minX: real, maxX: real, x: real -> real): BarRect
  {
    BarRect(ColorFinder(d.value), ColorFinder(d.value), !Hidden(d, minX, maxX), x(d.frequency), 0.0, BarWidth(d, maxX, x))
  }

  /** The data join: one rectangle per bin, in order. */
  function Bars(occupancy: seq<Occupancy>, minX: real, maxX: real, x: real -> real): (r: seq<BarRect>)
    ensures |r| == |occupancy|
  {
    seq(|occupancy|, i requires 0 <= i < |occupancy| => Bar(occupancy[i], minX, maxX, x))
  }

  /** Fill and stroke are the same palette colour, chosen by the bin's
      value; a bar is visible exactly inside `[minX, maxX)`. */
  lemma BarAttributes(occupancy: seq<Occupancy>, i: nat, minX: real, maxX: real, x: real -> real)
    requires i < |occupancy|
    ensures var b := Bars(occupancy, minX, maxX, x)[i];
      && b.fill == b.stroke == ColorFinder(occupancy[i].value) && b.fill in Colors
      && (b.visible <==> minX <= occupancy[i].frequency < maxX)
      && b.x == x(occupancy[i].frequency)
      && b.width == BarWidth(occupancy[i], maxX, x)
  {
  }

  /** Where bar `i` ends: at the next bin's position when that bin's
      frequency is truthy, and at `x(maxX)` when there is no next bin or
      its frequency is 0. */
  lemma BarEnd(occupancy: seq<Occupancy>, i: nat, minX: real, maxX: real, x: real -> real)
    requires i < |occupancy|
    ensures var b := Bars(occupancy, minX, maxX, x)[i];
      var next := occupancy[i].next;
      && (next.Some? && next.value.frequency != 0.0 ==> b.x + b.width == x(next.value.frequency))
      && (next.None? || next.value.frequency == 0.0 ==> b.x + b.width == x(maxX))
  {
  }

  /** A bin exactly at `maxX` is hidden here, while prepare_data in
      chart.tsx, with its closed window, draws a node there. */
  lemma WindowEdgeDiffers(d: Occupancy, minX: real, maxX: real)
    requires minX <= maxX && d.frequency == maxX
    ensures Hidden(d, minX, maxX)
    ensures !SegmentBuilder.Outside(d.frequency, minX, maxX)
  {
  }

  /** After the load loop, neighbouring bars abut: bar `i` ends where bar
      `i + 1` starts, provided that bin's frequency is non-zero. */
  lemma NormalisedBarsAbut(raw: seq<Occupancy>, i: nat, minX: real, maxX: real, x: real -> real)
    requires i + 1 < |raw| && raw[i + 1].frequency != 0.0
    ensures var bars := Bars(Normalisation.Normalised(raw), minX, maxX, x);
      bars[i].x + bars[i].width == bars[i + 1].x
  {
    Normalisation.NormalisedBin(raw, i);
  }

  /** A visible bar whose next bin lies above it has positive width. */
  lemma VisibleBarPositive(d: Occupancy, minX: real, maxX: real, x: real -> real)
    requires StrictlyIncreasing(x) && !Hidden(d, minX, maxX)
    requires d.next.Some? ==> d.next.value.frequency > d.frequency
    ensures BarWidth(d, maxX, x) > 0.0
  {
    if d.next.Some? && d.next.value.frequency != 0.0 {
      assert x(d.frequency) < x(d.next.value.frequency);
    } else {
      assert x(d.frequency) < x(maxX);
    }
  }

  /** Unlike chart.tsx, the width is not clipped: a bar whose next bin lies
      past `maxX` overshoots the window edge. */
  lemma WidthNotClipped(d: Occupancy, maxX: real, x: real -> real)
    requires StrictlyIncreasing(x)
    requires d.next.Some? && d.next.value.frequency > maxX && d.next.value.frequency != 0.0
    ensures x(d.frequency) + BarWidth(d, maxX, x) > x(maxX)
  {
    assert x(maxX) < x(d.next.value.frequency);
  }

  /** Nor is it made non-negative: a last bin right of `maxX` gets a
      negative width (it is hidden). */
  lemma NegativeWidthPastWindow(d: Occupancy, minX: real, maxX: real, x: real -> real)
    requires StrictlyIncreasing(x) && d.next.None? && d.frequency > maxX
    ensures BarWidth(d, maxX, x) < 0.0 && Hidden(d, minX, maxX)
  {
    assert x(maxX) < x(d.frequency);
  }
}
