/** The hover readout of src/com/chart.tsx and src/BarChart.tsx: the
    mouse position, already inverted to a domain value `x0`, is located among the
    sample frequencies by d3's bisect-left, and the sample found is shown.
    The inversion `x.invert(posX)` is floating point and is left to the
    caller. */
module Hover {
  import opened Wrappers
  import opened Model
  import opened ChartData

  ghost predicate Sorted(xs: seq<real>)
  {
    forall i, j :: 0 <= i < j < |xs| ==> xs[i] <= xs[j]
  }

  /** `i` is where `q` would be inserted to the left of any equal entry:
      everything before is below `q`, everything from `i` on is at least `q`. */
  ghost predicate IsInsertionPoint(xs: seq<real>, q: real, i: int)
  {
    && 0 <= i <= |xs|
    && (forall j :: 0 <= j < i ==> xs[j] < q)
    && (forall j :: i <= j < |xs| ==> q <= xs[j])
  }

  /** d3.bisectLeft over an ascending array. */
  method BisectLeft(xs: seq<real>, q: real) returns (lo: nat)
    requires Sorted(xs)
    ensures IsInsertionPoint(xs, q, lo)
  {
    lo := 0;
    var hi := |xs|;
    while lo < hi
      invariant 0 <= lo <= hi <= |xs|
      invariant forall j :: 0 <= j < lo ==> xs[j] < q
      invariant forall j :: hi <= j < |xs| ==> q <= xs[j]
    {
      var mid := (lo + hi) / 2;
      if xs[mid] < q {
        lo := mid + 1;
      } else {
        hi := mid;
      }
    }
  }

  /** There is one insertion point: the bisect result is determined. */
  lemma InsertionPointUnique(xs: seq<real>, q: real, i: int, k: int)
    requires IsInsertionPoint(xs, q, i) && IsInsertionPoint(xs, q, k)
    ensures i == k
  {
    // bring both candidate entries into view; each contradicts the other bound
    ghost var atI := if 0 <= i < |xs| then xs[i] else q;
    ghost var atK := if 0 <= k < |xs| then xs[k] else q;
  }

  /** The index is not clamped: it equals the length exactly when the
      query lies above every sample, an empty series included. */
  lemma InsertionPointPastEnd(xs: seq<real>, q: real, i: int)
    requires IsInsertionPoint(xs, q, i)
    ensures i == |xs| <==> forall j :: 0 <= j < |xs| ==> xs[j] < q
  {
    ghost var atI := if 0 <= i < |xs| then xs[i] else q;
  }

  /** Bisect-left of 470700 into [470000, 470500, 471000] is 2, the index
      of the first sample not below the query. */
  lemma BisectExample(i: int)
    requires IsInsertionPoint([470000.0, 470500.0, 471000.0], 470700.0, i)
    ensures i == 2
  {
    InsertionPointUnique([470000.0, 470500.0, 471000.0], 470700.0, i, 2);
  }

  function XValues(line: seq<LineDataNode>): (xs: seq<real>)
    ensures |xs| == |line| && forall j :: 0 <= j < |line| ==> xs[j] == line[j].xVal
  {
    seq(|line|, j requires 0 <= j < |line| => line[j].xVal)
  }

  /** handleMouseMove of chart.tsx: bisect-left of `x0` into the line
      series' `xVal`s. */
  method LineHoverIndex(line: seq<LineDataNode>, x0: real) returns (nearest: nat)
    requires Sorted(XValues(line))
    ensures IsInsertionPoint(XValues(line), x0, nearest)
  {
    nearest := BisectLeft(XValues(line), x0);
  }

  /** `lineData.filter(x => x.xVal === f)[0]`: the first node at frequency `f`. */
  function FirstWithX(line: seq<LineDataNode>, f: real): (r: Option<nat>)
    ensures r.Some? ==> (r.value < |line| && line[r.value].xVal == f
                         && forall j :: 0 <= j < r.value ==> line[j].xVal != f)
    ensures r.None? ==> forall j :: 0 <= j < |line| ==> line[j].xVal != f
  {
    if line == [] then None
    else if line[0].xVal == f then Some(0)
    else match FirstWithX(line[1..], f)
      case None => None
      case Some(k) => Some(k + 1)
  }

  /** The node chart.tsx shows for index `i`. `x_values[i]` is undefined
      past the end and no node's `xVal` is `===` undefined, so there is no
      node to show; the `?.` accesses then print "undefined". */
  function LineReadout(line: seq<LineDataNode>, i: nat): Option<LineDataNode>
  {
    if i < |line| then
      match FirstWithX(line, line[i].xVal)
      case Some(k) => Some(line[k])
      case None => None
    else None
  }

  /** The readout is the sample at the bisect index itself: any earlier
      sample lies below `x0` and so has a different frequency. */
  lemma LineReadoutAtIndex(line: seq<LineDataNode>, x0: real, i: nat)
    requires IsInsertionPoint(XValues(line), x0, i)
    ensures i < |line| ==> LineReadout(line, i) == Some(line[i])
    ensures i == |line| ==> LineReadout(line, i) == None
  {
    if i < |line| {
      assert forall j :: 0 <= j < i ==> line[j].xVal < x0 <= line[i].xVal;
    }
  }

  /** `arrFreq`: the result frequencies in order. */
  function Frequencies(result: seq<RawValue>): (fs: seq<real>)
    ensures |fs| == |result| && forall j :: 0 <= j < |result| ==> fs[j] == result[j].frequency
  {
    seq(|result|, j requires 0 <= j < |result| => result[j].frequency)
  }

  /** handleMouseMove of BarChart.tsx: bisect-left of `x0` into `arrFreq`. */
  method BarHoverIndex(result: seq<RawValue>, x0: real) returns (nearest: nat)
    requires Sorted(Frequencies(result))
    ensures IsInsertionPoint(Frequencies(result), x0, nearest)
  {
    nearest := BisectLeft(Frequencies(result), x0);
  }

  function FirstWithFrequency(result: seq<RawValue>, f: real): (r: Option<nat>)
    ensures r.Some? ==> (r.value < |result| && result[r.value].frequency == f
                         && forall j :: 0 <= j < r.value ==> result[j].frequency != f)
    ensures r.None? ==> forall j :: 0 <= j < |result| ==> result[j].frequency != f
  {
    if result == [] then None
    else if result[0].frequency == f then Some(0)
    else match FirstWithFrequency(result[1..], f)
      case None => None
      case Some(k) => Some(k + 1)
  }

  datatype HoverError = TypeError

  /** The sample BarChart.tsx shows for index `i`, as written: it reads
      `xs[0].rms` with no guard, so when the index is past the end `xs` is
      empty and the read throws. */
  function BarReadoutAsWritten(result: seq<RawValue>, i: nat): Result<RawValue, HoverError>
  {
    if i < |result| then
      match FirstWithFrequency(result, result[i].frequency)
      case Some(k) => Ok(result[k])
      case None => Err(TypeError)
    else Err(TypeError)
  }

  /** Hovering over an empty series (before the data arrives, or when the
      window holds no sample), or right of the last sample, throws. */
  lemma BarReadoutThrowsPastLastSample(result: seq<RawValue>, x0: real, i: nat)
    requires IsInsertionPoint(Frequencies(result), x0, i)
    requires forall j :: 0 <= j < |result| ==> result[j].frequency < x0
    ensures BarReadoutAsWritten(result, i) == Err(TypeError)
  {
    InsertionPointPastEnd(Frequencies(result), x0, i);
  }

  lemma BarReadoutThrowsOnEmpty(x0: real, i: nat)
    requires IsInsertionPoint(Frequencies([]), x0, i)
    ensures BarReadoutAsWritten([], i) == Err(TypeError)
  {
  }

  /** The readout with the index clamped to the last sample, and no
      readout for an empty series. */
  function BarReadout(result: seq<RawValue>, i: nat): Option<RawValue>
  {
    if result == [] then None
    else
      var c := if i < |result| then i else |result| - 1;
      match FirstWithFrequency(result, result[c].frequency)
      case Some(k) => Some(result[k])
      case None => None
  }

  /** With the clamp, every hover over a non-empty series shows a sample:
      the first one not below `x0`, or the last one when `x0` is above all. */
  lemma BarReadoutDefined(result: seq<RawValue>, x0: real, i: nat)
    requires IsInsertionPoint(Frequencies(result), x0, i)
    ensures result == [] <==> BarReadout(result, i).None?
    ensures i < |result| ==> BarReadout(result, i) == Some(result[i])
    ensures 0 < |result| == i ==> BarReadout(result, i).value.frequency == result[|result| - 1].frequency
  {
    if i < |result| {
      assert forall j :: 0 <= j < i ==> result[j].frequency < x0 <= result[i].frequency;
    }
  }
}
