/** The window state of src/app.tsx: the pair (minVal, maxVal), the filter
    that keeps the result samples inside it, and the two handlers that
    either accept a new pair or leave the old one in place. */
module WindowControl {
  import opened Wrappers
  import opened Model

  const Min: real := 470000.0
  const Max: real := 698000.0
  const Step: real := 500.0
  const StepMultiplier: real := 1.0
  /** The fixed domain step per pixel of drag. */
  const DragStep: real := 5.0

  datatype Window = Window(minVal: real, maxVal: real)

  /** `defaultMinVal`/`defaultMaxVal`: the whole global range. */
  const Initial: Window := Window(Min, Max)

  predicate InWindow(f: real, w: Window)
  {
    f >= w.minVal && f <= w.maxVal
  }

  /** `data.result.filter(x => x.frequency >= minVal && x.frequency <= maxVal)`. */
  function FilterResult(result: seq<RawValue>, w: Window): (r: seq<RawValue>)
    ensures |r| <= |result|
    ensures forall x :: x in r <==> x in result && InWindow(x.frequency, w)
  {
    if result == [] then []
    else (if InWindow(result[0].frequency, w) then [result[0]] else []) + FilterResult(result[1..], w)
  }

  /** The filter keeps the original order: filtering a concatenation
      concatenates the filtered parts. */
  lemma {:induction false} FilterAppend(a: seq<RawValue>, b: seq<RawValue>, w: Window)
    ensures FilterResult(a + b, w) == FilterResult(a, w) + FilterResult(b, w)
  {
    if a == [] {
      assert a + b == b;
    } else {
      assert (a + b)[0] == a[0] && (a + b)[1..] == a[1..] + b;
      FilterAppend(a[1..], b, w);
    }
  }

  /** Samples already inside the window all survive, in place. */
  lemma {:induction false} FilterKeepsInside(s: seq<RawValue>, w: Window)
    requires forall x :: x in s ==> InWindow(x.frequency, w)
    ensures FilterResult(s, w) == s
  {
    if s != [] {
      FilterKeepsInside(s[1..], w);
    }
  }

  /** Filtering twice is filtering once. */
  lemma FilterIdempotent(s: seq<RawValue>, w: Window)
    ensures FilterResult(FilterResult(s, w), w) == FilterResult(s, w)
  {
    FilterKeepsInside(FilterResult(s, w), w);
  }

  /** The effect's `rangeData`: the filtered result beside the untouched
      occupancy. */
  function RangeData(data: Data, w: Window): (r: Data)
    ensures r.occupancy == data.occupancy
    ensures |r.result| <= |data.result|
    ensures forall x :: x in r.result <==> x in data.result && InWindow(x.frequency, w)
  {
    Data(data.occupancy, FilterResult(data.result, w))
  }

  /** handleSlider2Change accepts a pair only when it is more than
      `stepMultiplier * step` wide. */
  predicate SliderAccepts(newMin: real, newMax: real)
  {
    !(newMin + StepMultiplier * Step >= newMax)
  }

  function Slider2Change(w: Window, newMin: real, newMax: real): (r: Window)
    ensures SliderAccepts(newMin, newMax) ==> r == Window(newMin, newMax) && r.maxVal - r.minVal > 500.0
    ensures !SliderAccepts(newMin, newMax) ==> r == w
  {
    if newMin + StepMultiplier * Step >= newMax then w
    else Window(newMin, newMax)
  }

  /** handleDrag accepts a shift when the shifted bounds stay strictly
      inside the global range. */
  predicate DragAccepts(w: Window, diff: real)
  {
    !(w.minVal - diff * DragStep <= Min) && !(w.maxVal - diff * DragStep >= Max)
  }

  function Drag(w: Window, diff: real): (r: Window)
    ensures DragAccepts(w, diff) ==>
              r == Window(w.minVal - 5.0 * diff, w.maxVal - 5.0 * diff) && Min < r.minVal && r.maxVal < Max
    ensures !DragAccepts(w, diff) ==> r == w
    ensures r.maxVal - r.minVal == w.maxVal - w.minVal
  {
    var newMinVal := w.minVal - diff * DragStep;
    if newMinVal <= Min then w
    else
      var newMaxVal := w.maxVal - diff * DragStep;
      if newMaxVal >= Max then w
      else Window(newMinVal, newMaxVal)
  }

  /** From the initial full window every drag is rejected: a shift left
      reaches `Min`, a shift right reaches `Max`. */
  lemma DragFromFullWindowRejected(diff: real)
    ensures Drag(Initial, diff) == Initial
  {
  }

  /** An accepted drag is undone by the opposite drag. */
  lemma DragUndo(w: Window, diff: real)
    requires Min < w.minVal && w.maxVal < Max && DragAccepts(w, diff)
    ensures Drag(Drag(w, diff), -diff) == w
  {
  }

  /** The events the two handlers accept. */
  datatype Event = SliderMoved(newMin: real, newMax: real) | Dragged(diff: real)

  function Handle(w: Window, e: Event): Window
  {
    match e
    case SliderMoved(lo, hi) => Slider2Change(w, lo, hi)
    case Dragged(d) => Drag(w, d)
  }

  function Run(w: Window, events: seq<Event>): Window
    decreases |events|
  {
    if events == [] then w else Run(Handle(w, events[0]), events[1..])
  }

  /** Every reachable window is more than `stepMultiplier * step` wide:
      the initial window is, an accepted slider pair is, and a drag keeps
      the width. */
  lemma {:induction false} ReachableWindowsWide(w: Window, events: seq<Event>)
    requires w.maxVal - w.minVal > StepMultiplier * Step
    ensures Run(w, events).maxVal - Run(w, events).minVal > StepMultiplier * Step
    decreases |events|
  {
    if events != [] {
      ReachableWindowsWide(Handle(w, events[0]), events[1..]);
    }
  }

  lemma InitialReachableWide(events: seq<Event>)
    ensures Run(Initial, events).maxVal - Run(Initial, events).minVal > 500.0
  {
    ReachableWindowsWide(Initial, events);
  }

  /** The component's state: the two bounds and the filtered data. */
  class App {
    var minVal: real
    var maxVal: real
    var rangeData: Option<Data>

    function Current(): Window
      reads this
    {
      Window(minVal, maxVal)
    }

    constructor ()
      ensures Current() == Initial && rangeData == None
    {
      minVal, maxVal := Min, Max;
      rangeData := None;
    }

    /** The effect run whenever the data or a bound changes. */
    method RefreshRangeData(data: Data)
      modifies this`rangeData
      ensures rangeData == Some(RangeData(data, Current()))
    {
      var filtered := FilterResult(data.result, Window(minVal, maxVal));
      rangeData := Some(Data(data.occupancy, filtered));
    }

    method HandleSlider2Change(newMin: real, newMax: real)
      modifies this`minVal, this`maxVal
      ensures Current() == Slider2Change(old(Current()), newMin, newMax)
    {
      if newMin + StepMultiplier * Step >= newMax {
        return;
      }
      minVal := newMin;
      maxVal := newMax;
    }

    method HandleDrag(diff: real)
      modifies this`minVal, this`maxVal
      ensures Current() == Drag(old(Current()), diff)
    {
      var newMinVal := minVal - diff * DragStep;
      if newMinVal <= Min {
        return;
      }
      var newMaxVal := maxVal - diff * DragStep;
      if newMaxVal >= Max {
        return;
      }
      minVal := newMinVal;
      maxVal := newMaxVal;
    }
  }
}
