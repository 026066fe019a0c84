/** The window state of src/App.tsx: the same inclusive filter, a window
    starting `gap` wide, and two range inputs whose limits keep the bounds
    `gap` apart. The `onChange` handlers assign without a check; the
    limits are enforced by the range inputs, which only report values
    inside `[min, max]` of their own. */
module RangeSliders {
  import opened WindowControl

  const Gap: real := 10000.0

  const InitialWindow: Window := Window(Min, Min + Gap)

  ghost predicate Valid(w: Window)
  {
    Min <= w.minVal && w.maxVal <= Max && w.maxVal - w.minVal >= Gap
  }

  /** The `min`/`max` attributes of the two range inputs. */
  predicate InMinSliderLimits(w: Window, v: real)
  {
    Min <= v <= w.maxVal - Gap
  }

  predicate InMaxSliderLimits(w: Window, v: real)
  {
    w.minVal + Gap <= v <= Max
  }

  datatype Move = MinMoved(v: real) | MaxMoved(v: real)

  /** What the two handlers do: assign the reported value, unchecked. */
  function Apply(w: Window, m: Move): (r: Window)
    ensures m.MinMoved? ==> r.minVal == m.v && r.maxVal == w.maxVal
    ensures m.MaxMoved? ==> r.maxVal == m.v && r.minVal == w.minVal
  {
    match m
    case MinMoved(v) => w.(minVal := v)
    case MaxMoved(v) => w.(maxVal := v)
  }

  predicate WithinLimits(w: Window, m: Move)
  {
    match m
    case MinMoved(v) => InMinSliderLimits(w, v)
    case MaxMoved(v) => InMaxSliderLimits(w, v)
  }

  function Run(w: Window, moves: seq<Move>): Window
    decreases |moves|
  {
    if moves == [] then w else Run(Apply(w, moves[0]), moves[1..])
  }

  /** Each move reported inside the limits the inputs show at that moment. */
  predicate AllWithinLimits(w: Window, moves: seq<Move>)
    decreases |moves|
  {
    moves == [] || (WithinLimits(w, moves[0]) && AllWithinLimits(Apply(w, moves[0]), moves[1..]))
  }

  /** The initial window lies in the global range and is exactly `gap` wide. */
  lemma InitialValid()
    ensures Valid(InitialWindow) && InitialWindow.maxVal - InitialWindow.minVal == Gap
  {
  }

  /** Moves inside the inputs' limits keep `min <= minVal`,
      `maxVal <= max` and `maxVal - minVal >= gap`. */
  lemma {:induction false} LimitedMovesKeepValid(w: Window, moves: seq<Move>)
    requires Valid(w) && AllWithinLimits(w, moves)
    ensures Valid(Run(w, moves))
    decreases |moves|
  {
    if moves != [] {
      LimitedMovesKeepValid(Apply(w, moves[0]), moves[1..]);
    }
  }

  /** The handlers themselves check nothing: a value outside the limits
      is stored and breaks the gap. */
  lemma HandlersUnchecked()
    ensures !Valid(Apply(InitialWindow, MinMoved(Min + Gap)))
  {
  }

  /** The component's state with its two handlers. */
  class Sliders {
    var minVal: real
    var maxVal: real

    function Current(): Window
      reads this
    {
      Window(minVal, maxVal)
    }

    constructor ()
      ensures Current() == InitialWindow
    {
      minVal := Min;
      maxVal := Min + Gap;
    }

    method OnMinChange(v: real)
      modifies this`minVal
      ensures Current() == Apply(old(Current()), MinMoved(v))
    {
      minVal := v;
    }

    method OnMaxChange(v: real)
      modifies this`maxVal
      ensures Current() == Apply(old(Current()), MaxMoved(v))
    {
      maxVal := v;
    }
  }
}
