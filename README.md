# rfs chart geometry, modelled in Dafny

This project models the geometry and windowing layer of the rfs spectrum
viewer. The viewer draws a line series of RMS measurements over coloured
occupancy bars, inside a frequency window the user can move. The model
covers the following parts:

- **Neighbour linking** (`ChartProvider`, src/com/chart-provider.tsx). The
  bar items become a doubly linked chain of nodes. The chain is an arena:
  a sequence of nodes whose `prevIndex`/`nextIndex` hold positions in that
  sequence. The line items become `{xVal, yVal}` pairs.
- **Colour bucketing** (`ColorBuckets`, src/com/chart.tsx and its copy in
  src/BarChart.tsx). `[min, max]` is cut into buckets one stride apart.
  A value takes the colour of the first bucket that holds it, or the first
  bucket's colour if none does.
- **Segment building** (`SegmentBuilder`, `prepare_data` in
  src/com/chart.tsx). In-window nodes become rectangles. The right edge is
  clipped to the window. A synthetic rectangle is added for the band that
  straddles pixel 0.
- **Bars of the older chart** (`BarChart`, src/BarChart.tsx). Visibility
  uses a half-open window. Positions are unrounded. Widths are not clipped.
- **Hover readout** (`Hover`). The mouse position, as a domain value, is located by
  d3's bisect-left. The sample found is then looked up.
- **Window state** (`WindowControl` for src/app.tsx, `RangeSliders` for
  src/App.tsx). The inclusive result filter and the slider and drag
  handlers. app.tsx's handlers accept a new window or leave the old one.
- **Load normalisation** (`Normalisation`, src/fetch.ts and its copy in
  src/App.tsx). In one pass over the occupancy array, each bin's frequency
  is scaled from kHz to Hz, its value is rounded, and it gets a copy of
  the following bin.

Numbers from the source are `real`. `Math.round(x)` is `(x + 0.5).Floor`,
which rounds halves up as JavaScript does. The d3 linear scale is a
parameter:
- in chart.tsx it already includes `Math.round`: `px: real -> int`;
- in BarChart.tsx it is unrounded: `x: real -> real`.

Lemmas that need order assume the scale is monotone (or strictly
increasing for BarChart). The colour lookup is passed to `prepare_data` explicitly instead of being
module-level state.

Duplicated code has one Dafny definition each:
- `FilterResult` models both app.tsx:27-35 and App.tsx:50-58;
- `Normalised`/`NormaliseOccupancy` model both fetch.ts:11-22 and App.tsx:14-25;
- the bucket functions model both chart.tsx:30-50 and BarChart.tsx:29-49.

Behaviour of the code that is easy to misread:
- `x1` is not clamped at 0 (chart.tsx:79).
- The hover index is not clamped (chart.tsx:319-320). See the finding below.
- Rectangle `height` is 0 (chart.tsx:107); the drawing code sets the real
  height as an attribute.
- A drag moves the window by a fixed 5 per unit of `diff`, with no
  pixel-to-domain scaling (app.tsx:48).
- Bisect-left of 470700 into `[470000, 470500, 471000]` is 2
  (`Hover.BisectExample`).

## Model

| member | source | states |
|---|---|---|
| ChartProvider.LineData | src/com/chart-provider.tsx:37-44 | one `{xVal, yVal}` per item, same length and order, values read through the two accessors |
| ChartProvider.BuildLinkedList | src/com/chart-provider.tsx:78-115 | one node per item in order with `xVal`/`yVal` from the accessors; node i links back to i-1 and forward to i+1 where those exist, first has no prev, last no next, a single node neither, empty input gives empty output |
| ChartProvider.ChainWalk | src/com/chart-provider.tsx:92-112 | following `next` from node i visits i+1, i+2, … in input order and ends after the last node (no cycle, no skip) |
| ChartProvider.ChainLinksInverse | src/com/chart-provider.tsx:105-110 | `next` then `prev`, or `prev` then `next`, returns to the same node |
| ChartProvider.ChainLinksPositional | src/com/chart-provider.tsx:92-112 | links depend only on position: equal-length chains have equal links whatever the values |
| ColorBuckets.RoundedStride | src/com/chart.tsx:31 | `div` is `Math.round((max-min)/n)`: the nearest integer to the quotient, halves up |
| ColorBuckets.CountWithinPalette | src/com/chart.tsx:33-34 | the loop never runs more times than there are colours, so `clr[j]` is always a palette entry |
| ColorBuckets.CountBounds | src/com/chart.tsx:33 | the loop's last start is within `max`, one more stride passes `max` |
| ColorBuckets.CalculateColorRanges | src/com/chart.tsx:30-41 | the pushed buckets equal the closed form `ColorRanges` |
| ColorBuckets.ColorRangesStride | src/com/chart.tsx:30-39 | bucket k spans `[min + k(div+1), min + k(div+1) + div]` with colour `clr[k]`; neighbours abut; each starts at or below `max`; the last reaches `max`; no more buckets than colours; none when `max < min` |
| ColorBuckets.StandardRanges | src/com/chart.tsx:14-43 | `(0, 100, 7 colours)` gives exactly `[0,14], [15,29], …, [90,104]`, bucket k coloured `colors[k]` |
| ColorBuckets.FirstMatch | src/com/chart.tsx:46 | `find`: the first bucket with `minVal <= val <= maxVal`, or none when no bucket holds `val` |
| ColorBuckets.FindColor | src/com/chart.tsx:45-48 | total for a non-empty bucket list; the result is one of the buckets' colours |
| ColorBuckets.FindColorFirstMatch | src/com/chart.tsx:46-47 | the first holding bucket's colour, or the first bucket's colour when that colour is empty (falsy) |
| ColorBuckets.FindColorFallback | src/com/chart.tsx:47 | no holding bucket gives the first bucket's colour |
| ColorBuckets.ColorFinder | src/BarChart.tsx:42-49 | `color_finder_fn` always returns a palette colour |
| ColorBuckets.ColorFinderStandard | src/com/chart.tsx:43-50 | a value in `[15k, 15k+14]` gets `colors[k]`; a value in no bucket gets `colors[0]` |
| ColorBuckets.GapFallsBack | src/com/chart.tsx:33-37 | 14.5 lies in the one-unit gap between buckets and gets `colors[0]` |
| SegmentBuilder.PrepareData | src/com/chart.tsx:61-118 | the loop's output equals the closed form `Prepared`, node by node |
| SegmentBuilder.ChainWellLinked | src/com/chart-provider.tsx:92-112 | a provider-built chain meets prepare_data's needs: links in range and a `prev` on every node after the first |
| SegmentBuilder.PreparedStable | src/com/chart.tsx:64-116 | later iterations only append: a rectangle, once pushed, keeps its position in the output |
| SegmentBuilder.PreparedLength | src/com/chart.tsx:71-115 | an iteration pushes nothing for a node outside the window, two rectangles for a node crossing pixel 0, one otherwise |
| SegmentBuilder.OwnRectPlacement | src/com/chart.tsx:79-115 | each in-window node's own rectangle is in the output at `x = px(xVal)`, with `y = height = 0`, `width = abs(x2 - x1)`, its value and the colour of its value |
| SegmentBuilder.SyntheticPlacement | src/com/chart.tsx:91-105 | when the previous node maps below pixel 0 and this one above, the rectangle just before the node's own is the synthetic one: `x = 0`, `width = abs(x2)`, the previous node's value and colour |
| SegmentBuilder.OutputInInputOrder | src/com/chart.tsx:64-116 | rectangles come out in input order |
| SegmentBuilder.OutsideNodeSkipped | src/com/chart.tsx:71-76 | a node with `xVal < minX` or `xVal > maxX` emits nothing |
| SegmentBuilder.SyntheticUnique | src/com/chart.tsx:91-105 | over an ascending chain and a monotone scale at most one node emits a synthetic rectangle |
| SegmentBuilder.PreparedLengthBound | src/com/chart.tsx:64-116 | the output has at most one rectangle per node plus one |
| SegmentBuilder.RightEdgeWithinWindow | src/com/chart.tsx:80-88 | `x2` (`RightEdge`, with `next?.xVal` tested for truthiness) lies between the node's pixel and `px(maxX)`: the next node's pixel, clipped to the window, or the window edge when there is no usable next node |
| SegmentBuilder.OwnRectsAbut | src/com/chart.tsx:79-88 | neighbouring in-window rectangles touch, with no gap, when the next `xVal` is non-zero |
| SegmentBuilder.LastRectReachesEdge | src/com/chart.tsx:80-88 | the last band reaches `px(maxX)` when the next node is missing, lies past `maxX`, or has `xVal` 0 |
| SegmentBuilder.NegativeOriginKept | src/com/chart.tsx:79-114 | `x1` is not clamped: an in-window node left of pixel 0 yields a negative `x`; with the standard buckets a value of 20 is coloured `colors[1]` |
| SegmentBuilder.TwoBinScenario | src/com/chart.tsx:61-118 | bins 470000 and 471000 in window `[470000, 471500]` give two abutting rectangles, the second reaching `px(471500)` |
| Hover.BisectLeft | src/com/chart.tsx:319 | the returned index is the insertion point: entries before it are below the query, entries from it on are not |
| Hover.InsertionPointUnique | src/com/chart.tsx:319 | the insertion point is unique |
| Hover.InsertionPointPastEnd | src/com/chart.tsx:319-320 | the index equals the length exactly when the query is above every sample |
| Hover.BisectExample | src/BarChart.tsx:231 | bisect-left of 470700 into `[470000, 470500, 471000]` is 2 |
| Hover.XValues | src/com/chart.tsx:137 | `x_values` lists the line nodes' `xVal`s in order |
| Hover.LineHoverIndex | src/com/chart.tsx:310-319 | the hover index is the insertion point of `x0` among the line series' `xVal`s |
| Hover.FirstWithX | src/com/chart.tsx:322 | the first node whose `xVal` equals the selected frequency |
| Hover.LineReadoutAtIndex | src/com/chart.tsx:319-324 | the readout (`LineReadout`, the node `filter(...)[0]` finds for `x_values[i]`) is the sample at the bisect index, and there is none when the index is the length |
| Hover.Frequencies | src/BarChart.tsx:61 | `arrFreq` lists the result frequencies in order |
| Hover.BarHoverIndex | src/BarChart.tsx:214-231 | the hover index is the insertion point of `x0` in `arrFreq` |
| Hover.FirstWithFrequency | src/BarChart.tsx:236 | the first result sample at the selected frequency |
| Hover.BarReadoutThrowsPastLastSample | src/BarChart.tsx:234-240 | as written (`BarReadoutAsWritten`, the unguarded `xs[0].rms`), a query above every sample gives an index past the end and the readout throws |
| Hover.BarReadoutThrowsOnEmpty | src/BarChart.tsx:234-240 | as written, hovering over an empty result throws |
| Hover.BarReadoutDefined | src/BarChart.tsx:231-240 | with the index clamped, a non-empty series always shows a sample: the one at the index, or the last one |
| WindowControl.FilterResult | src/app.tsx:28-30 | keeps exactly the samples with `minVal <= frequency <= maxVal` |
| WindowControl.FilterAppend | src/app.tsx:28-30 | the filter keeps the original order |
| WindowControl.FilterKeepsInside | src/App.tsx:51-53 | samples already inside the window all survive, in place |
| WindowControl.FilterIdempotent | src/App.tsx:50-58 | filtering the filtered data changes nothing |
| WindowControl.RangeData | src/app.tsx:27-35 | `rangeData` holds the filtered result and the untouched occupancy |
| WindowControl.Slider2Change | src/app.tsx:37-45 | rejects, changing neither bound, when `_min + 500 >= _max`; otherwise sets both, and the window is then more than 500 wide |
| WindowControl.Drag | src/app.tsx:47-59 | shifts both bounds by `-5 * diff` or changes nothing; rejects when `newMin <= 470000` or `newMax >= 698000`; keeps the width; after an accepted drag `470000 < minVal` and `maxVal < 698000` |
| WindowControl.DragFromFullWindowRejected | src/app.tsx:22-25 | from the initial window `[470000, 698000]` every drag is rejected |
| WindowControl.DragUndo | src/app.tsx:47-59 | an accepted drag inside the range is undone by the opposite drag |
| WindowControl.ReachableWindowsWide | src/app.tsx:37-59 | slider and drag events keep the window more than 500 wide |
| WindowControl.InitialReachableWide | src/app.tsx:19-25 | every window reachable from the initial one is more than 500 wide |
| WindowControl.App.constructor | src/app.tsx:19-25 | the initial window is `[470000, 698000]` with no range data yet |
| WindowControl.App.RefreshRangeData | src/app.tsx:27-35 | the effect stores the filtered data for the current window |
| WindowControl.App.HandleSlider2Change | src/app.tsx:37-45 | the state becomes `Slider2Change` of the old state |
| WindowControl.App.HandleDrag | src/app.tsx:47-59 | the state becomes `Drag` of the old state |
| RangeSliders.Apply | src/App.tsx:80-99 | each handler sets its bound to the reported value and leaves the other bound |
| RangeSliders.InitialValid | src/App.tsx:39-48 | the initial window `[470000, 480000]` lies in the range and is exactly `gap` wide |
| RangeSliders.LimitedMovesKeepValid | src/App.tsx:74-99 | values within the inputs' limits keep `min <= minVal`, `maxVal <= max` and `maxVal - minVal >= gap` |
| RangeSliders.HandlersUnchecked | src/App.tsx:80-82 | the handlers check nothing: a value outside the limits is stored and breaks the gap |
| RangeSliders.Sliders.constructor | src/App.tsx:45-48 | the state starts at `[min, min + gap]` |
| RangeSliders.Sliders.OnMinChange | src/App.tsx:80-82 | assigns the min bound |
| RangeSliders.Sliders.OnMaxChange | src/App.tsx:97-99 | assigns the max bound |
| Normalisation.Round | src/fetch.ts:14 | `Math.round`: within one half of its argument, halves up |
| Normalisation.NormaliseOccupancy | src/fetch.ts:11-22 | the array afterwards equals `Normalised` of the array before |
| Normalisation.NormalisedBin | src/fetch.ts:11-21 | length kept; frequency times 1000; value rounded; every bin but the last gets a copy of its successor with the successor's final frequency, raw value and original `next`; the last bin's `next` is untouched |
| Normalisation.CopyKeepsRawValue | src/fetch.ts:14-20 | the copy carries the successor's unrounded value (89.6 while the successor becomes 90) |
| Normalisation.NormalisedEmpty | src/App.tsx:14-25 | an empty occupancy array is left as it is |
| BarChart.Bars | src/BarChart.tsx:133-137 | one rectangle per occupancy bin |
| BarChart.BarAttributes | src/BarChart.tsx:138-162 | each bar (`Bar`) has fill and stroke both `find_color(value)`; is visible exactly when `minX <= frequency < maxX` (`Hidden` is the `visibility` callback); has `x` at the unrounded scale position; and has the width of the `width` callback (`BarWidth`) |
| BarChart.BarEnd | src/BarChart.tsx:152-162 | a bar ends at the next bin's position when that bin's frequency is truthy, and at `x(maxX)` when there is no next bin or its frequency is 0 |
| BarChart.WindowEdgeDiffers | src/BarChart.tsx:144-149 | a bin exactly at `maxX` is hidden here (`Hidden`) but drawn by chart.tsx's closed window |
| BarChart.NormalisedBarsAbut | src/BarChart.tsx:150-162 | after the load loop, bar i ends where bar i+1 starts |
| BarChart.VisibleBarPositive | src/BarChart.tsx:152-162 | a visible bar has positive width when the next bin lies above it |
| BarChart.WidthNotClipped | src/BarChart.tsx:155-157 | the width is not clipped to `maxX`: a next bin past the window overshoots the edge |
| BarChart.NegativeWidthPastWindow | src/BarChart.tsx:158-161 | the width is not made non-negative: a last bin right of `maxX` gets a negative width |

## Left out

- The d3 scale arithmetic (`scaleLinear`, `invert`) is floating point. The scale is a parameter, and the inverted mouse position `x0` is an input.
- Scale domains built from `d3.extent` are not modelled, so neither is the degenerate-domain case (the code has no special case for it).
- Drawing is not modelled: svg selection, axes, tick formatting, the line path, the circle and the tooltip text.
- The brush and the commented-out drag handlers only log, so they are left out.
- No drag event reaches `handleDrag`: app.tsx passes it as `onDrag` to `Chart`, but `Chart` declares no such prop and never calls it. `WindowControl.Drag` models the handler as written, and `WindowControl.ReachableWindowsWide` covers drag events that this code never sends.
- The unused `nearest_x1` bisector of BarChart.tsx:226-230 only logs each comparison with `console.log`, so it is left out.
- `fetch`, promises and JSON decoding are network I/O. The load loop takes the decoded occupancy array as input.
- React state, effects and context are not modelled. Setters are field assignments in `WindowControl.App` and `RangeSliders.Sliders`; the effect is a method that is called explicitly.
- React's scheduling of re-renders is not modelled.
- The range inputs' `step` snapping to multiples of 100 is not modelled. `RangeSliders.LimitedMovesKeepValid` takes the reported values as already inside the inputs' limits.
- NaN and infinities are not modelled. In particular, the truthiness test on `next.xVal` and `next.frequency` is modelled as "non-zero".
- NormaliseOccupancy: the bins are values in an array, updated in place. Object identity and aliasing between bins are not modelled; the copy is a separate value, as a spread copy is.
- ColorBuckets.CalculateColorRanges: requires a non-empty palette. With an empty one the stride is `(max - min) / 0`, which is Infinity in JavaScript (NaN when `max == min`), and, when `min <= max`, the loop pushes one bucket whose colour is `undefined`; the model has no such values. Bucket bounds are integers, because the only call passes 0 and 100.
- prepare_data reads the module-level `color_finder_fn`. The model passes the colour lookup to `SegmentBuilder.PrepareData` as a parameter, and `ColorBuckets.ColorFinder` is what the chart passes.
- ColorBuckets.FindColor: requires a non-empty bucket list, because `clr_ranges[0].color` throws on an empty one.
- SegmentBuilder.PrepareData: requires every link in range and a `prev` on every node after the first. This is more than the code needs: `prev!` is read only for nodes inside the window, because chart.tsx:71-76 skips the others first. The provider's chain always satisfies the stronger requirement (`SegmentBuilder.ChainWellLinked`).
- Hover.BisectLeft: requires an ascending series, which is d3's own precondition.
- src/com/canvas.tsx, src/com/slider.tsx and src/com/slider3.tsx are not part of this model. They hold UI wiring and logging only.

## Findings

| source | as written | input that shows it | evidently intended | confidence | as-written member | corrected member |
|---|---|---|---|---|---|---|
| src/BarChart.tsx:231-240 | the bisect-left index is used unclamped, and `xs[0].rms` is read without a guard | hover while `data.result` is empty (before the data arrives, or when the window holds no sample), or with `x0` above every frequency: the index equals `arrFreq.length`, `xs` is empty, and reading `.rms` throws | clamp the index to the last sample and show nothing for an empty series | medium, not executed | Hover.BarReadoutThrowsPastLastSample | Hover.BarReadoutDefined |
