/** prepare_data of src/com/chart.tsx: turns the linked bar nodes and the
    window `[minX, maxX]` into rectangles. The d3 scale followed by
    `Math.round` is the parameter `px`, a map from domain values to whole
    pixels; the colour lookup is the parameter `colour`. */
module SegmentBuilder {
  import opened Wrappers
  import opened ChartData
  import opened ColorBuckets

  datatype RectData = RectData(x: int, y: int, width: int, height: int, value: real, clr: string)

  function Abs(v: int): (r: nat)
    ensures r == v || r == -v
  {
    if v < 0 then -v else v
  }

  /** Every link points into the arena, and every node after the first has
      a `prev` (prepare_data dereferences `prev!` for them). */
  ghost predicate WellLinked(nodes: seq<BarDataNode>)
  {
    forall i :: 0 <= i < |nodes| ==>
      && (nodes[i].nextIndex.Some? ==> nodes[i].nextIndex.value < |nodes|)
      && (nodes[i].prevIndex.Some? ==> nodes[i].prevIndex.value < |nodes|)
      && (i >= 1 ==> nodes[i].prevIndex.Some?)
  }

  /** Nodes ordered by ascending `xVal`, as the payload is. */
  ghost predicate Ascending(nodes: seq<BarDataNode>)
  {
    forall i, j :: 0 <= i < j < |nodes| ==> nodes[i].xVal <= nodes[j].xVal
  }

  /** A rounded linear scale with a positive slope never decreases. */
  ghost predicate Monotone(px: real -> int)
  {
    forall a: real, b: real :: a <= b ==> px(a) <= px(b)
  }

  /** The two `continue` tests at the top of the loop. */
  predicate Outside(v: real, minX: real, maxX: real)
  {
    v > maxX || v < minX
  }

  /** `x2`: the next node's pixel when its `xVal` is truthy (non-zero),
      replaced by the window edge when that node lies past `maxX`; the
      window edge when there is no next node or its `xVal` is 0. */
  function RightEdge(nodes: seq<BarDataNode>, i: nat, maxX: real, px: real -> int): int
    requires WellLinked(nodes) && i < |nodes|
  {
    match nodes[i].nextIndex
    case Some(n) =>
      if nodes[n].xVal != 0.0 then
        if nodes[n].xVal > maxX then px(maxX) else px(nodes[n].xVal)
      else px(maxX)
    case None => px(maxX)
  }

  /** The node's own rectangle, from `x1` to `x2`. */
  function OwnRect(nodes: seq<BarDataNode>, i: nat, maxX: real, px: real -> int, colour: real -> string): RectData
    requires WellLinked(nodes) && i < |nodes|
  {
    var x1 := px(nodes[i].xVal);
    RectData(x1, 0, Abs(RightEdge(nodes, i, maxX, px) - x1), 0, nodes[i].yVal, colour(nodes[i].yVal))
  }

  /** The previous node maps left of pixel 0 while this one maps right of it. */
  predicate HasSynthetic(nodes: seq<BarDataNode>, i: nat, px: real -> int)
    requires WellLinked(nodes) && i < |nodes|
  {
    i >= 1 && px(nodes[nodes[i].prevIndex.value].xVal) < 0 && px(nodes[i].xVal) > 0
  }

  /** The band that straddles the left edge: from pixel 0, `|x2|` wide,
      carrying the previous node's value and colour. */
  function SyntheticRect(nodes: seq<BarDataNode>, i: nat, maxX: real, px: real -> int, colour: real -> string): RectData
    requires WellLinked(nodes) && 1 <= i < |nodes|
  {
    var prev := nodes[nodes[i].prevIndex.value];
    RectData(0, 0, Abs(RightEdge(nodes, i, maxX, px)), 0, prev.yVal, colour(prev.yVal))
  }

  /** What one iteration of the loop pushes for node `i`. */
  function NodeRects(nodes: seq<BarDataNode>, i: nat, maxX: real, minX: real, px: real -> int, colour: real -> string): seq<RectData>
    requires WellLinked(nodes) && i < |nodes|
  {
    if Outside(nodes[i].xVal, minX, maxX) then []
    else if HasSynthetic(nodes, i, px) then [SyntheticRect(nodes, i, maxX, px, colour), OwnRect(nodes, i, maxX, px, colour)]
    else [OwnRect(nodes, i, maxX, px, colour)]
  }

  /** What each iteration pushes, as a function of the iteration. */
  function Steps(nodes: seq<BarDataNode>, maxX: real, minX: real, px: real -> int, colour: real -> string): nat -> seq<RectData>
    requires WellLinked(nodes)
  {
    (i: nat) => if i < |nodes| then NodeRects(nodes, i, maxX, minX, px, colour) else []
  }

  /** The pushes of the first `k` iterations, one after another. */
  function Concat(f: nat -> seq<RectData>, k: nat): seq<RectData>
  {
    if k == 0 then [] else Concat(f, k - 1) + f(k - 1)
  }

  /** A push stays where it is when later iterations push more. */
  lemma {:induction false} ConcatStable(f: nat -> seq<RectData>, k: nat, m: nat, idx: nat)
    requires k <= m && idx < |Concat(f, k)|
    ensures idx < |Concat(f, m)| && Concat(f, m)[idx] == Concat(f, k)[idx]
    decreases m
  {
    if k < m {
      ConcatStable(f, k, m - 1, idx);
    }
  }

  /** The output after the first `k` iterations. */
  function PreparedUpTo(nodes: seq<BarDataNode>, k: nat, maxX: real, minX: real, px: real -> int, colour: real -> string): seq<RectData>
    requires WellLinked(nodes) && k <= |nodes|
  {
    Concat(Steps(nodes, maxX, minX, px, colour), k)
  }

  /** One iteration appends what node `k` pushes. */
  lemma PreparedStep(nodes: seq<BarDataNode>, k: nat, maxX: real, minX: real, px: real -> int, colour: real -> string)
    requires WellLinked(nodes) && k < |nodes|
    ensures PreparedUpTo(nodes, k + 1, maxX, minX, px, colour)
         == PreparedUpTo(nodes, k, maxX, minX, px, colour) + NodeRects(nodes, k, maxX, minX, px, colour)
  {
  }

  function Prepared(nodes: seq<BarDataNode>, maxX: real, minX: real, px: real -> int, colour: real -> string): seq<RectData>
    requires WellLinked(nodes)
  {
    PreparedUpTo(nodes, |nodes|, maxX, minX, px, colour)
  }

  /** prepare_data. The colour lookup `color_finder_fn` is the parameter
      `colour`; the chart passes `ColorFinder`. */
  method PrepareData(barData: seq<BarDataNode>, maxX: real, minX: real, x: real -> int, colour: real -> string)
    returns (arr: seq<RectData>)
    requires WellLinked(barData)
    ensures arr == Prepared(barData, maxX, minX, x, colour)
  {
    arr := [];
    for i := 0 to |barData|
      invariant arr == PreparedUpTo(barData, i, maxX, minX, x, colour)
    {
      var current := barData[i];
      var y1 := 0;
      var x1, x2 := 0, 0;
      if current.xVal > maxX {
        PreparedStep(barData, i, maxX, minX, x, colour);
        continue;
      }
      if current.xVal < minX {
        PreparedStep(barData, i, maxX, minX, x, colour);
        continue;
      }
      if current.xVal >= minX && current.xVal <= maxX {
        x1 := x(current.xVal);
        if current.nextIndex.Some? && barData[current.nextIndex.value].xVal != 0.0 {
          var next := barData[current.nextIndex.value];
          x2 := x(next.xVal);
          if next.xVal > maxX {
            x2 := x(maxX);
          }
        } else {
          // last
          x2 := x(maxX);
        }
      }
      assert x2 == RightEdge(barData, i, maxX, x);
      ghost var before := arr;
      ghost var crossed := false;
      if i >= 1 {
        var prev := barData[current.prevIndex.value];
        var x0 := x(prev.xVal);
        if x0 < 0 && x1 > 0 {
          var synthetic := RectData(0, y1, Abs(x2), y1, prev.yVal, colour(prev.yVal));
          assert synthetic == SyntheticRect(barData, i, maxX, x, colour);
          arr := arr + [synthetic];
          crossed := true;
        }
      }
      assert crossed == HasSynthetic(barData, i, x);
      var own := RectData(x1, y1, Abs(x2 - x1), y1, current.yVal, colour(current.yVal));
      assert own == OwnRect(barData, i, maxX, x, colour);
      arr := arr + [own];
      PreparedStep(barData, i, maxX, minX, x, colour);
      assert arr == before + NodeRects(barData, i, maxX, minX, x, colour);
    }
  }

  /** A chain built by the provider satisfies what prepare_data needs. */
  lemma ChainWellLinked(nodes: seq<BarDataNode>)
    requires IsChain(nodes)
    ensures WellLinked(nodes)
  {
  }

  /** Later iterations only append: a rectangle pushed by the first `k`
      iterations stays where it is after `m >= k` iterations. */
  lemma PreparedStable(nodes: seq<BarDataNode>, k: nat, m: nat, idx: nat, maxX: real, minX: real, px: real -> int, colour: real -> string)
    requires WellLinked(nodes) && k <= m <= |nodes|
    requires idx < |PreparedUpTo(nodes, k, maxX, minX, px, colour)|
    ensures idx < |PreparedUpTo(nodes, m, maxX, minX, px, colour)|
    ensures PreparedUpTo(nodes, m, maxX, minX, px, colour)[idx] == PreparedUpTo(nodes, k, maxX, minX, px, colour)[idx]
  {
    ConcatStable(Steps(nodes, maxX, minX, px, colour), k, m, idx);
  }

  /** How many rectangles one iteration pushes for node `i`. */
  function Emitted(nodes: seq<BarDataNode>, i: nat, maxX: real, minX: real, px: real -> int): nat
    requires WellLinked(nodes) && i < |nodes|
  {
    if Outside(nodes[i].xVal, minX, maxX) then 0 else if HasSynthetic(nodes, i, px) then 2 else 1
  }

  /** How many rectangles the first `k` iterations push. */
  function EmittedUpTo(nodes: seq<BarDataNode>, k: nat, maxX: real, minX: real, px: real -> int): nat
    requires WellLinked(nodes) && k <= |nodes|
  {
    if k == 0 then 0 else EmittedUpTo(nodes, k - 1, maxX, minX, px) + Emitted(nodes, k - 1, maxX, minX, px)
  }

  lemma {:induction false} PreparedLength(nodes: seq<BarDataNode>, k: nat, maxX: real, minX: real, px: real -> int, colour: real -> string)
    requires WellLinked(nodes) && k <= |nodes|
    ensures |PreparedUpTo(nodes, k, maxX, minX, px, colour)| == EmittedUpTo(nodes, k, maxX, minX, px)
  {
    if k > 0 {
      PreparedLength(nodes, k - 1, maxX, minX, px, colour);
      PreparedStep(nodes, k - 1, maxX, minX, px, colour);
      assert |NodeRects(nodes, k - 1, maxX, minX, px, colour)| == Emitted(nodes, k - 1, maxX, minX, px);
    }
  }

  /** Where node `i`'s own rectangle lands in the output. */
  function OwnPos(nodes: seq<BarDataNode>, i: nat, maxX: real, minX: real, px: real -> int): int
    requires WellLinked(nodes) && i < |nodes|
  {
    EmittedUpTo(nodes, i + 1, maxX, minX, px) - 1
  }

  /** Each in-window node has its own rectangle in the output: at `x1`,
      with `y` and `height` 0, width `|x2 - x1|`, its value and the colour
      of its value; when the previous node maps left of pixel 0 and this
      one right of it, the synthetic rectangle stands immediately before. */
  lemma OwnRectPlacement(nodes: seq<BarDataNode>, i: nat, maxX: real, minX: real, px: real -> int, colour: real -> string)
    requires WellLinked(nodes) && i < |nodes|
    requires minX <= nodes[i].xVal <= maxX
    ensures var out := Prepared(nodes, maxX, minX, px, colour);
      var p := OwnPos(nodes, i, maxX, minX, px);
      var x2 := RightEdge(nodes, i, maxX, px);
      && 0 <= p < |out|
      && out[p] == RectData(px(nodes[i].xVal), 0, Abs(x2 - px(nodes[i].xVal)), 0, nodes[i].yVal, colour(nodes[i].yVal))
  {
    var cur := PreparedUpTo(nodes, i + 1, maxX, minX, px, colour);
    InsideRects(nodes, i, maxX, minX, px, colour);
    PreparedLength(nodes, i + 1, maxX, minX, px, colour);
    PreparedStable(nodes, i + 1, |nodes|, |cur| - 1, maxX, minX, px, colour);
  }

  /** When the previous node maps left of pixel 0 and this one right of it,
      the synthetic rectangle stands immediately before the node's own: at
      pixel 0, `|x2|` wide, with the previous node's value and colour. */
  lemma SyntheticPlacement(nodes: seq<BarDataNode>, i: nat, maxX: real, minX: real, px: real -> int, colour: real -> string)
    requires WellLinked(nodes) && i < |nodes|
    requires minX <= nodes[i].xVal <= maxX && HasSynthetic(nodes, i, px)
    ensures var out := Prepared(nodes, maxX, minX, px, colour);
      var p := OwnPos(nodes, i, maxX, minX, px);
      var prev := nodes[nodes[i].prevIndex.value];
      && 1 <= p < |out|
      && out[p - 1] == RectData(0, 0, Abs(RightEdge(nodes, i, maxX, px)), 0, prev.yVal, colour(prev.yVal))
  {
    var cur := PreparedUpTo(nodes, i + 1, maxX, minX, px, colour);
    InsideRects(nodes, i, maxX, minX, px, colour);
    PreparedLength(nodes, i + 1, maxX, minX, px, colour);
    PreparedStable(nodes, i + 1, |nodes|, |cur| - 2, maxX, minX, px, colour);
    PreparedStable(nodes, i + 1, |nodes|, |cur| - 1, maxX, minX, px, colour);
  }

  /** What an in-window node appends: its own rectangle last, preceded by
      the synthetic one when the node crosses pixel 0. */
  lemma InsideRects(nodes: seq<BarDataNode>, i: nat, maxX: real, minX: real, px: real -> int, colour: real -> string)
    requires WellLinked(nodes) && i < |nodes|
    requires !Outside(nodes[i].xVal, minX, maxX)
    ensures var pre := PreparedUpTo(nodes, i, maxX, minX, px, colour);
      var cur := PreparedUpTo(nodes, i + 1, maxX, minX, px, colour);
      && |cur| == |pre| + (if HasSynthetic(nodes, i, px) then 2 else 1)
      && cur[|cur| - 1] == OwnRect(nodes, i, maxX, px, colour)
      && (HasSynthetic(nodes, i, px) ==> cur[|cur| - 2] == SyntheticRect(nodes, i, maxX, px, colour))
  {
    PreparedStep(nodes, i, maxX, minX, px, colour);
  }

  /** Rectangles come out in input order. */
  lemma OutputInInputOrder(nodes: seq<BarDataNode>, i: nat, j: nat, maxX: real, minX: real, px: real -> int)
    requires WellLinked(nodes) && i < j < |nodes|
    requires !Outside(nodes[j].xVal, minX, maxX)
    ensures OwnPos(nodes, i, maxX, minX, px) < OwnPos(nodes, j, maxX, minX, px)
  {
    EmittedGrows(nodes, i + 1, j, maxX, minX, px);
  }

  /** The count never shrinks from one iteration to a later one. */
  lemma {:induction false} EmittedGrows(nodes: seq<BarDataNode>, k: nat, m: nat, maxX: real, minX: real, px: real -> int)
    requires WellLinked(nodes) && k <= m <= |nodes|
    ensures EmittedUpTo(nodes, k, maxX, minX, px) <= EmittedUpTo(nodes, m, maxX, minX, px)
    decreases m
  {
    if k < m {
      EmittedGrows(nodes, k, m - 1, maxX, minX, px);
    }
  }

  /** A node outside the window contributes nothing. */
  lemma OutsideNodeSkipped(nodes: seq<BarDataNode>, i: nat, maxX: real, minX: real, px: real -> int, colour: real -> string)
    requires WellLinked(nodes) && i < |nodes|
    requires nodes[i].xVal < minX || nodes[i].xVal > maxX
    ensures PreparedUpTo(nodes, i + 1, maxX, minX, px, colour) == PreparedUpTo(nodes, i, maxX, minX, px, colour)
  {
  }

  predicate EmitsSynthetic(nodes: seq<BarDataNode>, i: nat, maxX: real, minX: real, px: real -> int)
    requires WellLinked(nodes) && i < |nodes|
  {
    !Outside(nodes[i].xVal, minX, maxX) && HasSynthetic(nodes, i, px)
  }

  /** Over an ascending chain and a monotone scale the crossing of pixel 0
      happens once: at most one node emits a synthetic rectangle. */
  lemma SyntheticUnique(nodes: seq<BarDataNode>, i: nat, j: nat, maxX: real, minX: real, px: real -> int)
    requires IsChain(nodes) && Ascending(nodes) && Monotone(px) && i < j < |nodes|
    requires WellLinked(nodes)
    requires EmitsSynthetic(nodes, i, maxX, minX, px)
    ensures !EmitsSynthetic(nodes, j, maxX, minX, px)
  {
    assert nodes[j].prevIndex == Some(j - 1);
    assert nodes[i].xVal <= nodes[j - 1].xVal;
    assert px(nodes[i].xVal) <= px(nodes[j - 1].xVal);
  }

  lemma {:induction false} NoSyntheticCount(nodes: seq<BarDataNode>, k: nat, maxX: real, minX: real, px: real -> int)
    requires WellLinked(nodes) && k <= |nodes|
    requires forall j :: 0 <= j < k ==> !EmitsSynthetic(nodes, j, maxX, minX, px)
    ensures EmittedUpTo(nodes, k, maxX, minX, px) <= k
  {
    if k > 0 {
      NoSyntheticCount(nodes, k - 1, maxX, minX, px);
      assert !EmitsSynthetic(nodes, k - 1, maxX, minX, px);
    }
  }

  lemma {:induction false} EmittedBound(nodes: seq<BarDataNode>, k: nat, maxX: real, minX: real, px: real -> int)
    requires IsChain(nodes) && Ascending(nodes) && Monotone(px)
    requires WellLinked(nodes) && k <= |nodes|
    ensures EmittedUpTo(nodes, k, maxX, minX, px) <= k + 1
  {
    if k > 0 {
      if EmitsSynthetic(nodes, k - 1, maxX, minX, px) {
        forall j | 0 <= j < k - 1
          ensures !EmitsSynthetic(nodes, j, maxX, minX, px)
        {
          if EmitsSynthetic(nodes, j, maxX, minX, px) {
            SyntheticUnique(nodes, j, k - 1, maxX, minX, px);
          }
        }
        NoSyntheticCount(nodes, k - 1, maxX, minX, px);
      } else {
        EmittedBound(nodes, k - 1, maxX, minX, px);
      }
    }
  }

  /** At most one rectangle per node plus one synthetic rectangle. */
  lemma PreparedLengthBound(nodes: seq<BarDataNode>, k: nat, maxX: real, minX: real, px: real -> int, colour: real -> string)
    requires IsChain(nodes) && Ascending(nodes) && Monotone(px)
    requires WellLinked(nodes) && k <= |nodes|
    ensures |PreparedUpTo(nodes, k, maxX, minX, px, colour)| <= k + 1
  {
    PreparedLength(nodes, k, maxX, minX, px, colour);
    EmittedBound(nodes, k, maxX, minX, px);
  }

  /** For an in-window node over an ascending chain and a monotone scale,
      `x1 <= x2 <= px(maxX)`: the right edge is clipped to the window and
      never lies left of the node. */
  lemma RightEdgeWithinWindow(nodes: seq<BarDataNode>, i: nat, maxX: real, px: real -> int)
    requires IsChain(nodes) && Ascending(nodes) && Monotone(px) && WellLinked(nodes) && i < |nodes|
    requires nodes[i].xVal <= maxX
    ensures px(nodes[i].xVal) <= RightEdge(nodes, i, maxX, px) <= px(maxX)
  {
    assert px(nodes[i].xVal) <= px(maxX);
    if i + 1 < |nodes| {
      assert nodes[i].nextIndex == Some(i + 1);
      var n := nodes[i + 1].xVal;
      assert nodes[i].xVal <= n;
      assert px(nodes[i].xVal) <= px(n);
      if n <= maxX {
        assert px(n) <= px(maxX);
      }
    }
  }

  /** No gap between neighbours: when node `i + 1` is in the window and its
      `xVal` is non-zero, node `i`'s rectangle ends where node `i + 1`'s
      begins. */
  lemma OwnRectsAbut(nodes: seq<BarDataNode>, i: nat, maxX: real, minX: real, px: real -> int, colour: real -> string)
    requires IsChain(nodes) && Ascending(nodes) && Monotone(px) && WellLinked(nodes)
    requires i + 1 < |nodes| && minX <= nodes[i].xVal && nodes[i + 1].xVal <= maxX
    requires nodes[i + 1].xVal != 0.0
    ensures OwnRect(nodes, i, maxX, px, colour).x + OwnRect(nodes, i, maxX, px, colour).width
         == OwnRect(nodes, i + 1, maxX, px, colour).x
  {
    RightEdgeWithinWindow(nodes, i, maxX, px);
  }

  /** The last band in the window reaches the window's right edge: when the
      next node is missing, lies past `maxX`, or has `xVal` 0. */
  lemma LastRectReachesEdge(nodes: seq<BarDataNode>, i: nat, maxX: real, minX: real, px: real -> int, colour: real -> string)
    requires IsChain(nodes) && Ascending(nodes) && Monotone(px) && WellLinked(nodes)
    requires i < |nodes| && minX <= nodes[i].xVal <= maxX
    requires i + 1 == |nodes| || nodes[i + 1].xVal > maxX || nodes[i + 1].xVal == 0.0
    ensures OwnRect(nodes, i, maxX, px, colour).x + OwnRect(nodes, i, maxX, px, colour).width == px(maxX)
  {
    RightEdgeWithinWindow(nodes, i, maxX, px);
  }

  /** `x1` is not clamped at 0: a node inside the window that maps left of
      the viewport yields a rectangle with negative `x`. */
  lemma NegativeOriginKept()
    ensures var nodes := [BarDataNode(5.0, 20.0, None, None)];
      var px := (v: real) => v.Floor - 10;
      var out := Prepared(nodes, 10.0, 0.0, px, ColorFinder);
      |out| == 1 && out[0].x == -5 && out[0].width == 5 && out[0].clr == Colors[1]
  {
    var nodes := [BarDataNode(5.0, 20.0, None, None)];
    var px := (v: real) => v.Floor - 10;
    assert WellLinked(nodes);
    assert px(5.0) == -5 && px(10.0) == 0;
    assert RightEdge(nodes, 0, 10.0, px) == 0;
    ColorFinderStandard(20.0, 1);
    assert NodeRects(nodes, 0, 10.0, 0.0, px, ColorFinder) == [OwnRect(nodes, 0, 10.0, px, ColorFinder)];
    PreparedStep(nodes, 0, 10.0, 0.0, px, ColorFinder);
  }

  /** Two bins 470 kHz and 471 kHz in the window [470000, 471500], the
      first mapping at or right of pixel 0: two rectangles, the second
      reaching the window's right edge. */
  lemma TwoBinScenario(px: real -> int, colour: real -> string)
    requires Monotone(px) && px(470000.0) >= 0
    ensures var nodes := [BarDataNode(470000.0, 10.0, None, Some(1)), BarDataNode(471000.0, 90.0, Some(0), None)];
      var out := Prepared(nodes, 471500.0, 470000.0, px, colour);
      |out| == 2 && out[0].x == px(470000.0) && out[0].x + out[0].width == out[1].x
      && out[1].x + out[1].width == px(471500.0)
  {
    var nodes := [BarDataNode(470000.0, 10.0, None, Some(1)), BarDataNode(471000.0, 90.0, Some(0), None)];
    assert px(470000.0) <= px(471000.0) <= px(471500.0);
    assert WellLinked(nodes);
    var a, b := 470000.0, 471500.0;
    assert RightEdge(nodes, 0, b, px) == px(471000.0);
    assert RightEdge(nodes, 1, b, px) == px(b);
    assert !HasSynthetic(nodes, 1, px);
    assert NodeRects(nodes, 0, b, a, px, colour) == [OwnRect(nodes, 0, b, px, colour)];
    assert NodeRects(nodes, 1, b, a, px, colour) == [OwnRect(nodes, 1, b, px, colour)];
    PreparedStep(nodes, 0, b, a, px, colour);
    PreparedStep(nodes, 1, b, a, px, colour);
    assert PreparedUpTo(nodes, 1, b, a, px, colour) == [OwnRect(nodes, 0, b, px, colour)];
    assert Prepared(nodes, b, a, px, colour) == [OwnRect(nodes, 0, b, px, colour), OwnRect(nodes, 1, b, px, colour)];
  }
}
