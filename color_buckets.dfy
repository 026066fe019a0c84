/** The colour bucketing of src/com/chart.tsx and its copy in
    src/BarChart.tsx: `[min, max]` is cut into buckets of one stride each,
    one palette colour per bucket, and a value is coloured by the first
    bucket that holds it. */
module ColorBuckets {
  import opened Wrappers

  /** The palette both chart files define. */
  const Colors: seq<string> := ["#B2D5E3", "#95C0D6", "#71A3BF", "#598DAC", "#204E82", "#163960", "#0E2948"]

  datatype ColorRange = ColorRange(color: string, minVal: int, maxVal: int)

  /** `Math.round(a / n)`: the nearest integer to `a / n`, halves rounded up. */
  function RoundedStride(a: int, n: nat): (d: int)
    requires n > 0
    ensures 2 * n * d <= 2 * a + n < 2 * n * d + 2 * n
  {
    (2 * a + n) / (2 * n)
  }

  /** How many times the loop `for (i = min; i <= max; i += div + 1)` runs. */
  function BucketCount(min: int, max: int, div: int): nat
    requires min <= max ==> div >= 0
  {
    if max < min then 0 else (max - min) / (div + 1) + 1
  }

  /** Bucket `k`: it starts `k` strides above `min` and spans `div` more units. */
  function Bucket(color: string, min: int, div: int, k: nat): ColorRange
  {
    ColorRange(color, min + k * (div + 1), min + k * (div + 1) + div)
  }

  lemma StrideNonNegative(a: int, n: nat)
    requires n > 0 && a >= 0
    ensures RoundedStride(a, n) >= 0
  {
  }

  /** `j * b <= a` exactly when `j` is at most the quotient `a / b`. */
  lemma MulBelowIffQuotient(j: int, b: int, a: int)
    requires b > 0 && a >= 0 && j >= 0
    ensures j * b <= a <==> j <= a / b
  {
    var q, r := a / b, a % b;
    assert a == q * b + r && 0 <= r < b;
    if j <= q {
      assert j * b <= q * b by { MulMonotone(j, q, b); }
    } else {
      assert (q + 1) * b <= j * b by { MulMonotone(q + 1, j, b); }
    }
  }

  lemma MulMonotone(x: int, y: int, b: int)
    requires x <= y && b >= 0
    ensures x * b <= y * b
  {
    assert y * b - x * b == (y - x) * b;
  }

  /** There are never more buckets than palette colours, so `clr[j]` is
      always a palette entry. */
  lemma {:induction false} CountWithinPalette(min: int, max: int, n: nat)
    requires n > 0 && min <= max
    ensures RoundedStride(max - min, n) >= 0
    ensures BucketCount(min, max, RoundedStride(max - min, n)) <= n
  {
    var a := max - min;
    StrideNonNegative(a, n);
    var d := RoundedStride(a, n);
    assert 2 * n * d + 2 * n == 2 * (n * (d + 1));
    assert n * (d + 1) > a;
    MulBelowIffQuotient(n, d + 1, a);
    assert a / (d + 1) < n;
  }

  /** The first `c` buckets of stride `div` from `min`, bucket `k`
      coloured `clr[k]`. */
  function Buckets(clr: seq<string>, min: int, div: int, c: nat): seq<ColorRange>
    requires c <= |clr|
  {
    if c == 0 then [] else Buckets(clr, min, div, c - 1) + [Bucket(clr[c - 1], min, div, c - 1)]
  }

  lemma {:induction false} BucketsAt(clr: seq<string>, min: int, div: int, c: nat)
    requires c <= |clr|
    ensures |Buckets(clr, min, div, c)| == c
    ensures forall k :: 0 <= k < c ==> Buckets(clr, min, div, c)[k] == Bucket(clr[k], min, div, k)
  {
    if c > 0 {
      BucketsAt(clr, min, div, c - 1);
    }
  }

  /** The buckets `calculate_color_ranges` builds, in closed form. */
  function ColorRanges(min: int, max: int, clr: seq<string>): seq<ColorRange>
    requires |clr| > 0
  {
    if max < min then []
    else
      CountWithinPalette(min, max, |clr|);
      var div := RoundedStride(max - min, |clr|);
      Buckets(clr, min, div, BucketCount(min, max, div))
  }

  /** calculate_color_ranges: pushes buckets while the running start is at
      most `max`. */
  method CalculateColorRanges(min: int, max: int, clr: seq<string>) returns (arr: seq<ColorRange>)
    requires |clr| > 0
    ensures arr == ColorRanges(min, max, clr)
  {
    var div := RoundedStride(max - min, |clr|);
    if min <= max {
      CountWithinPalette(min, max, |clr|);
    }
    arr := [];
    var i, j := min, 0;
    while i <= max
      invariant j >= 0 && i == min + j * (div + 1)
      invariant j > 0 ==> min <= max
      invariant min <= max ==> div >= 0 && j <= BucketCount(min, max, div) <= |clr|
      invariant j <= |clr| && arr == Buckets(clr, min, div, j)
      decreases max - i
    {
      assert j < BucketCount(min, max, div) by {
        MulBelowIffQuotient(j, div + 1, max - min);
      }
      arr := arr + [ColorRange(clr[j], i, i + div)];
      assert (j + 1) * (div + 1) == j * (div + 1) + div + 1;
      i, j := i + div + 1, j + 1;
    }
    if min <= max {
      assert j * (div + 1) > max - min;
      MulBelowIffQuotient(j, div + 1, max - min);
      assert j == BucketCount(min, max, div);
    }
  }

  /** Where the bucket loop stops: the last start is at most `max - min`
      above `min`, one more stride would pass `max`. */
  lemma {:induction false} CountBounds(min: int, max: int, n: nat)
    requires n > 0 && min <= max
    ensures var div := RoundedStride(max - min, n);
      var c := BucketCount(min, max, div);
      div >= 0 && 1 <= c <= n && (c - 1) * (div + 1) <= max - min < c * (div + 1)
  {
    CountWithinPalette(min, max, n);
    var div := RoundedStride(max - min, n);
    var c := BucketCount(min, max, div);
    MulBelowIffQuotient(c, div + 1, max - min);
    MulBelowIffQuotient(c - 1, div + 1, max - min);
  }

  /** The closed form has one bucket per loop iteration. */
  lemma ColorRangesShape(min: int, max: int, clr: seq<string>)
    requires |clr| > 0 && min <= max
    ensures var div := RoundedStride(max - min, |clr|);
      var c := BucketCount(min, max, div);
      && div >= 0 && c <= |clr|
      && ColorRanges(min, max, clr) == Buckets(clr, min, div, c)
  {
    CountWithinPalette(min, max, |clr|);
  }

  /** The stride rules: bucket `k` starts `k * (div + 1)` above `min` and
      spans `div`; neighbours abut; every bucket starts at or below `max`;
      the last one reaches `max`; bucket `k` has colour `clr[k]`. */
  lemma {:induction false} ColorRangesStride(min: int, max: int, clr: seq<string>)
    requires |clr| > 0
    ensures var r := ColorRanges(min, max, clr);
      var div := RoundedStride(max - min, |clr|);
      && |r| <= |clr|
      && (min <= max <==> |r| > 0)
      && (forall k :: 0 <= k < |r| ==>
            r[k].minVal == min + k * (div + 1) && r[k].maxVal == r[k].minVal + div
            && r[k].color == clr[k] && min <= r[k].minVal <= max)
      && (forall k :: 0 < k < |r| ==> r[k].minVal == r[k - 1].maxVal + 1)
      && (|r| > 0 ==> r[|r| - 1].maxVal >= max)
  {
    if min <= max {
      var r := ColorRanges(min, max, clr);
      var div := RoundedStride(max - min, |clr|);
      CountBounds(min, max, |clr|);
      var c := BucketCount(min, max, div);
      ColorRangesShape(min, max, clr);
      BucketsAt(clr, min, div, c);
      BucketsInRange(min, max, div, c);
      forall k | 0 <= k < |r|
        ensures r[k].minVal == Bucket("", min, div, k).minVal && r[k].maxVal == Bucket("", min, div, k).maxVal
      {
      }
    }
  }

  /** The bucket arithmetic behind `ColorRangesStride`, stated for `Bucket`
      without reference to the palette. */
  lemma BucketsInRange(min: int, max: int, div: int, c: nat)
    requires div >= 0 && c >= 1 && (c - 1) * (div + 1) <= max - min < c * (div + 1)
    ensures forall k: nat :: k < c ==> min <= Bucket("", min, div, k).minVal <= max
    ensures forall k: nat :: 0 < k < c ==> Bucket("", min, div, k).minVal == Bucket("", min, div, k - 1).maxVal + 1
    ensures Bucket("", min, div, c - 1).maxVal >= max
  {
    forall k: nat | k < c
      ensures min <= Bucket("", min, div, k).minVal <= max
    {
      MulMonotone(k, c - 1, div + 1);
    }
    forall k: nat | 0 < k < c
      ensures Bucket("", min, div, k).minVal == Bucket("", min, div, k - 1).maxVal + 1
    {
      assert k * (div + 1) == (k - 1) * (div + 1) + div + 1;
    }
    assert c * (div + 1) == (c - 1) * (div + 1) + div + 1;
  }

  /** The module-level `color_ranges = calculate_color_ranges(0, 100, colors)`:
      seven buckets [0,14], [15,29], ..., [90,104], bucket k coloured colors[k]. */
  lemma StandardRanges()
    ensures var r := ColorRanges(0, 100, Colors);
      |r| == 7 && forall k :: 0 <= k < 7 ==> r[k] == ColorRange(Colors[k], 15 * k, 15 * k + 14)
  {
    assert RoundedStride(100, 7) == 14;
  }

  predicate Holds(r: ColorRange, val: real)
  {
    val >= r.minVal as real && val <= r.maxVal as real
  }

  /** `clr_ranges.find(...)`: the index of the first bucket holding `val`. */
  function FirstMatch(ranges: seq<ColorRange>, val: real): (m: Option<nat>)
    ensures m.Some? ==> m.value < |ranges| && Holds(ranges[m.value], val)
    ensures m.Some? ==> forall k :: 0 <= k < m.value ==> !Holds(ranges[k], val)
    ensures m.None? ==> forall k :: 0 <= k < |ranges| ==> !Holds(ranges[k], val)
  {
    if ranges == [] then None
    else if Holds(ranges[0], val) then Some(0)
    else match FirstMatch(ranges[1..], val)
      case None => None
      case Some(k) => Some(k + 1)
  }

  /** find_color: `result?.color || clr_ranges[0].color`. The fallback is
      taken when no bucket matches and also when the matched bucket's colour
      is the empty string, which JavaScript treats as false. */
  function FindColor(ranges: seq<ColorRange>, val: real): (c: string)
    requires |ranges| > 0
    ensures exists k :: 0 <= k < |ranges| && c == ranges[k].color
  {
    var m := FirstMatch(ranges, val);
    if m.Some? && ranges[m.value].color != "" then ranges[m.value].color else ranges[0].color
  }

  /** find_color returns the colour of the first bucket holding the value,
      and the first bucket's colour when none does (or when that colour is
      empty). */
  lemma FindColorFirstMatch(ranges: seq<ColorRange>, val: real, k: nat)
    requires k < |ranges| && Holds(ranges[k], val)
    requires forall j :: 0 <= j < k ==> !Holds(ranges[j], val)
    ensures FindColor(ranges, val) == if ranges[k].color != "" then ranges[k].color else ranges[0].color
  {
    var m := FirstMatch(ranges, val);
    assert m.Some?;
    assert m.value == k;
  }

  lemma FindColorFallback(ranges: seq<ColorRange>, val: real)
    requires |ranges| > 0
    requires forall j :: 0 <= j < |ranges| ==> !Holds(ranges[j], val)
    ensures FindColor(ranges, val) == ranges[0].color
  {
  }

  /** `color_finder_fn` of both chart files: colour by the standard buckets. */
  function ColorFinder(val: real): (c: string)
    ensures c in Colors
  {
    StandardRanges();
    var r := ColorRanges(0, 100, Colors);
    var c := FindColor(r, val);
    assert c in Colors by {
      var k :| 0 <= k < |r| && c == r[k].color;
    }
    c
  }

  /** With the standard buckets a value in [15k, 15k+14] gets colors[k];
      a value below 0, above 104 or in a one-unit gap between two buckets
      gets colors[0]. */
  lemma {:induction false} ColorFinderStandard(val: real, k: nat)
    requires k < 7
    ensures (15 * k) as real <= val <= (15 * k + 14) as real ==> ColorFinder(val) == Colors[k]
    ensures (forall j :: 0 <= j < 7 ==> !((15 * j) as real <= val <= (15 * j + 14) as real)) ==> ColorFinder(val) == Colors[0]
  {
    StandardRanges();
    var r := ColorRanges(0, 100, Colors);
    if (15 * k) as real <= val <= (15 * k + 14) as real {
      forall j | 0 <= j < k ensures !Holds(r[j], val) {
        assert r[j].maxVal as real < (15 * k) as real;
      }
      FindColorFirstMatch(r, val, k);
    }
    if forall j :: 0 <= j < 7 ==> !((15 * j) as real <= val <= (15 * j + 14) as real) {
      FindColorFallback(r, val);
    }
  }

  /** A value between two buckets falls back: 14.5 lies after [0,14] and
      before [15,29], so it is coloured like bucket 0 rather than bucket 1. */
  lemma GapFallsBack()
    ensures ColorFinder(14.5) == Colors[0]
  {
    ColorFinderStandard(14.5, 0);
  }
}
