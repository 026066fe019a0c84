/** The load loop of src/fetch.ts (and its copy in src/App.tsx): each
    occupancy bin, in place, gets its frequency scaled from kilohertz to
    hertz, its value rounded, and a shallow copy of the following bin. */
module Normalisation {
  import opened Wrappers
  import opened Model

  /** `Math.round`: the nearest integer, halves rounded up. */
  function Round(x: real): (r: int)
    ensures x - 0.5 < r as real <= x + 0.5
  {
    (x + 0.5).Floor
  }

  /** Bin `i` after its own iteration. Bin `i + 1` has not been visited
      yet, so its copy carries the raw value and its original `next`, with
      only the frequency scaled. */
  function NormalisedAt(s: seq<Occupancy>, i: nat): Occupancy
    requires i < |s|
  {
    var current := s[i];
    current.(frequency := current.frequency * 1000.0,
             value := Round(current.value) as real,
             next := if |s| > i + 1 then Some(s[i + 1].(frequency := s[i + 1].frequency * 1000.0)) else current.next)
  }

  function Normalised(s: seq<Occupancy>): seq<Occupancy>
  {
    seq(|s|, i requires 0 <= i < |s| => NormalisedAt(s, i))
  }

  method NormaliseOccupancy(occupancy: array<Occupancy>)
    modifies occupancy
    ensures occupancy[..] == Normalised(old(occupancy[..]))
  {
    for i := 0 to occupancy.Length
      invariant forall k :: 0 <= k < i ==> occupancy[k] == NormalisedAt(old(occupancy[..]), k)
      invariant forall k :: i <= k < occupancy.Length ==> occupancy[k] == old(occupancy[k])
    {
      occupancy[i] := occupancy[i].(frequency := occupancy[i].frequency * 1000.0);
      occupancy[i] := occupancy[i].(value := Round(occupancy[i].value) as real);
      if occupancy.Length > i + 1 {
        var next := occupancy[i + 1];
        occupancy[i] := occupancy[i].(next := Some(next.(frequency := next.frequency * 1000.0)));
      }
    }
  }

  /** What the loop leaves in each bin: the scaled frequency, the rounded
      value, and for every bin but the last a copy of its successor whose
      frequency is the successor's final frequency but whose value is the
      successor's raw, unrounded one. The last bin's `next` is untouched. */
  lemma NormalisedBin(s: seq<Occupancy>, i: nat)
    requires i < |s|
    ensures var r := Normalised(s);
      && |r| == |s|
      && r[i].frequency == 1000.0 * s[i].frequency
      && r[i].value == Round(s[i].value) as real
      && (i + 1 < |s| ==>
            r[i].next.Some? && r[i].next.value.frequency == r[i + 1].frequency
            && r[i].next.value.value == s[i + 1].value && r[i].next.value.next == s[i + 1].next)
      && (i + 1 == |s| ==> r[i].next == s[i].next)
  {
  }

  /** The copy's value is not the successor's final one: 89.6 stays 89.6
      in the copy while the successor itself becomes 90. */
  lemma CopyKeepsRawValue()
    ensures var r := Normalised([Occupancy(470.0, 10.4, None), Occupancy(471.0, 89.6, None)]);
      r[0].next == Some(Occupancy(471000.0, 89.6, None)) && r[1].value == 90.0
  {
    assert Round(89.6) == 90;
  }

  lemma NormalisedEmpty()
    ensures Normalised([]) == []
  {
  }
}
