/**
 Counting how many of a sorted sequence of times fall in an interval.
 */
module Intervals {
  ghost predicate Sorted(times: seq<int>) {
    forall i, j :: 0 <= i < j < |times| ==> times[i] <= times[j]
  }

  // Two times `gap` places apart are more than `width` apart.
  ghost predicate Spread(times: seq<int>, gap: nat, width: int) {
    forall i, j :: 0 <= i && i + gap <= j < |times| ==> times[j] - times[i] > width
  }

  // How many times fall in the closed interval [lo, hi].
  function CountWithin(times: seq<int>, lo: int, hi: int): nat {
    if times == [] then 0
    else CountWithin(times[..|times| - 1], lo, hi) + (if lo <= times[|times| - 1] <= hi then 1 else 0)
  }

  lemma {:induction false} CountBounded(times: seq<int>, lo: int, hi: int)
    ensures CountWithin(times, lo, hi) <= |times|
  {
    if times != [] {
      CountBounded(times[..|times| - 1], lo, hi);
    }
  }

  // The times of an interval are consecutive.
  lemma {:induction false} AreConsecutive(times: seq<int>, lo: int, hi: int) returns (first: nat)
    requires Sorted(times) && CountWithin(times, lo, hi) > 0
    ensures first + CountWithin(times, lo, hi) <= |times|
    ensures times[first] >= lo && times[first + CountWithin(times, lo, hi) - 1] <= hi
  {
    var rest := times[..|times| - 1];
    var inside := CountWithin(rest, lo, hi);
    CountBounded(rest, lo, hi);
    if lo <= times[|times| - 1] <= hi {
      first := |times| - 1 - inside;
      if inside > 0 {
        var earlier := AreConsecutive(rest, lo, hi);
        assert rest[earlier] <= times[first];
      }
    } else {
      first := AreConsecutive(rest, lo, hi);
    }
  }

  /** Spread-out times put at most `gap` of them in any closed interval of that width. */
  lemma SpreadBoundsInterval(times: seq<int>, gap: nat, width: int, lo: int)
    requires Sorted(times) && Spread(times, gap, width)
    ensures CountWithin(times, lo, lo + width) <= gap
  {
    var count := CountWithin(times, lo, lo + width);
    if count > gap {
      var first := AreConsecutive(times, lo, lo + width);
      assert false;
    }
  }
}
