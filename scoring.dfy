/** Scoring: a threshold-crossing detector over consecutive values of the
    scroll offset, with the bird's left edge (a quarter of the width) as the
    threshold. */
module Scoring {
  import opened Values

  /** The scoring reaction's test for one change of the offset from
      `previous` to `current`: the values differ, a previous value exists
      and is truthy, and the offset moved from right of `middle` to on or
      left of it. */
  function CrossesThreshold(current: real, previous: Option<real>, middle: real): (fires: bool)
    ensures fires ==> previous.Some? && current <= middle < previous.value
    ensures middle >= 0.0 ==> (fires <==> previous.Some? && current <= middle < previous.value)
  {
    && (previous.None? || current != previous.value)
    && Truthy(previous)
    && current <= middle
    && previous.value > middle
  }

  /** A crossing always moves the offset leftwards, so the jump back to the
      right edge never scores, whatever came before it. */
  lemma TeleportNeverScores(width: real, previous: Option<real>)
    requires width > 0.0
    ensures !CrossesThreshold(width, previous, width / 4.0)
  {
  }

  /** The number of scoring events along a sequence of observed offsets; the
      first observation has no previous value and never scores. */
  function Crossings(xs: seq<real>, middle: real): (n: nat)
    ensures n <= if |xs| == 0 then 0 else |xs| - 1
  {
    if |xs| < 2 then 0
    else
      Crossings(xs[..|xs| - 1], middle)
        + (if CrossesThreshold(xs[|xs| - 1], Some(xs[|xs| - 2]), middle) then 1 else 0)
  }

  /** Offsets that never move rightwards. */
  ghost predicate NonIncreasing(xs: seq<real>)
  {
    forall i :: 0 < i < |xs| ==> xs[i] <= xs[i - 1]
  }

  /** Offsets that all stay right of the threshold never score. */
  lemma {:induction false} AboveNeverScores(xs: seq<real>, middle: real)
    requires forall i :: 0 <= i < |xs| ==> xs[i] > middle
    ensures Crossings(xs, middle) == 0
  {
    if |xs| >= 2 {
      AboveNeverScores(xs[..|xs| - 1], middle);
    }
  }

  /** One leftward pass that starts right of the threshold and ends on or
      left of it scores exactly once. */
  lemma {:induction false} PassScoresOnce(xs: seq<real>, middle: real)
    requires middle >= 0.0
    requires |xs| >= 1 && NonIncreasing(xs)
    requires xs[0] > middle && xs[|xs| - 1] <= middle
    ensures Crossings(xs, middle) == 1
  {
    var n := |xs|;
    var init := xs[..n - 1];
    if xs[n - 2] > middle {
      forall i | 0 <= i < |init| ensures init[i] > middle {
        NonIncreasingAbove(xs, middle, i);
      }
      AboveNeverScores(init, middle);
    } else {
      PassScoresOnce(init, middle);
    }
  }

  /** In a non-increasing sequence, every value before one right of the
      threshold is right of it too. */
  lemma {:induction false} NonIncreasingAbove(xs: seq<real>, middle: real, i: nat)
    requires NonIncreasing(xs) && 2 <= |xs| && xs[|xs| - 2] > middle && i < |xs| - 1
    ensures xs[i] > middle
    decreases |xs| - 2 - i
  {
    if i < |xs| - 2 {
      NonIncreasingAbove(xs, middle, i + 1);
    }
  }

  /** A full lap of the scroll: the offset runs down from the right edge to
      -150 and then jumps back to the right edge. The lap scores exactly one
      point, and the jump adds nothing. */
  lemma FullLapScoresOnce(xs: seq<real>, width: real)
    requires width > 0.0
    requires |xs| >= 1 && NonIncreasing(xs) && xs[0] == width && xs[|xs| - 1] == -150.0
    ensures Crossings(xs + [width], width / 4.0) == 1
  {
    PassScoresOnce(xs, width / 4.0);
    assert (xs + [width])[..|xs|] == xs;
  }

  /** Crossings split at any point of a run of observations: the second part
      is counted from the last offset of the first part. */
  lemma {:induction false} CrossingsAppend(a: seq<real>, b: seq<real>, middle: real)
    requires |a| >= 1
    ensures Crossings(a + b, middle) == Crossings(a, middle) + Crossings([a[|a| - 1]] + b, middle)
    decreases |b|
  {
    if |b| == 0 {
      assert a + b == a;
    } else {
      var init := b[..|b| - 1];
      var last := [a[|a| - 1]];
      CrossingsAppend(a, init, middle);
      assert (a + b)[..|a + b| - 1] == a + init;
      assert (last + b)[..|last + b| - 1] == last + init;
      assert (a + b)[|a + b| - 2] == (last + b)[|last + b| - 2];
    }
  }

  /** During continuous play every further lap of the scroll adds exactly one
      point. `trail` is everything observed so far and ends on the right edge,
      where a lap begins; the lap `pass` runs down from the right edge to -150,
      after which the offset jumps back to the right edge. The lap's first
      offset is the one `trail` already ends on. */
  lemma LapAddsOnePoint(trail: seq<real>, pass: seq<real>, width: real)
    requires width > 0.0
    requires |trail| >= 1 && trail[|trail| - 1] == width
    requires |pass| >= 1 && NonIncreasing(pass) && pass[0] == width && pass[|pass| - 1] == -150.0
    ensures Crossings(trail + pass[1..] + [width], width / 4.0)
         == Crossings(trail, width / 4.0) + 1
  {
    var tail := pass[1..] + [width];
    FullLapScoresOnce(pass, width);
    assert [trail[|trail| - 1]] + tail == pass + [width];
    CrossingsAppend(trail, tail, width / 4.0);
    assert trail + pass[1..] + [width] == trail + tail;
  }
}
