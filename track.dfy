/** The scroll schedule of the obstacle pair: a linear segment from the right
    edge of the viewport to -150 over 3000 milliseconds, then a jump of zero
    duration back to the right edge, repeated for as long as it runs. */
module Track {

  /** Where each linear segment ends. */
  const ScrollEnd: real := -150.0
  /** How long each linear segment takes, in milliseconds. */
  const ScrollDuration: real := 3000.0

  /** The offset `elapsed` milliseconds into a segment that starts at `width`
      (linear easing). */
  function ScheduleX(width: real, elapsed: real): (x: real)
    requires width >= ScrollEnd && 0.0 <= elapsed <= ScrollDuration
    ensures ScrollEnd <= x <= width
    ensures elapsed == 0.0 ==> x == width
    ensures elapsed == ScrollDuration ==> x == ScrollEnd
  {
    var span := width - ScrollEnd;
    assert 0.0 <= span * elapsed <= span * ScrollDuration;
    width - span * elapsed / ScrollDuration
  }

  /** Within a segment the offset strictly decreases as time passes. */
  lemma ScheduleDecreases(width: real, e1: real, e2: real)
    requires width > ScrollEnd && 0.0 <= e1 < e2 <= ScrollDuration
    ensures ScheduleX(width, e2) < ScheduleX(width, e1)
  {
    var span := width - ScrollEnd;
    assert span * e2 - span * e1 == span * (e2 - e1) > 0.0;
    assert ScheduleX(width, e1) - ScheduleX(width, e2) == (span * e2 - span * e1) / ScrollDuration;
  }

  /** Time into the segment after a frame of `dt` milliseconds: it never
      runs past the end of the segment. */
  function Advance(elapsed: real, dt: real): (e: real)
    requires 0.0 <= elapsed <= ScrollDuration && dt >= 0.0
    ensures elapsed <= e <= ScrollDuration
    ensures dt > 0.0 && elapsed < ScrollDuration ==> elapsed < e
    ensures elapsed + dt <= ScrollDuration ==> e == elapsed + dt
    ensures elapsed + dt >= ScrollDuration ==> e == ScrollDuration
  {
    if elapsed + dt < ScrollDuration then elapsed + dt else ScrollDuration
  }
}
