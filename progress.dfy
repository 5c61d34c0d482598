/**
 * The progress display of `CatchupPlayer` (src/IPTVCatchupPlayer.py:108-125):
 * the playback position in the current stream, the elapsed / total /
 * remaining times shown as H:MM:SS, and the progress percentage.
 */
module Progress {
  import opened PyErrors
  import opened CatchupWindow

  /** The pair `getPlayPosition()` returns: an error code and a position in 90 kHz ticks. */
  datatype PlayPosition = PlayPosition(error: int, pts: int)

  /**
   * `getPosition` (lines 118-125) in whole seconds: 0 without a seek
   * interface (`None`) or when the host reports an error, else the ticks
   * converted to seconds and rounded down.
   */
  function Position(seek: Option<PlayPosition>): (secs: int)
    ensures seek.None? || seek.value.error != 0 ==> secs == 0
    ensures seek.Some? && seek.value.error == 0 ==>
      secs * TicksPerSecond <= seek.value.pts < (secs + 1) * TicksPerSecond
  {
    if seek.None? || seek.value.error != 0 then 0 else seek.value.pts / TicksPerSecond
  }

  /** `int(a / b)`: true division truncated toward zero. */
  function TruncDiv(a: int, b: int): (q: int)
    requires b != 0
    ensures (a >= 0) == (b > 0) ==> q >= 0
    ensures (a >= 0) != (b > 0) ==> q <= 0
    ensures a >= 0 && b > 0 ==> q == a / b
    ensures q == if (a >= 0) == (b > 0) then Abs(a) / Abs(b) else -(Abs(a) / Abs(b))
  {
    if b > 0 then TruncDivByPositive(a, b) else -TruncDivByPositive(a, -b)
  }

  /** `int(a / b)` for a positive `b`: the quotient of the magnitudes, with the sign of `a`. */
  function TruncDivByPositive(a: int, b: int): (q: int)
    requires b > 0
    ensures a >= 0 ==> q == a / b && q >= 0
    ensures a < 0 ==> q == -((-a) / b) && q <= 0
  {
    if a >= 0 then DivNonNegative(a, b); a / b
    else DivNonNegative(-a, b); -((-a) / b)
  }

  lemma DivNonNegative(x: int, y: int)
    requires x >= 0 && y > 0
    ensures x / y >= 0
  {
    var q, r := x / y, x % y;
    assert x == q * y + r && r < y;
  }

  /** Division by a positive number rounds down. */
  lemma DivBounds(a: int, b: int)
    requires b > 0
    ensures (a / b) * b <= a < (a / b + 1) * b
  {
    assert a == (a / b) * b + a % b;
  }

  /** A positive factor can be cancelled from a strict inequality. */
  lemma CancelFactor(x: int, y: int, d: int)
    requires d > 0 && x * d < y * d
    ensures x < y
  {
  }

  /** The three numbers `%d:%02d:%02d` prints for a time `p`. */
  datatype Clock = Clock(hours: int, minutes: int, seconds: int)

  /**
   * The fields of line 113 for an integer time `p`: `%d` of `p / 3600`
   * truncates toward zero, while `p % 3600` and `p % 60` take Python's floored
   * remainder, which is never negative.
   */
  function ClockOf(p: int): (c: Clock)
    ensures 0 <= c.minutes < 60 && 0 <= c.seconds < 60
    ensures p >= 0 ==> c.hours >= 0 && c.hours * 3600 + c.minutes * 60 + c.seconds == p
  {
    var c := Clock(TruncDiv(p, 3600), (p % 3600) / 60, p % 60);
    if p < 0 then c else ClockAdds(p); c
  }

  lemma ClockAdds(p: nat)
    ensures (p / 3600) * 3600 + ((p % 3600) / 60) * 60 + p % 60 == p
  {
    var h, r := p / 3600, p % 3600;
    assert p == 3600 * h + r;
    var m, s := r / 60, r % 60;
    assert r == 60 * m + s;
    assert p == 60 * (60 * h + m) + s;
    RemainderBy60(60 * h + m, s);
  }

  lemma RemainderBy60(k: int, s: int)
    requires 0 <= s < 60
    ensures (60 * k + s) % 60 == s
  {
  }

  /**
   * A negative time is not shown as its magnitude: 30 seconds past the end
   * of the event gives the fields 0:59:30, which line 113 prints as "-0:59:30".
   */
  lemma NegativeClock()
    ensures ClockOf(-30) == Clock(0, 59, 30)
  {
  }

  /** The time text of line 113: elapsed, total and remaining. */
  datatype TimeText = TimeText(elapsed: Clock, total: Clock, remaining: Clock)

  /**
   * Lines 115-116: `int(p / duration * 100)`, then negative values shown as
   * 0. A zero duration raises ZeroDivisionError.
   */
  function Percent(p: int, duration: int): (r: Result<int>)
    ensures r.Raise? <==> duration == 0
    ensures r.Raise? ==> r.error == ZeroDivisionError
    ensures r.Ok? ==> r.value >= 0
    ensures duration > 0 && p >= 0 ==> r.Ok? && r.value * duration <= 100 * p < (r.value + 1) * duration
    ensures duration > 0 && p <= 0 ==> r == Ok(0)
  {
    if duration == 0 then Raise(ZeroDivisionError)
    else
      var v := TruncDiv(100 * p, duration);
      if duration > 0 && p >= 0 then DivBounds(100 * p, duration); Ok(v)
      else Ok(if v >= 0 then v else 0)
  }

  /** There is no cap at 100: playing on past the end of the event keeps raising the value. */
  lemma {:induction false} PercentExceeds100Iff(p: int, duration: int)
    requires duration > 0
    ensures Percent(p, duration).value > 100 <==> 100 * p >= 101 * duration
  {
    var v := Percent(p, duration).value;
    if p >= 0 {
      assert v * duration <= 100 * p < (v + 1) * duration;
      if v > 100 {
        MultiplyLe(101, v, duration);
      }
      if 100 * p >= 101 * duration {
        CancelFactor(101, v + 1, duration);
      }
    }
  }

  /** A positive factor keeps a non-strict inequality. */
  lemma MultiplyLe(x: int, y: int, d: int)
    requires d > 0 && x <= y
    ensures x * d <= y * d
  {
    assert y * d - x * d == (y - x) * d;
  }

  /** More playback never shows less progress. */
  lemma {:induction false} PercentMonotone(p: int, q: int, duration: int)
    requires duration > 0 && p <= q
    ensures Percent(p, duration).value <= Percent(q, duration).value
  {
    if p > 0 {
      var a, b := Percent(p, duration).value, Percent(q, duration).value;
      assert a * duration <= 100 * p <= 100 * q < (b + 1) * duration;
      CancelFactor(a, b + 1, duration);
    }
  }

  /** What one timer tick computes (lines 108-116). */
  datatype TickDisplay = TickDisplay(elapsed: int, remaining: int, text: TimeText, progress: Result<int>)

  /**
   * `onProgressTimer` at `position` seconds into the current stream: the text
   * is set before the percentage is computed, so a zero duration still
   * updates the text and then raises.
   */
  function Tick(w: Window, position: int): (d: TickDisplay)
    ensures d.elapsed == w.startCurr + position - w.startOrig
    ensures d.elapsed + d.remaining == w.duration
    ensures d.text == TimeText(ClockOf(d.elapsed), ClockOf(w.duration), ClockOf(d.remaining))
    ensures d.progress == Percent(d.elapsed, w.duration)
  {
    var p := w.startCurr + position - w.startOrig;
    var r := w.duration - p;
    TickDisplay(p, r, TimeText(ClockOf(p), ClockOf(w.duration), ClockOf(r)), Percent(p, w.duration))
  }

  /**
   * On a non-empty event, the first tick of a freshly opened player shows
   * nothing elapsed, the whole event remaining and 0 %, and a tick at the end
   * of the event shows 100 %.
   */
  lemma TickBounds(startOrig: int, duration: int)
    requires duration > 0
    ensures Tick(Initial(startOrig, duration), 0).text.elapsed == Clock(0, 0, 0)
    ensures Tick(Initial(startOrig, duration), 0).remaining == duration
    ensures Tick(Initial(startOrig, duration), 0).progress == Ok(0)
    ensures Tick(Initial(startOrig, duration), duration).progress == Ok(100)
  {
    var full := Percent(duration, duration).value;
    assert full * duration <= 100 * duration < (full + 1) * duration;
    CancelFactor(full, 101, duration);
    CancelFactor(99, full, duration);
  }
}
