/**
 * The catchup window of `CatchupPlayer`: the archived event the player was
 * opened on (`start_orig`, `duration`) and the window of the stream it
 * currently plays (`start_curr`, `duration_curr`), with the arithmetic of a
 * relative seek (src/IPTVCatchupPlayer.py:162-196). Times are whole seconds.
 */
module CatchupWindow {
  import opened PyErrors

  /** Presentation timestamps run at 90 kHz. */
  const TicksPerSecond: nat := 90000

  datatype Window = Window(startOrig: int, duration: int, startCurr: int, durationCurr: int)
  {
    /** The end the current stream was requested with: `start_curr + duration_curr`. */
    function RequestedEnd(): int {
      startCurr + durationCurr
    }

    /** The end of the archived event. */
    function ArchiveEnd(): int {
      startOrig + duration
    }

    /**
     * The current window runs to the end of the archived event, which is how
     * a window without drift would be laid out.
     */
    predicate EndsWithArchive() {
      RequestedEnd() == ArchiveEnd()
    }
  }

  /** The window set up by the constructor (lines 90-96): the whole event. */
  function Initial(startOrig: int, duration: int): (w: Window)
    ensures w.startCurr == w.startOrig == startOrig
    ensures w.durationCurr == w.duration == duration
    ensures w.EndsWithArchive()
  {
    Window(startOrig, duration, startOrig, duration)
  }

  /** `pts // 90000`: Python's floor division, also for backward seeks. */
  function TicksToSeconds(pts: int): (secs: int)
    ensures secs * TicksPerSecond <= pts < (secs + 1) * TicksPerSecond
  {
    pts / TicksPerSecond
  }

  /** Even a backward seek by one tick moves back by a whole second, a forward one by less than a second not at all. */
  lemma OneTickSeeks()
    ensures TicksToSeconds(-1) == -1
    ensures TicksToSeconds(1) == 0
  {
  }

  /**
   * The outcome of a relative seek on the window: the new window, whether
   * the start was clamped to the beginning of the event (`atStart`), and
   * whether the host is told to stop the service (`stop`).
   */
  datatype SeekStep = SeekStep(window: Window, atStart: bool, stop: bool)

  /**
   * Lines 174-187: seek by `secs` seconds from `position` seconds into the
   * current stream.
   */
  function Seek(w: Window, secs: int, position: int): (r: SeekStep)
    ensures r.window.startOrig == w.startOrig && r.window.duration == w.duration
    ensures r.window.startCurr >= w.startOrig
    ensures r.window.startCurr == Max(w.startOrig, w.startCurr + position + secs)
    ensures r.atStart <==> w.startCurr + position + secs < w.startOrig
    ensures r.atStart ==> r.window.durationCurr == w.duration
    ensures !r.atStart ==> r.window.durationCurr == w.durationCurr - secs
    ensures r.stop <==> r.window.startCurr > w.ArchiveEnd()
  {
    var target := w.startCurr + position + secs;
    var atStart := target < w.startOrig;
    var start := if atStart then w.startOrig else target;
    var durationCurr := if atStart then w.duration else w.durationCurr - secs;
    SeekStep(Window(w.startOrig, w.duration, start, durationCurr), atStart, start > w.ArchiveEnd())
  }

  /**
   * A seek that lands inside the event moves the requested end by exactly the
   * playback position: `duration_curr` is reduced by the seek only, not by
   * the part of the stream already played.
   */
  lemma SeekMovesEndByPosition(w: Window, secs: int, position: int)
    requires !Seek(w, secs, position).atStart
    ensures Seek(w, secs, position).window.RequestedEnd() == w.RequestedEnd() + position
  {
  }

  /**
   * A window that ends with the archive keeps doing so after a seek exactly
   * when the seek is made at position 0 or lands on the start of the event.
   */
  lemma SeekKeepsArchiveEndIff(w: Window, secs: int, position: int)
    requires w.EndsWithArchive()
    ensures Seek(w, secs, position).window.EndsWithArchive() <==>
      position == 0 || Seek(w, secs, position).atStart
  {
  }

  /**
   * However many seeks are made, the event itself is never changed and the
   * current start never falls before the start of the event.
   */
  lemma {:induction false} SeeksStayAfterStart(w: Window, secs: seq<int>, positions: seq<int>)
    requires |secs| == |positions|
    requires w.startCurr >= w.startOrig
    ensures SeekAll(w, secs, positions).startOrig == w.startOrig
    ensures SeekAll(w, secs, positions).duration == w.duration
    ensures SeekAll(w, secs, positions).startCurr >= w.startOrig
    decreases |secs|
  {
    if secs != [] {
      SeeksStayAfterStart(Seek(w, secs[0], positions[0]).window, secs[1..], positions[1..]);
    }
  }

  /** A run of seeks, each at its own playback position. */
  function SeekAll(w: Window, secs: seq<int>, positions: seq<int>): Window
    requires |secs| == |positions|
    decreases |secs|
  {
    if secs == [] then w else SeekAll(Seek(w, secs[0], positions[0]).window, secs[1..], positions[1..])
  }

  /**
   * Seeks made at position 0 add up: the start moves by their sum while no
   * clamp fires, and `duration_curr` shrinks by the same sum.
   */
  lemma {:induction false} SeeksAtZeroAddUp(w: Window, secs: seq<int>)
    requires forall k :: 0 <= k <= |secs| ==> w.startCurr + Sum(secs[..k]) >= w.startOrig
    ensures var positions := seq(|secs|, _ => 0);
      && SeekAll(w, secs, positions).startCurr == w.startCurr + Sum(secs)
      && SeekAll(w, secs, positions).durationCurr == w.durationCurr - Sum(secs)
    decreases |secs|
  {
    var positions := seq(|secs|, _ => 0);
    if secs != [] {
      var w' := Seek(w, secs[0], 0).window;
      forall k | 0 <= k <= |secs| - 1
        ensures w'.startCurr + Sum(secs[1..][..k]) >= w'.startOrig
      {
        assert secs[..k + 1] == [secs[0]] + secs[1..][..k];
        assert Sum(secs[..k + 1]) == secs[0] + Sum(secs[1..][..k]);
      }
      SeeksAtZeroAddUp(w', secs[1..]);
      assert positions[1..] == seq(|secs| - 1, _ => 0);
      assert secs[..1] == [secs[0]];
      assert Sum(secs[..1]) == secs[0];
    }
  }

  function Sum(xs: seq<int>): int {
    if xs == [] then 0 else xs[0] + Sum(xs[1..])
  }

  /**
   * A worked example: an event at 1000 lasting 3600 s; a seek
   * of +600 s at position 0 gives the window (1600, 3000); a further +3100 s
   * lands at 4700, past the end at 4600, so a stop is issued, yet
   * `duration_curr` is then -100 and is still used for the next request.
   */
  lemma ExhaustedExample()
    ensures Seek(Initial(1000, 3600), 600, 0) == SeekStep(Window(1000, 3600, 1600, 3000), false, false)
    ensures Seek(Window(1000, 3600, 1600, 3000), 3100, 0) == SeekStep(Window(1000, 3600, 4700, -100), false, true)
  {
  }
}
