/**
 * `CatchupPlayer` of src/IPTVCatchupPlayer.py:80-231: the archive player's
 * window fields, its relative seek, and the on/off state of its progress
 * timer. Host calls are returned as effects; the host's playback position
 * is passed in.
 */
module Player {
  import opened PyErrors
  import opened CatchupWindow
  import opened CatchupUrl
  import opened Progress

  /** A call into the host, in the order the player makes it. */
  datatype Effect =
    | StopService              // session.nav.stopService()
    | PlayService(ref: PlayRef) // session.nav.playService(ref)
    | RefreshDisplay           // onProgressTimer(): the time text is set
    | ShowInfobar              // showAfterSeek()
    | HandleLeave              // handleLeave("quit")
    | Hide                     // hide()

  /**
   * Lines 174-196 once a seek interface exists: the host calls `doSeekRelative`
   * makes for a seek by `secs` seconds at `position`, and the exception that
   * leaves it, if any.
   */
  function SeekOutcome(w: Window, secs: int, position: int, srefRet: string, origSref: string,
                       refType: int, name: string, showOnSkip: bool): (r: (seq<Effect>, Option<PyError>))
    ensures var step := Seek(w, secs, position);
      && (StopService in r.0 <==> step.stop)
      && (r.1 == Some(IndexError) <==> SubUrl(srefRet).Raise?)
      && (SubUrl(srefRet).Ok? ==>
            PlayService(PlayRef(refType, WindowRequest(origSref, SubUrl(srefRet).value, step.window), name)) in r.0)
      && (r.1 == Some(ZeroDivisionError) <==> SubUrl(srefRet).Ok? && w.duration == 0)
      && (ShowInfobar in r.0 <==> SubUrl(srefRet).Ok? && w.duration != 0 && secs != 0 && showOnSkip)
    ensures r.1 == if SubUrl(srefRet).Raise? then Some(IndexError)
                   else if w.duration == 0 then Some(ZeroDivisionError)
                   else None
    ensures var step := Seek(w, secs, position);
      r.0 == (if step.stop then [StopService] else []) +
             (if SubUrl(srefRet).Raise? then []
              else [PlayService(PlayRef(refType, WindowRequest(origSref, SubUrl(srefRet).value, step.window), name)),
                    RefreshDisplay] +
                   (if w.duration != 0 && secs != 0 && showOnSkip then [ShowInfobar] else []))
  {
    var step := Seek(w, secs, position);
    var stopped := if step.stop then [StopService] else [];
    match SubUrl(srefRet)
    case Raise(e) => (stopped, Some(e))
    case Ok(sub) =>
      var played := stopped + [PlayService(PlayRef(refType, WindowRequest(origSref, sub, step.window), name)), RefreshDisplay];
      if w.duration == 0 then (played, Some(ZeroDivisionError))
      else
        InfobarOnAnyWholeSecond(secs);
        (if Abs(secs * TicksPerSecond) > 100 && showOnSkip then played + [ShowInfobar] else played, None)
  }

  /** `abs(pts * 90000) > 100` on whole seconds holds exactly for a non-zero seek. */
  lemma InfobarOnAnyWholeSecond(secs: int)
    ensures Abs(secs * TicksPerSecond) > 100 <==> secs != 0
  {
  }

  /**
   * A stop does not end the seek: when the start lands past the end of the
   * event the host is told to stop and then, straight after, to play the new
   * window.
   */
  lemma StopThenPlay(w: Window, secs: int, position: int, srefRet: string, origSref: string,
                     refType: int, name: string, showOnSkip: bool)
    requires Seek(w, secs, position).stop && SubUrl(srefRet).Ok?
    ensures var effects := SeekOutcome(w, secs, position, srefRet, origSref, refType, name, showOnSkip).0;
      |effects| >= 2 && effects[0] == StopService && effects[1].PlayService?
  {
  }

  /** How `__playStateChanged` leaves the progress timer (lines 135-142). */
  function TimerAfterPlayState(running: bool, playState: string): bool {
    if playState == ">" then true
    else if playState == "||" || playState == "END" then false
    else running
  }

  /** The play-state strings that switch the timer; every other one leaves it as it is. */
  predicate Switches(playState: string) {
    playState == ">" || playState == "||" || playState == "END"
  }

  /** The timer after a run of play-state changes, oldest first. */
  function TimerAfterPlayStates(running: bool, states: seq<string>): bool {
    if states == [] then running
    else TimerAfterPlayState(TimerAfterPlayStates(running, states[..|states| - 1]), states[|states| - 1])
  }

  /**
   * The timer runs exactly when the last switching play state was '>'; with
   * no switching state it is as it was.
   */
  lemma {:induction false} TimerFollowsLastSwitch(running: bool, states: seq<string>)
    ensures (forall k :: 0 <= k < |states| ==> !Switches(states[k])) ==>
      TimerAfterPlayStates(running, states) == running
    ensures forall k ::
      (0 <= k < |states| && Switches(states[k]) && forall j :: k < j < |states| ==> !Switches(states[j])) ==>
      TimerAfterPlayStates(running, states) == (states[k] == ">")
  {
    if states != [] {
      var init := states[..|states| - 1];
      TimerFollowsLastSwitch(running, init);
      assert forall k :: 0 <= k < |init| ==> init[k] == states[k];
    }
  }

  class CatchupPlayer {
    const origSref: string
    const srefRet: string
    const eventName: string
    const catchupRefType: int
    const startOrig: int
    const endOrig: int
    const duration: int
    var startCurr: int
    var durationCurr: int
    /** Whether `progress_timer` is started. */
    var timerRunning: bool
    /** Whether `onProgressTimer` is in `progress_timer.callback`. */
    var tickRegistered: bool

    function CurrentWindow(): Window
      reads this
    {
      Window(startOrig, duration, startCurr, durationCurr)
    }

    /**
     * Lines 81-105: the whole event as current window, the tick callback
     * registered and the timer started.
     */
    constructor (srefRet: string, eventName: string, origSref: string, startOrig: int, endOrig: int,
                 duration: int, catchupRefType: int)
      ensures CurrentWindow() == Initial(startOrig, duration)
      ensures this.srefRet == srefRet && this.eventName == eventName && this.origSref == origSref
      ensures this.endOrig == endOrig && this.catchupRefType == catchupRefType
      ensures timerRunning && tickRegistered
    {
      this.origSref := origSref;
      this.srefRet := srefRet;
      this.eventName := eventName;
      this.catchupRefType := catchupRefType;
      this.startOrig := startOrig;
      this.endOrig := endOrig;
      this.duration := duration;
      startCurr := startOrig;
      durationCurr := duration;
      tickRegistered := true;
      timerRunning := true;
    }

    /**
     * Lines 162-196: a relative seek by `pts` ticks, with `seek` what
     * `getSeek().getPlayPosition()` gives (`None` without a seek interface)
     * and `showOnSkip` the setting `config.usage.show_infobar_on_skip`.
     */
    method DoSeekRelative(pts: int, seek: Option<PlayPosition>, showOnSkip: bool)
      returns (effects: seq<Effect>, error: Option<PyError>)
      modifies this`startCurr, this`durationCurr
      ensures seek.Some? ==> startCurr >= startOrig
      ensures seek.None? ==> CurrentWindow() == old(CurrentWindow()) && effects == [] && error.None?
      ensures seek.Some? ==>
        CurrentWindow() == Seek(old(CurrentWindow()), TicksToSeconds(pts), Position(seek)).window
      ensures seek.Some? ==>
        (effects, error) == SeekOutcome(old(CurrentWindow()), TicksToSeconds(pts), Position(seek),
                                        srefRet, origSref, catchupRefType, eventName, showOnSkip)
    {
      ghost var before := CurrentWindow();
      var secs := pts / TicksPerSecond;
      if seek.None? {
        return [], None;
      }
      var currPos := startCurr + Position(seek);
      startCurr := currPos + secs;
      var atStart := false;
      if startCurr < startOrig {
        startCurr := startOrig;
        atStart := true;
      }
      effects := [];
      if startCurr > startOrig + duration {
        effects := [StopService];
      }
      if atStart {
        durationCurr := duration;
      } else {
        durationCurr := durationCurr - secs;
      }
      var sub := SubUrl(srefRet);
      if sub.Raise? {
        return effects, Some(sub.error);
      }
      var url := UrlRequest(origSref, sub.value, startCurr, startCurr + durationCurr, durationCurr);
      assert url == WindowRequest(origSref, sub.value, Seek(before, secs, Position(seek)).window);
      effects := effects + [PlayService(PlayRef(catchupRefType, url, eventName)), RefreshDisplay];
      if duration == 0 {
        return effects, Some(ZeroDivisionError);
      }
      if Abs(secs * TicksPerSecond) > 100 && showOnSkip {
        effects := effects + [ShowInfobar];
      }
      error := None;
    }

    /** `__evServiceStart` (lines 127-129): the timer always exists, so it is started. */
    method OnServiceStart()
      modifies this`timerRunning
      ensures timerRunning
    {
      timerRunning := true;
    }

    /** `__evServiceEnd` (lines 131-133). */
    method OnServiceEnd()
      modifies this`timerRunning
      ensures !timerRunning
    {
      timerRunning := false;
    }

    /** `__playStateChanged` (lines 135-142) with `state[3]` as `playState`. */
    method OnPlayStateChanged(playState: string)
      modifies this`timerRunning
      ensures timerRunning == TimerAfterPlayState(old(timerRunning), playState)
    {
      if playState == ">" {
        timerRunning := true;
      } else if playState == "||" {
        timerRunning := false;
      } else if playState == "END" {
        timerRunning := false;
      }
    }

    /**
     * Stops the timer and removes the tick callback with `list.remove`, which
     * raises ValueError when the callback is not registered any more.
     */
    method StopAndUnregister() returns (error: Option<PyError>)
      modifies this`timerRunning, this`tickRegistered
      ensures !timerRunning && !tickRegistered
      ensures error == if old(tickRegistered) then None else Some(ValueError)
    {
      timerRunning := false;
      if !tickRegistered {
        return Some(ValueError);
      }
      tickRegistered := false;
      error := None;
    }

    /** `destroy` (lines 144-147). */
    method Destroy() returns (error: Option<PyError>)
      modifies this`timerRunning, this`tickRegistered
      ensures !timerRunning && !tickRegistered
      ensures error == if old(tickRegistered) then None else Some(ValueError)
    {
      error := StopAndUnregister();
    }

    /**
     * `leavePlayer` (lines 149-154) after the resume point is written: the
     * host is told to leave only when removing the callback did not raise.
     */
    method LeavePlayer() returns (effects: seq<Effect>, error: Option<PyError>)
      modifies this`timerRunning, this`tickRegistered
      ensures !timerRunning && !tickRegistered
      ensures error == if old(tickRegistered) then None else Some(ValueError)
      ensures effects == if old(tickRegistered) then [HandleLeave] else []
    {
      error := StopAndUnregister();
      effects := if error.None? then [HandleLeave] else [];
    }

    /** `leavePlayerOnExit` (lines 156-160): a shown infobar is hidden first. */
    method LeavePlayerOnExit(shown: bool) returns (effects: seq<Effect>, error: Option<PyError>)
      modifies this`timerRunning, this`tickRegistered
      ensures shown ==> effects == [Hide] && error.None? && timerRunning == old(timerRunning) && tickRegistered == old(tickRegistered)
      ensures !shown ==> !timerRunning && !tickRegistered
      ensures !shown ==> error == (if old(tickRegistered) then None else Some(ValueError))
      ensures !shown ==> effects == (if old(tickRegistered) then [HandleLeave] else [])
    {
      if shown {
        return [Hide], None;
      }
      effects, error := LeavePlayer();
    }
  }

  /**
   * Tearing down is not idempotent: a player left with `leavePlayer` and then
   * destroyed raises ValueError from the second removal of its callback.
   */
  method LeaveThenDestroy(startOrig: int, duration: int) returns (left: seq<Effect>, first: Option<PyError>, second: Option<PyError>)
    ensures left == [HandleLeave] && first.None?
    ensures second == Some(ValueError)
  {
    var player := new CatchupPlayer("", "", "", startOrig, startOrig + duration, duration, 4097);
    left, first := player.LeavePlayer();
    second := player.Destroy();
  }

  /**
   * Pausing stops the timer, resuming restarts it, and after the end of the
   * service nothing but a new '>' or a new service restarts it.
   */
  method PauseResume(startOrig: int, duration: int) returns (paused: bool, resumed: bool, ended: bool)
    ensures !paused && resumed && !ended
  {
    var player := new CatchupPlayer("", "", "", startOrig, startOrig + duration, duration, 4097);
    player.OnPlayStateChanged("||");
    paused := player.timerRunning;
    player.OnPlayStateChanged(">");
    resumed := player.timerRunning;
    player.OnServiceEnd();
    player.OnPlayStateChanged(">>");
    ended := player.timerRunning;
  }
}
