# Catchup player of the M3U IPTV plugin, in Dafny

This project models the catchup ("archive") playback logic of the set-top-box
IPTV plugin, from `src/IPTVCatchupPlayer.py`, and proves properties of it.
The modelled parts are:

- the rule that decides whether a past EPG event can be played from the
  archive. The service string carries `catchupdays=<n>`, and the event began in
  the past and no more than `n` days ago. The EPG icon loop and the "play
  archive" action both use this rule (`CatchupRule`, `Archive`);
- the window bookkeeping of `CatchupPlayer`: the original event
  (`start_orig`, `duration`), the current stream window (`start_curr`,
  `duration_curr`) and the relative seek that moves it. The seek also stops
  the service and asks for a new stream URL (`CatchupWindow`, `CatchupUrl`,
  `Player.CatchupPlayer`);
- the progress display: playback position, H:MM:SS fields, and the
  percentage (`Progress`);
- the on/off state of the progress timer and of its registered callback
  (`Player.CatchupPlayer`).

Host calls are returned as a list of effects in call order: stop service,
play service, refresh, show infobar, leave, hide. Python exceptions that
escape are returned as a `PyError`. The host's playback position, the clock
(`now`), the infobar setting and the presence of an EPG icon are inputs.
`constructCatchUpUrl` and `processIPTVService` live in files that are not part
of this model. The model keeps the arguments passed to `constructCatchUpUrl`
(`UrlRequest`) instead of the URL, and takes the reference and reference type
that `processIPTVService` derives as inputs.

Behaviour of the code that the proofs pin down, some of it unexpected:

- An empty digit run after `catchupdays=` makes `int('')` raise ValueError.
  The rule does not fail closed.
- Only the first `catchupdays=` in the service string counts.
- A digit run longer than 4300 characters, leading zeros included, makes
  `int()` raise ValueError under CPython's integer string conversion limit
  (`LongRunOfZerosRaises`). A shorter day count above 999999999 makes
  `datetime.timedelta` raise OverflowError.
- In the icon loop, such an error comes at the first past event, before any
  icon of the row is placed (`ScanErrorMarksNothing`).
- A seek past the end of the event issues a stop and then still plays the new
  window, even when `duration_curr` has gone negative (`StopThenPlay`,
  `ExhaustedExample`).
- A seek reduces `duration_curr` by the seek only, not by the position
  already played. So every seek inside the event moves the requested window
  end forward by the playback position (`SeekMovesEndByPosition`,
  `SeekKeepsArchiveEndIff`).
- The progress percentage has no upper cap (`PercentExceeds100Iff`).
- A zero `duration` sets the time text and then raises ZeroDivisionError.
- A negative remaining time is shown through Python's floored `%`, for
  example "-0:59:30" for 30 s past the end (`NegativeClock`).
- A seek moves `start_curr` to the current playback position plus the seek,
  not to the old `start_curr` plus the seek (`Seek`).
- Removing the tick callback uses `list.remove`, so a second teardown
  (`leavePlayer` followed by `destroy`) raises ValueError
  (`LeaveThenDestroy`).

## Model

| member | source | states |
|---|---|---|
| PyText.Find | src/IPTVCatchupPlayer.py:71 | the index where the search for `catchupdays=` matches: an occurrence with no earlier one, or none at all |
| PyText.Contains | src/IPTVCatchupPlayer.py:67 | `pat in s` holds iff `pat` occurs somewhere in `s` |
| PyText.DigitRun | src/IPTVCatchupPlayer.py:71 | the `(\d*)` group: a prefix of the text, all digits, followed by a non-digit or the end |
| PyText.ParseDigits | src/IPTVCatchupPlayer.py:72 | `int(run)` raises ValueError exactly for the empty run and for a run longer than 4300 characters; otherwise it is the decimal value of the run |
| PyText.DecimalRoundTrip | src/IPTVCatchupPlayer.py:72 | the digits of every day count written in decimal parse back to that count |
| PyText.LongRunOfZerosRaises | src/IPTVCatchupPlayer.py:72 | 4300 or more zeros before `3` denote 3, yet `int()` raises ValueError on them |
| PyText.ParseDigitsOfDecimalText | src/IPTVCatchupPlayer.py:72 | `int(str(n)) == n` for every natural number `n` whose numeral is within the conversion limit |
| PyText.LeadingZeroIgnored | src/IPTVCatchupPlayer.py:72 | a leading zero does not change the day count |
| PyText.Split | src/IPTVCatchupPlayer.py:188 | `split(":")` gives one more field than there are colons, none holding a colon |
| PyText.JoinSplit | src/IPTVCatchupPlayer.py:188 | joining the fields of a split gives the reference back |
| PyText.SplitJoin | src/IPTVCatchupPlayer.py:246 | splitting colon-free fields joined by colons gives the fields back |
| CatchupRule.DaysDigits | src/IPTVCatchupPlayer.py:71 | the captured digits follow the first `catchupdays=` and are maximal |
| CatchupRule.CatchupDays | src/IPTVCatchupPlayer.py:71-72 | the day count is the value of the captured digits, or ValueError when there are none or more than 4300 of them |
| CatchupRule.TimedeltaDays | src/IPTVCatchupPlayer.py:72-73 | ValueError from `int()` first; then `timedelta(days=n)` accepts counts up to 999999999 and raises OverflowError above |
| CatchupRule.Eligibility | src/IPTVCatchupPlayer.py:241-244 | eligible iff the marker is present, the event began before now and at most days*86400 s ago; raises iff marker present, event past and the count bad; no marker or future event is Ok(false) |
| CatchupRule.ThreeDayExamples | src/IPTVCatchupPlayer.py:244 | with `catchupdays=3` events 2 and exactly 3 days old are eligible, 4 days old is not |
| CatchupRule.EmptyDaysRaise | src/IPTVCatchupPlayer.py:242-243 | an empty first digit run raises ValueError even when a later `catchupdays=` has digits |
| CatchupRule.BoundIsInclusive | src/IPTVCatchupPlayer.py:244 | an event exactly `days` days old is eligible, one second older is not |
| CatchupRule.EligibilityMonotone | src/IPTVCatchupPlayer.py:241-244 | a more recent past event of an eligible service is eligible too |
| CatchupRule.IconShown | src/IPTVCatchupPlayer.py:67-73 | with an icon loaded the icon test is the shared rule; without one it is false and never raises |
| CatchupRule.ScanMarksOnlyEligible | src/IPTVCatchupPlayer.py:63-78 | every event given an icon is eligible, in increasing order |
| CatchupRule.ScanErrorSticks | src/IPTVCatchupPlayer.py:63-78 | once the loop has raised, later events change nothing |
| CatchupRule.ScanCompleteMarksAllEligible | src/IPTVCatchupPlayer.py:63-78 | a loop that finishes marks exactly the eligible events |
| CatchupRule.ScanErrorMarksNothing | src/IPTVCatchupPlayer.py:63-78 | a loop that raises has placed no icon, and raises the error of the day count |
| CatchupRule.ScanBadCountMarksNothing | src/IPTVCatchupPlayer.py:67-72 | with a bad day count, as long as nothing has raised no icon was placed |
| CatchupRule.InjectCatchupIcon | src/IPTVCatchupPlayer.py:54-78 | the loop's icons and exception are those of the scan: without error exactly the eligible events, with error none |
| CatchupWindow.Initial | src/IPTVCatchupPlayer.py:90-96 | the opening window is the whole event and ends with it |
| CatchupWindow.TicksToSeconds | src/IPTVCatchupPlayer.py:163 | `pts // 90000` is the floor of the tick count in seconds |
| CatchupWindow.OneTickSeeks | src/IPTVCatchupPlayer.py:163 | one tick back is a whole second back, one tick forward is no move |
| CatchupWindow.Seek | src/IPTVCatchupPlayer.py:174-187 | new start = max(start_orig, start_curr + position + secs); clamp iff below start_orig, then duration_curr = duration, else duration_curr - secs; stop iff new start past start_orig + duration; event unchanged |
| CatchupWindow.SeekMovesEndByPosition | src/IPTVCatchupPlayer.py:184-187 | an unclamped seek moves the requested end by exactly the playback position |
| CatchupWindow.SeekKeepsArchiveEndIff | src/IPTVCatchupPlayer.py:174-187 | a window ending with the event keeps doing so iff the seek is at position 0 or clamps |
| CatchupWindow.SeeksStayAfterStart | src/IPTVCatchupPlayer.py:177-179 | after any run of seeks the event is unchanged and the start is not before it |
| CatchupWindow.SeeksAtZeroAddUp | src/IPTVCatchupPlayer.py:174-187 | unclamped seeks at position 0 move the start by their sum and shrink duration_curr by it |
| CatchupWindow.ExhaustedExample | src/IPTVCatchupPlayer.py:181-187 | event (1000, 3600): +600 gives (1600, 3000); +3100 then stops with duration_curr -100 |
| CatchupUrl.SubUrl | src/IPTVCatchupPlayer.py:188-189 | field 10 of the colon split exists iff there are at least ten colons, else IndexError |
| CatchupUrl.SubUrlFromFields | src/IPTVCatchupPlayer.py:246-247 | the field read is the eleventh of the fields the reference was made of |
| CatchupUrl.WindowRequest | src/IPTVCatchupPlayer.py:190 | the URL is asked for with the live reference and field 10 unchanged, and the window (start_curr, start_curr + duration_curr, duration_curr) |
| Progress.Position | src/IPTVCatchupPlayer.py:118-125 | 0 without a seek interface or on a position error, else the position in whole seconds |
| Progress.TruncDiv | src/IPTVCatchupPlayer.py:115 | `int()` of a quotient truncates toward zero: the quotient of the magnitudes, negated when the signs differ |
| Progress.ClockOf | src/IPTVCatchupPlayer.py:113 | minutes and seconds always lie in 0..59; for non-negative times the fields add up to the time |
| Progress.NegativeClock | src/IPTVCatchupPlayer.py:113 | 30 s past the end shows the fields 0:59:30 |
| Progress.Percent | src/IPTVCatchupPlayer.py:115-116 | ZeroDivisionError iff duration is 0; never negative; for positive duration the floor of 100*p/duration, 0 for p <= 0 |
| Progress.PercentExceeds100Iff | src/IPTVCatchupPlayer.py:116 | the percentage exceeds 100 iff elapsed reaches 1.01 times the duration: no cap |
| Progress.PercentMonotone | src/IPTVCatchupPlayer.py:115-116 | more elapsed time never shows a lower percentage |
| Progress.Tick | src/IPTVCatchupPlayer.py:108-116 | elapsed = start_curr + position - start_orig, elapsed + remaining = duration, text and percentage from them |
| Progress.TickBounds | src/IPTVCatchupPlayer.py:108-116 | first tick of a new player: 0:00:00 elapsed, the whole event remaining, 0 %; at the end 100 % |
| Player.SeekOutcome | src/IPTVCatchupPlayer.py:174-196 | the host calls are exactly: a stop iff the seek is past the end; then, when field 10 exists, playing the new window and a refresh; then the infobar iff a non-zero seek with the setting on and a non-zero duration. The error is IndexError without field 10, ZeroDivisionError for duration 0, and none otherwise |
| Player.InfobarOnAnyWholeSecond | src/IPTVCatchupPlayer.py:195 | `abs(pts*90000) > 100` on whole seconds means a non-zero seek |
| Player.StopThenPlay | src/IPTVCatchupPlayer.py:181-193 | a stop is immediately followed by playing the new window |
| Player.TimerFollowsLastSwitch | src/IPTVCatchupPlayer.py:135-142 | the timer runs iff the last of '>', '\|\|', 'END' was '>'; other states leave it |
| Player.CatchupPlayer.constructor | src/IPTVCatchupPlayer.py:81-105 | the window is the whole event, the callback registered and the timer started |
| Player.CatchupPlayer.DoSeekRelative | src/IPTVCatchupPlayer.py:162-196 | no seek interface: nothing changes; else the window becomes the one of Seek, start_curr is not before start_orig, and the effects are those of SeekOutcome |
| Player.CatchupPlayer.OnServiceStart | src/IPTVCatchupPlayer.py:127-129 | a service start starts the timer |
| Player.CatchupPlayer.OnServiceEnd | src/IPTVCatchupPlayer.py:131-133 | a service end stops the timer |
| Player.CatchupPlayer.OnPlayStateChanged | src/IPTVCatchupPlayer.py:135-142 | '>' starts the timer, '\|\|' and 'END' stop it, other states leave it |
| Player.CatchupPlayer.StopAndUnregister | src/IPTVCatchupPlayer.py:146-147 | stops the timer, removes the callback, ValueError if it was not registered |
| Player.CatchupPlayer.Destroy | src/IPTVCatchupPlayer.py:144-147 | timer stopped and callback removed; ValueError if already removed |
| Player.CatchupPlayer.LeavePlayer | src/IPTVCatchupPlayer.py:149-154 | timer stopped, callback removed, then leave; a missing callback raises before the leave |
| Player.CatchupPlayer.LeavePlayerOnExit | src/IPTVCatchupPlayer.py:156-160 | a shown infobar is only hidden; otherwise the player is left |
| Player.LeaveThenDestroy | src/IPTVCatchupPlayer.py:144-154 | leaving then destroying raises ValueError on the second removal |
| Player.PauseResume | src/IPTVCatchupPlayer.py:131-142 | pause stops the timer, '>' restarts it, service end stops it and '>>' leaves it stopped |
| Archive.PlayArchiveEntry | src/IPTVCatchupPlayer.py:234-254 | for an eligible event with a URL field the player is opened exactly when there is an infobar, on the whole event's window, with the reference, the live service, the event name and the reference type handed to the player, and nothing raises before `session.open`; otherwise nothing opens; eligibility errors and IndexError escape |
| Archive.ZeroSeekReplaysEntry | src/IPTVCatchupPlayer.py:188-193 | a zero seek at the start of a freshly opened player requests the very stream the entry opened |
| Archive.IconMatchesPlay | src/IPTVCatchupPlayer.py:241-244 | the icon is shown iff playing the event opens the player, and one raises iff the other does |

## Left out

- EPG widget patching, action-map wiring and icon loading (lines 28-52) change host classes when the plugin loads. They hold no logic to model.
- Icon geometry in `injectCatchupIcon` (lines 55-66 and 74-78) is left out. Only the indices of the events that get an icon are kept.
- `constructCatchUpUrl` and `processIPTVService` are not part of this model. Their arguments and results stand in for them.
- The host services are abstracted: `playService`, `stopService`, `eServiceReference`, `eTimer`, `showAfterSeek`, `handleLeave` and `hide` become effects; `config.usage.show_infobar_on_skip` and `InfoBar.instance` become booleans.
- Resume points (`setResumePoint` in `leavePlayer`, lines 198-215, and `doEofInternal`, lines 217-225) write a global cache and save it through host functions.
- The seek-state juggling at end of file (lines 167-172) belongs to the host's seek state machine.
- `leavePlayer` calls `setResumePoint` first; if that raises, the model does not reflect it.
- Player.CatchupPlayer.constructor: the display refresh the source runs at line 102 is not run. Its result is `Tick` of the initial window; with a zero duration it raises in the source.
- Progress.Position: `getPosition` divides the tick count with true division. The model rounds down to whole seconds, so `start_curr` stays an integer. In the source it becomes a float after a seek at a fractional position.
- Progress.Percent: `int(p / duration * 100)` is computed in floating point. The model computes it exactly, so it can differ from the source in the last digit near a whole percent.
- Progress.ClockOf: the model keeps the nine numbers of the time text. The characters themselves (padding, separators) are not built.
- CatchupRule.Eligibility: `time()` (lines 62 and 235) returns fractional seconds; the model takes an integer `now`. For an integer start time the source's test at a fractional `now` equals `Eligibility` at the ceiling of `now`.
- Archive.PlayArchiveEntry: takes the same integer `now` as `Eligibility`. It ends at `session.open`: for a zero-length event the player's constructor then raises ZeroDivisionError in its first refresh (lines 102 and 115), which the model does not show.
- CatchupRule.TimedeltaDays: the 4300-character limit of `int()` is that of CPython 3.11 and later and its security releases; an interpreter without the limit gives OverflowError or the value instead for such a run.
- CatchupRule.Eligibility: Python's `\d` and `int()` also accept non-ASCII decimal digits. The model accepts ASCII digits only.
- `DoSeekRelative`'s display refresh (line 194) reads the position of the newly played stream from the host. The model records only that a refresh happens, and whether it raises.
- `up` and `down` (lines 227-231) do nothing. They are not modelled.
