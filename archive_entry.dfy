/**
 * `playArchiveEntry` (src/IPTVCatchupPlayer.py:234-254): the EPG "play"
 * action that opens the archive player on the selected past event.
 * `processIPTVService` is not part of this model: the playable reference it
 * derives (`sref`) and its reference type are inputs.
 */
module Archive {
  import opened PyErrors
  import opened CatchupRule
  import opened CatchupWindow
  import opened CatchupUrl
  import opened Player

  /** What the EPG list reports for the selected event. */
  datatype EpgEvent = EpgEvent(name: string, begin: int, duration: int)

  /** The arguments `session.open(CatchupPlayer, ...)` receives at line 254. */
  datatype PlayerSetup = PlayerSetup(
    play: PlayRef, srefRet: string, origSref: string, name: string,
    startOrig: int, endOrig: int, duration: int, refType: int)

  /**
   * The selected entry on `service` at time `now`: `Ok(None)` when nothing is
   * opened, the player's arguments when it is, or the exception that escapes.
   * `hasInfobar` stands for `InfoBar.instance` being set.
   */
  function PlayArchiveEntry(service: string, sref: string, refType: int, event: Option<EpgEvent>,
                            now: int, hasInfobar: bool): (r: Result<Option<PlayerSetup>>)
    ensures event.None? ==> r == Ok(None)
    ensures r.Ok? && r.value.Some? ==>
      && event.Some? && hasInfobar
      && Eligibility(service, event.value.begin, now) == Ok(true)
      && SubUrl(sref).Ok?
      && r.value.value.play == PlayRef(refType,
           WindowRequest(service, SubUrl(sref).value, Initial(event.value.begin, event.value.duration)), event.value.name)
      && r.value.value.startOrig == event.value.begin
      && r.value.value.duration == event.value.duration
      && r.value.value.endOrig == event.value.begin + event.value.duration
      && r.value.value.srefRet == sref
      && r.value.value.origSref == service
      && r.value.value.name == event.value.name
      && r.value.value.refType == refType
    ensures event.Some? && Eligibility(service, event.value.begin, now) == Ok(false) ==> r == Ok(None)
    ensures event.Some? && Eligibility(service, event.value.begin, now).Raise? ==>
      r == Raise(Eligibility(service, event.value.begin, now).error)
    ensures event.Some? && Eligibility(service, event.value.begin, now) == Ok(true) && SubUrl(sref).Raise? ==>
      r == Raise(IndexError)
    ensures event.Some? && Eligibility(service, event.value.begin, now) == Ok(true) && SubUrl(sref).Ok? ==>
      r.Ok? && (r.value.Some? <==> hasInfobar)
  {
    if event.None? then Ok(None)
    else
      var ev := event.value;
      match Eligibility(service, ev.begin, now)
      case Raise(e) => Raise(e)
      case Ok(eligible) =>
        if !eligible then Ok(None)
        else
          match SubUrl(sref)
          case Raise(e) => Raise(e)
          case Ok(sub) =>
            var url := UrlRequest(service, sub, ev.begin, ev.begin + ev.duration, ev.duration);
            if !hasInfobar then Ok(None)
            else Ok(Some(PlayerSetup(PlayRef(refType, url, ev.name), sref, service, ev.name,
                                     ev.begin, ev.begin + ev.duration, ev.duration, refType)))
  }

  /**
   * The player opened on an entry plays what the entry asked for: a seek by
   * zero seconds at position 0 on its initial window requests exactly the
   * stream `playArchiveEntry` started, because both read the URL from field
   * 10 of the same reference and both use the live service as base. Only an
   * event with a negative duration would be stopped.
   */
  lemma ZeroSeekReplaysEntry(service: string, sref: string, refType: int, event: Option<EpgEvent>,
                             now: int, hasInfobar: bool, showOnSkip: bool)
    requires PlayArchiveEntry(service, sref, refType, event, now, hasInfobar).Ok?
    requires PlayArchiveEntry(service, sref, refType, event, now, hasInfobar).value.Some?
    ensures var s := PlayArchiveEntry(service, sref, refType, event, now, hasInfobar).value.value;
      var outcome := SeekOutcome(Initial(s.startOrig, s.duration), 0, 0, s.srefRet, s.origSref, s.refType, s.name, showOnSkip);
      && Seek(Initial(s.startOrig, s.duration), 0, 0).window == Initial(s.startOrig, s.duration)
      && PlayService(s.play) in outcome.0
      && (StopService in outcome.0 <==> s.duration < 0)
  {
  }

  /**
   * The icon rule and the play rule agree: on a row whose icon is loaded, an
   * event shows the catchup icon exactly when playing it opens the player
   * (given a reference with a URL field and a running infobar), and one
   * raises exactly when the other does.
   */
  lemma IconMatchesPlay(service: string, sref: string, refType: int, ev: EpgEvent, now: int)
    requires SubUrl(sref).Ok?
    ensures IconShown(service, ev.begin, now, true) == Ok(true) <==>
      PlayArchiveEntry(service, sref, refType, Some(ev), now, true).Ok? &&
      PlayArchiveEntry(service, sref, refType, Some(ev), now, true).value.Some?
    ensures IconShown(service, ev.begin, now, true).Raise? <==>
      PlayArchiveEntry(service, sref, refType, Some(ev), now, true).Raise?
  {
  }
}
