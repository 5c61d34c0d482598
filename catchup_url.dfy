/**
 * What the player hands to the URL builder and to the host when it switches
 * to an archived stream. `constructCatchUpUrl` lives in a file that is not
 * part of this model, so the model keeps its arguments instead of the URL.
 */
module CatchupUrl {
  import opened PyErrors
  import opened PyText
  import opened CatchupWindow

  /**
   * The arguments of `constructCatchUpUrl(base, sub, start, end, duration)`:
   * the live service reference, the sub-URL taken from the playing reference,
   * and the requested window.
   */
  datatype UrlRequest = UrlRequest(base: string, subUrl: string, start: int, end: int, duration: int)

  /** `eServiceReference(refType, 0, url)` named after the EPG event. */
  datatype PlayRef = PlayRef(refType: int, url: UrlRequest, name: string)

  /** Index of the URL field in a colon-separated service reference. */
  const UrlField: nat := 10

  /**
   * `sref.split(":")[10:][0]` (lines 188-189 and 246-247): the eleventh field,
   * or IndexError when the reference has fewer than ten colons.
   */
  function SubUrl(sref: string): (r: Result<string>)
    ensures r.Ok? <==> Count(sref, ':') >= UrlField
    ensures r.Raise? ==> r.error == IndexError
    ensures r.Ok? ==> ':' !in r.value
  {
    ItemAt(Split(sref, ':'), UrlField)
  }

  /** The field really is the text between the tenth and eleventh colon. */
  lemma SubUrlFromFields(fields: seq<string>)
    requires |fields| > UrlField
    requires forall k :: 0 <= k < |fields| ==> ':' !in fields[k]
    ensures SubUrl(Join(fields, ':')) == Ok(fields[UrlField])
  {
    SplitJoin(fields, ':');
  }

  /** The request for the stream of a window (line 190, and line 248 for the whole event). */
  function WindowRequest(base: string, sub: string, w: Window): (u: UrlRequest)
    ensures u.base == base && u.subUrl == sub
    ensures u.start == w.startCurr && u.duration == w.durationCurr
    ensures u.end - u.start == u.duration
    ensures u.end == w.RequestedEnd()
  {
    UrlRequest(base, sub, w.startCurr, w.startCurr + w.durationCurr, w.durationCurr)
  }
}
