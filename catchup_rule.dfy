/**
 * The catchup-eligibility rule of an EPG event: the service string carries
 * `catchupdays=<digits>`, the event began in the past, and no more than that
 * many whole days ago. The rule is written twice in src/IPTVCatchupPlayer.py,
 * once for the EPG icon (`injectCatchupIcon`) and once before opening the
 * archive player (`playArchiveEntry`); both are modelled on the one function
 * `Eligibility`.
 */
module CatchupRule {
  import opened PyErrors
  import opened PyText

  const Marker: string := "catchupdays="
  const SecondsPerDay: nat := 86400
  /** The largest day count `datetime.timedelta` accepts. */
  const MaxTimedeltaDays: nat := 999999999

  /** The digits `re.search(r"catchupdays=(\d*)", service)` captures. */
  function DaysDigits(service: string): (ds: string)
    requires Contains(service, Marker)
    ensures AllDigits(ds)
    ensures var i := Find(service, Marker).value;
      && OccursAt(service, Marker + ds, i)
      && (i + |Marker| + |ds| == |service| || !IsDigit(service[i + |Marker| + |ds|]))
  {
    var i := Find(service, Marker).value;
    var ds := DigitRun(service[i + |Marker|..]);
    assert service[i..i + |Marker| + |ds|] == Marker + ds;
    ds
  }

  /**
   * `int(match.groups(1)[0])`: the day count, or ValueError for an empty digit
   * run or one longer than the conversion limit.
   */
  function CatchupDays(service: string): (r: Result<nat>)
    requires Contains(service, Marker)
    ensures r.Raise? <==> DaysDigits(service) == [] || |DaysDigits(service)| > MaxStrDigits
    ensures r.Raise? ==> r.error == ValueError
    ensures r.Ok? ==> r.value == DecimalValue(DaysDigits(service))
  {
    ParseDigits(DaysDigits(service))
  }

  /**
   * The day count as `datetime.timedelta(days=...)` accepts it: the empty
   * run raises ValueError, more days than a timedelta holds raise OverflowError.
   */
  function TimedeltaDays(service: string): (r: Result<nat>)
    requires Contains(service, Marker)
    ensures r.Ok? <==> CatchupDays(service).Ok? && CatchupDays(service).value <= MaxTimedeltaDays
    ensures r.Ok? ==> r.value == CatchupDays(service).value
    ensures r.Raise? ==> r.error == if CatchupDays(service).Raise? then ValueError else OverflowError
  {
    match CatchupDays(service)
    case Raise(e) => Raise(e)
    case Ok(days) => if days > MaxTimedeltaDays then Raise(OverflowError) else Ok(days)
  }

  /**
   * The test shared by lines 67-73 and 241-244: an event that began at
   * `stime` is playable from the archive at time `now`.
   */
  function Eligibility(service: string, stime: int, now: int): (r: Result<bool>)
    ensures !Contains(service, Marker) || now <= stime ==> r == Ok(false)
    ensures r.Raise? <==> Contains(service, Marker) && stime < now && TimedeltaDays(service).Raise?
    ensures r.Raise? ==> r.error == TimedeltaDays(service).error
    ensures r == Ok(true) <==>
      && Contains(service, Marker)
      && 0 < now - stime
      && TimedeltaDays(service).Ok?
      && now - stime <= TimedeltaDays(service).value * SecondsPerDay
  {
    if !Contains(service, Marker) || !(stime < now) then Ok(false)
    else
      match TimedeltaDays(service)
      case Raise(e) => Raise(e)
      case Ok(days) => Ok(now - stime <= days * SecondsPerDay)
  }

  /** `catchupdays=3`: two days ago and exactly three days ago are eligible, four days ago is not. */
  lemma ThreeDayExamples(now: int)
    ensures Eligibility("catchupdays=3", now - 2 * SecondsPerDay, now) == Ok(true)
    ensures Eligibility("catchupdays=3", now - 3 * SecondsPerDay, now) == Ok(true)
    ensures Eligibility("catchupdays=3", now - 4 * SecondsPerDay, now) == Ok(false)
  {
    var s := "catchupdays=3";
    assert OccursAt(s, Marker, 0);
    assert DaysDigits(s) == "3";
    assert CatchupDays(s) == Ok(3);
  }

  /**
   * An empty digit run raises instead of failing closed, and only the first
   * `catchupdays=` counts, even when a later one carries digits.
   */
  lemma EmptyDaysRaise(now: int, stime: int)
    requires stime < now
    ensures Eligibility("catchupdays=;catchupdays=5", stime, now) == Raise(ValueError)
  {
    var s := "catchupdays=;catchupdays=5";
    assert OccursAt(s, Marker, 0);
    assert DaysDigits(s) == [];
  }

  /** The boundary is inclusive: exactly `days` days ago is still eligible, one second more is not. */
  lemma {:induction false} BoundIsInclusive(service: string, stime: int, now: int)
    requires Contains(service, Marker) && CatchupDays(service).Ok?
    requires 0 < CatchupDays(service).value <= MaxTimedeltaDays
    requires now - stime == CatchupDays(service).value * SecondsPerDay
    ensures Eligibility(service, stime, now) == Ok(true)
    ensures Eligibility(service, stime - 1, now) == Ok(false)
  {
  }

  /** A more recent past event of an eligible service is eligible too. */
  lemma EligibilityMonotone(service: string, s1: int, s2: int, now: int)
    requires s1 <= s2 < now
    requires Eligibility(service, s1, now) == Ok(true)
    ensures Eligibility(service, s2, now) == Ok(true)
  {
  }

  /**
   * Lines 67-73 for one event: `obj.catchUpIcon` joins the guard before the
   * day count is parsed, so without an icon nothing is parsed and nothing raises.
   */
  function IconShown(service: string, stime: int, now: int, hasIcon: bool): (r: Result<bool>)
    ensures hasIcon ==> r == Eligibility(service, stime, now)
    ensures !hasIcon ==> r == Ok(false)
  {
    if Contains(service, Marker) && stime < now && hasIcon then Eligibility(service, stime, now)
    else Ok(false)
  }

  /**
   * The loop over the events of one EPG row, as far as the first `n` events:
   * the indices of the events that receive an icon, in order, and the
   * exception that stopped the loop, if one did.
   */
  function Scan(service: string, stimes: seq<int>, now: int, hasIcon: bool, n: nat): (r: (seq<nat>, Option<PyError>))
    requires n <= |stimes|
  {
    if n == 0 then ([], None)
    else
      var (marked, error) := Scan(service, stimes, now, hasIcon, n - 1);
      if error.Some? then (marked, error)
      else match IconShown(service, stimes[n - 1], now, hasIcon)
        case Raise(e) => (marked, Some(e))
        case Ok(shown) => (if shown then marked + [n - 1] else marked, None)
  }

  /** Every marked event is eligible, and the marks are increasing indices below `n`. */
  lemma {:induction false} ScanMarksOnlyEligible(service: string, stimes: seq<int>, now: int, hasIcon: bool, n: nat)
    requires n <= |stimes|
    ensures var marked := Scan(service, stimes, now, hasIcon, n).0;
      && (forall k :: 0 <= k < |marked| ==> marked[k] < n && IconShown(service, stimes[marked[k]], now, hasIcon) == Ok(true))
      && (forall k, l :: 0 <= k < l < |marked| ==> marked[k] < marked[l])
  {
    if n > 0 {
      ScanMarksOnlyEligible(service, stimes, now, hasIcon, n - 1);
      assert var marked := Scan(service, stimes, now, hasIcon, n - 1).0;
        forall k :: 0 <= k < |marked| ==> marked[k] < n - 1;
      var before := Scan(service, stimes, now, hasIcon, n - 1).0;
      var after := Scan(service, stimes, now, hasIcon, n).0;
      assert after == before || after == before + [n - 1];
      if after != before {
        assert IconShown(service, stimes[n - 1], now, hasIcon) == Ok(true);
        assert forall k :: 0 <= k < |before| ==> after[k] == before[k];
      }
    }
  }

  /** Once the loop has raised, later events change nothing. */
  lemma {:induction false} ScanErrorSticks(service: string, stimes: seq<int>, now: int, hasIcon: bool, n: nat, m: nat)
    requires n <= m <= |stimes|
    requires Scan(service, stimes, now, hasIcon, n).1.Some?
    ensures Scan(service, stimes, now, hasIcon, m) == Scan(service, stimes, now, hasIcon, n)
    decreases m
  {
    if m > n {
      ScanErrorSticks(service, stimes, now, hasIcon, n, m - 1);
    }
  }

  /** When the loop runs to the end, exactly the eligible events are marked. */
  lemma {:induction false} ScanCompleteMarksAllEligible(service: string, stimes: seq<int>, now: int, hasIcon: bool, n: nat)
    requires n <= |stimes|
    requires Scan(service, stimes, now, hasIcon, n).1.None?
    ensures forall k :: 0 <= k < n ==> IconShown(service, stimes[k], now, hasIcon).Ok?
    ensures forall k :: 0 <= k < n ==>
      (k in Scan(service, stimes, now, hasIcon, n).0 <==> IconShown(service, stimes[k], now, hasIcon) == Ok(true))
  {
    if n > 0 {
      ScanCompleteMarksAllEligible(service, stimes, now, hasIcon, n - 1);
      ScanMarksOnlyEligible(service, stimes, now, hasIcon, n - 1);
    }
  }

  /**
   * A malformed or oversized day count raises at the first past event, before
   * any icon of the row is placed: the row gets no icon at all.
   */
  lemma {:induction false} ScanErrorMarksNothing(service: string, stimes: seq<int>, now: int, hasIcon: bool, n: nat)
    requires n <= |stimes|
    requires Scan(service, stimes, now, hasIcon, n).1.Some?
    ensures Scan(service, stimes, now, hasIcon, n).0 == []
    ensures Contains(service, Marker) && TimedeltaDays(service).Raise?
    ensures Scan(service, stimes, now, hasIcon, n).1 == Some(TimedeltaDays(service).error)
  {
    var (marked, error) := Scan(service, stimes, now, hasIcon, n - 1);
    if error.Some? {
      ScanErrorMarksNothing(service, stimes, now, hasIcon, n - 1);
    } else {
      ScanBadCountMarksNothing(service, stimes, now, hasIcon, n - 1);
    }
  }

  /** While nothing has raised on a service whose day count is bad, no event has been marked. */
  lemma {:induction false} ScanBadCountMarksNothing(service: string, stimes: seq<int>, now: int, hasIcon: bool, n: nat)
    requires n <= |stimes|
    requires Contains(service, Marker) && TimedeltaDays(service).Raise?
    requires Scan(service, stimes, now, hasIcon, n).1.None?
    ensures Scan(service, stimes, now, hasIcon, n).0 == []
  {
    if n > 0 {
      ScanBadCountMarksNothing(service, stimes, now, hasIcon, n - 1);
    }
  }

  /**
   * `injectCatchupIcon` (lines 59-78) without the geometry: walks the events
   * in order and collects the indices of those that get an icon; an exception
   * from the day count leaves the loop with what was collected so far.
   */
  method InjectCatchupIcon(service: string, stimes: seq<int>, now: int, hasIcon: bool)
    returns (marked: seq<nat>, error: Option<PyError>)
    ensures (marked, error) == Scan(service, stimes, now, hasIcon, |stimes|)
    ensures error.None? ==> forall k :: 0 <= k < |stimes| ==>
      (k in marked <==> IconShown(service, stimes[k], now, hasIcon) == Ok(true))
    ensures error.Some? ==> marked == []
  {
    marked, error := [], None;
    var i := 0;
    while i < |stimes|
      invariant 0 <= i <= |stimes|
      invariant (marked, None) == Scan(service, stimes, now, hasIcon, i)
    {
      var shown := IconShown(service, stimes[i], now, hasIcon);
      if shown.Raise? {
        error := Some(shown.error);
        assert (marked, error) == Scan(service, stimes, now, hasIcon, i + 1);
        ScanErrorSticks(service, stimes, now, hasIcon, i + 1, |stimes|);
        ScanErrorMarksNothing(service, stimes, now, hasIcon, i + 1);
        return;
      }
      if shown.value {
        marked := marked + [i];
      }
      i := i + 1;
    }
    ScanCompleteMarksAllEligible(service, stimes, now, hasIcon, |stimes|);
  }
}
