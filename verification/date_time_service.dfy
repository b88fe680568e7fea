/** The clock service of src/Service/DateTimeService.php. The system clock is
    not read here: the current instant, in whole seconds since the epoch, is
    a parameter of every operation that needs it. */
module DateTimeService {
  import opened Wrappers

  const SECONDS_IN_MINUTE: int := 60
  const SECONDS_IN_HOUR: int := 60 * SECONDS_IN_MINUTE

  /** `now()`: the timestamp of a freshly built date object when one could be
      built (`primary`), otherwise the secondary `time()` reading. It never
      fails: a construction failure is logged and replaced by the fallback.
      It stands alone: the other operations take the instant it would return
      as their `now` parameter. */
  function Now(primary: Option<int>, fallback: int): (r: int)
    ensures primary.Some? ==> r == primary.value
    ensures primary.None? ==> r == fallback
  {
    match primary
    case Some(t) => t
    case None => fallback
  }

  /** `isPast($dateTime)`: the timestamp lies strictly before now. */
  predicate IsPast(timestamp: int, now: int) {
    timestamp < now
  }

  /** The hour constant is sixty minutes of sixty seconds. */
  lemma HourIsSixtyMinutes()
    ensures SECONDS_IN_MINUTE == 60
    ensures SECONDS_IN_HOUR == 60 * SECONDS_IN_MINUTE == 3600
  {
  }

  /** The comparison is strict: now itself is not past, one second earlier is. */
  lemma IsPastIsStrict(now: int)
    ensures !IsPast(now, now)
    ensures IsPast(now - 1, now)
  {
  }

  /** An hour ahead of now is not past, an hour behind it is. */
  lemma HourAheadAndBehind(now: int)
    ensures !IsPast(now + SECONDS_IN_HOUR, now)
    ensures IsPast(now - SECONDS_IN_HOUR, now)
  {
  }

  /** Any timestamp no later than a past one is past as well. */
  lemma IsPastMonotone(t1: int, t2: int, now: int)
    requires t1 <= t2 && IsPast(t2, now)
    ensures IsPast(t1, now)
  {
  }

  /** Once past, a timestamp stays past as the clock moves forward. */
  lemma IsPastStaysPast(t: int, now1: int, now2: int)
    requires now1 <= now2 && IsPast(t, now1)
    ensures IsPast(t, now2)
  {
  }

  /** A timestamp written as now plus a non-negative window is not past at
      that same instant. */
  lemma WindowAheadNotPast(now: int, window: int)
    requires window >= 0
    ensures !IsPast(now + window, now)
  {
  }
}
