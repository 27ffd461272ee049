/** The date parameters of the endpoints (api/_http_helpers.py): inclusive calendar days, made a half-open range of
    texts. */
module HttpDates {
  import opened Options
  import opened TextOrder
  import opened Timestamps

  /** The day after it overflows. */
  const LAST_DAY := Date(9999, 12, 31)

  predicate ValidDay(d: Option<Date>) {
    d.Some? ==> ValidDate(d.value)
  }

  predicate Reversed(dateFrom: Option<Date>, dateTo: Option<Date>) {
    dateFrom.Some? && dateTo.Some? && Before(dateTo.value, dateFrom.value)
  }

  function FromText(d: Option<Date>): Option<string>
    requires ValidDay(d)
  {
    if d.None? then None else Some(IsoDate(d.value))
  }

  /** An inclusive last day becomes an exclusive bound on the next one. */
  function ToText(d: Option<Date>): Option<string>
    requires ValidDay(d) && d != Some(LAST_DAY)
  {
    if d.None? then None
    else
      NextDayBound(d.value, d.value);
      Some(IsoDate(NextDay(d.value)))
  }

  lemma BoundsAreNotEmpty(dateFrom: Option<Date>, dateTo: Option<Date>)
    requires ValidDay(dateFrom) && ValidDay(dateTo) && dateTo != Some(LAST_DAY)
    ensures FromText(dateFrom) != Some("") && ToText(dateTo) != Some("")
  {}

  // ----- what the bounds mean -----

  /** The text sorts before the day after, that is, before every later day. */
  ghost predicate UpTo(day: Date, text: string) {
    forall e :: ValidDate(e) && Before(day, e) ==> Less(text, IsoDate(e))
  }

  /** The date lies within the days asked for, both included; any date does when none is asked for. */
  ghost predicate OnDays(dateFrom: Option<Date>, dateTo: Option<Date>, date: Option<string>)
    requires ValidDay(dateFrom)
  {
    && (dateFrom.Some? ==> date.Some? && AtMost(IsoDate(dateFrom.value), date.value))
    && (dateTo.Some? ==> date.Some? && UpTo(dateTo.value, date.value))
  }

  lemma UpToIsBeforeNext(day: Date, text: string)
    requires ValidDate(day) && day != LAST_DAY
    ensures ValidDate(NextDay(day)) && (UpTo(day, text) <==> Less(text, IsoDate(NextDay(day))))
  {
    var next := NextDay(day);
    NextDayIsNext(day, next);
    if Less(text, IsoDate(next)) {
      forall e | ValidDate(e) && Before(day, e) ensures Less(text, IsoDate(e)) {
        NextDayIsNext(day, e);
        IsoDateOrder(e, next);
        IsoDateOrder(next, e);
        Trichotomy(IsoDate(e), IsoDate(next));
        if IsoDate(e) != IsoDate(next) { Transitive(text, IsoDate(next), IsoDate(e)); }
      }
    }
  }

  /** A calendar date is on the days asked for exactly when its day is none before the first and none after the last. */
  lemma CalendarDateIsOnDays(dateFrom: Option<Date>, dateTo: Option<Date>, d: Date)
    requires ValidDay(dateFrom) && ValidDay(dateTo) && ValidDate(d) && dateTo != Some(LAST_DAY)
    ensures OnDays(dateFrom, dateTo, Some(IsoDate(d)))
            <==> (dateFrom.Some? ==> Ordinal(dateFrom.value) <= Ordinal(d))
                 && (dateTo.Some? ==> Ordinal(d) <= Ordinal(dateTo.value))
  {
    if dateFrom.Some? {
      IsoDateOrder(dateFrom.value, d);
      CalendarOrder(d, dateFrom.value);
      IsoDateOrder(d, dateFrom.value);
      Trichotomy(IsoDate(dateFrom.value), IsoDate(d));
      Trichotomy(IsoDate(d), IsoDate(dateFrom.value));
    }
    if dateTo.Some? {
      UpToIsBeforeNext(dateTo.value, IsoDate(d));
      NextDayBound(d, dateTo.value);
      CalendarOrder(dateTo.value, d);
    }
  }
}
