/** Local wall-clock instants. The app works with JavaScript `Date` objects in the
    browser's time zone; the model keeps only the fields the task form reads
    and writes: a calendar day and the time of day down to milliseconds. */
module LocalTime {

  /** `day` numbers calendar days in local time; the other fields are the
      time of day as `Date.getHours`, `getMinutes`, `getSeconds` and
      `getMilliseconds` report them. */
  datatype DateTime = DateTime(day: int, hour: int, minute: int, second: int, ms: int)

  /** A time of day that a `Date` can actually report. */
  predicate Valid(d: DateTime) {
    && 0 <= d.hour < 24
    && 0 <= d.minute < 60
    && 0 <= d.second < 60
    && 0 <= d.ms < 1000
  }

  /** Midnight at the start of `day`: what the calendar grid hands out. */
  function StartOfDay(day: int): DateTime {
    DateTime(day, 0, 0, 0, 0)
  }
}
