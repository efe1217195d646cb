/** The host time representations a watch face is handed, and their
    conversion into the canonical `DateTime` value
    (the three WatchfaceUtility.ConvertToDateTime overloads).
    Only the calendar fields are modelled: the host's own range checks in the
    `DateTime` constructor are not. */
module TimeSources {

  datatype DateTimeKind = Unspecified | Utc | Local

  /** The canonical local time. Months are numbered 1 to 12. */
  datatype DateTime = DateTime(year: int, month: int, day: int,
                               hour: int, minute: int, second: int,
                               kind: DateTimeKind)

  /** The platform's wall-clock structure (Android.Text.Format.Time). Its
      `month` field runs from 0 (January) to 11 (December). */
  datatype AndroidTime = AndroidTime(year: int, month: int, monthDay: int,
                                     hour: int, minute: int, second: int)

  /** The fields of a Java calendar that the watch face reads. `month` runs
      from 0 (January) to 11 (December); `hourOfDay` is the 24-hour hour. */
  datatype Calendar = Calendar(year: int, month: int, date: int,
                               hourOfDay: int, minute: int, second: int)

  /** The symbolic field names used with `Calendar.Get`. */
  datatype CalendarField = Year | Month | Date | HourOfDay | Hour | Minute | Second

  /** `Calendar.Get(field)`. `Hour` is the 12-hour hour of the morning or
      afternoon, derived from the 24-hour one. */
  function Get(c: Calendar, field: CalendarField): int {
    match field
    case Year => c.year
    case Month => c.month
    case Date => c.date
    case HourOfDay => c.hourOfDay
    case Hour => c.hourOfDay % 12
    case Minute => c.minute
    case Second => c.second
  }

  /** The wall-clock structure showing the same local time as `dt`. */
  function TimeOf(dt: DateTime): AndroidTime {
    AndroidTime(dt.year, dt.month - 1, dt.day, dt.hour, dt.minute, dt.second)
  }

  /** The calendar showing the same local time as `dt`. */
  function CalendarOf(dt: DateTime): Calendar {
    Calendar(dt.year, dt.month - 1, dt.day, dt.hour, dt.minute, dt.second)
  }

  /** `ConvertToDateTime(Time)` as written: every field, the 0-based month
      included, is copied into the `DateTime` unchanged. */
  function ConvertTimeAsWritten(time: AndroidTime): (r: DateTime)
    ensures r.kind == Local
    ensures TimeOf(r) == time.(month := time.month - 1)
  {
    DateTime(time.year, time.month, time.monthDay, time.hour, time.minute, time.second, Local)
  }

  /** `ConvertToDateTime(Calendar)` as written: the calendar's fields, the
      0-based month included, are copied into the `DateTime` unchanged; the
      hour is the 24-hour `HourOfDay`. */
  function ConvertCalendarAsWritten(time: Calendar): (r: DateTime)
    ensures r.kind == Local
    ensures CalendarOf(r) == time.(month := time.month - 1)
  {
    DateTime(Get(time, Year), Get(time, Month), Get(time, Date),
             Get(time, HourOfDay), Get(time, Minute), Get(time, Second), Local)
  }

  /** `ConvertToDateTime(Time)` with the month moved from 0-based to 1-based:
      the result is the local time the structure shows. */
  function ConvertTime(time: AndroidTime): (r: DateTime)
    ensures r.kind == Local
    ensures TimeOf(r) == time
  {
    DateTime(time.year, time.month + 1, time.monthDay, time.hour, time.minute, time.second, Local)
  }

  /** `ConvertToDateTime(Calendar)` with the month moved from 0-based to
      1-based: the result is the local time the calendar shows, with the
      24-hour hour. */
  function ConvertCalendar(time: Calendar): (r: DateTime)
    ensures r.kind == Local
    ensures CalendarOf(r) == time
  {
    DateTime(Get(time, Year), Get(time, Month) + 1, Get(time, Date),
             Get(time, HourOfDay), Get(time, Minute), Get(time, Second), Local)
  }

  /** `ConvertToDateTime(DateTime)`: the shared entry point for a value that
      is already canonical. */
  function ConvertDateTime(time: DateTime): (r: DateTime)
    ensures r == time
  {
    time
  }

  /** All three entry points agree: a local time, handed over as a wall-clock
      structure, as a calendar or as itself, converts to itself. */
  lemma EntryPointsAgree(dt: DateTime)
    requires dt.kind == Local
    ensures ConvertTime(TimeOf(dt)) == dt
    ensures ConvertCalendar(CalendarOf(dt)) == dt
    ensures ConvertDateTime(dt) == dt
  {
  }

  /** The conversions as written read every month one too early. */
  lemma AsWrittenMonthIsOneEarly(time: AndroidTime, cal: Calendar)
    ensures ConvertTimeAsWritten(time) == ConvertTime(time).(month := time.month)
    ensures ConvertTimeAsWritten(time).month == ConvertTime(time).month - 1
    ensures ConvertCalendarAsWritten(cal) == ConvertCalendar(cal).(month := cal.month)
    ensures ConvertCalendarAsWritten(cal).month == ConvertCalendar(cal).month - 1
  {
  }

  /** Concretely: 3 December 2016 comes back as 3 November, and any day in
      January comes back with month 0, which no `DateTime` has. */
  lemma AsWrittenCounterexamples()
    ensures ConvertTimeAsWritten(TimeOf(DateTime(2016, 12, 3, 10, 20, 30, Local))).month == 11
    ensures ConvertCalendarAsWritten(CalendarOf(DateTime(2016, 12, 3, 10, 20, 30, Local)))
            != DateTime(2016, 12, 3, 10, 20, 30, Local)
    ensures ConvertTimeAsWritten(TimeOf(DateTime(2017, 1, 15, 0, 0, 0, Local))).month == 0
    ensures ConvertCalendarAsWritten(CalendarOf(DateTime(2017, 1, 15, 0, 0, 0, Local))).month == 0
  {
  }
}
