/** Time as the scheduling code sees it. An instant is a whole number of minutes
    since a midnight that fell on a Monday, so the wall-clock hour and the
    weekday Python reads from a `datetime` are plain arithmetic on it. */
module Clock {

  const MinutesPerHour: int := 60
  const MinutesPerDay: int := 1440

  /** `t.hour`: the hour of the day on a 24-hour clock. */
  function HourOf(t: int): (h: int)
    ensures 0 <= h < 24
    ensures MinutesPerHour * h <= t - DayStart(t) < MinutesPerHour * (h + 1)
  {
    (t % MinutesPerDay) / MinutesPerHour
  }

  /** `t.weekday()`: Monday is 0, Saturday 5, Sunday 6. */
  function Weekday(t: int): (d: int)
    ensures 0 <= d < 7
  {
    (t / MinutesPerDay) % 7
  }

  /** The weekday follows the calendar: the epoch's first day is a Monday, the
      next day is the next weekday, wrapping from Sunday to Monday, and every
      minute of a day shares its midnight's weekday. */
  lemma WeekdayFollowsCalendar(t: int)
    ensures 0 <= t < MinutesPerDay ==> Weekday(t) == 0
    ensures Weekday(t + MinutesPerDay) == (Weekday(t) + 1) % 7
    ensures Weekday(DayStart(t)) == Weekday(t)
  {
    assert (t + MinutesPerDay) / MinutesPerDay == t / MinutesPerDay + 1;
    assert DayStart(t) / MinutesPerDay == t / MinutesPerDay;
  }

  /** `datetime.combine(t.date(), time.min)`: midnight of the day `t` falls in. */
  function DayStart(t: int): (m: int)
    ensures m <= t < m + MinutesPerDay
    ensures m % MinutesPerDay == 0
  {
    t - t % MinutesPerDay
  }

  /** The business settings the controllers read from the application
      configuration (`BUSINESS_HOURS_START`, `BUSINESS_HOURS_END`,
      `CANCELLATION_WINDOW_HOURS`). */
  datatype Config = Config(businessHoursStart: int, businessHoursEnd: int, cancellationWindowHours: int) {
    /** Hours that `datetime.replace(hour=...)` accepts. */
    predicate WellFormed() {
      0 <= businessHoursStart <= 23 && 0 <= businessHoursEnd <= 23
    }
  }

  /** The shipped configuration: open 8 to 18, cancellations up to 24 hours ahead. */
  const Shipped: Config := Config(8, 18, 24)
}
