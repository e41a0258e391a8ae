/**
 * The time-window resolver of the daily job: a local calendar day becomes the
 * half-open interval of UTC instants [start, end) that covers it.
 *
 * Instants are whole seconds since 1970-01-01T00:00:00Z; calendar days are day
 * numbers counted from 1970-01-01. The aggregation time zone is a fixed offset,
 * in seconds east of UTC.
 */
module TimeWindow {

  const SecondsPerDay: int := 86400

  /** A half-open interval of UTC instants. */
  datatype UtcRange = UtcRange(start: int, end: int) {
    predicate Contains(t: int) {
      start <= t < end
    }
  }

  /**
   * The local calendar day of UTC instant `t` in a zone `offset` seconds east of
   * UTC (what converting an aware datetime to the zone and taking its date gives).
   * Dafny's division is Euclidean, so this is the floor also before 1970.
   */
  function LocalDayOf(t: int, offset: int): int {
    (t + offset) / SecondsPerDay
  }

  /** Local midnight of `day`, then local midnight one day later, both converted to UTC. */
  function ToUtcRangeForLocalDay(day: int, offset: int): UtcRange {
    var startLocal := day * SecondsPerDay;
    var endLocal := startLocal + SecondsPerDay;
    UtcRange(startLocal - offset, endLocal - offset)
  }

  /**
   * The window of `day` starts at a local midnight that falls on `day`, lasts
   * exactly one day, and ends at the local midnight that opens the next day.
   */
  lemma WindowBounds(day: int, offset: int)
    ensures var r := ToUtcRangeForLocalDay(day, offset);
      && r.end - r.start == SecondsPerDay
      && (r.start + offset) % SecondsPerDay == 0
      && LocalDayOf(r.start, offset) == day
      && LocalDayOf(r.end, offset) == day + 1
  {
  }

  /** Local day `d` holds exactly the local clock values `x` with d * 86400 <= x < (d + 1) * 86400. */
  lemma DayOfClock(x: int, d: int)
    ensures x / SecondsPerDay == d <==> d * SecondsPerDay <= x < d * SecondsPerDay + SecondsPerDay
  {
    var q, m := x / SecondsPerDay, x % SecondsPerDay;
    assert x == q * SecondsPerDay + m && 0 <= m < SecondsPerDay;
  }

  /** The window of `day` holds exactly the instants whose local day is `day`. */
  lemma WindowIsLocalDay(day: int, offset: int, t: int)
    ensures ToUtcRangeForLocalDay(day, offset).Contains(t) <==> LocalDayOf(t, offset) == day
  {
    DayOfClock(t + offset, day);
  }

  /**
   * Windows of consecutive days tile the time line: the end of one is the start
   * of the next, so the instant `end` belongs to the next day and not to this one.
   */
  lemma ConsecutiveWindowsTile(day: int, offset: int)
    ensures ToUtcRangeForLocalDay(day, offset).end == ToUtcRangeForLocalDay(day + 1, offset).start
    ensures !ToUtcRangeForLocalDay(day, offset).Contains(ToUtcRangeForLocalDay(day, offset).end)
    ensures ToUtcRangeForLocalDay(day + 1, offset).Contains(ToUtcRangeForLocalDay(day, offset).end)
  {
  }

  /** A later instant never has an earlier local day. */
  lemma {:induction false} LocalDayMonotone(t1: int, t2: int, offset: int)
    requires t1 <= t2
    ensures LocalDayOf(t1, offset) <= LocalDayOf(t2, offset)
  {
    var d1 := LocalDayOf(t1, offset);
    DayOfClock(t1 + offset, d1);
    if LocalDayOf(t2, offset) < d1 {
      DayOfClock(t2 + offset, LocalDayOf(t2, offset));
    }
  }

  /** Going back `n` whole days of 86400 seconds moves the local date back by exactly `n`. */
  lemma {:induction false} ShiftByWholeDays(t: int, offset: int, n: int)
    ensures LocalDayOf(t - n * SecondsPerDay, offset) == LocalDayOf(t, offset) - n
  {
    var d := LocalDayOf(t, offset);
    DayOfClock(t + offset, d);
    DayOfClock(t - n * SecondsPerDay + offset, d - n);
  }

  /**
   * With the zone nine hours east of UTC (Asia/Tokyo, which has no daylight
   * saving), the instant at 00:30 local time on `day` lies in that day's window,
   * although its UTC date is the day before.
   */
  lemma TokyoHalfPastMidnight(day: int)
    ensures ToUtcRangeForLocalDay(day, 9 * 3600).Contains(day * SecondsPerDay - 9 * 3600 + 1800)
    ensures LocalDayOf(day * SecondsPerDay - 9 * 3600 + 1800, 0) == day - 1
  {
    var t := day * SecondsPerDay - 9 * 3600 + 1800;
    WindowIsLocalDay(day, 9 * 3600, t);
    DayOfClock(t, day - 1);
  }
}
