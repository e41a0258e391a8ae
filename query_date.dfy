/**
 * The local-date expression of the upsert query, as written and as intended.
 *
 * As written, `(ts at time zone 'UTC' at time zone tz)::date` first takes the
 * UTC wall clock of `ts`, then reads that wall clock as a time in the zone `tz`
 * (which moves the instant `offset` seconds the wrong way), and finally casts to
 * a date in the session's time zone, `sessionOffset` seconds east of UTC. The
 * intended expression is the local date of `ts` in `tz`, what
 * `(ts at time zone tz)::date` gives.
 */
module QueryDate {
  import opened Wrappers
  import opened TimeWindow
  import opened Aggregate
  import opened AggregateFacts
  import opened Job

  /** The day the query as written files instant `t` under. */
  function QueryDayAsWritten(t: int, offset: int, sessionOffset: int): int {
    LocalDayOf(t - offset, sessionOffset)
  }

  /** The day the query should file instant `t` under: its local date in the aggregation zone. */
  function IntendedQueryDay(t: int, offset: int): int {
    LocalDayOf(t, offset)
  }

  const TokyoOffset: int := 9 * 3600

  /** The query as written, with AGG_TZ = Asia/Tokyo and the session in UTC. */
  function TokyoQueryDayAsWritten(t: int): int {
    QueryDayAsWritten(t, TokyoOffset, 0)
  }

  /** The intended query, with AGG_TZ = Asia/Tokyo. */
  function TokyoQueryDay(t: int): int {
    IntendedQueryDay(t, TokyoOffset)
  }

  /**
   * As written, with the zone nine hours east and the session in UTC, every
   * instant of the first eighteen hours of local day `day` lies in that day's
   * window but is filed under the day before.
   */
  lemma AsWrittenFilesMorningUnderDayBefore(day: int, t: int)
    requires ToUtcRangeForLocalDay(day, TokyoOffset).Contains(t)
    requires t < ToUtcRangeForLocalDay(day, TokyoOffset).start + 18 * 3600
    ensures LocalDayOf(t, TokyoOffset) == day
    ensures TokyoQueryDayAsWritten(t) == day - 1
  {
    WindowIsLocalDay(day, TokyoOffset, t);
    DayOfClock(t - TokyoOffset, day - 1);
  }

  /**
   * As written, with the session in UTC and a zone less than twelve hours from
   * UTC, an instant of local day `day` whose local clock reads `clock` seconds
   * after midnight is filed under the day before when the clock is earlier than
   * twice the offset (zones east of UTC), under the day after when it is at
   * least one day plus twice the offset (zones west of UTC), and under `day`
   * otherwise.
   */
  lemma AsWrittenMisdates(day: int, offset: int, t: int)
    requires -SecondsPerDay < 2 * offset < SecondsPerDay
    requires ToUtcRangeForLocalDay(day, offset).Contains(t)
    ensures var clock := t + offset - day * SecondsPerDay;
      QueryDayAsWritten(t, offset, 0)
        == if clock < 2 * offset then day - 1
           else if clock >= SecondsPerDay + 2 * offset then day + 1
           else day
  {
    var clock := t + offset - day * SecondsPerDay;
    if clock < 2 * offset {
      DayOfClock(t - offset, day - 1);
    } else if clock >= SecondsPerDay + 2 * offset {
      DayOfClock(t - offset, day + 1);
    } else {
      DayOfClock(t - offset, day);
    }
  }

  /**
   * With the session in UTC and a zone less than twelve hours from UTC, the
   * expression as written gives the local date of every instant exactly when the
   * zone is UTC itself.
   */
  lemma AsWrittenConsistentOnlyInUtc(offset: int)
    requires -SecondsPerDay < 2 * offset < SecondsPerDay
    ensures DayConsistent(t => QueryDayAsWritten(t, offset, 0), offset) <==> offset == 0
  {
    if offset > 0 {
      var t := -offset;
      AsWrittenMisdates(0, offset, t);
      WindowIsLocalDay(0, offset, t);
      assert QueryDayAsWritten(t, offset, 0) != LocalDayOf(t, offset);
    } else if offset < 0 {
      var t := SecondsPerDay - 1 - offset;
      AsWrittenMisdates(0, offset, t);
      WindowIsLocalDay(0, offset, t);
      assert QueryDayAsWritten(t, offset, 0) != LocalDayOf(t, offset);
    }
  }

  /** A bowl of ramen sold at 20:00 on 2025-08-19, Tokyo time, two of them. */
  function EveningSale(): RawSale {
    RawSale(1, 20319 * SecondsPerDay + 20 * 3600 - TokyoOffset, "ramen", 2, 1200)
  }

  /** A bowl of ramen sold at 00:30 on 2025-08-20, Tokyo time. */
  function NightSale(): RawSale {
    RawSale(1, 20320 * SecondsPerDay + 1800 - TokyoOffset, "ramen", 1, 1200)
  }

  /** One sale alone makes a group of one order whose average price is its price. */
  lemma SingleSaleSummary(a: RawSale)
    ensures SummaryOf([a]) == Summary(a.qty, a.qty * a.price, 1, 100 * a.price)
  {
    assert [a][..0] == [];
    assert Total([a], Qty) == a.qty;
    assert Total([a], Sales) == a.qty * a.price;
    assert Total([a], Price) == a.price;
    var r := RoundHalfAwayFromZero(100 * a.price, 1);
    assert -1 <= 2 * (100 * a.price - r) <= 1;
  }

  /** Of two sales, when only the first lies in the window, the query returns the first one's group alone. */
  lemma FirstOfTwo(a: RawSale, b: RawSale, w: UtcRange, dayOf: int -> int)
    requires Selected(a, w, None) && !Selected(b, w, None)
    ensures FreshSummaries([a, b], w, None, dayOf) == map[KeyOf(a, dayOf) := Summary(a.qty, a.qty * a.price, 1, 100 * a.price)]
  {
    FreshSkipsUnselected([a], b, [], w, None, dayOf);
    assert [a] + [b] + [] == [a, b] && [a] + [] == [a];
    SingleGroup([a], w, None, dayOf, KeyOf(a, dayOf));
    SingleSaleSummary(a);
  }

  /** Of two sales, when only the second lies in the window, the query returns the second one's group alone. */
  lemma SecondOfTwo(a: RawSale, b: RawSale, w: UtcRange, dayOf: int -> int)
    requires !Selected(a, w, None) && Selected(b, w, None)
    ensures FreshSummaries([a, b], w, None, dayOf) == map[KeyOf(b, dayOf) := Summary(b.qty, b.qty * b.price, 1, 100 * b.price)]
  {
    FreshSkipsUnselected([], a, [b], w, None, dayOf);
    assert [] + [a] + [b] == [a, b] && [] + [b] == [b];
    SingleGroup([b], w, None, dayOf, KeyOf(b, dayOf));
    SingleSaleSummary(b);
  }

  /** A run over two days is the upsert of the first day's groups, then of the second's. */
  lemma TwoDayRun(raw: seq<RawSale>, first: int, store: Option<int>, offset: int, dayOf: int -> int)
    ensures ApplyDays(map[], raw, DayRange(first, first + 2), store, offset, dayOf)
         == Upsert(Upsert(map[], FreshSummaries(raw, ToUtcRangeForLocalDay(first, offset), store, dayOf)),
                   FreshSummaries(raw, ToUtcRangeForLocalDay(first + 1, offset), store, dayOf))
  {
    DayRangeStep(first, first);
    DayRangeStep(first, first + 1);
    assert DayRange(first, first + 2) == [] + [first] + [first + 1];
    ApplyDaysStep(map[], raw, [], first, store, offset, dayOf);
    assert [] + [first] == [first];
    ApplyDaysStep(map[], raw, [first], first + 1, store, offset, dayOf);
    assert [first] + [first + 1] == [] + [first] + [first + 1];
  }

  /**
   * The query as written loses a sale: a range run over 2025-08-19 and
   * 2025-08-20 in Tokyo files both sales under 2025-08-19, and the second day's
   * upsert overwrites the first day's row, so the two bowls of the evening sale
   * appear nowhere in the table.
   */
  lemma AsWrittenLosesSale()
    ensures ApplyDays(map[], [EveningSale(), NightSale()], DayRange(20319, 20321), None, TokyoOffset, TokyoQueryDayAsWritten)
         == map[(20319, 1, "ramen") := Summary(1, 1200, 1, 120000)]
  {
    var w1, w2 := ToUtcRangeForLocalDay(20319, TokyoOffset), ToUtcRangeForLocalDay(20320, TokyoOffset);
    assert TokyoQueryDayAsWritten(EveningSale().ts) == 20319;
    assert TokyoQueryDayAsWritten(NightSale().ts) == 20319;
    FirstOfTwo(EveningSale(), NightSale(), w1, TokyoQueryDayAsWritten);
    SecondOfTwo(EveningSale(), NightSale(), w2, TokyoQueryDayAsWritten);
    TwoDayRun([EveningSale(), NightSale()], 20319, None, TokyoOffset, TokyoQueryDayAsWritten);
  }

  /** The intended local-date expression agrees with the zone the windows are built for. */
  lemma IntendedDayIsConsistent(offset: int)
    ensures DayConsistent(t => IntendedQueryDay(t, offset), offset)
  {
  }

  /**
   * With the intended expression every group a day's run writes carries that
   * day, for any zone: the query files each sale under the day whose window
   * selected it.
   */
  lemma IntendedGroupsCarryWindowDay(raw: seq<RawSale>, day: int, offset: int, store: Option<int>)
    ensures forall k :: k in FreshSummaries(raw, ToUtcRangeForLocalDay(day, offset), store, t => IntendedQueryDay(t, offset)) ==> k.0 == day
  {
    GroupDayIsWindowDay(raw, day, offset, store, t => IntendedQueryDay(t, offset));
  }

  /** Upserting two groups with different keys into an empty table keeps both. */
  lemma UpsertTwoGroups(k1: Key, s1: Summary, k2: Key, s2: Summary)
    requires k1 != k2
    ensures Upsert(Upsert(map[], map[k1 := s1]), map[k2 := s2]) == map[k1 := s1, k2 := s2]
  {
    var lhs := Upsert(Upsert(map[], map[k1 := s1]), map[k2 := s2]);
    assert lhs.Keys == {k1, k2};
  }

  /** With the intended expression, the run for 2025-08-19 in Tokyo files the evening sale under that date. */
  lemma IntendedFirstDay()
    ensures FreshSummaries([EveningSale(), NightSale()], ToUtcRangeForLocalDay(20319, TokyoOffset), None, TokyoQueryDay)
         == map[(20319, 1, "ramen") := Summary(2, 2400, 1, 120000)]
  {
    assert TokyoQueryDay(EveningSale().ts) == 20319;
    FirstOfTwo(EveningSale(), NightSale(), ToUtcRangeForLocalDay(20319, TokyoOffset), TokyoQueryDay);
  }

  /** With the intended expression, the run for 2025-08-20 in Tokyo files the night sale under that date. */
  lemma IntendedSecondDay()
    ensures FreshSummaries([EveningSale(), NightSale()], ToUtcRangeForLocalDay(20320, TokyoOffset), None, TokyoQueryDay)
         == map[(20320, 1, "ramen") := Summary(1, 1200, 1, 120000)]
  {
    assert TokyoQueryDay(NightSale().ts) == 20320;
    SecondOfTwo(EveningSale(), NightSale(), ToUtcRangeForLocalDay(20320, TokyoOffset), TokyoQueryDay);
  }

  /**
   * With the intended expression the same run keeps both sales, each under its
   * own Tokyo date.
   */
  lemma IntendedKeepsBothSales()
    ensures ApplyDays(map[], [EveningSale(), NightSale()], DayRange(20319, 20321), None, TokyoOffset, TokyoQueryDay)
         == map[(20319, 1, "ramen") := Summary(2, 2400, 1, 120000), (20320, 1, "ramen") := Summary(1, 1200, 1, 120000)]
  {
    TwoDayRun([EveningSale(), NightSale()], 20319, None, TokyoOffset, TokyoQueryDay);
    IntendedFirstDay();
    IntendedSecondDay();
    UpsertTwoGroups((20319, 1, "ramen"), Summary(2, 2400, 1, 120000), (20320, 1, "ramen"), Summary(1, 1200, 1, 120000));
  }
}
