/**
 * The job driver: the three run modes (yesterday, an explicit date range, a
 * full backfill) walk local calendar days one at a time, resolve each to its UTC
 * window and run the range aggregator once per day.
 *
 * The clock, the time zone, the backfill bound and the date parser are
 * parameters: `now` is the current instant, `offset` the zone, `maxYearsBack`
 * the safety bound, `parse` the YYYY-MM-DD parser.
 */
module Job {
  import opened Wrappers
  import opened TimeWindow
  import opened Aggregate

  datatype Mode = Yesterday | Range | All

  /** Why a run stops before aggregating: no start date, or a date that does not parse. */
  datatype JobError = MissingFrom | BadFrom | BadTo

  datatype Exit = Finished | Aborted(reason: JobError)

  /** The days first, first + 1, ..., stop - 1, in increasing order; none when stop <= first. */
  function DayRange(first: int, stop: int): seq<int>
    decreases stop - first
  {
    if stop <= first then [] else DayRange(first, stop - 1) + [stop - 1]
  }

  /** DayRange holds max(0, stop - first) days, each one more than the one before. */
  lemma {:induction false} DayRangeSpec(first: int, stop: int)
    ensures |DayRange(first, stop)| == if stop <= first then 0 else stop - first
    ensures forall i :: 0 <= i < |DayRange(first, stop)| ==> DayRange(first, stop)[i] == first + i
    decreases stop - first
  {
    if first < stop {
      DayRangeSpec(first, stop - 1);
    }
  }

  /** The table after the upsert has run for the window of each day of `days`, in order. */
  function ApplyDays(table: map<Key, Summary>, raw: seq<RawSale>, days: seq<int>, store: Option<int>, offset: int, dayOf: int -> int): map<Key, Summary> {
    if days == [] then table
    else
      var day := days[|days| - 1];
      Upsert(ApplyDays(table, raw, days[..|days| - 1], store, offset, dayOf),
             FreshSummaries(raw, ToUtcRangeForLocalDay(day, offset), store, dayOf))
  }

  /** One more day at the end of a run is one more upsert after the others. */
  lemma ApplyDaysStep(table: map<Key, Summary>, raw: seq<RawSale>, days: seq<int>, day: int, store: Option<int>, offset: int, dayOf: int -> int)
    ensures ApplyDays(table, raw, days + [day], store, offset, dayOf)
         == Upsert(ApplyDays(table, raw, days, store, offset, dayOf), FreshSummaries(raw, ToUtcRangeForLocalDay(day, offset), store, dayOf))
  {
    assert (days + [day])[..|days|] == days;
  }

  /** Extending the range by its next day appends that day. */
  lemma DayRangeStep(first: int, stop: int)
    requires first <= stop
    ensures DayRange(first, stop + 1) == DayRange(first, stop) + [stop]
  {
  }

  /** The days on which the backfill logs its progress: the 1st, the 21st, the 41st, ... day it processes. */
  function ProgressDays(days: seq<int>): seq<int> {
    if days == [] then []
    else
      var init := days[..|days| - 1];
      ProgressDays(init) + if (|days| - 1) % 20 == 0 then [days[|days| - 1]] else []
  }

  /** Processing one more day logs it exactly when the days processed so far are a multiple of 20. */
  lemma ProgressDaysStep(days: seq<int>, day: int)
    ensures ProgressDays(days + [day]) == ProgressDays(days) + if |days| % 20 == 0 then [day] else []
  {
    assert (days + [day])[..|days|] == days;
  }

  /** One day in twenty is logged: the days at positions 0, 20, 40, ... of the run. */
  lemma {:induction false} ProgressDaysShape(days: seq<int>)
    ensures |ProgressDays(days)| == (|days| + 19) / 20
    ensures forall j :: 0 <= j < |ProgressDays(days)| ==> 20 * j < |days| && ProgressDays(days)[j] == days[20 * j]
  {
    if days != [] {
      var init := days[..|days| - 1];
      ProgressDaysShape(init);
    }
  }

  /** A command-line string counts as given only when it is present and not empty. */
  predicate Given(arg: Option<string>) {
    arg.Some? && arg.value != ""
  }

  /**
   * The dates of a range run: the parsed start, and the parsed end when one is
   * given or else the day after the start. A start that does not parse is
   * reported before the end is looked at.
   */
  function RangeBounds(dateFrom: string, dateTo: Option<string>, parse: string -> Option<int>): (b: Result<(int, int), JobError>)
    ensures b == Failure(BadFrom) <==> parse(dateFrom).None?
    ensures b == Failure(BadTo) <==> parse(dateFrom).Some? && Given(dateTo) && parse(dateTo.value).None?
    ensures b.Failure? ==> b.error != MissingFrom
    ensures b.Success? ==> Some(b.value.0) == parse(dateFrom)
    ensures b.Success? && Given(dateTo) ==> Some(b.value.1) == parse(dateTo.value)
    ensures b.Success? && !Given(dateTo) ==> b.value.1 == b.value.0 + 1
  {
    match parse(dateFrom)
    case None => Failure(BadFrom)
    case Some(df) =>
      if Given(dateTo) then
        match parse(dateTo.value)
        case None => Failure(BadTo)
        case Some(dt) => Success((df, dt))
      else
        Success((df, df + 1))
  }

  /** The min(ts), max(ts) query over the raw rows of the filtered store; None when there are none. */
  function TsBounds(raw: seq<RawSale>, store: Option<int>): (b: Option<(int, int)>)
    ensures b.None? <==> forall r :: r in raw ==> !StoreMatches(store, r.storeId)
    ensures b.Some? ==>
      && (exists r :: r in raw && StoreMatches(store, r.storeId) && r.ts == b.value.0)
      && (exists r :: r in raw && StoreMatches(store, r.storeId) && r.ts == b.value.1)
      && forall r :: r in raw && StoreMatches(store, r.storeId) ==> b.value.0 <= r.ts <= b.value.1
  {
    if raw == [] then None
    else
      var init, last := raw[..|raw| - 1], raw[|raw| - 1];
      assert raw == init + [last];
      var b := TsBounds(init, store);
      if !StoreMatches(store, last.storeId) then b
      else
        match b
        case None => Some((last.ts, last.ts))
        case Some((lo, hi)) =>
          Some((if last.ts < lo then last.ts else lo, if last.ts > hi then last.ts else hi))
  }

  /** The backfill's safety bound: the local date `maxYearsBack` times 365 days before now. */
  function MinDay(now: int, maxYearsBack: int, offset: int): int {
    LocalDayOf(now - 365 * maxYearsBack * SecondsPerDay, offset)
  }

  /**
   * The first and last local day of a backfill: the local dates of the earliest
   * and the latest raw instant, the first raised to `minDay` when earlier; None
   * when the filtered store has no raw rows.
   */
  function BackfillSpan(raw: seq<RawSale>, store: Option<int>, minDay: int, offset: int): Option<(int, int)> {
    match TsBounds(raw, store)
    case None => None
    case Some((lo, hi)) =>
      var first := LocalDayOf(lo, offset);
      Some((if first < minDay then minDay else first, LocalDayOf(hi, offset)))
  }

  /** Mode "yesterday": aggregates the single local day before today. */
  method RunYesterday(table: MenuDailyTable, raw: seq<RawSale>, now: int, store: Option<int>, offset: int, dayOf: int -> int)
    returns (target: int)
    modifies table
    ensures target == LocalDayOf(now, offset) - 1
    ensures table.rows == ApplyDays(old(table.rows), raw, [target], store, offset, dayOf)
  {
    var today := LocalDayOf(now, offset);
    target := today - 1;
    var w := ToUtcRangeForLocalDay(target, offset);
    table.AggregateRange(raw, w, store, dayOf);
    assert [target][..0] == [];
  }

  /**
   * Mode "range": aggregates each day from the start (inclusive) to the end
   * (exclusive), one day at a time, and returns how many days it processed.
   */
  method RunRange(table: MenuDailyTable, raw: seq<RawSale>, dateFrom: string, dateTo: Option<string>,
                  store: Option<int>, offset: int, dayOf: int -> int, parse: string -> Option<int>)
    returns (res: Result<nat, JobError>)
    modifies table
    ensures match RangeBounds(dateFrom, dateTo, parse)
      case Failure(e) => res == Failure(e) && table.rows == old(table.rows)
      case Success((df, dt)) =>
        && res == Success(if dt <= df then 0 else dt - df)
        && table.rows == ApplyDays(old(table.rows), raw, DayRange(df, dt), store, offset, dayOf)
  {
    var bounds := RangeBounds(dateFrom, dateTo, parse);
    if bounds.Failure? {
      return Failure(bounds.error);
    }
    var (df, dt) := bounds.value;
    var count := RangeDays(table, raw, df, dt, store, offset, dayOf);
    res := Success(count);
  }

  /** The day loop of mode "range": aggregates every day from `df` up to, but not including, `dt`. */
  method RangeDays(table: MenuDailyTable, raw: seq<RawSale>, df: int, dt: int,
                   store: Option<int>, offset: int, dayOf: int -> int)
    returns (count: nat)
    modifies table
    ensures count == if dt <= df then 0 else dt - df
    ensures table.rows == ApplyDays(old(table.rows), raw, DayRange(df, dt), store, offset, dayOf)
  {
    ghost var rows0 := table.rows;
    ghost var processed: seq<int> := [];
    var curDay := df;
    count := 0;
    while curDay < dt
      invariant curDay == df + count
      invariant count <= if dt <= df then 0 else dt - df
      invariant processed == DayRange(df, curDay)
      invariant table.rows == ApplyDays(rows0, raw, processed, store, offset, dayOf)
    {
      var w := ToUtcRangeForLocalDay(curDay, offset);
      table.AggregateRange(raw, w, store, dayOf);
      ApplyDaysStep(rows0, raw, processed, curDay, store, offset, dayOf);
      DayRangeStep(df, curDay);
      processed := processed + [curDay];
      curDay := curDay + 1;
      count := count + 1;
    }
    if dt <= df {
      assert processed == [] == DayRange(df, dt);
    } else {
      assert curDay == dt;
    }
  }

  /**
   * Mode "all": from the local date of the earliest raw row (but not before the
   * safety bound) to that of the latest, aggregates every day. Returns the number
   * of days; `processed` and `logged` are the days aggregated and the days logged.
   */
  method RunAll(table: MenuDailyTable, raw: seq<RawSale>, now: int, maxYearsBack: int,
                store: Option<int>, offset: int, dayOf: int -> int)
    returns (count: nat, ghost processed: seq<int>, ghost logged: seq<int>)
    modifies table
    ensures match BackfillSpan(raw, store, MinDay(now, maxYearsBack, offset), offset)
      case None => count == 0 && processed == [] && logged == [] && table.rows == old(table.rows)
      case Some((first, last)) =>
        && processed == DayRange(first, last + 1)
        && count == |processed|
        && logged == ProgressDays(processed)
        && table.rows == ApplyDays(old(table.rows), raw, processed, store, offset, dayOf)
  {
    var minDay := MinDay(now, maxYearsBack, offset);
    var bounds := TsBounds(raw, store);
    if bounds.None? {
      return 0, [], [];
    }
    var (minTs, maxTs) := bounds.value;
    var firstDay := LocalDayOf(minTs, offset);
    var lastDay := LocalDayOf(maxTs, offset);
    if firstDay < minDay {
      firstDay := minDay;
    }
    count, processed, logged := BackfillDays(table, raw, firstDay, lastDay, store, offset, dayOf);
  }

  /**
   * The day loop of mode "all": aggregates every day from `firstDay` to
   * `lastDay` inclusive, logging progress before the 1st, 21st, 41st, ... day.
   */
  method BackfillDays(table: MenuDailyTable, raw: seq<RawSale>, firstDay: int, lastDay: int,
                      store: Option<int>, offset: int, dayOf: int -> int)
    returns (count: nat, ghost processed: seq<int>, ghost logged: seq<int>)
    modifies table
    ensures processed == DayRange(firstDay, lastDay + 1)
    ensures count == |processed|
    ensures logged == ProgressDays(processed)
    ensures table.rows == ApplyDays(old(table.rows), raw, processed, store, offset, dayOf)
  {
    ghost var rows0 := table.rows;
    var curDay := firstDay;
    count, processed, logged := 0, [], [];
    while curDay <= lastDay
      invariant curDay == firstDay + count
      invariant count <= if lastDay < firstDay then 0 else lastDay + 1 - firstDay
      invariant processed == DayRange(firstDay, curDay) && |processed| == count
      invariant logged == ProgressDays(processed)
      invariant table.rows == ApplyDays(rows0, raw, processed, store, offset, dayOf)
    {
      var w := ToUtcRangeForLocalDay(curDay, offset);
      table.AggregateRange(raw, w, store, dayOf);
      if count % 20 == 0 {
        logged := logged + [curDay];
      }
      ApplyDaysStep(rows0, raw, processed, curDay, store, offset, dayOf);
      DayRangeStep(firstDay, curDay);
      ProgressDaysStep(processed, curDay);
      processed := processed + [curDay];
      curDay := curDay + 1;
      count := count + 1;
    }
    if lastDay < firstDay {
      assert processed == [] == DayRange(firstDay, lastDay + 1);
    } else {
      assert curDay == lastDay + 1;
    }
  }

  /**
   * The entry point: mode "range" without a start date stops before anything
   * is aggregated; otherwise the chosen mode runs.
   */
  method RunJob(table: MenuDailyTable, mode: Mode, dateFrom: Option<string>, dateTo: Option<string>,
                store: Option<int>, raw: seq<RawSale>, now: int, maxYearsBack: int, offset: int,
                dayOf: int -> int, parse: string -> Option<int>)
    returns (exit: Exit)
    modifies table
    ensures mode == Yesterday ==>
      exit == Finished && table.rows == ApplyDays(old(table.rows), raw, [LocalDayOf(now, offset) - 1], store, offset, dayOf)
    ensures mode == Range && !Given(dateFrom) ==>
      exit == Aborted(MissingFrom) && table.rows == old(table.rows)
    ensures mode == Range && Given(dateFrom) ==>
      match RangeBounds(dateFrom.value, dateTo, parse)
      case Failure(e) => exit == Aborted(e) && table.rows == old(table.rows)
      case Success((df, dt)) =>
        exit == Finished && table.rows == ApplyDays(old(table.rows), raw, DayRange(df, dt), store, offset, dayOf)
    ensures mode == All ==>
      && exit == Finished
      && table.rows == match BackfillSpan(raw, store, MinDay(now, maxYearsBack, offset), offset)
         case None => old(table.rows)
         case Some((first, last)) => ApplyDays(old(table.rows), raw, DayRange(first, last + 1), store, offset, dayOf)
  {
    match mode
    case Yesterday =>
      var _ := RunYesterday(table, raw, now, store, offset, dayOf);
      exit := Finished;
    case Range =>
      if !Given(dateFrom) {
        return Aborted(MissingFrom);
      }
      var res := RunRange(table, raw, dateFrom.value, dateTo, store, offset, dayOf, parse);
      exit := if res.Success? then Finished else Aborted(res.error);
    case All =>
      var _, _, _ := RunAll(table, raw, now, maxYearsBack, store, offset, dayOf);
      exit := Finished;
  }
}
