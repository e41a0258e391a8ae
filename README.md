# Daily menu aggregation job, modelled in Dafny

This project models the daily aggregation job of the sales-analysis backend
(`scriptsdaily_job.py`). The job reads raw point-of-sale rows (`raw_sales`:
store, UTC timestamp, menu item, quantity, unit price). For each local calendar
day in the configured time zone, it upserts one summary row per
(day, store, menu item) into `feat_menu_daily`: total quantity, total sales,
number of orders and average unit price. It has three run modes:

- `yesterday`: the local day before today;
- `range`: `--from` inclusive to `--to` exclusive, one day by default;
- `all`: every day from the earliest to the latest raw row, clamped to a safety bound of `MAX_YEARS_BACK` years.

A `--store-id` filter is optional in every mode.

The model has five modules.

- `TimeWindow` (`time_window.dfy`) covers `to_utc_range_for_local_day`. A local day becomes the half-open UTC interval between its local midnight and the next. Instants are seconds since the epoch, days are day numbers since 1970-01-01, and the zone is a fixed offset.
- `Aggregate` (`aggregate.dfy`) covers the `UPSERT_RANGE` statement.
  - `FreshSummaries` is its SELECT: the WHERE filter, the GROUP BY and the four aggregates.
  - `Upsert` is its `ON CONFLICT ... DO UPDATE`.
  - The `MenuDailyTable` class holds `feat_menu_daily` as a map field that `AggregateRange` (`aggregate_range`) rewrites.
- `AggregateFacts` (`aggregate_facts.dfy`) holds what one upsert guarantees: idempotence, replacement, store isolation, the half-open window, and independence from row order.
- `Job` (`job.dfy`) covers the driver. `run_yesterday`, `run_range`, `run_all` and `main` are methods over a `MenuDailyTable`, with the same day loops, counters and progress condition. Each is proved against `ApplyDays`, the fold of the upsert over the days processed.
- `JobFacts` (`job_facts.dfy`) holds what a whole run guarantees:
  - a run is one upsert of all its days' groups;
  - re-running changes nothing;
  - a store filter protects every other store;
  - a range run rewrites exactly the groups of its days;
  - the backfill rebuilds every sale no older than its bound and leaves older days alone.
- `QueryDate` (`query_date.dfy`) holds the local-date expression of the query, as written and as intended (see "## Findings").

The date expression of the query is the parameter `dayOf: int -> int`. The whole-run properties assume `DayConsistent(dayOf, offset)`: the query dates an instant the way the windows do. The intended expression `QueryDate.IntendedQueryDay` satisfies this in every zone. With a UTC session, the expression as written satisfies it only when the zone is UTC itself (`QueryDate.AsWrittenConsistentOnlyInUtc`).

The clock (`now`), the zone (`offset`), `MAX_YEARS_BACK` (`maxYearsBack`) and the `YYYY-MM-DD` parser (`parse`) are parameters of the driver methods.

## Model

| member | source | states |
|---|---|---|
| `TimeWindow.LocalDayOf` | scriptsdaily_job.py:146-147 | The local date of an instant, as `.astimezone(tz).date()` gives it here and `datetime.now(tz).date()` at line 112: the floor of (t + offset) / 86400, also before 1970. `WindowIsLocalDay`, `LocalDayMonotone` and `ShiftByWholeDays` state its properties. |
| `TimeWindow.ToUtcRangeForLocalDay` | scriptsdaily_job.py:89-98 | Local midnight of the day and local midnight one day later, both converted to UTC. `WindowBounds`, `WindowIsLocalDay` and `ConsecutiveWindowsTile` state what this window is. |
| `TimeWindow.WindowBounds` | scriptsdaily_job.py:93-98 | A day's window lasts exactly 86400 s. It starts at a local midnight falling on that day and ends at the local midnight that begins the next day. |
| `TimeWindow.WindowIsLocalDay` | scriptsdaily_job.py:89-98 | An instant lies in day d's window if and only if its local date is d. |
| `TimeWindow.ConsecutiveWindowsTile` | scriptsdaily_job.py:94 | The end of one day's window is the start of the next day's. That instant belongs to the next day and not to this one. |
| `TimeWindow.LocalDayMonotone` | scriptsdaily_job.py:146-147 | A later instant never has an earlier local date. |
| `TimeWindow.ShiftByWholeDays` | scriptsdaily_job.py:127 | Going back n·86400 s moves the local date back by exactly n days. |
| `TimeWindow.TokyoHalfPastMidnight` | scriptsdaily_job.py:93-98 | At nine hours east of UTC, 00:30 local on day d is in d's window although its UTC date is d−1. |
| `Aggregate.Selected` | scriptsdaily_job.py:70-71 | The WHERE clause: `start_utc <= ts < end_utc`, and the store matches when a store filter is given. `ContributingMembers` and `HalfOpenWindow` state its effect. |
| `Aggregate.KeyOf` | scriptsdaily_job.py:62-64 | The GROUP BY key (day_local, store_id, menu_id), with the date expression as the parameter `dayOf`. `RowHasGroup` and `GroupDayIsWindowDay` state its effect. |
| `Aggregate.ContributingMembers` | scriptsdaily_job.py:69-72 | A row is in group k if and only if it is a raw row that passes the WHERE clause and has key k. |
| `Aggregate.RoundHalfAwayFromZero` | scriptsdaily_job.py:68 | The result is an integer nearest to num/den, with halves rounded away from zero. This is how a cast to numeric(10,2) rounds. |
| `Aggregate.SummaryOf` | scriptsdaily_job.py:65-68 | A group has at least one order. avg_price, counted in hundredths, is within half a hundredth of 100 times the plain mean of its unit prices. |
| `Aggregate.FreshKeysMembers` | scriptsdaily_job.py:61-72 | A key is produced if and only if some raw row passes the WHERE clause with that key. |
| `Aggregate.FreshSummaries` | scriptsdaily_job.py:58-72 | The SELECT ... GROUP BY: one summary per key whose group of selected rows is not empty. `FreshSummariesSpec` states its contract. |
| `Aggregate.FreshSummariesSpec` | scriptsdaily_job.py:58-72 | The SELECT returns a key if and only if some selected row has it. Each returned row holds Σqty, Σqty·price and the count of its group (never zero). Its avg_price is the plain mean of the unit prices, rounded to hundredths with halves away from zero. |
| `Aggregate.Upsert` | scriptsdaily_job.py:73-77 | INSERT ... ON CONFLICT DO UPDATE of all four aggregate columns. `UpsertSemantics` states its contract. |
| `Aggregate.UpsertSemantics` | scriptsdaily_job.py:73-77 | After the upsert the keys are old ∪ new. A new key holds the fresh values, replacing all four columns. Every other key keeps its old row. |
| `Aggregate.MenuDailyTable.constructor` | scriptsdaily_job.py:46-55 | A new table is empty. |
| `Aggregate.MenuDailyTable.AggregateRange` | scriptsdaily_job.py:100-107 | The table becomes its old contents upserted with the query's result for the window and store. |
| `AggregateFacts.AggregateIdempotent` | scriptsdaily_job.py:16 | Running the same upsert twice leaves the table as one run does. |
| `AggregateFacts.AggregateReplaces` | scriptsdaily_job.py:74-77 | A key the run produces ends with the same value whatever the table held before, so nothing accumulates. |
| `AggregateFacts.ReaggregationLeavesNoTrace` | scriptsdaily_job.py:73-77 | If the raw rows change without losing a group, re-running the upsert gives the table a single run over the new rows would give. |
| `AggregateFacts.UpsertAbsorbs` | scriptsdaily_job.py:73 | An upsert whose keys cover an earlier one's overwrites all of it. |
| `AggregateFacts.StoreIsolation` | scriptsdaily_job.py:71 | With a store filter, a key of another store is neither created nor changed. |
| `AggregateFacts.OnlyProducedKeysChange` | scriptsdaily_job.py:58-77 | A key that no selected row produces keeps its value or stays absent. The upsert never deletes. |
| `AggregateFacts.ContributingSkipsUnselected` | scriptsdaily_job.py:70-71 | Inserting a row the WHERE clause rejects, anywhere, leaves every group unchanged. |
| `AggregateFacts.FreshSkipsUnselected` | scriptsdaily_job.py:70-71 | A rejected row, wherever it sits, does not change the query's result. |
| `AggregateFacts.HalfOpenWindow` | scriptsdaily_job.py:70 | A row stamped exactly at the window's end contributes nothing. A row of a matching store stamped exactly at its start is in its group. |
| `AggregateFacts.GroupDayIsWindowDay` | scriptsdaily_job.py:62 | If the query's date agrees with the zone, every group written by day d's run has day d. |
| `AggregateFacts.ContributingCounts` | scriptsdaily_job.py:69-72 | A group holds each row as many times as raw_sales does if the row belongs to it, and otherwise not at all. |
| `AggregateFacts.TotalPermutation` | scriptsdaily_job.py:65-68 | A sum over a group does not depend on the order of its rows. |
| `AggregateFacts.GroupIgnoresRowOrder` | scriptsdaily_job.py:65-68 | If two raw tables are permutations of each other, each group has the same count and the same three sums. |
| `AggregateFacts.FreshIgnoresRowOrder` | scriptsdaily_job.py:58-72 | If two raw tables are permutations of each other, the query returns the same result. |
| `AggregateFacts.SingleGroup` | scriptsdaily_job.py:58-72 | If every raw row falls in group k, the query returns exactly one row: k with the summary of all of them. |
| `AggregateFacts.TwoSaleSummary` | scriptsdaily_job.py:65-68 | A group of two sales has the sum of their quantities, the sum of their sales, two orders, and the rounded mean of their two unit prices. |
| `AggregateFacts.RamenScenario` | scriptsdaily_job.py:58-77 | Two ramen sales of store 1 on 2025-08-20 UTC, 2×1200 and 1×1200, give the single row (3, 3600, 2, 1200.00). |
| `AggregateFacts.AvgPriceIsPlainMean` | scriptsdaily_job.py:66-68 | 3 items at 100 and 1 item at 200 give avg_price 150.00, while sales_sum/qty_sum is 125. |
| `Job.ApplyDays` | scriptsdaily_job.py:188-194 | The table after one upsert per day, in the order of the days. `ApplyDaysStep`, `RunIsOneUpsert` and `RangeGroups` state what it holds. |
| `Job.ApplyDaysStep` | scriptsdaily_job.py:188-194 | Processing one more day at the end of a run is one more upsert after the others. |
| `Job.DayRangeSpec` | scriptsdaily_job.py:188-194 | The days from df to dt are df, df+1, …, dt−1: max(0, dt−df) of them. |
| `Job.ProgressDaysShape` | scriptsdaily_job.py:159-160 | Progress is logged for the days at positions 0, 20, 40, … of the backfill: ⌈n/20⌉ of them. |
| `Job.RangeBounds` | scriptsdaily_job.py:171-181 | A bad `--from` fails with BadFrom, and is checked before `--to`. A given `--to` that does not parse fails with BadTo. Otherwise the bounds are the parsed dates, or (df, df+1) when `--to` is absent or empty. |
| `Job.TsBounds` | scriptsdaily_job.py:135-142 | The result is None if and only if the filtered store has no raw rows. Otherwise it is the smallest and largest timestamp of those rows: both occur, and every row lies between them. |
| `Job.RunYesterday` | scriptsdaily_job.py:110-122 | The target is the local date of now minus one day, and the table is upserted for that one day. |
| `Job.RunRange` | scriptsdaily_job.py:165-195 | A date that does not parse aborts before any write. Otherwise the run processes max(0, dt−df) days and the table is the upsert folded over df, …, dt−1. |
| `Job.RangeDays` | scriptsdaily_job.py:188-195 | The loop runs from cur_day = df while cur_day < dt. It returns max(0, dt−df) and upserts each day in order. |
| `Job.RunAll` | scriptsdaily_job.py:124-163 | With no raw rows for the store, it returns with nothing changed. Otherwise it processes every day from max(first row's date, min_day) to the last row's date, inclusive. |
| `Job.BackfillDays` | scriptsdaily_job.py:152-163 | It processes firstDay…lastDay inclusive. count is the number of days, progress is logged when count % 20 == 0, and the table is the fold of the upsert. |
| `Job.RunJob` | scriptsdaily_job.py:197-217 | Mode range without `--from` aborts with MissingFrom and writes nothing. Every other mode runs as above. |
| `JobFacts.UpsertTwice` | scriptsdaily_job.py:73-77 | Two upserts in a row are one upsert of their union, the later one winning. |
| `JobFacts.RunIsOneUpsert` | scriptsdaily_job.py:188-194 | A run over several days leaves the table as one upsert of all their groups would. |
| `JobFacts.RunIdempotent` | scriptsdaily_job.py:16 | Re-running a run of any mode over the same days and the same raw rows changes nothing. |
| `JobFacts.FreshOnlyOfStore` | scriptsdaily_job.py:71 | A store-filtered query returns no group of another store. |
| `JobFacts.FreshOverOnlyOfStore` | scriptsdaily_job.py:71 | A store-filtered run over any days writes no group of another store. |
| `JobFacts.RunStoreIsolation` | scriptsdaily_job.py:203 | With `--store-id`, a whole run neither creates nor changes any other store's row. |
| `JobFacts.RangeGroups` | scriptsdaily_job.py:188-194 | If the query's date agrees with the zone, a run from first to stop writes key k if and only if first ≤ k.day < stop and k's own day produces it. The value is that day's. |
| `JobFacts.RangeRunEffect` | scriptsdaily_job.py:165-195 | After a range run, a group of a day in range that has raw rows holds that day's fresh values. Every other key is unchanged, including groups whose raw rows have gone. |
| `Job.MinDay` | scriptsdaily_job.py:127 | min_day: the local date of now minus 365·MAX_YEARS_BACK days of 86400 s. `MinDayIsYearsBeforeToday` states its contract. |
| `Job.BackfillSpan` | scriptsdaily_job.py:135-149 | The first and last local day of mode all: the dates of the earliest and latest raw instant of the store, the first raised to min_day. `BackfillSpanBounds` states its contract. |
| `JobFacts.MinDayIsYearsBeforeToday` | scriptsdaily_job.py:127 | min_day is today's local date minus 365·MAX_YEARS_BACK days. |
| `JobFacts.BackfillSpanBounds` | scriptsdaily_job.py:135-149 | There is no span if and only if the store has no raw rows. Otherwise the span starts no earlier than min_day and covers the date of every row dated min_day or later. |
| `JobFacts.RowHasGroup` | scriptsdaily_job.py:62-71 | A raw row of a matching store produces its group in the query for its own local day. |
| `JobFacts.BackfillCoversRecentSales` | scriptsdaily_job.py:124-163 | After mode all, the group of every store row dated min_day or later holds the fresh values of that row's day. |
| `JobFacts.BackfillKeepsOlderDays` | scriptsdaily_job.py:126-149 | Mode all leaves every group dated before min_day as it was. |
| `JobFacts.DefaultRangeIsOneDay` | scriptsdaily_job.py:180-181 | Without `--to`, a range run processes exactly the `--from` day. |
| `JobFacts.EmptyRangeChangesNothing` | scriptsdaily_job.py:190 | If `--to` is not after `--from`, no day is processed and the table is unchanged. |
| `QueryDate.QueryDayAsWritten` | scriptsdaily_job.py:62 | The date the query as written gives an instant: its UTC wall clock read as a time in the zone, then dated in the session's zone. `AsWrittenMisdates` states its effect. |
| `QueryDate.IntendedQueryDay` | scriptsdaily_job.py:62 | The date the query should give an instant: its local date in the aggregation zone. `IntendedDayIsConsistent` states its effect. |
| `QueryDate.AsWrittenMisdates` | scriptsdaily_job.py:62 | As written, with a UTC session and a zone less than 12 h from UTC, take an instant of local day d at local clock c. It is dated d−1 when c < 2·offset, d+1 when c ≥ 86400 + 2·offset, and d otherwise. |
| `QueryDate.AsWrittenConsistentOnlyInUtc` | scriptsdaily_job.py:62 | As written, with a UTC session and a zone less than 12 h from UTC, the query dates every instant the way the windows do if and only if the zone is UTC. |
| `QueryDate.AsWrittenFilesMorningUnderDayBefore` | scriptsdaily_job.py:62 | As written, with zone +09:00 and a UTC session, every instant of the first 18 hours of local day d is in d's window but is dated d−1. |
| `QueryDate.AsWrittenLosesSale` | scriptsdaily_job.py:62 | As written, a run over 2025-08-19 and 2025-08-20 in Tokyo leaves only the night sale: the evening sale's row is overwritten. |
| `QueryDate.SingleSaleSummary` | scriptsdaily_job.py:65-68 | One sale alone makes (qty, qty·price, 1, price.00). |
| `QueryDate.IntendedDayIsConsistent` | scriptsdaily_job.py:62 | The intended expression, the local date in the zone, dates an instant the way the windows do. |
| `QueryDate.IntendedGroupsCarryWindowDay` | scriptsdaily_job.py:62 | With the intended expression, every group a day's run writes carries that day, in any zone. |
| `QueryDate.IntendedKeepsBothSales` | scriptsdaily_job.py:62 | With the intended expression, the same Tokyo run keeps both sales, each under its own date. |

## Left out

- Database access (`psycopg` connections, autocommit, `ensure_schema_and_indexes`, the DDL and its indexes) is not modelled. `feat_menu_daily` is a map in memory, and `raw_sales` is a sequence passed to every operation. Every connection uses `autocommit=True` (scriptsdaily_job.py:120, 131, 154, 185), so each day's upsert commits on its own. A storage error in the middle of a run keeps the days already done and skips the rest. The contracts of `Job.RunRange`, `Job.RangeDays`, `Job.RunAll` and `Job.BackfillDays` describe a run in which every day's upsert succeeds; they do not make a run all-or-nothing.
- Logging is not modelled, except the progress lines of mode all, which are kept as the ghost sequence `logged`. Standard output is I/O.
- Environment variables (`DATABASE_URL`, `AGG_TZ`, `MAX_YEARS_BACK`) and `datetime.now` become the parameters `offset`, `maxYearsBack` and `now`.
- `argparse` is not modelled. Its rejection of an unknown mode and of a non-integer `--store-id` happens before any of the modelled code runs.
- TimeWindow.WindowBounds: holds for a fixed UTC offset only. IANA zone rules and daylight saving are not modelled; across a daylight-saving change the real window lasts 23 or 25 hours.
- `ZoneInfo` failing on an unknown zone name is not modelled. Neither is `date` overflowing at year 1 or 9999: days are unbounded integers.
- Job.RangeBounds: `datetime.strptime` is the abstract parameter `parse`, so the `YYYY-MM-DD` format itself is not modelled.
- Aggregate.SummaryOf: column widths are not modelled: `int` for qty_sum and orders, `bigint` for sales_sum, and numeric(10,2) for avg_price. Neither is the error Postgres raises when a sum overflows them.
- Aggregate.SummaryOf: avg_price is the exact mean rounded once, half away from zero. Postgres first computes `avg(price)` to a finite scale, so with huge numbers of orders a second rounding could differ by one hundredth.
- `Aggregate.KeyOf` takes the query's date expression as the parameter `dayOf`. The whole-run properties assume it agrees with the zone (`DayConsistent`). With a UTC session, the expression as written agrees with the zone only when the zone is UTC (`QueryDate.AsWrittenConsistentOnlyInUtc`). "## Findings" shows what it does in other zones.
- Job.MinDay: `MAX_YEARS_BACK` is a number of years, default 5 (scriptsdaily_job.py:35-36). The code turns it into 365 days per year (scriptsdaily_job.py:127), so leap days are not counted. The model does the same.
- `run_all` truth-tests `min(ts)`/`max(ts)`. Those are timestamps, which are always true when not null, so the test reduces to "the store has raw rows".
- Concurrency (two jobs upserting the same keys at once) is not modelled.
- `main.py` is not part of this model.

## Findings

| source | as written | input that shows it | evidently intended | confidence | as-written member | corrected member |
|---|---|---|---|---|---|---|
| scriptsdaily_job.py:62 | `(ts at time zone 'UTC' at time zone tz)::date` reads the UTC wall clock of `ts` as a time in `tz`. This moves the instant the wrong way by the zone offset. East of UTC, a sale in the first 2·offset hours of a local day is dated the day before. West of UTC, a sale in the last −2·offset hours is dated the day after. When the neighbouring day's run yields a group with the same date, store and menu, it overwrites that row and one day's sales are lost (the Tokyo input). Otherwise the sales stay, filed under the wrong date. | AGG_TZ=Asia/Tokyo with a UTC session. Two sales: 2025-08-19 20:00 JST (2 items) and 2025-08-20 00:30 JST (1 item). Run `--mode range --from 2025-08-19 --to 2025-08-21`. Both sales are dated 2025-08-19, and the table keeps only the 1-item row. | `(ts at time zone tz)::date`, the local date of `ts` in the zone of the windows. | not executed; the exact shift depends on the session's TimeZone, but no usual setting makes the query's date equal the window's date for a non-UTC zone | `QueryDate.AsWrittenLosesSale` | `QueryDate.IntendedGroupsCarryWindowDay` |
