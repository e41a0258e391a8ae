/**
 * What a whole run of the job guarantees: a run over many days is one upsert
 * of all their groups, running it again changes nothing, a store filter keeps
 * every other store's rows, a range run rewrites exactly the groups of its days,
 * and the backfill covers every sale no older than its safety bound.
 */
module JobFacts {
  import opened Wrappers
  import opened TimeWindow
  import opened Aggregate
  import opened AggregateFacts
  import opened Job

  /** The groups a run over `days` writes, the groups of a later day overwriting those of an earlier one. */
  function FreshOver(raw: seq<RawSale>, days: seq<int>, store: Option<int>, offset: int, dayOf: int -> int): map<Key, Summary> {
    if days == [] then map[]
    else
      FreshOver(raw, days[..|days| - 1], store, offset, dayOf)
        + FreshSummaries(raw, ToUtcRangeForLocalDay(days[|days| - 1], offset), store, dayOf)
  }

  /** Two upserts in a row are one upsert of their union, the second winning. */
  lemma UpsertTwice(table: map<Key, Summary>, first: map<Key, Summary>, second: map<Key, Summary>)
    ensures Upsert(Upsert(table, first), second) == Upsert(table, first + second)
  {
    var lhs, rhs := Upsert(Upsert(table, first), second), Upsert(table, first + second);
    assert lhs.Keys == rhs.Keys;
    forall k | k in lhs
      ensures lhs[k] == rhs[k]
    {
    }
  }

  /** A run over `days` leaves the table as a single upsert of all the groups of those days would. */
  lemma {:induction false} RunIsOneUpsert(table: map<Key, Summary>, raw: seq<RawSale>, days: seq<int>, store: Option<int>, offset: int, dayOf: int -> int)
    ensures ApplyDays(table, raw, days, store, offset, dayOf) == Upsert(table, FreshOver(raw, days, store, offset, dayOf))
  {
    if days != [] {
      var init := days[..|days| - 1];
      RunIsOneUpsert(table, raw, init, store, offset, dayOf);
      UpsertTwice(table, FreshOver(raw, init, store, offset, dayOf),
                  FreshSummaries(raw, ToUtcRangeForLocalDay(days[|days| - 1], offset), store, dayOf));
    }
  }

  /** Re-running the job over the same days, on unchanged raw rows, leaves the table as the first run left it. */
  lemma RunIdempotent(table: map<Key, Summary>, raw: seq<RawSale>, days: seq<int>, store: Option<int>, offset: int, dayOf: int -> int)
    ensures ApplyDays(ApplyDays(table, raw, days, store, offset, dayOf), raw, days, store, offset, dayOf)
         == ApplyDays(table, raw, days, store, offset, dayOf)
  {
    var once := ApplyDays(table, raw, days, store, offset, dayOf);
    var groups := FreshOver(raw, days, store, offset, dayOf);
    RunIsOneUpsert(table, raw, days, store, offset, dayOf);
    RunIsOneUpsert(once, raw, days, store, offset, dayOf);
    UpsertAbsorbs(table, groups, groups);
  }

  /** A store-filtered query returns no group of another store. */
  lemma FreshOnlyOfStore(raw: seq<RawSale>, w: UtcRange, s: int, dayOf: int -> int, k: Key)
    requires k.1 != s
    ensures k !in FreshSummaries(raw, w, Some(s), dayOf)
  {
    FreshSummariesSpec(raw, w, Some(s), dayOf);
  }

  /** A store-filtered run over any days writes no group of another store. */
  lemma {:induction false} FreshOverOnlyOfStore(raw: seq<RawSale>, days: seq<int>, s: int, offset: int, dayOf: int -> int, k: Key)
    requires k.1 != s
    ensures k !in FreshOver(raw, days, Some(s), offset, dayOf)
  {
    if days != [] {
      FreshOverOnlyOfStore(raw, days[..|days| - 1], s, offset, dayOf, k);
      FreshOnlyOfStore(raw, ToUtcRangeForLocalDay(days[|days| - 1], offset), s, dayOf, k);
    }
  }

  /** With --store-id, a whole run neither creates nor changes a row of any other store. */
  lemma RunStoreIsolation(table: map<Key, Summary>, raw: seq<RawSale>, days: seq<int>, s: int, offset: int, dayOf: int -> int, k: Key)
    requires k.1 != s
    ensures k in ApplyDays(table, raw, days, Some(s), offset, dayOf) <==> k in table
    ensures k in table ==> ApplyDays(table, raw, days, Some(s), offset, dayOf)[k] == table[k]
  {
    RunIsOneUpsert(table, raw, days, Some(s), offset, dayOf);
    FreshOverOnlyOfStore(raw, days, s, offset, dayOf, k);
    UpsertSemantics(table, FreshOver(raw, days, Some(s), offset, dayOf));
  }

  /**
   * When the query's day agrees with the zone, the groups a run from `first` to
   * `stop` writes are exactly the groups of the one-day query for their own day,
   * for the days in the range.
   */
  lemma {:induction false} RangeGroups(raw: seq<RawSale>, first: int, stop: int, store: Option<int>, offset: int, dayOf: int -> int, k: Key)
    requires DayConsistent(dayOf, offset)
    ensures var groups := FreshOver(raw, DayRange(first, stop), store, offset, dayOf);
            var own := FreshSummaries(raw, ToUtcRangeForLocalDay(k.0, offset), store, dayOf);
            && (k in groups <==> first <= k.0 < stop && k in own)
            && (k in groups ==> groups[k] == own[k])
    decreases stop - first
  {
    if first < stop {
      var days := DayRange(first, stop);
      assert days[..|days| - 1] == DayRange(first, stop - 1);
      RangeGroups(raw, first, stop - 1, store, offset, dayOf, k);
      GroupDayIsWindowDay(raw, stop - 1, offset, store, dayOf);
    }
  }

  /**
   * The effect of a range run on one key: a group of a day in [first, stop) that
   * has raw rows holds that day's fresh aggregates; every other key keeps its
   * value or stays absent. In particular the upsert never deletes a group whose
   * raw rows have gone.
   */
  lemma RangeRunEffect(table: map<Key, Summary>, raw: seq<RawSale>, first: int, stop: int, store: Option<int>, offset: int, dayOf: int -> int, k: Key)
    requires DayConsistent(dayOf, offset)
    ensures var after := ApplyDays(table, raw, DayRange(first, stop), store, offset, dayOf);
            var own := FreshSummaries(raw, ToUtcRangeForLocalDay(k.0, offset), store, dayOf);
            if first <= k.0 < stop && k in own then k in after && after[k] == own[k]
            else (k in after <==> k in table) && (k in table ==> after[k] == table[k])
  {
    RunIsOneUpsert(table, raw, DayRange(first, stop), store, offset, dayOf);
    RangeGroups(raw, first, stop, store, offset, dayOf, k);
    UpsertSemantics(table, FreshOver(raw, DayRange(first, stop), store, offset, dayOf));
  }

  /** The safety bound is the local date today, less 365 days per year of the bound. */
  lemma MinDayIsYearsBeforeToday(now: int, maxYearsBack: int, offset: int)
    ensures MinDay(now, maxYearsBack, offset) == LocalDayOf(now, offset) - 365 * maxYearsBack
  {
    ShiftByWholeDays(now, offset, 365 * maxYearsBack);
  }

  /**
   * The backfill's days: there are none exactly when the filtered store has no
   * raw rows; otherwise they start no earlier than the safety bound, and every
   * raw row of the store dated on or after the bound falls on one of them.
   */
  lemma BackfillSpanBounds(raw: seq<RawSale>, store: Option<int>, minDay: int, offset: int)
    ensures BackfillSpan(raw, store, minDay, offset).None? <==> forall r :: r in raw ==> !StoreMatches(store, r.storeId)
    ensures BackfillSpan(raw, store, minDay, offset).Some? ==>
      var (first, last) := BackfillSpan(raw, store, minDay, offset).value;
      && minDay <= first
      && forall r :: r in raw && StoreMatches(store, r.storeId) && minDay <= LocalDayOf(r.ts, offset) ==>
           first <= LocalDayOf(r.ts, offset) <= last
  {
    var b := TsBounds(raw, store);
    if b.Some? {
      var (lo, hi) := b.value;
      forall r | r in raw && StoreMatches(store, r.storeId)
        ensures LocalDayOf(lo, offset) <= LocalDayOf(r.ts, offset) <= LocalDayOf(hi, offset)
      {
        LocalDayMonotone(lo, r.ts, offset);
        LocalDayMonotone(r.ts, hi, offset);
      }
    }
  }

  /** A raw row of a matching store produces a group in the query for its own local day. */
  lemma RowHasGroup(raw: seq<RawSale>, r: RawSale, store: Option<int>, offset: int, dayOf: int -> int)
    requires DayConsistent(dayOf, offset)
    requires r in raw && StoreMatches(store, r.storeId)
    ensures KeyOf(r, dayOf).0 == LocalDayOf(r.ts, offset)
    ensures KeyOf(r, dayOf) in FreshSummaries(raw, ToUtcRangeForLocalDay(LocalDayOf(r.ts, offset), offset), store, dayOf)
  {
    var day := LocalDayOf(r.ts, offset);
    var w := ToUtcRangeForLocalDay(day, offset);
    WindowIsLocalDay(day, offset, r.ts);
    FreshSummariesSpec(raw, w, store, dayOf);
    assert Contributes(r, w, store, dayOf, KeyOf(r, dayOf));
  }

  /**
   * Mode "all" rebuilds every sale no older than the safety bound: the group of
   * each such raw row ends up holding the fresh aggregates of the row's day.
   * (By BackfillSpanBounds the span exists whenever the store has raw rows.)
   */
  lemma BackfillCoversRecentSales(table: map<Key, Summary>, raw: seq<RawSale>, minDay: int, first: int, last: int,
                                  store: Option<int>, offset: int, dayOf: int -> int, r: RawSale)
    requires DayConsistent(dayOf, offset)
    requires BackfillSpan(raw, store, minDay, offset) == Some((first, last))
    requires r in raw && StoreMatches(store, r.storeId)
    requires minDay <= LocalDayOf(r.ts, offset)
    ensures first <= LocalDayOf(r.ts, offset) <= last
    ensures var after := ApplyDays(table, raw, DayRange(first, last + 1), store, offset, dayOf);
            var own := FreshSummaries(raw, ToUtcRangeForLocalDay(LocalDayOf(r.ts, offset), offset), store, dayOf);
            var k := KeyOf(r, dayOf);
            k in own && k in after && after[k] == own[k]
  {
    BackfillSpanBounds(raw, store, minDay, offset);
    RowHasGroup(raw, r, store, offset, dayOf);
    RangeRunEffect(table, raw, first, last + 1, store, offset, dayOf, KeyOf(r, dayOf));
  }

  /** Mode "all" leaves every group dated before the safety bound as it was. */
  lemma BackfillKeepsOlderDays(table: map<Key, Summary>, raw: seq<RawSale>, minDay: int, first: int, last: int,
                               store: Option<int>, offset: int, dayOf: int -> int, k: Key)
    requires DayConsistent(dayOf, offset)
    requires BackfillSpan(raw, store, minDay, offset) == Some((first, last))
    requires k.0 < minDay
    ensures var after := ApplyDays(table, raw, DayRange(first, last + 1), store, offset, dayOf);
            && (k in after <==> k in table)
            && (k in table ==> after[k] == table[k])
  {
    BackfillSpanBounds(raw, store, minDay, offset);
    RangeRunEffect(table, raw, first, last + 1, store, offset, dayOf, k);
  }

  /**
   * Mode "range" with no --to is a one-day run of the start date, the run mode
   * "yesterday" makes when the start date is yesterday.
   */
  lemma DefaultRangeIsOneDay(dateFrom: string, dateTo: Option<string>, parse: string -> Option<int>, day: int)
    requires parse(dateFrom) == Some(day) && !Given(dateTo)
    ensures RangeBounds(dateFrom, dateTo, parse) == Success((day, day + 1))
    ensures DayRange(day, day + 1) == [day]
  {
  }

  /** A range whose end is not after its start processes no day and leaves the table as it was. */
  lemma EmptyRangeChangesNothing(table: map<Key, Summary>, raw: seq<RawSale>, first: int, stop: int, store: Option<int>, offset: int, dayOf: int -> int)
    requires stop <= first
    ensures DayRange(first, stop) == []
    ensures ApplyDays(table, raw, DayRange(first, stop), store, offset, dayOf) == table
  {
  }
}
