/**
 * What the upsert of the range aggregator guarantees: re-running it changes
 * nothing, a re-run replaces rather than adds, a store filter isolates the other
 * stores, the window is half-open, and the result does not depend on the order
 * of the raw rows.
 */
module AggregateFacts {
  import opened Wrappers
  import opened TimeWindow
  import opened Aggregate

  /** The table after one run of the upsert over `raw`. */
  function AfterAggregate(table: map<Key, Summary>, raw: seq<RawSale>, w: UtcRange, store: Option<int>, dayOf: int -> int): map<Key, Summary> {
    Upsert(table, FreshSummaries(raw, w, store, dayOf))
  }

  /** The query's local-date expression agrees with the zone the windows are built for. */
  ghost predicate DayConsistent(dayOf: int -> int, offset: int) {
    forall t :: dayOf(t) == LocalDayOf(t, offset)
  }

  /** Running the same upsert twice over the same raw rows leaves the table as one run left it. */
  lemma AggregateIdempotent(table: map<Key, Summary>, raw: seq<RawSale>, w: UtcRange, store: Option<int>, dayOf: int -> int)
    ensures AfterAggregate(AfterAggregate(table, raw, w, store, dayOf), raw, w, store, dayOf)
         == AfterAggregate(table, raw, w, store, dayOf)
  {
  }

  /**
   * Full replacement: every key the run produces ends up holding the freshly
   * computed values, whatever the table held before (nothing is added to an old value).
   */
  lemma AggregateReplaces(t1: map<Key, Summary>, t2: map<Key, Summary>, raw: seq<RawSale>, w: UtcRange, store: Option<int>, dayOf: int -> int, k: Key)
    requires k in FreshSummaries(raw, w, store, dayOf)
    ensures AfterAggregate(t1, raw, w, store, dayOf)[k] == AfterAggregate(t2, raw, w, store, dayOf)[k]
  {
  }

  /**
   * After the raw rows change (a corrected quantity, say) without losing a
   * group, re-running the upsert leaves no trace of the earlier run: the table
   * is what a single run over the new rows would have made of it.
   */
  lemma ReaggregationLeavesNoTrace(table: map<Key, Summary>, before: seq<RawSale>, after: seq<RawSale>, w: UtcRange, store: Option<int>, dayOf: int -> int)
    requires FreshSummaries(before, w, store, dayOf).Keys <= FreshSummaries(after, w, store, dayOf).Keys
    ensures AfterAggregate(AfterAggregate(table, before, w, store, dayOf), after, w, store, dayOf)
         == AfterAggregate(table, after, w, store, dayOf)
  {
    UpsertAbsorbs(table, FreshSummaries(before, w, store, dayOf), FreshSummaries(after, w, store, dayOf));
  }

  /** A second upsert whose keys cover the first one's overwrites all of it. */
  lemma UpsertAbsorbs(table: map<Key, Summary>, first: map<Key, Summary>, second: map<Key, Summary>)
    requires first.Keys <= second.Keys
    ensures Upsert(Upsert(table, first), second) == Upsert(table, second)
  {
    var lhs, rhs := Upsert(Upsert(table, first), second), Upsert(table, second);
    assert lhs.Keys == rhs.Keys;
    forall k | k in lhs
      ensures lhs[k] == rhs[k]
    {
    }
  }

  /**
   * With a store filter, rows of every other store are neither created nor changed,
   * even when that store has raw rows in the window.
   */
  lemma StoreIsolation(table: map<Key, Summary>, raw: seq<RawSale>, w: UtcRange, s: int, dayOf: int -> int, k: Key)
    requires k.1 != s
    ensures k in AfterAggregate(table, raw, w, Some(s), dayOf) <==> k in table
    ensures k in table ==> AfterAggregate(table, raw, w, Some(s), dayOf)[k] == table[k]
  {
    var incoming := FreshSummaries(raw, w, Some(s), dayOf);
    FreshSummariesSpec(raw, w, Some(s), dayOf);
    UpsertSemantics(table, incoming);
    assert k !in incoming;
  }

  /** A key that no selected raw row produces keeps its value, or stays absent. */
  lemma OnlyProducedKeysChange(table: map<Key, Summary>, raw: seq<RawSale>, w: UtcRange, store: Option<int>, dayOf: int -> int, k: Key)
    requires forall r :: r in raw && Selected(r, w, store) ==> KeyOf(r, dayOf) != k
    ensures k in AfterAggregate(table, raw, w, store, dayOf) <==> k in table
    ensures k in table ==> AfterAggregate(table, raw, w, store, dayOf)[k] == table[k]
  {
    var incoming := FreshSummaries(raw, w, store, dayOf);
    FreshSummariesSpec(raw, w, store, dayOf);
    UpsertSemantics(table, incoming);
    assert k !in incoming;
  }

  /** Inserting a row the WHERE clause rejects anywhere among the raw rows changes no group. */
  lemma {:induction false} ContributingSkipsUnselected(front: seq<RawSale>, r: RawSale, back: seq<RawSale>, w: UtcRange, store: Option<int>, dayOf: int -> int, k: Key)
    requires !Selected(r, w, store)
    ensures Contributing(front + [r] + back, w, store, dayOf, k) == Contributing(front + back, w, store, dayOf, k)
  {
    if back == [] {
      assert front + [r] + back == front + [r];
      assert (front + [r])[..|front|] == front;
      assert front + back == front;
    } else {
      var init, last := back[..|back| - 1], back[|back| - 1];
      ContributingSkipsUnselected(front, r, init, w, store, dayOf, k);
      assert front + [r] + back == (front + [r] + init) + [last];
      assert (front + [r] + back)[..|front + [r] + back| - 1] == front + [r] + init;
      assert (front + back)[..|front + back| - 1] == front + init;
    }
  }

  /** Rows the WHERE clause rejects, wherever they sit, do not change the result of the query. */
  lemma FreshSkipsUnselected(front: seq<RawSale>, r: RawSale, back: seq<RawSale>, w: UtcRange, store: Option<int>, dayOf: int -> int)
    requires !Selected(r, w, store)
    ensures FreshSummaries(front + [r] + back, w, store, dayOf) == FreshSummaries(front + back, w, store, dayOf)
  {
    var m1, m2 := FreshSummaries(front + [r] + back, w, store, dayOf), FreshSummaries(front + back, w, store, dayOf);
    FreshSummariesSpec(front + [r] + back, w, store, dayOf);
    FreshSummariesSpec(front + back, w, store, dayOf);
    forall k
      ensures k in m1 <==> k in m2
      ensures k in m1 ==> m1[k] == m2[k]
    {
      ContributingSkipsUnselected(front, r, back, w, store, dayOf, k);
    }
  }

  /**
   * The window is half-open: a row stamped exactly at its end never contributes,
   * while a row of a matching store stamped exactly at its start does.
   */
  lemma HalfOpenWindow(front: seq<RawSale>, r: RawSale, back: seq<RawSale>, w: UtcRange, store: Option<int>, dayOf: int -> int)
    requires w.start < w.end
    ensures r.ts == w.end ==>
      FreshSummaries(front + [r] + back, w, store, dayOf) == FreshSummaries(front + back, w, store, dayOf)
    ensures r.ts == w.start && StoreMatches(store, r.storeId) ==>
      var g := Contributing(front + [r] + back, w, store, dayOf, KeyOf(r, dayOf));
      KeyOf(r, dayOf) in FreshSummaries(front + [r] + back, w, store, dayOf) && r in g
  {
    if r.ts == w.end {
      FreshSkipsUnselected(front, r, back, w, store, dayOf);
    }
    if r.ts == w.start && StoreMatches(store, r.storeId) {
      var raw := front + [r] + back;
      assert r in raw;
      FreshSummariesSpec(raw, w, store, dayOf);
      ContributingMembers(raw, w, store, dayOf, KeyOf(r, dayOf));
    }
  }

  /** When the query's day agrees with the zone, every group of day `day`'s window carries `day` in its key. */
  lemma GroupDayIsWindowDay(raw: seq<RawSale>, day: int, offset: int, store: Option<int>, dayOf: int -> int)
    requires DayConsistent(dayOf, offset)
    ensures forall k :: k in FreshSummaries(raw, ToUtcRangeForLocalDay(day, offset), store, dayOf) ==> k.0 == day
  {
    var w := ToUtcRangeForLocalDay(day, offset);
    FreshSummariesSpec(raw, w, store, dayOf);
    forall k | k in FreshSummaries(raw, w, store, dayOf)
      ensures k.0 == day
    {
      var r :| r in raw && Contributes(r, w, store, dayOf, k);
      WindowIsLocalDay(day, offset, r.ts);
    }
  }

  /** Group `k` holds each row as often as the raw rows do, if the row belongs to `k`, and otherwise not at all. */
  lemma {:induction false} ContributingCounts(raw: seq<RawSale>, w: UtcRange, store: Option<int>, dayOf: int -> int, k: Key)
    ensures forall x :: multiset(Contributing(raw, w, store, dayOf, k))[x]
                     == if Contributes(x, w, store, dayOf, k) then multiset(raw)[x] else 0
  {
    if raw != [] {
      var init, last := raw[..|raw| - 1], raw[|raw| - 1];
      assert raw == init + [last];
      ContributingCounts(init, w, store, dayOf, k);
    }
  }

  /** Taking one row out of a group takes its term out of the group's sum. */
  lemma {:induction false} TotalRemove(s: seq<RawSale>, j: int, f: RawSale -> int)
    requires 0 <= j < |s|
    ensures Total(s, f) == Total(s[..j] + s[j + 1..], f) + f(s[j])
  {
    var init, last := s[..|s| - 1], s[|s| - 1];
    if j == |s| - 1 {
      assert s[..j] + s[j + 1..] == init;
    } else {
      TotalRemove(init, j, f);
      assert init[..j] + init[j + 1..] == s[..j] + s[j + 1..|s| - 1];
      assert s[..j] + s[j + 1..] == (s[..j] + s[j + 1..|s| - 1]) + [last];
    }
  }

  /** Dropping the row at index `j` drops one occurrence of it from the multiset of rows. */
  lemma MultisetWithout(t: seq<RawSale>, j: int)
    requires 0 <= j < |t|
    ensures multiset(t[..j] + t[j + 1..]) == multiset(t) - multiset{t[j]}
  {
    assert t == t[..j] + [t[j]] + t[j + 1..];
  }

  /** A sum over the rows of a group does not depend on the order of the rows. */
  lemma {:induction false} TotalPermutation(s: seq<RawSale>, t: seq<RawSale>, f: RawSale -> int)
    requires multiset(s) == multiset(t)
    ensures Total(s, f) == Total(t, f)
    decreases |s|
  {
    if s == [] {
      assert |t| == |multiset(t)| == 0;
    } else {
      var init, last := s[..|s| - 1], s[|s| - 1];
      MultisetWithout(s, |s| - 1);
      assert s[..|s| - 1] + s[|s|..] == init;
      assert last in multiset(t);
      var j :| 0 <= j < |t| && t[j] == last;
      var rest := t[..j] + t[j + 1..];
      MultisetWithout(t, j);
      TotalPermutation(init, rest, f);
      TotalRemove(t, j, f);
    }
  }

  /**
   * The raw table has no order: raw rows that are a permutation of each other
   * give the query the same result.
   */
  lemma FreshIgnoresRowOrder(raw1: seq<RawSale>, raw2: seq<RawSale>, w: UtcRange, store: Option<int>, dayOf: int -> int)
    requires multiset(raw1) == multiset(raw2)
    ensures FreshSummaries(raw1, w, store, dayOf) == FreshSummaries(raw2, w, store, dayOf)
  {
    var m1, m2 := FreshSummaries(raw1, w, store, dayOf), FreshSummaries(raw2, w, store, dayOf);
    FreshSummariesSpec(raw1, w, store, dayOf);
    FreshSummariesSpec(raw2, w, store, dayOf);
    forall k
      ensures k in m1 <==> k in m2
      ensures k in m1 ==> m1[k] == m2[k]
    {
      GroupIgnoresRowOrder(raw1, raw2, w, store, dayOf, k);
    }
  }

  /** One group's aggregates are the same for raw rows that are a permutation of each other. */
  lemma GroupIgnoresRowOrder(raw1: seq<RawSale>, raw2: seq<RawSale>, w: UtcRange, store: Option<int>, dayOf: int -> int, k: Key)
    requires multiset(raw1) == multiset(raw2)
    ensures var g1, g2 := Contributing(raw1, w, store, dayOf, k), Contributing(raw2, w, store, dayOf, k);
      |g1| == |g2| && Total(g1, Qty) == Total(g2, Qty) && Total(g1, Sales) == Total(g2, Sales)
      && Total(g1, Price) == Total(g2, Price)
  {
    var g1, g2 := Contributing(raw1, w, store, dayOf, k), Contributing(raw2, w, store, dayOf, k);
    ContributingCounts(raw1, w, store, dayOf, k);
    ContributingCounts(raw2, w, store, dayOf, k);
    assert multiset(g1) == multiset(g2);
    assert |g1| == |multiset(g1)| == |multiset(g2)| == |g2|;
    TotalPermutation(g1, g2, Qty);
    TotalPermutation(g1, g2, Sales);
    TotalPermutation(g1, g2, Price);
  }

  /** The local date of an instant in UTC, the query's day when both zones are UTC. */
  function UtcDay(t: int): int {
    LocalDayOf(t, 0)
  }

  /** Raw rows that all belong to group `key` give exactly that one group, in the query's row order. */
  lemma {:induction false} ContributingAll(raw: seq<RawSale>, w: UtcRange, store: Option<int>, dayOf: int -> int, key: Key)
    requires forall i :: 0 <= i < |raw| ==> Contributes(raw[i], w, store, dayOf, key)
    ensures Contributing(raw, w, store, dayOf, key) == raw
  {
    if raw != [] {
      var init, last := raw[..|raw| - 1], raw[|raw| - 1];
      assert forall i :: 0 <= i < |init| ==> Contributes(init[i], w, store, dayOf, key) by {
        forall i | 0 <= i < |init| ensures init[i] == raw[i] { }
      }
      ContributingAll(init, w, store, dayOf, key);
      assert Contributes(last, w, store, dayOf, key);
      assert Contributing(raw, w, store, dayOf, key) == init + [last] == raw;
    }
  }

  /** Raw rows that all belong to group `key` leave every other group empty. */
  lemma {:induction false} ContributingNone(raw: seq<RawSale>, w: UtcRange, store: Option<int>, dayOf: int -> int, key: Key, k: Key)
    requires k != key
    requires forall i :: 0 <= i < |raw| ==> Contributes(raw[i], w, store, dayOf, key)
    ensures Contributing(raw, w, store, dayOf, k) == []
  {
    if raw != [] {
      var init := raw[..|raw| - 1];
      assert forall i :: 0 <= i < |init| ==> init[i] == raw[i];
      ContributingNone(init, w, store, dayOf, key, k);
      assert Contributes(raw[|raw| - 1], w, store, dayOf, key);
    }
  }

  /** When every raw row contributes to `key`, the query returns one row, summarising all of them. */
  lemma SingleGroup(raw: seq<RawSale>, w: UtcRange, store: Option<int>, dayOf: int -> int, key: Key)
    requires raw != []
    requires forall i :: 0 <= i < |raw| ==> Contributes(raw[i], w, store, dayOf, key)
    ensures FreshSummaries(raw, w, store, dayOf) == map[key := SummaryOf(raw)]
  {
    var m := FreshSummaries(raw, w, store, dayOf);
    ContributingAll(raw, w, store, dayOf, key);
    forall k
      ensures k in m <==> k == key
    {
      if k != key {
        ContributingNone(raw, w, store, dayOf, key, k);
      } else {
        FreshKeysMembers(raw, w, store, dayOf);
        assert Contributes(raw[0], w, store, dayOf, key);
      }
    }
    assert m.Keys == {key};
  }

  /** The group of two sales sums their quantities, their sales and their unit prices. */
  lemma TwoSaleSummary(a: RawSale, b: RawSale)
    ensures SummaryOf([a, b]) == Summary(Qty(a) + Qty(b), Sales(a) + Sales(b), 2,
                                         RoundHalfAwayFromZero(100 * (Price(a) + Price(b)), 2))
  {
    assert [a, b][..1] == [a] && [a][..0] == [];
    assert Total([a], Qty) == Qty(a) && Total([a], Sales) == Sales(a) && Total([a], Price) == Price(a);
  }

  /**
   * Two ramen sales of store 1 at 09:30 and 12:00 UTC on 2025-08-20 (day 20320),
   * aggregated for that day in UTC, give one row: 3 items, 3600 in sales, two
   * orders, an average price of 1200.00.
   */
  lemma RamenScenario()
    ensures
      var raw := [RawSale(1, 20320 * SecondsPerDay + 34200, "ramen", 2, 1200),
                  RawSale(1, 20320 * SecondsPerDay + 43200, "ramen", 1, 1200)];
      FreshSummaries(raw, ToUtcRangeForLocalDay(20320, 0), None, UtcDay)
        == map[(20320, 1, "ramen") := Summary(3, 3600, 2, 120000)]
  {
    var raw := [RawSale(1, 20320 * SecondsPerDay + 34200, "ramen", 2, 1200),
                RawSale(1, 20320 * SecondsPerDay + 43200, "ramen", 1, 1200)];
    var w, key := ToUtcRangeForLocalDay(20320, 0), (20320, 1, "ramen");
    assert UtcDay(raw[0].ts) == 20320 && UtcDay(raw[1].ts) == 20320;
    SingleGroup(raw, w, None, UtcDay, key);
    TwoSaleSummary(raw[0], raw[1]);
    assert RoundHalfAwayFromZero(240000, 2) == 120000;
    assert SummaryOf(raw) == Summary(3, 3600, 2, 120000);
  }

  /**
   * avg_price is the plain mean of the unit prices, not sales over quantity:
   * three gyoza at 100 and one at 200 average 150.00, while sales over quantity is 125.
   */
  lemma AvgPriceIsPlainMean()
    ensures
      var raw := [RawSale(1, 0, "gyoza", 3, 100), RawSale(1, 0, "gyoza", 1, 200)];
      var m := FreshSummaries(raw, ToUtcRangeForLocalDay(0, 0), None, UtcDay);
      && (0, 1, "gyoza") in m
      && m[(0, 1, "gyoza")].avgPrice == 15000
      && m[(0, 1, "gyoza")].salesSum * 100 == 12500 * m[(0, 1, "gyoza")].qtySum
  {
    var raw := [RawSale(1, 0, "gyoza", 3, 100), RawSale(1, 0, "gyoza", 1, 200)];
    var w, key := ToUtcRangeForLocalDay(0, 0), (0, 1, "gyoza");
    SingleGroup(raw, w, None, UtcDay, key);
    TwoSaleSummary(raw[0], raw[1]);
    assert RoundHalfAwayFromZero(30000, 2) == 15000;
    assert SummaryOf(raw) == Summary(4, 500, 2, 15000);
  }
}
