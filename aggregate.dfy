/**
 * The range aggregator of the daily job: raw sales rows whose timestamp falls
 * in a UTC window (and, optionally, that belong to one store) are grouped by
 * (local day, store, menu item), and each group's totals are upserted into the
 * feat_menu_daily table, replacing whatever that key held before.
 */
module Aggregate {
  import opened Wrappers
  import opened TimeWindow

  /** One row of raw_sales: its instant `ts` in UTC seconds, `price` per unit in the smallest currency unit. */
  datatype RawSale = RawSale(storeId: int, ts: int, menuId: string, qty: int, price: int)

  /** The primary key of feat_menu_daily: (day, store_id, menu_id). */
  type Key = (int, int, string)

  /** The four aggregate columns of one feat_menu_daily row; `avgPrice` is numeric(10,2), held in hundredths. */
  datatype Summary = Summary(qtySum: int, salesSum: int, orders: int, avgPrice: int)

  /** The store filter: no filter admits every store. */
  predicate StoreMatches(store: Option<int>, storeId: int) {
    store.None? || store.value == storeId
  }

  /** The WHERE clause: the instant lies in the half-open window and the store passes the filter. */
  predicate Selected(r: RawSale, w: UtcRange, store: Option<int>) {
    w.Contains(r.ts) && StoreMatches(store, r.storeId)
  }

  /** The GROUP BY key of a raw row; `dayOf` is the local-date expression the query applies to `ts`. */
  function KeyOf(r: RawSale, dayOf: int -> int): Key {
    (dayOf(r.ts), r.storeId, r.menuId)
  }

  predicate Contributes(r: RawSale, w: UtcRange, store: Option<int>, dayOf: int -> int, k: Key) {
    Selected(r, w, store) && KeyOf(r, dayOf) == k
  }

  /** The raw rows of group `k`, in table order, duplicates kept. */
  function Contributing(raw: seq<RawSale>, w: UtcRange, store: Option<int>, dayOf: int -> int, k: Key): (g: seq<RawSale>)
    ensures |g| <= |raw|
  {
    if raw == [] then []
    else
      var last := raw[|raw| - 1];
      Contributing(raw[..|raw| - 1], w, store, dayOf, k) + (if Contributes(last, w, store, dayOf, k) then [last] else [])
  }

  /** A row belongs to group `k` exactly when it is a raw row that the query selects with key `k`. */
  lemma {:induction false} ContributingMembers(raw: seq<RawSale>, w: UtcRange, store: Option<int>, dayOf: int -> int, k: Key)
    ensures forall r :: r in Contributing(raw, w, store, dayOf, k) <==> r in raw && Contributes(r, w, store, dayOf, k)
  {
    if raw != [] {
      var init, last := raw[..|raw| - 1], raw[|raw| - 1];
      assert raw == init + [last];
      ContributingMembers(init, w, store, dayOf, k);
    }
  }

  /** The per-row terms of the three sums of the query: qty, qty*price and price. */
  function Qty(r: RawSale): int { r.qty }
  function Sales(r: RawSale): int { r.qty * r.price }
  function Price(r: RawSale): int { r.price }

  /** The SQL sum of `f` over the rows of a group. */
  function Total(g: seq<RawSale>, f: RawSale -> int): int {
    if g == [] then 0 else Total(g[..|g| - 1], f) + f(g[|g| - 1])
  }

  /**
   * The integer nearest to num / den, halves rounded away from zero, as a cast
   * to numeric rounds.
   */
  function RoundHalfAwayFromZero(num: int, den: int): (r: int)
    requires den > 0
    ensures -den <= 2 * (num - r * den) <= den
    ensures 2 * (num - r * den) == den ==> num < 0
    ensures 2 * (num - r * den) == -den ==> num > 0
  {
    if num >= 0 then
      var q := (2 * num + den) / (2 * den);
      assert 2 * num + den == 2 * den * q + (2 * num + den) % (2 * den);
      assert 0 <= (2 * num + den) % (2 * den) < 2 * den;
      q
    else
      var q := (-2 * num + den) / (2 * den);
      assert -2 * num + den == 2 * den * q + (-2 * num + den) % (2 * den);
      assert 0 <= (-2 * num + den) % (2 * den) < 2 * den;
      -q
  }

  /**
   * The aggregate columns of one non-empty group: sum(qty), sum(qty*price),
   * count(*) and avg(price)::numeric(10,2) — the plain mean of the unit prices,
   * not sales over quantity.
   */
  function SummaryOf(g: seq<RawSale>): (s: Summary)
    requires |g| > 0
    ensures s.orders > 0
    ensures -s.orders <= 2 * (100 * Total(g, Price) - s.avgPrice * s.orders) <= s.orders
  {
    Summary(Total(g, Qty), Total(g, Sales), |g|, RoundHalfAwayFromZero(100 * Total(g, Price), |g|))
  }

  /** The keys the SELECT produces: the key of every selected row. */
  function FreshKeys(raw: seq<RawSale>, w: UtcRange, store: Option<int>, dayOf: int -> int): set<Key> {
    if raw == [] then {}
    else
      var last := raw[|raw| - 1];
      FreshKeys(raw[..|raw| - 1], w, store, dayOf) + if Selected(last, w, store) then {KeyOf(last, dayOf)} else {}
  }

  /** A key is produced exactly when some raw row is selected with that key. */
  lemma {:induction false} FreshKeysMembers(raw: seq<RawSale>, w: UtcRange, store: Option<int>, dayOf: int -> int)
    ensures forall k :: k in FreshKeys(raw, w, store, dayOf) <==> exists r :: r in raw && Contributes(r, w, store, dayOf, k)
  {
    if raw != [] {
      var init, last := raw[..|raw| - 1], raw[|raw| - 1];
      assert raw == init + [last];
      FreshKeysMembers(init, w, store, dayOf);
      forall k
        ensures k in FreshKeys(raw, w, store, dayOf) <==> exists r :: r in raw && Contributes(r, w, store, dayOf, k)
      {
        if k in FreshKeys(init, w, store, dayOf) {
          var r :| r in init && Contributes(r, w, store, dayOf, k);
          assert r in raw;
        } else if k in FreshKeys(raw, w, store, dayOf) {
          assert Contributes(last, w, store, dayOf, k);
        }
        if exists r :: r in raw && Contributes(r, w, store, dayOf, k) {
          var r :| r in raw && Contributes(r, w, store, dayOf, k);
          if r != last {
            assert r in init;
          }
        }
      }
    }
  }

  /** The result of the SELECT ... GROUP BY of the upsert: one row per group of selected rows. */
  function FreshSummaries(raw: seq<RawSale>, w: UtcRange, store: Option<int>, dayOf: int -> int): map<Key, Summary> {
    map k | k in FreshKeys(raw, w, store, dayOf) && Contributing(raw, w, store, dayOf, k) != [] ::
      SummaryOf(Contributing(raw, w, store, dayOf, k))
  }

  /**
   * The query yields a key for every group of selected rows and for no other,
   * and that key holds the aggregates of exactly the rows of its group.
   */
  lemma FreshSummariesSpec(raw: seq<RawSale>, w: UtcRange, store: Option<int>, dayOf: int -> int)
    ensures var m := FreshSummaries(raw, w, store, dayOf);
      && (forall k :: k in m <==> exists r :: r in raw && Contributes(r, w, store, dayOf, k))
      && (forall k :: k in m <==> Contributing(raw, w, store, dayOf, k) != [])
      && forall k :: k in m ==>
        var g := Contributing(raw, w, store, dayOf, k);
        && m[k].qtySum == Total(g, Qty)
        && m[k].salesSum == Total(g, Sales)
        && m[k].orders == |g| > 0
        && m[k].avgPrice == RoundHalfAwayFromZero(100 * Total(g, Price), |g|)
        && -|g| <= 2 * (100 * Total(g, Price) - m[k].avgPrice * |g|) <= |g|
  {
    FreshKeysMembers(raw, w, store, dayOf);
    forall k
      ensures k in FreshKeys(raw, w, store, dayOf) <==> Contributing(raw, w, store, dayOf, k) != []
    {
      ContributingMembers(raw, w, store, dayOf, k);
      if k in FreshKeys(raw, w, store, dayOf) {
        var r :| r in raw && Contributes(r, w, store, dayOf, k);
        assert r in Contributing(raw, w, store, dayOf, k);
      }
      if Contributing(raw, w, store, dayOf, k) != [] {
        assert Contributing(raw, w, store, dayOf, k)[0] in Contributing(raw, w, store, dayOf, k);
      }
    }
  }

  /**
   * INSERT ... ON CONFLICT DO UPDATE SET every aggregate column: a fresh key is
   * inserted, a key already present takes the fresh values outright (map union
   * with the right operand winning).
   */
  function Upsert(table: map<Key, Summary>, incoming: map<Key, Summary>): map<Key, Summary> {
    table + incoming
  }

  /**
   * What ON CONFLICT DO UPDATE guarantees: the keys are the old ones and the
   * fresh ones, every fresh key holds its fresh values, every other key its old ones.
   */
  lemma UpsertSemantics(table: map<Key, Summary>, incoming: map<Key, Summary>)
    ensures var t := Upsert(table, incoming);
      && t.Keys == table.Keys + incoming.Keys
      && (forall k :: k in incoming ==> t[k] == incoming[k])
      && forall k :: k in table && k !in incoming ==> t[k] == table[k]
  {
  }

  /** The feat_menu_daily table, keyed by (day, store_id, menu_id). */
  class MenuDailyTable {
    var rows: map<Key, Summary>

    constructor ()
      ensures rows == map[]
    {
      rows := map[];
    }

    /**
     * Runs the upsert for the window `w` with the optional store filter; `dayOf`
     * is the local-date expression of the query.
     */
    method AggregateRange(raw: seq<RawSale>, w: UtcRange, store: Option<int>, dayOf: int -> int)
      modifies this
      ensures rows == Upsert(old(rows), FreshSummaries(raw, w, store, dayOf))
    {
      rows := Upsert(rows, FreshSummaries(raw, w, store, dayOf));
    }
  }
}
