/**
 The single-file variant of the service in `data.py`: its `total_sales` handler,
 which filters with strict bounds and also returns the per-day sums, and
 its module-level aggregate of the raw order-line table by dish and menu
 number; and its `average_sales` handler, the inclusive pipeline of
 `Sales.AverageSalesOf` behind a response class whose per-day records
 cannot hold a date.
 */
module Legacy {
  import opened Outcomes
  import opened Grouping
  import opened Tables
  import opened Sales

  // ------------------------------------------------------ strict-bound window

  function Exclusive(start: Date, end: Date): OrderLine -> bool {
    (l: OrderLine) => start < l.date < end
  }

  /** `df[(df["date"] > start) & (df["date"] < end)]`: both boundary dates
      are excluded, so a window without a whole day strictly inside keeps
      nothing. */
  function StrictWindow(rows: seq<OrderLine>, start: Date, end: Date): (r: seq<OrderLine>)
    ensures forall l :: l in r <==> l in rows && start < l.date < end
    ensures end - start <= 1 ==> r == []
  {
    var r := Filter(rows, Exclusive(start, end));
    // a non-empty result would have a first row inside the window
    assert r != [] ==> r[0] in r;
    r
  }

  /** On whole days the strict window is the inclusive window shrunk by one
      day at each end. */
  lemma StrictIsShrunkInclusive(rows: seq<OrderLine>, start: Date, end: Date)
    ensures StrictWindow(rows, start, end) == InWindow(rows, start + 1, end - 1)
  {
    FilterAgree(rows, Exclusive(start, end), Inclusive(start + 1, end - 1));
  }

  // ------------------------------------------------------------ total sales

  /** `TotalSalesResponse`: the per-day sums and their total. */
  datatype LegacyTotals = LegacyTotals(sumPerDay: seq<Group<Date>>, totalSales: int)

  /** `total_sales`: `groupby("date").agg(sum_price_price=("price", "sum"))`
      and `filtered_df["price"].sum()` over the strict window. */
  function LegacyTotalSales(orders: seq<OrderLine>, start: Date, end: Date): LegacyTotals {
    var window := StrictWindow(orders, start, end);
    IntLessIsOrder();
    LegacyTotals(Aggregate(window, DateOf, PriceOrZero, IntLess), SumBy(window, PriceOrZero))
  }

  /** One record per date strictly inside the window, ascending, each that
      day's price sum; the total is both the sum of the window's prices and
      the sum of the records; a window with no day strictly inside gives no
      records and a zero total. */
  lemma LegacyTotalSalesSpec(orders: seq<OrderLine>, start: Date, end: Date)
    ensures var r := LegacyTotalSales(orders, start, end).sumPerDay;
            forall i, j :: 0 <= i < j < |r| ==> r[i].key < r[j].key
    ensures var r := LegacyTotalSales(orders, start, end).sumPerDay;
            forall d :: d in KeysOf(r) <==> exists l :: l in orders && l.date == d && start < d < end
    ensures var r := LegacyTotalSales(orders, start, end).sumPerDay;
            forall i :: 0 <= i < |r| ==>
              r[i].total == SumBy(Members(StrictWindow(orders, start, end), DateOf, r[i].key), PriceOrZero)
    ensures LegacyTotalSales(orders, start, end).totalSales == SumBy(StrictWindow(orders, start, end), PriceOrZero)
    ensures LegacyTotalSales(orders, start, end).totalSales == SumTotals(LegacyTotalSales(orders, start, end).sumPerDay)
    ensures end - start <= 1 ==>
              LegacyTotalSales(orders, start, end) == LegacyTotals([], 0)
  {
    StrictIsShrunkInclusive(orders, start, end);
    LegacyIsShrunkInclusive(orders, start, end);
    var r := DailyIncome(orders, start + 1, end - 1);
    assert forall d :: d in KeysOf(r) <==> exists l :: l in orders && l.date == d && start < d < end;
  }

  /** The strict handler answers exactly what the inclusive pipeline answers
      for the window shrunk by one day at each end. */
  lemma LegacyIsShrunkInclusive(orders: seq<OrderLine>, start: Date, end: Date)
    ensures LegacyTotalSales(orders, start, end).sumPerDay == DailyIncome(orders, start + 1, end - 1)
    ensures LegacyTotalSales(orders, start, end).totalSales == TotalSales(orders, start + 1, end - 1)
  {
    StrictIsShrunkInclusive(orders, start, end);
  }

  /** A sale on the boundary day is counted by the inclusive `totalSales`
      and `averageSales` of the route files but not by this `total_sales`. */
  lemma BoundaryDayDropped(l: OrderLine)
    ensures LegacyTotalSales([l], l.date, l.date) == LegacyTotals([], 0)
    ensures TotalSales([l], l.date, l.date) == PriceOrZero(l)
    ensures AverageSalesOf([l], l.date, l.date).Success?
    ensures AverageSalesOf([l], l.date, l.date).value.incomePerDay == [Group(l.date, PriceOrZero(l))]
  {
    LegacyTotalSalesSpec([l], l.date, l.date);
    var window := InWindow([l], l.date, l.date);
    assert l in window;
    assert window == [l];
    var daily := DailyIncome([l], l.date, l.date);
    assert l.date in KeysOf(daily);
    assert forall i :: 0 <= i < |daily| ==> daily[i].key == l.date;
    assert |daily| == 1;
    assert Members(window, DateOf, l.date) == [l];
    AverageSalesSpec([l], l.date, l.date);
  }

  // ---------------------------------------------------------- average sales

  /** A value placed in an `income_per_day` record: a number, or the ISO
      text of a date (`row["date"].isoformat()`). */
  datatype Cell = Number(amount: int) | IsoDate(day: Date)

  /** pydantic's `float` field accepts a number; the ISO text of a date,
      such as `2024-03-15`, is no float literal and is refused. */
  predicate IsFloat(c: Cell) {
    c.Number?
  }

  /** `{"date": row["date"].isoformat(), "income": row["income"]}`. */
  function IncomeRecord(g: Group<Date>): map<string, Cell> {
    map["date" := IsoDate(g.key), "income" := Number(g.total)]
  }

  function IncomeRecords(daily: seq<Group<Date>>): seq<map<string, Cell>> {
    seq(|daily|, i requires 0 <= i < |daily| => IncomeRecord(daily[i]))
  }

  /** Validation of `income_per_day: List[Dict[str, float]]`: every value
      of every record must be a float. */
  predicate FloatRecords(rs: seq<map<string, Cell>>) {
    forall i, k :: 0 <= i < |rs| && k in rs[i] ==> IsFloat(rs[i][k])
  }

  /** The message of the validation error; its exact text is pydantic's. */
  const RecordValidationError := "validation error for AverageSalesResponse"

  /** `average_sales`: the inclusive daily-income pipeline, whose response
      is validated inside the `try` before the summary is returned. */
  function LegacyAverageSales(orders: seq<OrderLine>, start: Date, end: Date): Response<AverageSales> {
    var records := IncomeRecords(DailyIncome(orders, start, end));
    if !FloatRecords(records) then ServerError(InternalServerError, RecordValidationError)
    else AverageSalesOf(orders, start, end)
  }

  /** `average_sales` never succeeds: a window with a sale fails validation
      on the date text of its first record, and an empty window has no
      record but a `NaN` mean, as in the route files. Both are status 500. */
  lemma LegacyAverageSalesFails(orders: seq<OrderLine>, start: Date, end: Date)
    ensures LegacyAverageSales(orders, start, end).ServerError?
    ensures LegacyAverageSales(orders, start, end).status == InternalServerError
    ensures LegacyAverageSales(orders, start, end).message == RecordValidationError <==>
              InWindow(orders, start, end) != []
  {
    var daily := DailyIncome(orders, start, end);
    var records := IncomeRecords(daily);
    if daily != [] {
      assert "date" in records[0] && !IsFloat(records[0]["date"]);
    } else {
      assert records == [];
    }
  }

  // ------------------------------------------ module-level dish/menu aggregate

  /** A row of the raw order-line table as the module loads it: the date is
      still the unparsed text of the file. */
  datatype RawOrderLine = RawOrderLine(dishId: int, menuNumber: int, date: string, price: Option<int>)

  /** One row of `groupby(["dish_id", "menu_number"]).agg(sum_price=("price",
      "sum"), date=("date", "max"))`. */
  datatype DishMenuTotal = DishMenuTotal(dishId: int, menuNumber: int, sumPrice: int, date: string)

  function DishMenu(l: RawOrderLine): (int, int) { (l.dishId, l.menuNumber) }

  function RawPriceOrZero(l: RawOrderLine): int {
    if l.price.Some? then l.price.value else 0
  }

  /** Text order: code point by code point, a proper prefix first. */
  function StrLess(a: string, b: string): bool {
    if a == [] then b != []
    else if b == [] then false
    else if a[0] != b[0] then a[0] < b[0]
    else StrLess(a[1..], b[1..])
  }

  lemma {:induction false} StrLessTransitive(a: string, b: string, c: string)
    requires StrLess(a, b) && StrLess(b, c)
    ensures StrLess(a, c)
  {
    if a != [] && b != [] && c != [] && a[0] == b[0] && b[0] == c[0] {
      StrLessTransitive(a[1..], b[1..], c[1..]);
    }
  }

  lemma {:induction false} StrLessTotal(a: string, b: string)
    requires a != b
    ensures StrLess(a, b) || StrLess(b, a)
  {
    if a != [] && b != [] && a[0] == b[0] {
      assert a == [a[0]] + a[1..] && b == [b[0]] + b[1..];
      StrLessTotal(a[1..], b[1..]);
    }
  }

  /** Pandas' `max` of a text column: the largest text in text order. */
  function MaxString(ss: seq<string>): (m: string)
    requires |ss| > 0
    ensures m in ss
    ensures forall s :: s in ss ==> s == m || StrLess(s, m)
  {
    if |ss| == 1 then ss[0]
    else
      var rest := MaxString(ss[1..]);
      assert forall s :: s in ss ==> s == ss[0] || s in ss[1..];
      if StrLess(rest, ss[0]) then
        assert forall s :: s in ss[1..] ==> StrLess(s, ss[0]) by {
          forall s | s in ss[1..] ensures StrLess(s, ss[0]) {
            if s != rest {
              StrLessTransitive(s, rest, ss[0]);
            }
          }
        }
        ss[0]
      else
        assert ss[0] == rest || StrLess(ss[0], rest) by {
          if ss[0] != rest {
            StrLessTotal(ss[0], rest);
          }
        }
        rest
  }

  function DatesOf(ls: seq<RawOrderLine>): (r: seq<string>)
    ensures |r| == |ls| && forall i :: 0 <= i < |ls| ==> r[i] == ls[i].date
  {
    seq(|ls|, i requires 0 <= i < |ls| => ls[i].date)
  }

  /** `groupby(["dish_id", "menu_number"])` with the `sum_price` column. */
  function DishMenuGroups(raw: seq<RawOrderLine>): (gs: seq<Group<(int, int)>>)
    ensures forall i, j :: 0 <= i < j < |gs| ==> LexLess(gs[i].key, gs[j].key)
    ensures forall k :: k in KeysOf(gs) <==> Members(raw, DishMenu, k) != []
    ensures forall i :: 0 <= i < |gs| ==> gs[i].total == SumBy(Members(raw, DishMenu, gs[i].key), RawPriceOrZero)
    ensures SumTotals(gs) == SumBy(raw, RawPriceOrZero)
  {
    LexLessIsOrder();
    var gs := Aggregate(raw, DishMenu, RawPriceOrZero, LexLess);
    assert forall i, j :: 0 <= i < j < |gs| ==> LexLess(KeysOf(gs)[i], KeysOf(gs)[j]);
    AggregateSum(raw, DishMenu, RawPriceOrZero, LexLess);
    gs
  }

  /** `dishes_df_aggregated`: one row per (dish, menu number) present, in
      ascending key order, with the sum of the group's prices and the
      largest of its raw date texts. */
  function DishMenuAggregate(raw: seq<RawOrderLine>): seq<DishMenuTotal> {
    var gs := DishMenuGroups(raw);
    seq(|gs|, i requires 0 <= i < |gs| =>
      assert KeysOf(gs)[i] == gs[i].key;
      DishMenuTotal(gs[i].key.0, gs[i].key.1, gs[i].total, MaxString(DatesOf(Members(raw, DishMenu, gs[i].key)))))
  }

  lemma DishMenuEntries(raw: seq<RawOrderLine>)
    ensures var gs := DishMenuGroups(raw);
            var r := DishMenuAggregate(raw);
            |r| == |gs| &&
            forall i :: 0 <= i < |r| ==>
              (r[i].dishId, r[i].menuNumber) == gs[i].key && r[i].sumPrice == gs[i].total &&
              Members(raw, DishMenu, gs[i].key) != [] &&
              r[i].date == MaxString(DatesOf(Members(raw, DishMenu, gs[i].key)))
  {
    var gs := DishMenuGroups(raw);
    assert forall i :: 0 <= i < |gs| ==> KeysOf(gs)[i] == gs[i].key;
  }

  /** One row per (dish, menu number) pair present, in ascending pair
      order, each `sum_price` the sum of the group's prices. */
  lemma DishMenuAggregateKeys(raw: seq<RawOrderLine>)
    ensures var r := DishMenuAggregate(raw);
            forall i, j :: 0 <= i < j < |r| ==> LexLess((r[i].dishId, r[i].menuNumber), (r[j].dishId, r[j].menuNumber))
    ensures var r := DishMenuAggregate(raw);
            forall l :: l in raw ==> exists i :: 0 <= i < |r| && r[i].dishId == l.dishId && r[i].menuNumber == l.menuNumber
    ensures var r := DishMenuAggregate(raw);
            forall i :: 0 <= i < |r| ==>
              r[i].sumPrice == SumBy(Members(raw, DishMenu, (r[i].dishId, r[i].menuNumber)), RawPriceOrZero)
  {
    var gs := DishMenuGroups(raw);
    var r := DishMenuAggregate(raw);
    DishMenuEntries(raw);
    forall l | l in raw ensures exists i :: 0 <= i < |r| && r[i].dishId == l.dishId && r[i].menuNumber == l.menuNumber {
      assert l in Members(raw, DishMenu, DishMenu(l));
      var i :| 0 <= i < |gs| && KeysOf(gs)[i] == DishMenu(l);
      assert (r[i].dishId, r[i].menuNumber) == DishMenu(l);
    }
  }

  /** Each group's `date` is one of the group's raw date texts, and no
      other date text of the group comes after it in text order. */
  lemma DishMenuAggregateDates(raw: seq<RawOrderLine>)
    ensures var r := DishMenuAggregate(raw);
            forall i :: 0 <= i < |r| ==>
              exists l :: l in raw && DishMenu(l) == (r[i].dishId, r[i].menuNumber) && l.date == r[i].date
    ensures var r := DishMenuAggregate(raw);
            forall i, l :: 0 <= i < |r| && l in raw && DishMenu(l) == (r[i].dishId, r[i].menuNumber) ==>
              l.date == r[i].date || StrLess(l.date, r[i].date)
  {
    var gs := DishMenuGroups(raw);
    var r := DishMenuAggregate(raw);
    DishMenuEntries(raw);
    forall i | 0 <= i < |r|
      ensures exists l :: l in raw && DishMenu(l) == (r[i].dishId, r[i].menuNumber) && l.date == r[i].date
      ensures forall l :: l in raw && DishMenu(l) == (r[i].dishId, r[i].menuNumber) ==>
                l.date == r[i].date || StrLess(l.date, r[i].date)
    {
      var ms := Members(raw, DishMenu, gs[i].key);
      var ds := DatesOf(ms);
      var k :| 0 <= k < |ds| && ds[k] == r[i].date;
      assert ms[k] in ms;
      forall l | l in raw && DishMenu(l) == (r[i].dishId, r[i].menuNumber)
        ensures l.date == r[i].date || StrLess(l.date, r[i].date)
      {
        assert l in ms;
        var q :| 0 <= q < |ms| && ms[q] == l;
        assert ds[q] in ds;
      }
    }
  }

  /** The `sum_price` column adds up to the sum of all prices. */
  lemma DishMenuAggregateTotal(raw: seq<RawOrderLine>)
    ensures SumPrices(DishMenuAggregate(raw)) == SumBy(raw, RawPriceOrZero)
  {
    DishMenuEntries(raw);
    SumPricesIs(DishMenuGroups(raw), DishMenuAggregate(raw));
  }

  function SumPrices(ts: seq<DishMenuTotal>): int {
    if ts == [] then 0 else ts[0].sumPrice + SumPrices(ts[1..])
  }

  lemma {:induction false} SumPricesIs(gs: seq<Group<(int, int)>>, ts: seq<DishMenuTotal>)
    requires |ts| == |gs| && forall i :: 0 <= i < |gs| ==> ts[i].sumPrice == gs[i].total
    ensures SumPrices(ts) == SumTotals(gs)
  {
    if ts != [] {
      SumPricesIs(gs[1..], ts[1..]);
    }
  }
}
