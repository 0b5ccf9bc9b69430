/**
 The four order-line handlers of the sales API: total sales, the daily
 income summary, the top dishes by units and the daily order count (the
 two topping handlers are in `Toppings`). Both route files of the
 repository carry the same pipelines; they are modelled once. Every date
 window here is inclusive.
 */
module Sales {
  import opened Outcomes
  import opened Grouping
  import opened Tables

  // ------------------------------------------------------------ total sales

  /** `filtered_df["price"].sum()` over the inclusive window. */
  function TotalSales(orders: seq<OrderLine>, start: Date, end: Date): (total: int)
    ensures total == SumTotals(DailyIncome(orders, start, end))
    ensures InWindow(orders, start, end) == [] ==> total == 0
  {
    var window := InWindow(orders, start, end);
    IntLessIsOrder();
    AggregateSum(window, DateOf, PriceOrZero, IntLess);
    SumBy(window, PriceOrZero)
  }

  // ----------------------------------------------------------- daily income

  /** `filtered_df.groupby("date")["price"].sum()`: the daily income list, one
      entry per date present in the window (key: the date, total: the
      income), in ascending date order. */
  function DailyIncome(orders: seq<OrderLine>, start: Date, end: Date): (r: seq<Group<Date>>)
    ensures forall i, j :: 0 <= i < j < |r| ==> r[i].key < r[j].key
    ensures forall d :: d in KeysOf(r) <==> exists l :: l in orders && l.date == d && start <= d <= end
    ensures forall i :: 0 <= i < |r| ==>
              r[i].total == SumBy(Members(InWindow(orders, start, end), DateOf, r[i].key), PriceOrZero)
    ensures r == [] <==> InWindow(orders, start, end) == []
  {
    IntLessIsOrder();
    var window := InWindow(orders, start, end);
    var r := Aggregate(window, DateOf, PriceOrZero, IntLess);
    assert forall i, j :: 0 <= i < j < |r| ==> IntLess(KeysOf(r)[i], KeysOf(r)[j]);
    DatesPresent(window, start, end);
    r
  }

  /** A date has a non-empty group in the window exactly when some order
      line in the window carries it. */
  lemma DatesPresent(window: seq<OrderLine>, start: Date, end: Date)
    ensures forall d :: Members(window, DateOf, d) != [] <==> exists l :: l in window && l.date == d
  {
    forall d ensures Members(window, DateOf, d) != [] <==> exists l :: l in window && l.date == d {
      if exists l :: l in window && l.date == d {
        var l :| l in window && l.date == d;
        assert l in Members(window, DateOf, d);
      }
      if Members(window, DateOf, d) != [] {
        assert Members(window, DateOf, d)[0] in window;
      }
    }
  }

  /** The body of the average-sales response. */
  datatype AverageSales = AverageSales(
    percentageChange: real,
    totalIncome: int,
    averageDailyIncome: real,
    highestDailyIncome: int,
    incomePerDay: seq<Group<Date>>)

  /** The income summary. Over an empty window `mean()` and `max()` give
      NaN, which the JSON encoder of the response refuses after the handler
      has returned: the request fails with the framework's generic 500. */
  function AverageSalesOf(orders: seq<OrderLine>, start: Date, end: Date): (r: Response<AverageSales>)
    ensures r.ServerError? <==> InWindow(orders, start, end) == []
    ensures r.Success? ==> r.value.incomePerDay == DailyIncome(orders, start, end)
  {
    var daily := DailyIncome(orders, start, end);
    if daily == [] then
      ServerError(InternalServerError, "Internal Server Error")
    else
      var total := SumTotals(daily);
      Success(AverageSales(0.0, total, total as real / |daily| as real, daily[ArgMaxFirst(daily)].total, daily))
  }

  /** The summary is consistent: its total is the sum of the daily entries
      and the total sales of the same window, its average is that total over
      the number of days present, its highest is one of the entries and at
      least every entry and the average, and the percentage change is 0. An
      empty window is the one error. */
  lemma AverageSalesSpec(orders: seq<OrderLine>, start: Date, end: Date)
    ensures AverageSalesOf(orders, start, end).ServerError? <==> InWindow(orders, start, end) == []
    ensures AverageSalesOf(orders, start, end).ServerError? ==>
              AverageSalesOf(orders, start, end).status == InternalServerError
    ensures AverageSalesOf(orders, start, end).Success? ==>
              var s := AverageSalesOf(orders, start, end).value;
              && s.incomePerDay == DailyIncome(orders, start, end)
              && s.totalIncome == SumTotals(s.incomePerDay) == TotalSales(orders, start, end)
              && |s.incomePerDay| > 0
              && s.averageDailyIncome == s.totalIncome as real / |s.incomePerDay| as real
              && (exists i :: 0 <= i < |s.incomePerDay| && s.incomePerDay[i].total == s.highestDailyIncome)
              && (forall i :: 0 <= i < |s.incomePerDay| ==> s.incomePerDay[i].total <= s.highestDailyIncome)
              && s.averageDailyIncome <= s.highestDailyIncome as real
              && s.percentageChange == 0.0
  {
    var daily := DailyIncome(orders, start, end);
    if daily != [] {
      var s := AverageSalesOf(orders, start, end).value;
      var k := ArgMaxFirst(daily);
      assert s.highestDailyIncome == daily[k].total;
      SumTotalsAtMost(daily, daily[k].total);
      MeanAtMost(s.totalIncome, |daily|, s.highestDailyIncome);
    }
  }

  lemma {:induction false} SumTotalsAtMost<K>(gs: seq<Group<K>>, m: int)
    requires forall i :: 0 <= i < |gs| ==> gs[i].total <= m
    ensures SumTotals(gs) <= |gs| * m
  {
    if gs != [] {
      SumTotalsAtMost(gs[1..], m);
    }
  }

  /** The mean of `n` values bounded by `m` is bounded by `m`. */
  lemma MeanAtMost(total: int, n: int, m: int)
    requires n > 0 && total <= n * m
    ensures (total as real / n as real) * (n as real) == total as real
    ensures total as real / n as real <= m as real
  {
    var mean := total as real / n as real;
    assert (n * m) as real == (n as real) * (m as real);
    if mean > m as real {
      assert mean * (n as real) > (m as real) * (n as real);
    }
  }

  // --------------------------------------------------------- top by units

  /** One entry of the top-by-units answer. */
  datatype TopProduct = TopProduct(productId: int, count: int, percentage: real)

  function Percentage(count: int, total: int): real
    requires total > 0
  {
    100.0 * (count as real) / (total as real)
  }

  /** `groupby("dish_id").size().sort_values(by="count",
      ascending=False).head(3)`, with `100 * count / len(filtered_df)`. */
  function TopByUnits(orders: seq<OrderLine>, start: Date, end: Date): (r: seq<TopProduct>)
    ensures |r| <= 3
    ensures InWindow(orders, start, end) == [] ==> r == []
  {
    var window := InWindow(orders, start, end);
    var top := TopGroups(window, DishOf, 3);
    // an empty window has no dishes, so no division by zero is reached
    if |window| == 0 then []
    else seq(|top|, i requires 0 <= i < |top| => TopProduct(top[i].key, top[i].total, Percentage(top[i].total, |window|)))
  }

  /** The answer is a top 3 of the window: at most 3 entries (fewer only
      when fewer dishes were sold), none for an empty window, distinct
      dishes, counts non-increasing and equal to the dish's number of rows. */
  lemma TopByUnitsSpec(orders: seq<OrderLine>, start: Date, end: Date)
    ensures var r := TopByUnits(orders, start, end);
            |r| == Min(3, DistinctKeyCount(InWindow(orders, start, end), DishOf))
    ensures InWindow(orders, start, end) == [] ==> TopByUnits(orders, start, end) == []
    ensures var r := TopByUnits(orders, start, end);
            forall i, j :: 0 <= i < j < |r| ==> r[i].count >= r[j].count && r[i].productId != r[j].productId
    ensures var r := TopByUnits(orders, start, end);
            forall i :: 0 <= i < |r| ==>
              r[i].count == |Members(InWindow(orders, start, end), DishOf, r[i].productId)| > 0
  {
    var window := InWindow(orders, start, end);
    var top := TopGroups(window, DishOf, 3);
    TopByUnitsShape(orders, start, end);
    TopGroupsShape(window, DishOf, 3);
    assert forall i :: 0 <= i < |top| ==> top[i] in top;
  }

  /** No dish left out of the answer was sold more often than a listed one. */
  lemma TopByUnitsOmitted(orders: seq<OrderLine>, start: Date, end: Date, d: int)
    requires Members(InWindow(orders, start, end), DishOf, d) != []
    requires forall i :: 0 <= i < |TopByUnits(orders, start, end)| ==> TopByUnits(orders, start, end)[i].productId != d
    ensures forall i :: 0 <= i < |TopByUnits(orders, start, end)| ==>
              |Members(InWindow(orders, start, end), DishOf, d)| <= TopByUnits(orders, start, end)[i].count
  {
    var window := InWindow(orders, start, end);
    var top := TopGroups(window, DishOf, 3);
    TopByUnitsShape(orders, start, end);
    assert d !in KeysOf(top);
    TopGroupsOmitted(window, DishOf, 3, d);
    assert forall i :: 0 <= i < |top| ==> top[i] in top;
  }

  /** The entries are the top groups of the window, one for one. */
  lemma TopByUnitsShape(orders: seq<OrderLine>, start: Date, end: Date)
    ensures var top := TopGroups(InWindow(orders, start, end), DishOf, 3);
            var r := TopByUnits(orders, start, end);
            |r| == |top| &&
            forall i :: 0 <= i < |r| ==> r[i].productId == top[i].key && r[i].count == top[i].total
  {
    var window := InWindow(orders, start, end);
    if window == [] {
      IntLessIsOrder();
      assert SortedKeys(window, DishOf, IntLess) == [];
      assert Aggregate(window, DishOf, One<OrderLine>, IntLess) == [];
      assert TopGroups(window, DishOf, 3) == [];
    }
  }

  /** Each percentage is `100 * count / len(filtered)`; the window is
      non-empty whenever there is an entry. */
  lemma TopByUnitsPercentages(orders: seq<OrderLine>, start: Date, end: Date)
    ensures |TopByUnits(orders, start, end)| > 0 ==> |InWindow(orders, start, end)| > 0
    ensures var r := TopByUnits(orders, start, end);
            forall i :: 0 <= i < |r| ==>
              r[i].percentage == 100.0 * (r[i].count as real) / (|InWindow(orders, start, end)| as real)
  {
  }

  /** The sum of the percentage column. */
  function SumPercentages(r: seq<TopProduct>): real {
    if r == [] then 0.0 else r[0].percentage + SumPercentages(r[1..])
  }

  /** The sum of the count column. */
  function SumUnits(r: seq<TopProduct>): int {
    if r == [] then 0 else r[0].count + SumUnits(r[1..])
  }

  /** The percentages add up to at most 100, and to exactly 100 when the
      window is non-empty and every dish sold fits in the top 3. */
  lemma TopByUnitsPercentSum(orders: seq<OrderLine>, start: Date, end: Date)
    ensures SumPercentages(TopByUnits(orders, start, end)) <= 100.0
    ensures InWindow(orders, start, end) != [] && DistinctKeyCount(InWindow(orders, start, end), DishOf) <= 3 ==>
              SumPercentages(TopByUnits(orders, start, end)) == 100.0
  {
    var window := InWindow(orders, start, end);
    var top := TopGroups(window, DishOf, 3);
    var r := TopByUnits(orders, start, end);
    if window != [] {
      TopByUnitsPercentages(orders, start, end);
      PercentagesAddUp(r, |window|);
      TopByUnitsShape(orders, start, end);
      SumUnitsIs(r, top);
      TopGroupsSum(window, DishOf, 3);
      ShareAtMost(SumUnits(r), |window|);
    }
  }

  lemma {:induction false} PercentagesAddUp(r: seq<TopProduct>, n: int)
    requires n > 0
    requires forall i :: 0 <= i < |r| ==> r[i].percentage == 100.0 * (r[i].count as real) / (n as real)
    ensures SumPercentages(r) == 100.0 * (SumUnits(r) as real) / (n as real)
  {
    if r != [] {
      PercentagesAddUp(r[1..], n);
      var a, b := r[0].count as real, SumUnits(r[1..]) as real;
      assert 100.0 * a / (n as real) + 100.0 * b / (n as real) == 100.0 * (a + b) / (n as real);
    }
  }

  lemma {:induction false} SumUnitsIs(r: seq<TopProduct>, top: seq<Group<int>>)
    requires |r| == |top| && forall i :: 0 <= i < |r| ==> r[i].count == top[i].total
    ensures SumUnits(r) == SumTotals(top)
  {
    if r != [] {
      SumUnitsIs(r[1..], top[1..]);
    }
  }

  /** `c` rows out of `n` are at most 100 percent, and all `n` are 100. */
  lemma ShareAtMost(c: int, n: int)
    requires 0 < n && c <= n
    ensures 100.0 * (c as real) / (n as real) <= 100.0
    ensures c == n ==> 100.0 * (c as real) / (n as real) == 100.0
  {
  }

  // ----------------------------------------------------- daily order count

  /** `filtered_df.groupby("date")["price"].count()`: per date present in the
      window (key: the date), the number of that day's rows with a price. */
  function TotalSalesCount(orders: seq<OrderLine>, start: Date, end: Date): seq<Group<Date>> {
    IntLessIsOrder();
    Aggregate(InWindow(orders, start, end), DateOf, Indicator(HasPrice), IntLess)
  }

  /** One entry per date present in the window, ascending, each the number of
      that day's rows with a price; the entries add up to the number of
      priced rows in the window. */
  lemma TotalSalesCountSpec(orders: seq<OrderLine>, start: Date, end: Date)
    ensures var r := TotalSalesCount(orders, start, end);
            forall i, j :: 0 <= i < j < |r| ==> r[i].key < r[j].key
    ensures var r := TotalSalesCount(orders, start, end);
            forall d :: d in KeysOf(r) <==> exists l :: l in orders && l.date == d && start <= d <= end
    ensures var r := TotalSalesCount(orders, start, end);
            forall i :: 0 <= i < |r| ==>
              r[i].total == |Filter(Members(InWindow(orders, start, end), DateOf, r[i].key), HasPrice)|
    ensures SumTotals(TotalSalesCount(orders, start, end)) == |Filter(InWindow(orders, start, end), HasPrice)|
  {
    IntLessIsOrder();
    var window := InWindow(orders, start, end);
    var r := TotalSalesCount(orders, start, end);
    assert forall i, j :: 0 <= i < j < |r| ==> IntLess(KeysOf(r)[i], KeysOf(r)[j]);
    DatesPresent(window, start, end);
    forall i | 0 <= i < |r|
      ensures r[i].total == |Filter(Members(window, DateOf, r[i].key), HasPrice)|
    {
      SumIndicator(Members(window, DateOf, r[i].key), HasPrice);
    }
    AggregateSum(window, DateOf, Indicator(HasPrice), IntLess);
    SumIndicator(window, HasPrice);
  }
}
