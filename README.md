# Sales aggregator

A Dafny model of the aggregation queries of a small restaurant sales API.
The service reads a table of order lines (one sold dish per row: its
`order_item_id`, `dish_id`, date and price) and a table of topping rows
(`order_item_id`, `topping_id`). Each request names a date window, and the
service answers one summary:

- the total sales value;
- the daily income summary: total, average per day present, highest day,
  and the per-day list;
- the three dishes sold most often, with their share of the rows;
- the number of priced order lines per day;
- the most frequent (dish, topping) combination;
- the most used toppings, with an optional window and a limit.

Every query is a pandas pipeline: a boolean-mask filter, a left merge, a
`groupby` with `sum`/`size`/`count`, `sort_values`, `head`, `idxmax`,
`value_counts`. The generic module `Grouping` models these operations once.
Each operation is a function over sequences, and its lemmas state what the
operation computes. The other modules put the handlers together from them:

| module | file | what it holds |
|---|---|---|
| `Outcomes` | outcomes.dfy | `Option` (a missing value) and `Response` (a result or a status-500 error) |
| `Grouping` | grouping.dfy | filter, sums, `groupby` aggregation, `idxmax`, descending sort, `head`, top-`n` counts |
| `Tables` | tables.dfy | the two row types, the inclusive date window, the left join on `order_item_id` |
| `Sales` | sales.dfy | the total-sales, average-sales, top-by-units and total-sales-count handlers |
| `Toppings` | toppings.dfy | the most-frequent-combination and top-toppings handlers |
| `Legacy` | legacy.dfy | `data.py`: the strict-window `total_sales`, the `average_sales` that never succeeds, and the module-level dish/menu aggregate |
| `Script` | script.dfy | `test.py`: the unwindowed combination query |

Representation choices:

- A date is an integer day number, so the window compares whole days.
- A price is a whole number of cents, or `None` where the table has no
  value (pandas `NaN`). Sums skip a missing price and `count` does not
  count it.
- A `groupby` result is a sequence of `Group(key, total)` records in
  ascending key order, which is pandas' default `sort=True` order.
- The percentage and the average are Dafny `real`s, exact quotients.

The files `app/backend/routes.py` and `routes.py` carry the same
aggregation code for the six handlers; they differ only in route paths and
response-class naming. They are modelled once. The table below cites `app/backend/routes.py`. The matching lines of
`routes.py` are: total sales 106-128, average sales 130-163, top by units
165-200, total sales count 203-226, most frequent combination 230-268, top
toppings 270-299. `data.py`'s `average_sales` (data.py:77-113) runs the
same inclusive pipeline, but its response class cannot hold the per-day
records it builds, so it is modelled apart as `Legacy.LegacyAverageSales`.

## Model

| member | source | states |
|---|---|---|
| Grouping.SumBy | app/backend/routes.py:160 | `sum()` of a column; what it adds up to is stated by `AggregateSum` and `SumIndicator` |
| Grouping.Filter | app/backend/routes.py:130-132 | a boolean mask keeps exactly the rows satisfying the predicate and never adds rows |
| Grouping.FilterAppend | app/backend/routes.py:130-132 | masking a concatenation is the concatenation of the masked parts, so kept rows keep their order |
| Grouping.SortedKeys | app/backend/routes.py:156-158 | the group keys are strictly ascending and are exactly the keys that some row carries |
| Grouping.Aggregate | app/backend/routes.py:156-158 | `groupby(key)[col].sum()`: ascending distinct keys, one for each key present, each total is the sum over that key's rows |
| Grouping.AggregateSum | app/backend/routes.py:160 | the group totals add up to the same sum taken over the whole table |
| Grouping.SumIndicator | app/backend/routes.py:234-236 | summing a 0/1 indicator counts the rows satisfying the predicate (`count()` of non-missing values) |
| Grouping.SumByOne | app/backend/routes.py:196-198 | summing the constant 1 gives the number of rows (`size()`) |
| Grouping.ArgMaxFirst | app/backend/routes.py:278 | `idxmax`: an index whose total is the largest, with every earlier total strictly smaller, so it is the first maximum |
| Grouping.SortByTotalDesc | app/backend/routes.py:199 | `sort_values(ascending=False)`: same length and same elements, totals non-increasing |
| Grouping.SortPermutes | app/backend/routes.py:199 | the sorted sequence is a permutation of its input (multiset equality) with the same total sum |
| Grouping.SortDistinct | app/backend/routes.py:199 | sorting keeps keys distinct |
| Grouping.InsertByTotal | app/backend/routes.py:199 | inserting a group into a non-increasing sequence keeps it non-increasing and adds exactly that group |
| Grouping.CountGroups | app/backend/routes.py:196-198 | `groupby(key).size()`: one group for each distinct key, distinct keys, each count equal to its group's size and positive |
| Grouping.CountsByKey | app/backend/routes.py:196-198 | `groupby(key).size()`; stated by `CountGroups` |
| Grouping.TopGroups | app/backend/routes.py:195-201 | `size().sort_values(ascending=False).head(n)`; stated by `TopGroupsShape`, `TopGroupsOmitted`, `TopGroupsSum` |
| Grouping.Head | app/backend/routes.py:200 | `head(n)` returns a prefix of its input, never longer than the input |
| Grouping.SortedCounts | app/backend/routes.py:196-199 | the sorted counts: one per distinct key, distinct keys, non-increasing, each its group's size, adding up to the number of rows |
| Grouping.TopGroupsShape | app/backend/routes.py:195-201 | `head(n)` of the sorted counts has `head`'s length, is non-increasing with distinct keys, and each count is its group's size |
| Grouping.TopGroupsOmitted | app/backend/routes.py:199-200 | no key that `head(n)` cuts off has a larger count than a listed key |
| Grouping.TopGroupsSum | app/backend/routes.py:195-201 | the listed counts add up to at most the number of rows, and to all of them when `n` is at least the number of keys |
| Grouping.TopGroupsSpec | app/backend/routes.py:195-201 | a true top `n`: `head(n)`'s length (a negative `n` drops from the end), distinct keys, non-increasing correct counts, no larger omitted key |
| Tables.InWindow | app/backend/routes.py:130-132 | a row is kept exactly when `start <= date <= end`, and a reversed window keeps nothing |
| Tables.InWindowKeepsOrder | app/backend/routes.py:130-132 | the window distributes over concatenation, so rows keep their original order |
| Tables.JoinedInWindow | app/backend/routes.py:268-270 | a joined row is kept exactly when it has a date and that date is inside the window; a row without a date is dropped, not an error |
| Tables.LeftJoin | app/backend/routes.py:262-266 | the left merge on `order_item_id` (also test.py:72-76) has, per topping row, one row for each order line carrying its `order_item_id`, or one row when none does; stated by `LeftJoinRows`, `JoinOne` and, with unique ids, `LeftJoinOneToOne` |
| Tables.JoinOne | app/backend/routes.py:262-266 | one topping row yields one joined row per order line with its `order_item_id`, in order, carrying that line's dish and date, or a single row without dish and date when no line matches |
| Tables.LeftJoinRows | app/backend/routes.py:262-266 | the left join keeps every topping row; every joined row comes from a topping row; dish and date are present exactly when a line matches, and are that line's |
| Tables.LeftJoinOneToOne | app/backend/routes.py:262-266 | with unique `order_item_id`s the join has one row per topping row, in order, with the same ids |
| Sales.TotalSales | app/backend/routes.py:130-138 | the total equals the sum of the daily income entries; an empty window gives 0 |
| Sales.DailyIncome | app/backend/routes.py:154-158 | one entry for each date present in the window, dates strictly ascending, each that day's price sum; empty exactly when the window is empty |
| Sales.AverageSalesOf | app/backend/routes.py:154-175 | an error exactly when the window is empty, otherwise the per-day list is the daily income; the rest is stated by `AverageSalesSpec` |
| Sales.AverageSalesSpec | app/backend/routes.py:154-178 | error with status 500 exactly when the window is empty; otherwise total = sum of days = total sales, average = total / number of days present, highest is a day's income and at least every day and the average, percentage change 0 |
| Sales.TopByUnits | app/backend/routes.py:191-212 | at most 3 entries, none for an empty window; the rest is stated by `TopByUnitsSpec`, `TopByUnitsOmitted`, `TopByUnitsPercentages`, `TopByUnitsPercentSum` |
| Sales.TopByUnitsShape | app/backend/routes.py:205-212 | the answer lists the top groups one for one: same dish ids and the same counts |
| Sales.TopByUnitsSpec | app/backend/routes.py:191-212 | `min(3, number of dishes)` entries, empty for an empty window, distinct dishes, non-increasing counts equal to the dish's row count |
| Sales.TopByUnitsOmitted | app/backend/routes.py:195-201 | no dish left out of the answer was sold more often than any listed dish |
| Sales.TopByUnitsPercentages | app/backend/routes.py:193-203 | each percentage is `100 * count / len(filtered)`, and the window is non-empty whenever an entry exists |
| Sales.TopByUnitsPercentSum | app/backend/routes.py:193-203 | the percentages add up to at most 100, and to exactly 100 when the window is non-empty and at most 3 dishes were sold |
| Sales.TotalSalesCount | app/backend/routes.py:232-241 | `groupby("date")["price"].count()` over the window; stated by `TotalSalesCountSpec` |
| Sales.TotalSalesCountSpec | app/backend/routes.py:232-241 | one entry for each date present, dates ascending, each the number of that day's rows with a price, all adding up to the number of priced rows in the window |
| Toppings.Combos | app/backend/routes.py:272-275 | the (dish, topping) pairs of the rows that have a dish; each comes from such a row |
| Toppings.ComboCounts | app/backend/routes.py:272-275 | the combination groups are in strictly ascending (dish, topping) order |
| Toppings.ComboMembers | app/backend/routes.py:272-275 | the group of a pair has as many members as there are joined rows with that dish and topping |
| Toppings.ComboCountsSpec | app/backend/routes.py:272-275 | each group's count is its pair's number of joined rows, and positive; every pair present has a group |
| Toppings.MostFrequentOf | app/backend/routes.py:272-284 | `groupby([dish, topping]).size()` then `idxmax`; stated by `MostFrequentOfError` and `MostFrequentOfBest` |
| Toppings.MostFrequentOfError | app/backend/routes.py:278-289 | the answer is an error with status 500 exactly when no joined row has a dish (`idxmax` of an empty table) |
| Toppings.MostFrequentOfBest | app/backend/routes.py:272-284 | the returned count is the pair's row count and is at least every pair's count; on ties the smallest (dish, topping) pair is returned |
| Toppings.JoinedRowFor | app/backend/routes.py:262-266 | each topping row with a matching order line yields a joined row with that line's dish and date |
| Toppings.MostFrequentDishTopping | app/backend/routes.py:252-289 | the handler: join, window, most frequent pair; stated by `MostFrequentDishToppingSpec` with `MostFrequentOfBest` |
| Toppings.MostFrequentDishToppingSpec | app/backend/routes.py:262-289 | the handler fails exactly when the windowed join is empty, which happens exactly when no topping row matches an order line dated inside the window |
| Toppings.ToppingRows | app/backend/routes.py:305-310 | with a bound missing all joined rows are counted, unmatched ones included; with both bounds a row counts exactly when it has a date inside the window |
| Toppings.TopToppings | app/backend/routes.py:294-317 | the handler: join, optional window, `value_counts().head(limit)`; stated by `TopToppingsSpec`, `TopToppingsOmitted`, `TopToppingsTotal` |
| Toppings.TopToppingsSpec | app/backend/routes.py:312-317 | `head(limit)`'s length, distinct toppings, non-increasing counts equal to the topping's number of counted rows |
| Toppings.TopToppingsOmitted | app/backend/routes.py:312 | no topping left out of the answer has more counted rows than any listed topping |
| Toppings.TopToppingsTotal | app/backend/routes.py:305-317 | the counts add up to at most the number of counted rows; with no window, unique `order_item_id`s and no cut-off, they add up to the number of topping rows |
| Legacy.StrictWindow | data.py:59-61 | a row is kept exactly when `start < date < end`; a window with no whole day strictly inside keeps nothing |
| Legacy.StrictIsShrunkInclusive | data.py:59-61 | the strict window equals the inclusive window from `start + 1` to `end - 1` |
| Legacy.LegacyTotalSales | data.py:49-72 | the strict-window handler; stated by `LegacyTotalSalesSpec` and `LegacyIsShrunkInclusive` |
| Legacy.LegacyTotalSalesSpec | data.py:59-71 | `sum_per_day` has one entry per date strictly inside the window, ascending, each that day's price sum; the total is the sum of the window's prices and of the entries; no day inside gives no entries and 0 |
| Legacy.LegacyIsShrunkInclusive | data.py:59-71 | `total_sales` returns the daily income and the total sales of the inclusive window shrunk by one day at each end |
| Legacy.BoundaryDayDropped | data.py:59-61 | a sale on the single day of a one-day window is absent from `total_sales`, but counted by the route files' inclusive `totalSales` and `averageSales` |
| Legacy.LegacyAverageSales | data.py:77-113 | the handler: the inclusive pipeline behind the `List[Dict[str, float]]` validation of its records; stated by `LegacyAverageSalesFails` |
| Legacy.LegacyAverageSalesFails | data.py:101-113 | the handler never succeeds: status 500 always, with the validation error exactly when the window holds a sale (a record's date text is no float) and the `NaN` failure otherwise |
| Legacy.StrLessTransitive | data.py:44 | the text order used by `max` on the raw date column is transitive |
| Legacy.StrLessTotal | data.py:44 | the text order is total on distinct texts |
| Legacy.MaxString | data.py:44 | `max` of a text column is one of its texts, and no other text comes after it |
| Legacy.DishMenuGroups | data.py:42-43 | keys `(dish_id, menu_number)` strictly ascending, one for each key present, each `sum_price` the group's price sum, all adding up to the table's sum |
| Legacy.DishMenuAggregate | data.py:42-45 | the module-level aggregate; stated by `DishMenuAggregateKeys`, `DishMenuAggregateDates`, `DishMenuAggregateTotal` |
| Legacy.DishMenuAggregateKeys | data.py:42-45 | the aggregate has one row per (dish, menu number) present, in ascending order, with the group's price sum |
| Legacy.DishMenuAggregateDates | data.py:44 | each row's `date` is one of its group's raw date texts and the largest in text order |
| Legacy.DishMenuAggregateTotal | data.py:42-43 | the `sum_price` column adds up to the sum of all prices |
| Script.MostFrequentUnfiltered | test.py:65-98 | the script's query; stated by `MostFrequentUnfilteredError`, `MostFrequentUnfilteredBest`, `UnfilteredIsWideWindow` |
| Script.MostFrequentUnfilteredError | test.py:72-98 | error with status 500 exactly when no topping row's `order_item_id` occurs among the order lines |
| Script.MostFrequentUnfilteredBest | test.py:79-91 | otherwise the returned count is the pair's row count in the unwindowed join and the largest of all pair counts, ties going to the smallest pair |
| Script.JoinedRowSource | test.py:72-76 | a joined row with a dish comes from a topping row and an order line with the same `order_item_id` |
| Script.CombosKeepDishRows | test.py:79-83 | a filter that keeps every row with a dish leaves the combination pairs unchanged |
| Script.UnfilteredIsWideWindow | test.py:72-85 | when every order line lies inside the window, the script and the windowed handler return the same answer |

## Left out

- Loading: `pd.read_csv` and date parsing with `pd.to_datetime(...).dt.date` are file I/O and a foreign parser. The model starts from rows whose dates are already day numbers. A failure to load or parse, which the handlers turn into a status-500 `{"error": ...}`, is not modelled.
- Rounding: `round(x, 2)` and floating-point summation are not modelled. Prices are whole cents. The average and the percentages are exact reals. `Sales.TopByUnitsPercentSum` holds for these exact values only: the rounded percentages can add up to more than 100 (counts 4, 1 and 1 out of 6 rows give 66.67 + 16.67 + 16.67 = 100.01).
- The web layer: FastAPI routing, query defaults, the pydantic response classes and their camelCase aliases, the documentation route, logging and dotenv.
- Authentication (`authenticate`, app/backend/routes.py:85-101, routes.py:84-100): it reads environment variables and uses a constant-time comparison.
- The `restaurantId` path parameter: no query reads it.
- Sales.AverageSalesOf: over an empty window pandas gives `NaN` for the mean and the maximum. The JSON encoder refuses `NaN` after the handler has returned, outside its `try`. The model returns the framework's plain status-500 error; the exact response body is not modelled.
- Grouping.SortByTotalDesc: `sort_values` uses an unstable sort, and `value_counts` sets its own order among equal counts. The model sorts stably, so equal counts stay in ascending key order. No contract claims anything about the order of equal counts beyond non-increasing counts and a true top `n`.
- Toppings.TopToppings: `if start_date and end_date` treats a bound as absent only when it is `None`, because a date is always truthy. A negative `limit` is modelled as pandas' `head`, which then drops that many rows from the end.
- Legacy.RawOrderLine: the raw `date` column is taken as always present. A missing raw date, which `max` would skip, is not modelled.
- data.py:118-155: these handlers use response classes that `data.py` never defines, so importing the module fails at line 118. They have no behaviour to model. The same failure means that `total_sales` and `average_sales` of `data.py` are never served either; `Legacy` models them as the functions they are written as.
- Legacy.LegacyAverageSales: the text of pydantic's validation error is not modelled; a fixed message stands for it.
- The module-level `read_csv` calls of data.py:33-40 and the prints and final call of test.py (84, 86, 93, 102).
- `totalSalesCount` counts each day's non-missing prices (`["price"].count()`, app/backend/routes.py:235), not its rows, so a day whose prices are all missing gets 0; the model follows the code.
- With an empty window `topByUnits` computes the percentage column over an empty frame (app/backend/routes.py:203), so nothing is divided by zero; `Sales.TopByUnits` returns `[]` there.

## Findings

| source | as written | input that shows it | evidently intended | confidence | as-written member | corrected member |
|---|---|---|---|---|---|---|
| data.py:59-61 | `total_sales` keeps only `start_date < date < end_date`, so sales on both boundary days are dropped | one order line dated `d`, with window `[d, d]`: `total_sales` returns no day and 0, while `totalSales` and `averageSales` of the route files count the sale | the inclusive window of `average_sales` (data.py:87) and of both route files (app/backend/routes.py:130-132) | medium, not executed | Legacy.BoundaryDayDropped | Sales.TotalSales |
| data.py:106-107 | `income_per_day` is declared `List[Dict[str, float]]` (data.py:28), yet each record holds the date as ISO text, so building the response raises inside the `try` and the handler returns a status-500 error; an empty window fails on the `NaN` mean | one order line dated `d`, with window `[d, d]`: status 500 instead of a one-day summary | a per-day list of dates and incomes, as `averageSales` of the route files returns (app/backend/routes.py:165-175) | high, not executed | Legacy.LegacyAverageSalesFails | Sales.AverageSalesOf |
