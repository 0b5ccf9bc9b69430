/**
 The two tables the handlers read, the date windows they filter with, and
 the left join of toppings onto order lines.
 */
module Tables {
  import opened Outcomes
  import opened Grouping

  /** A calendar date as a day number, so that comparing day numbers
      compares dates. */
  type Date = int

  /** A row of the order-line table once `date` is parsed to a calendar
      date; `price` is in integer cents and `None` when the cell is empty.
      Columns that no query reads are left out. */
  datatype OrderLine = OrderLine(orderItemId: int, dishId: int, date: Date, price: Option<int>)

  /** A row of the topping table. */
  datatype ToppingLine = ToppingLine(orderItemId: int, toppingId: int)

  /** A row of the left join of the topping table with the order lines'
      `order_item_id`, `dish_id` and `date`; the last two are missing when no
      order line carries the topping's `order_item_id`. */
  datatype JoinedLine = JoinedLine(orderItemId: int, toppingId: int, dishId: Option<int>, date: Option<Date>)

  // Columns, as functions a group-by or a sum can take.

  function DateOf(l: OrderLine): Date { l.date }

  function DishOf(l: OrderLine): int { l.dishId }

  function ToppingOf(j: JoinedLine): int { j.toppingId }

  predicate HasPrice(l: OrderLine) { l.price.Some? }

  /** The price as `sum()` sees it: an empty cell adds nothing. */
  function PriceOrZero(l: OrderLine): int {
    if l.price.Some? then l.price.value else 0
  }

  // ------------------------------------------------------------ date windows

  function Inclusive(start: Date, end: Date): OrderLine -> bool {
    (l: OrderLine) => start <= l.date <= end
  }

  function JoinedInclusive(start: Date, end: Date): JoinedLine -> bool {
    (j: JoinedLine) => j.date.Some? && start <= j.date.value <= end
  }

  /** `df[(df["date"] >= start) & (df["date"] <= end)]`. */
  function InWindow(rows: seq<OrderLine>, start: Date, end: Date): (r: seq<OrderLine>)
    ensures forall l :: l in r <==> l in rows && start <= l.date <= end
    ensures start > end ==> r == []
  {
    var r := Filter(rows, Inclusive(start, end));
    // a non-empty result would have a first row inside the window
    assert r != [] ==> r[0] in r;
    r
  }

  /** The window keeps rows in their original order. */
  lemma InWindowKeepsOrder(a: seq<OrderLine>, b: seq<OrderLine>, start: Date, end: Date)
    ensures InWindow(a + b, start, end) == InWindow(a, start, end) + InWindow(b, start, end)
  {
    FilterAppend(a, b, Inclusive(start, end));
  }

  /** The same window on joined rows: a row without a date (a topping with
      no order line) compares false with both bounds and is dropped. */
  function JoinedInWindow(rows: seq<JoinedLine>, start: Date, end: Date): (r: seq<JoinedLine>)
    ensures forall j :: j in r <==> j in rows && j.date.Some? && start <= j.date.value <= end
  {
    Filter(rows, JoinedInclusive(start, end))
  }

  // --------------------------------------------------------------- the join

  function ItemIs(id: int): OrderLine -> bool {
    (o: OrderLine) => o.orderItemId == id
  }

  /** The order lines carrying `order_item_id == id`. */
  function Matching(orders: seq<OrderLine>, id: int): (r: seq<OrderLine>)
    ensures forall o :: o in r <==> o in orders && o.orderItemId == id
  {
    Filter(orders, ItemIs(id))
  }

  /** The joined rows of one topping row: one per matching order line, or a
      single row with no dish and no date. */
  function JoinOne(t: ToppingLine, orders: seq<OrderLine>): (r: seq<JoinedLine>)
    ensures |r| == if Matching(orders, t.orderItemId) == [] then 1 else |Matching(orders, t.orderItemId)|
    ensures Matching(orders, t.orderItemId) != [] ==>
              forall i :: 0 <= i < |r| ==>
                r[i].dishId == Some(Matching(orders, t.orderItemId)[i].dishId) &&
                r[i].date == Some(Matching(orders, t.orderItemId)[i].date)
    ensures forall j :: j in r ==> j.orderItemId == t.orderItemId && j.toppingId == t.toppingId
    ensures forall j :: j in r ==> (j.dishId.Some? <==> j.date.Some?)
    ensures forall j :: j in r ==> (j.date.Some? <==> Matching(orders, t.orderItemId) != [])
    ensures forall j :: j in r && j.date.Some? ==>
              exists o :: o in orders && o.orderItemId == t.orderItemId && j.dishId == Some(o.dishId) && j.date == Some(o.date)
  {
    var ms := Matching(orders, t.orderItemId);
    if ms == [] then [JoinedLine(t.orderItemId, t.toppingId, None, None)]
    else
      var r := seq(|ms|, i requires 0 <= i < |ms| => JoinedLine(t.orderItemId, t.toppingId, Some(ms[i].dishId), Some(ms[i].date)));
      assert forall j :: j in r ==> exists i :: 0 <= i < |ms| && j == r[i];
      assert forall i :: 0 <= i < |ms| ==> ms[i] in orders;
      r
  }

  /** `toppings.merge(orders[["order_item_id", "dish_id", "date"]],
      on="order_item_id", how="left")`, in the topping table's row order. */
  function LeftJoin(toppings: seq<ToppingLine>, orders: seq<OrderLine>): (r: seq<JoinedLine>)
    ensures |r| >= |toppings|
    ensures |r| == JoinedRowCount(toppings, orders)
  {
    if toppings == [] then [] else JoinOne(toppings[0], orders) + LeftJoin(toppings[1..], orders)
  }

  /** The number of joined rows: per topping row, the number of order lines
      carrying its `order_item_id`, or 1 when there is none. */
  function JoinedRowCount(toppings: seq<ToppingLine>, orders: seq<OrderLine>): nat {
    if toppings == [] then 0
    else
      var n := |Matching(orders, toppings[0].orderItemId)|;
      (if n == 0 then 1 else n) + JoinedRowCount(toppings[1..], orders)
  }

  /** Every topping row survives the left join, and every joined row comes
      from a topping row: its dish and date are present exactly when an order
      line carries its `order_item_id`, and are then that line's. */
  lemma LeftJoinRows(toppings: seq<ToppingLine>, orders: seq<OrderLine>)
    ensures |LeftJoin(toppings, orders)| >= |toppings|
    ensures forall t :: t in toppings ==>
              exists j :: j in LeftJoin(toppings, orders) && j.orderItemId == t.orderItemId && j.toppingId == t.toppingId
    ensures forall j :: j in LeftJoin(toppings, orders) ==>
              exists t :: t in toppings && j.orderItemId == t.orderItemId && j.toppingId == t.toppingId
    ensures forall j :: j in LeftJoin(toppings, orders) ==>
              (j.dishId.Some? <==> j.date.Some?) && (j.date.Some? <==> Matching(orders, j.orderItemId) != [])
    ensures forall j :: j in LeftJoin(toppings, orders) && j.date.Some? ==>
              exists o :: o in orders && o.orderItemId == j.orderItemId && j.dishId == Some(o.dishId) && j.date == Some(o.date)
  {
    LeftJoinKeeps(toppings, orders);
    LeftJoinSources(toppings, orders);
  }

  lemma {:induction false} LeftJoinKeeps(toppings: seq<ToppingLine>, orders: seq<OrderLine>)
    ensures |LeftJoin(toppings, orders)| >= |toppings|
    ensures forall t :: t in toppings ==>
              exists j :: j in LeftJoin(toppings, orders) && j.orderItemId == t.orderItemId && j.toppingId == t.toppingId
  {
    if toppings != [] {
      LeftJoinKeeps(toppings[1..], orders);
      var first := JoinOne(toppings[0], orders);
      assert first[0] in LeftJoin(toppings, orders);
      assert forall t :: t in toppings ==> t == toppings[0] || t in toppings[1..];
    }
  }

  lemma {:induction false} LeftJoinSources(toppings: seq<ToppingLine>, orders: seq<OrderLine>)
    ensures forall j :: j in LeftJoin(toppings, orders) ==>
              exists t :: t in toppings && j.orderItemId == t.orderItemId && j.toppingId == t.toppingId
    ensures forall j :: j in LeftJoin(toppings, orders) ==>
              (j.dishId.Some? <==> j.date.Some?) && (j.date.Some? <==> Matching(orders, j.orderItemId) != [])
    ensures forall j :: j in LeftJoin(toppings, orders) && j.date.Some? ==>
              exists o :: o in orders && o.orderItemId == j.orderItemId && j.dishId == Some(o.dishId) && j.date == Some(o.date)
  {
    if toppings != [] {
      LeftJoinSources(toppings[1..], orders);
      var first := JoinOne(toppings[0], orders);
      assert toppings[0] in toppings;
      assert forall j :: j in LeftJoin(toppings, orders) ==> j in first || j in LeftJoin(toppings[1..], orders);
      assert forall t :: t in toppings[1..] ==> t in toppings;
    }
  }

  /** `order_item_id` is a key of the order-line table. */
  predicate UniqueItemIds(orders: seq<OrderLine>) {
    forall i, j :: 0 <= i < j < |orders| ==> orders[i].orderItemId != orders[j].orderItemId
  }

  lemma {:induction false} MatchingUnique(orders: seq<OrderLine>, id: int)
    requires UniqueItemIds(orders)
    ensures |Matching(orders, id)| <= 1
  {
    if orders != [] {
      MatchingUnique(orders[1..], id);
      if orders[0].orderItemId == id {
        assert forall o :: o in orders[1..] ==> o.orderItemId != id;
        FilterNone(orders[1..], ItemIs(id));
      }
    }
  }

  /** With `order_item_id` a key of the order lines, the left join has one
      row per topping row, in the same order. */
  lemma {:induction false} LeftJoinOneToOne(toppings: seq<ToppingLine>, orders: seq<OrderLine>)
    requires UniqueItemIds(orders)
    ensures |LeftJoin(toppings, orders)| == |toppings|
    ensures forall i :: 0 <= i < |toppings| ==>
              LeftJoin(toppings, orders)[i].orderItemId == toppings[i].orderItemId
              && LeftJoin(toppings, orders)[i].toppingId == toppings[i].toppingId
  {
    if toppings != [] {
      LeftJoinOneToOne(toppings[1..], orders);
      MatchingUnique(orders, toppings[0].orderItemId);
      var first := JoinOne(toppings[0], orders);
      assert |first| == 1;
      assert first[0] in first;
    }
  }
}
