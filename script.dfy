/**
 The stand-alone script variant of the dish/topping query: the same left
 join and arg-max, with no date window.
 */
module Script {
  import opened Outcomes
  import opened Grouping
  import opened Tables
  import opened Toppings

  /** `most_frequent_dish_topping()` of the script: the left join, grouped
      by (dish, topping) with no window, then the first largest group. */
  function MostFrequentUnfiltered(toppings: seq<ToppingLine>, orders: seq<OrderLine>): Response<DishToppingCount> {
    MostFrequentOf(LeftJoin(toppings, orders))
  }

  /** The script fails, with status 500, exactly when no topping row's
      `order_item_id` occurs in the order-line table. */
  lemma MostFrequentUnfilteredError(toppings: seq<ToppingLine>, orders: seq<OrderLine>)
    ensures MostFrequentUnfiltered(toppings, orders).ServerError? <==>
              forall t, o :: t in toppings && o in orders ==> o.orderItemId != t.orderItemId
    ensures MostFrequentUnfiltered(toppings, orders).ServerError? ==>
              MostFrequentUnfiltered(toppings, orders).status == InternalServerError
  {
    var join := LeftJoin(toppings, orders);
    MostFrequentOfError(join);
    if exists t, o :: t in toppings && o in orders && o.orderItemId == t.orderItemId {
      var t, o :| t in toppings && o in orders && o.orderItemId == t.orderItemId;
      JoinedRowFor(toppings, orders, t, o);
    }
    if exists j :: j in join && j.dishId.Some? {
      var j :| j in join && j.dishId.Some?;
      JoinedRowSource(toppings, orders, j);
    }
  }

  /** A joined row with a dish comes from a topping row and an order line
      sharing its `order_item_id`. */
  lemma JoinedRowSource(toppings: seq<ToppingLine>, orders: seq<OrderLine>, j: JoinedLine)
    requires j in LeftJoin(toppings, orders) && j.dishId.Some?
    ensures exists t, o :: t in toppings && o in orders && o.orderItemId == t.orderItemId
  {
    LeftJoinRows(toppings, orders);
    var t :| t in toppings && j.orderItemId == t.orderItemId && j.toppingId == t.toppingId;
    var o :| o in orders && o.orderItemId == j.orderItemId && j.dishId == Some(o.dishId) && j.date == Some(o.date);
    assert o.orderItemId == t.orderItemId;
  }

  /** Otherwise it returns a pair with the largest number of joined rows,
      and the smallest such pair when several share that number. */
  lemma MostFrequentUnfilteredBest(toppings: seq<ToppingLine>, orders: seq<OrderLine>)
    ensures MostFrequentUnfiltered(toppings, orders).Success? ==>
              var c := MostFrequentUnfiltered(toppings, orders).value;
              c.count == PairCount(LeftJoin(toppings, orders), (c.dishId, c.toppingId)) > 0 &&
              (forall p :: PairCount(LeftJoin(toppings, orders), p) <= c.count) &&
              (forall p :: PairCount(LeftJoin(toppings, orders), p) == c.count ==>
                 p == (c.dishId, c.toppingId) || LexLess((c.dishId, c.toppingId), p))
  {
    MostFrequentOfBest(LeftJoin(toppings, orders));
  }

  /** When every order line falls inside the window, the window drops only
      rows without a dish, so the script and the windowed handler agree. */
  lemma UnfilteredIsWideWindow(toppings: seq<ToppingLine>, orders: seq<OrderLine>, start: Date, end: Date)
    requires forall o :: o in orders ==> start <= o.date <= end
    ensures MostFrequentUnfiltered(toppings, orders) == MostFrequentDishTopping(toppings, orders, start, end)
  {
    var join := LeftJoin(toppings, orders);
    LeftJoinRows(toppings, orders);
    forall j | j in join && j.dishId.Some? ensures JoinedInclusive(start, end)(j) {
      var o :| o in orders && o.orderItemId == j.orderItemId && j.dishId == Some(o.dishId) && j.date == Some(o.date);
    }
    CombosKeepDishRows(join, JoinedInclusive(start, end));
  }

  /** A filter that keeps every row with a dish leaves the pairs unchanged. */
  lemma {:induction false} CombosKeepDishRows(rows: seq<JoinedLine>, keep: JoinedLine -> bool)
    requires forall j :: j in rows && j.dishId.Some? ==> keep(j)
    ensures Combos(Filter(rows, keep)) == Combos(rows)
  {
    if rows != [] {
      CombosKeepDishRows(rows[1..], keep);
      if keep(rows[0]) {
        var f := Filter(rows, keep);
        assert f == [rows[0]] + Filter(rows[1..], keep);
        assert f[0] == rows[0] && f[1..] == Filter(rows[1..], keep);
      }
    }
  }
}
