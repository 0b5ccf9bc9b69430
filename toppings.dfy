/**
 The two topping handlers of the sales API: the most frequent
 (dish, topping) combination and the most used toppings. Both work on the
 topping table left-joined with the order-line table on `order_item_id`.
 */
module Toppings {
  import opened Outcomes
  import opened Grouping
  import opened Tables

  // ------------------------------------------------------ dish/topping pairs

  /** `DishToppingCount`: a combination and its number of rows. */
  datatype DishToppingCount = DishToppingCount(dishId: int, toppingId: int, count: int)

  /** The (dish, topping) pairs of the joined rows, one per row with a dish;
      `groupby` drops the rows whose `dish_id` is missing. How often each
      pair occurs is stated by `ComboMembers`. */
  function Combos(rows: seq<JoinedLine>): (r: seq<(int, int)>)
    ensures |r| <= |rows|
    ensures forall p :: p in r ==> exists j :: j in rows && j.dishId == Some(p.0) && j.toppingId == p.1
    ensures forall j :: j in rows && j.dishId.Some? ==> (j.dishId.value, j.toppingId) in r
  {
    if rows == [] then []
    else
      var j := rows[0];
      var rest := Combos(rows[1..]);
      assert forall p :: p in rest ==> exists k :: k in rows && k.dishId == Some(p.0) && k.toppingId == p.1;
      if j.dishId.Some? then [(j.dishId.value, j.toppingId)] + rest else rest
  }

  function PairOf(p: (int, int)): (int, int) { p }

  function IsPair(p: (int, int)): JoinedLine -> bool {
    (j: JoinedLine) => j.dishId == Some(p.0) && j.toppingId == p.1
  }

  /** The number of joined rows with dish `p.0` and topping `p.1`. */
  function PairCount(rows: seq<JoinedLine>, p: (int, int)): nat {
    |Filter(rows, IsPair(p))|
  }

  /** `groupby(["dish_id", "topping_id"]).size()`: one group per pair
      present, in ascending (dish, topping) order. */
  function ComboCounts(rows: seq<JoinedLine>): (r: seq<Group<(int, int)>>)
    ensures forall i, j :: 0 <= i < j < |r| ==> LexLess(r[i].key, r[j].key)
  {
    LexLessIsOrder();
    var r := Aggregate(Combos(rows), PairOf, One<(int, int)>, LexLess);
    assert forall i, j :: 0 <= i < j < |r| ==> LexLess(KeysOf(r)[i], KeysOf(r)[j]);
    r
  }

  /** A pair's group in `Combos` has exactly as many members as there are
      joined rows with that dish and topping. */
  lemma {:induction false} ComboMembers(rows: seq<JoinedLine>, p: (int, int))
    ensures |Members(Combos(rows), PairOf, p)| == PairCount(rows, p)
  {
    if rows != [] {
      ComboMembers(rows[1..], p);
      var j := rows[0];
      if j.dishId.Some? {
        var q := (j.dishId.value, j.toppingId);
        assert Combos(rows) == [q] + Combos(rows[1..]);
        FilterAppend([q], Combos(rows[1..]), KeyIs(PairOf, p));
        assert Filter([q], KeyIs(PairOf, p)) == if q == p then [q] else [];
      }
    }
  }

  /** Each group of `ComboCounts` is a pair present in the rows, and its
      count is the pair's number of rows; every pair present has a group. */
  lemma ComboCountsSpec(rows: seq<JoinedLine>)
    ensures forall i :: 0 <= i < |ComboCounts(rows)| ==>
              ComboCounts(rows)[i].total == PairCount(rows, ComboCounts(rows)[i].key) > 0
    ensures forall p :: PairCount(rows, p) > 0 ==> p in KeysOf(ComboCounts(rows))
  {
    LexLessIsOrder();
    var gs := ComboCounts(rows);
    forall i | 0 <= i < |gs| ensures gs[i].total == PairCount(rows, gs[i].key) > 0 {
      var p := gs[i].key;
      assert KeysOf(gs)[i] == p;
      SumByOne(Members(Combos(rows), PairOf, p));
      ComboMembers(rows, p);
    }
    forall p | PairCount(rows, p) > 0 ensures p in KeysOf(gs) {
      ComboMembers(rows, p);
    }
  }

  /** `combo_counts.loc[combo_counts["count"].idxmax()]`; `idxmax` of an
      empty table raises, which the handler turns into a 500 response. */
  function MostFrequentOf(rows: seq<JoinedLine>): Response<DishToppingCount> {
    var gs := ComboCounts(rows);
    if gs == [] then ServerError(InternalServerError, "attempt to get argmax of an empty sequence")
    else
      var g := gs[ArgMaxFirst(gs)];
      Success(DishToppingCount(g.key.0, g.key.1, g.total))
  }

  /** The answer is an error, with status 500, exactly when no joined row
      has a dish. */
  lemma MostFrequentOfError(rows: seq<JoinedLine>)
    ensures MostFrequentOf(rows).ServerError? <==> forall j :: j in rows ==> j.dishId.None?
    ensures MostFrequentOf(rows).ServerError? ==> MostFrequentOf(rows).status == InternalServerError
  {
    var gs := ComboCounts(rows);
    ComboCountsSpec(rows);
    if exists j :: j in rows && j.dishId.Some? {
      var j :| j in rows && j.dishId.Some?;
      var p := (j.dishId.value, j.toppingId);
      assert j in Filter(rows, IsPair(p));
      assert p in KeysOf(gs);
    }
    if gs != [] {
      var g := gs[0];
      assert PairCount(rows, g.key) > 0;
      assert Filter(rows, IsPair(g.key))[0] in rows;
    }
  }

  /** A successful answer is a pair with the largest row count, that count,
      and, among the pairs sharing that count, the smallest one. */
  lemma MostFrequentOfBest(rows: seq<JoinedLine>)
    ensures MostFrequentOf(rows).Success? ==>
              var c := MostFrequentOf(rows).value;
              c.count == PairCount(rows, (c.dishId, c.toppingId)) > 0
    ensures MostFrequentOf(rows).Success? ==>
              forall p :: PairCount(rows, p) <= MostFrequentOf(rows).value.count
    ensures MostFrequentOf(rows).Success? ==>
              var c := MostFrequentOf(rows).value;
              forall p :: PairCount(rows, p) == c.count ==> p == (c.dishId, c.toppingId) || LexLess((c.dishId, c.toppingId), p)
  {
    var gs := ComboCounts(rows);
    ComboCountsSpec(rows);
    if gs != [] {
      var i := ArgMaxFirst(gs);
      var g := gs[i];
      forall p | PairCount(rows, p) > 0
        ensures PairCount(rows, p) <= g.total
        ensures PairCount(rows, p) == g.total ==> p == g.key || LexLess(g.key, p)
      {
        var k :| 0 <= k < |gs| && KeysOf(gs)[k] == p;
        assert gs[k].total == PairCount(rows, p);
        if k > i {
          assert LexLess(gs[i].key, gs[k].key);
        }
      }
    }
  }

  /** `mostFrequentDishTopping`: the left join, the inclusive window on the
      joined date (rows without a matching order line are dropped), then the
      most frequent pair. */
  function MostFrequentDishTopping(toppings: seq<ToppingLine>, orders: seq<OrderLine>, start: Date, end: Date)
    : Response<DishToppingCount>
  {
    MostFrequentOf(JoinedInWindow(LeftJoin(toppings, orders), start, end))
  }

  /** The windowed rows all carry a dish, so the handler fails exactly when
      no topping row matches an order line dated inside the window. */
  lemma MostFrequentDishToppingSpec(toppings: seq<ToppingLine>, orders: seq<OrderLine>, start: Date, end: Date)
    ensures MostFrequentDishTopping(toppings, orders, start, end).ServerError? <==>
              JoinedInWindow(LeftJoin(toppings, orders), start, end) == []
    ensures JoinedInWindow(LeftJoin(toppings, orders), start, end) == [] <==>
              forall t, o :: t in toppings && o in orders && o.orderItemId == t.orderItemId ==> !(start <= o.date <= end)
  {
    var join := LeftJoin(toppings, orders);
    var rows := JoinedInWindow(join, start, end);
    LeftJoinRows(toppings, orders);
    MostFrequentOfError(rows);
    if rows != [] {
      assert rows[0] in rows;
      assert rows[0].dishId.Some?;
      var t :| t in toppings && rows[0].orderItemId == t.orderItemId && rows[0].toppingId == t.toppingId;
      var o :| o in orders && o.orderItemId == rows[0].orderItemId && rows[0].date == Some(o.date);
      assert o.orderItemId == t.orderItemId && start <= o.date <= end;
    } else {
      forall t, o | t in toppings && o in orders && o.orderItemId == t.orderItemId
        ensures !(start <= o.date <= end)
      {
        JoinedRowFor(toppings, orders, t, o);
      }
    }
  }

  /** Each pair of a topping row and an order line with its `order_item_id`
      gives a joined row carrying the line's dish and date. */
  lemma {:induction false} JoinedRowFor(toppings: seq<ToppingLine>, orders: seq<OrderLine>, t: ToppingLine, o: OrderLine)
    requires t in toppings && o in orders && o.orderItemId == t.orderItemId
    ensures JoinedLine(t.orderItemId, t.toppingId, Some(o.dishId), Some(o.date)) in LeftJoin(toppings, orders)
  {
    if toppings[0] == t {
      var ms := Matching(orders, t.orderItemId);
      assert o in ms;
      var k :| 0 <= k < |ms| && ms[k] == o;
      assert JoinOne(t, orders)[k] == JoinedLine(t.orderItemId, t.toppingId, Some(o.dishId), Some(o.date));
    } else {
      JoinedRowFor(toppings[1..], orders, t, o);
    }
  }

  // ------------------------------------------------------------ top toppings

  /** `ToppingCount`: a topping and its number of joined rows. */
  datatype ToppingCount = ToppingCount(toppingId: int, count: int)

  /** The joined rows `topToppings` counts: windowed when both bounds are
      given, all of them (unmatched rows included) otherwise. */
  function ToppingRows(toppings: seq<ToppingLine>, orders: seq<OrderLine>, start: Option<Date>, end: Option<Date>)
    : (r: seq<JoinedLine>)
    ensures start.None? || end.None? ==> r == LeftJoin(toppings, orders)
    ensures start.Some? && end.Some? ==>
              forall j :: j in r <==> j in LeftJoin(toppings, orders) && j.date.Some? && start.value <= j.date.value <= end.value
  {
    var join := LeftJoin(toppings, orders);
    if start.Some? && end.Some? then JoinedInWindow(join, start.value, end.value) else join
  }

  /** `filtered_df["topping_id"].value_counts().head(limit)`. */
  function TopToppings(toppings: seq<ToppingLine>, orders: seq<OrderLine>, start: Option<Date>, end: Option<Date>, limit: int)
    : seq<ToppingCount>
  {
    AsToppingCounts(TopGroups(ToppingRows(toppings, orders, start, end), ToppingOf, limit))
  }

  function AsToppingCounts(top: seq<Group<int>>): (r: seq<ToppingCount>)
    ensures |r| == |top| && forall i :: 0 <= i < |top| ==> r[i] == ToppingCount(top[i].key, top[i].total)
  {
    seq(|top|, i requires 0 <= i < |top| => ToppingCount(top[i].key, top[i].total))
  }

  /** The answer is a top `limit` (with `head`'s reading of a negative
      limit) of the counted rows: distinct toppings, counts non-increasing
      and equal to the topping's number of rows. */
  lemma TopToppingsSpec(toppings: seq<ToppingLine>, orders: seq<OrderLine>, start: Option<Date>, end: Option<Date>, limit: int)
    ensures var d := DistinctKeyCount(ToppingRows(toppings, orders, start, end), ToppingOf);
            |TopToppings(toppings, orders, start, end, limit)| == if limit >= 0 then Min(limit, d) else Max(0, d + limit)
    ensures var r := TopToppings(toppings, orders, start, end, limit);
            forall i, j :: 0 <= i < j < |r| ==> r[i].count >= r[j].count && r[i].toppingId != r[j].toppingId
    ensures var r := TopToppings(toppings, orders, start, end, limit);
            forall i :: 0 <= i < |r| ==>
              r[i].count == |Members(ToppingRows(toppings, orders, start, end), ToppingOf, r[i].toppingId)| > 0
  {
    var rows := ToppingRows(toppings, orders, start, end);
    var top := TopGroups(rows, ToppingOf, limit);
    TopGroupsShape(rows, ToppingOf, limit);
    assert forall i :: 0 <= i < |top| ==> top[i] in top;
  }

  /** No topping left out of the answer has more rows than a listed one. */
  lemma TopToppingsOmitted(toppings: seq<ToppingLine>, orders: seq<OrderLine>, start: Option<Date>, end: Option<Date>, limit: int, t: int)
    requires Members(ToppingRows(toppings, orders, start, end), ToppingOf, t) != []
    requires forall i :: 0 <= i < |TopToppings(toppings, orders, start, end, limit)| ==>
               TopToppings(toppings, orders, start, end, limit)[i].toppingId != t
    ensures forall i :: 0 <= i < |TopToppings(toppings, orders, start, end, limit)| ==>
              |Members(ToppingRows(toppings, orders, start, end), ToppingOf, t)| <= TopToppings(toppings, orders, start, end, limit)[i].count
  {
    var rows := ToppingRows(toppings, orders, start, end);
    assert TopToppings(toppings, orders, start, end, limit) == AsToppingCounts(TopGroups(rows, ToppingOf, limit));
    CountsOmitted(rows, limit, t);
  }

  lemma CountsOmitted(rows: seq<JoinedLine>, limit: int, t: int)
    requires Members(rows, ToppingOf, t) != []
    requires forall i :: 0 <= i < |AsToppingCounts(TopGroups(rows, ToppingOf, limit))| ==>
               AsToppingCounts(TopGroups(rows, ToppingOf, limit))[i].toppingId != t
    ensures forall i :: 0 <= i < |AsToppingCounts(TopGroups(rows, ToppingOf, limit))| ==>
              |Members(rows, ToppingOf, t)| <= AsToppingCounts(TopGroups(rows, ToppingOf, limit))[i].count
  {
    var top := TopGroups(rows, ToppingOf, limit);
    var r := AsToppingCounts(top);
    assert t !in KeysOf(top) by {
      forall q | 0 <= q < |top| ensures KeysOf(top)[q] != t {
        assert r[q].toppingId == top[q].key;
      }
    }
    TopGroupsOmitted(rows, ToppingOf, limit, t);
    assert forall i :: 0 <= i < |top| ==> top[i] in top;
  }

  /** The listed counts add up to at most the number of counted rows; with
      no window, a key `order_item_id` and a limit that cuts nothing off,
      they add up to the number of topping rows. */
  lemma TopToppingsTotal(toppings: seq<ToppingLine>, orders: seq<OrderLine>, start: Option<Date>, end: Option<Date>, limit: int)
    ensures SumCounts(TopToppings(toppings, orders, start, end, limit)) <= |ToppingRows(toppings, orders, start, end)|
    ensures (start.None? || end.None?) && UniqueItemIds(orders) &&
            limit >= DistinctKeyCount(ToppingRows(toppings, orders, start, end), ToppingOf) ==>
              SumCounts(TopToppings(toppings, orders, start, end, limit)) == |toppings|
  {
    var rows := ToppingRows(toppings, orders, start, end);
    var top := TopGroups(rows, ToppingOf, limit);
    SumCountsOf(top);
    TopGroupsSum(rows, ToppingOf, limit);
    if (start.None? || end.None?) && UniqueItemIds(orders) {
      LeftJoinOneToOne(toppings, orders);
    }
  }

  function SumCounts(cs: seq<ToppingCount>): int {
    if cs == [] then 0 else cs[0].count + SumCounts(cs[1..])
  }

  lemma {:induction false} SumCountsOf(top: seq<Group<int>>)
    ensures SumCounts(AsToppingCounts(top)) == SumTotals(top)
  {
    if top != [] {
      SumCountsOf(top[1..]);
      assert AsToppingCounts(top)[1..] == AsToppingCounts(top[1..]);
    }
  }
}
