/**
 The table operations every query is built from: boolean-mask filtering,
 column sums, `groupby(key)` with an aggregate (groups in ascending key
 order), `idxmax` (first maximum), `sort_values(ascending=False)` and
 `head(n)`.
 */
module Grouping {

  /** A strict total order on keys: the order `groupby` sorts its keys in. */
  ghost predicate StrictTotalOrder<K(!new)>(lt: (K, K) -> bool) {
    && (forall a :: !lt(a, a))
    && (forall a, b, c :: lt(a, b) && lt(b, c) ==> lt(a, c))
    && (forall a, b :: a == b || lt(a, b) || lt(b, a))
  }

  ghost predicate Ascending<K>(ks: seq<K>, lt: (K, K) -> bool) {
    forall i, j :: 0 <= i < j < |ks| ==> lt(ks[i], ks[j])
  }

  /** The order of integer keys (dates, dish ids, topping ids). */
  function IntLess(a: int, b: int): bool { a < b }

  lemma IntLessIsOrder()
    ensures StrictTotalOrder(IntLess)
  {}

  /** The order of two-column keys such as `['dish_id', 'topping_id']`. */
  function LexLess(a: (int, int), b: (int, int)): bool {
    a.0 < b.0 || (a.0 == b.0 && a.1 < b.1)
  }

  lemma LexLessIsOrder()
    ensures StrictTotalOrder(LexLess)
  {}

  function Min(a: int, b: int): int { if a <= b then a else b }

  function Max(a: int, b: int): int { if a >= b then a else b }

  // ---------------------------------------------------------------- filter

  /** `df[mask]`: the rows satisfying `p`, in their original order. */
  function Filter<T(!new)>(xs: seq<T>, p: T -> bool): (r: seq<T>)
    ensures |r| <= |xs|
    ensures forall x :: x in r <==> x in xs && p(x)
  {
    if xs == [] then []
    else if p(xs[0]) then [xs[0]] + Filter(xs[1..], p)
    else Filter(xs[1..], p)
  }

  /** Filtering commutes with concatenation, so the kept rows stay in order. */
  lemma {:induction false} FilterAppend<T(!new)>(a: seq<T>, b: seq<T>, p: T -> bool)
    ensures Filter(a + b, p) == Filter(a, p) + Filter(b, p)
  {
    if a == [] {
      assert a + b == b;
    } else {
      assert (a + b)[0] == a[0];
      assert (a + b)[1..] == a[1..] + b;
      FilterAppend(a[1..], b, p);
    }
  }

  /** Filters whose predicates agree on the rows keep the same rows. */
  lemma {:induction false} FilterAgree<T(!new)>(xs: seq<T>, p: T -> bool, q: T -> bool)
    requires forall x :: x in xs ==> p(x) == q(x)
    ensures Filter(xs, p) == Filter(xs, q)
  {
    if xs != [] {
      FilterAgree(xs[1..], p, q);
    }
  }

  lemma {:induction false} FilterNone<T(!new)>(xs: seq<T>, p: T -> bool)
    requires forall x :: x in xs ==> !p(x)
    ensures Filter(xs, p) == []
  {
    if xs != [] {
      FilterNone(xs[1..], p);
    }
  }

  // ------------------------------------------------------------------ sums

  /** `df[col].sum()` for the column computed by `f`. */
  function SumBy<T(!new)>(xs: seq<T>, f: T -> int): int {
    if xs == [] then 0 else f(xs[0]) + SumBy(xs[1..], f)
  }

  lemma SumByCons<T(!new)>(x: T, xs: seq<T>, f: T -> int)
    ensures SumBy([x] + xs, f) == f(x) + SumBy(xs, f)
  {
    assert ([x] + xs)[1..] == xs;
  }

  /** The column that makes a sum a row count (`size()`). */
  function One<T(!new)>(x: T): int { 1 }

  lemma {:induction false} SumByOne<T(!new)>(xs: seq<T>)
    ensures SumBy(xs, One) == |xs|
  {
    if xs != [] {
      SumByOne(xs[1..]);
    }
  }

  /** The column that makes a sum a count of the rows satisfying `p`. */
  function Indicator<T(!new)>(p: T -> bool): T -> int {
    x => if p(x) then 1 else 0
  }

  lemma {:induction false} SumIndicator<T(!new)>(xs: seq<T>, p: T -> bool)
    ensures SumBy(xs, Indicator(p)) == |Filter(xs, p)|
  {
    if xs != [] {
      SumIndicator(xs[1..], p);
    }
  }

  // ---------------------------------------------------------------- groups

  function KeyIs<T(!new), K(==)>(key: T -> K, k: K): T -> bool {
    x => key(x) == k
  }

  function KeyIn<T(!new), K(==)>(key: T -> K, ks: seq<K>): T -> bool {
    x => key(x) in ks
  }

  /** The rows of the group with key `k`. */
  function Members<T(!new), K(==)>(xs: seq<T>, key: T -> K, k: K): (r: seq<T>)
    ensures forall x :: x in r <==> x in xs && key(x) == k
  {
    Filter(xs, KeyIs(key, k))
  }

  /** The rows whose key is one of `ks`. */
  function MembersIn<T(!new), K(==)>(xs: seq<T>, key: T -> K, ks: seq<K>): (r: seq<T>)
    ensures forall x :: x in r <==> x in xs && key(x) in ks
  {
    Filter(xs, KeyIn(key, ks))
  }

  function InsertKey<K(==, !new)>(ks: seq<K>, k: K, lt: (K, K) -> bool): (r: seq<K>)
    requires StrictTotalOrder(lt) && Ascending(ks, lt)
    ensures Ascending(r, lt)
    ensures forall x :: x in r <==> x in ks || x == k
  {
    if ks == [] then [k]
    else if k == ks[0] then ks
    else if lt(k, ks[0]) then [k] + ks
    else
      var rest := InsertKey(ks[1..], k, lt);
      assert forall x :: x in rest ==> lt(ks[0], x);
      [ks[0]] + rest
  }

  /** The distinct keys of `xs`, ascending: the index of `groupby(key)`. */
  function SortedKeys<T(!new), K(==, !new)>(xs: seq<T>, key: T -> K, lt: (K, K) -> bool): (r: seq<K>)
    requires StrictTotalOrder(lt)
    ensures Ascending(r, lt)
    ensures forall k :: k in r <==> Members(xs, key, k) != []
  {
    if xs == [] then []
    else
      var rest := SortedKeys(xs[1..], key, lt);
      assert forall k :: Members(xs, key, k) != [] <==> key(xs[0]) == k || Members(xs[1..], key, k) != [] by {
        forall k ensures Members(xs, key, k) != [] <==> key(xs[0]) == k || Members(xs[1..], key, k) != [] {
          var m := Members(xs, key, k);
          if key(xs[0]) == k {
            assert xs[0] in m;
          } else if Members(xs[1..], key, k) != [] {
            var y := Members(xs[1..], key, k)[0];
            assert y in m;
          }
        }
      }
      InsertKey(rest, key(xs[0]), lt)
  }

  /** One aggregated group: its key and `agg` of its rows. */
  datatype Group<K> = Group(key: K, total: int)

  function KeysOf<K>(gs: seq<Group<K>>): (r: seq<K>)
    ensures |r| == |gs| && forall i :: 0 <= i < |gs| ==> r[i] == gs[i].key
  {
    seq(|gs|, i requires 0 <= i < |gs| => gs[i].key)
  }

  function SumTotals<K>(gs: seq<Group<K>>): int {
    if gs == [] then 0 else gs[0].total + SumTotals(gs[1..])
  }

  function GroupsFor<T(!new), K(==)>(xs: seq<T>, key: T -> K, val: T -> int, ks: seq<K>): seq<Group<K>> {
    seq(|ks|, i requires 0 <= i < |ks| => Group(ks[i], SumBy(Members(xs, key, ks[i]), val)))
  }

  /** `groupby(key)[col].agg()`: one group per distinct key, in ascending key
      order, each holding the sum of `val` over its rows. */
  function Aggregate<T(!new), K(==, !new)>(xs: seq<T>, key: T -> K, val: T -> int, lt: (K, K) -> bool): (r: seq<Group<K>>)
    requires StrictTotalOrder(lt)
    ensures Ascending(KeysOf(r), lt)
    ensures forall k :: k in KeysOf(r) <==> Members(xs, key, k) != []
    ensures forall i :: 0 <= i < |r| ==> r[i].total == SumBy(Members(xs, key, r[i].key), val)
  {
    var ks := SortedKeys(xs, key, lt);
    var r := GroupsFor(xs, key, val, ks);
    assert KeysOf(r) == ks;
    r
  }

  lemma {:induction false} SumSplit<T(!new), K>(xs: seq<T>, key: T -> K, val: T -> int, k: K, ks: seq<K>)
    requires k !in ks
    ensures SumBy(MembersIn(xs, key, [k] + ks), val)
         == SumBy(Members(xs, key, k), val) + SumBy(MembersIn(xs, key, ks), val)
  {
    if xs != [] {
      SumSplit(xs[1..], key, val, k, ks);
      var x := xs[0];
      if key(x) == k {
        SumByCons(x, MembersIn(xs[1..], key, [k] + ks), val);
        SumByCons(x, Members(xs[1..], key, k), val);
      } else if key(x) in ks {
        SumByCons(x, MembersIn(xs[1..], key, [k] + ks), val);
        SumByCons(x, MembersIn(xs[1..], key, ks), val);
      }
    }
  }

  lemma {:induction false} SumGroupsFor<T(!new), K>(xs: seq<T>, key: T -> K, val: T -> int, ks: seq<K>)
    requires forall i, j :: 0 <= i < j < |ks| ==> ks[i] != ks[j]
    ensures SumTotals(GroupsFor(xs, key, val, ks)) == SumBy(MembersIn(xs, key, ks), val)
  {
    if ks == [] {
      FilterNone(xs, KeyIn(key, ks));
    } else {
      var gs := GroupsFor(xs, key, val, ks);
      assert gs[1..] == GroupsFor(xs, key, val, ks[1..]);
      assert ks == [ks[0]] + ks[1..];
      SumGroupsFor(xs, key, val, ks[1..]);
      SumSplit(xs, key, val, ks[0], ks[1..]);
    }
  }

  lemma {:induction false} MembersInAll<T(!new), K>(xs: seq<T>, key: T -> K, ks: seq<K>)
    requires forall x :: x in xs ==> key(x) in ks
    ensures MembersIn(xs, key, ks) == xs
  {
    if xs != [] {
      MembersInAll(xs[1..], key, ks);
      assert xs == [xs[0]] + xs[1..];
    }
  }

  /** The groups' aggregates add up to the aggregate of the whole table. */
  lemma AggregateSum<T(!new), K(!new)>(xs: seq<T>, key: T -> K, val: T -> int, lt: (K, K) -> bool)
    requires StrictTotalOrder(lt)
    ensures SumTotals(Aggregate(xs, key, val, lt)) == SumBy(xs, val)
  {
    var ks := SortedKeys(xs, key, lt);
    forall x | x in xs ensures key(x) in ks {
      assert x in Members(xs, key, key(x));
    }
    SumGroupsFor(xs, key, val, ks);
    MembersInAll(xs, key, ks);
  }

  // -------------------------------------------------------- idxmax, sorting

  /** `idxmax()`: the position of the FIRST largest total. */
  function ArgMaxFirst<K>(gs: seq<Group<K>>): (i: nat)
    requires |gs| > 0
    ensures i < |gs|
    ensures forall j :: 0 <= j < |gs| ==> gs[j].total <= gs[i].total
    ensures forall j :: 0 <= j < i ==> gs[j].total < gs[i].total
  {
    if |gs| == 1 then 0
    else
      var k := ArgMaxFirst(gs[1..]) + 1;
      if gs[0].total >= gs[k].total then 0 else k
  }

  ghost predicate NonIncreasing<K>(gs: seq<Group<K>>) {
    forall i, j :: 0 <= i < j < |gs| ==> gs[i].total >= gs[j].total
  }

  predicate DistinctKeys<K(==)>(gs: seq<Group<K>>) {
    forall i, j :: 0 <= i < j < |gs| ==> gs[i].key != gs[j].key
  }

  function InsertByTotal<K(==, !new)>(g: Group<K>, s: seq<Group<K>>): (r: seq<Group<K>>)
    requires NonIncreasing(s)
    ensures |r| == |s| + 1
    ensures forall x :: x in r <==> x == g || x in s
    ensures NonIncreasing(r)
  {
    if s == [] || g.total >= s[0].total then
      [g] + s
    else
      var rest := InsertByTotal(g, s[1..]);
      assert forall x :: x in s[1..] ==> x.total <= s[0].total;
      var r := [s[0]] + rest;
      assert forall j :: 0 < j < |r| ==> r[j] in rest;
      r
  }

  /** Inserting keeps every group exactly once. */
  lemma {:induction false} InsertByTotalPermutes<K(!new)>(g: Group<K>, s: seq<Group<K>>)
    requires NonIncreasing(s)
    ensures multiset(InsertByTotal(g, s)) == multiset(s) + multiset{g}
  {
    if s != [] && g.total < s[0].total {
      var rest := InsertByTotal(g, s[1..]);
      InsertByTotalPermutes(g, s[1..]);
      calc {
        multiset(InsertByTotal(g, s));
        multiset([s[0]] + rest);
        multiset([s[0]]) + multiset(rest);
        multiset([s[0]]) + multiset(s[1..]) + multiset{g};
        { assert s == [s[0]] + s[1..]; }
        multiset(s) + multiset{g};
      }
    }
  }

  lemma {:induction false} InsertByTotalSum<K(!new)>(g: Group<K>, s: seq<Group<K>>)
    requires NonIncreasing(s)
    ensures SumTotals(InsertByTotal(g, s)) == g.total + SumTotals(s)
  {
    var r := InsertByTotal(g, s);
    if s == [] || g.total >= s[0].total {
      assert r[1..] == s;
    } else {
      InsertByTotalSum(g, s[1..]);
      assert r[1..] == InsertByTotal(g, s[1..]);
    }
  }

  lemma {:induction false} InsertByTotalDistinct<K(!new)>(g: Group<K>, s: seq<Group<K>>)
    requires NonIncreasing(s) && DistinctKeys(s)
    requires forall x :: x in s ==> x.key != g.key
    ensures DistinctKeys(InsertByTotal(g, s))
  {
    if s != [] && g.total < s[0].total {
      InsertByTotalDistinct(g, s[1..]);
      var rest := InsertByTotal(g, s[1..]);
      assert forall x :: x in s[1..] ==> x.key != s[0].key;
      assert forall j :: 0 <= j < |rest| ==> rest[j].key != s[0].key;
    }
  }

  /** `sort_values(by=total, ascending=False)`, as a stable insertion sort. */
  function SortByTotalDesc<K(==, !new)>(gs: seq<Group<K>>): (r: seq<Group<K>>)
    ensures |r| == |gs|
    ensures forall x :: x in r <==> x in gs
    ensures NonIncreasing(r)
  {
    if gs == [] then [] else InsertByTotal(gs[0], SortByTotalDesc(gs[1..]))
  }

  /** The sorted groups are a permutation of the groups. */
  lemma {:induction false} SortPermutes<K(!new)>(gs: seq<Group<K>>)
    ensures multiset(SortByTotalDesc(gs)) == multiset(gs)
    ensures SumTotals(SortByTotalDesc(gs)) == SumTotals(gs)
  {
    if gs != [] {
      var rest := SortByTotalDesc(gs[1..]);
      SortPermutes(gs[1..]);
      InsertByTotalPermutes(gs[0], rest);
      InsertByTotalSum(gs[0], rest);
      assert gs == [gs[0]] + gs[1..];
    }
  }

  lemma {:induction false} SortDistinct<K(!new)>(gs: seq<Group<K>>)
    requires DistinctKeys(gs)
    ensures DistinctKeys(SortByTotalDesc(gs))
  {
    if gs != [] {
      var rest := SortByTotalDesc(gs[1..]);
      SortDistinct(gs[1..]);
      assert forall x :: x in gs[1..] ==> x.key != gs[0].key;
      InsertByTotalDistinct(gs[0], rest);
    }
  }

  /** `head(n)`: the first `n` rows; a negative `n` drops the last `-n`. */
  function Head<T(!new)>(s: seq<T>, n: int): (r: seq<T>)
    ensures |r| <= |s| && r == s[..|r|]
    ensures |r| == if n >= 0 then Min(n, |s|) else Max(0, |s| + n)
  {
    if n >= 0 then s[..Min(n, |s|)] else s[..Max(0, |s| + n)]
  }

  /** In a non-increasing sequence, an element outside a prefix is at most
      every element of the prefix. */
  lemma PrefixDominates<K>(s: seq<Group<K>>, m: nat, g: Group<K>)
    requires NonIncreasing(s) && m <= |s| && g in s
    requires forall q :: 0 <= q < m ==> s[q].key != g.key
    ensures forall h :: h in s[..m] ==> g.total <= h.total
  {
    var p :| 0 <= p < |s| && s[p] == g;
    forall h | h in s[..m] ensures g.total <= h.total {
      var q :| 0 <= q < m && s[..m][q] == h;
      assert s[q] == h;
    }
  }

  lemma {:induction false} SumTotalsAppend<K>(a: seq<Group<K>>, b: seq<Group<K>>)
    ensures SumTotals(a + b) == SumTotals(a) + SumTotals(b)
  {
    if a == [] {
      assert a + b == b;
    } else {
      assert (a + b)[1..] == a[1..] + b;
      SumTotalsAppend(a[1..], b);
    }
  }

  lemma {:induction false} SumTotalsNonNegative<K>(gs: seq<Group<K>>)
    requires forall i :: 0 <= i < |gs| ==> gs[i].total >= 0
    ensures SumTotals(gs) >= 0
  {
    if gs != [] {
      SumTotalsNonNegative(gs[1..]);
    }
  }

  /** `groupby(key).size().sort_values(ascending=False).head(n)` (and
      `value_counts().head(n)`): row counts per key, largest first. */
  function TopGroups<T(!new)>(xs: seq<T>, key: T -> int, n: int): seq<Group<int>> {
    Head(SortByTotalDesc(CountsByKey(xs, key)), n)
  }

  /** `groupby(key).size()` for an integer key. */
  function CountsByKey<T(!new)>(xs: seq<T>, key: T -> int): seq<Group<int>> {
    IntLessIsOrder();
    Aggregate(xs, key, One<T>, IntLess)
  }

  /** The number of distinct keys in `xs`. */
  function DistinctKeyCount<T(!new)>(xs: seq<T>, key: T -> int): nat {
    IntLessIsOrder();
    |SortedKeys(xs, key, IntLess)|
  }

  /** The row counts per key, before sorting: distinct keys, each count the
      size of its (non-empty) group. */
  lemma CountGroups<T(!new)>(xs: seq<T>, key: T -> int)
    ensures |CountsByKey(xs, key)| == DistinctKeyCount(xs, key)
    ensures DistinctKeys(CountsByKey(xs, key))
    ensures forall g :: g in CountsByKey(xs, key) ==> g.total == |Members(xs, key, g.key)| > 0
    ensures forall k :: Members(xs, key, k) != [] ==> k in KeysOf(CountsByKey(xs, key))
  {
    IntLessIsOrder();
    var gs := CountsByKey(xs, key);
    assert DistinctKeys(gs) by {
      forall i, j | 0 <= i < j < |gs| ensures gs[i].key != gs[j].key {
        assert IntLess(KeysOf(gs)[i], KeysOf(gs)[j]);
      }
    }
    forall g | g in gs ensures g.total == |Members(xs, key, g.key)| > 0 {
      SumByOne(Members(xs, key, g.key));
      var i :| 0 <= i < |gs| && gs[i] == g;
      assert KeysOf(gs)[i] == g.key;
    }
  }

  /** No key left out of `TopGroups` has a larger count than a listed one. */
  lemma TopGroupsOmitted<T(!new)>(xs: seq<T>, key: T -> int, n: int, k: int)
    requires Members(xs, key, k) != [] && k !in KeysOf(TopGroups(xs, key, n))
    ensures forall g :: g in TopGroups(xs, key, n) ==> |Members(xs, key, k)| <= g.total
  {
    CountGroups(xs, key);
    var gs := CountsByKey(xs, key);
    var s := SortByTotalDesc(gs);
    var r := TopGroups(xs, key, n);
    var m := |r|;
    var i :| 0 <= i < |gs| && KeysOf(gs)[i] == k;
    assert gs[i] in gs;
    assert forall q :: 0 <= q < m ==> s[q].key != k by {
      forall q | 0 <= q < m ensures s[q].key != k {
        assert KeysOf(r)[q] == r[q].key;
      }
    }
    PrefixDominates(s, m, gs[i]);
  }

  /** The counts sorted largest first: one per distinct key, distinct
      keys, non-increasing, each its group's size, adding up to the number
      of rows. */
  lemma SortedCounts<T(!new)>(xs: seq<T>, key: T -> int)
    ensures var s := SortByTotalDesc(CountsByKey(xs, key));
            && |s| == DistinctKeyCount(xs, key)
            && NonIncreasing(s)
            && DistinctKeys(s)
            && (forall g :: g in s ==> g.total == |Members(xs, key, g.key)| > 0)
            && SumTotals(s) == |xs|
  {
    IntLessIsOrder();
    CountGroups(xs, key);
    var gs := CountsByKey(xs, key);
    SortDistinct(gs);
    SortPermutes(gs);
    AggregateSum(xs, key, One<T>, IntLess);
    SumByOne(xs);
  }

  /** With non-negative totals a prefix sums to at most the whole. */
  lemma PrefixSum<K>(s: seq<Group<K>>, m: nat)
    requires m <= |s| && forall i :: 0 <= i < |s| ==> s[i].total >= 0
    ensures SumTotals(s[..m]) <= SumTotals(s)
  {
    assert s == s[..m] + s[m..];
    SumTotalsAppend(s[..m], s[m..]);
    assert forall i :: 0 <= i < |s[m..]| ==> s[m..][i] == s[m + i];
    SumTotalsNonNegative(s[m..]);
  }

  /** The listed counts add up to at most the number of rows, and to all of
      them when no key is cut off. */
  lemma TopGroupsSum<T(!new)>(xs: seq<T>, key: T -> int, n: int)
    ensures SumTotals(TopGroups(xs, key, n)) <= |xs|
    ensures n >= DistinctKeyCount(xs, key) ==> SumTotals(TopGroups(xs, key, n)) == |xs|
  {
    var s := SortByTotalDesc(CountsByKey(xs, key));
    SortedCounts(xs, key);
    var r := TopGroups(xs, key, n);
    var m := |r|;
    assert forall i :: 0 <= i < |s| ==> s[i] in s;
    PrefixSum(s, m);
    if n >= DistinctKeyCount(xs, key) {
      assert r == s;
    }
  }

  /** The head of the sorted counts: `head(n)`'s length, non-increasing,
      distinct keys, each count its group's size. */
  lemma TopGroupsShape<T(!new)>(xs: seq<T>, key: T -> int, n: int)
    ensures |TopGroups(xs, key, n)|
         == if n >= 0 then Min(n, DistinctKeyCount(xs, key)) else Max(0, DistinctKeyCount(xs, key) + n)
    ensures NonIncreasing(TopGroups(xs, key, n)) && DistinctKeys(TopGroups(xs, key, n))
    ensures forall g :: g in TopGroups(xs, key, n) ==> g.total == |Members(xs, key, g.key)| > 0
  {
    var s := SortByTotalDesc(CountsByKey(xs, key));
    SortedCounts(xs, key);
    PrefixKeeps(s, TopGroups(xs, key, n));
  }

  /** A prefix keeps order, distinct keys and membership. */
  lemma PrefixKeeps<K>(s: seq<Group<K>>, r: seq<Group<K>>)
    requires |r| <= |s| && r == s[..|r|]
    ensures NonIncreasing(s) ==> NonIncreasing(r)
    ensures DistinctKeys(s) ==> DistinctKeys(r)
    ensures forall g :: g in r ==> g in s
  {
    assert forall i :: 0 <= i < |r| ==> r[i] == s[i];
  }

  /** `TopGroups` is a true top-`n`: as many entries as `head(n)` keeps,
      distinct keys, counts non-increasing and equal to the group sizes, no
      omitted key with a larger count, and the listed counts add up to at
      most the number of rows. */
  lemma TopGroupsSpec<T(!new)>(xs: seq<T>, key: T -> int, n: int)
    ensures |TopGroups(xs, key, n)|
         == if n >= 0 then Min(n, DistinctKeyCount(xs, key)) else Max(0, DistinctKeyCount(xs, key) + n)
    ensures NonIncreasing(TopGroups(xs, key, n)) && DistinctKeys(TopGroups(xs, key, n))
    ensures forall g :: g in TopGroups(xs, key, n) ==> g.total == |Members(xs, key, g.key)| > 0
    ensures forall k :: Members(xs, key, k) != [] && k !in KeysOf(TopGroups(xs, key, n)) ==>
              forall g :: g in TopGroups(xs, key, n) ==> |Members(xs, key, k)| <= g.total
    ensures SumTotals(TopGroups(xs, key, n)) <= |xs|
    ensures n >= DistinctKeyCount(xs, key) ==> SumTotals(TopGroups(xs, key, n)) == |xs|
  {
    TopGroupsShape(xs, key, n);
    forall k | Members(xs, key, k) != [] && k !in KeysOf(TopGroups(xs, key, n))
      ensures forall g :: g in TopGroups(xs, key, n) ==> |Members(xs, key, k)| <= g.total
    {
      TopGroupsOmitted(xs, key, n, k);
    }
    TopGroupsSum(xs, key, n);
  }
}
