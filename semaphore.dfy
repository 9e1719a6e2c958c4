/** The budget traffic light ("semáforo"): the month's expenses grouped by
    category, left-joined onto the budgets table with missing categories read
    as zero, the rows with a positive limit ordered by spent/limit from the
    highest down, and for each row a progress value and an "exceeded" alert.
 */
module Semaphore {
  import opened Records
  import opened Monthly

  /** The month's expenses grouped by category, each with its summed amount. */
  function SpentBy(expenses: seq<Movement>): (g: map<string, real>)
    ensures forall c :: c in g <==> exists x :: x in expenses && x.category == c
  {
    if expenses == [] then map[]
    else
      var g := SpentBy(expenses[1..]);
      var c := expenses[0].category;
      g[c := expenses[0].amount + (if c in g then g[c] else 0.0)]
  }

  /** The amount a category has spent, zero when it has no expense at all. */
  function SpentOn(g: map<string, real>, category: string): real {
    if category in g then g[category] else 0.0
  }

  /** Grouping agrees with summing the movements of each category directly,
      and a category without movements reads as zero. */
  lemma {:induction false} SpentByIsCategoryTotal(expenses: seq<Movement>, category: string)
    ensures SpentOn(SpentBy(expenses), category) == Total(OfCategory(expenses, category))
  {
    if expenses != [] {
      SpentByIsCategoryTotal(expenses[1..], category);
      TotalConcat(if expenses[0].category == category then [expenses[0]] else [],
                  OfCategory(expenses[1..], category));
    }
  }

  /** One row of the left join of the budgets table with the grouped expenses. */
  datatype Joined = Joined(category: string, limit: real, spent: real)

  /** The left join on category, in budgets-table order, with a missing
      category filled with zero. */
  function LeftJoin(bs: seq<Budget>, g: map<string, real>): seq<Joined> {
    seq(|bs|, i requires 0 <= i < |bs| => Joined(bs[i].category, bs[i].limit, SpentOn(g, bs[i].category)))
  }

  /** The month's expense total for one category. */
  function CategorySpend(ms: seq<Movement>, category: string, year: int, month: int): real {
    Total(OfCategory(OfKind(MonthOf(ms, year, month), ExpenseKind), category))
  }

  /** Grouping agrees with the direct category totals for every category. */
  lemma SpentByAgrees(expenses: seq<Movement>)
    ensures forall c :: SpentOn(SpentBy(expenses), c) == Total(OfCategory(expenses, c))
  {
    forall c ensures SpentOn(SpentBy(expenses), c) == Total(OfCategory(expenses, c)) {
      SpentByIsCategoryTotal(expenses, c);
    }
  }

  /** The join of the month's grouped expenses onto the budgets table: one row
      per budget row, in order, keeping its category and limit and carrying
      exactly what that category spent on expenses in the month (zero if
      nothing). */
  function MonthJoin(ms: seq<Movement>, bs: seq<Budget>, year: int, month: int): (r: seq<Joined>)
    ensures |r| == |bs|
    ensures forall i :: 0 <= i < |bs| ==>
      r[i] == Joined(bs[i].category, bs[i].limit, CategorySpend(ms, bs[i].category, year, month))
  {
    SpentByAgrees(OfKind(MonthOf(ms, year, month), ExpenseKind));
    LeftJoin(bs, SpentBy(OfKind(MonthOf(ms, year, month), ExpenseKind)))
  }

  /** The "Pct" column: spent over limit, for a positive limit. It is above
      1 exactly when spending exceeds the limit, and not negative when
      spending is not. */
  function Ratio(j: Joined): (r: real)
    requires j.limit > 0.0
    ensures r * j.limit == j.spent
    ensures r > 1.0 <==> j.spent > j.limit
    ensures j.spent >= 0.0 ==> r >= 0.0
  {
    var r := j.spent / j.limit;
    assert r * j.limit == j.spent;
    r
  }

  /** The rows with a positive limit, in join order; the others are never
      shown. Each positive-limit row keeps its multiplicity. */
  function Shown(js: seq<Joined>): (r: seq<Joined>)
    ensures AllPositive(r)
    ensures forall x :: multiset(r)[x] == if x.limit > 0.0 then multiset(js)[x] else 0
  {
    if js == [] then []
    else
      assert js == [js[0]] + js[1..];
      (if js[0].limit > 0.0 then [js[0]] else []) + Shown(js[1..])
  }

  /** Every row has a positive limit, so its ratio is defined. */
  predicate AllPositive(js: seq<Joined>) {
    forall k :: 0 <= k < |js| ==> js[k].limit > 0.0
  }

  /** Ordered from the highest spent/limit ratio down. */
  predicate Descending(js: seq<Joined>)
    requires AllPositive(js)
  {
    forall i, j :: 0 <= i < j < |js| ==> Ratio(js[j]) <= Ratio(js[i])
  }

  function InsertByRatio(x: Joined, js: seq<Joined>): (r: seq<Joined>)
    requires x.limit > 0.0 && AllPositive(js) && Descending(js)
    ensures AllPositive(r) && Descending(r)
    ensures multiset(r) == multiset(js) + multiset{x}
  {
    if js == [] then [x]
    else if Ratio(js[0]) <= Ratio(x) then [x] + js
    else
      var rest := InsertByRatio(x, js[1..]);
      assert js == [js[0]] + js[1..];
      HeadBoundsInsert(x, js, rest);
      [js[0]] + rest
  }

  /** A head above both `x` and a descending tail stays above whatever
      inserting `x` into that tail gives. */
  lemma HeadBoundsInsert(x: Joined, js: seq<Joined>, rest: seq<Joined>)
    requires x.limit > 0.0 && js != [] && AllPositive(js) && Descending(js)
    requires AllPositive(rest) && Descending(rest)
    requires Ratio(x) < Ratio(js[0])
    requires multiset(rest) == multiset(js[1..]) + multiset{x}
    ensures AllPositive([js[0]] + rest) && Descending([js[0]] + rest)
  {
    forall y | y in rest ensures y.limit > 0.0 && Ratio(y) <= Ratio(js[0]) {
      assert y in multiset(rest);
      if y != x {
        assert y in multiset(js[1..]);
        var k :| 0 <= k < |js[1..]| && js[1..][k] == y;
        assert js[k + 1] == y;
      }
    }
    var r := [js[0]] + rest;
    assert AllPositive(r) by {
      forall k | 0 <= k < |r| ensures r[k].limit > 0.0 {
        if k > 0 { assert r[k] == rest[k - 1]; }
      }
    }
    forall i, j | 0 <= i < j < |r| ensures Ratio(r[j]) <= Ratio(r[i]) {
      if i == 0 {
        assert r[j] in rest;
      } else {
        assert r[i] == rest[i - 1] && r[j] == rest[j - 1];
      }
    }
  }

  /** The shown rows sorted by descending ratio (insertion sort). */
  function SortByRatio(js: seq<Joined>): (r: seq<Joined>)
    requires AllPositive(js)
    ensures AllPositive(r) && Descending(r)
    ensures multiset(r) == multiset(js)
  {
    if js == [] then []
    else
      assert js == [js[0]] + js[1..];
      InsertByRatio(js[0], SortByRatio(js[1..]))
  }

  /** What one traffic-light row displays: the progress bar's value and, when
      the budget is exceeded, the overage. */
  datatype Light = Light(row: Joined, progress: real, overage: Option<real>)

  /** The status of one row with a positive limit: progress is the ratio
      capped at 1, and the exceeded alert is raised when the ratio is above 1. */
  function Status(j: Joined): (l: Light)
    requires j.limit > 0.0
    ensures l.row == j
    ensures l.progress <= 1.0
    ensures j.spent >= 0.0 ==> 0.0 <= l.progress
    ensures l.progress == 1.0 <==> j.spent >= j.limit
    ensures l.progress < 1.0 ==> l.progress * j.limit == j.spent
    ensures l.overage.Some? <==> j.spent > j.limit
    ensures l.overage.Some? ==> l.overage.value == j.spent - j.limit && l.overage.value > 0.0
  {
    var ratio := j.spent / j.limit;
    assert ratio * j.limit == j.spent;
    assert ratio > 1.0 <==> j.spent > j.limit;
    assert ratio >= 1.0 <==> j.spent >= j.limit;
    Light(j, if ratio < 1.0 then ratio else 1.0, if ratio > 1.0 then Some(j.spent - j.limit) else None)
  }

  function Statuses(js: seq<Joined>): seq<Light>
    requires AllPositive(js)
  {
    seq(|js|, k requires 0 <= k < |js| => Status(js[k]))
  }

  /** The worked example: a 1000 limit on "Supermercado" against 1500 spent
      gives a ratio of 1.5, a full bar and an overage of 500. */
  lemma OverBudgetExample()
    ensures Ratio(Joined("Supermercado", 1000.0, 1500.0)) == 1.5
    ensures Status(Joined("Supermercado", 1000.0, 1500.0)).progress == 1.0
    ensures Status(Joined("Supermercado", 1000.0, 1500.0)).overage == Some(500.0)
  {
  }

  /** The traffic light for a month: nothing when there are no budgets or no
      movement at all in the month; otherwise one light per budget row with a
      positive limit, highest ratio first. */
  function TrafficLight(ms: seq<Movement>, bs: seq<Budget>, year: int, month: int): (r: seq<Light>)
    ensures bs == [] || MonthOf(ms, year, month) == [] ==> r == []
  {
    if bs == [] || MonthOf(ms, year, month) == [] then []
    else Statuses(SortByRatio(Shown(MonthJoin(ms, bs, year, month))))
  }

  /** The rows a traffic light shows, without their display values. */
  function Rows(ls: seq<Light>): seq<Joined> {
    seq(|ls|, k requires 0 <= k < |ls| => ls[k].row)
  }

  /** A budget category with no expense in the month is joined with zero. */
  lemma NoExpenseSpendsZero(ms: seq<Movement>, category: string, year: int, month: int)
    requires forall x :: x in ms && InMonth(x, year, month) && x.kind == ExpenseKind ==> x.category != category
    ensures CategorySpend(ms, category, year, month) == 0.0
  {
  }

  /** What the traffic light shows for a month with budgets and movements:
      exactly the joined rows of positive limit (each as often as it occurs),
      in non-increasing order of spent/limit, each row with the status of
      `Status`, and each row's spent amount being its category's expense
      total for the month. */
  lemma TrafficLightSpec(ms: seq<Movement>, bs: seq<Budget>, year: int, month: int)
    requires bs != [] && MonthOf(ms, year, month) != []
    ensures var rows := Rows(TrafficLight(ms, bs, year, month));
      && AllPositive(rows)
      && Descending(rows)
      && (forall x :: multiset(rows)[x] == if x.limit > 0.0 then multiset(MonthJoin(ms, bs, year, month))[x] else 0)
      && (forall k :: 0 <= k < |rows| ==> TrafficLight(ms, bs, year, month)[k] == Status(rows[k]))
      && (forall k :: 0 <= k < |rows| ==> rows[k].spent == CategorySpend(ms, rows[k].category, year, month))
  {
    var joined := MonthJoin(ms, bs, year, month);
    var rows := Rows(TrafficLight(ms, bs, year, month));
    LightsAreSortedRows(ms, bs, year, month);
    assert rows == SortByRatio(Shown(joined));
    forall k | 0 <= k < |rows|
      ensures rows[k].spent == CategorySpend(ms, rows[k].category, year, month)
    {
      assert multiset(rows)[rows[k]] > 0;
      JoinedRowSpend(ms, bs, year, month, rows[k]);
    }
  }

  /** The lights are the statuses of the sorted shown rows. */
  lemma LightsAreSortedRows(ms: seq<Movement>, bs: seq<Budget>, year: int, month: int)
    requires bs != [] && MonthOf(ms, year, month) != []
    ensures var sorted := SortByRatio(Shown(MonthJoin(ms, bs, year, month)));
      && Rows(TrafficLight(ms, bs, year, month)) == sorted
      && (forall k :: 0 <= k < |sorted| ==> TrafficLight(ms, bs, year, month)[k] == Status(sorted[k]))
  {
    var sorted := SortByRatio(Shown(MonthJoin(ms, bs, year, month)));
    assert TrafficLight(ms, bs, year, month) == Statuses(sorted);
    StatusesKeepRows(sorted);
  }

  lemma StatusesKeepRows(js: seq<Joined>)
    requires AllPositive(js)
    ensures Rows(Statuses(js)) == js
    ensures forall k :: 0 <= k < |js| ==> Statuses(js)[k] == Status(js[k])
  {
    var rows := Rows(Statuses(js));
    assert |rows| == |js|;
    forall k | 0 <= k < |js| ensures rows[k] == js[k] {
      assert Statuses(js)[k] == Status(js[k]);
    }
  }

  /** A row of the join carries its category's expense total for the month. */
  lemma JoinedRowSpend(ms: seq<Movement>, bs: seq<Budget>, year: int, month: int, row: Joined)
    requires row in MonthJoin(ms, bs, year, month)
    ensures row.spent == CategorySpend(ms, row.category, year, month)
  {
    var joined := MonthJoin(ms, bs, year, month);
    var i :| 0 <= i < |joined| && joined[i] == row;
  }
}
