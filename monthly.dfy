/** The dashboard's monthly totals: the movements of one calendar month, the
    income and expense sums over them, and the balance.
 */
module Monthly {
  import opened Records

  /** A movement counts toward a month when its year and month match; the day
      is ignored. */
  predicate InMonth(m: Movement, year: int, month: int) {
    m.date.year == year && m.date.month == month
  }

  /** The movements of one month, in stored order. */
  function MonthOf(ms: seq<Movement>, year: int, month: int): (r: seq<Movement>)
    ensures |r| <= |ms|
    ensures forall x :: x in r <==> x in ms && InMonth(x, year, month)
    ensures forall x :: multiset(r)[x] == if InMonth(x, year, month) then multiset(ms)[x] else 0
  {
    if ms == [] then []
    else
      assert ms == [ms[0]] + ms[1..];
      (if InMonth(ms[0], year, month) then [ms[0]] else []) + MonthOf(ms[1..], year, month)
  }

  /** The movements whose type column reads `kind`, in stored order. */
  function OfKind(ms: seq<Movement>, kind: string): (r: seq<Movement>)
    ensures |r| <= |ms|
    ensures forall x :: x in r <==> x in ms && x.kind == kind
    ensures forall x :: multiset(r)[x] == if x.kind == kind then multiset(ms)[x] else 0
  {
    if ms == [] then []
    else
      assert ms == [ms[0]] + ms[1..];
      (if ms[0].kind == kind then [ms[0]] else []) + OfKind(ms[1..], kind)
  }

  /** The movements filed under `category`, in stored order. */
  function OfCategory(ms: seq<Movement>, category: string): (r: seq<Movement>)
    ensures |r| <= |ms|
    ensures forall x :: x in r <==> x in ms && x.category == category
    ensures forall x :: multiset(r)[x] == if x.category == category then multiset(ms)[x] else 0
  {
    if ms == [] then []
    else
      assert ms == [ms[0]] + ms[1..];
      (if ms[0].category == category then [ms[0]] else []) + OfCategory(ms[1..], category)
  }

  /** The sum of the amount column. */
  function Total(ms: seq<Movement>): real {
    if ms == [] then 0.0 else ms[0].amount + Total(ms[1..])
  }

  /** The month's income total: the amounts of the month's "Ingreso" rows.
      It equals the one-pass sum of every row's income contribution. */
  function IncomeTotal(ms: seq<Movement>, year: int, month: int): (r: real)
    ensures r == Flow(ms, IncomeKind, year, month)
  {
    FilteredTotalIsFlow(ms, IncomeKind, year, month);
    Total(OfKind(MonthOf(ms, year, month), IncomeKind))
  }

  /** The month's expense total: the amounts of the month's "Gasto" rows.
      It equals the one-pass sum of every row's expense contribution. */
  function ExpenseTotal(ms: seq<Movement>, year: int, month: int): (r: real)
    ensures r == Flow(ms, ExpenseKind, year, month)
  {
    FilteredTotalIsFlow(ms, ExpenseKind, year, month);
    Total(OfKind(MonthOf(ms, year, month), ExpenseKind))
  }

  /** The balance, income minus expenses. It equals the signed sum of the
      month's movements: income counts positively, expenses negatively, any
      other type and any other month not at all. */
  function Balance(ms: seq<Movement>, year: int, month: int): (r: real)
    ensures r == NetFlow(ms, year, month)
  {
    NetFlowSplits(ms, year, month);
    IncomeTotal(ms, year, month) - ExpenseTotal(ms, year, month)
  }

  /** What one movement adds to the month's balance: its amount for income,
      minus its amount for an expense, nothing for any other type or month. */
  function Signed(m: Movement, year: int, month: int): real {
    if !InMonth(m, year, month) then 0.0
    else if m.kind == IncomeKind then m.amount
    else if m.kind == ExpenseKind then -m.amount
    else 0.0
  }

  /** An independent definition of the balance: the signed amounts of all
      movements, summed in one pass. */
  function NetFlow(ms: seq<Movement>, year: int, month: int): real {
    if ms == [] then 0.0 else Signed(ms[0], year, month) + NetFlow(ms[1..], year, month)
  }

  /** What one movement adds to the month's income total, or to its expense
      total when `kind` is the expense type. */
  function Contribution(m: Movement, kind: string, year: int, month: int): real {
    if InMonth(m, year, month) && m.kind == kind then m.amount else 0.0
  }

  /** A reference for a monthly total: every row's contribution, summed in
      one pass without filtering. */
  function Flow(ms: seq<Movement>, kind: string, year: int, month: int): real {
    if ms == [] then 0.0 else Contribution(ms[0], kind, year, month) + Flow(ms[1..], kind, year, month)
  }

  lemma {:induction false} FilteredTotalIsFlow(ms: seq<Movement>, kind: string, year: int, month: int)
    ensures Total(OfKind(MonthOf(ms, year, month), kind)) == Flow(ms, kind, year, month)
  {
    if ms != [] {
      FilteredTotalIsFlow(ms[1..], kind, year, month);
      var head := if InMonth(ms[0], year, month) then [ms[0]] else [];
      OfKindConcat(head, MonthOf(ms[1..], year, month), kind);
      TotalConcat(OfKind(head, kind), OfKind(MonthOf(ms[1..], year, month), kind));
    }
  }

  /** The signed sum splits into the income flow minus the expense flow. */
  lemma {:induction false} NetFlowSplits(ms: seq<Movement>, year: int, month: int)
    ensures NetFlow(ms, year, month) == Flow(ms, IncomeKind, year, month) - Flow(ms, ExpenseKind, year, month)
  {
    if ms != [] {
      NetFlowSplits(ms[1..], year, month);
    }
  }

  lemma {:induction false} TotalConcat(a: seq<Movement>, b: seq<Movement>)
    ensures Total(a + b) == Total(a) + Total(b)
  {
    if a == [] {
      assert a + b == b;
    } else {
      assert (a + b)[1..] == a[1..] + b;
      TotalConcat(a[1..], b);
    }
  }

  lemma {:induction false} OfKindConcat(a: seq<Movement>, b: seq<Movement>, kind: string)
    ensures OfKind(a + b, kind) == OfKind(a, kind) + OfKind(b, kind)
  {
    if a == [] {
      assert a + b == b;
    } else {
      assert (a + b)[1..] == a[1..] + b;
      OfKindConcat(a[1..], b, kind);
    }
  }

  lemma {:induction false} FlowConcat(a: seq<Movement>, b: seq<Movement>, kind: string, year: int, month: int)
    ensures Flow(a + b, kind, year, month) == Flow(a, kind, year, month) + Flow(b, kind, year, month)
  {
    if a == [] {
      assert a + b == b;
    } else {
      assert (a + b)[1..] == a[1..] + b;
      FlowConcat(a[1..], b, kind, year, month);
    }
  }

  /** Appending a movement changes the month's income and expense totals by
      exactly that movement's contribution, and nothing when it falls in
      another month. */
  lemma AppendEffect(ms: seq<Movement>, x: Movement, year: int, month: int)
    ensures IncomeTotal(ms + [x], year, month) == IncomeTotal(ms, year, month) + Contribution(x, IncomeKind, year, month)
    ensures ExpenseTotal(ms + [x], year, month) == ExpenseTotal(ms, year, month) + Contribution(x, ExpenseKind, year, month)
    ensures Balance(ms + [x], year, month) == Balance(ms, year, month) + Signed(x, year, month)
  {
    FlowConcat(ms, [x], IncomeKind, year, month);
    FlowConcat(ms, [x], ExpenseKind, year, month);
    assert [x][1..] == [];
  }

  /** A movement outside the selected month, wherever it sits in the table,
      never contributes to the month's totals. */
  lemma OutsideMonthIgnored(a: seq<Movement>, x: Movement, b: seq<Movement>, year: int, month: int)
    requires !InMonth(x, year, month)
    ensures IncomeTotal(a + [x] + b, year, month) == IncomeTotal(a + b, year, month)
    ensures ExpenseTotal(a + [x] + b, year, month) == ExpenseTotal(a + b, year, month)
  {
    assert [x][1..] == [];
    FlowConcat(a + [x], b, IncomeKind, year, month);
    FlowConcat(a, [x], IncomeKind, year, month);
    FlowConcat(a, b, IncomeKind, year, month);
    FlowConcat(a + [x], b, ExpenseKind, year, month);
    FlowConcat(a, [x], ExpenseKind, year, month);
    FlowConcat(a, b, ExpenseKind, year, month);
  }

  /** When no stored amount is negative (as the entry form guarantees for the
      rows it adds), neither monthly total is negative. */
  lemma {:induction false} TotalNonNegative(ms: seq<Movement>)
    requires forall i :: 0 <= i < |ms| ==> ms[i].amount >= 0.0
    ensures Total(ms) >= 0.0
  {
    if ms != [] {
      TotalNonNegative(ms[1..]);
    }
  }

  lemma TotalsNonNegative(ms: seq<Movement>, year: int, month: int)
    requires forall i :: 0 <= i < |ms| ==> ms[i].amount >= 0.0
    ensures IncomeTotal(ms, year, month) >= 0.0 && ExpenseTotal(ms, year, month) >= 0.0
  {
    var inc := OfKind(MonthOf(ms, year, month), IncomeKind);
    var exp := OfKind(MonthOf(ms, year, month), ExpenseKind);
    forall i | 0 <= i < |inc| ensures inc[i].amount >= 0.0 {
      assert inc[i] in inc;
    }
    forall i | 0 <= i < |exp| ensures exp[i].amount >= 0.0 {
      assert exp[i] in exp;
    }
    TotalNonNegative(inc);
    TotalNonNegative(exp);
  }

  /** The worked example: one expense of 500 and one salary of 20000 in
      January 2026 give income 20000, expenses 500 and balance 19500. */
  lemma JanuaryExample()
    ensures var ms := [Movement(Date(2026, 1, 5), ExpenseKind, "Supermercado", "", 500.0),
                       Movement(Date(2026, 1, 10), IncomeKind, "Nómina (UNAM)", "", 20000.0)];
            IncomeTotal(ms, 2026, 1) == 20000.0 && ExpenseTotal(ms, 2026, 1) == 500.0
            && Balance(ms, 2026, 1) == 19500.0
  {
    var a := Movement(Date(2026, 1, 5), ExpenseKind, "Supermercado", "", 500.0);
    var b := Movement(Date(2026, 1, 10), IncomeKind, "Nómina (UNAM)", "", 20000.0);
    AppendEffect([a], b, 2026, 1);
    AppendEffect([], a, 2026, 1);
    assert [] + [a] == [a];
  }
}
