/** The summary page: monthly sums of revenue and of expenses, the monthly
    cash flow joining the two, the headline totals and the colouring of
    the net gross cells by sign. */
module Summary {
  import opened Results
  import opened Tables
  import opened Calendar
  import opened Receipts
  import opened Stats

  /** One expense row: its date and its total cost in centavos. */
  datatype Expense = Expense(date: CalendarDate, totalCost: int)

  function TotalCost(e: Expense): int {
    e.totalCost
  }

  function RevenueMonth(r: Receipt): int {
    MonthIndex(r.timestamp.date)
  }

  function ExpenseMonth(e: Expense): int {
    MonthIndex(e.date)
  }

  /** A date truncated to its month: the first day of that month. */
  function TruncateMonth(d: CalendarDate): (m: CalendarDate)
    ensures m.day == 1 && MonthIndex(m) == MonthIndex(d)
  {
    Date(d.year, d.month, 1)
  }

  /** Two dates truncate to the same month exactly when their month
      indices agree, so grouping by month index groups by truncated
      month. */
  lemma TruncateMonthKey(a: CalendarDate, b: CalendarDate)
    ensures TruncateMonth(a) == TruncateMonth(b) <==> MonthIndex(a) == MonthIndex(b)
  {
  }

  /** A month and the sum of a column over its rows. */
  datatype MonthTotal = MonthTotal(month: int, total: int)

  function Total(m: MonthTotal): int {
    m.total
  }

  function MonthOf(m: MonthTotal): int {
    m.month
  }

  /** Some row falls in month `m`. */
  ghost predicate HasMonth<T>(rows: seq<T>, month: T -> int, m: int) {
    exists x :: x in rows && month(x) == m
  }

  /** The months of the rows, ascending. */
  function MonthKeys<T>(rows: seq<T>, month: T -> int): (ms: seq<int>)
    ensures StrictlyIncreasing(ms)
    ensures forall m :: m in ms <==> HasMonth(rows, month, m)
  {
    var col := Column(rows, month);
    forall m | HasMonth(rows, month, m) ensures m in col {
      var x :| x in rows && month(x) == m;
      var k :| 0 <= k < |rows| && rows[k] == x;
      assert col[k] == m;
    }
    AscendingDistinct(col)
  }

  /** The sum of `value` over the rows of each month in `ms`. */
  function MonthTotals<T>(rows: seq<T>, month: T -> int, value: T -> int, ms: seq<int>): (r: seq<MonthTotal>)
    ensures |r| == |ms|
    ensures forall i :: 0 <= i < |ms| ==> r[i].month == ms[i]
  {
    if ms == [] then []
    else [MonthTotal(ms[0], SumWhereKey(rows, month, value, ms[0]))] + MonthTotals(rows, month, value, ms[1..])
  }

  lemma {:induction false} MonthTotalsCells<T>(rows: seq<T>, month: T -> int, value: T -> int, ms: seq<int>)
    ensures forall i :: 0 <= i < |ms| ==>
      MonthTotals(rows, month, value, ms)[i].total == SumWhereKey(rows, month, value, ms[i])
    ensures Sum(MonthTotals(rows, month, value, ms), Total) == SumPerKey(rows, month, value, ms)
  {
    if ms != [] {
      MonthTotalsCells(rows, month, value, ms[1..]);
    }
  }

  /** The monthly sums of a column: one row per month with a row, months
      ascending. */
  function MonthlySums<T>(rows: seq<T>, month: T -> int, value: T -> int): (sums: seq<MonthTotal>)
    ensures |sums| == |MonthKeys(rows, month)|
    ensures forall i :: 0 <= i < |sums| ==> sums[i].month == MonthKeys(rows, month)[i]
  {
    MonthTotals(rows, month, value, MonthKeys(rows, month))
  }

  /** The monthly sums have one row per month that occurs, in strictly
      ascending month order, each holding the sum over the rows of its
      month. */
  lemma MonthlySumsRows<T>(rows: seq<T>, month: T -> int, value: T -> int)
    ensures StrictlyIncreasing(Column(MonthlySums(rows, month, value), MonthOf))
    ensures forall m :: m in Column(MonthlySums(rows, month, value), MonthOf) <==> HasMonth(rows, month, m)
    ensures forall i :: 0 <= i < |MonthlySums(rows, month, value)| ==>
      MonthlySums(rows, month, value)[i].total == SumWhereKey(rows, month, value, MonthlySums(rows, month, value)[i].month)
  {
    var ms := MonthKeys(rows, month);
    var sums := MonthlySums(rows, month, value);
    MonthTotalsCells(rows, month, value, ms);
    assert Column(sums, MonthOf) == ms;
  }

  /** The monthly sums add up to the column total: grouping by month
      loses no row and counts none twice. */
  lemma MonthlySumsTotal<T>(rows: seq<T>, month: T -> int, value: T -> int)
    ensures Sum(MonthlySums(rows, month, value), Total) == Sum(rows, value)
  {
    var ms := MonthKeys(rows, month);
    MonthTotalsCells(rows, month, value, ms);
    StrictlyIncreasingNoDuplicates(ms);
    forall x | x in rows ensures month(x) in ms {
    }
    SumPerKeyTotal(rows, month, value, ms);
  }

  /** Why `sort_by_month` gives no table: the mean and the median are
      floating-point aggregates, and any other metric leaves the result
      unbound. */
  datatype MetricError = FloatingPointMetric(metric: string) | UnknownMetric(metric: string)

  /** `sort_by_month`: the monthly sums for the metric "sum". */
  function SortByMonth<T>(rows: seq<T>, month: T -> int, value: T -> int, metric: string): (r: Result<seq<MonthTotal>, MetricError>)
    ensures r.Success? <==> metric == "sum"
    ensures r.Failure? && r.error.FloatingPointMetric? <==> metric == "mean" || metric == "median"
    ensures r.Success? ==> r.value == MonthlySums(rows, month, value)
  {
    if metric == "sum" then Success(MonthlySums(rows, month, value))
    else if metric == "mean" || metric == "median" then Failure(FloatingPointMetric(metric))
    else Failure(UnknownMetric(metric))
  }

  /** The monthly revenue (gross sales summed per month of timestamp). */
  function MonthlyRevenue(rs: seq<Receipt>): seq<MonthTotal> {
    MonthlySums(rs, RevenueMonth, GrossSales)
  }

  /** The monthly expenses (total cost summed per month of date). */
  function MonthlyExpense(es: seq<Expense>): seq<MonthTotal> {
    MonthlySums(es, ExpenseMonth, TotalCost)
  }

  /** One month of the cash flow table. */
  datatype CashFlowRow = CashFlowRow(month: int, grossSales: int, totalCost: int, totalCostNeg: int, netGrossAmt: int)

  function NetGross(r: CashFlowRow): int {
    r.netGrossAmt
  }

  /** A revenue month joined with an expense month. */
  function Combine(revenue: MonthTotal, expense: MonthTotal): (row: CashFlowRow)
    ensures row.netGrossAmt == row.grossSales - row.totalCost
    ensures row.totalCostNeg == -row.totalCost
    ensures row.grossSales == revenue.total && row.totalCost == expense.total
  {
    CashFlowRow(revenue.month, revenue.total, expense.total, -expense.total, revenue.total - expense.total)
  }

  /** The rows joining one revenue month with the expense months of the
      same month. */
  function JoinMonth(revenue: MonthTotal, expense: seq<MonthTotal>): seq<CashFlowRow> {
    if expense == [] then []
    else
      (if expense[0].month == revenue.month then [Combine(revenue, expense[0])] else [])
      + JoinMonth(revenue, expense[1..])
  }

  /** The cash flow table: monthly revenue inner-joined with monthly
      expenses on the month. */
  function CashFlow(revenue: seq<MonthTotal>, expense: seq<MonthTotal>): seq<CashFlowRow> {
    if revenue == [] then [] else JoinMonth(revenue[0], expense) + CashFlow(revenue[1..], expense)
  }

  lemma {:induction false} JoinMonthRows(revenue: MonthTotal, expense: seq<MonthTotal>)
    ensures forall row :: row in JoinMonth(revenue, expense) <==>
      exists b :: b in expense && b.month == revenue.month && row == Combine(revenue, b)
  {
    if expense != [] {
      JoinMonthRows(revenue, expense[1..]);
      assert expense == [expense[0]] + expense[1..];
    }
  }

  /** A cash flow row combines a revenue month and an expense month of the
      same month; every such pair gives a row. */
  lemma {:induction false} CashFlowRows(revenue: seq<MonthTotal>, expense: seq<MonthTotal>)
    ensures forall row :: row in CashFlow(revenue, expense) <==>
      exists a, b :: a in revenue && b in expense && a.month == b.month && row == Combine(a, b)
  {
    if revenue != [] {
      JoinMonthRows(revenue[0], expense);
      CashFlowRows(revenue[1..], expense);
      assert revenue == [revenue[0]] + revenue[1..];
    }
  }

  /** Expense months other than the revenue months do not change the
      join. */
  lemma {:induction false} CashFlowSkipsHead(revenue: seq<MonthTotal>, expense: seq<MonthTotal>)
    requires expense != []
    requires forall i :: 0 <= i < |revenue| ==> revenue[i].month != expense[0].month
    ensures CashFlow(revenue, expense) == CashFlow(revenue, expense[1..])
  {
    if revenue != [] {
      CashFlowSkipsHead(revenue[1..], expense);
    }
  }

  /** When revenue and expenses occur in the same months (both ascending),
      the join pairs them month by month and the net column adds up to
      total revenue less total expense. */
  lemma {:induction false} AlignedCashFlowNet(revenue: seq<MonthTotal>, expense: seq<MonthTotal>)
    requires |revenue| == |expense|
    requires forall i :: 0 <= i < |revenue| ==> revenue[i].month == expense[i].month
    requires StrictlyIncreasing(Column(expense, MonthOf))
    ensures Sum(CashFlow(revenue, expense), NetGross) == Sum(revenue, Total) - Sum(expense, Total)
  {
    if revenue != [] {
      var col := Column(expense, MonthOf);
      assert forall i :: 0 <= i < |expense| ==> col[i] == expense[i].month;
      assert Column(expense[1..], MonthOf) == col[1..];
      assert JoinMonth(revenue[0], expense[1..]) == [] by {
        forall i | 0 <= i < |expense[1..]| ensures expense[1..][i].month != revenue[0].month {
          assert col[0] < col[i + 1];
        }
        NoMatchingMonth(revenue[0], expense[1..]);
      }
      assert JoinMonth(revenue[0], expense) == [Combine(revenue[0], expense[0])];
      forall i | 0 <= i < |revenue[1..]| ensures revenue[1..][i].month != expense[0].month {
        assert col[0] < col[i + 1];
      }
      CashFlowSkipsHead(revenue[1..], expense);
      AlignedCashFlowNet(revenue[1..], expense[1..]);
      SumAppend(JoinMonth(revenue[0], expense), CashFlow(revenue[1..], expense), NetGross);
    }
  }

  lemma {:induction false} NoMatchingMonth(revenue: MonthTotal, expense: seq<MonthTotal>)
    requires forall i :: 0 <= i < |expense| ==> expense[i].month != revenue.month
    ensures JoinMonth(revenue, expense) == []
  {
    if expense != [] {
      NoMatchingMonth(revenue, expense[1..]);
    }
  }

  function CashMonth(r: CashFlowRow): int {
    r.month
  }

  /** Against expense months that strictly ascend, a revenue month joins
      at most one of them, and the row it gives is of its month. */
  lemma {:induction false} JoinMonthAtMostOne(revenue: MonthTotal, expense: seq<MonthTotal>)
    requires StrictlyIncreasing(Column(expense, MonthOf))
    ensures |JoinMonth(revenue, expense)| <= 1
    ensures forall i :: 0 <= i < |JoinMonth(revenue, expense)| ==> JoinMonth(revenue, expense)[i].month == revenue.month
  {
    if expense != [] {
      var col := Column(expense, MonthOf);
      assert Column(expense[1..], MonthOf) == col[1..];
      JoinMonthAtMostOne(revenue, expense[1..]);
      if expense[0].month == revenue.month {
        forall i | 0 <= i < |expense[1..]| ensures expense[1..][i].month != revenue.month {
          assert col[0] < col[i + 1];
        }
        NoMatchingMonth(revenue, expense[1..]);
      }
    }
  }

  /** Every cash flow row is of a revenue month. */
  lemma {:induction false} CashFlowMonthsFromRevenue(revenue: seq<MonthTotal>, expense: seq<MonthTotal>, row: CashFlowRow)
    requires row in CashFlow(revenue, expense)
    ensures row.month in Column(revenue, MonthOf)
  {
    CashFlowRows(revenue, expense);
    var a, b :| a in revenue && b in expense && a.month == b.month && row == Combine(a, b);
    var i :| 0 <= i < |revenue| && revenue[i] == a;
    assert Column(revenue, MonthOf)[i] == a.month;
  }

  /** When both sides strictly ascend by month, the cash flow rows do too:
      the join gives at most one row per month, in month order. */
  lemma {:induction false} CashFlowAscending(revenue: seq<MonthTotal>, expense: seq<MonthTotal>)
    requires StrictlyIncreasing(Column(revenue, MonthOf))
    requires StrictlyIncreasing(Column(expense, MonthOf))
    ensures StrictlyIncreasing(Column(CashFlow(revenue, expense), CashMonth))
  {
    if revenue != [] {
      var col := Column(revenue, MonthOf);
      assert Column(revenue[1..], MonthOf) == col[1..];
      CashFlowAscending(revenue[1..], expense);
      var head := JoinMonth(revenue[0], expense);
      var tail := CashFlow(revenue[1..], expense);
      JoinMonthAtMostOne(revenue[0], expense);
      ColumnAppend(head, tail, CashMonth);
      if head != [] {
        forall y | y in Column(tail, CashMonth) ensures y > revenue[0].month {
          var k :| 0 <= k < |tail| && Column(tail, CashMonth)[k] == y;
          CashFlowMonthsFromRevenue(revenue[1..], expense, tail[k]);
          var j :| 0 <= j < |col[1..]| && col[1..][j] == tail[k].month;
          assert col[0] < col[j + 1];
        }
        assert Column(head, CashMonth) == [revenue[0].month];
        ConsIncreasing(revenue[0].month, Column(tail, CashMonth));
      } else {
        assert Column(head, CashMonth) == [];
        assert Column(CashFlow(revenue, expense), CashMonth) == Column(tail, CashMonth);
      }
    }
  }

  /** The cash flow table of the page has one row per month with both
      receipts and expenses (with `Summary.CashFlowRows`, which pairs each
      such month with its row), in ascending month order. */
  lemma CashFlowOneRowPerMonth(rs: seq<Receipt>, es: seq<Expense>)
    ensures StrictlyIncreasing(Column(CashFlow(MonthlyRevenue(rs), MonthlyExpense(es)), CashMonth))
  {
    MonthlySumsRows(rs, RevenueMonth, GrossSales);
    MonthlySumsRows(es, ExpenseMonth, TotalCost);
    CashFlowAscending(MonthlyRevenue(rs), MonthlyExpense(es));
  }

  /** Total revenue less total expense (the headline gross), which is
      also the monthly revenue totals less the monthly expense totals. */
  function TotalNetGross(rs: seq<Receipt>, es: seq<Expense>): (net: int)
    ensures net == Sum(MonthlyRevenue(rs), Total) - Sum(MonthlyExpense(es), Total)
  {
    MonthlySumsTotal(rs, RevenueMonth, GrossSales);
    MonthlySumsTotal(es, ExpenseMonth, TotalCost);
    TotalRevenue(rs) - Sum(es, TotalCost)
  }

  /** When every month with receipts has expenses and the other way round,
      the monthly net column of the cash flow table adds up to the
      headline gross. */
  lemma CashFlowMatchesTotal(rs: seq<Receipt>, es: seq<Expense>)
    requires forall m :: HasMonth(rs, RevenueMonth, m) <==> HasMonth(es, ExpenseMonth, m)
    ensures Sum(CashFlow(MonthlyRevenue(rs), MonthlyExpense(es)), NetGross) == TotalNetGross(rs, es)
  {
    var ms := MonthKeys(rs, RevenueMonth);
    var ns := MonthKeys(es, ExpenseMonth);
    AscendingUnique(ms, ns);
    MonthlySumsRows(es, ExpenseMonth, TotalCost);
    AlignedCashFlowNet(MonthlyRevenue(rs), MonthlyExpense(es));
    MonthlySumsTotal(rs, RevenueMonth, GrossSales);
    MonthlySumsTotal(es, ExpenseMonth, TotalCost);
  }

  /** The colour of a net gross cell. */
  function CellColour(val: int): string {
    if val > 0 then "seagreen" else if val < 0 then "firebrick" else "gray"
  }

  /** `color_values`: the cell style for a net gross value. */
  function ColorValues(val: int): (style: string)
    ensures "color: white; background-color: " <= style
  {
    "color: white; background-color: " + CellColour(val)
  }

  function Sign(val: int): int {
    if val > 0 then 1 else if val < 0 then -1 else 0
  }

  /** Positive cells are seagreen, negative ones firebrick and zero gray,
      and two cells have the same style exactly when their values have the
      same sign. */
  lemma ColourBySign(a: int, b: int)
    ensures a > 0 ==> ColorValues(a) == "color: white; background-color: seagreen"
    ensures a < 0 ==> ColorValues(a) == "color: white; background-color: firebrick"
    ensures a == 0 ==> ColorValues(a) == "color: white; background-color: gray"
    ensures ColorValues(a) == ColorValues(b) <==> Sign(a) == Sign(b)
  {
    var prefix := "color: white; background-color: ";
    if ColorValues(a) == ColorValues(b) {
      assert CellColour(a) == ColorValues(a)[|prefix|..];
      assert CellColour(b) == ColorValues(b)[|prefix|..];
    }
  }
}
