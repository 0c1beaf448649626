/** The customers page: month-over-month churn and retention of active
    customers, the global retention rate, and the cohort analysis that
    groups customers by the month of their first receipt. Rates are exact
    rationals. */
module Retention {
  import opened Results
  import opened Tables
  import opened Calendar
  import opened Receipts
  import opened Models
  import opened Stats

  /** The month of a receipt (`dt.truncate("1mo")`), as a month index. */
  function ReceiptMonth(r: Receipt): int {
    MonthIndex(r.timestamp.date)
  }

  /** The months with a receipt, ascending (`group_by("year_month")`
      followed by `sort`). */
  function Months(rs: seq<Receipt>): (ms: seq<int>)
    ensures StrictlyIncreasing(ms)
    ensures forall m :: m in ms <==> exists r :: r in rs && ReceiptMonth(r) == m
  {
    var col := Column(rs, ReceiptMonth);
    forall m | (exists r :: r in rs && ReceiptMonth(r) == m) ensures m in col {
      var r :| r in rs && ReceiptMonth(r) == m;
      var k :| 0 <= k < |rs| && rs[k] == r;
      assert col[k] == m;
    }
    AscendingDistinct(col)
  }

  /** The distinct customers with a receipt in month `m`. */
  function ActiveIn(rs: seq<Receipt>, m: int): set<string> {
    set r | r in rs && ReceiptMonth(r) == m :: r.customerName
  }

  /** One set of active customers per month, in month order. */
  function ActiveCustomers(rs: seq<Receipt>): (sets: seq<set<string>>)
    ensures |sets| == |Months(rs)|
    ensures forall i :: 0 <= i < |sets| ==> sets[i] == ActiveIn(rs, Months(rs)[i])
  {
    var ms := Months(rs);
    seq(|ms|, i requires 0 <= i < |ms| => ActiveIn(rs, ms[i]))
  }

  /** Every month of the table has an active customer. */
  lemma ActiveMonthsNonEmpty(rs: seq<Receipt>, i: int)
    requires 0 <= i < |Months(rs)|
    ensures ActiveIn(rs, Months(rs)[i]) != {}
  {
    assert Months(rs)[i] in Months(rs);
    var r :| r in rs && ReceiptMonth(r) == Months(rs)[i];
    assert r.customerName in ActiveIn(rs, Months(rs)[i]);
  }

  /** The fraction of last month's customers who did not come back; 0 when
      last month had no customer. */
  function ChurnRate(prev: set<string>, curr: set<string>): (rate: real)
    ensures 0.0 <= rate <= 1.0
    ensures prev == {} ==> rate == 0.0
    ensures prev != {} ==> rate * |prev| as real == |prev - curr| as real
  {
    if prev == {} then 0.0
    else
      SubsetCard(prev - curr, prev);
      DivideThenMultiply(|prev - curr|, |prev|);
      |prev - curr| as real / |prev| as real
  }

  /** One row of the churn table. */
  datatype ChurnRecord = ChurnRecord(month: int, churnRate: real, lostCustomers: nat, activeCustomers: nat)

  /** The churn of month `i` against month `i - 1`: the customers of the
      previous month who are not active this month are lost. */
  function ChurnAt(months: seq<int>, customers: seq<set<string>>, i: int): (c: ChurnRecord)
    requires |months| == |customers| && 1 <= i < |months|
    ensures c.month == months[i] && c.activeCustomers == |customers[i]|
    ensures c.lostCustomers == |customers[i - 1] - customers[i]| <= |customers[i - 1]|
    ensures 0.0 <= c.churnRate <= 1.0
    ensures customers[i - 1] == {} ==> c.churnRate == 0.0
    ensures customers[i - 1] != {} ==> c.churnRate * |customers[i - 1]| as real == c.lostCustomers as real
  {
    var prev := customers[i - 1];
    var curr := customers[i];
    SubsetCard(prev - curr, prev);
    ChurnRecord(months[i], ChurnRate(prev, curr), |prev - curr|, |curr|)
  }

  /** The churn loop: one record per month after the first, appended in
      month order. */
  method ChurnRecords(months: seq<int>, customers: seq<set<string>>) returns (records: seq<ChurnRecord>)
    requires |months| == |customers|
    ensures |records| == if months == [] then 0 else |months| - 1
    ensures forall i :: 0 <= i < |records| ==> records[i] == ChurnAt(months, customers, i + 1)
  {
    records := [];
    if |months| < 2 {
      return;
    }
    for i := 1 to |months|
      invariant |records| == i - 1
      invariant forall k :: 0 <= k < |records| ==> records[k] == ChurnAt(months, customers, k + 1)
    {
      var prevSet := customers[i - 1];
      var currSet := customers[i];
      var lost := prevSet - currSet;
      var rate := if prevSet != {} then |lost| as real / |prevSet| as real else 0.0;
      records := records + [ChurnRecord(months[i], rate, |lost|, |currSet|)];
    }
  }

  /** A row of the churn table once the retention column is added. */
  datatype RetentionRow = RetentionRow(month: int, churnRate: real, retentionRate: real, lostCustomers: nat, activeCustomers: nat)

  /** Building the churn table fails when there is no record: the frame
      built from an empty list has no `churn_rate` column. */
  datatype RetentionError = NoChurnColumn

  /** The churn table with `retention_rate = 1 - churn_rate`. */
  function WithRetention(records: seq<ChurnRecord>): (r: Result<seq<RetentionRow>, RetentionError>)
    ensures r.Failure? <==> records == []
    ensures r.Success? ==> |r.value| == |records| && forall i :: 0 <= i < |records| ==>
      r.value[i].month == records[i].month && r.value[i].churnRate == records[i].churnRate
      && r.value[i].retentionRate + records[i].churnRate == 1.0
      && r.value[i].lostCustomers == records[i].lostCustomers
      && r.value[i].activeCustomers == records[i].activeCustomers
  {
    if records == [] then Failure(NoChurnColumn)
    else Success(seq(|records|, i requires 0 <= i < |records| =>
      RetentionRow(records[i].month, records[i].churnRate, 1.0 - records[i].churnRate,
        records[i].lostCustomers, records[i].activeCustomers)))
  }

  /** The churn analysis of the receipts table: active customers per
      month, the churn loop and the retention column. It fails when the
      table spans fewer than two months. */
  method ChurnAnalysis(rs: seq<Receipt>) returns (r: Result<seq<RetentionRow>, RetentionError>)
    ensures r.Failure? <==> |Months(rs)| < 2
    ensures r.Success? ==> |r.value| == |Months(rs)| - 1
    ensures r.Success? ==> forall i :: 0 <= i < |r.value| ==>
      var prev := ActiveIn(rs, Months(rs)[i]);
      var curr := ActiveIn(rs, Months(rs)[i + 1]);
      r.value[i].month == Months(rs)[i + 1]
      && r.value[i].activeCustomers == |curr|
      && r.value[i].lostCustomers == |prev - curr|
      && r.value[i].churnRate == ChurnRate(prev, curr)
      && 0.0 <= r.value[i].retentionRate <= 1.0
      && r.value[i].retentionRate + r.value[i].churnRate == 1.0
  {
    var months := Months(rs);
    var customers := ActiveCustomers(rs);
    var records := ChurnRecords(months, customers);
    r := WithRetention(records);
  }

  /** Last month {A, B, C}, this month {B, C, D}: one customer of three is
      lost, so churn is a third and retention two thirds. */
  lemma ChurnExample()
    ensures ChurnRate({"A", "B", "C"}, {"B", "C", "D"}) == 1.0 / 3.0
    ensures 1.0 - ChurnRate({"A", "B", "C"}, {"B", "C", "D"}) == 2.0 / 3.0
  {
    assert "A" != "B" && "A" != "C" && "B" != "C";
    assert {"A", "B", "C"} - {"B", "C", "D"} == {"A"};
    assert |{"A", "B", "C"}| == 3;
  }

  /** Dividing by a positive number and multiplying back is the identity. */
  lemma DivideThenMultiply(a: int, n: nat)
    requires n > 0
    ensures (a as real / n as real) * n as real == a as real
  {
  }

  /** `a / b` as an exact rational. */
  function Ratio(a: nat, b: nat): (r: real)
    requires b > 0
    ensures r * b as real == a as real
    ensures 0.0 <= r && (a <= b ==> r <= 1.0)
  {
    DivideThenMultiply(a, b);
    a as real / b as real
  }

  /** The global rates: the returning-customer count over the customer
      count, and its complement to 1. The division fails on an empty
      customers table. */
  function GlobalRates(returning: nat, total: nat): (r: Option<(real, real)>)
    ensures r.None? <==> total == 0
    ensures r.Some? ==> r.value.0 * total as real == returning as real
    ensures r.Some? ==> r.value.0 + r.value.1 == 1.0
    ensures r.Some? && returning <= total ==> 0.0 <= r.value.0 <= 1.0 && 0.0 <= r.value.1 <= 1.0
  {
    if total == 0 then None
    else
      var retention := Ratio(returning, total);
      Some((retention, 1.0 - retention))
  }

  /** The global rates of the two tables exist exactly when the customers
      table is not empty; when every customer with a receipt is in the
      customers table, both rates lie between 0 and 1. */
  lemma GlobalRatesOfTables(customers: seq<Customer>, rs: seq<Receipt>)
    ensures GlobalRates(TotalReturningCustomerCount(rs), TotalCustomerCount(customers)).None? <==> customers == []
    ensures Names(rs) <= (set c | c in customers :: c.name) ==>
      TotalReturningCustomerCount(rs) <= TotalCustomerCount(customers)
  {
    CustomerCountZero(customers);
    CustomerCountMeaning(customers);
    ReturningCountMeaning(rs);
    if Names(rs) <= (set c | c in customers :: c.name) {
      SubsetCard(Names(rs), set c | c in customers :: c.name);
    }
  }

  /** The earliest receipt of customer `c`, none when `c` has no receipt. */
  function Earliest(rs: seq<Receipt>, c: string): (e: Option<Receipt>)
    ensures e.None? <==> c !in Names(rs)
    ensures e.Some? ==> e.value in rs && e.value.customerName == c
  {
    if rs == [] then None
    else
      var rest := Earliest(rs[1..], c);
      assert Names(rs) == {rs[0].customerName} + Names(rs[1..]) by {
        assert forall r :: r in rs <==> r == rs[0] || r in rs[1..] by {
          assert rs == [rs[0]] + rs[1..];
        }
      }
      if rs[0].customerName != c then rest
      else if rest.None? || Minutes(rs[0].timestamp) <= Minutes(rest.value.timestamp) then Some(rs[0])
      else rest
  }

  /** No receipt of the customer is earlier than the earliest one. */
  lemma {:induction false} EarliestIsMinimal(rs: seq<Receipt>, c: string, r: Receipt)
    requires r in rs && r.customerName == c
    ensures Earliest(rs, c).Some?
    ensures Minutes(Earliest(rs, c).value.timestamp) <= Minutes(r.timestamp)
  {
    assert r.customerName in Names(rs);
    if r != rs[0] {
      assert r in rs[1..] by {
        assert rs == [rs[0]] + rs[1..];
      }
      EarliestIsMinimal(rs[1..], c, r);
    } else if |rs| > 1 && Earliest(rs[1..], c).Some? {
      assert Earliest(rs[1..], c).value in rs[1..];
    }
  }

  /** The cohort of a customer: the month of their earliest receipt,
      truncated to its first day. */
  function CohortPeriod(rs: seq<Receipt>, c: string): (p: Date)
    requires c in Names(rs)
    ensures p.day == 1
    ensures MonthIndex(p) == ReceiptMonth(Earliest(rs, c).value)
  {
    var e := Earliest(rs, c).value;
    Date(e.timestamp.date.year, e.timestamp.date.month, 1)
  }

  /** The cohort month is the earliest month of the customer's receipts:
      some receipt of theirs falls in it and none falls before it. */
  lemma CohortPeriodIsFirstMonth(rs: seq<Receipt>, c: string)
    requires c in Names(rs)
    ensures exists r :: r in rs && r.customerName == c && MonthIndex(CohortPeriod(rs, c)) == ReceiptMonth(r)
    ensures forall r :: r in rs && r.customerName == c ==> MonthIndex(CohortPeriod(rs, c)) <= ReceiptMonth(r)
  {
    var e := Earliest(rs, c).value;
    assert e in rs && e.customerName == c;
    forall r | r in rs && r.customerName == c ensures ReceiptMonth(e) <= ReceiptMonth(r) {
      EarliestIsMinimal(rs, c, r);
      MonthMonotone(e.timestamp, r.timestamp);
    }
  }

  /** The cohort of a customer as a month index. */
  function CohortMonth(rs: seq<Receipt>, c: string): int
    requires c in Names(rs)
  {
    MonthIndex(CohortPeriod(rs, c))
  }

  /** Months from the customer's cohort to the month of receipt `r`. */
  function CohortIndex(rs: seq<Receipt>, r: Receipt): (k: int)
    requires r in rs
    ensures k == ReceiptMonth(r) - CohortMonth(rs, r.customerName)
  {
    var p := CohortPeriod(rs, r.customerName);
    (r.timestamp.date.year - p.year) * 12 + (r.timestamp.date.month - p.month)
  }

  /** No receipt precedes its customer's cohort: the index counts the
      months from the cohort month to the receipt's month. */
  lemma CohortIndexNonNegative(rs: seq<Receipt>, r: Receipt)
    requires r in rs
    ensures CohortIndex(rs, r) == ReceiptMonth(r) - CohortMonth(rs, r.customerName)
    ensures CohortIndex(rs, r) >= 0
  {
    var e := Earliest(rs, r.customerName).value;
    EarliestIsMinimal(rs, r.customerName, r);
    MonthMonotone(e.timestamp, r.timestamp);
  }

  /** The distinct customers of cohort `m` with a receipt `k` months after
      the cohort month. */
  function CohortCustomers(rs: seq<Receipt>, m: int, k: int): set<string> {
    set r | r in rs && CohortMonth(rs, r.customerName) == m && CohortIndex(rs, r) == k :: r.customerName
  }

  /** One cell of the cohort count table (`n_unique` per cohort and
      index). */
  function CohortCount(rs: seq<Receipt>, m: int, k: int): nat {
    |CohortCustomers(rs, m, k)|
  }

  /** The customers whose cohort is month `m`. */
  function Cohort(rs: seq<Receipt>, m: int): set<string> {
    set c | c in Names(rs) && CohortMonth(rs, c) == m
  }

  /** The count at index 0 is the cohort size: every customer has a
      receipt in their cohort month, and every other index counts a part of
      the cohort. */
  lemma CohortSizeAndBound(rs: seq<Receipt>, m: int, k: int)
    ensures CohortCount(rs, m, 0) == |Cohort(rs, m)|
    ensures CohortCount(rs, m, k) <= CohortCount(rs, m, 0)
  {
    assert CohortCustomers(rs, m, 0) == Cohort(rs, m) by {
      forall c | c in Cohort(rs, m) ensures c in CohortCustomers(rs, m, 0) {
        var e := Earliest(rs, c).value;
        assert e.customerName == c && CohortIndex(rs, e) == 0;
      }
    }
    assert CohortCustomers(rs, m, k) <= Cohort(rs, m);
    SubsetCard(CohortCustomers(rs, m, k), Cohort(rs, m));
  }

  /** The retention rate of a cell: its count over the cohort size, between
      0 and 1. */
  function CohortRetention(rs: seq<Receipt>, m: int, k: int): (rate: real)
    requires CohortCount(rs, m, 0) > 0
    ensures 0.0 <= rate <= 1.0
    ensures rate * CohortCount(rs, m, 0) as real == CohortCount(rs, m, k) as real
  {
    var count := CohortCount(rs, m, k);
    var size := CohortCount(rs, m, 0);
    CohortSizeAndBound(rs, m, k);
    Ratio(count, size)
  }

  /** The cohort months, ascending. */
  function CohortMonths(rs: seq<Receipt>): (ms: seq<int>)
    ensures StrictlyIncreasing(ms)
    ensures forall m :: m in ms <==> exists c :: c in Names(rs) && CohortMonth(rs, c) == m
  {
    var col := seq(|rs|, i requires 0 <= i < |rs| => CohortMonth(rs, rs[i].customerName));
    CohortColumn(rs, col);
    AscendingDistinct(col)
  }

  /** The cohort month of each receipt's customer, as a column, holds
      exactly the cohort months. */
  lemma CohortColumn(rs: seq<Receipt>, col: seq<int>)
    requires |col| == |rs|
    requires forall i :: 0 <= i < |rs| ==> col[i] == CohortMonth(rs, rs[i].customerName)
    ensures forall m :: m in col <==> exists c :: c in Names(rs) && CohortMonth(rs, c) == m
  {
    forall m | m in col ensures exists c :: c in Names(rs) && CohortMonth(rs, c) == m {
      var i :| 0 <= i < |rs| && col[i] == m;
      assert rs[i].customerName in Names(rs);
    }
    forall m | (exists c :: c in Names(rs) && CohortMonth(rs, c) == m) ensures m in col {
      var c :| c in Names(rs) && CohortMonth(rs, c) == m;
      var r :| r in rs && r.customerName == c;
      var i :| 0 <= i < |rs| && rs[i] == r;
      assert col[i] == m;
    }
  }

  /** The cohort sizes of the months `ms`, added up. */
  function CohortSizes(rs: seq<Receipt>, ms: seq<int>): nat {
    if ms == [] then 0 else CohortCount(rs, ms[0], 0) + CohortSizes(rs, ms[1..])
  }

  lemma {:induction false} CohortSizesCount(rs: seq<Receipt>, ms: seq<int>)
    requires NoDuplicates(ms)
    ensures CohortSizes(rs, ms) == |InCohorts(rs, ms)|
  {
    if ms != [] {
      NoDuplicatesTail(ms);
      CohortSizesCount(rs, ms[1..]);
      CohortSizeAndBound(rs, ms[0], 0);
      InCohortsSplit(rs, ms);
    }
  }

  /** The customers whose cohort is one of the months `ms`. */
  function InCohorts(rs: seq<Receipt>, ms: seq<int>): set<string> {
    set c | c in Names(rs) && CohortMonth(rs, c) in ms
  }

  /** The customers of a list of cohorts are those of its first cohort and,
      apart from them, those of the rest. */
  lemma InCohortsSplit(rs: seq<Receipt>, ms: seq<int>)
    requires ms != [] && ms[0] !in ms[1..]
    ensures InCohorts(rs, ms) == Cohort(rs, ms[0]) + InCohorts(rs, ms[1..])
    ensures Cohort(rs, ms[0]) * InCohorts(rs, ms[1..]) == {}
  {
    assert forall x :: x in ms <==> x == ms[0] || x in ms[1..] by {
      assert ms == [ms[0]] + ms[1..];
    }
  }

  /** The cohorts partition the customers: the cohort sizes add up to the
      number of distinct customers. */
  lemma CohortSizesSum(rs: seq<Receipt>)
    ensures CohortSizes(rs, CohortMonths(rs)) == |Names(rs)|
  {
    StrictlyIncreasingNoDuplicates(CohortMonths(rs));
    CohortSizesCount(rs, CohortMonths(rs));
    assert InCohorts(rs, CohortMonths(rs)) == Names(rs);
  }
}
