/** The headline figures of the dashboard, computed from a snapshot of the
    customers table and of the receipts table. Gross sales are in
    centavos; a load is a fold service. */
module Stats {
  import opened Results
  import opened Tables
  import opened Calendar
  import opened Receipts
  import opened Models

  function CustomerName(c: Customer): string {
    c.name
  }

  function ReceiptCustomer(r: Receipt): string {
    r.customerName
  }

  function GrossSales(r: Receipt): int {
    r.grossSales
  }

  function Loads(r: Receipt): int {
    r.nFold
  }

  /** The calendar day of a receipt, as a day number. */
  function ReceiptDay(r: Receipt): int {
    DayNumber(r.timestamp.date)
  }

  /** The number of distinct customer names in the customers table:
      the number of names, at most the number of rows. */
  function TotalCustomerCount(customers: seq<Customer>): (n: nat)
    ensures n <= |customers|
  {
    |Distinct(Column(customers, CustomerName))|
  }

  lemma CustomerCountMeaning(customers: seq<Customer>)
    ensures TotalCustomerCount(customers) == |set c | c in customers :: c.name|
    ensures TotalCustomerCount(customers) <= |customers|
  {
    var names := Column(customers, CustomerName);
    DistinctCard(names);
    assert (set x | x in names) == (set c | c in customers :: c.name) by {
      forall c | c in customers ensures c.name in names {
        var k :| 0 <= k < |customers| && customers[k] == c;
        assert names[k] == c.name;
      }
    }
  }

  /** The count is 0 exactly for an empty customers table. */
  lemma CustomerCountZero(customers: seq<Customer>)
    ensures TotalCustomerCount(customers) == 0 <==> customers == []
  {
    if customers != [] {
      assert Column(customers, CustomerName)[0] in Distinct(Column(customers, CustomerName));
    }
  }

  /** A receipt of more than 100 pesos. */
  predicate HighValue(r: Receipt) {
    r.grossSales > 10000
  }

  /** The names of the customers with a receipt in the table. */
  function Names(rs: seq<Receipt>): set<string> {
    set r | r in rs :: r.customerName
  }

  /** The number of receipts of more than 100 pesos of customer `n`. */
  function HighValueVisits(rs: seq<Receipt>, n: string): int {
    SumWhereKey(Filter(rs, HighValue), ReceiptCustomer, One, n)
  }

  /** The number of customers with more than one receipt of more than 100
      pesos: the high-value receipts grouped by name, the groups of more
      than one receipt counted. */
  function TotalReturningCustomerCount(rs: seq<Receipt>): (n: nat)
    ensures n <= |Filter(rs, HighValue)|
  {
    var names := Distinct(Column(Filter(rs, HighValue), ReceiptCustomer));
    |Filter(names, (c: string) => HighValueVisits(rs, c) > 1)|
  }

  /** The returning customers are the customers of the table with at least
      two receipts of more than 100 pesos, so they are at most all of its
      customers. */
  lemma ReturningCountMeaning(rs: seq<Receipt>)
    ensures TotalReturningCustomerCount(rs) == |set c | c in Names(rs) && HighValueVisits(rs, c) >= 2|
    ensures TotalReturningCustomerCount(rs) <= |Names(rs)|
  {
    var big := Filter(rs, HighValue);
    var names := Distinct(Column(big, ReceiptCustomer));
    var returning := Filter(names, (c: string) => HighValueVisits(rs, c) > 1);
    var spec := set c | c in Names(rs) && HighValueVisits(rs, c) >= 2;
    StrictFilterCard(returning, names);
    assert (set c | c in returning) == spec by {
      forall c | c in spec ensures c in returning {
        GroupCountWitness(big, ReceiptCustomer, c);
        var j :| 0 <= j < |big| && big[j].customerName == c;
        assert Column(big, ReceiptCustomer)[j] == c;
      }
      forall c | c in returning ensures c in spec {
        var k :| 0 <= k < |Column(big, ReceiptCustomer)| && Column(big, ReceiptCustomer)[k] == c;
        assert big[k] in big;
      }
    }
    assert spec <= Names(rs);
    SubsetCard(spec, Names(rs));
  }

  /** A filter of a sequence without repeated values has as many values
      as its set. */
  lemma StrictFilterCard(r: seq<string>, names: seq<string>)
    requires NoDuplicates(names) && IsSubsequence(r, names)
    ensures |r| == |set c | c in r|
  {
    SubsequenceNoDuplicates(r, names);
    NoDuplicatesCard(r);
  }

  lemma SubsetCard<T>(a: set<T>, b: set<T>)
    requires a <= b
    ensures |a| <= |b|
  {
    assert b == a + (b - a);
  }

  /** A customer is returning exactly when two of their receipts are of
      more than 100 pesos. */
  lemma ReturningMeansTwoHighValueReceipts(rs: seq<Receipt>, c: string)
    ensures HighValueVisits(rs, c) >= 2 <==>
      exists i, j :: 0 <= i < j < |Filter(rs, HighValue)|
        && Filter(rs, HighValue)[i].customerName == c && Filter(rs, HighValue)[j].customerName == c
  {
    var hv := Filter(rs, HighValue);
    GroupCountAtLeastTwo(hv, ReceiptCustomer, c);
    assert forall i :: 0 <= i < |hv| ==> ReceiptCustomer(hv[i]) == hv[i].customerName;
  }

  /** The total gross sales, which is also the sum of the daily revenues. */
  function TotalRevenue(rs: seq<Receipt>): (total: int)
    ensures total == Sum(DailySums(rs, GrossSales), Id)
  {
    DailySumsTotal(rs, GrossSales);
    Sum(rs, GrossSales)
  }

  /** The total number of loads, which is also the sum of the daily load
      counts. */
  function TotalLoadCount(rs: seq<Receipt>): (total: int)
    ensures total == Sum(DailySums(rs, Loads), Id)
  {
    DailySumsTotal(rs, Loads);
    Sum(rs, Loads)
  }

  lemma TotalLoadCountNonNegative(rs: seq<Receipt>)
    ensures TotalLoadCount(rs) >= 0
  {
    SumNonNegative(rs, Loads);
  }

  /** The distinct calendar days with a receipt. */
  function Days(rs: seq<Receipt>): seq<int> {
    Distinct(Column(rs, ReceiptDay))
  }

  /** The column `f` summed per calendar day, one sum per day. */
  function DailySums(rs: seq<Receipt>, f: Receipt -> int): (sums: seq<int>)
    ensures |sums| == |Days(rs)|
    ensures forall i :: 0 <= i < |sums| ==> sums[i] == SumWhereKey(rs, ReceiptDay, f, Days(rs)[i])
  {
    var days := Days(rs);
    seq(|days|, i requires 0 <= i < |days| => SumWhereKey(rs, ReceiptDay, f, days[i]))
  }

  function Id(x: int): int {
    x
  }

  /** The mean of the daily sums of column `f`; no value (polars' null)
      for an empty table. */
  function DailyAverage(rs: seq<Receipt>, f: Receipt -> int): (avg: Option<real>)
    ensures avg.None? <==> rs == []
    ensures avg.Some? ==> avg.value == Sum(rs, f) as real / |Days(rs)| as real
  {
    var sums := DailySums(rs, f);
    DailySumsFacts(rs, f);
    if sums == [] then None
    else
      Some(Sum(sums, Id) as real / |sums| as real)
  }

  /** The daily sums: one per day, none for an empty table, adding up to
      the table's sum. */
  lemma DailySumsFacts(rs: seq<Receipt>, f: Receipt -> int)
    ensures DailySums(rs, f) == [] <==> rs == []
    ensures |DailySums(rs, f)| == |Days(rs)|
    ensures Sum(DailySums(rs, f), Id) == Sum(rs, f)
  {
    DaysEmpty(rs);
    DailySumsTotal(rs, f);
  }

  lemma DaysEmpty(rs: seq<Receipt>)
    ensures Days(rs) == [] <==> rs == []
  {
    DaysCoverReceipts(rs);
  }

  /** A table has a day exactly when it has a receipt, and every receipt's
      day is among the days. */
  lemma DaysCoverReceipts(rs: seq<Receipt>)
    ensures Days(rs) == [] <==> rs == []
    ensures forall r :: r in rs ==> ReceiptDay(r) in Days(rs)
  {
    var col := Column(rs, ReceiptDay);
    forall r | r in rs ensures ReceiptDay(r) in Days(rs) {
      var k :| 0 <= k < |rs| && rs[k] == r;
      assert col[k] == ReceiptDay(r);
    }
    if rs != [] {
      assert ReceiptDay(rs[0]) in Days(rs);
    }
  }

  /** The daily sums add up to the column total: every receipt falls on
      exactly one of the days. */
  lemma DailySumsTotal(rs: seq<Receipt>, f: Receipt -> int)
    ensures Sum(DailySums(rs, f), Id) == Sum(rs, f)
  {
    DaysCoverReceipts(rs);
    GroupSums(rs, ReceiptDay, f, Days(rs));
    SumPerKeyTotal(rs, ReceiptDay, f, Days(rs));
  }

  lemma {:induction false} GroupSums<T, K>(xs: seq<T>, key: T -> K, f: T -> int, ks: seq<K>)
    ensures Sum(seq(|ks|, i requires 0 <= i < |ks| => SumWhereKey(xs, key, f, ks[i])), Id) == SumPerKey(xs, key, f, ks)
  {
    var sums := seq(|ks|, i requires 0 <= i < |ks| => SumWhereKey(xs, key, f, ks[i]));
    if ks != [] {
      GroupSums(xs, key, f, ks[1..]);
      assert sums[1..] == seq(|ks[1..]|, i requires 0 <= i < |ks[1..]| => SumWhereKey(xs, key, f, ks[1..][i]));
    }
  }

  /** The mean daily revenue. */
  function DailyAverageRevenue(rs: seq<Receipt>): (avg: Option<real>)
    ensures avg.None? <==> rs == []
    ensures avg.Some? ==> avg.value == TotalRevenue(rs) as real / |Days(rs)| as real
  {
    DailyAverage(rs, GrossSales)
  }

  /** The mean daily number of loads. */
  function DailyAverageLoadCount(rs: seq<Receipt>): (avg: Option<real>)
    ensures avg.None? <==> rs == []
    ensures avg.Some? ==> avg.value == TotalLoadCount(rs) as real / |Days(rs)| as real
  {
    DailyAverage(rs, Loads)
  }

  /** The latest calendar date with a receipt. */
  function LatestDate(rs: seq<Receipt>): (d: CalendarDate)
    requires rs != []
    ensures exists r :: r in rs && r.timestamp.date == d
    ensures forall r :: r in rs ==> DayNumber(r.timestamp.date) <= DayNumber(d)
  {
    if |rs| == 1 then rs[0].timestamp.date
    else
      var rest := LatestDate(rs[1..]);
      assert forall r :: r in rs ==> r == rs[0] || r in rs[1..];
      if DayNumber(rs[0].timestamp.date) >= DayNumber(rest) then rs[0].timestamp.date else rest
  }

  /** Receipts at or after an instant. */
  function From(instant: int): Receipt -> bool {
    (r: Receipt) => Minutes(r.timestamp) >= instant
  }

  /** Receipts of a calendar date. */
  function On(d: CalendarDate): Receipt -> bool {
    (r: Receipt) => r.timestamp.date == d
  }

  function Before(d: CalendarDate): Receipt -> bool {
    (r: Receipt) => r.timestamp.date != d
  }

  /** The column `f` summed over the receipts at or after midnight of the
      latest date; 0 for an empty table, whose latest date is null. The
      sum is exactly the one over the receipts of the latest date. */
  function TodayTotal(rs: seq<Receipt>, f: Receipt -> int): (total: int)
    ensures rs == [] ==> total == 0
    ensures rs != [] ==> total == Sum(Filter(rs, On(LatestDate(rs))), f)
  {
    if rs == [] then 0
    else
      var d := LatestDate(rs);
      forall r | r in rs ensures From(Midnight(d))(r) == On(d)(r) {
        MidnightOrder(r.timestamp, d);
        DayNumberOrder(r.timestamp.date, d);
      }
      FilterCongruent(rs, From(Midnight(d)), On(d));
      Sum(Filter(rs, From(Midnight(d))), f)
  }

  /** Today's revenue. */
  function TotalRevenueToday(rs: seq<Receipt>): (total: int)
    ensures rs == [] ==> total == 0
    ensures rs != [] ==> total == Sum(Filter(rs, On(LatestDate(rs))), GrossSales)
  {
    TodayTotal(rs, GrossSales)
  }

  /** Today's number of loads. */
  function TotalLoadCountToday(rs: seq<Receipt>): (total: int)
    ensures rs == [] ==> total == 0
    ensures rs != [] ==> total == Sum(Filter(rs, On(LatestDate(rs))), Loads)
  {
    TodayTotal(rs, Loads)
  }

  /** Today's revenue and the revenue of the earlier days make up the
      total revenue. */
  lemma RevenueTodaySplit(rs: seq<Receipt>)
    requires rs != []
    ensures TotalRevenueToday(rs) + Sum(Filter(rs, Before(LatestDate(rs))), GrossSales) == TotalRevenue(rs)
  {
    SumFilterSplit(rs, On(LatestDate(rs)), Before(LatestDate(rs)), GrossSales);
  }

  /** Today's loads are part of all loads. */
  lemma LoadsTodayAtMostTotal(rs: seq<Receipt>)
    ensures 0 <= TotalLoadCountToday(rs) <= TotalLoadCount(rs)
  {
    if rs != [] {
      var d := LatestDate(rs);
      SumFilterSplit(rs, On(d), Before(d), Loads);
      assert forall r :: r in Filter(rs, On(d)) ==> r in rs;
      SumNonNegative(Filter(rs, On(d)), Loads);
      SumNonNegative(Filter(rs, Before(d)), Loads);
    }
  }
}
