/** The clients page: the receipts grouped by customer name into one row
    of aggregates per customer, the derived columns (tenure, lifetime
    value, loads until the next promo) and the inner join with the
    customers table. */
module Clients {
  import opened Results
  import opened Tables
  import opened Calendar
  import opened Receipts
  import opened Models
  import opened Stats

  function Discounts(r: Receipt): int {
    r.discounts
  }

  function ReceiptDate(r: Receipt): CalendarDate {
    r.timestamp.date
  }

  /** The receipts of customer `n`, in table order. */
  function Group(rs: seq<Receipt>, n: string): (g: seq<Receipt>)
    ensures forall r :: r in g <==> r in rs && r.customerName == n
  {
    if rs == [] then []
    else
      var rest := Group(rs[1..], n);
      assert forall r :: r in rs <==> r == rs[0] || r in rs[1..] by {
        assert rs == [rs[0]] + rs[1..];
      }
      if rs[0].customerName == n then [rs[0]] + rest else rest
  }

  /** The group of a customer is what `group_by` sums over: its size is
      the customer's receipt count and its column sums are the group
      sums. */
  lemma {:induction false} GroupSums(rs: seq<Receipt>, n: string, f: Receipt -> int)
    ensures Sum(Group(rs, n), f) == SumWhereKey(rs, ReceiptCustomer, f, n)
    ensures |Group(rs, n)| == SumWhereKey(rs, ReceiptCustomer, One, n)
  {
    if rs != [] {
      GroupSums(rs[1..], n, f);
      if rs[0].customerName == n {
        assert ([rs[0]] + Group(rs[1..], n))[1..] == Group(rs[1..], n);
      }
    }
  }

  /** The earliest timestamp among the receipts. */
  function FirstVisit(g: seq<Receipt>): (t: Timestamp)
    requires g != []
    ensures exists r :: r in g && r.timestamp == t
    ensures forall r :: r in g ==> Minutes(t) <= Minutes(r.timestamp)
  {
    if |g| == 1 then g[0].timestamp
    else
      var rest := FirstVisit(g[1..]);
      assert forall r :: r in g ==> r == g[0] || r in g[1..];
      if Minutes(g[0].timestamp) <= Minutes(rest) then g[0].timestamp else rest
  }

  /** The latest timestamp among the receipts. */
  function LastVisit(g: seq<Receipt>): (t: Timestamp)
    requires g != []
    ensures exists r :: r in g && r.timestamp == t
    ensures forall r :: r in g ==> Minutes(r.timestamp) <= Minutes(t)
  {
    if |g| == 1 then g[0].timestamp
    else
      var rest := LastVisit(g[1..]);
      assert forall r :: r in g ==> r == g[0] || r in g[1..];
      if Minutes(g[0].timestamp) >= Minutes(rest) then g[0].timestamp else rest
  }

  /** The aggregates of one customer's receipts. */
  datatype ClientAggregate = ClientAggregate(
    name: string,
    totalSpent: int,
    totalDiscount: int,
    totalLoads: int,
    nTransactions: nat,
    lastVisit: Timestamp,
    firstVisit: Timestamp,
    visits: seq<CalendarDate>)

  /** A customer with a receipt has a non-empty group. */
  lemma GroupNonEmpty(rs: seq<Receipt>, n: string)
    requires n in Names(rs)
    ensures Group(rs, n) != []
  {
    var r :| r in rs && r.customerName == n;
    assert r in Group(rs, n);
  }

  /** The aggregate row of customer `n`, who has a receipt. */
  function Aggregate(rs: seq<Receipt>, n: string): (a: ClientAggregate)
    requires n in Names(rs)
    ensures a.name == n && a.nTransactions >= 1
    ensures Minutes(a.firstVisit) <= Minutes(a.lastVisit)
    ensures |a.visits| <= a.nTransactions
  {
    var g := Group(rs, n);
    GroupNonEmpty(rs, n);
    ClientAggregate(n, Sum(g, GrossSales), Sum(g, Discounts), Sum(g, Loads), |g|,
      LastVisit(g), FirstVisit(g), Distinct(Column(g, ReceiptDate)))
  }

  /** The visits of a customer are the distinct dates of their receipts,
      and the first and last visit are the earliest and latest receipt. */
  lemma VisitsAreReceiptDates(rs: seq<Receipt>, n: string)
    requires n in Names(rs)
    ensures NoDuplicates(Aggregate(rs, n).visits)
    ensures forall d :: d in Aggregate(rs, n).visits <==> exists r :: r in rs && r.customerName == n && r.timestamp.date == d
    ensures forall r :: r in rs && r.customerName == n ==>
      Minutes(Aggregate(rs, n).firstVisit) <= Minutes(r.timestamp) <= Minutes(Aggregate(rs, n).lastVisit)
    ensures exists r :: r in rs && r.customerName == n && r.timestamp == Aggregate(rs, n).firstVisit
    ensures exists r :: r in rs && r.customerName == n && r.timestamp == Aggregate(rs, n).lastVisit
  {
    GroupDates(rs, n);
  }

  /** The dates of a customer's group are the dates of their receipts. */
  lemma GroupDates(rs: seq<Receipt>, n: string)
    ensures forall d :: d in Column(Group(rs, n), ReceiptDate) <==>
      exists r :: r in rs && r.customerName == n && r.timestamp.date == d
  {
    var g := Group(rs, n);
    var dates := Column(g, ReceiptDate);
    forall d | d in dates ensures exists x :: x in rs && x.customerName == n && x.timestamp.date == d {
      var k :| 0 <= k < |dates| && dates[k] == d;
      assert g[k] in g;
    }
    forall d | (exists x :: x in rs && x.customerName == n && x.timestamp.date == d) ensures d in dates {
      var x :| x in rs && x.customerName == n && x.timestamp.date == d;
      var k :| 0 <= k < |g| && g[k] == x;
      assert dates[k] == d;
    }
  }

  /** The customers with receipts, each once, in order of first receipt. */
  function CustomerNames(rs: seq<Receipt>): (names: seq<string>)
    ensures NoDuplicates(names)
    ensures forall n :: n in names <==> n in Names(rs)
  {
    NamesColumn(rs);
    Distinct(Column(rs, ReceiptCustomer))
  }

  /** One aggregate row per customer with a receipt. */
  function Aggregates(rs: seq<Receipt>): (aggs: seq<ClientAggregate>)
    ensures |aggs| == |CustomerNames(rs)|
    ensures forall i :: 0 <= i < |aggs| ==> aggs[i] == Aggregate(rs, CustomerNames(rs)[i])
  {
    var names := CustomerNames(rs);
    seq(|names|, i requires 0 <= i < |names| => Aggregate(rs, names[i]))
  }

  /** The aggregate table has exactly one row per customer with receipts. */
  lemma AggregatesOnePerCustomer(rs: seq<Receipt>)
    ensures |Aggregates(rs)| == |Names(rs)|
    ensures forall i, j :: 0 <= i < j < |Aggregates(rs)| ==> Aggregates(rs)[i].name != Aggregates(rs)[j].name
    ensures forall n :: n in Names(rs) <==> exists i :: 0 <= i < |Aggregates(rs)| && Aggregates(rs)[i].name == n
  {
    NamesColumn(rs);
    DistinctCard(Column(rs, ReceiptCustomer));
    AggregateNames(rs);
  }

  /** The aggregate rows carry the customer names in order. */
  lemma AggregateNames(rs: seq<Receipt>)
    ensures forall i :: 0 <= i < |Aggregates(rs)| ==> Aggregates(rs)[i].name == CustomerNames(rs)[i]
  {
  }

  /** The names of the name column are the customers of the table. */
  lemma NamesColumn(rs: seq<Receipt>)
    ensures (set x | x in Column(rs, ReceiptCustomer)) == Names(rs)
    ensures forall x :: x in Column(rs, ReceiptCustomer) <==> x in Names(rs)
  {
    forall r | r in rs ensures r.customerName in Column(rs, ReceiptCustomer) {
      var k :| 0 <= k < |rs| && rs[k] == r;
      assert Column(rs, ReceiptCustomer)[k] == r.customerName;
    }
  }

  /** The receipt counts of the customers add up to the number of
      receipts. */
  lemma TransactionCountsAddUp(rs: seq<Receipt>)
    ensures SumPerKey(rs, ReceiptCustomer, One, Distinct(Column(rs, ReceiptCustomer))) == |rs|
  {
    NamesColumn(rs);
    SumPerKeyTotal(rs, ReceiptCustomer, One, Distinct(Column(rs, ReceiptCustomer)));
    SumConstant(rs, One, 1);
  }

  /** Each aggregate is the group-by sum of its column: spending, discount,
      loads and receipt count. */
  lemma AggregateIsGroupSum(rs: seq<Receipt>, n: string)
    requires n in Names(rs)
    ensures Aggregate(rs, n).totalSpent == SumWhereKey(rs, ReceiptCustomer, GrossSales, n)
    ensures Aggregate(rs, n).totalDiscount == SumWhereKey(rs, ReceiptCustomer, Discounts, n)
    ensures Aggregate(rs, n).totalLoads == SumWhereKey(rs, ReceiptCustomer, Loads, n)
    ensures Aggregate(rs, n).nTransactions == SumWhereKey(rs, ReceiptCustomer, One, n)
  {
    GroupSums(rs, n, GrossSales);
    GroupSums(rs, n, Discounts);
    GroupSums(rs, n, Loads);
  }

  /** Whole days from the first receipt to the last, never negative. */
  function Tenure(a: ClientAggregate): (days: int)
    ensures Minutes(a.firstVisit) <= Minutes(a.lastVisit) ==> days >= 0
    ensures Minutes(a.firstVisit) <= Minutes(a.lastVisit) ==>
      days * 1440 <= Minutes(a.lastVisit) - Minutes(a.firstVisit) < (days + 1) * 1440
  {
    WholeDaysBetween(a.firstVisit, a.lastVisit)
  }

  /** What the customer paid: spending less discounts. */
  function LifetimeValue(a: ClientAggregate): int {
    a.totalSpent - a.totalDiscount
  }

  /** What a receipt leaves after its discount. */
  function NetOfDiscount(r: Receipt): int {
    r.grossSales - r.discounts
  }

  /** The lifetime value of a customer is what their receipts brought in
      after discounts. */
  lemma LifetimeValueIsNetSpending(rs: seq<Receipt>, n: string)
    requires n in Names(rs)
    ensures LifetimeValue(Aggregate(rs, n)) == SumWhereKey(rs, ReceiptCustomer, NetOfDiscount, n)
  {
    var g := Group(rs, n);
    SumDifference(g, GrossSales, Discounts, NetOfDiscount);
    GroupSums(rs, n, NetOfDiscount);
  }

  /** Loads left until the next multiple of ten (every tenth load is a
      promo): between 1 and 10, and reaching a multiple of ten. */
  function LoadsUntilPromo(loads: int): (left: int)
    ensures 1 <= left <= 10
    ensures (loads + left) % 10 == 0
  {
    10 - loads % 10
  }

  /** A customer at a multiple of ten loads has ten loads left; one load
      more brings the promo one load closer, except just before the
      promo. */
  lemma PromoCountdown(loads: int)
    ensures loads % 10 == 0 ==> LoadsUntilPromo(loads) == 10
    ensures LoadsUntilPromo(loads) > 1 ==> LoadsUntilPromo(loads + 1) == LoadsUntilPromo(loads) - 1
    ensures LoadsUntilPromo(loads) == 1 ==> LoadsUntilPromo(loads + 1) == 10
  {
  }

  /** One row of the clients table. */
  datatype ClientRow = ClientRow(
    customerId: string,
    customerName: string,
    phone: Option<string>,
    address: Option<string>,
    totalLoads: int,
    nTransactions: nat,
    lastVisit: Timestamp,
    tenure: int,
    totalSpent: int,
    totalDiscount: int,
    lifetimeValue: int,
    visits: seq<CalendarDate>,
    loadsUntilPromo: int)

  /** The aggregates of a customer joined with one customers row: the
      lifetime value is the spending less the discounts, and the promo
      countdown completes the loads to a multiple of ten. */
  function JoinedRow(a: ClientAggregate, c: Customer): (row: ClientRow)
    ensures row.lifetimeValue == row.totalSpent - row.totalDiscount
    ensures 1 <= row.loadsUntilPromo <= 10 && (row.totalLoads + row.loadsUntilPromo) % 10 == 0
  {
    ClientRow(c.id, a.name, c.phone, c.address, a.totalLoads, a.nTransactions, a.lastVisit,
      Tenure(a), a.totalSpent, a.totalDiscount, LifetimeValue(a), a.visits, LoadsUntilPromo(a.totalLoads))
  }

  /** The rows joining one aggregate with every customers row of its
      name, in customers order. */
  function JoinOne(a: ClientAggregate, customers: seq<Customer>): (rows: seq<ClientRow>)
    ensures forall row :: row in rows <==> exists c :: c in customers && c.name == a.name && row == JoinedRow(a, c)
    ensures |rows| == CountNamed(customers, a.name)
  {
    if customers == [] then []
    else
      var rest := JoinOne(a, customers[1..]);
      assert forall c :: c in customers <==> c == customers[0] || c in customers[1..] by {
        assert customers == [customers[0]] + customers[1..];
      }
      if customers[0].name == a.name then [JoinedRow(a, customers[0])] + rest else rest
  }

  /** The number of customers rows named `n`. */
  function CountNamed(customers: seq<Customer>, n: string): nat {
    if customers == [] then 0
    else (if customers[0].name == n then 1 else 0) + CountNamed(customers[1..], n)
  }

  /** The number of customers rows whose name is one of `names`. */
  function CountNamedIn(customers: seq<Customer>, names: set<string>): nat {
    if customers == [] then 0
    else (if customers[0].name in names then 1 else 0) + CountNamedIn(customers[1..], names)
  }

  /** The customers rows of each name of `ns`, added up. */
  function CountEach(customers: seq<Customer>, ns: seq<string>): nat {
    if ns == [] then 0 else CountNamed(customers, ns[0]) + CountEach(customers, ns[1..])
  }

  lemma {:induction false} CountNamedInAdd(customers: seq<Customer>, names: set<string>, n: string)
    requires n !in names
    ensures CountNamedIn(customers, names + {n}) == CountNamed(customers, n) + CountNamedIn(customers, names)
  {
    if customers != [] {
      CountNamedInAdd(customers[1..], names, n);
    }
  }

  /** Counting the rows of each of several distinct names is counting the
      rows whose name is among them. */
  lemma {:induction false} CountEachDistinct(customers: seq<Customer>, ns: seq<string>)
    requires NoDuplicates(ns)
    ensures CountEach(customers, ns) == CountNamedIn(customers, set n | n in ns)
  {
    if ns == [] {
      assert (set n | n in ns) == {};
      CountNamedInEmpty(customers);
    } else {
      NoDuplicatesTail(ns);
      CountEachDistinct(customers, ns[1..]);
      var tail := set n | n in ns[1..];
      assert (set n | n in ns) == tail + {ns[0]};
      CountNamedInAdd(customers, tail, ns[0]);
    }
  }

  lemma {:induction false} CountNamedInEmpty(customers: seq<Customer>)
    ensures CountNamedIn(customers, {}) == 0
  {
    if customers != [] {
      CountNamedInEmpty(customers[1..]);
    }
  }

  lemma JoinOneContains(a: ClientAggregate, customers: seq<Customer>, c: Customer)
    requires c in customers && c.name == a.name
    ensures JoinedRow(a, c) in JoinOne(a, customers)
  {
  }

  lemma FlattenContains<T(!new)>(xss: seq<seq<T>>, i: int, x: T)
    requires 0 <= i < |xss| && x in xss[i]
    ensures x in Flatten(xss)
  {
  }

  /** The join of each aggregate with the customers table. */
  function JoinEach(aggs: seq<ClientAggregate>, customers: seq<Customer>): (parts: seq<seq<ClientRow>>)
    ensures |parts| == |aggs|
    ensures forall i :: 0 <= i < |aggs| ==> parts[i] == JoinOne(aggs[i], customers)
  {
    seq(|aggs|, i requires 0 <= i < |aggs| => JoinOne(aggs[i], customers))
  }

  /** The clients table: the aggregates joined on name with the customers
      table (an inner join). */
  function ClientTable(rs: seq<Receipt>, customers: seq<Customer>): (rows: seq<ClientRow>)
  {
    Flatten(JoinEach(Aggregates(rs), customers))
  }

  /** A row is in the clients table exactly when it joins the aggregates of
      a customer with receipts to a customers row of the same name. */
  lemma ClientTableRows(rs: seq<Receipt>, customers: seq<Customer>)
    ensures forall row :: row in ClientTable(rs, customers) <==>
      exists n, c :: n in Names(rs) && c in customers && c.name == n && row == JoinedRow(Aggregate(rs, n), c)
  {
    forall row | row in ClientTable(rs, customers)
      ensures exists n, c :: n in Names(rs) && c in customers && c.name == n && row == JoinedRow(Aggregate(rs, n), c)
    {
      var n, c := ClientRowSource(rs, customers, row);
    }
    forall n, c | n in Names(rs) && c in customers && c.name == n
      ensures JoinedRow(Aggregate(rs, n), c) in ClientTable(rs, customers)
    {
      ClientRowPresent(rs, customers, n, c);
    }
  }

  /** The joins of aggregates named `ns` have, together, as many rows as
      there are customers rows of those names. */
  lemma {:induction false} JoinEachLength(aggs: seq<ClientAggregate>, customers: seq<Customer>, ns: seq<string>)
    requires |aggs| == |ns| && forall i :: 0 <= i < |aggs| ==> aggs[i].name == ns[i]
    ensures TotalLength(JoinEach(aggs, customers)) == CountEach(customers, ns)
  {
    if aggs != [] {
      assert JoinEach(aggs, customers)[1..] == JoinEach(aggs[1..], customers);
      JoinEachLength(aggs[1..], customers, ns[1..]);
    }
  }

  /** The clients table has one row per customers row whose name is a
      receipt customer: each such row matches exactly one aggregate. */
  lemma ClientTableSize(rs: seq<Receipt>, customers: seq<Customer>)
    ensures |ClientTable(rs, customers)| == CountNamedIn(customers, Names(rs))
  {
    var names := CustomerNames(rs);
    var parts := JoinEach(Aggregates(rs), customers);
    FlattenCounts(parts);
    JoinEachLength(Aggregates(rs), customers, names);
    CountEachDistinct(customers, names);
    CustomerNameSet(rs);
  }

  lemma CustomerNameSet(rs: seq<Receipt>)
    ensures (set n | n in CustomerNames(rs)) == Names(rs)
  {
  }

  /** Every row of the clients table joins a receipt customer's aggregate
      with a customers row of that name. */
  lemma ClientRowSource(rs: seq<Receipt>, customers: seq<Customer>, row: ClientRow) returns (n: string, c: Customer)
    requires row in ClientTable(rs, customers)
    ensures n in Names(rs) && c in customers && c.name == n && row == JoinedRow(Aggregate(rs, n), c)
  {
    var aggs := Aggregates(rs);
    var i := FlattenWitness(JoinEach(aggs, customers), row);
    c := JoinOneWitness(aggs[i], customers, row);
    n := CustomerNames(rs)[i];
  }

  lemma FlattenWitness<T(!new)>(xss: seq<seq<T>>, x: T) returns (i: int)
    requires x in Flatten(xss)
    ensures 0 <= i < |xss| && x in xss[i]
  {
    i :| 0 <= i < |xss| && x in xss[i];
  }

  lemma JoinOneWitness(a: ClientAggregate, customers: seq<Customer>, row: ClientRow) returns (c: Customer)
    requires row in JoinOne(a, customers)
    ensures c in customers && c.name == a.name && row == JoinedRow(a, c)
  {
    c :| c in customers && c.name == a.name && row == JoinedRow(a, c);
  }

  /** Every pairing of a receipt customer with a customers row of the same
      name is a row of the clients table. */
  lemma ClientRowPresent(rs: seq<Receipt>, customers: seq<Customer>, n: string, c: Customer)
    requires n in Names(rs) && c in customers && c.name == n
    ensures JoinedRow(Aggregate(rs, n), c) in ClientTable(rs, customers)
  {
    var aggs := Aggregates(rs);
    var names := CustomerNames(rs);
    var parts := JoinEach(aggs, customers);
    var i :| 0 <= i < |names| && names[i] == n;
    assert aggs[i] == Aggregate(rs, n);
    JoinOneContains(aggs[i], customers, c);
    FlattenContains(parts, i, JoinedRow(Aggregate(rs, n), c));
  }

  /** A customer with receipts but no customers row has no row in the
      clients table, and a customers row without receipts has none
      either. */
  lemma InnerJoinDropsUnmatched(rs: seq<Receipt>, customers: seq<Customer>, n: string)
    requires n !in Names(rs) || forall c :: c in customers ==> c.name != n
    ensures forall row :: row in ClientTable(rs, customers) ==> row.customerName != n
  {
    ClientTableRows(rs, customers);
  }
}
