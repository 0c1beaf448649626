/** The transactions page: the receipts newest first, reduced to the
    displayed columns, and filtered by the customers selected and by a
    date range. The selection and the range come from the page's widgets
    and are parameters here. A bound is a number of minutes that orders it
    against the timestamps; the widgets give dates, and a date compared
    with the timestamp column stands for that date's midnight, so the
    end bound of the page is the midnight at which the end date begins. */
module ReceiptsView {
  import opened Results
  import opened Tables
  import opened Calendar
  import opened Receipts
  import opened DateFilter
  import opened Stats

  /** One displayed row: the nine columns the page selects. */
  datatype TransactionRow = TransactionRow(
    timestamp: Timestamp,
    receiptId: string,
    grossSales: int,
    discounts: int,
    totalCollected: int,
    customerName: string,
    description: string,
    paymentType: PaymentType,
    cashier: Cashier)

  function Display(r: Receipt): TransactionRow {
    TransactionRow(r.timestamp, r.receiptId, r.grossSales, r.discounts, r.totalCollected,
      r.customerName, r.description, r.paymentType, r.cashier)
  }

  function RowMinutes(t: TransactionRow): int {
    Minutes(t.timestamp)
  }

  /** The receipts newest first, with the displayed columns: every
      receipt's row appears as often as the receipt does. */
  function Transactions(rs: seq<Receipt>): (rows: seq<TransactionRow>)
    ensures NonIncreasingBy(rows, RowMinutes)
    ensures |rows| == |rs|
    ensures multiset(rows) == multiset(Column(rs, Display))
  {
    var sorted := SortDescendingBy(rs, ReceiptMinutes);
    assert |sorted| == |multiset(sorted)| == |rs|;
    ColumnPermutation(sorted, rs, Display);
    var rows := Column(sorted, Display);
    assert forall i :: 0 <= i < |rows| ==> RowMinutes(rows[i]) == ReceiptMinutes(sorted[i]);
    rows
  }

  /** One filter expression of the page. */
  datatype RowFilter =
    | CustomerIn(names: seq<string>)
    | AtOrAfter(bound: int)
    | AtOrBefore(bound: int)

  predicate Holds(f: RowFilter, t: TransactionRow) {
    match f
    case CustomerIn(names) => t.customerName in names
    case AtOrAfter(bound) => RowMinutes(t) >= bound
    case AtOrBefore(bound) => RowMinutes(t) <= bound
  }

  /** A row passes a list of filters when it passes every one of them. */
  predicate HoldsAll(filters: seq<RowFilter>, t: TransactionRow) {
    forall i :: 0 <= i < |filters| ==> Holds(filters[i], t)
  }

  /** The filters the page builds: a customer filter when some customer is
      selected, and both date bounds when both dates are set. */
  function PageFilters(selected: seq<string>, start: Option<int>, end: Option<int>): seq<RowFilter> {
    (if |selected| > 0 then [CustomerIn(selected)] else [])
    + (if start.Some? && end.Some? then [AtOrAfter(start.value), AtOrBefore(end.value)] else [])
  }

  /** A row passes the page's filters exactly when its customer is
      selected (or none is) and, when both dates are set, it lies between
      them with both ends included. */
  lemma PageFiltersMeaning(selected: seq<string>, start: Option<int>, end: Option<int>)
    ensures forall t :: HoldsAll(PageFilters(selected, start, end), t) <==>
      (selected == [] || t.customerName in selected)
      && (start.None? || end.None? || start.value <= RowMinutes(t) <= end.value)
  {
    var filters := PageFilters(selected, start, end);
    forall t ensures HoldsAll(filters, t) <==>
      (selected == [] || t.customerName in selected)
      && (start.None? || end.None? || start.value <= RowMinutes(t) <= end.value)
    {
      if |selected| > 0 {
        assert filters[0] == CustomerIn(selected);
      }
      if start.Some? && end.Some? {
        var k := if |selected| > 0 then 1 else 0;
        assert filters[k] == AtOrAfter(start.value) && filters[k + 1] == AtOrBefore(end.value);
      }
    }
  }

  /** Builds the filter list by appending to it, one condition at a time. */
  method BuildFilters(selected: seq<string>, start: Option<int>, end: Option<int>) returns (filters: seq<RowFilter>)
    ensures filters == PageFilters(selected, start, end)
    ensures forall t :: HoldsAll(filters, t) <==>
      (selected == [] || t.customerName in selected)
      && (start.None? || end.None? || start.value <= RowMinutes(t) <= end.value)
  {
    filters := [];
    if |selected| > 0 {
      filters := filters + [CustomerIn(selected)];
    }
    if start.Some? && end.Some? {
      filters := filters + [AtOrAfter(start.value)];
      filters := filters + [AtOrBefore(end.value)];
    }
    PageFiltersMeaning(selected, start, end);
  }

  function Passes(filters: seq<RowFilter>): TransactionRow -> bool {
    (t: TransactionRow) => HoldsAll(filters, t)
  }

  /** `filter(*filters)`: the rows passing every filter, in order. */
  function ApplyFilters(rows: seq<TransactionRow>, filters: seq<RowFilter>): (kept: seq<TransactionRow>)
    ensures forall t :: t in kept <==> t in rows && HoldsAll(filters, t)
    ensures IsSubsequence(kept, rows)
  {
    Filter(rows, Passes(filters))
  }

  /** The table the page shows. */
  function TransactionsShown(rs: seq<Receipt>, selected: seq<string>, start: Option<int>, end: Option<int>): seq<TransactionRow> {
    ApplyFilters(Transactions(rs), PageFilters(selected, start, end))
  }

  /** A row is shown exactly when it is a receipt's row, belongs to a
      selected customer (or none is selected) and, when both dates are
      set, lies between them with both ends included. */
  lemma ShownRows(rs: seq<Receipt>, selected: seq<string>, start: Option<int>, end: Option<int>)
    ensures forall t :: t in TransactionsShown(rs, selected, start, end) <==>
      (exists r :: r in rs && t == Display(r))
      && (selected == [] || t.customerName in selected)
      && (start.None? || end.None? || start.value <= RowMinutes(t) <= end.value)
  {
    PageFiltersMeaning(selected, start, end);
    TransactionsRows(rs);
  }

  /** The transactions table holds the displayed row of every receipt and
      nothing else. */
  lemma TransactionsRows(rs: seq<Receipt>)
    ensures forall t :: t in Transactions(rs) <==> exists r :: r in rs && t == Display(r)
  {
    var sorted := SortDescendingBy(rs, ReceiptMinutes);
    var rows := Transactions(rs);
    assert rows == Column(sorted, Display);
    forall t | t in rows ensures exists r :: r in rs && t == Display(r) {
      var k :| 0 <= k < |rows| && rows[k] == t;
      assert sorted[k] in multiset(rs);
    }
    forall r | r in rs ensures Display(r) in rows {
      assert r in multiset(sorted);
      var k :| 0 <= k < |sorted| && sorted[k] == r;
      assert rows[k] == Display(r);
    }
  }

  /** The shown rows stay newest first. */
  lemma ShownNewestFirst(rs: seq<Receipt>, selected: seq<string>, start: Option<int>, end: Option<int>)
    ensures NonIncreasingBy(TransactionsShown(rs, selected, start, end), RowMinutes)
  {
    SubsequenceNonIncreasing(TransactionsShown(rs, selected, start, end), Transactions(rs), RowMinutes);
  }

  /** With nothing selected and no dates set every receipt is shown. */
  lemma NoFilterShowsAll(rs: seq<Receipt>, start: Option<int>, end: Option<int>)
    requires start.None? || end.None?
    ensures TransactionsShown(rs, [], start, end) == Transactions(rs)
  {
    assert PageFilters([], start, end) == [];
    AllPass(Transactions(rs));
  }

  lemma {:induction false} AllPass(rows: seq<TransactionRow>)
    ensures Filter(rows, Passes([])) == rows
  {
    if rows != [] {
      AllPass(rows[1..]);
    }
  }

  /** The page's date range includes its end bound, where the date filter
      of the analysis pages excludes it: a row exactly at the end bound is
      shown here but dropped there. */
  lemma EndBoundIncluded(rs: seq<Receipt>, start: int, end: int, t: TransactionRow)
    requires t in Transactions(rs) && start <= end && RowMinutes(t) == end
    ensures t in TransactionsShown(rs, [], Some(start), Some(end))
    ensures t !in FilterByDate(Transactions(rs), RowMinutes, start, end)
  {
    PageFiltersMeaning([], Some(start), Some(end));
    assert HoldsAll(PageFilters([], Some(start), Some(end)), t);
  }

  /** The end date of the range is compared at its midnight: a receipt of
      the end date after 00:00 is not shown. */
  lemma EndDateAfterMidnightHidden(rs: seq<Receipt>, selected: seq<string>, start: int, e: CalendarDate, t: TransactionRow)
    requires t.timestamp.date == e && t.timestamp.hour * 60 + t.timestamp.minute > 0
    ensures t !in TransactionsShown(rs, selected, Some(start), Some(Midnight(e)))
  {
    PageFiltersMeaning(selected, Some(start), Some(Midnight(e)));
  }

  /** The default range ends on the date of the latest receipt, so the
      receipts of that day after 00:00 are hidden until the range is
      changed. */
  lemma LatestDayHiddenByDefault(rs: seq<Receipt>, selected: seq<string>, start: int, r: Receipt)
    requires r in rs && r.timestamp.date == LatestDate(rs)
    requires r.timestamp.hour * 60 + r.timestamp.minute > 0
    ensures Display(r) in Transactions(rs)
    ensures Display(r) !in TransactionsShown(rs, selected, Some(start), Some(Midnight(LatestDate(rs))))
  {
    TransactionsRows(rs);
    EndDateAfterMidnightHidden(rs, selected, start, LatestDate(rs), Display(r));
  }
}
