# cleannest-analytics in Dafny

A verified model of the data logic of the Cleannest laundry shop dashboard.
The dashboard loads the point-of-sale exports (receipts and customers),
reads item counts and flags out of each receipt's free-text description,
builds orders from the order form, and computes the figures its pages
show: headline statistics, month-over-month churn and cohort retention,
per-client aggregates, monthly cash flow, and two date/customer filters.

Money is whole centavos (`int`), so a cost of 18.0 pesos is 1800 and the
returning-customer threshold `gross_sales > 100` is `grossSales > 10000`.
A timestamp is a Gregorian date with hour and minute, and timestamps are
ordered by `Minutes`, the minutes since 1970-01-01. A month is the number
`year * 12 + month - 1`. Rates are exact `real`s.

Modules, one per source file or concern:

- `Results`, `Tables`, `Text`, `Calendar`: option/result types; the
  dataframe operations the pipelines use (filter, sums, group-by sums,
  distinct values, de-duplication, concatenation, sort); digit and
  substring tests and title-casing; the calendar.
- `Receipts`, `Ingestion` (`cleannest/ingestion.py`): converting one
  exported receipt row, converting a file, loading the receipts and
  customers tables, and the item catalogue.
- `Models` (`cleannest/models.py`): `Order.quantities`, `total`,
  `to_list` and `to_dict` as methods with loops.
- `OrderForm` (`pages/order_form.py`): the form state to item list
  construction as a method, and the session's order list as a class.
- `Stats` (`cleannest/plotting.py`): the `Stats` class methods, with the
  tables passed as parameters.
- `Retention` (`pages/retention.py`): active customers per month, the
  churn loop as a method, the retention column, global rates, and the
  cohort analysis.
- `Clients` (`pages/overview/clients.py`): per-customer aggregates,
  derived columns and the join with the customers table.
- `Summary` (`pages/overview/summary.py`): `sort_by_month`, the cash flow
  join, the headline gross and `color_values`.
- `DateFilter` (`cleannest/dftools.py`): `filter_by_date`.
- `ReceiptsView` (`pages/overview/receipts.py`): the transactions table,
  the filter list built by appends, and its application.

Where the documentation and the code disagree, the model follows the code.
The docstring of `filter_by_date` calls both bounds optional, but the code
always applies both comparisons (`cleannest/dftools.py:16-24`), so
`DateFilter.FilterByDate` takes two concrete bounds. Its docstring also
says the end is exclusive, and the code agrees.

## Model

| member | source | states |
|---|---|---|
| Receipts.ParsePaymentType | cleannest/ingestion.py:126 | the enum cast succeeds exactly on "Cash", "Gcash" and "Card", and the label of the result is the input |
| Receipts.ParseCashier | cleannest/ingestion.py:127 | the enum cast succeeds exactly on "Hannah" and "Matet", and gives back the label |
| Receipts.EnumRoundTrips | cleannest/ingestion.py:126-127 | every payment type and cashier survives writing its label and casting it back |
| Receipts.FindMatch | cleannest/ingestion.py:132-161 | finds the leftmost position where a digit is followed by one of the pattern's alternatives, or reports none |
| Receipts.ExtractCount | cleannest/ingestion.py:132-161 | an extracted count is a single digit, at most 9 |
| Receipts.ExtractCountMeaning | cleannest/ingestion.py:132-161 | the count is the digit at the leftmost match, and 0 when the pattern matches nowhere (`fill_null(0)`) |
| Receipts.LeadingItemCount | cleannest/ingestion.py:132-161 | a description that starts with digit `d` and an alternative yields `d`, whatever follows |
| Receipts.TitanAndRegularCountAlike | cleannest/ingestion.py:133-138 | "d x Wash" and "d x TITAN Wash" both give d washes, and likewise for Dry |
| Receipts.RowDefect | cleannest/ingestion.py:124-127 | a row that cannot be converted has a named defect: bad timestamp, payment type or cashier |
| Receipts.Convert | cleannest/ingestion.py:123-186 | the typed receipt keeps every column, holds the six extracted counts, and sets `is_titan` iff "TITAN" occurs, `is_full_load` iff wash, dry, fold, detergent and fabcon are all positive, and `has_extra` iff bleach > 0 or detergent > 1 or fabcon > 1 |
| Receipts.LoadReceiptBatch | cleannest/ingestion.py:121-189 | a converted file has no more receipts than rows, and a failure names a row of the file |
| Receipts.BatchSucceedsIff | cleannest/ingestion.py:122-128 | a file converts exactly when every row that is not cancelled converts: no partial result |
| Receipts.BatchContents | cleannest/ingestion.py:121-187 | a converted file is the conversion of its non-cancelled rows, in file order |
| Receipts.BatchFailure | cleannest/ingestion.py:124-127 | a failing file names a non-cancelled row with a defect, and every earlier non-cancelled row converts |
| Receipts.NoCancelledReceipts | cleannest/ingestion.py:122 | no converted receipt has status "Cancelled" |
| Tables.UniqueBy | cleannest/ingestion.py:200 | keeps one row per key: keys pairwise distinct, same key set, every kept row an input row |
| Tables.SortDescendingBy | cleannest/ingestion.py:201 | the result is non-increasing by the key and a permutation of the input |
| Tables.Flatten | cleannest/ingestion.py:199 | a row is in the concatenation iff it is in one of the tables |
| Tables.FlattenCounts | cleannest/ingestion.py:199 | the concatenation has as many rows as the tables together, and holds each row as often as the tables do (the same multiset) |
| Tables.FlattenSnoc | cleannest/ingestion.py:199 | concatenating one more table appends its rows after the others, so the tables stay in order |
| Ingestion.Batches | cleannest/ingestion.py:194-196 | one converted table per file, in file order |
| Ingestion.ReceiptTable | cleannest/ingestion.py:198-202 | receipt ids pairwise distinct, the id set of all batches kept, every row an input row, timestamps non-increasing |
| Ingestion.LoadEach | cleannest/ingestion.py:191-193 | converts the files in order, giving one result per file, and fails exactly when some file fails, naming the first such file |
| Ingestion.LoadReceiptData | cleannest/ingestion.py:192-202 | fails with no file; fails exactly when some file fails, naming the first one; otherwise returns the receipt table of the concatenated files |
| Ingestion.LoadedReceiptsNotCancelled | cleannest/ingestion.py:122 | no receipt of the loaded table is cancelled |
| Ingestion.Normalise | cleannest/ingestion.py:79-86 | keeps the five subset columns, title-cases the name, and changes no letter except its case |
| Ingestion.LoadCustomerData | cleannest/ingestion.py:72-89 | fails exactly when there is no file; otherwise ids are pairwise distinct, the id set is kept, every row is a normalised input row and every name is title-cased |
| Ingestion.NormaliseIdempotent | cleannest/ingestion.py:86 | title-casing a normalised name again changes nothing |
| Ingestion.ItemList | cleannest/ingestion.py:303-316 | eleven items with distinct names, positive costs, and category soap or service |
| Text.TitleCase | cleannest/ingestion.py:86 | same length, same letters up to case, and title-cased |
| Text.TitleCaseIdempotent | cleannest/ingestion.py:86 | title-casing twice is title-casing once |
| Text.Contains | cleannest/ingestion.py:165 | true exactly when the text occurs at some position |
| Text.DecimalRoundTrip | cleannest/models.py:31 | reading back the decimal text of a quantity gives the quantity |
| Models.Quantities | cleannest/models.py:43-52 | the keys are the distinct item names in first-occurrence order, and each value is that name's multiplicity, at least 1 |
| Models.QuantitiesAddUp | cleannest/models.py:45-50 | the quantities add up to the number of items |
| Models.AddItemQuantities | cleannest/models.py:46-50 | one more unit of an item raises its quantity by one (a new name is appended with 1) and leaves the others unchanged |
| Models.Total | cleannest/models.py:54-60 | the total is the sum of the item costs |
| Models.TotalOfUnion | cleannest/models.py:54-60 | the total of two item lists together is the sum of their totals |
| Models.QuantityLineRoundTrip | cleannest/models.py:31 | a "q x name" line reads back as its quantity and name |
| Models.ToList | cleannest/models.py:29-31 | one "q x name" line per distinct name, in first-occurrence order, with its quantity |
| Models.ToDict | cleannest/models.py:33-41 | customer is the customer's name, items are the to_list lines, total is the sum of costs |
| OrderForm.ItemMapOfLookup | pages/order_form.py:22 | the name-to-item dict has exactly the item names as keys, each mapping to a listed item of that name |
| OrderForm.NameRoundTrip | cleannest/ingestion.py:303-316 | each catalogue item kind is found again by its name |
| OrderForm.NameOfInjective | cleannest/ingestion.py:303-316 | distinct item kinds have distinct names |
| OrderForm.CatalogueItem | pages/order_form.py:22-54 | the catalogue item of a kind has that kind's name |
| OrderForm.CatalogueItemListed | cleannest/ingestion.py:303-316 | the item of each kind is in the catalogue |
| OrderForm.SameNameSameItem | pages/order_form.py:22 | with distinct names, two listed items of the same name are the same item |
| OrderForm.CatalogueLookups | pages/order_form.py:22-54 | every name looked up is a key of the item map, so no lookup fails |
| OrderForm.RepeatCount | pages/order_form.py:44-51 | n copies of an item: length n, multiplicity n, nothing else |
| OrderForm.LookupsRepeat | pages/order_form.py:44-51 | looking up n copies of a kind appends n copies of its item |
| OrderForm.LookupsNames | pages/order_form.py:22-66 | the names of the looked-up items are the names of the kinds, in order |
| OrderForm.LookupsInCatalogue | pages/order_form.py:22-54 | every looked-up item is a catalogue item |
| OrderForm.AppendCopies | pages/order_form.py:44-51 | the `range` loop appends exactly n copies of the item |
| OrderForm.AppendMachines | pages/order_form.py:26-39 | the guarded appends give the wash, dry and extra-dry items selected, in that order |
| OrderForm.AppendServices | pages/order_form.py:25-41 | the machine items of the selected variant followed by fold when it was chosen |
| OrderForm.AppendExtras | pages/order_form.py:43-53 | appends each detergent, each fabcon, each bleach and then hand wash after the items already there |
| OrderForm.OrderItems | pages/order_form.py:25-56 | the item list is the catalogue item of each kind the form selects, in the order of the appends |
| OrderForm.KindsMembership | pages/order_form.py:25-54 | an item kind is in the order exactly when the form selects it |
| OrderForm.TitanExclusive | pages/order_form.py:26-39 | with TITAN set, Wash, Dry and Extra Dry give the TITAN items and no Regular one; without it, the Regular items and no TITAN one |
| OrderForm.SoapCounts | pages/order_form.py:44-51 | the order has exactly n_detergent detergents, n_fabcon fabcons and n_bleach bleaches |
| OrderForm.OrderSoapQuantities | pages/order_form.py:44-51 | the same soap counts, read off the item names |
| OrderForm.FoldAndHandWash | pages/order_form.py:41-54 | Fold is in the order iff selected among the services, Hand Wash iff selected among the extras, whatever the TITAN setting |
| OrderForm.ItemCount | pages/order_form.py:25-54 | the item count is the number of selected services and extras plus the three soap counts |
| OrderForm.ItemsInFixedOrder | pages/order_form.py:25-54 | items come in the fixed order wash, dry, extra dry, fold, detergents, fabcons, bleaches, hand wash |
| OrderForm.FirstNamed | pages/order_form.py:59-61 | none exactly when no client has the name; otherwise the first client with that name |
| OrderForm.OrderSession.constructor | pages/order_form.py:18-19 | the session starts with no orders |
| OrderForm.OrderSession.ProcessOrder | pages/order_form.py:21-66 | succeeds iff a client has the selected name; on failure the orders are unchanged; on success exactly one order is appended after the unchanged earlier ones, for the first client of that name, with the form's items |
| Stats.CustomerCountMeaning | cleannest/plotting.py:19-20 | the customer count is the number of distinct customer names, at most the number of rows |
| Stats.CustomerCountZero | cleannest/plotting.py:19-20 | the count is 0 exactly for an empty customers table |
| Stats.ReturningCountMeaning | cleannest/plotting.py:23-30 | the returning count is the number of customers with at least two receipts over 100 pesos, at most the number of distinct names |
| Stats.ReturningMeansTwoHighValueReceipts | cleannest/plotting.py:25-28 | a customer counts as returning iff two distinct receipts of theirs exceed 100 pesos |
| Stats.TotalCustomerCount | cleannest/plotting.py:19-20 | the number of distinct customer names is at most the number of customers rows |
| Stats.TotalReturningCustomerCount | cleannest/plotting.py:23-30 | at most the number of receipts over 100 pesos |
| Stats.TotalRevenue | cleannest/plotting.py:33-34 | the total gross sales equal the sum of the daily revenues |
| Stats.TotalLoadCount | cleannest/plotting.py:51-52 | the total loads equal the sum of the daily load counts |
| Stats.TotalLoadCountNonNegative | cleannest/plotting.py:51-52 | the load count is never negative |
| Stats.DailySums | cleannest/plotting.py:39-40 | one sum per distinct date with a receipt; entry i is the sum over the receipts of the i-th day |
| Stats.DailySumsTotal | cleannest/plotting.py:37-42 | the per-day sums add up to the column total |
| Stats.DailyAverage | cleannest/plotting.py:37-42 | no average for an empty table; otherwise the average is the total of the column divided by the number of distinct days with a receipt |
| Stats.DailyAverageRevenue | cleannest/plotting.py:37-42 | no average for an empty table; otherwise the total revenue divided by the number of days with a receipt |
| Stats.DailyAverageLoadCount | cleannest/plotting.py:55-60 | no average for an empty table; otherwise the total load count divided by the number of days with a receipt |
| Stats.DaysEmpty | cleannest/plotting.py:39 | there are no days exactly when there are no receipts |
| Stats.LatestDate | cleannest/plotting.py:47 | a date of some receipt, and no receipt has a later date |
| Stats.TodayTotal | cleannest/plotting.py:44-48 | 0 for an empty table; otherwise the sum over exactly the receipts on the latest date |
| Stats.TotalRevenueToday | cleannest/plotting.py:45-48 | 0 for an empty table; otherwise the gross sales of exactly the receipts on the latest date |
| Stats.TotalLoadCountToday | cleannest/plotting.py:63-66 | 0 for an empty table; otherwise the loads of exactly the receipts on the latest date |
| Stats.RevenueTodaySplit | cleannest/plotting.py:33-48 | today's revenue plus the revenue of earlier days is the total revenue |
| Stats.LoadsTodayAtMostTotal | cleannest/plotting.py:51-66 | today's load count lies between 0 and the total load count |
| Calendar.WholeDaysBetween | pages/overview/clients.py:32-33 | for a later second timestamp, the whole days elapsed: non-negative and the floor of the minutes over 1440 |
| Calendar.MidnightOrder | cleannest/plotting.py:47 | a timestamp is at or after midnight of a date iff its date is not earlier |
| Calendar.DayNumberOrder | cleannest/plotting.py:47 | equal day numbers mean equal dates, and a later day is not in an earlier month |
| Calendar.MonthMonotone | pages/retention.py:133-144 | a timestamp that is not later is not in a later month |
| Retention.Months | pages/retention.py:16-25 | months strictly ascending, and a month is listed iff some receipt falls in it |
| Retention.ActiveCustomers | pages/retention.py:21-29 | one set per month: the distinct names with a receipt in that month |
| Retention.ActiveMonthsNonEmpty | pages/retention.py:21-25 | every listed month has an active customer |
| Retention.ChurnRate | pages/retention.py:37-38 | in [0, 1]; 0 when the previous month is empty; otherwise rate times the previous size is the number lost |
| Retention.ChurnAt | pages/retention.py:33-47 | record i carries month i, the current size, the lost count (at most the previous size) and the churn rate |
| Retention.ChurnRecords | pages/retention.py:32-47 | the loop makes one record per month after the first, record i being the churn at month i + 1 |
| Retention.WithRetention | pages/retention.py:49-51 | fails exactly on an empty record list; otherwise retention + churn = 1 on every row |
| Retention.ChurnAnalysis | pages/retention.py:15-51 | fails exactly with fewer than two months; otherwise one row per later month with lost = \|prev − curr\|, the churn rate, and retention in [0, 1] |
| Retention.ChurnExample | pages/retention.py:37-51 | {A, B, C} then {B, C, D}: churn 1/3, retention 2/3 |
| Retention.Ratio | pages/retention.py:84 | a quotient: times the divisor it is the dividend, and in [0, 1] when the dividend is not larger |
| Retention.GlobalRates | pages/retention.py:83-86 | none when there are no customers; otherwise retention times the customer count is the returning count, and the two rates add up to 1 |
| Retention.GlobalRatesOfTables | pages/retention.py:83-86 | the rates are undefined exactly for an empty customers table; when every receipt name is a customer, the returning count is at most the customer count, so both rates lie in [0, 1] |
| Retention.Earliest | pages/retention.py:133-135 | none exactly for a name without receipts; otherwise a receipt of that customer |
| Retention.EarliestIsMinimal | pages/retention.py:133-135 | no receipt of the customer is earlier than the one found |
| Retention.CohortPeriod | pages/retention.py:133-135 | the cohort period is the first day of the month of the customer's earliest receipt |
| Retention.CohortPeriodIsFirstMonth | pages/retention.py:133-135 | some receipt of the customer falls in the cohort month and none falls in an earlier month |
| Retention.CohortIndex | pages/retention.py:139-144 | the index is the number of months from the customer's cohort month to the receipt's month |
| Retention.CohortIndexNonNegative | pages/retention.py:139-144 | the cohort index is the months from cohort month to receipt month, and never negative |
| Retention.CohortCount | pages/retention.py:147-153 | the number of distinct customers of a cohort with a receipt a given number of months in; its bounds are `Retention.CohortSizeAndBound` |
| Retention.CohortSizeAndBound | pages/retention.py:147-153 | the index-0 count is the cohort size, and no other index counts more |
| Retention.CohortRetention | pages/retention.py:167-169 | every cohort rate lies in [0, 1], and rate times cohort size is the count |
| Retention.CohortMonths | pages/retention.py:147-153 | cohort months strictly ascending, and a month is listed iff it is some customer's cohort |
| Retention.CohortSizesCount | pages/retention.py:164-165 | the sizes of distinct cohorts add up to the number of customers in them |
| Retention.CohortSizesSum | pages/retention.py:164-165 | the cohort sizes add up to the number of distinct customers |
| Clients.Group | pages/overview/clients.py:19-20 | a customer's receipts are exactly the receipts with that name |
| Clients.GroupSums | pages/overview/clients.py:20-26 | a group's size and column sums are the group-by count and sums |
| Clients.FirstVisit | pages/overview/clients.py:28 | a timestamp of the group, and none of the group is earlier |
| Clients.LastVisit | pages/overview/clients.py:27 | a timestamp of the group, and none of the group is later |
| Clients.Aggregate | pages/overview/clients.py:21-29 | at least one transaction, first visit not after last, and no more distinct visit days than transactions |
| Clients.VisitsAreReceiptDates | pages/overview/clients.py:27-29 | the visits are the distinct dates of the customer's receipts, and the first and last visit bound every receipt of theirs |
| Clients.CustomerNames | pages/overview/clients.py:20 | the group keys: each name with a receipt, once |
| Clients.Aggregates | pages/overview/clients.py:18-30 | one aggregate per group key |
| Clients.AggregatesOnePerCustomer | pages/overview/clients.py:18-30 | exactly one row per distinct customer name in receipts |
| Clients.TransactionCountsAddUp | pages/overview/clients.py:26 | the transaction counts add up to the number of receipts |
| Clients.AggregateIsGroupSum | pages/overview/clients.py:22-26 | spending, discount, loads and count are the sums of gross sales, discounts, folds and ones over the customer's receipts |
| Clients.LifetimeValue | pages/overview/clients.py:34-35 | spending less discounts; over the receipts, `Clients.LifetimeValueIsNetSpending` |
| Clients.LifetimeValueIsNetSpending | pages/overview/clients.py:22-35 | a customer's lifetime value is the sum over their receipts of gross sales less discount |
| Clients.Tenure | pages/overview/clients.py:32-33 | whole days from first to last visit, rounded down, and never negative when the first visit is not after the last, as in every aggregate row |
| Clients.LoadsUntilPromo | pages/overview/clients.py:36-37 | between 1 and 10, and with the loads reaches a multiple of 10 |
| Clients.PromoCountdown | pages/overview/clients.py:36-37 | 10 at a multiple of ten; each further load brings it one closer, and back to 10 after the promo load |
| Clients.JoinOne | pages/overview/clients.py:39-42 | the joined rows of an aggregate are its combinations with the customers rows of the same name, one row per such customers row |
| Clients.CountEachDistinct | pages/overview/clients.py:39-42 | counting the customers rows of each of several distinct names is counting the rows whose name is among them |
| Clients.JoinEachLength | pages/overview/clients.py:39-42 | the joins of the aggregates have together as many rows as there are customers rows of their names |
| Clients.JoinEach | pages/overview/clients.py:39-42 | one join result per aggregate |
| Clients.ClientTableRows | pages/overview/clients.py:39-57 | a row is in the clients table iff it combines the aggregates of a receipt customer with a customers row of the same name |
| Clients.InnerJoinDropsUnmatched | pages/overview/clients.py:39-42 | a receipt name without a customers row, or a customer without receipts, has no row |
| Clients.JoinedRow | pages/overview/clients.py:43-57 | a clients row's lifetime value is its spending less its discounts, and its promo countdown lies in 1..10 and completes the loads to a multiple of ten |
| Clients.ClientTable | pages/overview/clients.py:18-57 | the aggregates joined with the customers table; which rows it holds is `Clients.ClientTableRows`, how many `Clients.ClientTableSize` |
| Clients.ClientTableSize | pages/overview/clients.py:39-42 | the clients table has exactly one row per customers row whose name is a receipt customer |
| Summary.TruncateMonth | pages/overview/summary.py:27 | the truncation is the first day of the same month |
| Summary.TruncateMonthKey | pages/overview/summary.py:27-29 | two dates truncate alike iff their month numbers agree |
| Summary.MonthKeys | pages/overview/summary.py:29-33 | months strictly ascending, listed iff some row falls in them |
| Summary.MonthTotals | pages/overview/summary.py:29-33 | one row per given month, in order |
| Summary.MonthTotalsCells | pages/overview/summary.py:31 | each cell is the month's group sum, and the cells add up to the per-key sums |
| Summary.MonthlySums | pages/overview/summary.py:24-34 | one row per month with a row, in the order of the ascending month list; the totals are `Summary.MonthlySumsRows` |
| Summary.MonthlySumsRows | pages/overview/summary.py:24-34 | months strictly ascending, one row per month that occurs, each the sum over its rows |
| Summary.MonthlySumsTotal | pages/overview/summary.py:24-34 | the monthly sums add up to the column total |
| Summary.SortByMonth | pages/overview/summary.py:22-54 | succeeds exactly for "sum" with the monthly sums; "mean" and "median" are the floating-point branches; any other metric fails |
| Summary.Combine | pages/overview/summary.py:108-113 | net gross = gross sales − total cost, and the negated cost column |
| Summary.JoinMonthRows | pages/overview/summary.py:108 | the rows joining a revenue month are its combinations with the expense rows of the same month |
| Summary.CashFlowRows | pages/overview/summary.py:104-114 | a cash flow row combines a revenue month and an expense month of the same month, and every such pair gives a row |
| Summary.JoinMonthAtMostOne | pages/overview/summary.py:108 | against strictly ascending expense months, a revenue month joins at most one, giving a row of its own month |
| Summary.CashFlowAscending | pages/overview/summary.py:108 | when both sides strictly ascend by month, the cash flow rows strictly ascend by month |
| Summary.CashFlowOneRowPerMonth | pages/overview/summary.py:104-111 | the page's cash flow rows strictly ascend by month, so with `Summary.CashFlowRows` there is exactly one row per month with both receipts and expenses |
| Summary.CashFlow | pages/overview/summary.py:104-111 | the monthly revenue inner-joined with the monthly expenses; its rows are `Summary.CashFlowRows`, one per common month in ascending order by `Summary.CashFlowOneRowPerMonth`, and its net column `Summary.CashFlowMatchesTotal` |
| Summary.CashFlowSkipsHead | pages/overview/summary.py:108 | an expense month that no revenue month matches adds no row |
| Summary.AlignedCashFlowNet | pages/overview/summary.py:108-111 | with both sides in the same ascending months, the net column adds up to revenue less expense |
| Summary.NoMatchingMonth | pages/overview/summary.py:108 | a revenue month without an expense month gives no row |
| Summary.CashFlowMatchesTotal | pages/overview/summary.py:104-111 | when revenue and expenses have the same months, the monthly net adds up to the headline gross total_revenue − total_cost |
| Summary.TotalNetGross | pages/overview/summary.py:59-159 | total revenue less total expense equals the monthly revenue totals less the monthly expense totals |
| Summary.ColorValues | pages/overview/summary.py:168-176 | the style always starts "color: white; background-color: " |
| Summary.ColourBySign | pages/overview/summary.py:168-176 | seagreen above 0, firebrick below, gray at 0, and two cells share a style iff their values have the same sign |
| DateFilter.FilterByDate | cleannest/dftools.py:21-24 | a row is kept iff start ≤ date < end, and the kept rows are an order-preserving subsequence |
| DateFilter.FilterByDateExact | cleannest/dftools.py:21-24 | every row in the window is kept as often as it occurs, and no other row |
| DateFilter.EmptyWindow | cleannest/dftools.py:21-24 | start ≥ end keeps nothing |
| DateFilter.AdjacentWindows | cleannest/dftools.py:21-24 | for s ≤ m ≤ e the counts of [s, m) and [m, e) add up to the count of [s, e) |
| DateFilter.NestedWindows | cleannest/dftools.py:21-24 | filtering twice is filtering by the intersection of the windows |
| ReceiptsView.Transactions | pages/overview/receipts.py:12-27 | the displayed rows are newest first, one per receipt, and are the receipts' displayed rows each as often as the receipt occurs (the same multiset) |
| ReceiptsView.PageFiltersMeaning | pages/overview/receipts.py:43-51 | a row passes iff its customer is selected (or none is) and, with both bounds set, start ≤ timestamp ≤ end, where a date bound is that date's midnight |
| ReceiptsView.BuildFilters | pages/overview/receipts.py:43-51 | the appends give the customer filter only for a non-empty selection and both bounds only when both dates are set |
| ReceiptsView.ApplyFilters | pages/overview/receipts.py:54 | a row is kept iff it passes every filter, in the original order |
| ReceiptsView.ShownRows | pages/overview/receipts.py:43-54 | a row is shown iff it is a receipt's row passing the selection and lying between the two bounds, both included |
| ReceiptsView.ShownNewestFirst | pages/overview/receipts.py:12 | the shown rows stay newest first |
| ReceiptsView.NoFilterShowsAll | pages/overview/receipts.py:44-51 | with no customer selected and the `_start and _end` test failing, every receipt is shown (the widget always returns two dates, so on the page only the first half applies) |
| ReceiptsView.EndBoundIncluded | pages/overview/receipts.py:51 | a row exactly at the end bound (midnight of the end date) is shown, where `filter_by_date` drops it (cleannest/dftools.py:23) |
| ReceiptsView.EndDateAfterMidnightHidden | pages/overview/receipts.py:49-51 | with the end date as bound, a receipt on the end date after midnight is not shown |
| ReceiptsView.LatestDayHiddenByDefault | pages/overview/receipts.py:35-51 | with the default range, ending at the latest date, a receipt of the latest day after midnight is a transaction but is not shown |

## Left out

- Reading the CSV exports, renaming their columns, writing tables to DuckDB (`df2db`), the Google Sheets reads, `load_expense_data`, `load_holidays` and `build_items_table`: file, database and network I/O. Each export file is a sequence of rows, and the expenses are a sequence of `Summary.Expense` rows.
- The timestamp format `%-m/%-d/%y %I:%-M %p`: parsing is a parameter `parse: string -> Option<Timestamp>`.
- Null cells: every modelled column holds a value, except the optional customer columns (email, phone, address and the rest), which are `Option`s. A row with a null status is dropped by the `status != "Cancelled"` filter in polars; the model keeps it.
- Unicode: title-casing and character classes are ASCII-only, and `\d` is an ASCII digit.
- `Ingestion.ReceiptTable`, `Ingestion.LoadCustomerData`: which of several rows with the same id `unique` keeps is not specified by polars, so the contracts only say that some input row with that id is kept.
- `Tables.SortDescendingBy`: the order of receipts with the same timestamp is not specified.
- The database connection wrappers, page routing, widgets, metrics formatting and all charts, including the `Charts` class and the monthly unique-customer chart data of the retention page.
- `Stats` reads its tables when the module is imported; the model takes the tables as parameters.
- `pages/orders.py`, `pages/revenue.py`, `pages/expenses.py` and `pages/overview/pricing.py`: UI pages outside the modelled core.
- Floating point: the mean and median branches of `sort_by_month`, `titan_usage`, `net_gross_pct`, and the unused `mean_transaction_value` aggregate of the clients page. Averages and rates are exact `real`s.
- `Summary.SortByMonth`: the mean and median branches return a `FloatingPointMetric` error instead of a table.
- `Summary.CashFlowRows`: the second join with the `daily_revenue` list column, and the descending display sort, are not modelled; rows follow the revenue months.
- `Clients.Aggregates`: polars does not fix the order of `group_by` groups; the model lists customers in order of first receipt.
- `Clients.Aggregate`: `visits` holds the distinct dates rather than their `%Y-%m-%d` strings; distinct dates give distinct strings.
- The cohort pivot, `fill_null` and the numpy division (`pages/retention.py:155-179`): the model has the count of each (cohort, index) cell and the rate of each present cell, not the matrix or its column order.
- Date bounds against datetime columns (`cleannest/plotting.py:47`, `pages/overview/receipts.py:50-51`): a bound is a point in minutes, and a date used as a bound is its midnight (`Calendar.Midnight`); the model does not check the cast polars makes.
- The date widget returning a single date while the user picks a range: the unpacking at `pages/overview/receipts.py:35` then raises; the model takes two bounds or none.
- Calling `filter_by_date` with its default `None` bounds (`cleannest/dftools.py:6`): the comparisons with null keep no row; that call is not modelled, `DateFilter.FilterByDate` takes two bounds.
- `Models`: Pydantic validation and aliases, and the `created_at`/`updated_at`/`deleted_at` wall-clock defaults.
- `Ingestion.Normalise`: the CSV reader's type inference is not modelled. An all-digit id or phone column would be read as an integer and cast back to text without its leading zeros (`cleannest/ingestion.py:29`, `cleannest/ingestion.py:83-84`); the model keeps the exported text.
- No round trip between `Order.to_list` and the receipt extractor: the catalogue names ("Ariel Detergent", "Downey Fabcon", "Regular Wash") differ from the export patterns ("Ariel Liquid Detergent", "Downy Fabcon", "(TITAN )?Wash").
