/** Loading the exported tables: the receipts of every exported file into
    one table of distinct receipts, newest first; the customers of every
    exported file into one table of distinct customers with normalised
    names; and the item catalogue. Reading the files is outside the model:
    each file arrives as its sequence of rows, and the timestamp parser as
    a function. */
module Ingestion {
  import opened Results
  import opened Tables
  import opened Text
  import opened Calendar
  import opened Receipts
  import opened Models

  /** Why a load fails: there is no file to concatenate, or a file's
      conversion failed. */
  datatype LoadError = NoFiles | BadFile(file: nat, error: BatchError)

  predicate AllBatchesLoad(files: seq<seq<RawReceipt>>, parse: string -> Option<Timestamp>) {
    forall i :: 0 <= i < |files| ==> LoadReceiptBatch(files[i], parse).Success?
  }

  /** The converted receipts of each file. */
  function Batches(files: seq<seq<RawReceipt>>, parse: string -> Option<Timestamp>): (bs: seq<seq<Receipt>>)
    requires AllBatchesLoad(files, parse)
    ensures |bs| == |files|
    ensures forall i :: 0 <= i < |files| ==> bs[i] == LoadReceiptBatch(files[i], parse).value
  {
    seq(|files|, i requires 0 <= i < |files| => LoadReceiptBatch(files[i], parse).value)
  }

  /** The receipts table built from the concatenated receipts: one
      receipt kept per receipt id, newest first. */
  function ReceiptTable(all: seq<Receipt>): (r: seq<Receipt>)
    ensures forall i, j :: 0 <= i < j < |r| ==> r[i].receiptId != r[j].receiptId
    ensures KeySet(r, ReceiptId) == KeySet(all, ReceiptId)
    ensures forall x :: x in r ==> x in all
    ensures NonIncreasingBy(r, ReceiptMinutes)
  {
    var unique := UniqueBy(all, ReceiptId);
    var sorted := SortDescendingBy(unique, ReceiptMinutes);
    PermutationDistinctKeys(unique, sorted, ReceiptId);
    PermutationKeySet(unique, sorted, ReceiptId);
    assert forall x :: x in sorted ==> x in multiset(unique);
    sorted
  }

  /** The receipts table: every file converted, the results concatenated,
      one receipt kept per receipt id and the table sorted newest first.
      The load fails when there is no file or when some file fails,
      naming the first file that fails. */
  method LoadReceiptData(files: seq<seq<RawReceipt>>, parse: string -> Option<Timestamp>)
    returns (r: Result<seq<Receipt>, LoadError>)
    ensures files == [] ==> r == Failure(NoFiles)
    ensures r.Success? <==> files != [] && AllBatchesLoad(files, parse)
    ensures r.Failure? && r.error.BadFile? ==>
      r.error.file < |files|
      && LoadReceiptBatch(files[r.error.file], parse) == Failure(r.error.error)
      && forall i :: 0 <= i < r.error.file ==> LoadReceiptBatch(files[i], parse).Success?
    ensures r.Success? ==> r.value == ReceiptTable(Flatten(Batches(files, parse)))
  {
    var loaded := LoadEach(files, (file: seq<RawReceipt>) => LoadReceiptBatch(file, parse));
    if loaded.Failure? {
      return Failure(BadFile(loaded.error.0, loaded.error.1));
    }
    var frames := loaded.value;
    assert frames == Batches(files, parse);
    if frames == [] {
      return Failure(NoFiles);
    }
    r := Success(ReceiptTable(Flatten(frames)));
  }

  /** Loads the inputs one after the other, stopping at the first that
      fails and naming its position. */
  method LoadEach<A, B, E>(xs: seq<A>, load: A -> Result<B, E>) returns (r: Result<seq<B>, (nat, E)>)
    ensures r.Success? <==> forall i :: 0 <= i < |xs| ==> load(xs[i]).Success?
    ensures r.Success? ==> |r.value| == |xs| && forall i :: 0 <= i < |xs| ==> r.value[i] == load(xs[i]).value
    ensures r.Failure? ==> (r.error.0 < |xs| && load(xs[r.error.0]) == Failure(r.error.1)
      && forall i :: 0 <= i < r.error.0 ==> load(xs[i]).Success?)
  {
    var done: seq<B> := [];
    for i := 0 to |xs|
      invariant |done| == i
      invariant forall j :: 0 <= j < i ==> load(xs[j]).Success? && done[j] == load(xs[j]).value
    {
      var x := load(xs[i]);
      if x.Failure? {
        return Failure((i, x.error));
      }
      done := done + [x.value];
    }
    r := Success(done);
  }

  /** No receipt of the loaded table is a cancelled one. */
  lemma LoadedReceiptsNotCancelled(files: seq<seq<RawReceipt>>, parse: string -> Option<Timestamp>)
    requires AllBatchesLoad(files, parse)
    ensures forall x :: x in ReceiptTable(Flatten(Batches(files, parse))) ==> x.status != "Cancelled"
  {
    forall i | 0 <= i < |files|
      ensures forall x :: x in Batches(files, parse)[i] ==> x.status != "Cancelled"
    {
      NoCancelledReceipts(files[i], parse);
    }
  }

  /** One exported customer row, its columns renamed. */
  datatype RawCustomer = RawCustomer(
    customerId: string,
    customerName: string,
    email: Option<string>,
    phone: Option<string>,
    address: Option<string>,
    city: Option<string>,
    province: Option<string>,
    postalCode: Option<string>,
    country: Option<string>,
    customerCode: Option<string>,
    pointsBalance: Option<string>,
    note: Option<string>,
    firstVisit: Option<string>,
    lastVisit: Option<string>,
    totalVisits: Option<string>,
    totalSpent: Option<string>)

  function RawCustomerId(c: RawCustomer): string {
    c.customerId
  }

  function CustomerId(c: Customer): string {
    c.id
  }

  /** The five kept columns of a customer row, its name title-cased. */
  function Normalise(c: RawCustomer): (n: Customer)
    ensures n.id == c.customerId && n.email == c.email && n.phone == c.phone && n.address == c.address
    ensures IsTitleCased(n.name) && |n.name| == |c.customerName|
    ensures forall i :: 0 <= i < |n.name| ==> ToLower(n.name[i]) == ToLower(c.customerName[i])
  {
    Customer(c.customerId, TitleCase(c.customerName), c.email, c.phone, c.address)
  }

  /** The customers table: the files concatenated, the five kept columns
      selected, names title-cased and one row kept per customer id. The
      load fails when there is no file. */
  method LoadCustomerData(files: seq<seq<RawCustomer>>) returns (r: Result<seq<Customer>, LoadError>)
    ensures r.Failure? <==> files == []
    ensures r.Failure? ==> r.error == NoFiles
    ensures r.Success? ==>
      (forall i, j :: 0 <= i < j < |r.value| ==> r.value[i].id != r.value[j].id)
      && KeySet(r.value, CustomerId) == KeySet(Flatten(files), RawCustomerId)
      && (forall c :: c in r.value ==> exists x :: x in Flatten(files) && c == Normalise(x))
      && (forall c :: c in r.value ==> IsTitleCased(c.name))
  {
    // The appending loop over the exported files; each file arrives read
    // and with its columns renamed, so a step only appends it.
    var frames: seq<seq<RawCustomer>> := [];
    for i := 0 to |files|
      invariant frames == files[..i]
    {
      frames := frames + [files[i]];
    }
    assert frames == files;
    if frames == [] {
      return Failure(NoFiles);
    }
    var all := Flatten(frames);
    var normalised := Column(all, Normalise);
    var unique := UniqueBy(normalised, CustomerId);
    forall c | c in normalised ensures exists x :: x in all && c == Normalise(x) {
      var k :| 0 <= k < |normalised| && normalised[k] == c;
      assert all[k] in all;
    }
    assert KeySet(normalised, CustomerId) == KeySet(all, RawCustomerId) by {
      forall id | id in KeySet(all, RawCustomerId) ensures id in KeySet(normalised, CustomerId) {
        var x :| x in all && x.customerId == id;
        var k :| 0 <= k < |all| && all[k] == x;
        assert normalised[k] in normalised;
      }
    }
    r := Success(unique);
  }

  /** Loading already normalised customers again changes no name. */
  lemma NormaliseIdempotent(c: RawCustomer)
    ensures TitleCase(Normalise(c).name) == Normalise(c).name
  {
    TitleCaseIdempotent(c.customerName);
  }

  function Soap(): Option<string> {
    Some("soap")
  }

  function Service(): Option<string> {
    Some("service")
  }

  /** The item catalogue, costs in centavos. */
  function ItemList(): (items: seq<Item>)
    ensures |items| == 11
    ensures NoDuplicates(ItemNames(items))
    ensures forall i :: 0 <= i < |items| ==> items[i].cost > 0
    ensures forall i :: 0 <= i < |items| ==> items[i].category == Soap() || items[i].category == Service()
  {
    [
      Item("Ariel Detergent", Soap(), 1800),
      Item("Downey Fabcon", Soap(), 1200),
      Item("Zonrox Colorsafe Bleach", Soap(), 600),
      Item("Regular Wash", Service(), 6500),
      Item("TITAN Wash", Service(), 8000),
      Item("Hand Wash", Service(), 4500),
      Item("Regular Dry", Service(), 6500),
      Item("TITAN Dry", Service(), 9000),
      Item("Extra Regular Dry", Service(), 1700),
      Item("Extra TITAN Dry", Service(), 1700),
      Item("Fold", Service(), 3500)
    ]
  }
}
