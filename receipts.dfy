/** The receipts table: one exported point-of-sale row, its conversion into
    a typed receipt with the item counts read from its description, and the
    conversion of one exported file, which fails as a whole on the first
    row that cannot be converted. */
module Receipts {
  import opened Results
  import opened Tables
  import opened Text
  import opened Calendar

  datatype PaymentType = Cash | Gcash | Card

  datatype Cashier = Hannah | Matet

  function PaymentTypeName(p: PaymentType): string {
    match p
    case Cash => "Cash"
    case Gcash => "Gcash"
    case Card => "Card"
  }

  /** The cast to the payment-type enum: one of its three labels, or an
      error. */
  function ParsePaymentType(s: string): (r: Option<PaymentType>)
    ensures r.Some? <==> s == "Cash" || s == "Gcash" || s == "Card"
    ensures r.Some? ==> PaymentTypeName(r.value) == s
  {
    if s == "Cash" then Some(Cash)
    else if s == "Gcash" then Some(Gcash)
    else if s == "Card" then Some(Card)
    else None
  }

  function CashierName(c: Cashier): string {
    match c
    case Hannah => "Hannah"
    case Matet => "Matet"
  }

  /** The cast to the cashier enum. */
  function ParseCashier(s: string): (r: Option<Cashier>)
    ensures r.Some? <==> s == "Hannah" || s == "Matet"
    ensures r.Some? ==> CashierName(r.value) == s
  {
    if s == "Hannah" then Some(Hannah)
    else if s == "Matet" then Some(Matet)
    else None
  }

  /** Every payment type and cashier survives writing and reading back. */
  lemma EnumRoundTrips(p: PaymentType, c: Cashier)
    ensures ParsePaymentType(PaymentTypeName(p)) == Some(p)
    ensures ParseCashier(CashierName(c)) == Some(c)
  {
    match p
    case Cash =>
    case Gcash =>
    case Card =>
  }

  /** One exported row, its columns renamed. Amounts are whole centavos. */
  datatype RawReceipt = RawReceipt(
    timestamp: string,
    receiptId: string,
    receiptType: string,
    grossSales: int,
    discounts: int,
    totalCollected: int,
    paymentType: string,
    description: string,
    cashierName: string,
    customerName: string,
    status: string)

  /** A receipt of the receipts table. */
  datatype Receipt = Receipt(
    timestamp: Timestamp,
    receiptId: string,
    receiptType: string,
    grossSales: int,
    discounts: int,
    totalCollected: int,
    paymentType: PaymentType,
    description: string,
    cashier: Cashier,
    customerName: string,
    status: string,
    nWash: nat,
    nDry: nat,
    nFold: nat,
    nDetergent: nat,
    nFabcon: nat,
    nBleach: nat,
    isTitan: bool,
    isFullLoad: bool,
    hasExtra: bool)

  /** The texts that may follow the captured digit in each item pattern;
      `(TITAN )?` gives two alternatives. */
  const WashPatterns: seq<string> := [" x Wash", " x TITAN Wash"]
  const DryPatterns: seq<string> := [" x Dry", " x TITAN Dry"]
  const FoldPatterns: seq<string> := [" x Fold"]
  const DetergentPatterns: seq<string> := [" x Ariel Liquid Detergent"]
  const FabconPatterns: seq<string> := [" x Downy Fabcon"]
  const BleachPatterns: seq<string> := [" x Zonrox Colorsafe Bleach"]

  /** An item pattern matches `desc` starting at `p`: a digit there,
      followed by one of the alternatives. */
  predicate MatchAt(desc: string, p: int, alts: seq<string>) {
    0 <= p < |desc| && IsDigit(desc[p]) && exists a :: a in alts && a <= desc[p + 1..]
  }

  /** `p` is the leftmost position where the pattern matches. */
  predicate FirstMatch(desc: string, p: int, alts: seq<string>) {
    MatchAt(desc, p, alts) && forall q :: 0 <= q < p ==> !MatchAt(desc, q, alts)
  }

  function FindMatch(desc: string, alts: seq<string>, p: nat): (r: Option<nat>)
    requires p <= |desc|
    ensures r.Some? ==> p <= r.value && MatchAt(desc, r.value, alts)
    ensures r.Some? ==> forall q :: p <= q < r.value ==> !MatchAt(desc, q, alts)
    ensures r.None? ==> forall q :: p <= q < |desc| ==> !MatchAt(desc, q, alts)
    decreases |desc| - p
  {
    if p == |desc| then None
    else if MatchAt(desc, p, alts) then Some(p)
    else FindMatch(desc, alts, p + 1)
  }

  /** A `str.extract` of the pattern's digit with nulls filled by 0: the
      digit at the leftmost match, or 0 when the pattern does not occur. */
  function ExtractCount(desc: string, alts: seq<string>): (n: nat)
    ensures n <= 9
  {
    match FindMatch(desc, alts, 0)
    case None => 0
    case Some(p) => DigitValue(desc[p])
  }

  /** The count is the digit at the leftmost match, and 0 exactly when the
      pattern matches nowhere or its leftmost digit is `0`. */
  lemma ExtractCountMeaning(desc: string, alts: seq<string>)
    ensures (forall p :: 0 <= p < |desc| ==> !MatchAt(desc, p, alts)) ==> ExtractCount(desc, alts) == 0
    ensures forall p :: FirstMatch(desc, p, alts) ==> ExtractCount(desc, alts) == DigitValue(desc[p])
  {
    match FindMatch(desc, alts, 0)
    case None =>
    case Some(p) =>
  }

  /** A description that starts with a digit and one of the alternatives
      yields that digit, whatever follows. */
  lemma {:induction false} LeadingItemCount(d: nat, alt: string, rest: string, alts: seq<string>)
    requires d <= 9 && alt in alts
    ensures ExtractCount([DigitChar(d)] + alt + rest, alts) == d
  {
    var desc := [DigitChar(d)] + alt + rest;
    assert desc[1..] == alt + rest;
    assert alt <= desc[1..];
    assert FirstMatch(desc, 0, alts);
    ExtractCountMeaning(desc, alts);
  }

  /** `<d> x Wash` and `<d> x TITAN Wash` both count `d` washes, and the
      same holds for dryer runs. */
  lemma TitanAndRegularCountAlike(d: nat, rest: string)
    requires d <= 9
    ensures ExtractCount([DigitChar(d)] + " x Wash" + rest, WashPatterns) == d
    ensures ExtractCount([DigitChar(d)] + " x TITAN Wash" + rest, WashPatterns) == d
    ensures ExtractCount([DigitChar(d)] + " x Dry" + rest, DryPatterns) == d
    ensures ExtractCount([DigitChar(d)] + " x TITAN Dry" + rest, DryPatterns) == d
  {
    LeadingItemCount(d, " x Wash", rest, WashPatterns);
    LeadingItemCount(d, " x TITAN Wash", rest, WashPatterns);
    LeadingItemCount(d, " x Dry", rest, DryPatterns);
    LeadingItemCount(d, " x TITAN Dry", rest, DryPatterns);
  }

  /** Why a row cannot be converted. */
  datatype Defect = BadTimestamp | BadPaymentType | BadCashier

  predicate HasDefect(raw: RawReceipt, parse: string -> Option<Timestamp>, d: Defect) {
    match d
    case BadTimestamp => parse(raw.timestamp).None?
    case BadPaymentType => ParsePaymentType(raw.paymentType).None?
    case BadCashier => ParseCashier(raw.cashierName).None?
  }

  /** The timestamp parses and both enum casts succeed. */
  predicate Convertible(raw: RawReceipt, parse: string -> Option<Timestamp>) {
    parse(raw.timestamp).Some?
    && ParsePaymentType(raw.paymentType).Some?
    && ParseCashier(raw.cashierName).Some?
  }

  /** A defect of a row that cannot be converted. */
  function RowDefect(raw: RawReceipt, parse: string -> Option<Timestamp>): (d: Defect)
    requires !Convertible(raw, parse)
    ensures HasDefect(raw, parse, d)
  {
    if parse(raw.timestamp).None? then BadTimestamp
    else if ParsePaymentType(raw.paymentType).None? then BadPaymentType
    else BadCashier
  }

  /** The typed receipt of a row: casts applied, the six item counts read
      from the description and the three flags derived from them. */
  function Convert(raw: RawReceipt, parse: string -> Option<Timestamp>): (r: Receipt)
    requires Convertible(raw, parse)
    ensures Some(r.timestamp) == parse(raw.timestamp)
    ensures PaymentTypeName(r.paymentType) == raw.paymentType
    ensures CashierName(r.cashier) == raw.cashierName
    ensures r.receiptId == raw.receiptId && r.receiptType == raw.receiptType
    ensures r.grossSales == raw.grossSales && r.discounts == raw.discounts
    ensures r.totalCollected == raw.totalCollected && r.description == raw.description
    ensures r.customerName == raw.customerName && r.status == raw.status
    ensures r.nWash == ExtractCount(raw.description, WashPatterns)
    ensures r.nDry == ExtractCount(raw.description, DryPatterns)
    ensures r.nFold == ExtractCount(raw.description, FoldPatterns)
    ensures r.nDetergent == ExtractCount(raw.description, DetergentPatterns)
    ensures r.nFabcon == ExtractCount(raw.description, FabconPatterns)
    ensures r.nBleach == ExtractCount(raw.description, BleachPatterns)
    ensures r.isTitan <==> exists k :: 0 <= k <= |raw.description| && OccursAt(raw.description, "TITAN", k)
    ensures r.isFullLoad <==> r.nWash > 0 && r.nDry > 0 && r.nFold > 0 && r.nDetergent > 0 && r.nFabcon > 0
    ensures r.hasExtra <==> r.nBleach > 0 || r.nDetergent > 1 || r.nFabcon > 1
  {
    var desc := raw.description;
    var nWash := ExtractCount(desc, WashPatterns);
    var nDry := ExtractCount(desc, DryPatterns);
    var nFold := ExtractCount(desc, FoldPatterns);
    var nDetergent := ExtractCount(desc, DetergentPatterns);
    var nFabcon := ExtractCount(desc, FabconPatterns);
    var nBleach := ExtractCount(desc, BleachPatterns);
    Receipt(
      parse(raw.timestamp).value, raw.receiptId, raw.receiptType,
      raw.grossSales, raw.discounts, raw.totalCollected,
      ParsePaymentType(raw.paymentType).value, desc,
      ParseCashier(raw.cashierName).value, raw.customerName, raw.status,
      nWash, nDry, nFold, nDetergent, nFabcon, nBleach,
      Contains(desc, "TITAN"),
      nWash > 0 && nDry > 0 && nFold > 0 && nDetergent > 0 && nFabcon > 0,
      nBleach > 0 || nDetergent > 1 || nFabcon > 1)
  }

  predicate NotCancelled(raw: RawReceipt) {
    raw.status != "Cancelled"
  }

  /** The row of a file that stops its conversion, and why. */
  datatype BatchError = BatchError(row: nat, defect: Defect)

  /** One exported file: cancelled rows dropped, every other row converted.
      A row that cannot be converted makes the whole file fail; the error
      names the first such row. */
  function LoadReceiptBatch(rows: seq<RawReceipt>, parse: string -> Option<Timestamp>): (r: Result<seq<Receipt>, BatchError>)
    ensures r.Success? ==> |r.value| <= |rows|
    ensures r.Failure? ==> r.error.row < |rows|
  {
    if rows == [] then Success([])
    else
      match LoadReceiptBatch(rows[1..], parse)
      case Failure(e) =>
        if NotCancelled(rows[0]) && !Convertible(rows[0], parse) then Failure(BatchError(0, RowDefect(rows[0], parse)))
        else Failure(BatchError(e.row + 1, e.defect))
      case Success(rs) =>
        if !NotCancelled(rows[0]) then Success(rs)
        else if !Convertible(rows[0], parse) then Failure(BatchError(0, RowDefect(rows[0], parse)))
        else Success([Convert(rows[0], parse)] + rs)
  }

  /** A file converts exactly when every row that is not cancelled can be
      converted: there is no partial result. */
  lemma {:induction false} BatchSucceedsIff(rows: seq<RawReceipt>, parse: string -> Option<Timestamp>)
    ensures LoadReceiptBatch(rows, parse).Success? <==> AllConvertible(rows, parse)
  {
    if rows != [] {
      BatchSucceedsIff(rows[1..], parse);
      AllConvertibleCons(rows, parse);
    }
  }

  /** Every row that is not cancelled can be converted. */
  predicate AllConvertible(rows: seq<RawReceipt>, parse: string -> Option<Timestamp>) {
    forall i :: 0 <= i < |rows| && NotCancelled(rows[i]) ==> Convertible(rows[i], parse)
  }

  lemma AllConvertibleCons(rows: seq<RawReceipt>, parse: string -> Option<Timestamp>)
    requires rows != []
    ensures AllConvertible(rows, parse) <==>
      (NotCancelled(rows[0]) ==> Convertible(rows[0], parse)) && AllConvertible(rows[1..], parse)
  {
    assert forall i :: 1 <= i < |rows| ==> rows[i] == rows[1..][i - 1];
  }

  /** A converted file holds the conversions of its rows that are not
      cancelled, in file order. */
  lemma {:induction false} BatchContents(rows: seq<RawReceipt>, parse: string -> Option<Timestamp>)
    requires LoadReceiptBatch(rows, parse).Success?
    ensures
      var rs := LoadReceiptBatch(rows, parse).value;
      var kept := Filter(rows, NotCancelled);
      |rs| == |kept|
      && forall k :: 0 <= k < |kept| ==> Convertible(kept[k], parse) && rs[k] == Convert(kept[k], parse)
  {
    if rows != [] {
      BatchContents(rows[1..], parse);
      var rs := LoadReceiptBatch(rows, parse).value;
      var rest := LoadReceiptBatch(rows[1..], parse).value;
      var kept := Filter(rows[1..], NotCancelled);
      assert rows == [rows[0]] + rows[1..];
      if NotCancelled(rows[0]) {
        assert Filter(rows, NotCancelled) == [rows[0]] + kept;
        assert rs == [Convert(rows[0], parse)] + rest;
        ConvertsCons(rows[0], kept, rest, parse);
      } else {
        assert Filter(rows, NotCancelled) == kept;
      }
    }
  }

  /** Converting one more row in front keeps a list of conversions. */
  lemma ConvertsCons(x: RawReceipt, kept: seq<RawReceipt>, rest: seq<Receipt>, parse: string -> Option<Timestamp>)
    requires Convertible(x, parse) && |rest| == |kept|
    requires forall k :: 0 <= k < |kept| ==> Convertible(kept[k], parse) && rest[k] == Convert(kept[k], parse)
    ensures forall k :: 0 <= k < |kept| + 1 ==>
      Convertible(([x] + kept)[k], parse) && ([Convert(x, parse)] + rest)[k] == Convert(([x] + kept)[k], parse)
  {
    forall k | 1 <= k < |kept| + 1
      ensures Convertible(([x] + kept)[k], parse) && ([Convert(x, parse)] + rest)[k] == Convert(([x] + kept)[k], parse)
    {
      ConsIndex(x, kept, k);
      ConsIndex(Convert(x, parse), rest, k);
    }
  }

  /** A failing file names a row that is not cancelled and has a defect,
      and every earlier row that is not cancelled converts. */
  lemma {:induction false} BatchFailure(rows: seq<RawReceipt>, parse: string -> Option<Timestamp>)
    requires LoadReceiptBatch(rows, parse).Failure?
    ensures
      var e := LoadReceiptBatch(rows, parse).error;
      e.row < |rows| && NotCancelled(rows[e.row]) && HasDefect(rows[e.row], parse, e.defect)
      && forall i :: 0 <= i < e.row && NotCancelled(rows[i]) ==> Convertible(rows[i], parse)
  {
    if !(NotCancelled(rows[0]) && !Convertible(rows[0], parse)) {
      BatchFailure(rows[1..], parse);
      assert forall i :: 1 <= i < |rows| ==> rows[i] == rows[1..][i - 1];
    }
  }

  /** No receipt of a converted file is a cancelled one. */
  lemma NoCancelledReceipts(rows: seq<RawReceipt>, parse: string -> Option<Timestamp>)
    requires LoadReceiptBatch(rows, parse).Success?
    ensures forall x :: x in LoadReceiptBatch(rows, parse).value ==> x.status != "Cancelled"
  {
    var rs := LoadReceiptBatch(rows, parse).value;
    var kept := Filter(rows, NotCancelled);
    BatchContents(rows, parse);
    forall x | x in rs ensures x.status != "Cancelled" {
      var k :| 0 <= k < |rs| && rs[k] == x;
      assert kept[k] in kept;
    }
  }

  /** The instant of a receipt, by which the table is sorted. */
  function ReceiptMinutes(x: Receipt): int {
    Minutes(x.timestamp)
  }

  function ReceiptId(x: Receipt): string {
    x.receiptId
  }
}
