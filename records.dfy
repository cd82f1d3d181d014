/**
 * The `LineItem` and `Invoice` models as explicit validation pipelines.
 *
 * Each field runs its validators in the order they are defined in the class;
 * the first one that raises stops that field and contributes its message.
 * Fields are validated in declaration order, and a validator that looks at
 * another field sees only the fields declared before its own that passed
 * (pydantic's `info.data`). A record is built when no field failed; otherwise
 * it is rejected with the messages of all failed fields, in field order, the
 * messages of a rejected line item list coming at that list's place.
 */
module Records {
  import opened Types
  import opened Text
  import opened Numbers
  import opened Dates
  import opened Rules

  /** A line item as it arrives: every key may be missing, null or a string. */
  datatype RawLineItem = RawLineItem(
    description: Field<string>,
    itemNumber: Field<string>,
    quantity: Field<string>,
    pricePerUnit: Field<string>,
    lineTotal: Field<string>)

  /** A validated line item: the three amounts converted. */
  datatype LineItem = LineItem(
    description: Option<string>,
    itemNumber: Option<string>,
    quantity: Option<real>,
    pricePerUnit: Option<real>,
    lineTotal: Option<real>)

  /** An invoice as it arrives. */
  datatype RawInvoice = RawInvoice(
    invoiceId: Field<int>,
    invoiceNumber: Field<string>,
    referenceNumber: Field<string>,
    invoiceDate: Field<string>,
    sellerName: Field<string>,
    buyerName: Field<string>,
    customerNumber: Field<string>,
    endCustomerNumber: Field<string>,
    netTotal: Field<string>,
    taxPercentage: Field<string>,
    taxAmount: Field<string>,
    currency: Field<string>,
    grossTotal: Field<string>,
    lineItems: Field<seq<RawLineItem>>)

  /** The result of constructing a model: the record, or every message raised on the way. */
  datatype Built<+T> = Built(value: T) | Rejected(errors: seq<ErrorCode>)

  function Problems<T>(b: Built<T>): seq<ErrorCode>
  {
    if b.Rejected? then b.errors else []
  }

  /**
   * What an `Optional[...]` field without a default receives: a missing key
   * is refused before any validator runs, a null is `None`.
   */
  function Declared<T>(f: Field<T>): (r: Checked<Option<T>>)
    ensures r.Fail? <==> f.Absent?
    ensures r.Fail? ==> r.code == FieldRequired
    ensures r.Pass? ==> (r.value.Some? <==> f.Given?) && (f.Given? ==> r.value.value == f.value)
  {
    match f
    case Absent => Fail(FieldRequired)
    case Null => Pass(None)
    case Given(x) => Pass(Some(x))
  }

  /** `convert_numbers` / `convert_totals`: a numeric field read with `parse_number`. */
  function NumberField(f: Field<string>): (r: Checked<Option<real>>)
    ensures r.Fail? ==> r.code == FieldRequired || r.code.NumberFormat?
    ensures r.Fail? <==> f.Absent? || (f.Given? && ParseNumber(Some(f.value)).Fail?)
    ensures r.Pass? && r.value.Some? ==> f.Given? && ParseNumber(Some(f.value)) == Pass(r.value)
    ensures f.Null? ==> r == Pass(None)
  {
    var v :- Declared(f);
    ParseNumber(v)
  }

  // ---------------------------------------------------------------- line items

  /** The outcome of each field of one line item. */
  datatype LineChecks = LineChecks(
    description: Checked<Option<string>>,
    itemNumber: Checked<Option<string>>,
    quantity: Checked<Option<real>>,
    pricePerUnit: Checked<Option<real>>,
    lineTotal: Checked<Option<real>>)

  /** `line_total` once converted: checked against the quantity and unit price that passed. */
  function LineTotalCheck(total: Checked<Option<real>>, qty: Option<real>, ppu: Option<real>): (r: Checked<Option<real>>)
    ensures total.Fail? ==> r == total
    ensures total.Pass? ==> r == CheckLineTotal(total.value, qty, ppu)
    ensures r.Pass? ==> r.value.Some? && qty.Some? && ppu.Some?
    ensures r.Pass? ==> Round2(r.value.value) == Round2(LineAmount(qty.value, ppu.value))
  {
    var v :- total;
    CheckLineTotal(v, qty, ppu)
  }

  /**
   * The outcome of each field of a line item, given how its three amounts
   * converted: the two text fields only need to be declared.
   */
  function LineOutcome(
    description: Field<string>, itemNumber: Field<string>,
    quantity: Checked<Option<real>>, pricePerUnit: Checked<Option<real>>, lineTotal: Checked<Option<real>>): LineChecks
  {
    LineChecks(
      Declared(description),
      Declared(itemNumber),
      quantity,
      pricePerUnit,
      LineTotalCheck(lineTotal, Passed(quantity), Passed(pricePerUnit)))
  }

  function CheckLineFields(raw: RawLineItem): LineChecks
  {
    LineOutcome(
      raw.description, raw.itemNumber,
      NumberField(raw.quantity), NumberField(raw.pricePerUnit), NumberField(raw.lineTotal))
  }

  function LineErrors(c: LineChecks): seq<ErrorCode>
  {
    Errors(c.description) + Errors(c.itemNumber) + Errors(c.quantity) + Errors(c.pricePerUnit) + Errors(c.lineTotal)
  }

  /**
   * `LineItem(**raw)`. A built line item has all three amounts, and its line
   * total agrees with quantity times unit price to the cent; a rejected one
   * carries at least one message.
   */
  function ValidateLineItem(raw: RawLineItem): (r: Built<LineItem>)
    ensures r.Built? ==> r.value.quantity.Some? && r.value.pricePerUnit.Some? && r.value.lineTotal.Some?
    ensures r.Built? ==>
      Round2(r.value.lineTotal.value) == Round2(LineAmount(r.value.quantity.value, r.value.pricePerUnit.value))
    ensures r.Rejected? ==> r.errors != []
  {
    var c := CheckLineFields(raw);
    var errors := LineErrors(c);
    assert c.lineTotal == LineTotalCheck(NumberField(raw.lineTotal), Passed(c.quantity), Passed(c.pricePerUnit));
    if errors != [] then Rejected(errors)
    else Built(LineItem(c.description.value, c.itemNumber.value, c.quantity.value, c.pricePerUnit.value, c.lineTotal.value))
  }

  /** The messages of a line item are those of its fields, in field order. */
  lemma {:induction false} LineProblems(raw: RawLineItem)
    ensures Problems(ValidateLineItem(raw)) == LineErrors(CheckLineFields(raw))
  {
  }

  /** The messages a line item can raise. */
  predicate LineCode(e: ErrorCode)
  {
    e == FieldRequired || e == LineValueMissing || e.NumberFormat? || e.LineTotalMismatch?
  }

  /** The messages of the five field outcomes are line item messages when the amounts failed only in conversion. */
  lemma {:induction false} OutcomeCodes(
    d: Field<string>, i: Field<string>, q: Checked<Option<real>>, p: Checked<Option<real>>, t: Checked<Option<real>>,
    e: ErrorCode)
    requires q.Fail? ==> q.code == FieldRequired || q.code.NumberFormat?
    requires p.Fail? ==> p.code == FieldRequired || p.code.NumberFormat?
    requires t.Fail? ==> t.code == FieldRequired || t.code.NumberFormat?
    requires e in LineErrors(LineOutcome(d, i, q, p, t))
    ensures LineCode(e)
  {
    var c := LineOutcome(d, i, q, p, t);
    assert c.lineTotal == LineTotalCheck(t, Passed(q), Passed(p));
  }

  /** A line item raises only line item messages. */
  lemma {:induction false} LineItemCodes(raw: RawLineItem, e: ErrorCode)
    requires e in Problems(ValidateLineItem(raw))
    ensures LineCode(e)
  {
    LineProblems(raw);
    OutcomeCodes(raw.description, raw.itemNumber,
      NumberField(raw.quantity), NumberField(raw.pricePerUnit), NumberField(raw.lineTotal), e);
  }

  /** The messages of a list of outcomes, one outcome after the other. */
  function AllProblems<T>(bs: seq<Built<T>>): seq<ErrorCode>
  {
    if bs == [] then [] else Problems(bs[0]) + AllProblems(bs[1..])
  }

  /** A list of outcomes, none rejected without a message, has no messages exactly when every outcome is built. */
  lemma {:induction false} AllProblemsEmpty<T>(bs: seq<Built<T>>)
    requires forall i :: 0 <= i < |bs| ==> bs[i].Rejected? ==> bs[i].errors != []
    ensures AllProblems(bs) == [] <==> forall i :: 0 <= i < |bs| ==> bs[i].Built?
  {
    if bs != [] {
      AllProblemsEmpty(bs[1..]);
      assert forall i :: 1 <= i < |bs| ==> bs[i] == bs[1..][i - 1];
    }
  }

  /** Every message of a list of outcomes is a message of one of them. */
  lemma {:induction false} AllProblemsFrom<T>(bs: seq<Built<T>>, e: ErrorCode)
    requires e in AllProblems(bs)
    ensures exists i :: 0 <= i < |bs| && e in Problems(bs[i])
  {
    if e !in Problems(bs[0]) {
      AllProblemsFrom(bs[1..], e);
      var i :| 0 <= i < |bs[1..]| && e in Problems(bs[1..][i]);
      assert bs[1..][i] == bs[i + 1];
    }
  }

  /** Each item of a list validated on its own. */
  function LineResults(raws: seq<RawLineItem>): seq<Built<LineItem>>
  {
    seq(|raws|, i requires 0 <= i < |raws| => ValidateLineItem(raws[i]))
  }

  /** The messages of the items of a list, item by item. */
  function ItemErrors(raws: seq<RawLineItem>): seq<ErrorCode>
  {
    AllProblems(LineResults(raws))
  }

  /** The messages of a list are all line item messages. */
  lemma {:induction false} ItemErrorsCodes(raws: seq<RawLineItem>, e: ErrorCode)
    requires e in ItemErrors(raws)
    ensures LineCode(e)
  {
    var bs := LineResults(raws);
    AllProblemsFrom(bs, e);
    var i :| 0 <= i < |bs| && e in Problems(bs[i]);
    LineItemCodes(raws[i], e);
  }

  /** `List[LineItem]`: every item is validated; the list is built only when all items are. */
  function ValidateLineItems(raws: seq<RawLineItem>): Built<seq<LineItem>>
  {
    var bs := LineResults(raws);
    var errors := AllProblems(bs);
    if errors != [] then Rejected(errors)
    else
      assert forall i :: 0 <= i < |bs| ==> bs[i] == ValidateLineItem(raws[i]);
      AllProblemsEmpty(bs);
      Built(seq(|bs|, i requires 0 <= i < |bs| => bs[i].value))
  }

  /**
   * A list is built exactly when every item is, and then it holds the built
   * items in order; otherwise it carries the messages of its items.
   */
  lemma {:induction false} LineItemsBuilt(raws: seq<RawLineItem>)
    ensures ValidateLineItems(raws).Rejected? ==>
      ValidateLineItems(raws).errors == ItemErrors(raws) && ItemErrors(raws) != []
    ensures ValidateLineItems(raws).Built? <==> forall i :: 0 <= i < |raws| ==> ValidateLineItem(raws[i]).Built?
    ensures ValidateLineItems(raws).Built? ==>
      |ValidateLineItems(raws).value| == |raws| &&
      forall i :: 0 <= i < |raws| ==> ValidateLineItem(raws[i]) == Built(ValidateLineItems(raws).value[i])
  {
    var bs := LineResults(raws);
    assert forall i :: 0 <= i < |raws| ==> bs[i] == ValidateLineItem(raws[i]);
    AllProblemsEmpty(bs);
  }

  /** `check_line_items_not_empty`, after the items themselves were validated. */
  function LineItemsField(f: Field<seq<RawLineItem>>): (r: Built<seq<LineItem>>)
    ensures f.Absent? ==> r == Rejected([FieldRequired])
    ensures f == Null || f == Given([]) ==> r == Rejected([NoLineItems])
    ensures r.Built? ==> f.Given? && r.value != [] && |r.value| == |f.value|
    ensures r.Rejected? ==> r.errors != []
  {
    match f
    case Absent => Rejected([FieldRequired])
    case Null => Rejected([NoLineItems])
    case Given(raws) =>
      LineItemsBuilt(raws);
      var items := ValidateLineItems(raws);
      if items.Rejected? then items
      else if items.value == [] then Rejected([NoLineItems])
      else items
  }

  /** The messages of `line_items` are line item messages or the empty-list message. */
  lemma {:induction false} LineItemsCodes(f: Field<seq<RawLineItem>>, e: ErrorCode)
    requires e in Problems(LineItemsField(f))
    ensures LineCode(e) || e == NoLineItems
  {
    if f.Given? && ValidateLineItems(f.value).Rejected? {
      ItemErrorsCodes(f.value, e);
    }
  }

  // ------------------------------------------------------------------ invoice

  /** A null, or a string with nothing but whitespace: what `check_required_fields` refuses. */
  predicate Unfilled(f: Field<string>)
  {
    f.Null? || (f.Given? && Blank(f.value))
  }

  /** A declared string field whose first validator is `check_required_fields`. */
  function RequiredField(f: Field<string>, name: FieldName): (r: Checked<Option<string>>)
    ensures r.Fail? <==> f.Absent? || Unfilled(f)
    ensures r.Fail? ==> r.code == (if f.Absent? then FieldRequired else MissingField(name))
    ensures r.Pass? ==> r.value == Some(f.value)
  {
    var v :- Declared(f);
    CheckRequired(v, name)
  }

  /** `invoice_date`: required, then `validate_date_format`. */
  function DateField(f: Field<string>, currentYear: int): (r: Checked<Option<string>>)
    ensures r.Fail? ==> r.code in {FieldRequired, MissingField(InvoiceDate), InvalidDateFormat}
    ensures r.Pass? ==> f.Given? && r.value == Some(Strip(f.value))
  {
    var v :- RequiredField(f, InvoiceDate);
    CheckInvoiceDate(v, currentYear)
  }

  /** The line totals of the items `info.data` holds, in their order. */
  function LineTotals(items: Option<seq<LineItem>>): (r: Option<seq<Option<real>>>)
    ensures r.Some? <==> items.Some?
    ensures r.Some? ==>
      |r.value| == |items.value| && forall i :: 0 <= i < |items.value| ==> r.value[i] == items.value[i].lineTotal
  {
    if items.None? then None
    else Some(seq(|items.value|, i requires 0 <= i < |items.value| => items.value[i].lineTotal))
  }

  /** A required amount, as `check_required_fields` and `convert_totals` leave it. */
  function RequiredAmount(f: Field<string>, name: FieldName): (r: Checked<Option<real>>)
    ensures r == Fail(FieldRequired) <==> f.Absent?
    ensures r == Fail(MissingField(name)) <==> Unfilled(f)
    ensures r.Fail? ==> r.code in {FieldRequired, MissingField(name)} || r.code.NumberFormat?
    ensures r.Fail? <==> f.Absent? || Unfilled(f) || ParseNumber(Some(f.value)).Fail?
    ensures r.Pass? ==> f.Given? && r == ParseNumber(Some(f.value)) && r.value.Some?
  {
    var v :- RequiredField(f, name);
    ParseNumber(v)
  }

  /** The validators of `net_total` after the conversion: reconciled against the line items given, then sign-checked. */
  function NetChecks(n: Checked<Option<real>>, items: Option<seq<LineItem>>): (r: Checked<Option<real>>)
    ensures n.Fail? ==> r == n
    ensures r.Fail? && n.Pass? ==> r.code == NegativeAmount(NetTotal) || (r.code.NetTotalMismatch? && items.Some?)
  {
    var x :- n;
    var x' :- CheckNetTotal(x, LineTotals(items));
    CheckNonNegative(x', NetTotal)
  }

  /** `net_total`: required, converted, reconciled against the line items given, then sign-checked. */
  function NetField(f: Field<string>, items: Option<seq<LineItem>>): (r: Checked<Option<real>>)
    ensures r.Fail? ==>
      r.code in {FieldRequired, MissingField(NetTotal), NegativeAmount(NetTotal)}
      || r.code.NumberFormat? || (r.code.NetTotalMismatch? && items.Some?)
  {
    NetChecks(RequiredAmount(f, NetTotal), items)
  }

  /** `tax_amount`: converted, then sign-checked. */
  function TaxAmountField(f: Field<string>): (r: Checked<Option<real>>)
    ensures r.Fail? ==> r.code in {FieldRequired, NegativeAmount(TaxAmount)} || r.code.NumberFormat?
  {
    var t :- NumberField(f);
    CheckNonNegative(t, TaxAmount)
  }

  /** The declared default of `currency`. */
  const DefaultCurrency: string := "EUR"

  /** `currency`: a missing key takes the default, which no validator sees; anything else is checked. */
  function CurrencyField(f: Field<string>): (r: Checked<Option<string>>)
    ensures r.Fail? ==> r.code == InvalidCurrency
    ensures f.Absent? ==> r == Pass(Some(DefaultCurrency))
  {
    match f
    case Absent => Pass(Some(DefaultCurrency))
    case Null => CheckCurrency(None)
    case Given(c) => CheckCurrency(Some(c))
  }

  /** The validators of `gross_total` after the conversion: reconciled against the net total and tax amount that passed, then sign-checked. */
  function GrossChecks(g: Checked<Option<real>>, net: Option<real>, tax: Option<real>): (r: Checked<Option<real>>)
    ensures g.Fail? ==> r == g
    ensures r.Fail? && g.Pass? ==> r.code == NegativeAmount(GrossTotal) || (r.code.GrossTotalMismatch? && net.Some? && tax.Some?)
  {
    var x :- g;
    var x' :- CheckGrossTotal(x, net, tax);
    CheckNonNegative(x', GrossTotal)
  }

  /** `gross_total`: required, converted, reconciled, then sign-checked. */
  function GrossField(f: Field<string>, net: Option<real>, tax: Option<real>): (r: Checked<Option<real>>)
    ensures r.Fail? ==>
      r.code in {FieldRequired, MissingField(GrossTotal), NegativeAmount(GrossTotal)}
      || r.code.NumberFormat? || (r.code.GrossTotalMismatch? && net.Some? && tax.Some?)
  {
    GrossChecks(RequiredAmount(f, GrossTotal), net, tax)
  }

  /**
   * `net_total` as the invoice checks it: `line_items` is declared after it,
   * so `info.data` has no entry for the items yet and the sum is never taken.
   */
  function NetOutcome(inv: RawInvoice): Checked<Option<real>>
  {
    NetField(inv.netTotal, None)
  }

  /** `gross_total` as the invoice checks it, against whatever net and tax amounts passed. */
  function GrossOutcome(inv: RawInvoice): Checked<Option<real>>
  {
    GrossField(inv.grossTotal, Passed(NetOutcome(inv)), Passed(TaxAmountField(inv.taxAmount)))
  }

  /** The fields of `Invoice`, in declaration order. */
  const FieldOrder: seq<FieldName> := [
    InvoiceId, InvoiceNumber, ReferenceNumber, InvoiceDate, SellerName, BuyerName, CustomerNumber,
    EndCustomerNumber, NetTotal, TaxPercentage, TaxAmount, Currency, GrossTotal, LineItems]

  lemma {:induction false} EveryField(k: FieldName)
    ensures k in FieldOrder
  {
  }

  /** What the validators of each field of `Invoice(**raw)` leave, one entry per field. */
  datatype FieldResults = FieldResults(
    invoiceId: Checked<Option<int>>, invoiceNumber: Checked<Option<string>>,
    referenceNumber: Checked<Option<string>>, invoiceDate: Checked<Option<string>>,
    sellerName: Checked<Option<string>>, buyerName: Checked<Option<string>>,
    customerNumber: Checked<Option<string>>, endCustomerNumber: Checked<Option<string>>,
    netTotal: Checked<Option<real>>, taxPercentage: Checked<Option<real>>, taxAmount: Checked<Option<real>>,
    currency: Checked<Option<string>>, grossTotal: Checked<Option<real>>, lineItems: Built<seq<LineItem>>)

  /** Every field validated on its own value and on whichever earlier fields it reads. */
  function Results(inv: RawInvoice, currentYear: int): FieldResults
  {
    FieldResults(
      Declared(inv.invoiceId),
      RequiredField(inv.invoiceNumber, InvoiceNumber),
      Declared(inv.referenceNumber),
      DateField(inv.invoiceDate, currentYear),
      RequiredField(inv.sellerName, SellerName),
      RequiredField(inv.buyerName, BuyerName),
      Declared(inv.customerNumber),
      Declared(inv.endCustomerNumber),
      NetOutcome(inv),
      NumberField(inv.taxPercentage),
      TaxAmountField(inv.taxAmount),
      CurrencyField(inv.currency),
      GrossOutcome(inv),
      LineItemsField(inv.lineItems))
  }

  /** The messages field `k` contributes. */
  function Entry(m: FieldResults, k: FieldName): seq<ErrorCode>
  {
    match k
    case InvoiceId => Errors(m.invoiceId)
    case InvoiceNumber => Errors(m.invoiceNumber)
    case ReferenceNumber => Errors(m.referenceNumber)
    case InvoiceDate => Errors(m.invoiceDate)
    case SellerName => Errors(m.sellerName)
    case BuyerName => Errors(m.buyerName)
    case CustomerNumber => Errors(m.customerNumber)
    case EndCustomerNumber => Errors(m.endCustomerNumber)
    case NetTotal => Errors(m.netTotal)
    case TaxPercentage => Errors(m.taxPercentage)
    case TaxAmount => Errors(m.taxAmount)
    case Currency => Errors(m.currency)
    case GrossTotal => Errors(m.grossTotal)
    case LineItems => Problems(m.lineItems)
  }

  /** What `Entry` gives for each field. */
  lemma {:induction false} EntryFields(m: FieldResults)
    ensures Entry(m, InvoiceId) == Errors(m.invoiceId)
    ensures Entry(m, InvoiceNumber) == Errors(m.invoiceNumber)
    ensures Entry(m, ReferenceNumber) == Errors(m.referenceNumber)
    ensures Entry(m, InvoiceDate) == Errors(m.invoiceDate)
    ensures Entry(m, SellerName) == Errors(m.sellerName)
    ensures Entry(m, BuyerName) == Errors(m.buyerName)
    ensures Entry(m, CustomerNumber) == Errors(m.customerNumber)
    ensures Entry(m, EndCustomerNumber) == Errors(m.endCustomerNumber)
    ensures Entry(m, NetTotal) == Errors(m.netTotal)
    ensures Entry(m, TaxPercentage) == Errors(m.taxPercentage)
    ensures Entry(m, TaxAmount) == Errors(m.taxAmount)
    ensures Entry(m, Currency) == Errors(m.currency)
    ensures Entry(m, GrossTotal) == Errors(m.grossTotal)
    ensures Entry(m, LineItems) == Problems(m.lineItems)
  {
  }

  /** The messages of the fields `ks`, one field after the other. */
  function Gather(m: FieldResults, ks: seq<FieldName>): seq<ErrorCode>
  {
    if ks == [] then [] else Entry(m, ks[0]) + Gather(m, ks[1..])
  }

  /**
   * The messages of `ValidationError.errors()` for one invoice: those of all
   * fields, in field order; empty exactly when the invoice is built.
   */
  function ValidateInvoice(inv: RawInvoice, currentYear: int): (r: seq<ErrorCode>)
    ensures r == [] <==> forall k :: Entry(Results(inv, currentYear), k) == []
  {
    FromNoField(Results(inv, currentYear));
    Gather(Results(inv, currentYear), FieldOrder)
  }

  lemma {:induction false} InGather(m: FieldResults, ks: seq<FieldName>, e: ErrorCode)
    ensures e in Gather(m, ks) <==> exists k :: k in ks && e in Entry(m, k)
  {
    if ks != [] {
      InGather(m, ks[1..], e);
      assert forall k :: k in ks <==> k == ks[0] || k in ks[1..];
    }
  }

  lemma {:induction false} GatherEmpty(m: FieldResults, ks: seq<FieldName>)
    ensures Gather(m, ks) == [] <==> forall k :: k in ks ==> Entry(m, k) == []
  {
    if ks != [] {
      GatherEmpty(m, ks[1..]);
      assert forall k :: k in ks <==> k == ks[0] || k in ks[1..];
    }
  }

  /** A message is in the invoice's list exactly when some field contributed it. */
  lemma {:induction false} FromSomeField(m: FieldResults, e: ErrorCode)
    ensures e in Gather(m, FieldOrder) <==> exists k :: e in Entry(m, k)
  {
    InGather(m, FieldOrder, e);
    forall k | e in Entry(m, k) ensures k in FieldOrder {
      EveryField(k);
    }
  }

  /** The invoice's list is empty exactly when no field contributed anything. */
  lemma {:induction false} FromNoField(m: FieldResults)
    ensures Gather(m, FieldOrder) == [] <==> forall k :: Entry(m, k) == []
  {
    GatherEmpty(m, FieldOrder);
    forall k ensures k in FieldOrder {
      EveryField(k);
    }
  }

  /** When every field of `ks` but `k0` is silent and no field appears twice, the messages are those of `k0`. */
  lemma {:induction false} GatherSole(m: FieldResults, ks: seq<FieldName>, k0: FieldName)
    requires k0 in ks
    requires forall i, j :: 0 <= i < j < |ks| ==> ks[i] != ks[j]
    requires forall k :: k != k0 ==> Entry(m, k) == []
    ensures Gather(m, ks) == Entry(m, k0)
  {
    if ks[0] == k0 {
      forall k | k in ks[1..] ensures Entry(m, k) == [] {
        var i :| 0 <= i < |ks[1..]| && ks[1..][i] == k;
        assert ks[0] != ks[i + 1];
      }
      GatherEmpty(m, ks[1..]);
    } else {
      GatherSole(m, ks[1..], k0);
    }
  }

  /** An invoice whose only failing field is `k0` reports exactly that field's messages. */
  lemma {:induction false} SoleFailure(m: FieldResults, k0: FieldName)
    requires forall k :: k != k0 ==> Entry(m, k) == []
    ensures Gather(m, FieldOrder) == Entry(m, k0)
  {
    EveryField(k0);
    GatherSole(m, FieldOrder, k0);
  }

  /**
   * The messages each field's validators can raise: which validator a
   * message comes from, as a table.
   */
  predicate MayRaise(k: FieldName, e: ErrorCode)
  {
    match k
    case InvoiceId | ReferenceNumber | CustomerNumber | EndCustomerNumber => e == FieldRequired
    case InvoiceNumber => e in {FieldRequired, MissingField(InvoiceNumber)}
    case SellerName => e in {FieldRequired, MissingField(SellerName)}
    case BuyerName => e in {FieldRequired, MissingField(BuyerName)}
    case InvoiceDate => e in {FieldRequired, MissingField(InvoiceDate), InvalidDateFormat}
    case NetTotal => e in {FieldRequired, MissingField(NetTotal), NegativeAmount(NetTotal)} || e.NumberFormat?
    case TaxPercentage => e == FieldRequired || e.NumberFormat?
    case TaxAmount => e in {FieldRequired, NegativeAmount(TaxAmount)} || e.NumberFormat?
    case Currency => e == InvalidCurrency
    case GrossTotal =>
      e in {FieldRequired, MissingField(GrossTotal), NegativeAmount(GrossTotal)} || e.NumberFormat?
      || e.GrossTotalMismatch?
    case LineItems => e == NoLineItems || LineCode(e)
  }

  /** Every field raises only what the table allows it. */
  predicate Sound(m: FieldResults)
  {
    forall k, e :: e in Entry(m, k) ==> MayRaise(k, e)
  }

  /** The fields of every invoice raise only what the table allows them. */
  lemma {:induction false} ResultsSound(inv: RawInvoice, currentYear: int)
    ensures Sound(Results(inv, currentYear))
  {
    var m := Results(inv, currentYear);
    forall k, e | e in Entry(m, k) ensures MayRaise(k, e) {
      if k == LineItems {
        LineItemsCodes(inv.lineItems, e);
      }
    }
  }

  /** A message only one field may raise is in the list exactly when that field raised it. */
  lemma {:induction false} SoleSource(m: FieldResults, e: ErrorCode, k0: FieldName)
    requires Sound(m)
    requires forall k :: MayRaise(k, e) ==> k == k0
    ensures e in Gather(m, FieldOrder) <==> e in Entry(m, k0)
  {
    FromSomeField(m, e);
  }

  /** The messages no invoice validator raises. */
  predicate Foreign(e: ErrorCode)
  {
    e == DuplicateInvoice || e == InvalidDateRange || e.NetTotalMismatch?
  }

  lemma {:induction false} RaisedNotForeign(k: FieldName, e: ErrorCode)
    requires MayRaise(k, e)
    ensures !Foreign(e)
  {
  }

  /**
   * Every message of an invoice is one its field may raise; in particular the
   * net total is never reconciled, the range error never surfaces, and
   * duplicates are not a single invoice's business.
   */
  lemma {:induction false} InvoiceMessages(inv: RawInvoice, currentYear: int)
    ensures forall e :: e in ValidateInvoice(inv, currentYear) ==> exists k :: MayRaise(k, e)
    ensures forall e :: e in ValidateInvoice(inv, currentYear) ==> !Foreign(e)
  {
    var m := Results(inv, currentYear);
    ResultsSound(inv, currentYear);
    forall e | e in Gather(m, FieldOrder) ensures (exists k :: MayRaise(k, e)) && !Foreign(e) {
      FromSomeField(m, e);
      var k :| e in Entry(m, k);
      RaisedNotForeign(k, e);
    }
  }

  /** No single invoice raises the duplicate message: only the batch validator does. */
  lemma {:induction false} NoDuplicateRaised(inv: RawInvoice, currentYear: int)
    ensures DuplicateInvoice !in ValidateInvoice(inv, currentYear)
  {
    InvoiceMessages(inv, currentYear);
    assert Foreign(DuplicateInvoice);
  }
}
