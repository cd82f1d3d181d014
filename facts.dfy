/**
 * What the invoice pipeline promises, stated against the raw record: which
 * message each rule produces and when, and exactly which invoices pass.
 */
module InvoiceFacts {
  import opened Types
  import opened Text
  import opened Numbers
  import opened Dates
  import opened Rules
  import opened Records

  /** What a numeric field holds once converted: the amount, or nothing if it was null or failed. */
  function Converted(f: Field<string>): Option<real>
  {
    Passed(NumberField(f))
  }

  /** A string field that `check_required_fields` accepts. */
  predicate Filled(f: Field<string>)
  {
    f.Given? && !Blank(f.value)
  }

  /** A converted amount is never read from a null or a blank string. */
  lemma {:induction false} ConvertedIsFilled(f: Field<string>)
    requires Converted(f).Some?
    ensures Filled(f)
  {
    if f.Given? && Blank(f.value) {
      BlankIsNotANumber(f.value);
    }
  }

  // ------------------------------------------------------------ line items

  /** The "Missing" message of a line item, whatever its amounts converted to. */
  lemma {:induction false} OutcomeMissing(
    d: Field<string>, i: Field<string>, qc: Checked<Option<real>>, pc: Checked<Option<real>>, t: Option<real>)
    requires qc.Fail? ==> qc.code != LineValueMissing
    requires pc.Fail? ==> pc.code != LineValueMissing
    ensures LineValueMissing in LineErrors(LineOutcome(d, i, qc, pc, Pass(t))) <==>
      Passed(qc).None? || Passed(pc).None? || t.None?
  {
    var c := LineOutcome(d, i, qc, pc, Pass(t));
    assert LineValueMissing in LineErrors(c) <==> c.lineTotal == Fail(LineValueMissing);
  }

  /**
   * When the line total converts, the "Missing" message appears exactly when
   * quantity, unit price or line total holds nothing.
   */
  lemma {:induction false} LineValueMissingReported(raw: RawLineItem)
    requires NumberField(raw.lineTotal).Pass?
    ensures LineValueMissing in Problems(ValidateLineItem(raw)) <==>
      Converted(raw.quantity).None? || Converted(raw.pricePerUnit).None? || Converted(raw.lineTotal).None?
  {
    LineProblems(raw);
    OutcomeMissing(raw.description, raw.itemNumber, NumberField(raw.quantity), NumberField(raw.pricePerUnit), Converted(raw.lineTotal));
  }

  /** The reconciliation of a line item whose three amounts converted to `q`, `p` and `t`. */
  lemma {:induction false} OutcomeArithmetic(d: Field<string>, i: Field<string>, q: real, p: real, t: real)
    ensures LineTotalMismatch(Cents(Round2(LineAmount(q, p))), t) in LineErrors(LineOutcome(d, i, Pass(Some(q)), Pass(Some(p)), Pass(Some(t)))) <==>
      Round2(t) != Round2(LineAmount(q, p))
    ensures forall x, y :: LineTotalMismatch(x, y) in LineErrors(LineOutcome(d, i, Pass(Some(q)), Pass(Some(p)), Pass(Some(t)))) ==>
      x == Cents(Round2(LineAmount(q, p))) && y == t && Round2(t) != Round2(LineAmount(q, p))
    ensures LineErrors(LineOutcome(d, i, Pass(Some(q)), Pass(Some(p)), Pass(Some(t)))) == [] <==>
      !d.Absent? && !i.Absent? && Round2(t) == Round2(LineAmount(q, p))
  {
    var c := LineOutcome(d, i, Pass(Some(q)), Pass(Some(p)), Pass(Some(t)));
    var total := CheckLineTotal(Some(t), Some(q), Some(p));
    assert c.lineTotal == total;
    var es := LineErrors(c);
    assert es == Errors(c.description) + Errors(c.itemNumber) + Errors(total);
    assert forall e :: e in Errors(c.description) + Errors(c.itemNumber) ==> e == FieldRequired;
    forall x, y | LineTotalMismatch(x, y) in es
      ensures x == Cents(Round2(LineAmount(q, p))) && y == t && Round2(t) != Round2(LineAmount(q, p))
    {
      assert LineTotalMismatch(x, y) in Errors(total);
    }
  }

  /**
   * With all three amounts present, the line item is refused for its
   * arithmetic exactly when the line total and quantity times unit price
   * differ to the cent, and then under the rounded product and the total;
   * it is built exactly when, in addition, its two text fields are declared.
   */
  lemma {:induction false} LineTotalArithmetic(raw: RawLineItem, q: real, p: real, t: real)
    requires Converted(raw.quantity) == Some(q) && Converted(raw.pricePerUnit) == Some(p)
    requires Converted(raw.lineTotal) == Some(t)
    ensures LineTotalMismatch(Cents(Round2(LineAmount(q, p))), t) in Problems(ValidateLineItem(raw)) <==>
      Round2(t) != Round2(LineAmount(q, p))
    ensures forall x, y :: LineTotalMismatch(x, y) in Problems(ValidateLineItem(raw)) ==>
      x == Cents(Round2(LineAmount(q, p))) && y == t && Round2(t) != Round2(LineAmount(q, p))
    ensures ValidateLineItem(raw).Built? <==>
      !raw.description.Absent? && !raw.itemNumber.Absent? && Round2(t) == Round2(LineAmount(q, p))
  {
    LineProblems(raw);
    assert CheckLineFields(raw) == LineOutcome(raw.description, raw.itemNumber, Pass(Some(q)), Pass(Some(p)), Pass(Some(t)));
    OutcomeArithmetic(raw.description, raw.itemNumber, q, p, t);
  }

  // -------------------------------------------------------- single fields

  /** A required string field passes exactly when it is filled in. */
  lemma {:induction false} RequiredAlone(f: Field<string>, name: FieldName)
    ensures RequiredField(f, name).Pass? <==> Filled(f)
    ensures MissingField(name) in Errors(RequiredField(f, name)) <==> Unfilled(f)
  {
  }

  /** `invoice_date` passes exactly when it is filled in and reads as a date in range. */
  lemma {:induction false} DateAlone(f: Field<string>, currentYear: int)
    ensures DateField(f, currentYear).Pass? <==> Filled(f) && CheckInvoiceDate(Some(f.value), currentYear).Pass?
    ensures MissingField(InvoiceDate) in Errors(DateField(f, currentYear)) <==> Unfilled(f)
  {
  }

  /** A required amount converts exactly when the field converts; what it holds then is the converted amount. */
  lemma {:induction false} AmountConverted(f: Field<string>, name: FieldName)
    ensures RequiredAmount(f, name).Pass? <==> Converted(f).Some?
    ensures RequiredAmount(f, name).Pass? ==> RequiredAmount(f, name) == Pass(Converted(f))
  {
    if Converted(f).Some? {
      ConvertedIsFilled(f);
    }
  }

  /** `net_total` without line items: it passes exactly when it converts to an amount that is not negative. */
  lemma {:induction false} NetAlone(f: Field<string>)
    ensures NetField(f, None).Pass? <==> Converted(f).Some? && Converted(f).value >= 0.0
    ensures NetField(f, None).Pass? ==> Passed(NetField(f, None)) == Converted(f)
    ensures MissingField(NetTotal) in Errors(NetField(f, None)) <==> Unfilled(f)
    ensures NegativeAmount(NetTotal) in Errors(NetField(f, None)) <==> Converted(f).Some? && Converted(f).value < 0.0
  {
    AmountConverted(f, NetTotal);
  }

  /** `tax_amount` passes exactly when it converts and is not negative. */
  lemma {:induction false} TaxAlone(f: Field<string>)
    ensures TaxAmountField(f).Pass? <==>
      NumberField(f).Pass? && (Converted(f).None? || Converted(f).value >= 0.0)
    ensures TaxAmountField(f).Pass? ==> Passed(TaxAmountField(f)) == Converted(f)
    ensures NegativeAmount(TaxAmount) in Errors(TaxAmountField(f)) <==> Converted(f).Some? && Converted(f).value < 0.0
  {
  }

  /** The gross total's own validators on a converted amount `g`. */
  lemma {:induction false} GrossChecksOn(g: real, net: Option<real>, tax: Option<real>)
    ensures GrossChecks(Pass(Some(g)), net, tax).Pass? <==>
      g >= 0.0 && (net.Some? && tax.Some? ==> Round2(g) == Round2(net.value + tax.value))
    ensures NegativeAmount(GrossTotal) in Errors(GrossChecks(Pass(Some(g)), net, tax)) <==>
      g < 0.0 && (net.Some? && tax.Some? ==> Round2(g) == Round2(net.value + tax.value))
    ensures forall x, y :: GrossTotalMismatch(x, y) in Errors(GrossChecks(Pass(Some(g)), net, tax)) <==>
      net.Some? && tax.Some? && x == Cents(Round2(net.value + tax.value)) && y == g
      && Round2(g) != Round2(net.value + tax.value)
  {
    var check := CheckGrossTotal(Some(g), net, tax);
    var r := GrossChecks(Pass(Some(g)), net, tax);
    if check.Fail? {
      assert r == check;
    } else {
      assert r == CheckNonNegative(Some(g), GrossTotal);
    }
  }

  /** `gross_total` passes exactly when it converts, reconciles and is not negative. */
  lemma {:induction false} GrossAlone(f: Field<string>, net: Option<real>, tax: Option<real>)
    ensures GrossField(f, net, tax).Pass? <==>
      Converted(f).Some? && Converted(f).value >= 0.0
      && (net.Some? && tax.Some? ==> Round2(Converted(f).value) == Round2(net.value + tax.value))
    ensures MissingField(GrossTotal) in Errors(GrossField(f, net, tax)) <==> Unfilled(f)
    ensures NegativeAmount(GrossTotal) in Errors(GrossField(f, net, tax)) <==>
      Converted(f).Some? && Converted(f).value < 0.0
      && (net.Some? && tax.Some? ==> Round2(Converted(f).value) == Round2(net.value + tax.value))
  {
    AmountConverted(f, GrossTotal);
    if Converted(f).Some? {
      GrossChecksOn(Converted(f).value, net, tax);
    }
  }

  /** Only `check_required_fields` reports the gross total missing. */
  lemma {:induction false} GrossMissing(f: Field<string>, net: Option<real>, tax: Option<real>)
    ensures MissingField(GrossTotal) in Errors(GrossField(f, net, tax)) <==> Unfilled(f)
  {
    var g := RequiredAmount(f, GrossTotal);
    if g.Pass? {
      assert GrossChecks(g, net, tax).Fail? ==> GrossChecks(g, net, tax).code != MissingField(GrossTotal);
    }
  }

  /** A gross total that converts goes on to its own validators with the converted amount. */
  lemma {:induction false} GrossConverted(f: Field<string>, net: Option<real>, tax: Option<real>)
    requires Converted(f).Some?
    ensures GrossField(f, net, tax) == GrossChecks(Pass(Converted(f)), net, tax)
  {
    AmountConverted(f, GrossTotal);
  }

  /** With a net total and a tax amount to compare with, the gross total is reconciled against their sum. */
  lemma {:induction false} GrossMismatchAlone(c: Checked<Option<real>>, f: Field<string>, n: real, t: real, g: real)
    requires c == GrossField(f, Some(n), Some(t))
    requires Converted(f) == Some(g)
    ensures GrossMismatchAs(c, n, t, g)
  {
    GrossConverted(f, Some(n), Some(t));
    GrossChecksMismatch(g, n, t);
  }

  /** The gross mismatch messages among `es`: exactly the one for `g` against `n + t`, when they differ. */
  ghost predicate MismatchAs(es: seq<ErrorCode>, n: real, t: real, g: real)
  {
    && (GrossTotalMismatch(Cents(Round2(n + t)), g) in es <==> Round2(g) != Round2(n + t))
    && forall x, y :: GrossTotalMismatch(x, y) in es ==> x == Cents(Round2(n + t)) && y == g && Round2(g) != Round2(n + t)
  }

  ghost predicate GrossMismatchAs(c: Checked<Option<real>>, n: real, t: real, g: real)
  {
    MismatchAs(Errors(c), n, t, g)
  }

  /** Without a net total or a tax amount to compare with, the gross total is not reconciled. */
  lemma {:induction false} GrossNotReconciled(c: Checked<Option<real>>, f: Field<string>, net: Option<real>, tax: Option<real>)
    requires c == GrossField(f, net, tax)
    requires net.None? || tax.None?
    ensures forall e :: e in Errors(c) ==> !e.GrossTotalMismatch?
  {
  }

  lemma {:induction false} GrossChecksMismatch(g: real, n: real, t: real)
    ensures GrossTotalMismatch(Cents(Round2(n + t)), g) in Errors(GrossChecks(Pass(Some(g)), Some(n), Some(t))) <==>
      Round2(g) != Round2(n + t)
    ensures forall x, y :: GrossTotalMismatch(x, y) in Errors(GrossChecks(Pass(Some(g)), Some(n), Some(t))) ==>
      x == Cents(Round2(n + t)) && y == g && Round2(g) != Round2(n + t)
  {
    GrossChecksOn(g, Some(n), Some(t));
  }

  /** `currency` passes when it is missing or an allowed code; a null or any other string is refused. */
  lemma {:induction false} CurrencyAlone(f: Field<string>)
    ensures CurrencyField(f).Pass? <==> f.Absent? || (f.Given? && f.value in AllowedCurrencies)
    ensures InvalidCurrency in Errors(CurrencyField(f)) <==> f.Null? || (f.Given? && f.value !in AllowedCurrencies)
  {
  }

  /** `line_items` is accepted exactly when it is a non-empty list of valid items. */
  lemma {:induction false} LineItemsAlone(f: Field<seq<RawLineItem>>)
    ensures LineItemsField(f).Built? <==>
      f.Given? && f.value != [] && forall i :: 0 <= i < |f.value| ==> ValidateLineItem(f.value[i]).Built?
    ensures LineItemsField(f).Rejected? ==> LineItemsField(f).errors != []
  {
    if f.Given? {
      LineItemsBuilt(f.value);
    }
  }

  /** The empty-list message of `line_items` is raised exactly for a null or an empty list. */
  lemma {:induction false} NoLineItemsAlone(f: Field<seq<RawLineItem>>)
    ensures NoLineItems in Problems(LineItemsField(f)) <==> f == Null || f == Given([])
  {
    if f.Given? && ValidateLineItems(f.value).Rejected? && NoLineItems in ItemErrors(f.value) {
      ItemErrorsCodes(f.value, NoLineItems);
    }
  }

  // ------------------------------------------------------- required fields

  const RequiredNames: set<FieldName> :=
    {InvoiceNumber, SellerName, BuyerName, InvoiceDate, NetTotal, GrossTotal}

  /** The raw value of a required field. */
  function RequiredRaw(inv: RawInvoice, k: FieldName): Field<string>
    requires k in RequiredNames
  {
    match k
    case InvoiceNumber => inv.invoiceNumber
    case SellerName => inv.sellerName
    case BuyerName => inv.buyerName
    case InvoiceDate => inv.invoiceDate
    case NetTotal => inv.netTotal
    case GrossTotal => inv.grossTotal
  }

  lemma {:induction false} MissingFieldSource(name: FieldName)
    requires name in RequiredNames
    ensures forall k :: MayRaise(k, MissingField(name)) ==> k == name
  {
  }

  // Each required field's own pipeline reports it missing exactly when it is null or blank.

  lemma {:induction false} StringMissing(c: Checked<Option<string>>, f: Field<string>, name: FieldName)
    requires c == RequiredField(f, name)
    ensures MissingField(name) in Errors(c) <==> Unfilled(f)
  {
    RequiredAlone(f, name);
  }

  lemma {:induction false} DateMissing(c: Checked<Option<string>>, f: Field<string>, currentYear: int)
    requires c == DateField(f, currentYear)
    ensures MissingField(InvoiceDate) in Errors(c) <==> Unfilled(f)
  {
    DateAlone(f, currentYear);
  }

  lemma {:induction false} NetMissing(c: Checked<Option<real>>, f: Field<string>)
    requires c == NetField(f, None)
    ensures MissingField(NetTotal) in Errors(c) <==> Unfilled(f)
  {
    NetAlone(f);
  }

  lemma {:induction false} GrossTotalMissing(c: Checked<Option<real>>, f: Field<string>, net: Option<real>, tax: Option<real>)
    requires c == GrossField(f, net, tax)
    ensures MissingField(GrossTotal) in Errors(c) <==> Unfilled(f)
  {
    GrossMissing(f, net, tax);
  }

  /** Each required field of `m` is reported missing exactly when its raw value is unfilled. */
  predicate MissingAsUnfilled(m: FieldResults, inv: RawInvoice)
  {
    && (MissingField(InvoiceNumber) in Errors(m.invoiceNumber) <==> Unfilled(inv.invoiceNumber))
    && (MissingField(SellerName) in Errors(m.sellerName) <==> Unfilled(inv.sellerName))
    && (MissingField(BuyerName) in Errors(m.buyerName) <==> Unfilled(inv.buyerName))
    && (MissingField(InvoiceDate) in Errors(m.invoiceDate) <==> Unfilled(inv.invoiceDate))
    && (MissingField(NetTotal) in Errors(m.netTotal) <==> Unfilled(inv.netTotal))
    && (MissingField(GrossTotal) in Errors(m.grossTotal) <==> Unfilled(inv.grossTotal))
  }

  lemma {:induction false} RequiredFirst(m: FieldResults, inv: RawInvoice, name: FieldName)
    requires MissingAsUnfilled(m, inv)
    requires name in RequiredNames
    ensures MissingField(name) in Entry(m, name) <==> Unfilled(RequiredRaw(inv, name))
  {
    EntryFields(m);
  }

  /** The invoice's fields report the required ones missing exactly when they are unfilled. */
  lemma {:induction false} ResultsMissing(inv: RawInvoice, currentYear: int)
    ensures MissingAsUnfilled(Results(inv, currentYear), inv)
  {
    var m := Results(inv, currentYear);
    StringMissing(m.invoiceNumber, inv.invoiceNumber, InvoiceNumber);
    StringMissing(m.sellerName, inv.sellerName, SellerName);
    StringMissing(m.buyerName, inv.buyerName, BuyerName);
    DateMissing(m.invoiceDate, inv.invoiceDate, currentYear);
    NetMissing(m.netTotal, inv.netTotal);
    GrossTotalMissing(m.grossTotal, inv.grossTotal, Passed(NetOutcome(inv)), Passed(TaxAmountField(inv.taxAmount)));
  }

  /**
   * Each of the six required fields is reported as missing, under its own
   * name, exactly when it is null or blank; a missing key is refused
   * differently.
   */
  lemma {:induction false} RequiredFieldReported(inv: RawInvoice, currentYear: int, name: FieldName)
    requires name in RequiredNames
    ensures MissingField(name) in ValidateInvoice(inv, currentYear) <==> Unfilled(RequiredRaw(inv, name))
  {
    var m := Results(inv, currentYear);
    MissingFieldSource(name);
    ResultsSound(inv, currentYear);
    SoleSource(m, MissingField(name), name);
    ResultsMissing(inv, currentYear);
    RequiredFirst(m, inv, name);
  }

  // ------------------------------------------------------------ line items

  lemma NoLineItemsSource()
    ensures forall k :: MayRaise(k, NoLineItems) ==> k == LineItems
  {
  }

  /** The empty-list message appears exactly when the list is null or empty. */
  lemma {:induction false} LineItemsReported(inv: RawInvoice, currentYear: int)
    ensures NoLineItems in ValidateInvoice(inv, currentYear) <==> inv.lineItems == Null || inv.lineItems == Given([])
  {
    var m := Results(inv, currentYear);
    ResultsSound(inv, currentYear);
    NoLineItemsSource();
    SoleSource(m, NoLineItems, LineItems);
    NoLineItemsAlone(inv.lineItems);
    if inv.lineItems == Null || inv.lineItems == Given([]) {
      assert NoLineItems in Entry(m, LineItems);
    } else {
      assert NoLineItems !in Entry(m, LineItems);
    }
  }

  // --------------------------------------------------------- reconciliation

  lemma {:induction false} GrossSource(x: real, y: real)
    ensures forall k :: MayRaise(k, GrossTotalMismatch(x, y)) ==> k == GrossTotal
  {
  }

  /** In sound outcomes, the gross mismatch messages of the invoice are those of the gross total. */
  lemma {:induction false} MismatchFromGross(m: FieldResults, n: real, t: real, g: real)
    requires Sound(m)
    requires GrossMismatchAs(m.grossTotal, n, t, g)
    ensures MismatchAs(Gather(m, FieldOrder), n, t, g)
  {
    EntryFields(m);
    GrossSource(Cents(Round2(n + t)), g);
    SoleSource(m, GrossTotalMismatch(Cents(Round2(n + t)), g), GrossTotal);
    forall x, y | GrossTotalMismatch(x, y) in Gather(m, FieldOrder)
      ensures x == Cents(Round2(n + t)) && y == g && Round2(g) != Round2(n + t)
    {
      GrossSource(x, y);
      SoleSource(m, GrossTotalMismatch(x, y), GrossTotal);
    }
  }

  /** In sound outcomes, an invoice has a gross mismatch message only if its gross total has. */
  lemma {:induction false} NoMismatchFromGross(m: FieldResults)
    requires Sound(m)
    requires forall e :: e in Errors(m.grossTotal) ==> !e.GrossTotalMismatch?
    ensures forall e :: e in Gather(m, FieldOrder) ==> !e.GrossTotalMismatch?
  {
    EntryFields(m);
    forall e | e in Gather(m, FieldOrder) ensures !e.GrossTotalMismatch? {
      if e.GrossTotalMismatch? {
        GrossSource(e.expected, e.got);
        SoleSource(m, e, GrossTotal);
      }
    }
  }

  /**
   * When net total and tax amount passed all their validators with values
   * `n` and `t` and the gross total converts to `g`, the gross mismatch is
   * reported exactly when `g` and `n + t` differ to the cent, and it is the
   * only reconciliation message.
   */
  lemma {:induction false} GrossReconciled(inv: RawInvoice, currentYear: int, n: real, t: real, g: real)
    requires Passed(NetOutcome(inv)) == Some(n)
    requires Passed(TaxAmountField(inv.taxAmount)) == Some(t)
    requires Converted(inv.grossTotal) == Some(g)
    ensures GrossTotalMismatch(Cents(Round2(n + t)), g) in ValidateInvoice(inv, currentYear) <==>
      Round2(g) != Round2(n + t)
    ensures forall x, y :: GrossTotalMismatch(x, y) in ValidateInvoice(inv, currentYear) ==>
      x == Cents(Round2(n + t)) && y == g && Round2(g) != Round2(n + t)
  {
    var m := Results(inv, currentYear);
    GrossMismatchAlone(m.grossTotal, inv.grossTotal, n, t, g);
    ResultsSound(inv, currentYear);
    MismatchFromGross(m, n, t, g);
  }

  /** When the net total or the tax amount failed or is null, the gross total is not reconciled. */
  lemma {:induction false} GrossSkipped(inv: RawInvoice, currentYear: int)
    requires Passed(NetOutcome(inv)).None? || Passed(TaxAmountField(inv.taxAmount)).None?
    ensures forall e :: e in ValidateInvoice(inv, currentYear) ==> !e.GrossTotalMismatch?
  {
    var m := Results(inv, currentYear);
    GrossNotReconciled(m.grossTotal, inv.grossTotal, Passed(NetOutcome(inv)), Passed(TaxAmountField(inv.taxAmount)));
    ResultsSound(inv, currentYear);
    NoMismatchFromGross(m);
  }

  /**
   * The net total is checked before the line items exist, so it is never
   * reconciled against them: no invoice is refused for a net total that
   * disagrees with its items.
   */
  lemma {:induction false} NetNotReconciled(inv: RawInvoice, currentYear: int, x: real, y: real)
    ensures NetTotalMismatch(x, y) !in ValidateInvoice(inv, currentYear)
  {
    InvoiceMessages(inv, currentYear);
  }

  // ------------------------------------------------------------------ signs

  /** The amounts `validate_positive_amounts` checks. */
  const SignedNames: set<FieldName> := {NetTotal, TaxAmount, GrossTotal}

  /** A net total that converted and is below zero. */
  predicate NetRefused(inv: RawInvoice)
  {
    Converted(inv.netTotal).Some? && Converted(inv.netTotal).value < 0.0
  }

  /** A tax amount that converted and is below zero. */
  predicate TaxRefused(inv: RawInvoice)
  {
    Converted(inv.taxAmount).Some? && Converted(inv.taxAmount).value < 0.0
  }

  /** A gross total that converted, reconciled with `net` and `tax` where both are there, and is below zero. */
  predicate GrossRefusedWith(f: Field<string>, net: Option<real>, tax: Option<real>)
  {
    Converted(f).Some? && Converted(f).value < 0.0
    && (net.Some? && tax.Some? ==> Round2(Converted(f).value) == Round2(net.value + tax.value))
  }

  /** The gross total's sign check refuses the invoice, given the net total and tax amount that passed. */
  predicate GrossRefused(inv: RawInvoice)
  {
    GrossRefusedWith(inv.grossTotal, Passed(NetOutcome(inv)), Passed(TaxAmountField(inv.taxAmount)))
  }

  /** When the sign check of amount `name` refuses the invoice. */
  predicate SignRefused(inv: RawInvoice, name: FieldName)
  {
    match name
    case NetTotal => NetRefused(inv)
    case TaxAmount => TaxRefused(inv)
    case GrossTotal => GrossRefused(inv)
    case _ => false
  }

  lemma {:induction false} NetNegative(c: Checked<Option<real>>, f: Field<string>)
    requires c == NetField(f, None)
    ensures NegativeAmount(NetTotal) in Errors(c) <==> Converted(f).Some? && Converted(f).value < 0.0
  {
    NetAlone(f);
  }

  lemma {:induction false} TaxNegative(c: Checked<Option<real>>, f: Field<string>)
    requires c == TaxAmountField(f)
    ensures NegativeAmount(TaxAmount) in Errors(c) <==> Converted(f).Some? && Converted(f).value < 0.0
  {
    TaxAlone(f);
  }

  lemma {:induction false} GrossNegative(c: Checked<Option<real>>, f: Field<string>, net: Option<real>, tax: Option<real>)
    requires c == GrossField(f, net, tax)
    ensures NegativeAmount(GrossTotal) in Errors(c) <==> GrossRefusedWith(f, net, tax)
  {
    GrossAlone(f, net, tax);
  }

  /** Each signed amount of `m` carries the sign message exactly when its sign check refuses the invoice. */
  predicate NegativeAsRefused(m: FieldResults, inv: RawInvoice)
  {
    && (NegativeAmount(NetTotal) in Errors(m.netTotal) <==> NetRefused(inv))
    && (NegativeAmount(TaxAmount) in Errors(m.taxAmount) <==> TaxRefused(inv))
    && (NegativeAmount(GrossTotal) in Errors(m.grossTotal) <==> GrossRefused(inv))
  }

  lemma {:induction false} ResultsNegative(inv: RawInvoice, currentYear: int)
    ensures NegativeAsRefused(Results(inv, currentYear), inv)
  {
    var m := Results(inv, currentYear);
    NetNegative(m.netTotal, inv.netTotal);
    TaxNegative(m.taxAmount, inv.taxAmount);
    GrossNegative(m.grossTotal, inv.grossTotal, Passed(NetOutcome(inv)), Passed(TaxAmountField(inv.taxAmount)));
  }

  lemma {:induction false} NegativeFirst(m: FieldResults, inv: RawInvoice, name: FieldName)
    requires NegativeAsRefused(m, inv)
    requires name in SignedNames
    ensures NegativeAmount(name) in Entry(m, name) <==> SignRefused(inv, name)
  {
    EntryFields(m);
  }

  lemma {:induction false} NegativeSource(name: FieldName)
    ensures forall k :: MayRaise(k, NegativeAmount(name)) ==> k == name
  {
  }

  /**
   * A net total, tax amount or gross total below zero is reported under its
   * own name, unless an earlier validator of that field already failed.
   */
  lemma {:induction false} NegativeReported(inv: RawInvoice, currentYear: int, name: FieldName)
    requires name in SignedNames
    ensures NegativeAmount(name) in ValidateInvoice(inv, currentYear) <==> SignRefused(inv, name)
  {
    var m := Results(inv, currentYear);
    NegativeSource(name);
    ResultsSound(inv, currentYear);
    SoleSource(m, NegativeAmount(name), name);
    ResultsNegative(inv, currentYear);
    NegativeFirst(m, inv, name);
  }

  /** `tax_percentage` is converted but never sign-checked: a negative rate is not reported. */
  lemma {:induction false} TaxPercentageUnsigned(inv: RawInvoice, currentYear: int)
    ensures NegativeAmount(TaxPercentage) !in ValidateInvoice(inv, currentYear)
  {
    InvoiceMessages(inv, currentYear);
    NegativeSource(TaxPercentage);
  }

  // --------------------------------------------------------------- currency

  /** A currency that `validate_currency` refuses. */
  predicate CurrencyRefused(f: Field<string>)
  {
    f.Null? || (f.Given? && f.value !in AllowedCurrencies)
  }

  lemma {:induction false} CurrencyChecked(c: Checked<Option<string>>, f: Field<string>)
    requires c == CurrencyField(f)
    ensures InvalidCurrency in Errors(c) <==> CurrencyRefused(f)
  {
    CurrencyAlone(f);
  }

  lemma {:induction false} CurrencyFirst(m: FieldResults, f: Field<string>)
    requires InvalidCurrency in Errors(m.currency) <==> CurrencyRefused(f)
    ensures InvalidCurrency in Entry(m, Currency) <==> CurrencyRefused(f)
  {
    EntryFields(m);
  }

  lemma CurrencySource()
    ensures forall k :: MayRaise(k, InvalidCurrency) ==> k == Currency
  {
  }

  /**
   * The currency message appears exactly for a null currency or a code
   * outside the allow-list; a missing currency takes the default and is
   * never refused.
   */
  lemma {:induction false} CurrencyReported(inv: RawInvoice, currentYear: int)
    ensures InvalidCurrency in ValidateInvoice(inv, currentYear) <==> CurrencyRefused(inv.currency)
    ensures inv.currency.Absent? ==> Results(inv, currentYear).currency == Pass(Some(DefaultCurrency))
  {
    var m := Results(inv, currentYear);
    CurrencySource();
    ResultsSound(inv, currentYear);
    SoleSource(m, InvalidCurrency, Currency);
    CurrencyChecked(m.currency, inv.currency);
    CurrencyFirst(m, inv.currency);
  }

  // ------------------------------------------------------------- acceptance

  /** `invoice_date` as `Invoice` accepts it: filled in, and a date in range. */
  predicate DateOk(f: Field<string>, currentYear: int)
  {
    Filled(f) && CheckInvoiceDate(Some(f.value), currentYear).Pass?
  }

  /** `net_total` as `Invoice` accepts it: an amount that is not negative. */
  predicate NetOk(f: Field<string>)
  {
    Converted(f).Some? && Converted(f).value >= 0.0
  }

  /** `tax_amount` as `Invoice` accepts it: null, or an amount that is not negative. */
  predicate TaxOk(f: Field<string>)
  {
    NumberField(f).Pass? && (Converted(f).None? || Converted(f).value >= 0.0)
  }

  /** `gross_total` as `Invoice` accepts it: an amount that is not negative and reconciles with `net` and `tax` where both are there. */
  predicate GrossOk(f: Field<string>, net: Option<real>, tax: Option<real>)
  {
    Converted(f).Some? && Converted(f).value >= 0.0
    && (net.Some? && tax.Some? ==> Round2(Converted(f).value) == Round2(net.value + tax.value))
  }

  /** `currency` as `Invoice` accepts it: missing, or an allowed code. */
  predicate CurrencyOk(f: Field<string>)
  {
    f.Absent? || (f.Given? && f.value in AllowedCurrencies)
  }

  /** `line_items` as `Invoice` accepts it: a non-empty list of valid items. */
  predicate ItemsOk(f: Field<seq<RawLineItem>>)
  {
    f.Given? && f.value != [] && forall i :: 0 <= i < |f.value| ==> ValidateLineItem(f.value[i]).Built?
  }

  /**
   * What `Invoice(**raw)` needs to succeed, field by field on the raw record:
   * every declared key present, the required strings filled in, the date in
   * range, every amount converting, the signed ones not negative, the gross
   * total reconciled, an allowed or missing currency, and a non-empty list of
   * valid line items.
   */
  predicate Acceptable(inv: RawInvoice, currentYear: int)
  {
    && !inv.invoiceId.Absent? && !inv.referenceNumber.Absent?
    && !inv.customerNumber.Absent? && !inv.endCustomerNumber.Absent?
    && Filled(inv.invoiceNumber) && Filled(inv.sellerName) && Filled(inv.buyerName)
    && DateOk(inv.invoiceDate, currentYear)
    && NetOk(inv.netTotal)
    && NumberField(inv.taxPercentage).Pass?
    && TaxOk(inv.taxAmount)
    && CurrencyOk(inv.currency)
    && GrossOk(inv.grossTotal, Converted(inv.netTotal), Converted(inv.taxAmount))
    && ItemsOk(inv.lineItems)
  }

  /** Every field of `m` passed. */
  predicate AllPass(m: FieldResults)
  {
    && m.invoiceId.Pass? && m.invoiceNumber.Pass? && m.referenceNumber.Pass? && m.invoiceDate.Pass?
    && m.sellerName.Pass? && m.buyerName.Pass? && m.customerNumber.Pass? && m.endCustomerNumber.Pass?
    && m.netTotal.Pass? && m.taxPercentage.Pass? && m.taxAmount.Pass? && m.currency.Pass?
    && m.grossTotal.Pass? && m.lineItems.Built?
  }

  /** The messages are empty exactly when every field passed, as a rejected list always says why. */
  lemma {:induction false} GatherAllPass(m: FieldResults)
    requires m.lineItems.Rejected? ==> m.lineItems.errors != []
    ensures Gather(m, FieldOrder) == [] <==> AllPass(m)
  {
    FromNoField(m);
    EntryFields(m);
    if !AllPass(m) {
      assert exists k :: Entry(m, k) != [];
    }
  }

  lemma {:induction false} RequiredPass(c: Checked<Option<string>>, f: Field<string>, name: FieldName)
    requires c == RequiredField(f, name)
    ensures c.Pass? <==> Filled(f)
  {
    RequiredAlone(f, name);
  }

  lemma {:induction false} DatePass(c: Checked<Option<string>>, f: Field<string>, currentYear: int)
    requires c == DateField(f, currentYear)
    ensures c.Pass? <==> DateOk(f, currentYear)
  {
    DateAlone(f, currentYear);
  }

  lemma {:induction false} NetPass(c: Checked<Option<real>>, f: Field<string>)
    requires c == NetField(f, None)
    ensures c.Pass? <==> NetOk(f)
    ensures c.Pass? ==> Passed(c) == Converted(f)
  {
    NetAlone(f);
  }

  lemma {:induction false} TaxPass(c: Checked<Option<real>>, f: Field<string>)
    requires c == TaxAmountField(f)
    ensures c.Pass? <==> TaxOk(f)
    ensures c.Pass? ==> Passed(c) == Converted(f)
  {
    TaxAlone(f);
  }

  lemma {:induction false} GrossPass(c: Checked<Option<real>>, f: Field<string>, net: Option<real>, tax: Option<real>)
    requires c == GrossField(f, net, tax)
    ensures c.Pass? <==> GrossOk(f, net, tax)
  {
    GrossAlone(f, net, tax);
  }

  lemma {:induction false} CurrencyPass(c: Checked<Option<string>>, f: Field<string>)
    requires c == CurrencyField(f)
    ensures c.Pass? <==> CurrencyOk(f)
  {
    CurrencyAlone(f);
  }

  lemma {:induction false} ItemsPass(b: Built<seq<LineItem>>, f: Field<seq<RawLineItem>>)
    requires b == LineItemsField(f)
    ensures b.Built? <==> ItemsOk(f)
    ensures b.Rejected? ==> b.errors != []
  {
    LineItemsAlone(f);
  }

  /** Each field of `m` passes exactly when its raw value is acceptable on its own. */
  predicate FieldsOk(m: FieldResults, inv: RawInvoice, currentYear: int)
  {
    && (m.invoiceId.Pass? <==> !inv.invoiceId.Absent?)
    && (m.invoiceNumber.Pass? <==> Filled(inv.invoiceNumber))
    && (m.referenceNumber.Pass? <==> !inv.referenceNumber.Absent?)
    && (m.invoiceDate.Pass? <==> DateOk(inv.invoiceDate, currentYear))
    && (m.sellerName.Pass? <==> Filled(inv.sellerName))
    && (m.buyerName.Pass? <==> Filled(inv.buyerName))
    && (m.customerNumber.Pass? <==> !inv.customerNumber.Absent?)
    && (m.endCustomerNumber.Pass? <==> !inv.endCustomerNumber.Absent?)
    && (m.netTotal.Pass? <==> NetOk(inv.netTotal))
    && (m.netTotal.Pass? ==> Passed(m.netTotal) == Converted(inv.netTotal))
    && (m.taxPercentage.Pass? <==> NumberField(inv.taxPercentage).Pass?)
    && (m.taxAmount.Pass? <==> TaxOk(inv.taxAmount))
    && (m.taxAmount.Pass? ==> Passed(m.taxAmount) == Converted(inv.taxAmount))
    && (m.currency.Pass? <==> CurrencyOk(inv.currency))
    && (m.grossTotal.Pass? <==> GrossOk(inv.grossTotal, Passed(m.netTotal), Passed(m.taxAmount)))
    && (m.lineItems.Built? <==> ItemsOk(inv.lineItems))
    && (m.lineItems.Rejected? ==> m.lineItems.errors != [])
  }

  lemma {:induction false} ResultsOk(inv: RawInvoice, currentYear: int)
    ensures FieldsOk(Results(inv, currentYear), inv, currentYear)
  {
    var m := Results(inv, currentYear);
    RequiredPass(m.invoiceNumber, inv.invoiceNumber, InvoiceNumber);
    RequiredPass(m.sellerName, inv.sellerName, SellerName);
    RequiredPass(m.buyerName, inv.buyerName, BuyerName);
    DatePass(m.invoiceDate, inv.invoiceDate, currentYear);
    NetPass(m.netTotal, inv.netTotal);
    TaxPass(m.taxAmount, inv.taxAmount);
    CurrencyPass(m.currency, inv.currency);
    GrossPass(m.grossTotal, inv.grossTotal, Passed(m.netTotal), Passed(m.taxAmount));
    ItemsPass(m.lineItems, inv.lineItems);
  }

  lemma {:induction false} AllPassOk(m: FieldResults, inv: RawInvoice, currentYear: int)
    requires FieldsOk(m, inv, currentYear)
    ensures AllPass(m) <==> Acceptable(inv, currentYear)
  {
  }

  /** Every field of an invoice passes exactly when the raw record is acceptable. */
  lemma {:induction false} ResultsAllPass(inv: RawInvoice, currentYear: int)
    ensures AllPass(Results(inv, currentYear)) <==> Acceptable(inv, currentYear)
    ensures Results(inv, currentYear).lineItems.Rejected? ==> Results(inv, currentYear).lineItems.errors != []
  {
    ResultsOk(inv, currentYear);
    AllPassOk(Results(inv, currentYear), inv, currentYear);
  }

  /** An invoice raises no message exactly when it is acceptable: `Invoice(**raw)` succeeds. */
  lemma {:induction false} InvoiceAccepted(inv: RawInvoice, currentYear: int)
    ensures ValidateInvoice(inv, currentYear) == [] <==> Acceptable(inv, currentYear)
  {
    ResultsAllPass(inv, currentYear);
    GatherAllPass(Results(inv, currentYear));
  }
}
