/**
 * One concrete invoice worked through the whole pipeline: a single line item
 * of quantity "2", unit price "10.00" and line total "20.00", net total
 * "20.00", tax amount "0" and a gross total that either agrees or does not.
 */
module Samples {
  import opened Types
  import opened Text
  import opened Numbers
  import opened Dates
  import opened Records
  import opened InvoiceFacts

  /** `PlainDigits` with the value the digits spell named. */
  lemma {:induction false} ReadsDigits(d: string, n: nat)
    requires d != [] && AllDigits(d) && DigitsValue(d) == n
    ensures ParseNumber(Some(d)) == Pass(Some(n as real))
  {
    PlainDigits(d);
  }

  lemma ReadsTwo()
    ensures ParseNumber(Some("2")) == Pass(Some(2.0))
  {
    assert AllDigits("2") && DigitsValue("2") == 2 by {
      assert "2"[..0] == "";
    }
    ReadsDigits("2", 2);
  }

  lemma ReadsZero()
    ensures ParseNumber(Some("0")) == Pass(Some(0.0))
  {
    assert AllDigits("0") && DigitsValue("0") == 0 by {
      assert "0"[..0] == "";
    }
    ReadsDigits("0", 0);
  }

  lemma DigitsSpelled()
    ensures DigitsValue("1000") == 1000
    ensures DigitsValue("2500") == 2500
  {
    assert "1000"[..3] == "100" && "100"[..2] == "10" && "10"[..1] == "1" && "1"[..0] == "";
    assert "2500"[..3] == "250" && "250"[..2] == "25" && "25"[..1] == "2" && "2"[..0] == "";
  }

  /** The point is dropped, so "10.00" reads as a thousand. */
  lemma ReadsTenPointZero()
    ensures ParseNumber(Some("10.00")) == Pass(Some(1000.0))
  {
    assert AllDigits("10") && AllDigits("00");
    PointedDigits("10", "00");
    assert "10" + ['.'] + "00" == "10.00";
    assert "10" + "00" == "1000";
    DigitsSpelled();
  }

  /** Likewise "25.00" reads as two and a half thousand. */
  lemma ReadsTwentyFivePointZero()
    ensures ParseNumber(Some("25.00")) == Pass(Some(2500.0))
  {
    assert AllDigits("25") && AllDigits("00");
    PointedDigits("25", "00");
    assert "25" + ['.'] + "00" == "25.00";
    assert "25" + "00" == "2500";
    DigitsSpelled();
  }

  const SampleItem: RawLineItem := RawLineItem(Given("Widget"), Given("W-1"), Given("2"), Given("10.00"), Given("20.00"))

  /** The sample invoice, with its gross total given as `gross`; the currency key is left out. */
  function SampleInvoice(gross: string): RawInvoice
  {
    RawInvoice(
      Given(1), Given("INV-1"), Null, Given("15.03.2024"), Given("ACME GmbH"), Given("Buyer AG"), Null, Null,
      Given("20.00"), Null, Given("0"), Absent, Given(gross), Given([SampleItem]))
  }

  /** Two times a thousand is the two thousand the line total reads as: the line item is built. */
  lemma SampleItemBuilt()
    ensures ValidateLineItem(SampleItem).Built?
  {
    ReadsTwo();
    ReadsTenPointZero();
    PointIsThousandsSeparator();
    LineTotalArithmetic(SampleItem, 2.0, 1000.0, 2000.0);
  }

  lemma SampleNames()
    ensures Filled(Given("INV-1")) && Filled(Given("ACME GmbH")) && Filled(Given("Buyer AG"))
  {
    assert !IsSpace("INV-1"[0]) && !IsSpace("ACME GmbH"[0]) && !IsSpace("Buyer AG"[0]);
  }

  lemma SampleDate()
    ensures DateOk(Given("15.03.2024"), 2026)
  {
    assert !IsSpace("15.03.2024"[0]);
    DayFirstAccepted();
  }

  lemma SampleAmounts()
    ensures NetOk(Given("20.00")) && Converted(Given("20.00")) == Some(2000.0)
    ensures TaxOk(Given("0")) && Converted(Given("0")) == Some(0.0)
  {
    ReadsZero();
    PointIsThousandsSeparator();
  }

  lemma SampleItems()
    ensures ItemsOk(Given([SampleItem]))
  {
    SampleItemBuilt();
    assert forall i :: 0 <= i < |[SampleItem]| ==> [SampleItem][i] == SampleItem;
  }

  /** Every field but the gross total of the sample invoice is acceptable. */
  lemma {:induction false} SampleFields(gross: string)
    ensures var inv := SampleInvoice(gross);
      && Filled(inv.invoiceNumber) && Filled(inv.sellerName) && Filled(inv.buyerName)
      && DateOk(inv.invoiceDate, 2026)
      && NetOk(inv.netTotal) && Converted(inv.netTotal) == Some(2000.0)
      && NumberField(inv.taxPercentage).Pass?
      && TaxOk(inv.taxAmount) && Converted(inv.taxAmount) == Some(0.0)
      && CurrencyOk(inv.currency)
      && ItemsOk(inv.lineItems)
  {
    SampleNames();
    SampleDate();
    SampleAmounts();
    SampleItems();
  }

  /** With a gross total of "20.00" the sample invoice meets every acceptance condition. */
  lemma SampleAcceptable()
    ensures Acceptable(SampleInvoice("20.00"), 2026)
  {
    SampleFields("20.00");
    PointIsThousandsSeparator();
  }

  /** ... and so raises nothing. */
  lemma SampleAccepted()
    ensures ValidateInvoice(SampleInvoice("20.00"), 2026) == []
  {
    var inv := SampleInvoice("20.00");
    SampleAcceptable();
    InvoiceAccepted(inv, 2026);
  }

  /** Net and tax amounts of the sample invoice pass with two thousand and zero. */
  lemma SamplePassedAmounts(gross: string)
    ensures Passed(NetOutcome(SampleInvoice(gross))) == Some(2000.0)
    ensures Passed(TaxAmountField(SampleInvoice(gross).taxAmount)) == Some(0.0)
  {
    SampleAmounts();
    NetPass(NetOutcome(SampleInvoice(gross)), Given("20.00"));
    TaxPass(TaxAmountField(Given("0")), Given("0"));
  }

  /** The gross total "25.00" converts to 2500; net plus tax, 2000, rounds to 200000 cents. */
  lemma SampleMismatchArithmetic()
    ensures Converted(Given("25.00")) == Some(2500.0)
    ensures Round2(2500.0) != Round2(2000.0 + 0.0)
    ensures Cents(Round2(2000.0 + 0.0)) == 2000.0
  {
    ReadsTwentyFivePointZero();
    Round2Exact(200000);
    Round2Exact(250000);
  }

  /** Every field of the sample invoice but the gross total raises nothing. */
  lemma {:induction false} SampleOthersSilent(gross: string)
    ensures forall k :: k != GrossTotal ==> Entry(Results(SampleInvoice(gross), 2026), k) == []
  {
    SampleFields(gross);
    ResultsOk(SampleInvoice(gross), 2026);
    EntryFields(Results(SampleInvoice(gross), 2026));
  }

  /** The gross total "25.00" fails with the mismatch expecting 2000 and finding 2500. */
  lemma SampleGrossFails()
    ensures Entry(Results(SampleInvoice("25.00"), 2026), GrossTotal) == [GrossTotalMismatch(2000.0, 2500.0)]
  {
    SamplePassedAmounts("25.00");
    SampleMismatchArithmetic();
    GrossConverted(Given("25.00"), Some(2000.0), Some(0.0));
    EntryFields(Results(SampleInvoice("25.00"), 2026));
  }

  /**
   * With a gross total of "25.00" (read as 2500) against net and tax summing to
   * 2000, the gross mismatch is the one message the invoice reports.
   */
  lemma SampleMismatch()
    ensures ValidateInvoice(SampleInvoice("25.00"), 2026) == [GrossTotalMismatch(2000.0, 2500.0)]
    ensures GrossTotalMismatch(2000.0, 2500.0) in ValidateInvoice(SampleInvoice("25.00"), 2026)
    ensures forall x, y :: GrossTotalMismatch(x, y) in ValidateInvoice(SampleInvoice("25.00"), 2026) ==>
      x == 2000.0 && y == 2500.0
  {
    SampleOthersSilent("25.00");
    SampleGrossFails();
    SoleFailure(Results(SampleInvoice("25.00"), 2026), GrossTotal);
    SoleMismatch(ValidateInvoice(SampleInvoice("25.00"), 2026), 2000.0, 2500.0);
  }

  /** A list holding just one gross mismatch holds no other. */
  lemma {:induction false} SoleMismatch(r: seq<ErrorCode>, expected: real, actual: real)
    requires r == [GrossTotalMismatch(expected, actual)]
    ensures GrossTotalMismatch(expected, actual) in r
    ensures forall x, y :: GrossTotalMismatch(x, y) in r ==> x == expected && y == actual
  {
  }
}
