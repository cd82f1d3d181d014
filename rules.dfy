/**
 * The individual rule checks of the `LineItem` and `Invoice` models, each a
 * total function from the value the earlier validators of its field left (and
 * whatever earlier fields it reads) to a pass or one error code.
 */
module Rules {
  import opened Types
  import opened Text
  import opened Numbers

  /** `check_required_fields`: a value that is missing or whitespace only is reported under the field's name. */
  function CheckRequired(v: Option<string>, name: FieldName): (r: Checked<Option<string>>)
    ensures r.Fail? <==> v.None? || Blank(v.value)
    ensures r.Fail? ==> r.code == MissingField(name)
    ensures r.Pass? ==> r.value == v
  {
    if v.None? then Fail(MissingField(name))
    else
      StripEmptyIffBlank(v.value);
      if Strip(v.value) == [] then Fail(MissingField(name)) else Pass(v)
  }

  /** `qty * ppu`, the amount a line should come to before rounding. */
  function LineAmount(qty: real, ppu: real): real
  {
    qty * ppu
  }

  /**
   * `validate_line_total`, given the converted line total and what `info.data`
   * holds for quantity and unit price: all three must be there, and the line
   * total must agree with their product to the cent.
   */
  function CheckLineTotal(v: Option<real>, qty: Option<real>, ppu: Option<real>): (r: Checked<Option<real>>)
    ensures r.Fail? ==> r.code == LineValueMissing || r.code.LineTotalMismatch?
    ensures r == Fail(LineValueMissing) <==> qty.None? || ppu.None? || v.None?
    ensures r.Fail? && r.code.LineTotalMismatch? <==>
      qty.Some? && ppu.Some? && v.Some? && Round2(v.value) != Round2(LineAmount(qty.value, ppu.value))
    ensures r.Fail? && r.code.LineTotalMismatch? ==>
      r.code == LineTotalMismatch(Cents(Round2(LineAmount(qty.value, ppu.value))), v.value)
    ensures r.Pass? ==> r.value == v && v.Some? && qty.Some? && ppu.Some?
    ensures r.Pass? ==> Round2(v.value) == Round2(LineAmount(qty.value, ppu.value))
  {
    if qty.None? || ppu.None? || v.None? then Fail(LineValueMissing)
    else
      var expected := Round2(LineAmount(qty.value, ppu.value));
      if Round2(v.value) != expected then Fail(LineTotalMismatch(Cents(expected), v.value))
      else Pass(v)
  }

  /** A line total written in whole cents passes exactly when the product rounds to those cents. */
  lemma {:induction false} LineTotalInCents(k: int, qty: real, ppu: real)
    ensures CheckLineTotal(Some(Cents(k)), Some(qty), Some(ppu)).Pass? <==> Round2(LineAmount(qty, ppu)) == k
  {
    Round2Exact(k);
    assert Round2(Cents(k)) == k;
  }

  /** `sum(i.line_total for i in items if i.line_total is not None)`. */
  function SumPresent(totals: seq<Option<real>>): real
  {
    if totals == [] then 0.0
    else SumPresent(totals[..|totals| - 1]) + (if totals[|totals| - 1].Some? then totals[|totals| - 1].value else 0.0)
  }

  lemma {:induction false} SumPresentAppend(a: seq<Option<real>>, b: seq<Option<real>>)
    ensures SumPresent(a + b) == SumPresent(a) + SumPresent(b)
  {
    if b != [] {
      assert (a + b)[..|a + b| - 1] == a + b[..|b| - 1];
      SumPresentAppend(a, b[..|b| - 1]);
    } else {
      assert a + b == a;
    }
  }

  /** Missing line totals contribute nothing to the net reconciliation. */
  lemma {:induction false} SumPresentSkipsMissing(totals: seq<Option<real>>)
    ensures SumPresent(totals + [None]) == SumPresent(totals)
    ensures forall x :: SumPresent(totals + [Some(x)]) == SumPresent(totals) + x
  {
    var none: seq<Option<real>> := [None];
    SumPresentAppend(totals, none);
    assert SumPresent(none) == 0.0 by {
      assert none[..0] == [];
    }
    forall x ensures SumPresent(totals + [Some(x)]) == SumPresent(totals) + x {
      var one: seq<Option<real>> := [Some(x)];
      SumPresentAppend(totals, one);
      assert one[..0] == [];
    }
  }

  /**
   * `validate_net_total`, given the converted net total and the line totals of
   * whatever line items `info.data` holds: skipped when either is missing or
   * there are no items, otherwise it must match their sum to the cent.
   */
  function CheckNetTotal(net: Option<real>, totals: Option<seq<Option<real>>>): (r: Checked<Option<real>>)
    ensures r.Fail? <==>
      (net.Some? && totals.Some? && totals.value != [] && Round2(net.value) != Round2(SumPresent(totals.value)))
    ensures r.Fail? ==> r.code == NetTotalMismatch(Cents(Round2(SumPresent(totals.value))), net.value)
    ensures r.Pass? ==> r.value == net
  {
    if net.None? || totals.None? || totals.value == [] then Pass(net)
    else
      var calculated := Round2(SumPresent(totals.value));
      if Round2(net.value) != calculated then Fail(NetTotalMismatch(Cents(calculated), net.value))
      else Pass(net)
  }

  /**
   * `validate_gross_total`, given the converted gross total and what
   * `info.data` holds for net total and tax amount: skipped when any of the
   * three is missing, otherwise gross must equal net plus tax to the cent.
   */
  function CheckGrossTotal(gross: Option<real>, net: Option<real>, tax: Option<real>): (r: Checked<Option<real>>)
    ensures r.Fail? <==>
      (gross.Some? && net.Some? && tax.Some? && Round2(gross.value) != Round2(net.value + tax.value))
    ensures r.Fail? ==> r.code == GrossTotalMismatch(Cents(Round2(net.value + tax.value)), gross.value)
    ensures r.Pass? ==> r.value == gross
  {
    if gross.None? || net.None? || tax.None? then Pass(gross)
    else
      var expected := Round2(net.value + tax.value);
      if Round2(gross.value) != expected then Fail(GrossTotalMismatch(Cents(expected), gross.value))
      else Pass(gross)
  }

  /** Totals given in whole cents reconcile exactly when the cents add up. */
  lemma {:induction false} GrossInCents(g: int, n: int, t: int)
    ensures CheckGrossTotal(Some(Cents(g)), Some(Cents(n)), Some(Cents(t))).Pass? <==> g == n + t
  {
    Round2Exact(g);
    assert Cents(n) + Cents(t) == Cents(n + t);
    Round2Exact(n + t);
  }

  /** `validate_positive_amounts`: a present amount below zero is reported under the field's name. */
  function CheckNonNegative(v: Option<real>, name: FieldName): (r: Checked<Option<real>>)
    ensures r.Fail? <==> v.Some? && v.value < 0.0
    ensures r.Fail? ==> r.code == NegativeAmount(name)
    ensures r.Pass? ==> r.value == v
  {
    if v.Some? && v.value < 0.0 then Fail(NegativeAmount(name)) else Pass(v)
  }

  /** The currencies `validate_currency` accepts. */
  const AllowedCurrencies: set<string> := {"EUR", "USD", "GBP", "INR", "JPY", "AUD", "CAD", "CHF", "CNY"}

  /** `validate_currency`: only a code of the allow-list passes; a null does not. */
  function CheckCurrency(v: Option<string>): (r: Checked<Option<string>>)
    ensures r.Fail? <==> v.None? || v.value !in AllowedCurrencies
    ensures r.Fail? ==> r.code == InvalidCurrency
    ensures r.Pass? ==> r.value == v
  {
    if v.Some? && v.value in AllowedCurrencies then Pass(v) else Fail(InvalidCurrency)
  }

  /** The allow-list is exact: codes are compared as written, so a lower-case code is refused. */
  lemma CurrencyCaseSensitive()
    ensures CheckCurrency(Some("EUR")) == Pass(Some("EUR"))
    ensures CheckCurrency(Some("eur")) == Fail(InvalidCurrency)
    ensures CheckCurrency(Some(" EUR")) == Fail(InvalidCurrency)
  {
    assert "eur" != "EUR" && "eur"[0] != "USD"[0];
    assert " EUR"[0] == ' ';
  }
}
