/**
 * Shared vocabulary of the invoice validator: optional values, the three
 * states a key of a raw record can be in, the abstract error codes that stand
 * for the validator's messages, and the result of one field validator.
 */
module Types {

  datatype Option<+T> = None | Some(value: T)

  /** A key of a raw record (a JSON-like mapping): missing, present with null, or present with a value. */
  datatype Field<+T> = Absent | Null | Given(value: T)

  /** The fields of `Invoice`, in declaration order; a message names its field by its key. */
  datatype FieldName =
    | InvoiceId | InvoiceNumber | ReferenceNumber | InvoiceDate | SellerName | BuyerName | CustomerNumber
    | EndCustomerNumber | NetTotal | TaxPercentage | TaxAmount | Currency | GrossTotal | LineItems

  /** The key of each field in the raw record, as the messages spell it. */
  function Key(k: FieldName): string
  {
    match k
    case InvoiceId => "invoice_id"
    case InvoiceNumber => "invoice_number"
    case ReferenceNumber => "reference_number"
    case InvoiceDate => "invoice_date"
    case SellerName => "seller_name"
    case BuyerName => "buyer_name"
    case CustomerNumber => "customer_number"
    case EndCustomerNumber => "end_customer_number"
    case NetTotal => "net_total"
    case TaxPercentage => "tax_percentage"
    case TaxAmount => "tax_amount"
    case Currency => "currency"
    case GrossTotal => "gross_total"
    case LineItems => "line_items"
  }

  /**
   * One validation message. Two messages are the same counter key exactly when
   * their codes are equal, so a code carries whatever the message text shows:
   * the field name, the offending text, the expected and the actual amount.
   */
  datatype ErrorCode =
    | FieldRequired                                   // pydantic: key absent from the record
    | MissingField(field: FieldName)                  // "missing_field: <field>"
    | NoLineItems                                     // "missing_field: there should be at least one line item"
    | LineValueMissing                                // "quantity or price_per_unit or line_total is Missing"
    | LineTotalMismatch(expected: real, got: real)
    | NumberFormat(text: string)                      // float() refused the rewritten text
    | InvalidDateFormat
    | InvalidDateRange
    | NetTotalMismatch(expected: real, got: real)
    | GrossTotalMismatch(expected: real, got: real)
    | NegativeAmount(field: FieldName)                // "negative_amount: <field> is negative"
    | InvalidCurrency
    | DuplicateInvoice

  /** The outcome of one field validator: the (possibly converted) value, or the error it raised. */
  datatype Checked<+T> = Pass(value: T) | Fail(code: ErrorCode) {
    predicate IsFailure() { Fail? }
    function PropagateFailure<U>(): Checked<U>
      requires Fail?
    {
      Fail(code)
    }
    function Extract(): T
      requires Pass?
    {
      value
    }
  }

  /** The messages a field contributes to its record's error list: none, or the one that stopped it. */
  function Errors<T>(c: Checked<T>): seq<ErrorCode>
  {
    if c.Fail? then [c.code] else []
  }

  /** What a later validator finds for this field in pydantic's `info.data`: the value if it passed. */
  function Passed<T>(c: Checked<Option<T>>): Option<T>
  {
    if c.Pass? then c.value else None
  }
}
