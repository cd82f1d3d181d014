# invoice_qc validator, modelled in Dafny

This project models the validation engine of `invoice_qc` (`invoice_qc/validator.py`) and proves what it
does. The engine has four parts:

- **The number normaliser `parse_number`.** It deletes every `.` from a string, turns every `,` into `.`,
  and hands the result to `float()`.
- **The `LineItem` and `Invoice` records.** Their field validators check required fields, line-item
  arithmetic, the invoice date, gross reconciliation, signs and the currency allow-list.
- **The batch validator `validate_invoices`.** A first pass validates every invoice and counts its
  messages. A duplicate pass flags invoices that share seller name, invoice number and invoice date. A
  summary then folds the outcomes into counts.
- **The summary object** that the batch validator returns.

Modules, one per file:

| file | module | what it holds |
|---|---|---|
| `types.dfy` | `Types` | optional values; the three states of a raw key (absent, null, given); field names; abstract error codes; the outcome of one validator |
| `text.dfy` | `Text` | `str.strip()`, `str.split(sep)` with its inverse `join`, decimal digit strings |
| `numbers.dfy` | `Numbers` | `parse_number`: the rewrite, Python's `float()` grammar on decimal text, `round(x, 2)` on exact amounts |
| `rules.dfy` | `Rules` | each rule check as a total function: required, line total, net total, gross total, sign, currency |
| `dates.dfy` | `Dates` | `validate_date_format`: separator search (a loop), the split, the year-first or day-first layout, the calendar and range checks |
| `records.dfy` | `Records` | `LineItem(**raw)`, `Invoice(**raw)` and the message list they raise |
| `facts.dfy` | `InvoiceFacts` | the record-level properties, stated on the raw record |
| `batch.dfy` | `Batch` | `validate_invoices`: the first pass, the duplicate pass and the summary, as methods |
| `samples.dfy` | `Samples` | one concrete invoice worked through the whole pipeline |

### How the records are modelled

- **Values.** A raw record is a datatype whose fields are `Field<T> = Absent | Null | Given(v)`. Line items
  are a sequence.
- **Messages.** Each message is an `ErrorCode`. Two messages count as the same key in the message counter
  exactly when their codes are equal. So a code carries whatever the message text shows: the field name,
  the rejected text, the expected and the actual amount.
- **One field.** Each field is run through its validators in definition order. The first failure stops
  that field.
- **Earlier fields.** A validator that reads earlier fields (pydantic's `info.data`) sees only fields
  declared before it that passed.
- **Missing keys.** An absent key of a field with no default is pydantic's "Field required" message, the
  code `FieldRequired`.
- **Currency default.** An absent `currency` takes the default `"EUR"`, and no validator runs on it.
- **Amounts and rounding.** Amounts are exact rationals (`real`). `round(x, 2)` is the nearest hundredth,
  ties going to the even one.
- **Current year.** The year `datetime.now()` would give is a parameter, `currentYear`.
- **The batch.** `validate_invoices` takes the same imperative shape as the source:
  - `FirstPass` loops over the invoices and appends to `results`;
  - `Tally` adds an outcome's messages to the counter one at a time;
  - `MarkDuplicates` keeps the `seen: map<InvoiceKey, nat>` index and updates the earlier and the current
    outcome in place;
  - each method is proved against a specification function: `InitialOutcomes`, `Report`, `BatchCounts`.

### Where the behaviour differs from what the code's names and messages suggest

In each case below the model follows the code.

- **The net total is never reconciled against the line items.**
  - `validate_net_total` looks up `line_items` in `info.data` (validator.py:133).
  - `line_items` is declared after `net_total`, so the lookup always comes back empty and the check
    returns early.
  - The code that raises `net_total_mismatch` is never reached (`InvoiceFacts.NetNotReconciled`).
- **The year-range check never surfaces as its own error.** The range error is raised inside the `try`
  (validator.py:114-118), so a well-formed date out of range, below 2000 or beyond next year, with any of
  the three separators and in either layout, reads as `invalid_invoice_date_format`
  (`Dates.YearOutOfRangeIsFormatError`).
- **`tax_percentage` is converted but not sign-checked** (`InvoiceFacts.TaxPercentageUnsigned`).
- **A point is always taken as a thousands separator.** `"10.00"` reads as 1000 and `"20.00"` as 2000
  (`Numbers.PointIsThousandsSeparator`). `"1.234,56"` reads as 1234.56.
- **Messages inside one invoice are not collapsed.** Every field contributes its own message.
- **The duplicate counter grows once per repeat sighting, not once per flagged invoice.** Two copies of
  one invoice flag two outcomes but count one duplicate (`Batch.TwoCopiesOneRepeat`,
  `Batch.CopiesOfAcceptable`).

## Model

| member | source | states |
|---|---|---|
| Numbers.ParseNumber | invoice_qc/validator.py:9-14 | null stays null and only null; a failure comes from a given string and reports the text float() was handed, i.e. the string after the rewrite |
| Numbers.Normalize | invoice_qc/validator.py:14 | the one-pass rewrite is exactly `replace(".", "")` followed by `replace(",", ".")` |
| Numbers.ReadFloat | invoice_qc/validator.py:14 | `float()` refuses a whitespace-only string, and a string it reads is, once stripped, made only of digits, signs, points and exponent letters |
| Numbers.NormalizeShape | invoice_qc/validator.py:14 | after the rewrite no comma is left, a point is present exactly when the input had a comma, and every other character is kept |
| Numbers.WholeWithoutComma | invoice_qc/validator.py:14 | a string with no comma and no exponent that parses at all parses to a whole number |
| Numbers.ExponentBreaksWholeness | invoice_qc/validator.py:14 | the exponent exception to the previous row: "1e-3" reads as 0.001 |
| Numbers.ReadsGermanNotation | invoice_qc/validator.py:14 | "1.234,56" reads as 1234.56 |
| Numbers.GermanNotation | invoice_qc/validator.py:14 | for any non-empty digit strings a, b, c, "a.b,c" reads as the integer abc divided by ten to the length of c |
| Numbers.PointIsThousandsSeparator | invoice_qc/validator.py:14 | "20.00" reads as 2000, not 20 |
| Numbers.PlainDigits | invoice_qc/validator.py:14 | a non-empty digit string reads as the integer it spells |
| Numbers.PointedDigits | invoice_qc/validator.py:14 | digits, a point and digits read as the integer the digits spell run together |
| Numbers.BlankIsNotANumber | invoice_qc/validator.py:14 | a whitespace-only string is refused by float() |
| Numbers.Round2 | invoice_qc/validator.py:41-42 | `round(x, 2)` as hundredths: within half a cent of x, and even on a tie |
| Numbers.Round2Unique | invoice_qc/validator.py:41-42 | those two conditions determine the rounded value |
| Numbers.Round2Exact | invoice_qc/validator.py:41-42 | an amount given to the cent rounds to itself |
| Text.StripEmptyIffBlank | invoice_qc/validator.py:69 | `strip()` leaves nothing exactly when the string is whitespace only |
| Text.Split | invoice_qc/validator.py:97 | `split` gives at least one piece and no piece contains the separator |
| Text.JoinSplit | invoice_qc/validator.py:97 | joining the pieces with the separator gives the string back |
| Text.SplitJoin | invoice_qc/validator.py:97 | splitting a join of separator-free pieces gives the pieces back |
| Rules.CheckRequired | invoice_qc/validator.py:67-71 | fails exactly on null or whitespace-only, with missing_field naming the field; passes the value unchanged |
| Rules.CheckLineTotal | invoice_qc/validator.py:32-45 | the Missing error exactly when quantity, unit price or line total is null; the mismatch, carrying the expected cents and the actual total, exactly when the rounded total and the rounded product differ; otherwise passes the total |
| Rules.LineTotalInCents | invoice_qc/validator.py:41-42 | a line total given in cents passes exactly when the product rounds to those cents |
| Rules.SumPresentSkipsMissing | invoice_qc/validator.py:138 | line totals that are null contribute nothing to the sum, present ones their value |
| Rules.CheckNetTotal | invoice_qc/validator.py:130-143 | fails exactly when net and items are present, items non-empty and the rounded net differs from the rounded sum of present line totals |
| Rules.CheckGrossTotal | invoice_qc/validator.py:146-159 | skipped when any of gross, net, tax is null; otherwise fails exactly when rounded gross differs from rounded net plus tax, with the expected and actual amounts |
| Rules.GrossInCents | invoice_qc/validator.py:155-156 | for amounts in cents, gross passes exactly when its cents are the sum of net and tax cents |
| Rules.CheckNonNegative | invoice_qc/validator.py:162-166 | fails exactly on a present amount below zero, naming the field |
| Rules.CheckCurrency | invoice_qc/validator.py:168-173 | fails exactly on null or a code outside the nine allowed |
| Rules.CurrencyCaseSensitive | invoice_qc/validator.py:170-171 | "EUR" passes, "eur" and " EUR" are refused |
| Dates.FirstPresent | invoice_qc/validator.py:88-92 | the index found is the first candidate present; all earlier candidates are absent |
| Dates.DetectSeparator | invoice_qc/validator.py:88-95 | the loop finds no separator exactly when none of `.`, `-`, `/` occurs, and otherwise finds the first one that does |
| Dates.ParseDate | invoice_qc/validator.py:105-115 | with the year taken from the first part when it has four characters and from the third otherwise: the parts pass exactly when they form a calendar date whose year is in [2000, currentYear + 1], fail with the range error exactly when they form a calendar date outside it, and otherwise fail with the format error; a parsed date is that year, the middle part as month and the other part as day |
| Dates.CheckInvoiceDate | invoice_qc/validator.py:80-120 | every failure is the format error; a passing date is returned stripped |
| Dates.CheckInvoiceDateAccepts | invoice_qc/validator.py:80-120 | a non-empty date passes exactly when its stripped text is three separator-free parts joined by the first separator present, forming a calendar date in range |
| Dates.NoSeparatorRejected | invoice_qc/validator.py:94-95 | no separator: the format error |
| Dates.WrongPartCountRejected | invoice_qc/validator.py:97-99 | not exactly three parts: the format error |
| Dates.YearOutOfRangeIsFormatError | invoice_qc/validator.py:113-118 | for any of the three separators, either layout, and a calendar year below 2000 or beyond currentYear + 1, the parts raise the range error inside the try and the date check reports the format error |
| Dates.Year2032IsFormatError | invoice_qc/validator.py:113-118 | "2032-01-01" in 2026 is rejected as badly formatted |
| Dates.DayFirstAccepted | invoice_qc/validator.py:105-111 | "15.03.2024" in 2026 passes, read day-month-year |
| Records.Declared | invoice_qc/validator.py:51-64 | a declared field fails exactly when its key is absent (Field required) and otherwise holds the raw value or null |
| Records.NumberField | invoice_qc/validator.py:124-126 | the conversion fails exactly on an absent key or a string float() refuses; null converts to null |
| Records.LineTotalCheck | invoice_qc/validator.py:32-45 | a failed conversion stops the field; a passing line total agrees with quantity times unit price to the cent |
| Records.ValidateLineItem | invoice_qc/validator.py:19-45 | a built line item has all three amounts and its total agrees with the product to the cent; a rejected one carries a message |
| Records.LineItemCodes | invoice_qc/validator.py:19-45 | a line item raises only Field required, a number format error, the Missing error or the line mismatch |
| Records.LineItemsField | invoice_qc/validator.py:73-77 | an absent `line_items` is Field required, a null or empty list is the no-line-items message; a built list is non-empty with one item per raw item; a rejection carries a message |
| Records.LineItemsBuilt | invoice_qc/validator.py:64 | a list of line items is built exactly when every item is, item for item; otherwise its messages are those of its items, and there is at least one |
| Records.RequiredField | invoice_qc/validator.py:67-71 | fails exactly on an absent key (Field required) or a null or blank value (missing_field with the name); passes the raw value |
| Records.DateField | invoice_qc/validator.py:80-120 | `invoice_date` fails only as Field required, missing_field or the format error, and a passing date is the stripped raw text |
| Records.RequiredAmount | invoice_qc/validator.py:124-126 | a required amount: Field required exactly on an absent key, missing_field exactly on null or blank, otherwise the conversion's result, which passes only with a value |
| Records.NetChecks | invoice_qc/validator.py:130-166 | the checks after conversion keep an earlier failure and otherwise fail only as the sign error or the net mismatch |
| Records.NetField | invoice_qc/validator.py:130-166 | `net_total` raises only Field required, missing_field, a number format error, the sign error, or the net mismatch when items are known |
| Records.TaxAmountField | invoice_qc/validator.py:162-166 | `tax_amount` raises only Field required, a number format error or the sign error |
| Records.CurrencyField | invoice_qc/validator.py:62 | an absent currency is the default "EUR"; any failure is invalid_currency |
| Records.GrossChecks | invoice_qc/validator.py:146-166 | the checks after conversion keep an earlier failure and otherwise fail only as the sign error or the gross mismatch with both operands there |
| Records.GrossField | invoice_qc/validator.py:146-166 | `gross_total` raises only Field required, missing_field, a number format error, the sign error, or the gross mismatch with both operands there |
| Records.ValidateInvoice | invoice_qc/validator.py:50-173 | `Invoice(**raw)` raises no message exactly when every field passes |
| Records.SoleFailure | invoice_qc/validator.py:50-173 | when every field but one raises nothing, the invoice's messages are exactly that field's |
| Records.ResultsSound | invoice_qc/validator.py:50-173 | every field of every invoice raises only the messages its validators can raise |
| Records.InvoiceMessages | invoice_qc/validator.py:50-173 | every message of an invoice comes from one of its fields' validators; none is the duplicate message, the range error or the net mismatch |
| Records.NoDuplicateRaised | invoice_qc/validator.py:214-216 | the duplicate message never comes from validating one invoice; only the batch adds it |
| InvoiceFacts.LineValueMissingReported | invoice_qc/validator.py:38-39 | once the line total converts, the Missing error is raised exactly when a converted quantity, unit price or line total is null |
| InvoiceFacts.OutcomeArithmetic | invoice_qc/validator.py:41-43 | with all three amounts converted, the mismatch is raised exactly when the rounded values differ, it is the only mismatch, and the item passes exactly when it is not raised and both text keys are present |
| InvoiceFacts.LineTotalArithmetic | invoice_qc/validator.py:41-43 | the same, on the raw line item |
| InvoiceFacts.RequiredAlone | invoice_qc/validator.py:67-71 | a required string passes exactly when filled in, and reports missing_field exactly when null or blank |
| InvoiceFacts.DateAlone | invoice_qc/validator.py:79-120 | `invoice_date` passes exactly when filled in and the date check accepts it |
| InvoiceFacts.NetAlone | invoice_qc/validator.py:130-166 | `net_total` passes exactly when it converts to an amount not below zero, reports missing_field exactly when null or blank, and the sign error exactly when it converts below zero |
| InvoiceFacts.TaxAlone | invoice_qc/validator.py:162-166 | `tax_amount` passes exactly when it converts to null or a non-negative amount, and reports the sign error exactly when below zero |
| InvoiceFacts.GrossAlone | invoice_qc/validator.py:146-166 | `gross_total` passes exactly when it converts, is not negative and reconciles where net and tax are there; the sign error only once reconciled |
| InvoiceFacts.CurrencyAlone | invoice_qc/validator.py:168-173 | `currency` passes exactly when absent or an allowed code; invalid_currency exactly on null or another code |
| InvoiceFacts.LineItemsAlone | invoice_qc/validator.py:73-77 | `line_items` is built exactly when it is a non-empty list of valid items |
| InvoiceFacts.RequiredFieldReported | invoice_qc/validator.py:67-71 | for each of the six required fields, `missing_field: <field>` is in the invoice's messages exactly when that raw value is null or blank |
| InvoiceFacts.LineItemsReported | invoice_qc/validator.py:73-77 | the no-line-items message is raised exactly when `line_items` is null or empty |
| InvoiceFacts.GrossReconciled | invoice_qc/validator.py:146-159 | when net and tax passed and gross converts, the gross mismatch is in the messages exactly when rounded gross differs from rounded net plus tax, and no other gross mismatch is |
| InvoiceFacts.GrossSkipped | invoice_qc/validator.py:152-153 | when net or tax failed or is null, no gross mismatch is raised |
| InvoiceFacts.NetNotReconciled | invoice_qc/validator.py:130-143 | no invoice is ever refused with a net mismatch |
| InvoiceFacts.NegativeReported | invoice_qc/validator.py:162-166 | for net, tax and gross, negative_amount naming the field is raised exactly when that amount converts below zero (gross: once reconciled) |
| InvoiceFacts.TaxPercentageUnsigned | invoice_qc/validator.py:162 | `tax_percentage` is never sign-checked |
| InvoiceFacts.CurrencyReported | invoice_qc/validator.py:168-173 | invalid_currency is raised exactly on a null or unlisted code; an absent currency ends as "EUR" |
| InvoiceFacts.ResultsAllPass | invoice_qc/validator.py:50-173 | every field of an invoice passes exactly when the raw record is acceptable field by field |
| InvoiceFacts.InvoiceAccepted | invoice_qc/validator.py:50-173 | `Invoice(**raw)` raises nothing exactly when every declared key is there, the required strings are filled, the date is in range, amounts convert, signed ones are not negative, gross reconciles, the currency is absent or allowed and the line items are a non-empty list of valid items |
| Batch.FrequenciesAppend | invoice_qc/validator.py:197-198 | appending an outcome adds each of its messages once to the counts |
| Batch.Tally | invoice_qc/validator.py:197-198 | the counter loop adds every message of the list once |
| Batch.InitialOutcome | invoice_qc/validator.py:186-204 | an invoice's first-pass outcome reports the raw id or "unknown", is valid exactly when it has no message, and never holds the duplicate message |
| Batch.InitialOutcomes | invoice_qc/validator.py:185-204 | one first-pass outcome per invoice |
| Batch.InitialOutcomesAt | invoice_qc/validator.py:185-204 | the i-th first-pass outcome is that of the i-th invoice |
| Batch.FirstPass | invoice_qc/validator.py:185-204 | one outcome per invoice in input order, as the record validator gives it; valid exactly when it has no messages; no duplicate message yet; the counter is the frequency of all messages |
| Batch.InitialOutcomesShape | invoice_qc/validator.py:188-204 | after the first pass, valid exactly when the message list is empty, and no outcome holds the duplicate message |
| Batch.KeyOf | invoice_qc/validator.py:209-212 | an invoice takes part in duplicate detection exactly when seller name, invoice number and date are all given, keyed by the raw values |
| Batch.DuplicatedMeansShared | invoice_qc/validator.py:207-229 | an invoice is flagged exactly when it has a key and another invoice of the batch has the same key |
| Batch.MarkDuplicates | invoice_qc/validator.py:207-229 | every outcome is flagged exactly when its invoice is duplicated and otherwise left as it was; the counter grows by the number of repeat sightings |
| Batch.FlagRepeat | invoice_qc/validator.py:214-226 | a repeat sighting flags the first invoice with the key (once) and the current one, keeping the invariant of the pass |
| Batch.ValidCount | invoice_qc/validator.py:233 | the number of valid outcomes is at most the number of outcomes |
| Batch.ValidCountExtremes | invoice_qc/validator.py:233 | the valid count is the total exactly when all are valid and zero exactly when none is |
| Batch.Summarize | invoice_qc/validator.py:232-241 | total is the number of outcomes, valid plus invalid is the total, and the error counts are the counter |
| Batch.ValidateInvoices | invoice_qc/validator.py:180-247 | the outcomes are the report, item for item, and the summary is built from them and from the batch's counts |
| Batch.Report | invoice_qc/validator.py:207-229 | one outcome per invoice, reporting its raw id or "unknown", valid exactly when it has no message, and holding the duplicate message exactly when the invoice is duplicated |
| Batch.ReportOutcome | invoice_qc/validator.py:181-229 | each outcome reports the raw id or "unknown", is valid exactly when the invoice raised nothing and is not a duplicate, lists the invoice's messages followed by one duplicate message if duplicated, and holds the duplicate message at most once |
| Batch.KeylessUnchanged | invoice_qc/validator.py:211-212 | an invoice without a full key keeps its first-pass outcome |
| Batch.SummaryCounts | invoice_qc/validator.py:198-216 | every message but the duplicate one is counted as often as it appears in the report; the duplicate one is counted once per repeat sighting while it appears once per flagged invoice |
| Batch.DuplicatedSwapped | invoice_qc/validator.py:207-229 | exchanging two neighbouring invoices exchanges whether they are flagged as duplicates and leaves every other invoice's flag as it was |
| Batch.RepeatsSwapped | invoice_qc/validator.py:214-216 | exchanging two neighbouring invoices keeps the number of repeat sightings the duplicate counter adds |
| Batch.FrequenciesSwapped | invoice_qc/validator.py:197-198 | the message counter does not depend on the order of the outcomes |
| Batch.ValidCountSwapped | invoice_qc/validator.py:234 | the valid count does not depend on the order of the outcomes |
| Batch.ReorderedOutcomes | invoice_qc/validator.py:185-229 | exchanging two neighbouring invoices exchanges their reported outcomes and leaves every other outcome unchanged |
| Batch.ReorderedSummary | invoice_qc/validator.py:232-241 | exchanging two neighbouring invoices leaves the final counter and the summary unchanged |
| Batch.ReorderedBatch | invoice_qc/validator.py:180-247 | exchanging two neighbouring invoices of the batch exchanges their outcomes, leaves every other outcome as it was, and leaves the counter and the summary unchanged |
| Batch.TwoCopiesOneRepeat | invoice_qc/validator.py:214-226 | in a batch of two copies and one other invoice, both copies are flagged and the third is not, yet only one repeat is counted |
| Batch.CopiesOfAcceptable | invoice_qc/validator.py:207-229 | two copies of an acceptable invoice both end invalid with just the duplicate message, a third acceptable invoice stays valid, and the duplicate count is 1 |
| Samples.ReadsTenPointZero | invoice_qc/validator.py:14 | "10.00" reads as 1000 |
| Samples.SampleItemBuilt | invoice_qc/validator.py:41-42 | quantity "2", unit price "10.00" and line total "20.00" form a valid line item |
| Samples.SampleAccepted | invoice_qc/validator.py:50-173 | the sample invoice with gross "20.00" is accepted |
| Samples.SampleMismatch | invoice_qc/validator.py:155-157 | with gross "25.00" the invoice reports exactly one message, the gross mismatch expecting 2000 and finding 2500 |

## Left out

- Floating point: amounts are exact rationals, so binary rounding artefacts of `float` and of `round(x, 2)` are not modelled.
- Numbers.ParseNumber: models `float()` on decimal text only (whitespace, sign, digits with an optional point, an exponent); underscores between digits, "inf", "nan" and overflow are not modelled. Digits are ASCII only; the other Unicode decimal digits, which `float()` accepts, are not modelled.
- Numbers.ParseNumber: the branch for an `int` or `float` argument (validator.py:12-13) is not modelled, because every field `parse_number` is applied to is declared as an optional string.
- Values of the wrong type are not modelled: the string fields of a raw record hold a string or nothing, `invoice_id` an integer or nothing, and `line_items` a list of raw line items or nothing. The messages pydantic raises or the coercions it applies for anything else (a number in a string field, say, or a non-integer `invoice_id`) are left out. Extra keys are not modelled either.
- Message text: messages are abstract codes; pydantic's "Value error, " prefix and the exact wording of amounts in mismatch messages (Python's float repr) are not modelled.
- `datetime.now()`: the current year is the parameter `currentYear`.
- Dates.ParseDate: `strptime` is modelled at the level of the three parts (four-digit year, month and day of one or two digits, a day written with a leading space, days in the month, the year 1 minimum); its other directives are not used by the validator. Digits are ASCII only; the other Unicode decimal digits, which `strptime` accepts, are not modelled.
- Rules.CheckNetTotal: modelled and proved, but called as the code calls it, with no line items known, so it never fails in the model of `Invoice`.
- The `invoice_qc/cli.py` command line, `app/main.py` web endpoints, `frontend/script.js` and the PDF extractor `invoice_qc/extractor.py` are not part of this model: they are I/O around the engine.
- Batch.ReorderedBatch: order independence is stated for one exchange of neighbouring invoices; that every reordering is a series of such exchanges, and so keeps the summary, is not stated as a lemma.
- Batch.MarkDuplicates: the result dictionaries are values in a sequence that the method reassigns; dictionary aliasing between `results` and callers is not modelled.
