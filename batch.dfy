/**
 * `validate_invoices`: the batch validator. A first pass validates every
 * invoice on its own and counts its messages; a second pass flags invoices
 * that share seller, number and date with another; a summary folds the
 * outcomes into counts.
 */
module Batch {
  import opened Types
  import opened Records
  import opened InvoiceFacts

  /** The `invoice_id` an outcome reports: the raw value, or "unknown" when the key is missing. */
  datatype ReportedId = Unknown | Reported(id: Option<int>)

  function ReportedIdOf(f: Field<int>): (r: ReportedId)
    ensures r == Unknown <==> f.Absent?
    ensures f.Given? ==> r == Reported(Some(f.value))
    ensures f.Null? ==> r == Reported(None)
  {
    match f
    case Absent => Unknown
    case Null => Reported(None)
    case Given(x) => Reported(Some(x))
  }

  /** One entry of the `invoices` list of the report. */
  datatype Outcome = Outcome(invoiceId: ReportedId, isValid: bool, errors: seq<ErrorCode>)

  /** The `summary` of the report; `errorCounts` is the message counter. */
  datatype Summary = Summary(total: nat, valid: nat, invalid: int, errorCounts: multiset<ErrorCode>)

  /** The frequency of every message across a list of outcomes. */
  function Frequencies(results: seq<Outcome>): multiset<ErrorCode>
  {
    if results == [] then multiset{}
    else Frequencies(results[..|results| - 1]) + multiset(results[|results| - 1].errors)
  }

  lemma {:induction false} FrequenciesAppend(results: seq<Outcome>, o: Outcome)
    ensures Frequencies(results + [o]) == Frequencies(results) + multiset(o.errors)
  {
    assert (results + [o])[..|results|] == results;
  }

  /** Outcomes none of which carries the duplicate message do not count it. */
  lemma {:induction false} NoDuplicateInFrequencies(results: seq<Outcome>)
    requires forall j :: 0 <= j < |results| ==> DuplicateInvoice !in results[j].errors
    ensures Frequencies(results)[DuplicateInvoice] == 0
  {
    if results != [] {
      var init := results[..|results| - 1];
      assert forall j :: 0 <= j < |init| ==> init[j] == results[j];
      NoDuplicateInFrequencies(init);
    }
  }

  /** What the first pass records for one invoice. */
  function InitialOutcome(inv: RawInvoice, currentYear: int): (o: Outcome)
    ensures o.invoiceId == ReportedIdOf(inv.invoiceId)
    ensures o.isValid <==> o.errors == []
    ensures DuplicateInvoice !in o.errors
  {
    NoDuplicateRaised(inv, currentYear);
    var errors := ValidateInvoice(inv, currentYear);
    Outcome(ReportedIdOf(inv.invoiceId), errors == [], errors)
  }

  /** The first-pass outcomes of a list of invoices, in order (see `InitialOutcomesAt`). */
  function InitialOutcomes(invoices: seq<RawInvoice>, currentYear: int): (r: seq<Outcome>)
    ensures |r| == |invoices|
  {
    if invoices == [] then []
    else InitialOutcomes(invoices[..|invoices| - 1], currentYear) + [InitialOutcome(invoices[|invoices| - 1], currentYear)]
  }

  /** Each first-pass outcome is that of its own invoice. */
  lemma {:induction false} InitialOutcomesAt(invoices: seq<RawInvoice>, currentYear: int, i: nat)
    requires i < |invoices|
    ensures InitialOutcomes(invoices, currentYear)[i] == InitialOutcome(invoices[i], currentYear)
    decreases |invoices|
  {
    if i < |invoices| - 1 {
      InitialOutcomesAt(invoices[..|invoices| - 1], currentYear, i);
    }
  }

  /** A first-pass outcome is valid exactly when it carries no message, and never carries the duplicate message. */
  lemma {:induction false} InitialOutcomesShape(invoices: seq<RawInvoice>, currentYear: int)
    ensures forall i :: 0 <= i < |invoices| ==> DuplicateInvoice !in InitialOutcomes(invoices, currentYear)[i].errors
    ensures forall i :: 0 <= i < |invoices| ==>
      (InitialOutcomes(invoices, currentYear)[i].isValid <==> InitialOutcomes(invoices, currentYear)[i].errors == [])
  {
    forall i | 0 <= i < |invoices|
      ensures DuplicateInvoice !in InitialOutcomes(invoices, currentYear)[i].errors
      ensures InitialOutcomes(invoices, currentYear)[i].isValid <==> InitialOutcomes(invoices, currentYear)[i].errors == []
    {
      InitialOutcomesAt(invoices, currentYear, i);
      NoDuplicateRaised(invoices[i], currentYear);
    }
  }

  /** Adds every message of `errors` to the counter, one at a time. */
  method Tally(counter0: multiset<ErrorCode>, errors: seq<ErrorCode>) returns (counter: multiset<ErrorCode>)
    ensures counter == counter0 + multiset(errors)
  {
    counter := counter0;
    for k := 0 to |errors|
      invariant counter == counter0 + multiset(errors[..k])
    {
      assert errors[..k + 1] == errors[..k] + [errors[k]];
      counter := counter + multiset{errors[k]};
    }
    assert errors[..|errors|] == errors;
  }

  /** The first-pass outcomes of one more invoice. */
  lemma {:induction false} FirstPassStep(invoices: seq<RawInvoice>, currentYear: int, i: nat)
    requires i < |invoices|
    ensures InitialOutcomes(invoices[..i + 1], currentYear)
      == InitialOutcomes(invoices[..i], currentYear) + [InitialOutcome(invoices[i], currentYear)]
  {
    assert invoices[..i + 1][..i] == invoices[..i];
  }

  /**
   * The first pass: one outcome per invoice, in input order, valid exactly
   * when the invoice raised nothing, and every message added to the counter.
   */
  method FirstPass(invoices: seq<RawInvoice>, currentYear: int) returns (results: seq<Outcome>, counter: multiset<ErrorCode>)
    ensures results == InitialOutcomes(invoices, currentYear)
    ensures forall i :: 0 <= i < |results| ==> DuplicateInvoice !in results[i].errors
    ensures forall i :: 0 <= i < |results| ==> (results[i].isValid <==> results[i].errors == [])
    ensures counter == Frequencies(results)
  {
    results := [];
    counter := multiset{};
    for i := 0 to |invoices|
      invariant results == InitialOutcomes(invoices[..i], currentYear)
      invariant counter == Frequencies(results)
    {
      var invoice := invoices[i];
      var errors := ValidateInvoice(invoice, currentYear);
      counter := Tally(counter, errors);
      FirstPassStep(invoices, currentYear, i);
      var outcome := Outcome(ReportedIdOf(invoice.invoiceId), errors == [], errors);
      FrequenciesAppend(results, outcome);
      results := results + [outcome];
    }
    assert invoices[..|invoices|] == invoices;
    InitialOutcomesShape(invoices, currentYear);
  }

  // ---------------------------------------------------------- duplicates

  /** The duplicate key: seller, number and date exactly as given (not stripped). */
  datatype InvoiceKey = InvoiceKey(seller: string, number: string, date: string)

  /** `invoice.get(...)` on the three key fields; no key when any of them is missing or null. */
  function KeyOf(inv: RawInvoice): (r: Option<InvoiceKey>)
    ensures r.Some? <==> inv.sellerName.Given? && inv.invoiceNumber.Given? && inv.invoiceDate.Given?
    ensures r.Some? ==> r.value == InvoiceKey(inv.sellerName.value, inv.invoiceNumber.value, inv.invoiceDate.value)
  {
    if inv.sellerName.Given? && inv.invoiceNumber.Given? && inv.invoiceDate.Given? then
      Some(InvoiceKey(inv.sellerName.value, inv.invoiceNumber.value, inv.invoiceDate.value))
    else None
  }

  /** How many of the first `n` invoices have key `k`. */
  function Occurrences(invoices: seq<RawInvoice>, n: nat, k: InvoiceKey): nat
    requires n <= |invoices|
  {
    if n == 0 then 0
    else Occurrences(invoices, n - 1, k) + (if KeyOf(invoices[n - 1]) == Some(k) then 1 else 0)
  }

  /** The position of the first of the first `n` invoices with key `k`. */
  function FirstWith(invoices: seq<RawInvoice>, n: nat, k: InvoiceKey): (p: nat)
    requires n <= |invoices| && Occurrences(invoices, n, k) > 0
    ensures p < n && KeyOf(invoices[p]) == Some(k)
  {
    if Occurrences(invoices, n - 1, k) > 0 then FirstWith(invoices, n - 1, k) else n - 1
  }

  /** No invoice before the first with a key has that key. */
  lemma {:induction false} FirstWithIsFirst(invoices: seq<RawInvoice>, n: nat, k: InvoiceKey, j: nat)
    requires n <= |invoices| && Occurrences(invoices, n, k) > 0
    requires j < n && KeyOf(invoices[j]) == Some(k)
    ensures FirstWith(invoices, n, k) <= j
  {
    if Occurrences(invoices, n - 1, k) > 0 {
      if j < n - 1 {
        FirstWithIsFirst(invoices, n - 1, k, j);
      }
    } else if j < n - 1 {
      OccurrenceCounted(invoices, n - 1, k, j);
    }
  }

  /** An invoice with key `k` among the first `n` is counted. */
  lemma {:induction false} OccurrenceCounted(invoices: seq<RawInvoice>, n: nat, k: InvoiceKey, j: nat)
    requires n <= |invoices| && j < n && KeyOf(invoices[j]) == Some(k)
    ensures Occurrences(invoices, n, k) > 0
  {
    if j < n - 1 {
      OccurrenceCounted(invoices, n - 1, k, j);
    }
  }

  /** Two invoices with key `k` among the first `n` are counted twice. */
  lemma {:induction false} TwoOccurrences(invoices: seq<RawInvoice>, n: nat, k: InvoiceKey, a: nat, b: nat)
    requires n <= |invoices| && a < b < n
    requires KeyOf(invoices[a]) == Some(k) && KeyOf(invoices[b]) == Some(k)
    ensures Occurrences(invoices, n, k) >= 2
  {
    if b < n - 1 {
      TwoOccurrences(invoices, n - 1, k, a, b);
    } else {
      OccurrenceCounted(invoices, n - 1, k, a);
    }
  }

  /** Among the first `n` invoices, invoice `j` shares its key with another. */
  predicate DuplicateAmong(invoices: seq<RawInvoice>, n: nat, j: nat)
    requires n <= |invoices| && j < |invoices|
  {
    j < n && KeyOf(invoices[j]).Some? && Occurrences(invoices, n, KeyOf(invoices[j]).value) >= 2
  }

  /** Invoice `j` shares its key with another invoice of the batch. */
  predicate Duplicated(invoices: seq<RawInvoice>, j: nat)
    requires j < |invoices|
  {
    DuplicateAmong(invoices, |invoices|, j)
  }

  /** A duplicate, by the definition above, is an invoice whose key another invoice of the batch has too. */
  lemma {:induction false} DuplicatedMeansShared(invoices: seq<RawInvoice>, j: nat)
    requires j < |invoices|
    ensures Duplicated(invoices, j) <==>
      KeyOf(invoices[j]).Some? && exists i :: 0 <= i < |invoices| && i != j && KeyOf(invoices[i]) == KeyOf(invoices[j])
  {
    var n := |invoices|;
    if KeyOf(invoices[j]).Some? {
      var k := KeyOf(invoices[j]).value;
      if Duplicated(invoices, j) {
        var p := FirstWith(invoices, n, k);
        if p != j {
          assert p != j && KeyOf(invoices[p]) == KeyOf(invoices[j]);
        } else {
          var i := OtherThanFirst(invoices, n, k);
          assert i != j && KeyOf(invoices[i]) == KeyOf(invoices[j]);
        }
      }
      if exists i :: 0 <= i < n && i != j && KeyOf(invoices[i]) == KeyOf(invoices[j]) {
        var i :| 0 <= i < n && i != j && KeyOf(invoices[i]) == KeyOf(invoices[j]);
        if i < j {
          TwoOccurrences(invoices, n, k, i, j);
        } else {
          TwoOccurrences(invoices, n, k, j, i);
        }
      }
    }
  }

  /** A key counted twice is held by some invoice after the first with it. */
  lemma {:induction false} OtherThanFirst(invoices: seq<RawInvoice>, n: nat, k: InvoiceKey) returns (i: nat)
    requires n <= |invoices| && Occurrences(invoices, n, k) >= 2
    ensures i < n && i != FirstWith(invoices, n, k) && KeyOf(invoices[i]) == Some(k)
  {
    if Occurrences(invoices, n - 1, k) >= 2 {
      i := OtherThanFirst(invoices, n - 1, k);
    } else {
      i := n - 1;
    }
  }

  /** How many of the first `n` invoices have a key an earlier invoice already had: the repeat sightings. */
  function Repeats(invoices: seq<RawInvoice>, n: nat): nat
    requires n <= |invoices|
  {
    if n == 0 then 0
    else
      var k := KeyOf(invoices[n - 1]);
      Repeats(invoices, n - 1) + (if k.Some? && Occurrences(invoices, n - 1, k.value) > 0 then 1 else 0)
  }

  /** `n` copies of the duplicate message. */
  function Duplicates(n: nat): (r: multiset<ErrorCode>)
    ensures r[DuplicateInvoice] == n
    ensures forall e :: e != DuplicateInvoice ==> r[e] == 0
  {
    multiset{}[DuplicateInvoice := n]
  }

  /** An outcome after the duplicate pass: a duplicate is invalid and carries the duplicate message once more. */
  function Flag(o: Outcome, duplicate: bool): Outcome
  {
    if duplicate then Outcome(o.invoiceId, false, o.errors + [DuplicateInvoice]) else o
  }

  /** After `index` invoices of the duplicate pass, every outcome is flagged as the first `index` invoices decide. */
  ghost predicate FlaggedAt(invoices: seq<RawInvoice>, first: seq<Outcome>, results: seq<Outcome>, index: nat)
    requires |first| == |invoices| && index <= |invoices|
  {
    |results| == |invoices|
    && forall j :: 0 <= j < |invoices| ==> results[j] == Flag(first[j], DuplicateAmong(invoices, index, j))
  }

  /** After `index` invoices, `seen` maps each key met so far to the first invoice that had it. */
  ghost predicate SeenAt(invoices: seq<RawInvoice>, seen: map<InvoiceKey, nat>, index: nat)
    requires index <= |invoices|
  {
    && (forall k :: k in seen <==> Occurrences(invoices, index, k) > 0)
    && (forall k :: k in seen ==> seen[k] == FirstWith(invoices, index, k))
  }

  /**
   * The duplicate pass over the first-pass outcomes. Every invoice whose key
   * another invoice shares ends invalid with one duplicate message; the
   * counter grows by one per repeat sighting; nothing else changes.
   */
  method MarkDuplicates(invoices: seq<RawInvoice>, first: seq<Outcome>, counter0: multiset<ErrorCode>)
    returns (results: seq<Outcome>, counter: multiset<ErrorCode>)
    requires |first| == |invoices|
    requires forall j :: 0 <= j < |first| ==> DuplicateInvoice !in first[j].errors
    ensures |results| == |invoices|
    ensures forall j :: 0 <= j < |invoices| ==> results[j] == Flag(first[j], Duplicated(invoices, j))
    ensures counter == counter0 + Duplicates(Repeats(invoices, |invoices|))
  {
    results := first;
    counter := counter0;
    var seen: map<InvoiceKey, nat> := map[];
    for index := 0 to |invoices|
      invariant FlaggedAt(invoices, first, results, index)
      invariant SeenAt(invoices, seen, index)
      invariant counter == counter0 + Duplicates(Repeats(invoices, index))
    {
      var key := KeyOf(invoices[index]);
      if key.None? {
        KeylessStep(invoices, first, results, seen, index);
        continue;
      }
      var k := key.value;
      if k in seen {
        results := FlagRepeat(invoices, first, results, seen, index, k);
        counter := counter + multiset{DuplicateInvoice};
      } else {
        FreshStep(invoices, first, results, seen, index, k);
        seen := seen[k := index];
      }
    }
  }

  /**
   * A repeat sighting of key `k` at `index`: the invoice first seen with `k`
   * gets the duplicate message unless it already has it, and the invoice at
   * `index` gets it too; both become invalid.
   */
  method FlagRepeat(
    invoices: seq<RawInvoice>, first: seq<Outcome>, results0: seq<Outcome>, seen: map<InvoiceKey, nat>, index: nat, k: InvoiceKey)
    returns (results: seq<Outcome>)
    requires |first| == |invoices| && index < |invoices|
    requires forall j :: 0 <= j < |first| ==> DuplicateInvoice !in first[j].errors
    requires KeyOf(invoices[index]) == Some(k) && k in seen && SeenAt(invoices, seen, index)
    requires FlaggedAt(invoices, first, results0, index)
    ensures FlaggedAt(invoices, first, results, index + 1)
    ensures SeenAt(invoices, seen, index + 1)
    ensures Repeats(invoices, index + 1) == Repeats(invoices, index) + 1
  {
    var msg := DuplicateInvoice;
    var prevIndex := seen[k];
    PreviousFlagged(invoices, first, results0, index, k);
    var prev := results0[prevIndex];
    if msg !in prev.errors {
      prev := Outcome(prev.invoiceId, false, prev.errors + [msg]);
    } else {
      prev := Outcome(prev.invoiceId, false, prev.errors);
    }
    results := results0[prevIndex := prev];
    var cur := results[index];
    results := results[index := Outcome(cur.invoiceId, false, cur.errors + [msg])];
    RepeatStep(invoices, first, results, seen, index, k);
  }

  /** The earlier invoice with the key carries the duplicate message exactly when the key was already repeated. */
  lemma {:induction false} PreviousFlagged(
    invoices: seq<RawInvoice>, first: seq<Outcome>, results: seq<Outcome>, index: nat, k: InvoiceKey)
    requires |first| == |invoices| == |results| && index < |invoices|
    requires forall j :: 0 <= j < |first| ==> DuplicateInvoice !in first[j].errors
    requires FlaggedAt(invoices, first, results, index)
    requires Occurrences(invoices, index, k) > 0
    ensures
      var p := FirstWith(invoices, index, k);
      (DuplicateInvoice in results[p].errors <==> Occurrences(invoices, index, k) >= 2)
      && results[p].invoiceId == first[p].invoiceId
      && (Occurrences(invoices, index, k) >= 2 ==> results[p].errors == first[p].errors + [DuplicateInvoice])
      && (Occurrences(invoices, index, k) < 2 ==> results[p].errors == first[p].errors)
  {
    var p := FirstWith(invoices, index, k);
    assert results[p] == Flag(first[p], DuplicateAmong(invoices, index, p));
  }

  /** How the key counts move when the invoice at `index` is passed over. */
  lemma {:induction false} OccurrencesStep(invoices: seq<RawInvoice>, index: nat)
    requires index < |invoices|
    ensures forall k :: KeyOf(invoices[index]) != Some(k) ==> Occurrences(invoices, index + 1, k) == Occurrences(invoices, index, k)
    ensures KeyOf(invoices[index]).Some? ==>
      Occurrences(invoices, index + 1, KeyOf(invoices[index]).value) == Occurrences(invoices, index, KeyOf(invoices[index]).value) + 1
  {
  }

  /** A sighting of a key already seen: the invariant of the duplicate pass holds one invoice further. */
  lemma {:induction false} RepeatStep(
    invoices: seq<RawInvoice>, first: seq<Outcome>, results: seq<Outcome>, seen: map<InvoiceKey, nat>, index: nat, k: InvoiceKey)
    requires |first| == |invoices| == |results| && index < |invoices|
    requires KeyOf(invoices[index]) == Some(k) && k in seen && SeenAt(invoices, seen, index)
    requires forall j :: 0 <= j < |invoices| && j != index && j != FirstWith(invoices, index, k) ==>
      results[j] == Flag(first[j], DuplicateAmong(invoices, index, j))
    requires results[FirstWith(invoices, index, k)] == Flag(first[FirstWith(invoices, index, k)], true)
    requires results[index] == Flag(first[index], true)
    ensures FlaggedAt(invoices, first, results, index + 1)
    ensures SeenAt(invoices, seen, index + 1)
    ensures Repeats(invoices, index + 1) == Repeats(invoices, index) + 1
  {
    OccurrencesStep(invoices, index);
    var p := FirstWith(invoices, index, k);
    forall j | 0 <= j < |invoices|
      ensures results[j] == Flag(first[j], DuplicateAmong(invoices, index + 1, j))
    {
      if j != index && j != p && j < index && KeyOf(invoices[j]) == Some(k) {
        FirstWithIsFirst(invoices, index, k, j);
        TwoOccurrences(invoices, index, k, p, j);
      }
    }
    forall k' | Occurrences(invoices, index, k') > 0 ensures FirstWith(invoices, index + 1, k') == FirstWith(invoices, index, k') {
    }
  }

  /** A first sighting of a key: the invariant of the duplicate pass holds one invoice further. */
  lemma {:induction false} FreshStep(
    invoices: seq<RawInvoice>, first: seq<Outcome>, results: seq<Outcome>, seen: map<InvoiceKey, nat>, index: nat, k: InvoiceKey)
    requires |first| == |invoices| && index < |invoices|
    requires KeyOf(invoices[index]) == Some(k) && k !in seen && SeenAt(invoices, seen, index)
    requires FlaggedAt(invoices, first, results, index)
    ensures FlaggedAt(invoices, first, results, index + 1)
    ensures SeenAt(invoices, seen[k := index], index + 1)
    ensures Repeats(invoices, index + 1) == Repeats(invoices, index)
  {
    OccurrencesStep(invoices, index);
    forall j | 0 <= j < |invoices|
      ensures results[j] == Flag(first[j], DuplicateAmong(invoices, index + 1, j))
    {
      if j < index && KeyOf(invoices[j]) == Some(k) {
        OccurrenceCounted(invoices, index, k, j);
      }
    }
    forall k' | Occurrences(invoices, index, k') > 0 ensures FirstWith(invoices, index + 1, k') == FirstWith(invoices, index, k') {
    }
  }

  /** An invoice without a key: nothing moves but the index. */
  lemma {:induction false} KeylessStep(
    invoices: seq<RawInvoice>, first: seq<Outcome>, results: seq<Outcome>, seen: map<InvoiceKey, nat>, index: nat)
    requires |first| == |invoices| && index < |invoices|
    requires KeyOf(invoices[index]).None? && SeenAt(invoices, seen, index)
    requires FlaggedAt(invoices, first, results, index)
    ensures FlaggedAt(invoices, first, results, index + 1)
    ensures SeenAt(invoices, seen, index + 1)
    ensures Repeats(invoices, index + 1) == Repeats(invoices, index)
  {
    OccurrencesStep(invoices, index);
    forall k' | Occurrences(invoices, index, k') > 0 ensures FirstWith(invoices, index + 1, k') == FirstWith(invoices, index, k') {
    }
  }

  // ---------------------------------------------------------- the report

  /** What the batch validator reports for each invoice of the batch. */
  function Report(invoices: seq<RawInvoice>, currentYear: int): (r: seq<Outcome>)
    ensures |r| == |invoices|
    ensures forall j :: 0 <= j < |invoices| ==> r[j].invoiceId == ReportedIdOf(invoices[j].invoiceId)
    ensures forall j :: 0 <= j < |invoices| ==> (r[j].isValid <==> r[j].errors == [])
    ensures forall j :: 0 <= j < |invoices| ==> (DuplicateInvoice in r[j].errors <==> Duplicated(invoices, j))
  {
    seq(|invoices|, j requires 0 <= j < |invoices| => Flag(InitialOutcome(invoices[j], currentYear), Duplicated(invoices, j)))
  }

  /** `sum(result["is_valid"] for result in results)`. */
  function ValidCount(results: seq<Outcome>): (n: nat)
    ensures n <= |results|
  {
    if results == [] then 0
    else ValidCount(results[..|results| - 1]) + (if results[|results| - 1].isValid then 1 else 0)
  }

  /** The summary object of the report. */
  function Summarize(results: seq<Outcome>, counter: multiset<ErrorCode>): (s: Summary)
    ensures s.total == |results| && 0 <= s.invalid <= s.total && s.valid + s.invalid == s.total
    ensures s.errorCounts == counter
  {
    var valid := ValidCount(results);
    Summary(|results|, valid, |results| - valid, counter)
  }

  /** The counter the batch validator ends with. */
  function BatchCounts(invoices: seq<RawInvoice>, currentYear: int): multiset<ErrorCode>
  {
    Frequencies(InitialOutcomes(invoices, currentYear)) + Duplicates(Repeats(invoices, |invoices|))
  }

  /**
   * `validate_invoices`: the first pass, the duplicate pass and the summary.
   * One outcome per invoice, in input order.
   */
  method ValidateInvoices(invoices: seq<RawInvoice>, currentYear: int) returns (results: seq<Outcome>, summary: Summary)
    ensures results == Report(invoices, currentYear)
    ensures summary == Summarize(results, BatchCounts(invoices, currentYear))
  {
    var first, counter := FirstPass(invoices, currentYear);
    results, counter := MarkDuplicates(invoices, first, counter);
    forall j | 0 <= j < |invoices| ensures results[j] == Report(invoices, currentYear)[j] {
      InitialOutcomesAt(invoices, currentYear, j);
    }
    summary := Summarize(results, counter);
  }

  // ---------------------------------------------------------- properties

  /**
   * Each reported outcome: the invoice id as given or "unknown", valid exactly
   * when the invoice raised nothing and is no duplicate, its own messages
   * followed by one duplicate message exactly when it is a duplicate.
   */
  lemma {:induction false} ReportOutcome(invoices: seq<RawInvoice>, currentYear: int, j: nat)
    requires j < |invoices|
    ensures Report(invoices, currentYear)[j].invoiceId == ReportedIdOf(invoices[j].invoiceId)
    ensures Report(invoices, currentYear)[j].isValid <==>
      ValidateInvoice(invoices[j], currentYear) == [] && !Duplicated(invoices, j)
    ensures Report(invoices, currentYear)[j].errors ==
      ValidateInvoice(invoices[j], currentYear) + (if Duplicated(invoices, j) then [DuplicateInvoice] else [])
    ensures multiset(Report(invoices, currentYear)[j].errors)[DuplicateInvoice] == if Duplicated(invoices, j) then 1 else 0
  {
    NoDuplicateRaised(invoices[j], currentYear);
    var errors := ValidateInvoice(invoices[j], currentYear);
    assert multiset(errors)[DuplicateInvoice] == 0;
    if !Duplicated(invoices, j) {
      assert errors + [] == errors;
    }
  }

  /** An invoice with a missing or null key component is reported as the first pass left it. */
  lemma {:induction false} KeylessUnchanged(invoices: seq<RawInvoice>, currentYear: int, j: nat)
    requires j < |invoices| && KeyOf(invoices[j]).None?
    ensures Report(invoices, currentYear)[j] == InitialOutcome(invoices[j], currentYear)
  {
  }

  /** How many of the first `n` invoices are reported as duplicates. */
  function Flagged(invoices: seq<RawInvoice>, n: nat): (c: nat)
    requires n <= |invoices|
    ensures c <= n
  {
    if n == 0 then 0 else Flagged(invoices, n - 1) + (if Duplicated(invoices, n - 1) then 1 else 0)
  }

  lemma {:induction false} FrequenciesStep(results: seq<Outcome>, n: nat)
    requires 0 < n <= |results|
    ensures Frequencies(results[..n]) == Frequencies(results[..n - 1]) + multiset(results[n - 1].errors)
  {
    assert results[..n][..n - 1] == results[..n - 1];
  }

  lemma {:induction false} DuplicatesAdd(a: nat, b: nat)
    ensures Duplicates(a) + Duplicates(b) == Duplicates(a + b)
  {
  }

  /** Outcome `r` carries the messages of `o`, and one duplicate message more when `duplicate` holds. */
  predicate AddsFlag(r: Outcome, o: Outcome, duplicate: bool)
  {
    multiset(r.errors) == multiset(o.errors) + Duplicates(if duplicate then 1 else 0)
  }

  /** The `j`-th outcome of `results` is the `j`-th of `first`, flagged when that invoice is a duplicate. */
  predicate AddsFlagAt(invoices: seq<RawInvoice>, first: seq<Outcome>, results: seq<Outcome>, j: nat)
    requires j < |invoices| == |first| == |results|
  {
    AddsFlag(results[j], first[j], Duplicated(invoices, j))
  }

  /** Adding one outcome's messages to both sides of a frequency equation. */
  lemma {:induction false} AddOne(freq: multiset<ErrorCode>, counts: multiset<ErrorCode>, flagged: nat, r: Outcome, o: Outcome, duplicate: bool)
    requires freq == counts + Duplicates(flagged)
    requires AddsFlag(r, o, duplicate)
    ensures freq + multiset(r.errors) == (counts + multiset(o.errors)) + Duplicates(flagged + if duplicate then 1 else 0)
  {
    DuplicatesAdd(flagged, if duplicate then 1 else 0);
  }

  /** Every reported outcome carries its first-pass messages, plus one duplicate message when flagged. */
  lemma {:induction false} ReportAddsFlags(invoices: seq<RawInvoice>, currentYear: int)
    ensures forall j :: 0 <= j < |invoices| ==>
      AddsFlag(Report(invoices, currentYear)[j], InitialOutcomes(invoices, currentYear)[j], Duplicated(invoices, j))
  {
    forall j | 0 <= j < |invoices|
      ensures AddsFlag(Report(invoices, currentYear)[j], InitialOutcomes(invoices, currentYear)[j], Duplicated(invoices, j))
    {
      OutcomeMessages(invoices, currentYear, j);
    }
  }

  lemma {:induction false} OutcomeMessages(invoices: seq<RawInvoice>, currentYear: int, j: nat)
    requires j < |invoices|
    ensures AddsFlag(Report(invoices, currentYear)[j], InitialOutcomes(invoices, currentYear)[j], Duplicated(invoices, j))
  {
    InitialOutcomesAt(invoices, currentYear, j);
    FlagAdds(InitialOutcomes(invoices, currentYear)[j], Duplicated(invoices, j));
  }

  /** Flagging an outcome adds one duplicate message exactly when it is a duplicate. */
  lemma {:induction false} FlagAdds(o: Outcome, duplicate: bool)
    ensures AddsFlag(Flag(o, duplicate), o, duplicate)
  {
    if duplicate {
      assert multiset(o.errors + [DuplicateInvoice]) == multiset(o.errors) + multiset{DuplicateInvoice};
      assert multiset{DuplicateInvoice} == Duplicates(1);
    } else {
      assert multiset{} == Duplicates(0);
    }
  }

  /**
   * Outcomes that are `first` with one duplicate message added to each
   * duplicate: each message occurs as often as in `first`, and the duplicate
   * message once per flagged invoice.
   */
  lemma {:induction false} FlaggedFrequencies(invoices: seq<RawInvoice>, first: seq<Outcome>, results: seq<Outcome>, n: nat)
    requires |first| == |results| == |invoices| && n <= |invoices|
    requires forall j :: 0 <= j < |invoices| ==> AddsFlagAt(invoices, first, results, j)
    ensures Frequencies(results[..n]) == Frequencies(first[..n]) + Duplicates(Flagged(invoices, n))
  {
    if n == 0 {
      assert results[..0] == [];
      assert first[..0] == [];
    } else {
      FlaggedFrequencies(invoices, first, results, n - 1);
      assert AddsFlagAt(invoices, first, results, n - 1);
      AddOne(Frequencies(results[..n - 1]), Frequencies(first[..n - 1]), Flagged(invoices, n - 1),
        results[n - 1], first[n - 1], Duplicated(invoices, n - 1));
      FrequenciesStep(results, n);
      FrequenciesStep(first, n);
    }
  }

  lemma {:induction false} FlaggedFrequenciesAll(invoices: seq<RawInvoice>, first: seq<Outcome>, results: seq<Outcome>)
    requires |first| == |results| == |invoices|
    requires forall j :: 0 <= j < |invoices| ==> AddsFlag(results[j], first[j], Duplicated(invoices, j))
    ensures Frequencies(results) == Frequencies(first) + Duplicates(Flagged(invoices, |invoices|))
  {
    FlaggedFrequencies(invoices, first, results, |invoices|);
    assert results[..|invoices|] == results;
    assert first[..|invoices|] == first;
  }

  /** Counters that differ only in how many duplicate messages they hold. */
  lemma {:induction false} CountsAgree(first: multiset<ErrorCode>, reported: multiset<ErrorCode>, flagged: nat, repeats: nat, e: ErrorCode)
    requires first[DuplicateInvoice] == 0 && reported == first + Duplicates(flagged)
    ensures e != DuplicateInvoice ==> (first + Duplicates(repeats))[e] == reported[e]
    ensures (first + Duplicates(repeats))[DuplicateInvoice] == repeats
    ensures reported[DuplicateInvoice] == flagged
  {
  }

  /**
   * The summary's counter agrees with the reported outcomes on every message
   * but the duplicate one, which it counts once per repeat sighting, while the
   * outcomes carry it once per flagged invoice.
   */
  lemma {:induction false} SummaryCounts(invoices: seq<RawInvoice>, currentYear: int, e: ErrorCode)
    ensures e != DuplicateInvoice ==>
      BatchCounts(invoices, currentYear)[e] == Frequencies(Report(invoices, currentYear))[e]
    ensures BatchCounts(invoices, currentYear)[DuplicateInvoice] == Repeats(invoices, |invoices|)
    ensures Frequencies(Report(invoices, currentYear))[DuplicateInvoice] == Flagged(invoices, |invoices|)
  {
    var first := InitialOutcomes(invoices, currentYear);
    ReportAddsFlags(invoices, currentYear);
    FlaggedFrequenciesAll(invoices, first, Report(invoices, currentYear));
    InitialOutcomesShape(invoices, currentYear);
    NoDuplicateInFrequencies(first);
    CountsAgree(Frequencies(first), Frequencies(Report(invoices, currentYear)), Flagged(invoices, |invoices|),
      Repeats(invoices, |invoices|), e);
  }

  /** The summary counts every outcome once, as valid or as invalid. */
  lemma {:induction false} ValidCountExtremes(results: seq<Outcome>)
    ensures ValidCount(results) == |results| <==> forall j :: 0 <= j < |results| ==> results[j].isValid
    ensures ValidCount(results) == 0 <==> forall j :: 0 <= j < |results| ==> !results[j].isValid
  {
    if results != [] {
      var init := results[..|results| - 1];
      ValidCountExtremes(init);
      assert forall j :: 0 <= j < |init| ==> init[j] == results[j];
    }
  }

  /**
   * Two copies of one keyed invoice and a third with another key: both copies
   * are flagged, the third is not, and the counter sees one repeat.
   */
  lemma TwoCopiesOneRepeat(a: RawInvoice, b: RawInvoice)
    requires KeyOf(a).Some? && KeyOf(b) != KeyOf(a)
    ensures Duplicated([a, a, b], 0) && Duplicated([a, a, b], 1) && !Duplicated([a, a, b], 2)
    ensures Flagged([a, a, b], 3) == 2 && Repeats([a, a, b], 3) == 1
  {
    var s := [a, a, b];
    var k := KeyOf(a).value;
    assert Occurrences(s, 1, k) == 1;
    assert Occurrences(s, 2, k) == 2;
    assert Occurrences(s, 3, k) == 2;
    assert Repeats(s, 1) == 0;
    assert Repeats(s, 2) == 1;
    if KeyOf(b).Some? {
      var kb := KeyOf(b).value;
      assert Occurrences(s, 1, kb) == 0;
      assert Occurrences(s, 2, kb) == 0;
      assert Occurrences(s, 3, kb) == 1;
    }
    assert Flagged(s, 1) == 1;
    assert Flagged(s, 2) == 2;
  }

  /**
   * Two copies of an acceptable invoice and a third acceptable invoice with
   * another key: each copy is reported invalid with the duplicate message as
   * its only message, the third stays valid, and the counter sees the
   * duplicate message once.
   */
  lemma {:induction false} CopiesOfAcceptable(a: RawInvoice, b: RawInvoice, currentYear: int)
    requires KeyOf(a).Some? && KeyOf(b) != KeyOf(a)
    requires Acceptable(a, currentYear) && Acceptable(b, currentYear)
    ensures Report([a, a, b], currentYear)[0] == Outcome(ReportedIdOf(a.invoiceId), false, [DuplicateInvoice])
    ensures Report([a, a, b], currentYear)[1] == Outcome(ReportedIdOf(a.invoiceId), false, [DuplicateInvoice])
    ensures Report([a, a, b], currentYear)[2] == Outcome(ReportedIdOf(b.invoiceId), true, [])
    ensures BatchCounts([a, a, b], currentYear)[DuplicateInvoice] == 1
  {
    InvoiceAccepted(a, currentYear);
    InvoiceAccepted(b, currentYear);
    TwoCopiesOneRepeat(a, b);
    SummaryCounts([a, a, b], currentYear, DuplicateInvoice);
  }

  // ---------------------------------------------------------- reordering

  /** `s` with the neighbours at `i` and `i + 1` exchanged; every reordering is a series of these. */
  function Swapped<T>(s: seq<T>, i: nat): (r: seq<T>)
    requires i + 1 < |s|
    ensures |r| == |s|
    ensures forall j :: 0 <= j < |s| ==> r[j] == s[SwappedIndex(i, j)]
  {
    s[..i] + [s[i + 1], s[i]] + s[i + 2..]
  }

  /** The position of `s` whose element `Swapped(s, i)` holds at `j`. */
  function SwappedIndex(i: nat, j: nat): nat
  {
    if j == i then i + 1 else if j == i + 1 then i else j
  }

  /** Exchanging two neighbours keeps the count of a key in every prefix that holds both or neither. */
  lemma {:induction false} OccurrencesSwapped(s: seq<RawInvoice>, i: nat, n: nat, k: InvoiceKey)
    requires i + 1 < |s| && n <= |s| && (n <= i || i + 2 <= n)
    ensures Occurrences(Swapped(s, i), n, k) == Occurrences(s, n, k)
  {
    var t := Swapped(s, i);
    if n == 0 {
    } else if n == i + 2 {
      OccurrencesSwapped(s, i, i, k);
      assert t[i] == s[i + 1] && t[i + 1] == s[i];
      assert Occurrences(t, i + 1, k) == Occurrences(t, i, k) + (if KeyOf(t[i]) == Some(k) then 1 else 0);
      assert Occurrences(s, i + 1, k) == Occurrences(s, i, k) + (if KeyOf(s[i]) == Some(k) then 1 else 0);
    } else {
      OccurrencesSwapped(s, i, n - 1, k);
      assert t[n - 1] == s[n - 1];
    }
  }

  /** Exchanging two neighbours exchanges whether they are duplicates and keeps it for every other invoice. */
  lemma {:induction false} DuplicatedSwapped(s: seq<RawInvoice>, i: nat, j: nat)
    requires i + 1 < |s| && j < |s|
    ensures Duplicated(Swapped(s, i), j) == Duplicated(s, SwappedIndex(i, j))
  {
    var t := Swapped(s, i);
    assert t[j] == s[SwappedIndex(i, j)];
    if KeyOf(t[j]).Some? {
      OccurrencesSwapped(s, i, |s|, KeyOf(t[j]).value);
    }
  }

  /** Exchanging two neighbours exchanges their first-pass outcomes. */
  lemma {:induction false} InitialOutcomesSwapped(s: seq<RawInvoice>, i: nat, currentYear: int)
    requires i + 1 < |s|
    ensures InitialOutcomes(Swapped(s, i), currentYear) == Swapped(InitialOutcomes(s, currentYear), i)
  {
    var t := Swapped(s, i);
    forall j | 0 <= j < |s|
      ensures InitialOutcomes(t, currentYear)[j] == Swapped(InitialOutcomes(s, currentYear), i)[j]
    {
      InitialOutcomesAt(t, currentYear, j);
      InitialOutcomesAt(s, currentYear, SwappedIndex(i, j));
    }
  }

  /** Exchanging two neighbours exchanges their reported outcomes. */
  lemma {:induction false} ReportSwapped(s: seq<RawInvoice>, i: nat, currentYear: int)
    requires i + 1 < |s|
    ensures Report(Swapped(s, i), currentYear) == Swapped(Report(s, currentYear), i)
  {
    var t := Swapped(s, i);
    forall j | 0 <= j < |s| ensures Report(t, currentYear)[j] == Swapped(Report(s, currentYear), i)[j] {
      DuplicatedSwapped(s, i, j);
      assert t[j] == s[SwappedIndex(i, j)];
    }
  }

  /** Exchanging two neighbours keeps the number of repeat sightings in every prefix that holds both or neither. */
  lemma {:induction false} RepeatsSwapped(s: seq<RawInvoice>, i: nat, n: nat)
    requires i + 1 < |s| && n <= |s| && (n <= i || i + 2 <= n)
    ensures Repeats(Swapped(s, i), n) == Repeats(s, n)
  {
    var t := Swapped(s, i);
    if n == 0 {
    } else if n == i + 2 {
      RepeatsSwapped(s, i, i);
      var a, b := KeyOf(s[i]), KeyOf(s[i + 1]);
      assert t[i] == s[i + 1] && t[i + 1] == s[i];
      assert Repeats(t, i + 1) == Repeats(t, i) + (if b.Some? && Occurrences(t, i, b.value) > 0 then 1 else 0);
      assert Repeats(s, i + 1) == Repeats(s, i) + (if a.Some? && Occurrences(s, i, a.value) > 0 then 1 else 0);
      if a.Some? {
        OccurrencesSwapped(s, i, i, a.value);
        assert Occurrences(t, i + 1, a.value) == Occurrences(t, i, a.value) + (if b == a then 1 else 0);
      }
      if b.Some? {
        OccurrencesSwapped(s, i, i, b.value);
        assert Occurrences(s, i + 1, b.value) == Occurrences(s, i, b.value) + (if a == b then 1 else 0);
      }
    } else {
      RepeatsSwapped(s, i, n - 1);
      assert t[n - 1] == s[n - 1];
      if KeyOf(s[n - 1]).Some? {
        OccurrencesSwapped(s, i, n - 1, KeyOf(s[n - 1]).value);
      }
    }
  }

  /** Message frequencies do not depend on the order of the outcomes. */
  lemma {:induction false} FrequenciesSwapped(r: seq<Outcome>, i: nat)
    requires i + 1 < |r|
    ensures Frequencies(Swapped(r, i)) == Frequencies(r)
    decreases |r|
  {
    var t := Swapped(r, i);
    var n := |r|;
    if n == i + 2 {
      assert r == r[..i] + [r[i], r[i + 1]];
      assert t == r[..i] + [r[i + 1], r[i]];
      FrequenciesLastTwo(r[..i], r[i], r[i + 1]);
    } else {
      assert t[..n - 1] == Swapped(r[..n - 1], i);
      assert t[n - 1] == r[n - 1];
      FrequenciesSwapped(r[..n - 1], i);
    }
  }

  lemma {:induction false} FrequenciesLastTwo(p: seq<Outcome>, a: Outcome, b: Outcome)
    ensures Frequencies(p + [a, b]) == Frequencies(p + [b, a])
  {
    assert p + [a, b] == (p + [a]) + [b];
    assert p + [b, a] == (p + [b]) + [a];
    FrequenciesAppend(p, a);
    FrequenciesAppend(p, b);
    FrequenciesAppend(p + [a], b);
    FrequenciesAppend(p + [b], a);
  }

  /** The number of valid outcomes does not depend on their order. */
  lemma {:induction false} ValidCountSwapped(r: seq<Outcome>, i: nat)
    requires i + 1 < |r|
    ensures ValidCount(Swapped(r, i)) == ValidCount(r)
    decreases |r|
  {
    var t := Swapped(r, i);
    var n := |r|;
    if n == i + 2 {
      var u, v := t[..n - 1], r[..n - 1];
      assert u == r[..i] + [r[i + 1]] && u[..i] == r[..i];
      assert v == r[..i] + [r[i]] && v[..i] == r[..i];
    } else {
      assert t[..n - 1] == Swapped(r[..n - 1], i);
      ValidCountSwapped(r[..n - 1], i);
    }
  }

  /** Exchanging two neighbouring invoices exchanges their outcomes and leaves every other outcome as it was. */
  lemma {:induction false} ReorderedOutcomes(s: seq<RawInvoice>, i: nat, currentYear: int)
    requires i + 1 < |s|
    ensures |Report(Swapped(s, i), currentYear)| == |s|
    ensures Report(Swapped(s, i), currentYear)[i] == Report(s, currentYear)[i + 1]
    ensures Report(Swapped(s, i), currentYear)[i + 1] == Report(s, currentYear)[i]
    ensures forall j :: 0 <= j < |s| && j != i && j != i + 1 ==> Report(Swapped(s, i), currentYear)[j] == Report(s, currentYear)[j]
  {
    ReportSwapped(s, i, currentYear);
    var r := Report(s, currentYear);
    assert Swapped(r, i)[i] == r[i + 1] && Swapped(r, i)[i + 1] == r[i];
    forall j | 0 <= j < |s| && j != i && j != i + 1 ensures Swapped(r, i)[j] == r[j] {
      assert SwappedIndex(i, j) == j;
    }
  }

  /** Exchanging two neighbouring invoices leaves the counter and the summary as they were. */
  lemma {:induction false} ReorderedSummary(s: seq<RawInvoice>, i: nat, currentYear: int)
    requires i + 1 < |s|
    ensures BatchCounts(Swapped(s, i), currentYear) == BatchCounts(s, currentYear)
    ensures Summarize(Report(Swapped(s, i), currentYear), BatchCounts(Swapped(s, i), currentYear))
         == Summarize(Report(s, currentYear), BatchCounts(s, currentYear))
  {
    ReportSwapped(s, i, currentYear);
    InitialOutcomesSwapped(s, i, currentYear);
    FrequenciesSwapped(InitialOutcomes(s, currentYear), i);
    RepeatsSwapped(s, i, |s|);
    ValidCountSwapped(Report(s, currentYear), i);
  }

  /**
   * Exchanging two neighbouring invoices of the batch exchanges their
   * outcomes, leaves every other outcome as it was, and leaves the counter and
   * the summary unchanged. Every reordering is a series of such exchanges.
   */
  lemma {:induction false} ReorderedBatch(s: seq<RawInvoice>, i: nat, currentYear: int)
    requires i + 1 < |s|
    ensures Report(Swapped(s, i), currentYear)[i] == Report(s, currentYear)[i + 1]
    ensures Report(Swapped(s, i), currentYear)[i + 1] == Report(s, currentYear)[i]
    ensures forall j :: 0 <= j < |s| && j != i && j != i + 1 ==> Report(Swapped(s, i), currentYear)[j] == Report(s, currentYear)[j]
    ensures BatchCounts(Swapped(s, i), currentYear) == BatchCounts(s, currentYear)
    ensures Summarize(Report(Swapped(s, i), currentYear), BatchCounts(Swapped(s, i), currentYear))
         == Summarize(Report(s, currentYear), BatchCounts(s, currentYear))
  {
    ReorderedOutcomes(s, i, currentYear);
    ReorderedSummary(s, i, currentYear);
  }
}
