/**
 * `Invoice.validate_date_format`: an invoice date is a stripped string of three
 * parts joined by the first of `.`, `-`, `/` that occurs in it, read as
 * year-month-day when the first part is four characters long and as
 * day-month-year otherwise. The current year is a parameter.
 */
module Dates {
  import opened Types
  import opened Text

  /** The separators in the order the validator tries them. */
  const Separators: seq<char> := ['.', '-', '/']

  /** Index of the first candidate that occurs in `v`; |cands| when none does. */
  function FirstPresent(cands: seq<char>, v: string): (k: nat)
    ensures k <= |cands|
    ensures forall j :: 0 <= j < k ==> cands[j] !in v
    ensures k < |cands| ==> cands[k] in v
  {
    if cands == [] then 0 else if cands[0] in v then 0 else 1 + FirstPresent(cands[1..], v)
  }

  /** The separator the validator settles on, if any. */
  function SeparatorOf(v: string): Option<char>
  {
    var k := FirstPresent(Separators, v);
    if k < |Separators| then Some(Separators[k]) else None
  }

  /** The separator search loop: try each candidate in turn and stop at the first one present. */
  method DetectSeparator(v: string) returns (sep: Option<char>)
    ensures sep.None? <==> forall j :: 0 <= j < |Separators| ==> Separators[j] !in v
    ensures sep == SeparatorOf(v)
  {
    sep := None;
    for i := 0 to |Separators|
      invariant sep.None?
      invariant forall j :: 0 <= j < i ==> Separators[j] !in v
    {
      if Separators[i] in v {
        sep := Some(Separators[i]);
        break;
      }
    }
  }

  datatype Date = Date(year: int, month: int, day: int)

  /** `%Y`: exactly four digits. */
  predicate YearText(p: string)
  {
    |p| == 4 && AllDigits(p)
  }

  /** `%m`: one of 1..9, 01..09, 10..12. */
  predicate MonthText(p: string)
  {
    1 <= |p| <= 2 && AllDigits(p) && 1 <= DigitsValue(p) <= 12
  }

  /** `%d`: one of 1..9, 01..31, or a space and a digit 1..9. */
  predicate DayText(p: string)
  {
    (1 <= |p| <= 2 && AllDigits(p) && 1 <= DigitsValue(p) <= 31)
    || (|p| == 2 && p[0] == ' ' && '1' <= p[1] <= '9')
  }

  function DayValue(p: string): int
    requires DayText(p)
  {
    if p[0] == ' ' then DigitsValue(p[1..]) else DigitsValue(p)
  }

  predicate IsLeap(y: int)
  {
    y % 4 == 0 && (y % 100 != 0 || y % 400 == 0)
  }

  function DaysInMonth(y: int, m: int): int
    requires 1 <= m <= 12
  {
    if m == 2 then (if IsLeap(y) then 29 else 28)
    else if m == 4 || m == 6 || m == 9 || m == 11 then 30
    else 31
  }

  /** The part `strptime` reads as the year: the first when it is four characters long, else the last. */
  function YearPart(p1: string, p3: string): string
  {
    if |p1| == 4 then p1 else p3
  }

  /** The part read as the day: the other of the two. */
  function DayPart(p1: string, p3: string): string
  {
    if |p1| == 4 then p3 else p1
  }

  /** Year, month and day texts `strptime` accepts and that name a day of the calendar. */
  predicate CalendarDate(y: string, m: string, d: string)
  {
    YearText(y) && MonthText(m) && DayText(d) && 1 <= DigitsValue(y)
    && DayValue(d) <= DaysInMonth(DigitsValue(y), DigitsValue(m))
  }

  /** The validator's year range: from 2000 to the year after the current one. */
  predicate InRange(year: int, currentYear: int)
  {
    2000 <= year <= currentYear + 1
  }

  /**
   * The body of the validator's `try` block: `strptime` with the layout the
   * first part selects, the calendar check `datetime` makes, then the year
   * range check, which raises its own error.
   */
  function ParseDate(p1: string, p2: string, p3: string, currentYear: int): (r: Checked<Date>)
    ensures r.Pass? <==>
      CalendarDate(YearPart(p1, p3), p2, DayPart(p1, p3)) && InRange(DigitsValue(YearPart(p1, p3)), currentYear)
    ensures r == Fail(InvalidDateRange) <==>
      CalendarDate(YearPart(p1, p3), p2, DayPart(p1, p3)) && !InRange(DigitsValue(YearPart(p1, p3)), currentYear)
    ensures r.Fail? ==> r.code == InvalidDateFormat || r.code == InvalidDateRange
    ensures r.Pass? ==> 1 <= r.value.month <= 12 && 1 <= r.value.day <= DaysInMonth(r.value.year, r.value.month)
    ensures r.Pass? ==> r.value == Date(DigitsValue(YearPart(p1, p3)), DigitsValue(p2), DayValue(DayPart(p1, p3)))
  {
    var y, m, d := YearPart(p1, p3), p2, DayPart(p1, p3);
    if !(YearText(y) && MonthText(m) && DayText(d)) then Fail(InvalidDateFormat)
    else
      var date := Date(DigitsValue(y), DigitsValue(m), DayValue(d));
      if date.year < 1 || date.day > DaysInMonth(date.year, date.month) then Fail(InvalidDateFormat)
      else if !InRange(date.year, currentYear) then Fail(InvalidDateRange)
      else Pass(date)
  }

  /**
   * `validate_date_format` on the value the earlier validators of the field
   * left. Every failure inside the `try` block, the range error included,
   * surfaces as the format error; a passing date is returned stripped.
   */
  function CheckInvoiceDate(v: Option<string>, currentYear: int): (r: Checked<Option<string>>)
    ensures r.Fail? ==> r.code == InvalidDateFormat
    ensures r.Pass? ==> v.Some? && r.value == Some(Strip(v.value))
  {
    if v.None? || v.value == [] then Fail(InvalidDateFormat)
    else
      var s := Strip(v.value);
      match SeparatorOf(s)
      case None => Fail(InvalidDateFormat)
      case Some(sep) =>
        var parts := Split(s, sep);
        if |parts| != 3 then Fail(InvalidDateFormat)
        else if ParseDate(parts[0], parts[1], parts[2], currentYear).Pass? then Pass(Some(s))
        else Fail(InvalidDateFormat)
  }

  /** `s` is `p1`, `p2`, `p3` joined by `sep`, none of them containing it. */
  predicate Layout(s: string, sep: char, p1: string, p2: string, p3: string)
  {
    s == p1 + [sep] + p2 + [sep] + p3 && sep !in p1 && sep !in p2 && sep !in p3
  }

  /** A date the validator accepts, described without `split`. */
  ghost predicate AcceptedDate(s: string, currentYear: int)
  {
    exists sep, p1, p2, p3 ::
      Layout(s, sep, p1, p2, p3) && SeparatorOf(s) == Some(sep) && ParseDate(p1, p2, p3, currentYear).Pass?
  }

  lemma {:induction false} JoinThree(p1: string, p2: string, p3: string, c: char)
    ensures Join([p1, p2, p3], c) == p1 + [c] + p2 + [c] + p3
  {
    assert [p1, p2, p3][1..] == [p2, p3];
    assert [p2, p3][1..] == [p3];
    assert Join([p2, p3], c) == p2 + [c] + p3;
  }

  /**
   * A non-empty date passes exactly when its stripped text is three
   * separator-free parts joined by the first separator present, and those
   * parts parse as a calendar date whose year is in range.
   */
  lemma {:induction false} CheckInvoiceDateAccepts(v: string, currentYear: int)
    requires v != []
    ensures CheckInvoiceDate(Some(v), currentYear).Pass? <==> AcceptedDate(Strip(v), currentYear)
  {
    var s := Strip(v);
    if CheckInvoiceDate(Some(v), currentYear).Pass? {
      var sep := SeparatorOf(s).value;
      var parts := Split(s, sep);
      JoinSplit(s, sep);
      JoinThree(parts[0], parts[1], parts[2], sep);
      assert [parts[0], parts[1], parts[2]] == parts;
      assert Layout(s, sep, parts[0], parts[1], parts[2]);
    }
    if AcceptedDate(s, currentYear) {
      var sep, p1, p2, p3 :|
        Layout(s, sep, p1, p2, p3) && SeparatorOf(s) == Some(sep) && ParseDate(p1, p2, p3, currentYear).Pass?;
      JoinThree(p1, p2, p3, sep);
      SplitJoin([p1, p2, p3], sep);
    }
  }

  /** A date with no separator at all is a format error. */
  lemma {:induction false} NoSeparatorRejected(v: string, currentYear: int)
    requires forall j :: 0 <= j < |Separators| ==> Separators[j] !in Strip(v)
    ensures CheckInvoiceDate(Some(v), currentYear) == Fail(InvalidDateFormat)
  {
  }

  /** A date whose first separator does not cut it into exactly three parts is a format error. */
  lemma {:induction false} WrongPartCountRejected(v: string, currentYear: int, sep: char)
    requires SeparatorOf(Strip(v)) == Some(sep)
    requires |Split(Strip(v), sep)| != 3
    ensures CheckInvoiceDate(Some(v), currentYear) == Fail(InvalidDateFormat)
  {
  }

  /** Year, month and day texts hold digits and at most a leading space, so no separator. */
  lemma {:induction false} PartsHaveNoSeparator(y: string, m: string, d: string)
    requires CalendarDate(y, m, d)
    ensures forall c :: c in Separators ==> c !in y && c !in m && c !in d
  {
  }

  /** Three calendar parts joined by a separator: the validator settles on that separator. */
  lemma {:induction false} JoinedBy(s: string, sep: char, p1: string, p2: string, p3: string)
    requires sep in Separators && s == p1 + [sep] + p2 + [sep] + p3
    requires CalendarDate(YearPart(p1, p3), p2, DayPart(p1, p3))
    ensures Layout(s, sep, p1, p2, p3) && SeparatorOf(s) == Some(sep)
  {
    PartsHaveNoSeparator(YearPart(p1, p3), p2, DayPart(p1, p3));
    assert forall c :: c in Separators && c != sep ==> c !in s;
    assert sep in s by {
      assert s[|p1|] == sep;
    }
    var k := FirstPresent(Separators, s);
    var i :| 0 <= i < |Separators| && Separators[i] == sep;
    assert k <= i;
  }

  /**
   * A well-formed calendar date outside the year range, in either layout and
   * with any separator, raises the range error inside the `try`, and so the
   * validator reports it as a format error.
   */
  lemma {:induction false} YearOutOfRangeIsFormatError(v: string, currentYear: int, sep: char, p1: string, p2: string, p3: string)
    requires sep in Separators && Strip(v) == p1 + [sep] + p2 + [sep] + p3
    requires CalendarDate(YearPart(p1, p3), p2, DayPart(p1, p3))
    requires !InRange(DigitsValue(YearPart(p1, p3)), currentYear)
    ensures ParseDate(p1, p2, p3, currentYear) == Fail(InvalidDateRange)
    ensures CheckInvoiceDate(Some(v), currentYear) == Fail(InvalidDateFormat)
  {
    var s := Strip(v);
    JoinedBy(s, sep, p1, p2, p3);
    JoinThree(p1, p2, p3, sep);
    SplitJoin([p1, p2, p3], sep);
  }

  /** The year 2032 is beyond the range in 2026, yet the validator calls "2032-01-01" badly formatted. */
  lemma Year2032IsFormatError()
    ensures ParseDate("2032", "01", "01", 2026) == Fail(InvalidDateRange)
    ensures CheckInvoiceDate(Some("2032-01-01"), 2026) == Fail(InvalidDateFormat)
  {
    DateParts2032();
    assert Strip("2032-01-01") == "2032" + ['-'] + "01" + ['-'] + "01" by {
      StripUntrimmed("2032-01-01");
    }
    YearOutOfRangeIsFormatError("2032-01-01", 2026, '-', "2032", "01", "01");
  }

  lemma DateParts2032()
    ensures YearText("2032") && DigitsValue("2032") == 2032
    ensures MonthText("01") && DayText("01") && DigitsValue("01") == 1 && DayValue("01") == 1
  {
    assert "2032"[..3] == "203" && "203"[..2] == "20" && "20"[..1] == "2";
    assert "01"[..1] == "0";
  }

  /** A day-month-year date with a dot passes: "15.03.2024", seen in 2026. */
  lemma DayFirstAccepted()
    ensures CheckInvoiceDate(Some("15.03.2024"), 2026) == Pass(Some("15.03.2024"))
  {
    assert Strip("15.03.2024") == "15.03.2024" by {
      StripUntrimmed("15.03.2024");
    }
    assert SeparatorOf("15.03.2024") == Some('.') by {
      assert "15.03.2024"[2] == '.';
    }
    DayFirstSplit();
    DayFirstParts();
  }

  lemma DayFirstSplit()
    ensures Split("15.03.2024", '.') == ["15", "03", "2024"]
  {
    assert "15" + ['.'] + "03" + ['.'] + "2024" == "15.03.2024";
    JoinThree("15", "03", "2024", '.');
    SplitJoin(["15", "03", "2024"], '.');
  }

  lemma DayFirstParts()
    ensures ParseDate("15", "03", "2024", 2026) == Pass(Date(2024, 3, 15))
  {
    DayFirstDigits();
    assert |"15"| != 4;
    assert DaysInMonth(2024, 3) == 31;
  }

  lemma DayFirstDigits()
    ensures YearText("2024") && DigitsValue("2024") == 2024
    ensures MonthText("03") && DigitsValue("03") == 3
    ensures DayText("15") && DayValue("15") == 15
  {
    assert "2024"[..3] == "202" && "202"[..2] == "20" && "20"[..1] == "2";
    assert "15"[..1] == "1" && "03"[..1] == "0";
  }
}
