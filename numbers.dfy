/**
 * The number normaliser `parse_number` and the two-place rounding the
 * reconciliation checks compare with. Amounts are exact rationals (`real`).
 */
module Numbers {
  import opened Types
  import opened Text

  /** `s.replace(x, "")` for one character. */
  function DeleteAll(s: string, x: char): string
  {
    if s == [] then [] else DeleteAll(s[..|s| - 1], x) + (if s[|s| - 1] == x then [] else [s[|s| - 1]])
  }

  /** Deleting `x` removes every `x` and keeps every other character. */
  lemma {:induction false} DeleteAllShape(s: string, x: char)
    ensures x !in DeleteAll(s, x)
    ensures forall y :: y != x ==> (y in DeleteAll(s, x) <==> y in s)
  {
    if s != [] {
      DeleteAllShape(s[..|s| - 1], x);
      assert s == s[..|s| - 1] + [s[|s| - 1]];
    }
  }

  /** `s.replace(a, b)` for single characters. */
  function ReplaceAll(s: string, a: char, b: char): (r: string)
    ensures |r| == |s|
  {
    seq(|s|, i requires 0 <= i < |s| => if s[i] == a then b else s[i])
  }

  /**
   * The text parse_number hands to float(): every `.` deleted, then every
   * `,` turned into `.`. Both replacements work on single characters, so the
   * two passes come to one pass over the text.
   */
  function Normalize(s: string): (r: string)
    ensures r == ReplaceAll(DeleteAll(s, '.'), ',', '.')
  {
    PrefixTwoSteps(s, |s|);
    assert s[..|s|] == s;
    NormalizePrefix(s, |s|)
  }

  /** `Normalize(s[..n])`. */
  function NormalizePrefix(s: string, n: nat): string
    requires n <= |s|
  {
    if n == 0 then [] else NormalizePrefix(s, n - 1) + NormalizeChar(s[n - 1])
  }

  /** What the two replacements make of one character. */
  function NormalizeChar(c: char): string
  {
    if c == '.' then [] else if c == ',' then ['.'] else [c]
  }

  lemma {:induction false} NormalizeOne(c: char)
    ensures Normalize([c]) == NormalizeChar(c)
  {
    assert NormalizePrefix([c], 0) == [];
  }

  lemma {:induction false} PrefixTwoSteps(s: string, n: nat)
    requires n <= |s|
    ensures NormalizePrefix(s, n) == ReplaceAll(DeleteAll(s[..n], '.'), ',', '.')
    decreases n
  {
    if n == 0 {
      assert s[..0] == [];
    } else {
      PrefixTwoSteps(s, n - 1);
      var t := s[..n];
      assert t[..|t| - 1] == s[..n - 1] && t[|t| - 1] == s[n - 1];
      var piece := if s[n - 1] == '.' then [] else [s[n - 1]];
      assert DeleteAll(t, '.') == DeleteAll(s[..n - 1], '.') + piece;
      ReplaceAppend(DeleteAll(s[..n - 1], '.'), piece, ',', '.');
      assert ReplaceAll(piece, ',', '.') == NormalizeChar(s[n - 1]);
    }
  }

  /** After normalising there is no comma, a point exactly where the input had a comma, and every other character is kept. */
  lemma {:induction false} NormalizeShape(s: string)
    ensures ',' !in Normalize(s)
    ensures '.' in Normalize(s) <==> ',' in s
    ensures forall y :: y != '.' && y != ',' ==> (y in Normalize(s) <==> y in s)
  {
    var d := DeleteAll(s, '.');
    var n := Normalize(s);
    DeleteAllShape(s, '.');
    if ',' in s {
      var i :| 0 <= i < |d| && d[i] == ',';
      assert n[i] == '.';
    }
    if '.' in n {
      var i :| 0 <= i < |n| && n[i] == '.';
      assert d[i] == ',';
    }
    forall y | y != '.' && y != ','
      ensures y in n <==> y in s
    {
      if y in n {
        var i :| 0 <= i < |n| && n[i] == y;
        assert d[i] == y;
      }
      if y in d {
        var i :| 0 <= i < |d| && d[i] == y;
        assert n[i] == y;
      }
    }
  }

  /** `x` times 10 to the power `e`, one decimal place at a time. */
  function Shift10(x: real, e: int): real
    decreases if e >= 0 then e else -e
  {
    if e == 0 then x else if e > 0 then Shift10(x, e - 1) * 10.0 else Shift10(x, e + 1) / 10.0
  }

  /** Index of the first `c` or `d` in `s` at or after `i` and before `hi`; `hi` when there is none. */
  function FindFrom(s: string, i: nat, hi: nat, c: char, d: char): (k: nat)
    requires i <= hi <= |s|
    ensures i <= k <= hi
    decreases hi - i
  {
    if i == hi || s[i] == c || s[i] == d then i else FindFrom(s, i + 1, hi, c, d)
  }

  /** `FindFrom` passes over other characters only, and stops at `c` or `d`. */
  lemma {:induction false} FindFromShape(s: string, i: nat, hi: nat, c: char, d: char)
    requires i <= hi <= |s|
    ensures forall j :: i <= j < FindFrom(s, i, hi, c, d) ==> s[j] != c && s[j] != d
    ensures FindFrom(s, i, hi, c, d) < hi ==> s[FindFrom(s, i, hi, c, d)] in {c, d}
    decreases hi - i
  {
    if !(i == hi || s[i] == c || s[i] == d) {
      FindFromShape(s, i + 1, hi, c, d);
    }
  }

  /** Where neither `c` nor `d` occurs, `FindFrom` runs to the end of the range. */
  lemma {:induction false} FindNone(s: string, i: nat, hi: nat, c: char, d: char)
    requires i <= hi <= |s|
    requires forall j :: i <= j < hi ==> s[j] != c && s[j] != d
    ensures FindFrom(s, i, hi, c, d) == hi
  {
    FindFromShape(s, i, hi, c, d);
  }

  /** `FindFrom` for one character stops at its first occurrence. */
  lemma {:induction false} FindAt(s: string, i: nat, hi: nat, p: nat, c: char)
    requires i <= p < hi <= |s| && s[p] == c
    requires forall j :: i <= j < p ==> s[j] != c
    ensures FindFrom(s, i, hi, c, c) == p
  {
    FindFromShape(s, i, hi, c, c);
  }

  /** `s[lo..hi]` is all decimal digits. */
  predicate DigitsIn(s: string, lo: nat, hi: nat)
    requires lo <= hi <= |s|
    decreases hi
  {
    hi == lo || (IsDigit(s[hi - 1]) && DigitsIn(s, lo, hi - 1))
  }

  /** The number the digits `s[lo..hi]` spell; 0 for an empty range. */
  function ValueIn(s: string, lo: nat, hi: nat): nat
    requires lo <= hi <= |s| && DigitsIn(s, lo, hi)
    decreases hi
  {
    if hi == lo then 0 else ValueIn(s, lo, hi - 1) * 10 + (s[hi - 1] as int - '0' as int)
  }

  /** Reading digits in place agrees with reading the slice they occupy. */
  lemma {:induction false} DigitsInSlice(s: string, lo: nat, hi: nat)
    requires lo <= hi <= |s|
    ensures DigitsIn(s, lo, hi) <==> AllDigits(s[lo..hi])
    ensures DigitsIn(s, lo, hi) ==> ValueIn(s, lo, hi) == DigitsValue(s[lo..hi])
    decreases hi
  {
    if hi > lo {
      DigitsInSlice(s, lo, hi - 1);
      var t := s[lo..hi];
      assert t[..|t| - 1] == s[lo..hi - 1];
      assert t[|t| - 1] == s[hi - 1];
      assert AllDigits(t) <==> AllDigits(t[..|t| - 1]) && IsDigit(t[|t| - 1]) by {
        if AllDigits(t[..|t| - 1]) && IsDigit(t[|t| - 1]) {
          forall i | 0 <= i < |t| ensures IsDigit(t[i]) {
            if i < |t| - 1 {
              assert t[i] == t[..|t| - 1][i];
            }
          }
        }
        if AllDigits(t) {
          var u := t[..|t| - 1];
          forall i | 0 <= i < |u| ensures IsDigit(u[i]) {
            assert u[i] == t[i];
          }
        }
      }
    }
  }

  /** Ten to the power `n`. */
  function Pow10(n: nat): nat
  {
    if n == 0 then 1 else 10 * Pow10(n - 1)
  }

  /**
   * The digits before the exponent, `s[lo..hi]`: `w`, `w.`, `.f` or `w.f`
   * with at least one digit. Gives the integer all the digits spell and how
   * many follow the point.
   */
  function ReadMantissa(s: string, lo: nat, hi: nat): Option<(nat, nat)>
    requires lo <= hi <= |s|
  {
    var p := FindFrom(s, lo, hi, '.', '.');
    if p == hi then
      if lo < hi && DigitsIn(s, lo, hi) then Some((ValueIn(s, lo, hi), 0)) else None
    else if (lo < p || p + 1 < hi) && DigitsIn(s, lo, p) && DigitsIn(s, p + 1, hi) then
      Some((ValueIn(s, lo, p) * Pow10(hi - p - 1) + ValueIn(s, p + 1, hi), hi - p - 1))
    else None
  }

  /** The exponent after `e` or `E`, `s[lo..]`: an optional sign and at least one digit. */
  function ReadExponent(s: string, lo: nat): Option<int>
    requires lo <= |s|
  {
    var signed := lo < |s| && (s[lo] == '+' || s[lo] == '-');
    var start := if signed then lo + 1 else lo;
    if start < |s| && DigitsIn(s, start, |s|) then
      var magnitude: int := ValueIn(s, start, |s|);
      Some(if signed && s[lo] == '-' then -magnitude else magnitude)
    else None
  }

  /**
   * Python's `float(t)` on decimal text: surrounding whitespace, an optional
   * sign, a mantissa and an optional exponent. None where float() raises.
   */
  function ReadFloat(t: string): (r: Option<real>)
    ensures Blank(t) ==> r.None?
    ensures r.Some? ==> forall i :: 0 <= i < |Strip(t)| ==> FloatChar(Strip(t)[i])
  {
    StripEmptyIffBlank(t);
    var u := Strip(t);
    UnsignedChars(u, 0);
    if u != [] && (u[0] == '+' || u[0] == '-') then
      UnsignedChars(u, 1);
      match ReadUnsigned(u, 1)
      case Some(x) => Some(if u[0] == '-' then -x else x)
      case None => None
    else ReadUnsigned(u, 0)
  }

  /** The characters float() can accept once the text is stripped. */
  predicate FloatChar(c: char)
  {
    IsDigit(c) || c == '+' || c == '-' || c == '.' || c == 'e' || c == 'E'
  }

  /** What `ReadUnsigned` accepts is made of digits, points, exponent markers and signs. */
  lemma {:induction false} UnsignedChars(u: string, lo: nat)
    requires lo <= |u|
    ensures ReadUnsigned(u, lo).Some? ==> forall i :: lo <= i < |u| ==> FloatChar(u[i])
  {
    var k := FindFrom(u, lo, |u|, 'e', 'E');
    if ReadUnsigned(u, lo).Some? {
      MantissaChars(u, lo, k);
      FindFromShape(u, lo, |u|, 'e', 'E');
      if k < |u| {
        ExponentChars(u, k + 1);
      }
    }
  }

  lemma {:induction false} MantissaChars(s: string, lo: nat, hi: nat)
    requires lo <= hi <= |s|
    ensures ReadMantissa(s, lo, hi).Some? ==> forall i :: lo <= i < hi ==> IsDigit(s[i]) || s[i] == '.'
  {
    var p := FindFrom(s, lo, hi, '.', '.');
    if ReadMantissa(s, lo, hi).Some? {
      FindFromShape(s, lo, hi, '.', '.');
      DigitsInDigits(s, lo, p);
      if p < hi {
        DigitsInDigits(s, p + 1, hi);
      }
    }
  }

  lemma {:induction false} ExponentChars(s: string, lo: nat)
    requires lo <= |s|
    ensures ReadExponent(s, lo).Some? ==> forall i :: lo <= i < |s| ==> FloatChar(s[i])
  {
    var signed := lo < |s| && (s[lo] == '+' || s[lo] == '-');
    var start := if signed then lo + 1 else lo;
    if ReadExponent(s, lo).Some? {
      DigitsInDigits(s, start, |s|);
    }
  }

  /** The value a mantissa's digits and point position and an exponent denote, if both were read. */
  function Decimal(mantissa: Option<(nat, nat)>, exponent: Option<int>): Option<real>
  {
    if mantissa.None? || exponent.None? then None
    else Some(Shift10(mantissa.value.0 as real, exponent.value - mantissa.value.1))
  }

  /** float() after the sign, on `u[lo..]`: a mantissa, then optionally `e` or `E` and an exponent. */
  function ReadUnsigned(u: string, lo: nat): Option<real>
    requires lo <= |u|
  {
    var k := FindFrom(u, lo, |u|, 'e', 'E');
    Decimal(ReadMantissa(u, lo, k), if k == |u| then Some(0) else ReadExponent(u, k + 1))
  }

  /**
   * parse_number for a field the schema declares as an optional string:
   * None stays None, a string is normalised and read by float(); a string
   * float() refuses is the error pydantic reports for the field.
   */
  function ParseNumber(v: Option<string>): (r: Checked<Option<real>>)
    ensures v.None? <==> r == Pass(None)
    ensures r.Fail? ==> v.Some? && r.code == NumberFormat(Normalize(v.value))
  {
    match v
    case None => Pass(None)
    case Some(s) =>
      match ReadFloat(Normalize(s))
      case Some(x) => Pass(Some(x))
      case None => Fail(NumberFormat(Normalize(s)))
  }

  /** A plain digit string reads as the integer it spells. */
  lemma {:induction false} ReadDigits(d: string)
    requires d != [] && AllDigits(d)
    ensures ReadUnsigned(d, 0) == Some(DigitsValue(d) as real)
  {
    assert forall j :: 0 <= j < |d| ==> IsDigit(d[j]);
    FindNone(d, 0, |d|, 'e', 'E');
    FindNone(d, 0, |d|, '.', '.');
    DigitsInSlice(d, 0, |d|);
    assert d[0..|d|] == d;
  }

  /** Digits, a point and digits read as a decimal fraction. */
  lemma {:induction false} ReadPointed(w: string, f: string)
    requires w != [] && AllDigits(w) && AllDigits(f)
    ensures AllDigits(w + f)
    ensures ReadUnsigned(w + ['.'] + f, 0) == Some(Shift10(DigitsValue(w + f) as real, -|f|))
  {
    DigitsValueAppend(w, f);
    PointedNoExponent(w, f);
    PointedMantissa(w, f);
  }

  lemma {:induction false} PointedNoExponent(w: string, f: string)
    requires AllDigits(w) && AllDigits(f)
    ensures FindFrom(w + ['.'] + f, 0, |w| + 1 + |f|, 'e', 'E') == |w| + 1 + |f|
  {
    var m := w + ['.'] + f;
    assert forall i :: 0 <= i < |w| ==> m[i] == w[i] && IsDigit(w[i]);
    assert forall i :: |w| < i < |m| ==> m[i] == f[i - |w| - 1] && IsDigit(f[i - |w| - 1]);
    FindNone(m, 0, |m|, 'e', 'E');
  }

  lemma {:induction false} PointedMantissa(w: string, f: string)
    requires w != [] && AllDigits(w) && AllDigits(f)
    requires AllDigits(w + f) && DigitsValue(w + f) == DigitsValue(w) * Pow10(|f|) + DigitsValue(f)
    ensures ReadMantissa(w + ['.'] + f, 0, |w| + 1 + |f|) == Some((DigitsValue(w + f), |f|))
  {
    var m := w + ['.'] + f;
    assert m[0..|w|] == w && m[|w| + 1..|m|] == f;
    DigitsOfSlice(m, 0, |w|, w);
    DigitsOfSlice(m, |w| + 1, |m|, f);
    MantissaAt(m, |w|);
  }

  lemma {:induction false} DigitsOfSlice(s: string, lo: nat, hi: nat, t: string)
    requires lo <= hi <= |s| && s[lo..hi] == t && AllDigits(t)
    ensures DigitsIn(s, lo, hi) && ValueIn(s, lo, hi) == DigitsValue(t)
  {
    DigitsInSlice(s, lo, hi);
  }

  /** A point with digits on both sides, and at least one before it, splits the mantissa there. */
  lemma {:induction false} MantissaAt(s: string, p: nat)
    requires 0 < p < |s| && s[p] == '.' && DigitsIn(s, 0, p) && DigitsIn(s, p + 1, |s|)
    ensures ReadMantissa(s, 0, |s|) ==
      Some((ValueIn(s, 0, p) * Pow10(|s| - p - 1) + ValueIn(s, p + 1, |s|), |s| - p - 1))
  {
    DigitsInDigits(s, 0, p);
    FindAt(s, 0, |s|, p, '.');
  }

  lemma {:induction false} DigitsInDigits(s: string, lo: nat, hi: nat)
    requires lo <= hi <= |s| && DigitsIn(s, lo, hi)
    ensures forall j :: lo <= j < hi ==> IsDigit(s[j])
    decreases hi
  {
    if hi > lo {
      DigitsInDigits(s, lo, hi - 1);
    }
  }

  predicate IsWhole(x: real)
  {
    x == x.Floor as real
  }

  /**
   * Without a comma there is no decimal point left for float() to see, so a
   * string parses to a whole number, unless an exponent scales it.
   */
  lemma {:induction false} WholeWithoutComma(s: string)
    requires ',' !in s && 'e' !in s && 'E' !in s
    requires ParseNumber(Some(s)).Pass?
    ensures IsWhole(ParseNumber(Some(s)).value.value)
  {
    NormalizeShape(s);
    WholeRead(Normalize(s));
  }

  lemma {:induction false} WholeRead(t: string)
    requires '.' !in t && 'e' !in t && 'E' !in t
    requires ReadFloat(t).Some?
    ensures IsWhole(ReadFloat(t).value)
  {
    var u := Strip(t);
    StripKeeps(t);
    if u != [] && (u[0] == '+' || u[0] == '-') {
      WholeUnsigned(u, 1);
      var x := ReadUnsigned(u, 1).value;
      assert (-x).Floor == -(x.Floor);
    } else {
      WholeUnsigned(u, 0);
    }
  }

  lemma {:induction false} WholeUnsigned(u: string, lo: nat)
    requires lo <= |u| && '.' !in u && 'e' !in u && 'E' !in u
    requires ReadUnsigned(u, lo).Some?
    ensures IsWhole(ReadUnsigned(u, lo).value)
  {
    FindNone(u, lo, |u|, 'e', 'E');
    FindNone(u, lo, |u|, '.', '.');
  }

  /** Stripping only removes characters. */
  lemma {:induction false} StripKeeps(s: string)
    ensures forall c :: c in Strip(s) ==> c in s
  {
    var lo := SkipSpaces(s, 0);
    forall c | c in Strip(s) ensures c in s {
      var i :| 0 <= i < |Strip(s)| && Strip(s)[i] == c;
      assert s[lo + i] == c;
    }
  }

  lemma {:induction false} DeleteAbsent(s: string, x: char)
    requires x !in s
    ensures DeleteAll(s, x) == s
  {
    if s != [] {
      DeleteAbsent(s[..|s| - 1], x);
      assert s[..|s| - 1] + [s[|s| - 1]] == s;
    }
  }

  lemma {:induction false} ReplaceAbsent(s: string, a: char, b: char)
    requires a !in s
    ensures ReplaceAll(s, a, b) == s
  {
  }

  /** A comma-free string with an exponent need not be whole: "1e-3" reads as one thousandth. */
  lemma ExponentBreaksWholeness()
    ensures ParseNumber(Some("1e-3")) == Pass(Some(0.001))
  {
    NormalizeKeeps("1e-3");
    ReadsExponentText();
  }

  lemma ReadsExponentText()
    ensures ReadFloat("1e-3") == Some(0.001)
  {
    assert Strip("1e-3") == "1e-3" by {
      StripUntrimmed("1e-3");
    }
    ExponentTextParts();
    assert Shift10(1.0, -3) == 0.001 by {
      assert Shift10(1.0, -1) == 0.1 && Shift10(1.0, -2) == 0.01;
    }
  }

  /** "1e-3" splits at index 1 into the mantissa "1" and the exponent "-3". */
  lemma ExponentTextParts()
    ensures ReadUnsigned("1e-3", 0) == Some(Shift10(1.0, -3))
  {
    var s := "1e-3";
    assert FindFrom(s, 0, 4, 'e', 'E') == 1;
    assert FindFrom(s, 0, 1, '.', '.') == 1;
    assert ReadMantissa(s, 0, 1) == Some((1, 0));
    assert ReadExponent(s, 2) == Some(-3);
  }

  /** Normalising works character by character, so it distributes over concatenation. */
  lemma {:induction false} NormalizeAppend(a: string, b: string)
    ensures Normalize(a + b) == Normalize(a) + Normalize(b)
  {
    DeleteAppend(a, b, '.');
    ReplaceAppend(DeleteAll(a, '.'), DeleteAll(b, '.'), ',', '.');
  }

  lemma {:induction false} DeleteAppend(a: string, b: string, x: char)
    ensures DeleteAll(a + b, x) == DeleteAll(a, x) + DeleteAll(b, x)
  {
    if b != [] {
      var b' := b[..|b| - 1];
      assert (a + b)[..|a + b| - 1] == a + b';
      DeleteAppend(a, b', x);
    } else {
      assert a + b == a;
    }
  }

  lemma {:induction false} ReplaceAppend(a: string, b: string, x: char, y: char)
    ensures ReplaceAll(a + b, x, y) == ReplaceAll(a, x, y) + ReplaceAll(b, x, y)
  {
    var l, r := ReplaceAll(a + b, x, y), ReplaceAll(a, x, y) + ReplaceAll(b, x, y);
    forall i | 0 <= i < |l| ensures l[i] == r[i] {
      if i >= |a| {
        assert (a + b)[i] == b[i - |a|];
      }
    }
  }

  /** Text without points or commas is handed to float() unchanged. */
  lemma {:induction false} NormalizeKeeps(s: string)
    requires '.' !in s && ',' !in s
    ensures Normalize(s) == s
  {
    DeleteAbsent(s, '.');
    ReplaceAbsent(s, ',', '.');
  }

  /** The normaliser reads German notation: "1.234,56" is 1234.56. */
  lemma ReadsGermanNotation()
    ensures ParseNumber(Some("1.234,56")) == Pass(Some(1234.56))
  {
    NormalizesGerman();
    ReadsGermanText();
  }

  /**
   * German notation in general: digit groups `a`, `b` and `c` written
   * `a.b,c` read as the decimal fraction with the digits of `c` after the point.
   */
  lemma {:induction false} GermanNotation(a: string, b: string, c: string)
    requires a != [] && b != [] && c != [] && AllDigits(a) && AllDigits(b) && AllDigits(c)
    ensures AllDigits(a + b + c)
    ensures ParseNumber(Some(a + ['.'] + b + [','] + c)) == Pass(Some(Shift10(DigitsValue(a + b + c) as real, -|c|)))
  {
    DigitsFree(a);
    DigitsFree(b);
    DigitsFree(c);
    NormalizeGrouped(a, b, c);
    DigitsJoin(a, b);
    ReadPointedText(a + b, c);
  }

  lemma NormalizesGerman()
    ensures Normalize("1.234,56") == "1234.56"
  {
    NormalizeGrouped("1", "234", "56");
    assert "1" + ['.'] + "234" + [','] + "56" == "1.234,56";
    assert "1" + "234" + ['.'] + "56" == "1234.56";
  }

  /** A thousands point and a decimal comma between plain digit groups. */
  lemma {:induction false} NormalizeGrouped(a: string, b: string, c: string)
    requires '.' !in a && ',' !in a && '.' !in b && ',' !in b && '.' !in c && ',' !in c
    ensures Normalize(a + ['.'] + b + [','] + c) == a + b + ['.'] + c
  {
    var p1 := a + ['.'];
    var p2 := p1 + b;
    var p3 := p2 + [','];
    NormalizeAppend(a, ['.']);
    NormalizeKeeps(a);
    NormalizeOne('.');
    assert Normalize(p1) == a;
    NormalizeAppend(p1, b);
    NormalizeKeeps(b);
    assert Normalize(p2) == a + b;
    NormalizeAppend(p2, [',']);
    NormalizeOne(',');
    assert Normalize(p3) == a + b + ['.'];
    NormalizeAppend(p3, c);
    NormalizeKeeps(c);
  }

  lemma ReadsGermanText()
    ensures ReadFloat("1234.56") == Some(1234.56)
  {
    GermanTextDigits();
    ShiftTwoPlaces(123456.0);
  }

  lemma GermanTextDigits()
    ensures ReadFloat("1234.56") == Some(Shift10(123456.0, -2))
  {
    assert AllDigits("1234") && AllDigits("56");
    assert "1234" + ['.'] + "56" == "1234.56";
    assert "1234" + "56" == "123456";
    DigitsValueSteps();
    PointedTextValue("1234", "56", "1234.56", 123456);
  }

  /** `ReadPointedText` with the text and the digits' value named. */
  lemma {:induction false} PointedTextValue(w: string, f: string, s: string, n: nat)
    requires w != [] && f != [] && AllDigits(w) && AllDigits(f)
    requires s == w + ['.'] + f
    requires AllDigits(w + f) ==> DigitsValue(w + f) == n
    ensures ReadFloat(s) == Some(Shift10(n as real, -|f|))
  {
    ReadPointedText(w, f);
  }

  lemma {:induction false} ShiftTwoPlaces(x: real)
    ensures Shift10(x, -2) == x / 100.0
  {
    assert Shift10(x, -1) == x / 10.0;
  }

  lemma {:induction false} ReadPointedText(w: string, f: string)
    requires w != [] && f != [] && AllDigits(w) && AllDigits(f)
    ensures AllDigits(w + f)
    ensures ReadFloat(w + ['.'] + f) == Some(Shift10(DigitsValue(w + f) as real, -|f|))
  {
    var m := w + ['.'] + f;
    assert IsDigit(m[0]) && IsDigit(m[|m| - 1]);
    StripUntrimmed(m);
    ReadPointed(w, f);
  }

  lemma DigitsValueSteps()
    ensures DigitsValue("123456") == 123456
    ensures DigitsValue("2000") == 2000
  {
    assert "123456"[..5] == "12345" && "12345"[..4] == "1234" && "1234"[..3] == "123";
    assert "123"[..2] == "12" && "12"[..1] == "1" && "1"[..0] == "";
    assert "2000"[..3] == "200" && "200"[..2] == "20" && "20"[..1] == "2" && "2"[..0] == "";
  }

  /** A point is always a thousands separator: "20.00" is two thousand. */
  lemma PointIsThousandsSeparator()
    ensures ParseNumber(Some("20.00")) == Pass(Some(2000.0))
  {
    NormalizesPoint();
    ReadsThousandsText();
  }

  lemma NormalizesPoint()
    ensures Normalize("20.00") == "2000"
  {
    assert "20.00" == "20" + "." + "00";
    NormalizeAppend("20" + ".", "00");
    NormalizeAppend("20", ".");
    NormalizeKeeps("20");
    NormalizeKeeps("00");
    NormalizeOne('.');
    assert "20" + "" + "00" == "2000";
  }

  lemma ReadsThousandsText()
    ensures ReadFloat("2000") == Some(2000.0)
  {
    assert Strip("2000") == "2000" by {
      StripUntrimmed("2000");
    }
    ReadDigits("2000");
    DigitsValueSteps();
  }

  lemma {:induction false} DigitsFree(d: string)
    requires AllDigits(d)
    ensures '.' !in d && ',' !in d
  {
    forall i | 0 <= i < |d| ensures d[i] != '.' && d[i] != ',' {
      assert IsDigit(d[i]);
    }
  }

  /** A plain digit string is the whole number it spells. */
  lemma {:induction false} PlainDigits(d: string)
    requires d != [] && AllDigits(d)
    ensures ParseNumber(Some(d)) == Pass(Some(DigitsValue(d) as real))
  {
    DigitsFree(d);
    NormalizeKeeps(d);
    FloatOfDigits(d);
  }

  lemma {:induction false} FloatOfDigits(d: string)
    requires d != [] && AllDigits(d)
    ensures ReadFloat(d) == Some(DigitsValue(d) as real)
  {
    assert IsDigit(d[0]) && IsDigit(d[|d| - 1]);
    StripUntrimmed(d);
    ReadDigits(d);
  }

  /** Digit groups around a point run together: the point is dropped as a thousands separator. */
  lemma {:induction false} PointedDigits(a: string, b: string)
    requires a != [] && AllDigits(a) && AllDigits(b)
    ensures AllDigits(a + b)
    ensures ParseNumber(Some(a + ['.'] + b)) == Pass(Some(DigitsValue(a + b) as real))
  {
    DigitsFree(a);
    DigitsFree(b);
    NormalizeDropsPoint(a, b);
    DigitsJoin(a, b);
    FloatOfDigits(a + b);
  }

  /** Appending digits shifts the value of the digits before them. */
  lemma {:induction false} DigitsValueAppend(w: string, f: string)
    requires AllDigits(w) && AllDigits(f)
    ensures AllDigits(w + f)
    ensures DigitsValue(w + f) == DigitsValue(w) * Pow10(|f|) + DigitsValue(f)
    decreases |f|
  {
    DigitsJoin(w, f);
    if f == [] {
      assert w + f == w;
    } else {
      var f' := f[..|f| - 1];
      var l := f[|f| - 1] as int - '0' as int;
      assert AllDigits(f') by {
        forall i | 0 <= i < |f'| ensures IsDigit(f'[i]) {
          assert f'[i] == f[i];
        }
      }
      DigitsValueAppend(w, f');
      assert DigitsValue(w + f) == DigitsValue(w + f') * 10 + l by {
        assert (w + f)[..|w + f| - 1] == w + f';
        assert (w + f)[|w + f| - 1] == f[|f| - 1];
      }
      AppendDigit(DigitsValue(w), Pow10(|f'|), DigitsValue(f'), l);
    }
  }

  lemma {:induction false} AppendDigit(x: int, p: int, a: int, l: int)
    ensures (x * p + a) * 10 + l == x * (10 * p) + (a * 10 + l)
  {
  }

  lemma {:induction false} DigitsJoin(a: string, b: string)
    requires AllDigits(a) && AllDigits(b)
    ensures AllDigits(a + b)
  {
    forall i | 0 <= i < |a + b| ensures IsDigit((a + b)[i]) {
      if i >= |a| {
        assert (a + b)[i] == b[i - |a|];
      }
    }
  }

  lemma {:induction false} NormalizeDropsPoint(a: string, b: string)
    requires '.' !in a && ',' !in a && '.' !in b && ',' !in b
    ensures Normalize(a + ['.'] + b) == a + b
  {
    var p := a + ['.'];
    NormalizeAppend(a, ['.']);
    NormalizeKeeps(a);
    NormalizeOne('.');
    assert Normalize(p) == a;
    NormalizeAppend(p, b);
    NormalizeKeeps(b);
  }

  /** A string of whitespace only is not a number. */
  lemma {:induction false} BlankIsNotANumber(s: string)
    requires Blank(s)
    ensures ParseNumber(Some(s)).Fail?
  {
    forall i | 0 <= i < |s| ensures s[i] != '.' && s[i] != ',' {
      assert IsSpace(s[i]);
    }
    NormalizeKeeps(s);
    StripEmptyIffBlank(s);
    assert ReadMantissa([], 0, 0).None?;
  }

  /**
   * Python's `round(x, 2)` on an exact amount, as a count of hundredths: the
   * nearest hundredth, ties going to the even one.
   */
  function Round2(x: real): (r: int)
    ensures x * 100.0 - r as real <= 0.5 && r as real - x * 100.0 <= 0.5
    ensures (x * 100.0 - r as real == 0.5 || r as real - x * 100.0 == 0.5) ==> r % 2 == 0
  {
    var y := x * 100.0;
    var n := (y + 0.5).Floor;
    if n as real - y == 0.5 && n % 2 != 0 then n - 1 else n
  }

  /** The two clauses of Round2's contract leave no other choice of result. */
  lemma {:induction false} Round2Unique(x: real, n: int)
    requires x * 100.0 - n as real <= 0.5 && n as real - x * 100.0 <= 0.5
    requires (x * 100.0 - n as real == 0.5 || n as real - x * 100.0 == 0.5) ==> n % 2 == 0
    ensures n == Round2(x)
  {
    var r := Round2(x);
    assert n - 1 <= r <= n + 1;
  }

  /** An amount given to the cent is left as it is. */
  lemma {:induction false} Round2Exact(k: int)
    ensures Round2(k as real / 100.0) == k
  {
    Round2Unique(k as real / 100.0, k);
  }

  /** The amount a count of hundredths stands for, as it appears in a mismatch message. */
  function Cents(n: int): real
  {
    n as real / 100.0
  }
}
