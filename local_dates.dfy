/** `java.time.LocalDate` and its `toString`, which the backfill request puts
    in its path. For years 0 to 9999 it is the ISO 8601 extended calendar date
    (section 4.1.2.2 of ISO 8601:2004); other years get a sign and more
    digits. A parser for the four-digit-year form shows that the rendering
    loses nothing on that range. */
module LocalDates {
  import opened Common

  /** The year range of `LocalDate.MIN` and `LocalDate.MAX`. */
  const MinYear: int := -999999999
  const MaxYear: int := 999999999

  datatype LocalDate = LocalDate(year: int, month: int, day: int)

  /** The proleptic Gregorian leap-year rule of `IsoChronology.isLeapYear`. */
  predicate IsLeapYear(y: int) {
    y % 4 == 0 && (y % 100 != 0 || y % 400 == 0)
  }

  function DaysInMonth(y: int, m: int): int
    requires 1 <= m <= 12
  {
    if m == 2 then (if IsLeapYear(y) then 29 else 28)
    else if m == 4 || m == 6 || m == 9 || m == 11 then 30
    else 31
  }

  /** Every `LocalDate` object satisfies this: its constructors reject the rest. */
  predicate Valid(d: LocalDate) {
    MinYear <= d.year <= MaxYear && 1 <= d.month <= 12 && 1 <= d.day <= DaysInMonth(d.year, d.month)
  }

  predicate IsDigit(c: char) {
    '0' <= c <= '9'
  }

  predicate AllDigits(s: string) {
    forall i | 0 <= i < |s| :: IsDigit(s[i])
  }

  function DigitChar(n: nat): (c: char)
    requires n < 10
    ensures IsDigit(c)
  {
    ('0' as int + n) as char
  }

  function DigitValue(c: char): nat
    requires IsDigit(c)
  {
    c as int - '0' as int
  }

  function Pow10(k: nat): nat {
    if k == 0 then 1 else 10 * Pow10(k - 1)
  }

  /** `Integer.toString` of a non-negative number: no leading zeros. */
  function Decimal(n: nat): (s: string)
    ensures |s| >= 1 && AllDigits(s)
  {
    if n < 10 then [DigitChar(n)] else Decimal(n / 10) + [DigitChar(n % 10)]
  }

  /** The last `width` decimal digits of `n`, padded with leading zeros. */
  function ZeroPadded(n: nat, width: nat): (s: string)
    ensures |s| == width && AllDigits(s)
  {
    if width == 0 then [] else ZeroPadded(n / 10, width - 1) + [DigitChar(n % 10)]
  }

  /** The number a string of decimal digits denotes. */
  function ParseDigits(s: string): nat
    requires AllDigits(s)
  {
    if s == [] then 0 else ParseDigits(s[..|s| - 1]) * 10 + DigitValue(s[|s| - 1])
  }

  /** The year part of `LocalDate.toString`: a year below 1000 in magnitude is
      padded to four digits (the code adds or subtracts 10000 and deletes the
      extra digit), a year above 9999 gets a `+`, a negative year a `-`. */
  function YearText(y: int): string {
    if -1000 < y < 1000 then
      (if y < 0 then "-" + ZeroPadded(-y, 4) else ZeroPadded(y, 4))
    else
      (if y > 9999 then "+" else "") + (if y < 0 then "-" + Decimal(-y) else Decimal(y))
  }

  /** The month or day part: `-0` before a value below 10, `-` otherwise. */
  function FieldText(v: nat): string {
    (if v < 10 then "-0" else "-") + Decimal(v)
  }

  /** `LocalDate.toString`. The text is always one URI path segment: it holds
      only digits and signs, never a `/`. */
  function IsoText(d: LocalDate): (s: string)
    requires Valid(d)
    ensures forall i | 0 <= i < |s| :: IsDigit(s[i]) || s[i] == '-' || s[i] == '+'
    ensures 0 <= d.year <= 9999 ==> |s| == 10
  {
    if 0 <= d.year <= 9999 then
      FourDigitYearText(d);
      YearText(d.year) + FieldText(d.month) + FieldText(d.day)
    else
      YearText(d.year) + FieldText(d.month) + FieldText(d.day)
  }

  /** The inverse of `IsoText` on years 0 to 9999: `YYYY-MM-DD`, and a valid date. */
  function ParseIso(s: string): (r: Option<LocalDate>)
    ensures r.Some? ==> Valid(r.value) && 0 <= r.value.year <= 9999
  {
    if |s| == 10 && AllDigits(s[..4]) && s[4] == '-' && AllDigits(s[5..7]) && s[7] == '-' && AllDigits(s[8..])
    then
      var d := LocalDate(ParseDigits(s[..4]), ParseDigits(s[5..7]), ParseDigits(s[8..]));
      ParseDigitsBound(s[..4]);
      if Valid(d) then Some(d) else None
    else None
  }

  lemma {:induction false} ParseDigitsBound(s: string)
    requires AllDigits(s)
    ensures ParseDigits(s) < Pow10(|s|)
  {
    if s != [] {
      ParseDigitsBound(s[..|s| - 1]);
    }
  }

  lemma {:induction false} ParseZeroPadded(n: nat, width: nat)
    requires n < Pow10(width)
    ensures ParseDigits(ZeroPadded(n, width)) == n
  {
    if width > 0 {
      var s := ZeroPadded(n, width);
      assert s[..|s| - 1] == ZeroPadded(n / 10, width - 1);
      ParseZeroPadded(n / 10, width - 1);
    }
  }

  /** Between `10^(w-1)` and `10^w` a number has exactly `w` digits, so its
      plain rendering and its `w`-digit padded rendering agree. */
  lemma {:induction false} DecimalIsZeroPadded(n: nat, w: nat)
    requires 1 <= w && Pow10(w - 1) <= n < Pow10(w)
    ensures Decimal(n) == ZeroPadded(n, w)
  {
    if w > 1 {
      DecimalIsZeroPadded(n / 10, w - 1);
    }
  }

  lemma FieldTextIsTwoDigits(v: nat)
    requires 1 <= v <= 99
    ensures FieldText(v) == "-" + ZeroPadded(v, 2)
  {
    if v < 10 {
      DecimalIsZeroPadded(v, 1);
    } else {
      DecimalIsZeroPadded(v, 2);
    }
  }

  lemma YearTextIsFourDigits(y: int)
    requires 0 <= y <= 9999
    ensures YearText(y) == ZeroPadded(y, 4)
  {
    if y >= 1000 {
      assert Pow10(3) == 1000 && Pow10(4) == 10000;
      DecimalIsZeroPadded(y, 4);
    }
  }

  /** For years 0 to 9999 the rendering is exactly `YYYY-MM-DD`. */
  lemma FourDigitYearText(d: LocalDate)
    requires Valid(d) && 0 <= d.year <= 9999
    ensures YearText(d.year) + FieldText(d.month) + FieldText(d.day)
         == ZeroPadded(d.year, 4) + "-" + ZeroPadded(d.month, 2) + "-" + ZeroPadded(d.day, 2)
  {
    YearTextIsFourDigits(d.year);
    FieldTextIsTwoDigits(d.month);
    FieldTextIsTwoDigits(d.day);
  }

  /** The date in a backfill path can be read back: rendering a date with a
      four-digit year and parsing the text gives the same date. */
  lemma IsoRoundTrip(d: LocalDate)
    requires Valid(d) && 0 <= d.year <= 9999
    ensures ParseIso(IsoText(d)) == Some(d)
  {
    FourDigitYearText(d);
    var y, m, dd := ZeroPadded(d.year, 4), ZeroPadded(d.month, 2), ZeroPadded(d.day, 2);
    var s := IsoText(d);
    assert s == y + "-" + m + "-" + dd;
    assert s[..4] == y;
    assert s[5..7] == m;
    assert s[8..] == dd;
    ParseZeroPadded(d.year, 4);
    ParseZeroPadded(d.month, 2);
    ParseZeroPadded(d.day, 2);
  }

  /** Two distinct dates with four-digit years never share a path segment. */
  lemma IsoTextInjective(d1: LocalDate, d2: LocalDate)
    requires Valid(d1) && 0 <= d1.year <= 9999
    requires Valid(d2) && 0 <= d2.year <= 9999
    requires IsoText(d1) == IsoText(d2)
    ensures d1 == d2
  {
    IsoRoundTrip(d1);
    IsoRoundTrip(d2);
  }
}
