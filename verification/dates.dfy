/** `java.time.LocalDate` as far as the service uses it: proleptic Gregorian
    calendar dates, their chronological order, and `LocalDate.parse`, which
    reads the complete calendar date in the extended format of ISO 8601
    (section 4.1.2.2 of ISO 8601:2004, `YYYY-MM-DD`) and rejects day-of-month
    values that the month and year do not have. */
module Dates {
  import opened Wrappers

  datatype Date = Date(year: int, month: int, day: int)

  /** Gregorian leap years: divisible by 4, except centuries not divisible by 400. */
  predicate IsLeapYear(year: int) {
    year % 4 == 0 && (year % 100 != 0 || year % 400 == 0)
  }

  function DaysInMonth(year: int, month: int): (n: int)
    requires 1 <= month <= 12
    ensures 28 <= n <= 31
    ensures n == 29 <==> month == 2 && IsLeapYear(year)
  {
    if month == 2 then (if IsLeapYear(year) then 29 else 28)
    else if month == 4 || month == 6 || month == 9 || month == 11 then 30
    else 31
  }

  /** A date that exists in the calendar. */
  predicate IsValid(d: Date) {
    1 <= d.month <= 12 && 1 <= d.day <= DaysInMonth(d.year, d.month)
  }

  /** `a.isBefore(b)`: chronological order. */
  predicate IsBefore(a: Date, b: Date) {
    a.year < b.year || (a.year == b.year && (a.month < b.month || (a.month == b.month && a.day < b.day)))
  }

  /** `a.isAfter(b)` */
  predicate IsAfter(a: Date, b: Date) {
    IsBefore(b, a)
  }

  predicate IsDigit(c: char) {
    '0' <= c <= '9'
  }

  predicate AllDigits(s: string) {
    forall i :: 0 <= i < |s| ==> IsDigit(s[i])
  }

  function DigitValue(c: char): (n: nat)
    requires IsDigit(c)
    ensures n <= 9
  {
    c as int - '0' as int
  }

  function DigitChar(n: nat): (c: char)
    requires n <= 9
    ensures IsDigit(c) && DigitValue(c) == n
  {
    ('0' as int + n) as char
  }

  function Pow10(n: nat): (p: nat)
    ensures p >= 1
  {
    if n == 0 then 1 else 10 * Pow10(n - 1)
  }

  /** The value of a string of decimal digits, most significant first. */
  function Number(s: string): (n: nat)
    requires AllDigits(s)
    ensures n < Pow10(|s|)
  {
    if s == [] then 0
    else
      var prefix := s[..|s| - 1];
      assert AllDigits(prefix);
      10 * Number(prefix) + DigitValue(s[|s| - 1])
  }

  /** `n` written with exactly `width` decimal digits, zero-padded on the left. */
  function Digits(n: nat, width: nat): (s: string)
    requires n < Pow10(width)
    ensures |s| == width && AllDigits(s)
  {
    if width == 0 then []
    else Digits(n / 10, width - 1) + [DigitChar(n % 10)]
  }

  /** Reading back a zero-padded numeral gives the number. */
  lemma {:induction false} NumberOfDigits(n: nat, width: nat)
    requires n < Pow10(width)
    ensures Number(Digits(n, width)) == n
  {
    if width > 0 {
      var s := Digits(n, width);
      assert s[..|s| - 1] == Digits(n / 10, width - 1);
      NumberOfDigits(n / 10, width - 1);
    }
  }

  /** The last decimal digit and the rest of a number. */
  lemma LastDigit(q: nat, d: nat)
    requires d <= 9
    ensures (10 * q + d) / 10 == q && (10 * q + d) % 10 == d
  {
  }

  /** Writing out the value of a numeral with its own width gives it back,
      leading zeros included. */
  lemma {:induction false} DigitsOfNumber(s: string)
    requires AllDigits(s)
    ensures Digits(Number(s), |s|) == s
  {
    if s != [] {
      var prefix := s[..|s| - 1];
      assert AllDigits(prefix);
      DigitsOfNumber(prefix);
      var c := s[|s| - 1];
      var n := Number(s);
      assert n == 10 * Number(prefix) + DigitValue(c);
      LastDigit(Number(prefix), DigitValue(c));
      assert Digits(n, |s|) == Digits(Number(prefix), |prefix|) + [DigitChar(DigitValue(c))];
      assert DigitChar(DigitValue(c)) == c;
      assert s == prefix + [c];
    }
  }

  /** The shape `YYYY-MM-DD`: ten characters, hyphens at offsets 4 and 7,
      decimal digits everywhere else. */
  predicate IsWellShaped(s: string) {
    && |s| == 10
    && s[4] == '-' && s[7] == '-'
    && AllDigits(s[..4]) && AllDigits(s[5..7]) && AllDigits(s[8..])
  }

  /** `LocalDate.parse(s)`: `None` where Java throws `DateTimeParseException`. */
  function Parse(s: string): (r: Option<Date>)
    ensures r.Some? ==> IsWellShaped(s) && IsFormattable(r.value)
  {
    if !IsWellShaped(s) then None
    else
      var d := Date(Number(s[..4]), Number(s[5..7]), Number(s[8..]));
      if IsValid(d) then Some(d) else None
  }

  /** The dates a four-digit `YYYY-MM-DD` string can denote. */
  predicate IsFormattable(d: Date) {
    IsValid(d) && 0 <= d.year <= 9999
  }

  /** `LocalDate.toString()` for four-digit years. */
  function Format(d: Date): (s: string)
    requires IsFormattable(d)
    ensures IsWellShaped(s)
  {
    var s := Digits(d.year, 4) + "-" + Digits(d.month, 2) + "-" + Digits(d.day, 2);
    assert s[..4] == Digits(d.year, 4);
    assert s[5..7] == Digits(d.month, 2);
    assert s[8..] == Digits(d.day, 2);
    s
  }

  /** Every representable date survives formatting and parsing. */
  lemma ParseOfFormat(d: Date)
    requires IsFormattable(d)
    ensures Parse(Format(d)) == Some(d)
  {
    var s := Format(d);
    assert s[..4] == Digits(d.year, 4);
    assert s[5..7] == Digits(d.month, 2);
    assert s[8..] == Digits(d.day, 2);
    NumberOfDigits(d.year, 4);
    NumberOfDigits(d.month, 2);
    NumberOfDigits(d.day, 2);
  }

  /** Parsing accepts nothing but the canonical spelling of a date: the
      accepted string is exactly the formatted image of the parsed date. */
  lemma FormatOfParse(s: string)
    requires Parse(s).Some?
    ensures Format(Parse(s).value) == s
  {
    var d := Parse(s).value;
    assert d == Date(Number(s[..4]), Number(s[5..7]), Number(s[8..]));
    DigitsOfNumber(s[..4]);
    DigitsOfNumber(s[5..7]);
    DigitsOfNumber(s[8..]);
    assert Format(d) == s[..4] + "-" + s[5..7] + "-" + s[8..];
    WellShapedSplit(s);
  }

  /** A well-shaped string is its three numerals joined by hyphens. */
  lemma WellShapedSplit(s: string)
    requires IsWellShaped(s)
    ensures s == s[..4] + "-" + s[5..7] + "-" + s[8..]
  {
    assert s == s[..4] + [s[4]] + s[5..7] + [s[7]] + s[8..];
  }
}
