/** The calendar dates held by the parsed `birthdates` column (pandas
    Timestamps; their date part is a proleptic Gregorian date, here of any
    year 1..9999, wider than the span a nanosecond Timestamp can hold) and
    the integer encoding of line 36: the date formatted as four-digit year,
    two-digit month and two-digit day, the ISO 8601 basic calendar-date form
    (section 4.1.2.2 of ISO 8601:2004), read back as an integer. */
module Dates {
  import opened Decimal

  /** A (year, month, day) triple; not every triple is a real date. */
  datatype Date = Date(year: int, month: int, day: int)

  const MinYear := 1
  const MaxYear := 9999

  predicate IsLeapYear(y: int) {
    y % 4 == 0 && (y % 100 != 0 || y % 400 == 0)
  }

  function DaysInMonth(y: int, m: int): (n: int)
    requires 1 <= m <= 12
    ensures 28 <= n <= 31
    ensures n == 29 <==> m == 2 && IsLeapYear(y)
  {
    if m == 2 then (if IsLeapYear(y) then 29 else 28)
    else if m == 4 || m == 6 || m == 9 || m == 11 then 30
    else 31
  }

  predicate IsValid(d: Date) {
    MinYear <= d.year <= MaxYear && 1 <= d.month <= 12 && 1 <= d.day <= DaysInMonth(d.year, d.month)
  }

  /** The dates a parsed `birthdates` column can hold. */
  type CalendarDate = d: Date | IsValid(d) witness Date(2000, 1, 1)

  /** Lexicographic order on (year, month, day): calendar order on real dates. */
  predicate Before(a: Date, b: Date) {
    a.year < b.year || (a.year == b.year && (a.month < b.month || (a.month == b.month && a.day < b.day)))
  }

  predicate NotAfter(a: Date, b: Date) {
    Before(a, b) || a == b
  }

  /** The date formatted with the year, month and day directives (line 36): four-digit
      year, two-digit month, two-digit day. */
  function Strftime(d: CalendarDate): (s: string)
    ensures |s| == 8 && AllDigits(s)
  {
    ParseConcat(PadDigits(d.year, 4), PadDigits(d.month, 2));
    PadDigits(d.year, 4) + PadDigits(d.month, 2) + PadDigits(d.day, 2)
  }

  /** The formatted date read as an integer: one entry of `birthdates_num` (line 36). */
  function Encode(d: CalendarDate): int {
    ParseDecimal(Strftime(d))
  }

  /** The encoding is the number Y*10000 + M*100 + D. */
  lemma EncodeValue(d: CalendarDate)
    ensures Encode(d) == d.year * 10000 + d.month * 100 + d.day
  {
    assert Pow10(2) == 100 && Pow10(4) == 10000;
    ParsePadDigits(d.year, 4);
    ParsePadDigits(d.month, 2);
    ParsePadDigits(d.day, 2);
    ParseThreeFields(PadDigits(d.year, 4), PadDigits(d.month, 2), PadDigits(d.day, 2));
  }

  lemma ParseThreeFields(y: string, m: string, dd: string)
    requires AllDigits(y) && AllDigits(m) && AllDigits(dd) && |m| == 2 && |dd| == 2
    ensures AllDigits(y + m + dd)
    ensures ParseDecimal(y + m + dd) == ParseDecimal(y) * 10000 + ParseDecimal(m) * 100 + ParseDecimal(dd)
  {
    assert Pow10(2) == 100;
    ParseConcat(y, m);
    ParseConcat(y + m, dd);
  }

  /** Every encoding has eight digits at most and lies in a fixed range. */
  lemma EncodeRange(d: CalendarDate)
    ensures 10101 <= Encode(d) <= 99991231
  {
    EncodeValue(d);
  }

  /** The encoding is strictly monotonic in calendar order, in both directions. */
  lemma EncodeMonotonic(a: CalendarDate, b: CalendarDate)
    ensures Before(a, b) <==> Encode(a) < Encode(b)
  {
    EncodeValue(a);
    EncodeValue(b);
  }

  /** Distinct dates have distinct encodings. */
  lemma EncodeInjective(a: CalendarDate, b: CalendarDate)
    ensures Encode(a) == Encode(b) <==> a == b
  {
    EncodeMonotonic(a, b);
    EncodeMonotonic(b, a);
  }

  /** Reading a date back from its encoding. */
  function Decode(n: int): Date {
    Date(n / 10000, (n / 100) % 100, n % 100)
  }

  lemma DecodeEncode(d: CalendarDate)
    ensures Decode(Encode(d)) == d
  {
    EncodeValue(d);
    DecodeFields(d.year, d.month, d.day);
  }

  lemma DecodeFields(y: int, m: int, dd: int)
    requires 0 <= m < 100 && 0 <= dd < 100
    ensures Decode(y * 10000 + m * 100 + dd) == Date(y, m, dd)
  {
    var n := y * 10000 + m * 100 + dd;
    assert n / 10000 == y;
    assert n / 100 == y * 100 + m;
  }
}
