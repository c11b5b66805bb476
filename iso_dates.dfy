/** Date and timestamp checks for progress notes: the calendar-date form
    `full-date` of section 5.6 of RFC 3339 with the day limits of its
    section 5.7, and the trailing `Z` designator normalised to `+00:00`
    before a timestamp is parsed. */
module IsoDates {

  predicate IsDigit(c: char) {
    '0' <= c <= '9'
  }

  predicate AllDigits(s: string) {
    forall i :: 0 <= i < |s| ==> IsDigit(s[i])
  }

  /** The value of a string of decimal digits, most significant first. */
  function DecimalValue(s: string): nat
    requires AllDigits(s)
    decreases |s|
  {
    if s == [] then 0 else DecimalValue(s[..|s| - 1]) * 10 + (s[|s| - 1] as int - '0' as int)
  }

  function Pow10(w: nat): nat {
    if w == 0 then 1 else 10 * Pow10(w - 1)
  }

  /** The `w` low decimal digits of `n`, zero-padded. */
  function Pad(n: nat, w: nat): string {
    if w == 0 then "" else Pad(n / 10, w - 1) + [('0' as int + n % 10) as char]
  }

  /** `NNNN-NN-NN` with ASCII digits: the regular expression `^\d{4}-\d{2}-\d{2}$`. */
  predicate MatchesDatePattern(s: string): (b: bool)
    ensures b <==> |s| == 10 && s[4] == '-' && s[7] == '-' && forall i | 0 <= i < 10 && i != 4 && i != 7 :: IsDigit(s[i])
  {
    if |s| == 10 then
      assert forall i | 0 <= i < 4 :: s[0..4][i] == s[i];
      assert forall i | 5 <= i < 7 :: s[5..7][i - 5] == s[i];
      assert forall i | 8 <= i < 10 :: s[8..10][i - 8] == s[i];
      AllDigits(s[0..4]) && s[4] == '-' && AllDigits(s[5..7]) && s[7] == '-' && AllDigits(s[8..10])
    else false
  }

  function Year(s: string): nat requires MatchesDatePattern(s) { DecimalValue(s[0..4]) }
  function Month(s: string): nat requires MatchesDatePattern(s) { DecimalValue(s[5..7]) }
  function Day(s: string): nat requires MatchesDatePattern(s) { DecimalValue(s[8..10]) }

  /** The Gregorian leap-year rule. */
  predicate IsLeapYear(y: int) {
    y % 4 == 0 && (y % 100 != 0 || y % 400 == 0)
  }

  function DaysInMonth(y: int, m: int): int
    requires 1 <= m <= 12
  {
    if m == 2 then (if IsLeapYear(y) then 29 else 28)
    else if m in {4, 6, 9, 11} then 30
    else 31
  }

  /** A day of the proleptic Gregorian calendar that Python's `date` can
      hold: years 1 to 9999. */
  predicate IsCalendarDate(y: int, m: int, d: int) {
    1 <= y <= 9999 && 1 <= m <= 12 && 1 <= d <= DaysInMonth(y, m)
  }

  /** `_is_iso_date`: `date.fromisoformat` accepts the text of a calendar
      date, and only its canonical zero-padded spelling. */
  predicate IsIsoDate(s: string) {
    MatchesDatePattern(s) && IsCalendarDate(Year(s), Month(s), Day(s))
  }

  /** What `_is_iso_date` accepts is the canonical text of a day with a
      year of 1 to 9999, a month of 1 to 12 and a day of 1 to 31. */
  lemma IsoDateIsCanonical(s: string)
    requires IsIsoDate(s)
    ensures MatchesDatePattern(s) && s == DateText(Year(s), Month(s), Day(s))
    ensures 1 <= Year(s) <= 9999 && 1 <= Month(s) <= 12 && 1 <= Day(s) <= 31
  {
    PatternIsDateText(s);
  }

  /** The `YYYY-MM-DD` text of a date. */
  function DateText(y: nat, m: nat, d: nat): string {
    Pad(y, 4) + "-" + Pad(m, 2) + "-" + Pad(d, 2)
  }

  lemma {:induction false} ValueOfPad(n: nat, w: nat)
    requires n < Pow10(w)
    ensures |Pad(n, w)| == w && AllDigits(Pad(n, w)) && DecimalValue(Pad(n, w)) == n
  {
    if w > 0 {
      ValueOfPad(n / 10, w - 1);
      var p := Pad(n, w);
      assert p[..|p| - 1] == Pad(n / 10, w - 1);
    }
  }

  lemma {:induction false} PadOfValue(s: string)
    requires AllDigits(s)
    ensures DecimalValue(s) < Pow10(|s|) && Pad(DecimalValue(s), |s|) == s
    decreases |s|
  {
    if s != [] {
      var p := s[..|s| - 1];
      PadOfValue(p);
      var v := DecimalValue(s);
      var d := s[|s| - 1] as int - '0' as int;
      assert v == DecimalValue(p) * 10 + d;
      assert v / 10 == DecimalValue(p) && v % 10 == d;
      assert s == p + [s[|s| - 1]];
    }
  }

  /** The text of a date with a four-digit year and two-digit month and day
      has the date pattern and reads back as that date. */
  lemma DateTextReadsBack(y: nat, m: nat, d: nat)
    requires y <= 9999 && m <= 99 && d <= 99
    ensures MatchesDatePattern(DateText(y, m, d))
    ensures Year(DateText(y, m, d)) == y && Month(DateText(y, m, d)) == m && Day(DateText(y, m, d)) == d
  {
    ValueOfPad(y, 4);
    ValueOfPad(m, 2);
    ValueOfPad(d, 2);
    var s := DateText(y, m, d);
    assert s[0..4] == Pad(y, 4);
    assert s[5..7] == Pad(m, 2);
    assert s[8..10] == Pad(d, 2);
  }

  /** Every string with the date pattern is the text of the date it reads as. */
  lemma PatternIsDateText(s: string)
    requires MatchesDatePattern(s)
    ensures s == DateText(Year(s), Month(s), Day(s))
  {
    PadOfValue(s[0..4]);
    PadOfValue(s[5..7]);
    PadOfValue(s[8..10]);
    assert s == s[0..4] + "-" + s[5..7] + "-" + s[8..10];
  }

  /** `_is_iso_date` accepts exactly the texts of calendar dates. */
  lemma IsoDateIffCalendarDate(y: nat, m: nat, d: nat)
    requires y <= 9999 && m <= 99 && d <= 99
    ensures IsIsoDate(DateText(y, m, d)) <==> IsCalendarDate(y, m, d)
  {
    DateTextReadsBack(y, m, d);
  }

  /** The regular-expression check accepts everything the calendar check
      does, and also well-shaped strings that are no date at all. */
  lemma PatternWeakerThanCalendar(s: string)
    ensures IsIsoDate(s) ==> MatchesDatePattern(s)
    ensures MatchesDatePattern("2026-13-45") && !IsIsoDate("2026-13-45")
    ensures MatchesDatePattern("2023-02-29") && !IsIsoDate("2023-02-29")
  {
    MonthThirteenRefused("2026-13-45");
    NoLeapDayRefused("2023-02-29");
  }

  /** A thirteenth month has the shape of a date but is none. */
  lemma MonthThirteenRefused(s: string)
    requires s == "2026-13-45"
    ensures MatchesDatePattern(s) && !IsIsoDate(s)
  {
    assert MatchesDatePattern(s);
    DigitFields(s);
  }

  /** 2023 is no leap year, so it has no 29 February. */
  lemma NoLeapDayRefused(s: string)
    requires s == "2023-02-29"
    ensures MatchesDatePattern(s) && !IsIsoDate(s)
  {
    assert MatchesDatePattern(s);
    DigitFields(s);
  }

  /** The date of the test scenarios is accepted by both checks. */
  lemma ScenarioDateAccepted(s: string)
    requires s == "2026-02-01"
    ensures IsIsoDate(s) && MatchesDatePattern(s)
  {
    DigitFields(s);
  }

  /** A leap day is accepted in a leap year. */
  lemma LeapDayAccepted(s: string)
    requires s == "2024-02-29"
    ensures IsIsoDate(s)
  {
    DigitFields(s);
  }

  function DigitValue(c: char): int { c as int - '0' as int }

  lemma TwoDigits(s: string)
    requires |s| == 2 && AllDigits(s)
    ensures DecimalValue(s) == DigitValue(s[0]) * 10 + DigitValue(s[1])
  {
    var p := s[..1];
    assert p[..0] == [] && p[0] == s[0];
    assert DecimalValue(p) == DigitValue(s[0]);
  }

  lemma FourDigits(s: string)
    requires |s| == 4 && AllDigits(s)
    ensures DecimalValue(s) == DigitValue(s[0]) * 1000 + DigitValue(s[1]) * 100 + DigitValue(s[2]) * 10 + DigitValue(s[3])
  {
    assert s[..3][..2] == s[..2];
    TwoDigits(s[..2]);
  }

  /** The fields of a patterned date, digit by digit. */
  lemma DigitFields(s: string)
    requires MatchesDatePattern(s)
    ensures Year(s) == DigitValue(s[0]) * 1000 + DigitValue(s[1]) * 100 + DigitValue(s[2]) * 10 + DigitValue(s[3])
    ensures Month(s) == DigitValue(s[5]) * 10 + DigitValue(s[6])
    ensures Day(s) == DigitValue(s[8]) * 10 + DigitValue(s[9])
  {
    FourDigits(s[0..4]);
    TwoDigits(s[5..7]);
    TwoDigits(s[8..10]);
  }

  /** The month-first form of the validation test is refused by both checks. */
  lemma MonthFirstRejected(s: string)
    requires s == "02-01-2026"
    ensures !MatchesDatePattern(s) && !IsIsoDate(s)
  {
    assert s[4] != '-';
  }

  /** `value.replace("Z", "+00:00")`: every `Z` becomes the zero offset. */
  function NormalizeZ(s: string): (r: string)
    ensures forall i :: 0 <= i < |r| ==> r[i] != 'Z'
    decreases |s|
  {
    if s == [] then ""
    else (if s[0] == 'Z' then "+00:00" else [s[0]]) + NormalizeZ(s[1..])
  }

  lemma {:induction false} NormalizeZAppend(a: string, b: string)
    ensures NormalizeZ(a + b) == NormalizeZ(a) + NormalizeZ(b)
    decreases |a|
  {
    if a == [] {
      assert a + b == b;
    } else {
      assert (a + b)[1..] == a[1..] + b;
      NormalizeZAppend(a[1..], b);
    }
  }

  /** A string without `Z` is passed to the parser unchanged. */
  lemma {:induction false} NormalizeZWithoutZ(s: string)
    requires forall i :: 0 <= i < |s| ==> s[i] != 'Z'
    ensures NormalizeZ(s) == s
    decreases |s|
  {
    if s != [] {
      NormalizeZWithoutZ(s[1..]);
    }
  }

  /** Normalising twice is normalising once. */
  lemma NormalizeZIdempotent(s: string)
    ensures NormalizeZ(NormalizeZ(s)) == NormalizeZ(s)
  {
    NormalizeZWithoutZ(NormalizeZ(s));
  }

  /** A trailing `Z` and a trailing `+00:00` reach the parser as the same text. */
  lemma TrailingZIsZeroOffset(x: string)
    ensures NormalizeZ(x + "Z") == NormalizeZ(x + "+00:00")
  {
    NormalizeZAppend(x, "Z");
    NormalizeZAppend(x, "+00:00");
    NormalizeZWithoutZ("+00:00");
  }

  /** A timestamp whose only `Z` is the trailing one reaches the parser
      with `+00:00` in its place. */
  lemma TrailingZNormalised(x: string)
    requires forall i :: 0 <= i < |x| ==> x[i] != 'Z'
    ensures NormalizeZ(x + "Z") == x + "+00:00"
  {
    NormalizeZAppend(x, "Z");
    NormalizeZWithoutZ(x);
  }

  /** `_is_iso_datetime`: the timestamp parser (Python's
      `datetime.fromisoformat`, a parameter here) accepts the normalised text. */
  predicate IsIsoDateTime(value: string, fromIsoFormat: string -> bool): (b: bool)
    ensures (forall i :: 0 <= i < |value| ==> value[i] != 'Z') ==> (b <==> fromIsoFormat(value))
  {
    if forall i :: 0 <= i < |value| ==> value[i] != 'Z' then
      NormalizeZWithoutZ(value);
      fromIsoFormat(NormalizeZ(value))
    else fromIsoFormat(NormalizeZ(value))
  }

  /** So a timestamp with `Z` is accepted iff its `+00:00` spelling is. */
  lemma ZuluAcceptedAsZeroOffset(x: string, fromIsoFormat: string -> bool)
    ensures IsIsoDateTime(x + "Z", fromIsoFormat) <==> IsIsoDateTime(x + "+00:00", fromIsoFormat)
  {
    TrailingZIsZeroOffset(x);
  }
}
