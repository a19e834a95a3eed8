/** The `yyyy-MM-dd` pattern ^\d{4}-(0[1-9]|1[0-2])-(0[1-9]|[1-2][0-9]|3[0-1])$
    as a character-level check, and the date `LocalDate.parse` resolves it to.
    The request validator and the search condition use this same pattern. */
module DateFormat {
  import opened Wrappers
  import opened Errors
  import opened Time

  predicate IsDigit(c: char) {
    '0' <= c <= '9'
  }

  function DigitValue(c: char): int
    requires IsDigit(c)
  {
    c as int - '0' as int
  }

  function DigitChar(n: int): (c: char)
    requires 0 <= n <= 9
    ensures IsDigit(c) && DigitValue(c) == n
  {
    ('0' as int + n) as char
  }

  /** 01 to 12 */
  predicate IsMonthText(a: char, b: char) {
    || (a == '0' && '1' <= b <= '9')
    || (a == '1' && '0' <= b <= '2')
  }

  /** 01 to 31, whatever the month */
  predicate IsDayText(a: char, b: char) {
    || (a == '0' && '1' <= b <= '9')
    || ('1' <= a <= '2' && IsDigit(b))
    || (a == '3' && '0' <= b <= '1')
  }

  /** The whole string must match: exactly ten characters. */
  predicate MatchesDatePattern(s: string) {
    && |s| == 10
    && IsDigit(s[0]) && IsDigit(s[1]) && IsDigit(s[2]) && IsDigit(s[3])
    && s[4] == '-'
    && IsMonthText(s[5], s[6])
    && s[7] == '-'
    && IsDayText(s[8], s[9])
  }

  /** The dates the pattern can spell: a four-digit year, months 1 to 12,
      days 1 to 31 with no check against the month's length. */
  predicate InPatternRange(d: Date) {
    0 <= d.year <= 9999 && 1 <= d.month <= 12 && 1 <= d.day <= 31
  }

  /** `DateFormatValidator.isValid`: null is invalid. */
  predicate IsValid(value: Option<string>) {
    value.Some? && MatchesDatePattern(value.value)
  }

  /** Two digits for 0..99, most significant first. */
  function TwoDigits(n: int): (r: string)
    requires 0 <= n <= 99
    ensures |r| == 2 && IsDigit(r[0]) && IsDigit(r[1])
    ensures DigitValue(r[0]) * 10 + DigitValue(r[1]) == n
  {
    [DigitChar(n / 10), DigitChar(n % 10)]
  }

  function TextValue(a: char, b: char): int
    requires IsDigit(a) && IsDigit(b)
  {
    DigitValue(a) * 10 + DigitValue(b)
  }

  /** Two digits, read back. */
  lemma TwoDigitsOfValue(a: char, b: char)
    requires IsDigit(a) && IsDigit(b)
    ensures 0 <= TextValue(a, b) <= 99 && TwoDigits(TextValue(a, b)) == [a, b]
  {
    var n := DigitValue(a) * 10 + DigitValue(b);
    assert n / 10 == DigitValue(a) && n % 10 == DigitValue(b);
  }

  lemma SplitHundred(hi: int, lo: int)
    requires 0 <= hi <= 99 && 0 <= lo <= 99
    ensures (hi * 100 + lo) / 100 == hi && (hi * 100 + lo) % 100 == lo
  {
  }

  /** Four digits for 0..9999. */
  function YearText(y: int): (r: string)
    requires 0 <= y <= 9999
    ensures |r| == 4 && IsDigit(r[0]) && IsDigit(r[1]) && IsDigit(r[2]) && IsDigit(r[3])
  {
    TwoDigits(y / 100) + TwoDigits(y % 100)
  }

  lemma YearTextOfParts(hi: int, lo: int)
    requires 0 <= hi <= 99 && 0 <= lo <= 99
    ensures 0 <= hi * 100 + lo <= 9999
    ensures YearText(hi * 100 + lo) == TwoDigits(hi) + TwoDigits(lo)
  {
    SplitHundred(hi, lo);
  }

  /** Writes a date in `yyyy-MM-dd` form. The code never formats a date; this
      is the inverse of parsing, used by the round-trip lemmas. */
  function FormatDate(d: Date): (s: string)
    requires InPatternRange(d)
    ensures MatchesDatePattern(s)
  {
    YearText(d.year) + "-" + TwoDigits(d.month) + "-" + TwoDigits(d.day)
  }

  function ParsedDate(s: string): Date
    requires MatchesDatePattern(s)
  {
    Date(TextValue(s[0], s[1]) * 100 + TextValue(s[2], s[3]), TextValue(s[5], s[6]), TextValue(s[8], s[9]))
  }

  lemma ParsedInRange(s: string)
    requires MatchesDatePattern(s)
    ensures 0 <= TextValue(s[0], s[1]) <= 99 && 0 <= TextValue(s[2], s[3]) <= 99
    ensures 1 <= TextValue(s[5], s[6]) <= 12 && 1 <= TextValue(s[8], s[9]) <= 31
  {
  }

  /** The fields a matching text spells, before any calendar check, write
      back as exactly that text. */
  lemma FormatParsed(s: string)
    requires MatchesDatePattern(s)
    ensures InPatternRange(ParsedDate(s)) && FormatDate(ParsedDate(s)) == s
  {
    ParsedInRange(s);
    YearOfText(s);
    var d := ParsedDate(s);
    TwoDigitsOfValue(s[5], s[6]);
    TwoDigitsOfValue(s[8], s[9]);
    JoinFields(s, YearText(d.year), TwoDigits(d.month), TwoDigits(d.day));
  }

  /** The first four characters of a matching string are the year's text. */
  lemma YearOfText(s: string)
    requires MatchesDatePattern(s)
    ensures 0 <= TextValue(s[0], s[1]) * 100 + TextValue(s[2], s[3]) <= 9999
    ensures YearText(TextValue(s[0], s[1]) * 100 + TextValue(s[2], s[3])) == s[0..4]
  {
    ParsedInRange(s);
    YearTextOfParts(TextValue(s[0], s[1]), TextValue(s[2], s[3]));
    TwoDigitsOfValue(s[0], s[1]);
    TwoDigitsOfValue(s[2], s[3]);
    assert s[0..4] == [s[0], s[1]] + [s[2], s[3]];
  }

  lemma JoinFields(s: string, year: string, month: string, day: string)
    requires |s| == 10 && s[4] == '-' && s[7] == '-'
    requires year == s[0..4] && month == [s[5], s[6]] && day == [s[8], s[9]]
    ensures year + "-" + month + "-" + day == s
  {
    assert s == s[0..4] + s[4..5] + s[5..7] + s[7..8] + s[8..10];
  }

  /** The year field reads as 0 exactly when it is written "0000". */
  lemma ZeroYearText(s: string)
    requires MatchesDatePattern(s)
    ensures ParsedDate(s).year == 0 <==> s[0..4] == "0000"
  {
    ParsedInRange(s);
    if s[0..4] == "0000" {
      assert s[0] == s[0..4][0] && s[1] == s[0..4][1] && s[2] == s[0..4][2] && s[3] == s[0..4][3];
    }
    if ParsedDate(s).year == 0 {
      assert TextValue(s[0], s[1]) == 0 && TextValue(s[2], s[3]) == 0;
      assert s[0..4] == [s[0], s[1], s[2], s[3]];
    }
  }

  /** java.time's proleptic Gregorian leap-year rule. */
  predicate IsLeapYear(year: int) {
    year % 4 == 0 && (year % 100 != 0 || year % 400 == 0)
  }

  function MonthLength(year: int, month: int): (r: int)
    ensures 28 <= r <= 31
    ensures month == 2 ==> (r == 29 <==> IsLeapYear(year))
  {
    if month == 2 then (if IsLeapYear(year) then 29 else 28)
    else if month == 4 || month == 6 || month == 9 || month == 11 then 30
    else 31
  }

  /** A day the ISO calendar has, in a year of era 1 to 9999. */
  predicate IsCalendarDate(d: Date) {
    1 <= d.year <= 9999 && 1 <= d.month <= 12 && 1 <= d.day <= MonthLength(d.year, d.month)
  }

  /** `LocalDate.parse(s, ofPattern("yyyy-MM-dd"))` on text the pattern
      already accepts, under the formatter's default SMART resolver: year of
      era 0 is out of range and refused; a day past the end of its month
      becomes the month's last day. */
  function ParseDate(s: string): (r: Result<Date, Error>)
    requires MatchesDatePattern(s)
    ensures r.Failure? <==> s[0..4] == "0000"
    ensures r.Failure? ==> r.error == DateTimeParse
    ensures r.Success? ==> IsCalendarDate(r.value)
    ensures r.Success? ==> r.value.year == ParsedDate(s).year && r.value.month == ParsedDate(s).month
    ensures r.Success? ==>
      && r.value.day <= ParsedDate(s).day
      && (r.value.day < ParsedDate(s).day ==> r.value.day == MonthLength(r.value.year, r.value.month))
  {
    ParsedInRange(s);
    ZeroYearText(s);
    var raw := ParsedDate(s);
    if raw.year == 0 then Failure(DateTimeParse)
    else
      var last := MonthLength(raw.year, raw.month);
      Success(Date(raw.year, raw.month, if raw.day <= last then raw.day else last))
  }

  /** Formatting a calendar date then parsing it gives the date back, so the
      formatted dates are exactly the texts that parse without adjustment. */
  lemma {:induction false} ParseFormatRoundTrip(d: Date)
    requires IsCalendarDate(d)
    ensures ParseDate(FormatDate(d)) == Success(d)
  {
    var s := FormatDate(d);
    var hi, lo := d.year / 100, d.year % 100;
    assert s[0..2] == TwoDigits(hi) && s[2..4] == TwoDigits(lo);
    assert s[5..7] == TwoDigits(d.month) && s[8..10] == TwoDigits(d.day);
    assert TextValue(s[0], s[1]) == hi && TextValue(s[2], s[3]) == lo;
    assert ParsedDate(s) == d;
  }

  /** A matching text whose day exists in its month parses to a date that
      is written back as exactly that text. */
  lemma CalendarTextReadsBack(s: string)
    requires MatchesDatePattern(s) && s[0..4] != "0000"
    requires ParsedDate(s).day <= MonthLength(ParsedDate(s).year, ParsedDate(s).month)
    ensures ParseDate(s).Success? && FormatDate(ParseDate(s).value) == s
  {
    FormatParsed(s);
  }

  /** Days past the month's end move back to its last day; year 0000 fails. */
  lemma ResolveExamples()
    ensures ParseDate("2023-02-31") == Success(Date(2023, 2, 28))
    ensures ParseDate("2024-02-31") == Success(Date(2024, 2, 29))
    ensures ParseDate("1900-02-29") == Success(Date(1900, 2, 28))
    ensures ParseDate("2000-02-29") == Success(Date(2000, 2, 29))
    ensures ParseDate("2023-04-31") == Success(Date(2023, 4, 30))
    ensures ParseDate("2023-01-31") == Success(Date(2023, 1, 31))
    ensures ParseDate("0000-01-01") == Failure(DateTimeParse)
  {
  }

  /** The day is not checked against the month. */
  lemma PatternExamples()
    ensures MatchesDatePattern("2023-02-31")
    ensures MatchesDatePattern("2023-10-20")
    ensures !MatchesDatePattern("2023-00-10")
    ensures !MatchesDatePattern("2023-13-10")
    ensures !MatchesDatePattern("2023-10-00")
    ensures !MatchesDatePattern("2023-10-32")
    ensures !MatchesDatePattern("2023-1-10")
    ensures !IsValid(None)
  {
  }
}
