/**
 * Calendar dates and their `DD-MM-YYYY` text form: `datetime.strptime(text, "%d-%m-%Y")`
 * when a date is typed (main.py:124) or loaded (main.py:45), and `strftime("%d-%m-%Y")`
 * when the ledger is saved (main.py:658).
 */
module Dates {
  import opened Wrappers
  import opened Text

  /** A calendar day without time of day, as a `datetime` at midnight. */
  datatype Date = Date(day: int, month: int, year: int)

  predicate IsLeapYear(y: int) {
    y % 4 == 0 && (y % 100 != 0 || y % 400 == 0)
  }

  function DaysInMonth(month: int, year: int): (n: int)
    requires 1 <= month <= 12
    ensures 28 <= n <= 31
    ensures n == 29 <==> month == 2 && IsLeapYear(year)
  {
    if month == 2 then (if IsLeapYear(year) then 29 else 28)
    else if month == 4 || month == 6 || month == 9 || month == 11 then 30
    else 31
  }

  /** The dates a Python `datetime` can hold: years 1 to 9999, Gregorian month lengths. */
  predicate ValidDate(d: Date) {
    && 1 <= d.year <= 9999
    && 1 <= d.month <= 12
    && 1 <= d.day <= DaysInMonth(d.month, d.year)
  }

  /** Field values the `DD-MM-YYYY` layout can spell, whether or not they name a real day. */
  predicate Spellable(d: Date) {
    0 <= d.year <= 9999 && 1 <= d.month <= 12 && 1 <= d.day <= 31
  }

  predicate IsDigit(ch: char) {
    '0' <= ch <= '9'
  }

  function DigitValue(ch: char): (n: int)
    requires IsDigit(ch)
    ensures 0 <= n <= 9
  {
    ch as int - '0' as int
  }

  function DigitChar(n: int): (ch: char)
    requires 0 <= n <= 9
    ensures IsDigit(ch) && DigitValue(ch) == n
  {
    ('0' as int + n) as char
  }

  predicate AllDigits(t: string) {
    forall k :: 0 <= k < |t| ==> IsDigit(t[k])
  }

  function Pad2(n: int): (s: string)
    requires 0 <= n <= 99
    ensures |s| == 2 && AllDigits(s)
  {
    [DigitChar(n / 10), DigitChar(n % 10)]
  }

  function Pad4(n: int): (s: string)
    requires 0 <= n <= 9999
    ensures |s| == 4 && AllDigits(s)
  {
    Pad2(n / 100) + Pad2(n % 100)
  }

  function Value2(t: string): int
    requires |t| == 2 && AllDigits(t)
  {
    10 * DigitValue(t[0]) + DigitValue(t[1])
  }

  function Value4(t: string): int
    requires |t| == 4 && AllDigits(t)
  {
    100 * Value2(t[..2]) + Value2(t[2..])
  }

  /** `strftime("%d-%m-%Y")`: day and month zero-padded to two digits, the year to four. */
  function Format(d: Date): (s: string)
    requires Spellable(d)
    ensures |s| == 10 && s[2] == '-' && s[5] == '-'
  {
    Pad2(d.day) + "-" + Pad2(d.month) + "-" + Pad4(d.year)
  }

  /** `%d`: two digits from 01 to 31, or one digit from 1 to 9, or a space and one digit from 1 to 9. */
  function DayField(t: string): Option<int> {
    if |t| == 1 && IsDigit(t[0]) && t[0] != '0' then Some(DigitValue(t[0]))
    else if |t| == 2 && t[0] == ' ' && IsDigit(t[1]) && t[1] != '0' then Some(DigitValue(t[1]))
    else if |t| == 2 && AllDigits(t) && 1 <= Value2(t) <= 31 then Some(Value2(t))
    else None
  }

  /** `%m`: two digits from 01 to 12, or one digit from 1 to 9. */
  function MonthField(t: string): Option<int> {
    if |t| == 1 && IsDigit(t[0]) && t[0] != '0' then Some(DigitValue(t[0]))
    else if |t| == 2 && AllDigits(t) && 1 <= Value2(t) <= 12 then Some(Value2(t))
    else None
  }

  /** `%Y`: exactly four digits. */
  function YearField(t: string): Option<int> {
    if |t| == 4 && AllDigits(t) then Some(Value4(t)) else None
  }

  /** Length of a one- or two-character field at the front of `t`, ended by the next `-`. */
  function FieldLength(t: string): nat {
    if |t| >= 2 && t[1] == '-' then 1 else 2
  }

  /**
   * `datetime.strptime(text, "%d-%m-%Y")`: the whole text must be day, `-`, month, `-`, year,
   * and the fields must name a day that exists; anything else raises ValueError (here None).
   * No field can contain `-`, so the position of each separator fixes the field lengths.
   */
  function Parse(text: string): (r: Option<Date>)
    ensures r.Some? ==> ValidDate(r.value)
  {
    var dayLength := FieldLength(text);
    if |text| <= dayLength || text[dayLength] != '-' then None
    else
      var rest := text[dayLength + 1..];
      var monthLength := FieldLength(rest);
      if |rest| <= monthLength || rest[monthLength] != '-' then None
      else
        match (DayField(text[..dayLength]), MonthField(rest[..monthLength]), YearField(rest[monthLength + 1..]))
        case (Some(day), Some(month), Some(year)) =>
          if ValidDate(Date(day, month, year)) then Some(Date(day, month, year)) else None
        case _ => None
  }

  lemma Pad2Value(n: int)
    requires 0 <= n <= 99
    ensures Value2(Pad2(n)) == n
  {
  }

  lemma Pad4Value(n: int)
    requires 0 <= n <= 9999
    ensures Value4(Pad4(n)) == n
  {
    var s := Pad4(n);
    assert s[..2] == Pad2(n / 100) && s[2..] == Pad2(n % 100);
    Pad2Value(n / 100);
    Pad2Value(n % 100);
  }

  /**
   * Reading back what was written: the text of any spellable date parses to that date
   * exactly when the date exists, so a valid date survives save and load unchanged,
   * and "31-02-2024" or "29-02-2023" is refused.
   */
  lemma ParseFormat(d: Date)
    requires Spellable(d)
    ensures Parse(Format(d)) == if ValidDate(d) then Some(d) else None
  {
    var s := Format(d);
    assert FieldLength(s) == 2;
    var rest := s[3..];
    assert rest == Pad2(d.month) + "-" + Pad4(d.year);
    assert FieldLength(rest) == 2;
    assert s[..2] == Pad2(d.day);
    assert rest[..2] == Pad2(d.month) && rest[3..] == Pad4(d.year);
    Pad2Value(d.day);
    Pad2Value(d.month);
    Pad4Value(d.year);
    assert DayField(s[..2]) == Some(d.day);
    assert MonthField(rest[..2]) == Some(d.month);
    assert YearField(rest[3..]) == Some(d.year);
  }

  lemma Value2Pad(t: string)
    requires |t| == 2 && AllDigits(t)
    ensures Pad2(Value2(t)) == t
  {
  }

  lemma Value4Pad(t: string)
    requires |t| == 4 && AllDigits(t)
    ensures Pad4(Value4(t)) == t
  {
    var n := Value4(t);
    var high, low := Value2(t[..2]), Value2(t[2..]);
    assert 0 <= low <= 99 && 0 <= high <= 99;
    assert n / 100 == high && n % 100 == low;
    Value2Pad(t[..2]);
    Value2Pad(t[2..]);
    assert t == t[..2] + t[2..];
  }

  /**
   * The other direction: a ten-character text that parses and does not use the
   * space-padded day is exactly the text the date is written as.
   */
  lemma FormatParse(text: string)
    requires Parse(text).Some? && |text| == 10 && text[0] != ' '
    ensures Format(Parse(text).value) == text
  {
    var d := Parse(text).value;
    var dayLength := FieldLength(text);
    var rest := text[dayLength + 1..];
    var monthLength := FieldLength(rest);
    assert |rest[monthLength + 1..]| == 4;
    assert dayLength == 2 && monthLength == 2;
    assert text == text[..2] + "-" + rest[..2] + "-" + rest[3..];
    Value2Pad(text[..2]);
    Value2Pad(rest[..2]);
    Value4Pad(rest[3..]);
  }

  /** Text in the right layout is still refused when it names no real day: 31-02-2024. */
  lemma NoThirtyFirstOfFebruary(text: string)
    requires text == "31-02-2024"
    ensures Parse(text).None?
  {
    var rest := text[3..];
    assert FieldLength(text) == 2 && text[2] == '-' && FieldLength(rest) == 2 && rest[2] == '-';
    assert DayField(text[..2]) == Some(31);
    assert MonthField(rest[..2]) == Some(2);
    assert YearField(rest[3..]).Some?;
    assert !ValidDate(Date(31, 2, YearField(rest[3..]).value));
  }

  /** `calendar.month_name[1:]` in the English locale. */
  const MONTHS_FULL: seq<string> :=
    ["January", "February", "March", "April", "May", "June",
     "July", "August", "September", "October", "November", "December"]

  function MonthName(m: int): string
    requires 1 <= m <= 12
  {
    MONTHS_FULL[m - 1]
  }

  /** Month names are distinct, so comparing `month_name()` with a chosen name selects one month number. */
  lemma MonthNamesDistinct(a: int, b: int)
    requires 1 <= a <= 12 && 1 <= b <= 12
    ensures MonthName(a) == MonthName(b) <==> a == b
  {
  }

  function FindMonth(n: string, m: int): (r: Option<int>)
    requires 1 <= m <= 13
    ensures r.Some? ==> m <= r.value <= 12 && MonthName(r.value) == n
    ensures r.None? ==> forall k :: m <= k <= 12 ==> MonthName(k) != n
    decreases 13 - m
  {
    if m == 13 then None
    else if MonthName(m) == n then Some(m)
    else FindMonth(n, m + 1)
  }

  /** The month check of main.py:284-285: normalise the typed name and look it up among the twelve. */
  function MonthNumber(text: string): (r: Option<int>)
    ensures r.Some? ==> 1 <= r.value <= 12 && Normalize(text) == MonthName(r.value)
    ensures r.None? ==> forall m :: 1 <= m <= 12 ==> Normalize(text) != MonthName(m)
  {
    FindMonth(Normalize(text), 1)
  }
}
