/**
 * The proleptic Gregorian calendar as JavaScript's `Date` uses it: months
 * 1..12, leap years, month arithmetic, and the `YYYY-MM` / `YYYY-MM-DD`
 * texts the application stores dates as.
 */
module Calendar {
  import opened Strings

  datatype Date = Date(year: int, month: int, day: int)

  datatype YearMonth = YearMonth(year: int, month: int)

  predicate IsLeapYear(y: int)
  {
    (y % 4 == 0 && y % 100 != 0) || y % 400 == 0
  }

  function DaysInMonth(y: int, m: int): (n: int)
    requires 1 <= m <= 12
    ensures 28 <= n <= 31
  {
    if m == 2 then (if IsLeapYear(y) then 29 else 28)
    else if m == 4 || m == 6 || m == 9 || m == 11 then 30
    else 31
  }

  /** A day that exists in the calendar. */
  predicate ValidDate(d: Date)
  {
    1 <= d.month <= 12 && 1 <= d.day <= DaysInMonth(d.year, d.month)
  }

  predicate ValidMonth(ym: YearMonth)
  {
    1 <= ym.month <= 12
  }

  function MonthOf(d: Date): YearMonth
  {
    YearMonth(d.year, d.month)
  }

  /** Months counted from January of year 0: 12 per year. */
  function MonthIndex(ym: YearMonth): int
  {
    12 * ym.year + ym.month - 1
  }

  function FromIndex(k: int): (ym: YearMonth)
    ensures ValidMonth(ym) && MonthIndex(ym) == k
  {
    YearMonth(k / 12, k % 12 + 1)
  }

  /** A valid month is determined by its index. */
  lemma IndexInjective(a: YearMonth, b: YearMonth)
    requires ValidMonth(a) && ValidMonth(b) && MonthIndex(a) == MonthIndex(b)
    ensures a == b
  {
    var k := MonthIndex(a);
    assert k == 12 * a.year + (a.month - 1) && 0 <= a.month - 1 < 12;
    assert a.year == k / 12 && a.month - 1 == k % 12;
    assert b.year == k / 12 && b.month - 1 == k % 12;
  }

  /** `k` months after `ym` (before it when `k` is negative). */
  function AddMonths(ym: YearMonth, k: int): (r: YearMonth)
    ensures ValidMonth(r) && MonthIndex(r) == MonthIndex(ym) + k
  {
    FromIndex(MonthIndex(ym) + k)
  }

  /** The month after `ym`, December rolling over to January of the next year. */
  function NextMonth(ym: YearMonth): (r: YearMonth)
    requires ValidMonth(ym)
    ensures ValidMonth(r) && MonthIndex(r) == MonthIndex(ym) + 1
  {
    if ym.month == 12 then YearMonth(ym.year + 1, 1) else YearMonth(ym.year, ym.month + 1)
  }

  /** The whole months from `a` to `b`: `(yb - ya) * 12 + (mb - ma)`. */
  function MonthsBetween(a: YearMonth, b: YearMonth): int
  {
    MonthIndex(b) - MonthIndex(a)
  }

  /** The day before `d`, in the month or year before it on the first of a month. */
  function PrevDay(d: Date): (r: Date)
    requires ValidDate(d)
    ensures ValidDate(r) && r != d
  {
    if d.day > 1 then Date(d.year, d.month, d.day - 1)
    else if d.month > 1 then Date(d.year, d.month - 1, DaysInMonth(d.year, d.month - 1))
    else Date(d.year - 1, 12, 31)
  }

  /** `YYYY-MM`. */
  function MonthText(ym: YearMonth): string
  {
    IntToString(ym.year) + "-" + Pad2(ym.month)
  }

  /** `YYYY-MM-DD`. */
  function DateText(d: Date): string
  {
    IntToString(d.year) + "-" + Pad2(d.month) + "-" + Pad2(d.day)
  }

  /** `YYYY-MM-01`, the first day of the month. */
  function MonthStartText(ym: YearMonth): string
  {
    MonthText(ym) + "-01"
  }

  /** A year from 1000 to 9999 is written with four digits. */
  lemma FourDigitYear(y: int)
    requires 1000 <= y <= 9999
    ensures |IntToString(y)| == 4
  {
    var a := y / 10;
    var b := a / 10;
    var c := b / 10;
    assert 100 <= a < 1000 && 10 <= b < 100 && 1 <= c < 10;
    assert |NatToString(c)| == 1;
    assert NatToString(b) == NatToString(c) + [DigitChar(b % 10)];
    assert NatToString(a) == NatToString(b) + [DigitChar(a % 10)];
    assert NatToString(y) == NatToString(a) + [DigitChar(y % 10)];
  }

  /** The shape `dddd-dd-dd` of a stored date. */
  predicate IsoDateShape(s: string)
  {
    |s| == 10 && s[4] == '-' && s[7] == '-' &&
    AllDigits(s[..4]) && AllDigits(s[5..7]) && AllDigits(s[8..])
  }

  /** The date a `dddd-dd-dd` text spells. */
  function IsoDateValue(s: string): Date
    requires IsoDateShape(s)
  {
    Date(DigitsValue(s[..4]), DigitsValue(s[5..7]), DigitsValue(s[8..]))
  }

  /** A date with a four-digit year is written as `dddd-dd-dd` and read back as itself. */
  lemma DateTextRoundTrip(d: Date)
    requires 1000 <= d.year <= 9999 && ValidDate(d)
    ensures IsoDateShape(DateText(d)) && IsoDateValue(DateText(d)) == d
  {
    FourDigitYear(d.year);
    var y, m, dd := IntToString(d.year), Pad2(d.month), Pad2(d.day);
    var s := DateText(d);
    assert s == y + "-" + m + "-" + dd;
    assert s[..4] == y && s[5..7] == m && s[8..] == dd;
  }
}
