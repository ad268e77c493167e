/**
 * Credit-card invoice dates (src/utils/creditCardUtils.ts): the invoice a
 * purchase falls into, the invoice's due date, and the day-of-month check.
 * A purchase date is taken as the calendar date it denotes (a `Date`, or a
 * `YYYY-MM-DD` text read at local midnight).
 */
module CreditCardUtils {
  import opened Wrappers
  import opened Strings
  import opened Calendar
  import opened Numbers

  /**
   * `calculateInvoiceReferenceMonth(purchase, closingDay)`: a purchase made
   * after the closing day goes to the next month's invoice; the result is
   * the first day of the invoice month.
   */
  function CalculateInvoiceReferenceMonth(purchase: Date, closingDay: int): (r: string)
    requires ValidDate(purchase)
    ensures r == MonthStartText(ReferenceMonth(purchase, closingDay))
  {
    var (month, year) :=
      if purchase.day > closingDay then
        if purchase.month - 1 + 1 > 11 then (0, purchase.year + 1) else (purchase.month, purchase.year)
      else (purchase.month - 1, purchase.year);
    MonthStartText(YearMonth(year, month + 1))
  }

  /**
   * Reference definition: the purchase's own month, or the month after it
   * when the purchase day is past the closing day.
   */
  function ReferenceMonth(purchase: Date, closingDay: int): (ym: YearMonth)
    requires ValidDate(purchase)
    ensures ValidMonth(ym)
    ensures MonthIndex(ym) == MonthIndex(MonthOf(purchase)) + (if purchase.day > closingDay then 1 else 0)
  {
    if purchase.day > closingDay then NextMonth(MonthOf(purchase)) else MonthOf(purchase)
  }

  /** Up to the closing day the invoice is the purchase's month. */
  lemma SameMonthUpToClosing(purchase: Date, closingDay: int)
    requires ValidDate(purchase) && purchase.day <= closingDay
    ensures ReferenceMonth(purchase, closingDay) == YearMonth(purchase.year, purchase.month)
  {
  }

  /** After the closing day it is the next month; December goes to January of the next year. */
  lemma NextMonthAfterClosing(purchase: Date, closingDay: int)
    requires ValidDate(purchase) && purchase.day > closingDay
    ensures purchase.month < 12 ==> ReferenceMonth(purchase, closingDay) == YearMonth(purchase.year, purchase.month + 1)
    ensures purchase.month == 12 ==> ReferenceMonth(purchase, closingDay) == YearMonth(purchase.year + 1, 1)
  {
  }

  /** The result always spells `YYYY-MM-01` for a four-digit year, with the month zero-padded. */
  lemma ReferenceMonthShape(purchase: Date, closingDay: int)
    requires ValidDate(purchase) && 1000 <= purchase.year <= 9998
    ensures var r := CalculateInvoiceReferenceMonth(purchase, closingDay);
      IsoDateShape(r) && IsoDateValue(r) == Date(ReferenceMonth(purchase, closingDay).year, ReferenceMonth(purchase, closingDay).month, 1)
  {
    var ym := ReferenceMonth(purchase, closingDay);
    DateTextRoundTrip(Date(ym.year, ym.month, 1));
    assert MonthStartText(ym) == DateText(Date(ym.year, ym.month, 1));
  }

  /** The examples of the function's documentation. */
  lemma DocumentedExamples()
    ensures CalculateInvoiceReferenceMonth(Date(2025, 10, 5), 7) == "2025-10-01"
    ensures CalculateInvoiceReferenceMonth(Date(2025, 10, 10), 7) == "2025-11-01"
    ensures CalculateInvoiceReferenceMonth(Date(2025, 10, 31), 15) == "2025-11-01"
  {
    Year2025();
    assert Pad2(10) == "10" && Pad2(11) == "11";
  }

  lemma Year2025()
    ensures IntToString(2025) == "2025"
  {
    assert NatToString(2) == "2";
    assert NatToString(20) == NatToString(2) + "0";
    assert NatToString(202) == NatToString(20) + "2";
    assert NatToString(2025) == NatToString(202) + "5";
  }

  /**
   * `Number(part)` on a part of the reference text: a decimal literal, with
   * surrounding whitespace and a sign allowed; a blank part is 0, and a
   * missing part (`undefined`) or any other text is NaN (None).
   */
  function PartNumber(parts: seq<string>, i: nat): (r: Option<real>)
    ensures i >= |parts| ==> r.None?
    ensures i < |parts| && IsBlank(parts[i]) ==> r == Some(0.0)
    ensures i < |parts| && parts[i] != [] && AllDigits(parts[i]) ==> r == Some(DigitsValue(parts[i]) as real)
  {
    if i < |parts| then
      NumberOfDigits(parts[i]);
      NumberOf(parts[i])
    else None
  }

  /** A number with no fractional part. */
  predicate Whole(x: real)
  {
    x == x.Floor as real
  }

  /**
   * `calculateDueDate(referenceMonth, dueDay)`: the day `dueDay` of the month
   * after the reference month. None stands for a year or month that is NaN
   * or has a fractional part.
   */
  function CalculateDueDate(referenceMonth: string, dueDay: int): (r: Option<string>)
  {
    var parts := Split(referenceMonth, '-');
    match (PartNumber(parts, 0), PartNumber(parts, 1))
    case (Some(year), Some(month)) =>
      if Whole(year) && Whole(month) then Some(DueDateText(year.Floor, month.Floor, dueDay)) else None
    case _ => None
  }

  /** The text built from the read year and month: month + 1, 13 rolling over to January. */
  function DueDateText(year: int, month: int, dueDay: int): string
  {
    var (dueMonth, dueYear) := if month + 1 > 12 then (1, year + 1) else (month + 1, year);
    IntToString(dueYear) + "-" + Pad2(dueMonth) + "-" + Pad2(dueDay)
  }

  /** A non-negative year is written with digits only, hence without `-`. */
  lemma YearHasNoDash(y: int)
    requires y >= 0
    ensures '-' !in IntToString(y) && IntToString(y) != [] && AllDigits(IntToString(y))
  {
  }

  /** A text of three dash-separated parts whose first two are digit runs is read as those numbers. */
  lemma DueDateOfParts(s: string, dueDay: int, a: string, b: string, c: string)
    requires Split(s, '-') == [a, b, c]
    requires a != [] && AllDigits(a) && b != [] && AllDigits(b)
    ensures CalculateDueDate(s, dueDay) == Some(DueDateText(DigitsValue(a), DigitsValue(b), dueDay))
  {
    var parts := Split(s, '-');
    assert PartNumber(parts, 0) == Some(DigitsValue(a) as real);
    assert PartNumber(parts, 1) == Some(DigitsValue(b) as real);
  }

  /**
   * A blank month part is `Number("")`, that is 0: the due date is in
   * January of the year read (`2025--01` is due in January 2025).
   */
  lemma DueDateBlankMonth(s: string, dueDay: int, a: string, b: string, c: string)
    requires Split(s, '-') == [a, b, c]
    requires a != [] && AllDigits(a) && IsBlank(b)
    ensures CalculateDueDate(s, dueDay) == Some(DueDateText(DigitsValue(a), 0, dueDay))
  {
    var parts := Split(s, '-');
    assert PartNumber(parts, 0) == Some(DigitsValue(a) as real);
    assert PartNumber(parts, 1) == Some(0.0);
  }

  /**
   * The due date of an invoice month is in the month after it, December
   * rolling over to January of the next year, on `dueDay` itself: the day is
   * not clamped to the month's length.
   */
  lemma DueDateOfReference(ym: YearMonth, dueDay: int)
    requires ValidMonth(ym) && ym.year >= 0
    ensures CalculateDueDate(MonthStartText(ym), dueDay)
         == Some(IntToString(NextMonth(ym).year) + "-" + Pad2(NextMonth(ym).month) + "-" + Pad2(dueDay))
  {
    var y, m := IntToString(ym.year), Pad2(ym.month);
    MonthStartParts(ym);
    YearHasNoDash(ym.year);
    assert DigitsValue(y) == ym.year;
    DueDateOfParts(MonthStartText(ym), dueDay, y, m, "01");
    DueDateTextNext(ym, dueDay);
  }

  /** The first of a month splits at the dashes into the year, the padded month and "01". */
  lemma MonthStartParts(ym: YearMonth)
    requires ValidMonth(ym) && ym.year >= 0
    ensures Split(MonthStartText(ym), '-') == [IntToString(ym.year), Pad2(ym.month), "01"]
    ensures AllDigits(Pad2(ym.month)) && DigitsValue(Pad2(ym.month)) == ym.month && Pad2(ym.month) != []
  {
    var y, m := IntToString(ym.year), Pad2(ym.month);
    YearHasNoDash(ym.year);
    assert |m| == 2 && AllDigits(m);
    assert m[0] != '-' && m[1] != '-';
    assert MonthStartText(ym) == y + "-" + m + "-" + "01";
    SplitThree(y, m, "01", '-');
  }

  /** The text built from a valid month is the text of the next month. */
  lemma DueDateTextNext(ym: YearMonth, dueDay: int)
    requires ValidMonth(ym)
    ensures DueDateText(ym.year, ym.month, dueDay) == IntToString(NextMonth(ym).year) + "-" + Pad2(NextMonth(ym).month) + "-" + Pad2(dueDay)
  {
    if ym.month == 12 {
      assert NextMonth(ym) == YearMonth(ym.year + 1, 1);
    } else {
      assert NextMonth(ym) == YearMonth(ym.year, ym.month + 1);
    }
  }

  /** The whole chain for one purchase: invoice month, then due date one month later. */
  lemma InvoiceDueDate(purchase: Date, closingDay: int, dueDay: int)
    requires ValidDate(purchase) && purchase.year >= 0
    ensures var due := NextMonth(ReferenceMonth(purchase, closingDay));
      CalculateDueDate(CalculateInvoiceReferenceMonth(purchase, closingDay), dueDay)
        == Some(IntToString(due.year) + "-" + Pad2(due.month) + "-" + Pad2(dueDay))
      && MonthIndex(due) == MonthIndex(MonthOf(purchase)) + (if purchase.day > closingDay then 2 else 1)
  {
    DueDateOfReference(ReferenceMonth(purchase, closingDay), dueDay);
  }

  /** February has no 31st, yet the due day is kept: the due date spells a day that does not exist. */
  lemma DueDayNotClamped()
    ensures CalculateDueDate(MonthStartText(YearMonth(2025, 1)), 31) == Some(DateText(Date(2025, 2, 31)))
    ensures !ValidDate(Date(2025, 2, 31))
  {
    DueDateOfReference(YearMonth(2025, 1), 31);
  }

  /** `isValidDay(day)`: a closing or due day from 1 to 31. */
  predicate IsValidDay(day: int)
  {
    day >= 1 && day <= 31
  }

  /** The valid days are exactly the days a month can have: those of January. */
  lemma ValidDayIsDayOfSomeMonth(day: int)
    ensures IsValidDay(day) <==> ValidDate(Date(2025, 1, day))
    ensures IsValidDay(day) <==> exists m :: 1 <= m <= 12 && ValidDate(Date(2024, m, day))
  {
    if IsValidDay(day) {
      assert ValidDate(Date(2024, 1, day));
    }
  }
}
