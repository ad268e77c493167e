/**
 * Pasted-text import of lancamentos (src/components/RawPasteModal.tsx): the
 * date, type and amount readers, the detection of the column layout, and the
 * splitting of the pasted text into rows of six fields.
 *
 * The clock and the time zone are parameters: `today` is the UTC date text
 * `new Date().toISOString().split('T')[0]` and `utcOffsetMinutes` the local
 * offset from UTC (negative west of Greenwich, -180 in Brasilia).
 */
module RawPasteModal {
  import opened Wrappers
  import opened Strings
  import opened Numbers
  import opened Calendar

  // ---------------------------------------------------------------- parseDate

  /** The three parts matched by `^(\d{1,2})\/(\d{1,2})\/(\d{2,4})$`. */
  predicate BrDateParts(parts: seq<string>)
  {
    |parts| == 3 &&
    1 <= |parts[0]| <= 2 && AllDigits(parts[0]) &&
    1 <= |parts[1]| <= 2 && AllDigits(parts[1]) &&
    2 <= |parts[2]| <= 4 && AllDigits(parts[2])
  }

  /** A two-digit year is 19YY above 50 and 20YY otherwise; longer years are kept. */
  function FullYear(year: string): (r: string)
    requires AllDigits(year)
    ensures AllDigits(r)
    ensures |r| == if |year| == 2 then 4 else |year|
  {
    if |year| == 2 then (if DigitsValue(year) > 50 then "19" + year else "20" + year) else year
  }

  /** The year a two-digit year stands for. */
  lemma FullYearValue(year: string)
    requires AllDigits(year) && |year| == 2
    ensures DigitsValue(FullYear(year)) == (if DigitsValue(year) > 50 then 1900 else 2000) + DigitsValue(year)
  {
    var century := if DigitsValue(year) > 50 then "19" else "20";
    assert FullYear(year) == century + year;
    DigitsValueConcat(century, year);
    TwoDigitsValue(century);
    assert Pow10(2) == 100 by { assert Pow10(1) == 10; }
  }

  /** A two-digit string is worth ten times its first digit plus its second. */
  lemma TwoDigitsValue(s: string)
    requires AllDigits(s) && |s| == 2
    ensures DigitsValue(s) == DigitValue(s[0]) * 10 + DigitValue(s[1])
  {
    var first := s[..1];
    assert first[..0] == [] && first[0] == s[0];
    assert DigitsValue(first) == DigitValue(s[0]);
    assert s[..|s| - 1] == first;
  }

  /** `${year}-${monthPadded}-${dayPadded}`. */
  function FormattedBrDate(parts: seq<string>): string
    requires BrDateParts(parts)
  {
    FullYear(parts[2]) + "-" + PadStart2(parts[1]) + "-" + PadStart2(parts[0])
  }

  /** The calendar date the three parts name. */
  function BrDateValue(parts: seq<string>): Date
    requires BrDateParts(parts)
  {
    Date(DigitsValue(FullYear(parts[2])), DigitsValue(parts[1]), DigitsValue(parts[0]))
  }

  /** A month from 1 to 12 and a day from 1 to 31: what V8's date parser checks of a `YYYY-MM-DD` text. */
  predicate DayInRange(d: Date)
  {
    1 <= d.month <= 12 && 1 <= d.day <= 31
  }

  /**
   * The day a date in range stands for: itself when the month has it,
   * otherwise the day as far into the next month as it overshoots.
   */
  function RollOver(d: Date): (r: Date)
    requires DayInRange(d)
    ensures ValidDate(r)
    ensures r == d <==> ValidDate(d)
  {
    if d.day <= DaysInMonth(d.year, d.month) then d
    else
      var next := NextMonth(YearMonth(d.year, d.month));
      Date(next.year, next.month, d.day - DaysInMonth(d.year, d.month))
  }

  /**
   * `new Date(text)` as V8 (Chromium, Electron, Node) reads it: a
   * `YYYY-MM-DD` text whose month is 01..12 and day 01..31 is midnight UTC
   * of that day, a day past the month's end rolling over into the next
   * month (`2024-02-30` is 1 March 2024). Any other text is an invalid
   * date (None).
   */
  function DateOnly(text: string): (d: Option<Date>)
    ensures d.Some? <==> IsoDateShape(text) && DayInRange(IsoDateValue(text))
    ensures d.Some? ==> ValidDate(d.value)
    ensures d.Some? ==> (d.value == IsoDateValue(text) <==> ValidDate(IsoDateValue(text)))
  {
    if IsoDateShape(text) && DayInRange(IsoDateValue(text)) then Some(RollOver(IsoDateValue(text))) else None
  }

  /** The date the local getters (`getFullYear`, `getMonth`, `getDate`) report for midnight UTC of `d`. */
  function LocalDate(d: Date, utcOffsetMinutes: int): Date
    requires ValidDate(d) && -1440 < utcOffsetMinutes < 1440
  {
    if utcOffsetMinutes < 0 then PrevDay(d) else d
  }

  /**
   * `parseDate` as written: a Brazilian date is kept only when the local
   * getters of `new Date(formatted)` give back its day, month and year.
   */
  function ParseDateAsWritten(dateStr: string, today: string, utcOffsetMinutes: int): string
    requires -1440 < utcOffsetMinutes < 1440
  {
    if IsBlank(dateStr) then today
    else
      var clean := Trim(dateStr);
      if IsoDateShape(clean) && DateOnly(clean).Some? then clean
      else
        var parts := Split(clean, '/');
        if !BrDateParts(parts) then today
        else
          var formatted := FormattedBrDate(parts);
          match DateOnly(formatted)
          case None => today
          case Some(utc) => if LocalDate(utc, utcOffsetMinutes) == BrDateValue(parts) then formatted else today
  }

  /**
   * `parseDate(dateStr)` as intended: a blank text is today, a `YYYY-MM-DD`
   * text `new Date` accepts is kept, a `DD/MM/YYYY` or `DD/MM/YY` text
   * becomes the zero-padded `YYYY-MM-DD` when the date read back in UTC is
   * the day it names, and anything else is today.
   */
  function ParseDate(dateStr: string, today: string): string
  {
    if IsBlank(dateStr) then today
    else
      var clean := Trim(dateStr);
      if IsoDateShape(clean) && DateOnly(clean).Some? then clean
      else
        var parts := Split(clean, '/');
        if !BrDateParts(parts) then today
        else
          var formatted := FormattedBrDate(parts);
          if DateOnly(formatted) == Some(BrDateValue(parts)) then formatted else today
  }

  /** A padded day or month has the value of the digits it pads. */
  lemma PadStart2Value(s: string)
    requires 1 <= |s| <= 2 && AllDigits(s)
    ensures |PadStart2(s)| == 2 && AllDigits(PadStart2(s)) && DigitsValue(PadStart2(s)) == DigitsValue(s)
  {
    if |s| == 1 {
      DigitsValueConcat("0", s);
      assert "0"[..0] == [];
    }
  }

  /** The formatted text has the `YYYY-MM-DD` shape exactly when the year has four digits, and then spells the parts' date. */
  lemma FormattedBrDateShape(parts: seq<string>)
    requires BrDateParts(parts)
    ensures IsoDateShape(FormattedBrDate(parts)) <==> |FullYear(parts[2])| == 4
    ensures IsoDateShape(FormattedBrDate(parts)) ==> IsoDateValue(FormattedBrDate(parts)) == BrDateValue(parts)
  {
    var y, m, d := FullYear(parts[2]), PadStart2(parts[1]), PadStart2(parts[0]);
    PadStart2Value(parts[1]);
    PadStart2Value(parts[0]);
    var s := FormattedBrDate(parts);
    assert s == y + "-" + m + "-" + d;
    if |y| == 4 {
      assert s[5] == m[0] && s[6] == m[1];
    assert s[..4] == y && s[5..7] == m && s[8..] == d;
    }
  }

  /**
   * The formatted text is read back in UTC as the day it names exactly when
   * that day exists: a rolled-over date never matches.
   */
  lemma FormattedBrDateValid(parts: seq<string>)
    requires BrDateParts(parts)
    ensures DateOnly(FormattedBrDate(parts)) == Some(BrDateValue(parts)) <==> |FullYear(parts[2])| == 4 && ValidDate(BrDateValue(parts))
  {
    FormattedBrDateShape(parts);
  }

  /** A text of day, month and year separated by `/` splits into them and is not `YYYY-MM-DD`. */
  lemma BrTextParts(day: string, month: string, year: string)
    requires BrDateParts([day, month, year])
    ensures var s := day + "/" + month + "/" + year;
      !IsBlank(s) && Trim(s) == s && !IsoDateShape(s) && Split(s, '/') == [day, month, year]
  {
    var s := day + "/" + month + "/" + year;
    assert s == day + ['/'] + month + ['/'] + year;
    assert s[0] == day[0] && s[|s| - 1] == year[|year| - 1];
    TrimUnchanged(s);
    assert |s| >= 4 && s[..4][|day|] == '/';
    SplitThree(day, month, year, '/');
  }

  /**
   * The result is today's text or a `YYYY-MM-DD` text with a month from 01
   * to 12 and a day from 01 to 31; it names a real day unless it came
   * through unchanged as such a text (`2024-02-30` is kept).
   */
  lemma ParseDateResult(dateStr: string, today: string)
    ensures var r := ParseDate(dateStr, today);
      r == today || (IsoDateShape(r) && DayInRange(IsoDateValue(r)))
    ensures var r := ParseDate(dateStr, today);
      r == today || r == Trim(dateStr) || (IsoDateShape(r) && ValidDate(IsoDateValue(r)))
  {
    if !IsBlank(dateStr) {
      var clean := Trim(dateStr);
      var parts := Split(clean, '/');
      if !(IsoDateShape(clean) && DateOnly(clean).Some?) && BrDateParts(parts) {
        FormattedBrDateValid(parts);
        FormattedBrDateShape(parts);
      }
    }
  }

  /** A `YYYY-MM-DD` text has no `/` in it. */
  lemma IsoNoSlash(s: string)
    requires IsoDateShape(s)
    ensures Split(s, '/') == [s]
  {
    assert forall i :: 0 <= i < 4 ==> s[i] == s[..4][i];
    assert forall i :: 5 <= i < 7 ==> s[i] == s[5..7][i - 5];
    assert forall i :: 8 <= i < 10 ==> s[i] == s[8..][i - 8];
    assert '/' !in s;
  }

  /**
   * A `YYYY-MM-DD` text, trimmed, is kept as it is exactly when its month is
   * 01..12 and its day 01..31, both by the code as written and as
   * corrected; otherwise the result is today.
   */
  lemma ParseDateIso(dateStr: string, today: string, utcOffsetMinutes: int)
    requires IsoDateShape(Trim(dateStr))
    requires -1440 < utcOffsetMinutes < 1440
    ensures ParseDate(dateStr, today) == if DayInRange(IsoDateValue(Trim(dateStr))) then Trim(dateStr) else today
    ensures ParseDateAsWritten(dateStr, today, utcOffsetMinutes) == ParseDate(dateStr, today)
  {
    TrimEmpty(dateStr);
    IsoNoSlash(Trim(dateStr));
  }

  /** `2024-02-30` is no day, yet `new Date` reads it as 1 March 2024 and the text is kept. */
  lemma ParseDateRollover(today: string, utcOffsetMinutes: int)
    requires -1440 < utcOffsetMinutes < 1440
    ensures DateOnly("2024-02-30") == Some(Date(2024, 3, 1))
    ensures ParseDate("2024-02-30", today) == "2024-02-30"
    ensures ParseDateAsWritten("2024-02-30", today, utcOffsetMinutes) == "2024-02-30"
  {
    var y, m, d := "2024", "02", "30";
    var s := y + "-" + m + "-" + d;
    assert s == "2024-02-30";
    assert s[5] == m[0] && s[6] == m[1];
    assert s[..4] == y && s[5..7] == m && s[8..] == d;
    assert DigitsValue("2024") == 2024 by {
      assert "2024"[..3] == "202" && "202"[..2] == "20" && "20"[..1] == "2" && "2"[..0] == "";
    }
    assert DigitsValue("02") == 2 && DigitsValue("30") == 30 by {
      assert "02"[..1] == "0" && "30"[..1] == "3" && "0"[..0] == "" && "3"[..0] == "";
    }
    assert IsoDateShape(s) && IsoDateValue(s) == Date(2024, 2, 30);
    assert IsLeapYear(2024);
    TrimUnchanged(s);
    ParseDateIso(s, today, utcOffsetMinutes);
  }

  /**
   * `DD/MM/YYYY` and `DD/MM/YY` become `YYYY-MM-DD` with the day and month
   * zero-padded and a two-digit year completed, exactly when that day exists.
   */
  lemma ParseDateBrazilian(day: string, month: string, year: string, today: string)
    requires BrDateParts([day, month, year])
    ensures var parts := [day, month, year];
      ParseDate(day + "/" + month + "/" + year, today)
        == if |FullYear(year)| == 4 && ValidDate(BrDateValue(parts)) then FullYear(year) + "-" + PadStart2(month) + "-" + PadStart2(day) else today
  {
    BrTextParts(day, month, year);
    FormattedBrDateValid([day, month, year]);
  }

  /** East of Greenwich, and in UTC, the code as written reads dates as intended. */
  lemma AsWrittenEastOfUtc(dateStr: string, today: string, utcOffsetMinutes: int)
    requires 0 <= utcOffsetMinutes < 1440
    ensures ParseDateAsWritten(dateStr, today, utcOffsetMinutes) == ParseDate(dateStr, today)
  {
    if !IsBlank(dateStr) {
      var parts := Split(Trim(dateStr), '/');
      if BrDateParts(parts) {
        FormattedBrDateShape(parts);
      }
    }
  }

  /**
   * West of Greenwich, where the application's users are, midnight UTC is
   * still the previous day locally, so no `DD/MM/YYYY` text is ever accepted:
   * every one of them becomes today.
   */
  lemma AsWrittenWestOfUtc(day: string, month: string, year: string, today: string, utcOffsetMinutes: int)
    requires BrDateParts([day, month, year])
    requires -1440 < utcOffsetMinutes < 0
    ensures ParseDateAsWritten(day + "/" + month + "/" + year, today, utcOffsetMinutes) == today
  {
    var parts := [day, month, year];
    BrTextParts(day, month, year);
    FormattedBrDateShape(parts);
  }

  /** In Brasilia (UTC-3), `15/03/2024` falls back to today, where `2024-03-15` was meant. */
  lemma AsWrittenBrasilia(today: string)
    ensures ParseDateAsWritten("15/03/2024", today, -180) == today
    ensures ParseDate("15/03/2024", today) == "2024-03-15"
  {
    var day, month, year := "15", "03", "2024";
    assert "15/03/2024" == day + "/" + month + "/" + year;
    MarchFifteenth();
    AsWrittenWestOfUtc(day, month, year, today, -180);
    ParseDateBrazilian(day, month, year, today);
  }

  lemma MarchFifteenth()
    ensures BrDateParts(["15", "03", "2024"])
    ensures FullYear("2024") == "2024" && PadStart2("03") == "03" && PadStart2("15") == "15"
    ensures BrDateValue(["15", "03", "2024"]) == Date(2024, 3, 15)
    ensures "2024" + "-" + "03" + "-" + "15" == "2024-03-15"
  {
    assert DigitsValue("2024") == 2024 by {
      assert "2024"[..3] == "202" && "202"[..2] == "20" && "20"[..1] == "2" && "2"[..0] == "";
    }
    assert DigitsValue("03") == 3 && DigitsValue("15") == 15 by {
      assert "03"[..1] == "0" && "15"[..1] == "1" && "0"[..0] == "" && "1"[..0] == "";
    }
  }

  // ------------------------------------------------------------ normalizeType

  const ExpenseWords: seq<string> := ["saída", "saida", "out", "expense", "débito", "debito", "despesa", "gasto"]
  const IncomeWords: seq<string> := ["entrada", "in", "income", "crédito", "credito", "receita"]
  const TransferWords: seq<string> := ["transferência", "transferencia", "transfer"]

  /** `normalizeType(type)`: the lancamento type named by a word of the pasted text. */
  function NormalizeType(kind: string): (r: string)
    ensures r == "saida" || r == "entrada" || r == "transferencia"
  {
    if kind == "" then "entrada"
    else
      var normalized := Trim(Lower(kind));
      if normalized in ExpenseWords then "saida"
      else if normalized in IncomeWords then "entrada"
      else if normalized in TransferWords then "transferencia"
      else "entrada"
  }

  /**
   * Expense words give `saida` and transfer words `transferencia`, whatever
   * their case and surrounding spaces; everything else, the empty text and
   * unknown words included, is `entrada`.
   */
  lemma NormalizeTypeCases(kind: string)
    ensures NormalizeType(kind) == "saida" <==> Trim(Lower(kind)) in ExpenseWords
    ensures NormalizeType(kind) == "transferencia" <==> Trim(Lower(kind)) in TransferWords
    ensures NormalizeType(kind) == "entrada" <==> Trim(Lower(kind)) !in ExpenseWords + TransferWords
  {
    var n := Trim(Lower(kind));
    WordListsApart();
    if kind == "" {
      assert n == "";
    }
    assert n in ExpenseWords + TransferWords <==> n in ExpenseWords || n in TransferWords;
  }

  /** No word is both a transfer word and an expense or income word. */
  lemma WordListsApart()
    ensures forall w :: w in TransferWords ==> w !in ExpenseWords && w !in IncomeWords
    ensures "" !in ExpenseWords && "" !in TransferWords
  {
    forall w | w in TransferWords
      ensures w !in ExpenseWords && w !in IncomeWords
    {
      assert |w| == 8 || |w| == 13;
    }
  }

  // -------------------------------------------------------------- parseAmount

  /** `s.replace(/\$\s*\/g, '')`: every `$` and the whitespace after it removed. */
  function StripDollar(s: string): (r: string)
    ensures |r| <= |s| && '$' !in r
    ensures '$' !in s ==> r == s
    decreases |s|
  {
    if s == [] then []
    else if s[0] == '$' then StripDollar(TrimStart(s[1..]))
    else [s[0]] + StripDollar(s[1..])
  }

  /** The currency symbols and every whitespace character removed. */
  function CleanAmount(amountStr: string): string
  {
    Trim(Remove(StripDollar(StripCurrency(amountStr)), IsSpace))
  }

  /** The separators read as thousands or decimal marks, the decimal one turned into `.`. */
  function Separators(c: string): string
  {
    if '.' in c && ',' in c then BothMarks(c)
    else if ',' in c then CommaMark(c)
    else if '.' in c then DotMark(c)
    else c
  }

  /** Dots and a comma: `1.391,76` loses its dots and its comma becomes the point, when at most two digits follow it. */
  function BothMarks(c: string): string
  {
    var parts := Split(c, ',');
    if |parts| == 2 && |parts[1]| <= 2 then ReplaceFirst(Remove(c, IsDot), ',', ".") else c
  }

  /** Commas only: one comma before at most two digits is the decimal point, otherwise they are thousands marks. */
  function CommaMark(c: string): string
  {
    var parts := Split(c, ',');
    if |parts| == 2 && |parts[1]| <= 2 then ReplaceFirst(c, ',', ".") else Remove(c, IsComma)
  }

  /** Dots only: with several, the last is the point when at most two digits follow it. */
  function DotMark(c: string): string
    requires '.' in c
  {
    var parts := Split(c, '.');
    if |parts| == 2 && |parts[1]| <= 2 then c
    else if |parts| > 2 then
      var last := LastIndexOf(c, '.');
      if |c[last + 1..]| <= 2 then Remove(c[..last], IsDot) + "." + c[last + 1..] else Remove(c, IsDot)
    else c
  }

  /** A character `/[^\d.-]/g` removes. */
  predicate NotNumeric(c: char) { !(IsDigit(c) || c == '.' || c == '-') }

  /** The number a text with its decimal mark settled is read as: its magnitude, 0 for NaN. */
  function ReadSettled(t: string): (r: real)
    ensures r >= 0.0
  {
    match ParseFloat(Remove(t, NotNumeric))
    case None => 0.0
    case Some(v) => Abs(v)
  }

  /** The number a cleaned amount text is read as. */
  function ReadCleaned(c: string): (r: real)
    ensures r >= 0.0
  {
    ReadSettled(Separators(c))
  }

  /** `parseAmount(amountStr)`: the magnitude of the amount, 0 when nothing is read. */
  function ParseAmount(amountStr: string): (r: real)
    ensures r >= 0.0
    ensures amountStr == "" ==> r == 0.0
  {
    if amountStr == "" then 0.0 else ReadCleaned(CleanAmount(amountStr))
  }

  predicate NoDigit(s: string) { forall i :: 0 <= i < |s| ==> !IsDigit(s[i]) }

  lemma {:induction false} RemoveNoDigit(s: string, drop: char -> bool)
    requires NoDigit(s)
    ensures NoDigit(Remove(s, drop))
  {
    if s != [] {
      RemoveNoDigit(s[1..], drop);
    }
  }

  lemma TrimStartNoDigit(s: string)
    requires NoDigit(s)
    ensures NoDigit(TrimStart(s))
  {
    TrimStartSpaces(s);
  }

  lemma {:induction false} StripCurrencyNoDigit(s: string)
    requires NoDigit(s)
    ensures NoDigit(StripCurrency(s))
    decreases |s|
  {
    if |s| >= 2 && s[0] == 'R' && s[1] == '$' {
      TrimStartNoDigit(s[2..]);
      StripCurrencyNoDigit(TrimStart(s[2..]));
    } else if s != [] {
      StripCurrencyNoDigit(s[1..]);
    }
  }

  lemma {:induction false} StripDollarNoDigit(s: string)
    requires NoDigit(s)
    ensures NoDigit(StripDollar(s))
    decreases |s|
  {
    if s != [] && s[0] == '$' {
      TrimStartNoDigit(s[1..]);
      StripDollarNoDigit(TrimStart(s[1..]));
    } else if s != [] {
      StripDollarNoDigit(s[1..]);
    }
  }

  lemma CleanAmountNoDigit(s: string)
    requires NoDigit(s)
    ensures NoDigit(CleanAmount(s))
  {
    StripCurrencyNoDigit(s);
    StripDollarNoDigit(StripCurrency(s));
    var u := Remove(StripDollar(StripCurrency(s)), IsSpace);
    RemoveNoDigit(StripDollar(StripCurrency(s)), IsSpace);
    TrimStartSpaces(u);
    TrimEndSpaces(TrimStart(u));
  }

  lemma SeparatorsNoDigit(c: string)
    requires NoDigit(c)
    ensures NoDigit(Separators(c))
  {
    if '.' in c && ',' in c {
      RemoveNoDigit(c, IsDot);
      ReplaceFirstNoDigit(Remove(c, IsDot));
    } else if ',' in c {
      RemoveNoDigit(c, IsComma);
      ReplaceFirstNoDigit(c);
    } else if '.' in c {
      DotMarkNoDigit(c);
    }
  }

  lemma ReplaceFirstNoDigit(s: string)
    requires NoDigit(s)
    ensures NoDigit(ReplaceFirst(s, ',', "."))
  {
    if ',' in s {
      var k := IndexOf(s, ',');
      assert NoDigit(s[..k]) && NoDigit(s[k + 1..]);
    }
  }

  lemma DotMarkNoDigit(c: string)
    requires '.' in c && NoDigit(c)
    ensures NoDigit(DotMark(c))
  {
    RemoveNoDigit(c, IsDot);
    var last := LastIndexOf(c, '.');
    RemoveNoDigit(c[..last], IsDot);
    assert NoDigit(c[last + 1..]);
  }

  /** A text with no digit in it is amount 0. */
  lemma ParseAmountNoDigit(amountStr: string)
    requires NoDigit(amountStr)
    ensures ParseAmount(amountStr) == 0.0
  {
    if amountStr != "" {
      var c := CleanAmount(amountStr);
      CleanAmountNoDigit(amountStr);
      SeparatorsNoDigit(c);
      var t := Remove(Separators(c), NotNumeric);
      RemoveNoDigit(Separators(c), NotNumeric);
      if ParseFloat(t).Some? {
        ParseFloatNeedsDigit(t);
      }
    }
  }

  /** A text of digits, dots and commas comes out of the cleaning untouched. */
  lemma CleanAmountPlain(s: string)
    requires PlainAmount(s)
    ensures CleanAmount(s) == s
  {
    assert '$' !in s;
    RemoveSpec(s, IsSpace);
    TrimUnchanged(s);
  }

  /** A `$`-free text without whitespace after a leading `R$` and spaces. */
  lemma CleanAmountCurrency(ws: string, s: string)
    requires IsBlank(ws) && PlainAmount(s)
    ensures CleanAmount("R$" + ws + s) == s
  {
    StripCurrencyPrefix(ws, s);
    CleanAmountPlain(s);
  }

  /** Digits only: nothing is left for the final filter to remove. */
  lemma ParseDigitsText(s: string)
    requires s != [] && AllDigits(s)
    ensures Remove(s, NotNumeric) == s
  {
    RemoveSpec(s, NotNumeric);
  }

  /** A plain amount text: digits, dots and commas, starting and ending with a digit. */
  predicate PlainAmount(s: string)
  {
    s != [] && IsDigit(s[0]) && IsDigit(s[|s| - 1]) &&
    forall i :: 0 <= i < |s| ==> IsDigit(s[i]) || s[i] == '.' || s[i] == ','
  }

  /** `R$` and the spaces after it change nothing in front of a plain amount. */
  lemma CurrencyIgnored(ws: string, s: string)
    requires IsBlank(ws) && PlainAmount(s)
    ensures ParseAmount("R$" + ws + s) == ParseAmount(s)
  {
    CleanAmountCurrency(ws, s);
    CleanAmountPlain(s);
  }

  /**
   * The Brazilian format `1.391,76`: the dot is a thousands mark and the
   * comma, followed by at most two digits, the decimal mark.
   */
  lemma ParseAmountBrazilian(thousands: string, units: string, cents: string)
    requires thousands != [] && AllDigits(thousands) && AllDigits(units)
    requires 1 <= |cents| <= 2 && AllDigits(cents)
    ensures ParseAmount(thousands + "." + units + "," + cents) == DecimalValue(thousands + units, cents)
  {
    var body := thousands + "." + units + "," + cents;
    BrazilianChars(thousands, units, cents);
    CleanAmountPlain(body);
    BrazilianMarks(thousands, units, cents);
    ReadDecimal(thousands + units, cents);
  }

  lemma BrazilianMarks(thousands: string, units: string, cents: string)
    requires AllDigits(thousands) && AllDigits(units)
    requires 1 <= |cents| <= 2 && AllDigits(cents)
    ensures Separators(thousands + "." + units + "," + cents) == thousands + units + "." + cents
  {
    var body := thousands + "." + units + "," + cents;
    var head := thousands + "." + units;
    assert body == head + [','] + cents;
    assert '.' in body && ',' in body by {
      assert body[|thousands|] == '.' && body[|head|] == ',';
    }
    assert Join([head, cents], [',']) == body;
    SplitJoin([head, cents], ',');
    BrazilianCleaned(thousands, units, cents);
  }

  /** A settled `digits.cents` text is read as the decimal it writes. */
  lemma ReadDecimal(digits: string, cents: string)
    requires digits != [] && AllDigits(digits) && AllDigits(cents)
    ensures ReadSettled(digits + "." + cents) == DecimalValue(digits, cents)
  {
    var s := digits + "." + cents;
    DecimalChars(digits, cents);
    RemoveSpec(s, NotNumeric);
    ParseFloatDecimal(digits, cents);
  }

  /** `1.391,76` is 1391.76. */
  lemma ParseAmountExample()
    ensures ParseAmount("1.391,76") == 1391.76
  {
    assert "1.391,76" == "1" + "." + "391" + "," + "76";
    ParseAmountBrazilian("1", "391", "76");
    ExampleDecimal();
  }

  /** `R$ 1.391,76` is 1391.76 as well. */
  lemma ParseAmountExampleCurrency()
    ensures ParseAmount("R$ 1.391,76") == 1391.76
  {
    assert "R$ 1.391,76" == "R$" + " " + "1.391,76";
    assert PlainAmount("1.391,76");
    CurrencyIgnored(" ", "1.391,76");
    ParseAmountExample();
  }

  lemma ExampleDecimal()
    ensures "1" + "391" == "1391"
    ensures DecimalValue("1391", "76") == 1391.76
  {
    assert DigitsValue("1391") == 1391 by {
      assert "1391"[..3] == "139" && "139"[..2] == "13" && "13"[..1] == "1" && "1"[..0] == "";
    }
    assert DigitsValue("76") == 76 by {
      assert "76"[..1] == "7" && "7"[..0] == "";
    }
    assert Shifted(76, 2) == 0.76;
  }

  lemma BrazilianChars(thousands: string, units: string, cents: string)
    requires thousands != [] && AllDigits(thousands) && AllDigits(units) && cents != [] && AllDigits(cents)
    ensures PlainAmount(thousands + "." + units + "," + cents)
  {
  }

  lemma DecimalChars(digits: string, cents: string)
    requires AllDigits(digits) && AllDigits(cents)
    ensures forall i :: 0 <= i < |digits + "." + cents| ==> !NotNumeric((digits + "." + cents)[i])
  {
  }

  lemma BrazilianCleaned(thousands: string, units: string, cents: string)
    requires AllDigits(thousands) && AllDigits(units) && AllDigits(cents)
    ensures ReplaceFirst(Remove(thousands + "." + units + "," + cents, IsDot), ',', ".") == thousands + units + "." + cents
  {
    var body := thousands + "." + units + "," + cents;
    assert body == thousands + "." + (units + "," + cents);
    RemoveDot(thousands, units + "," + cents);
    RemoveNone(units + "," + cents);
    assert Remove(body, IsDot) == thousands + units + "," + cents;
    ReplaceFirstComma(thousands + units, cents);
  }

  /** One dot between digits is kept as the decimal point, whatever follows it. */
  lemma DotDecimalMarks(digits: string, cents: string)
    requires AllDigits(digits) && AllDigits(cents)
    ensures Separators(digits + "." + cents) == digits + "." + cents
  {
    var s := digits + "." + cents;
    assert s == digits + ['.'] + cents;
    assert s[|digits|] == '.';
    assert ',' !in s by {
      assert forall i :: 0 <= i < |s| ==> s[i] == '.' || IsDigit(s[i]);
    }
    assert Join([digits, cents], ['.']) == s;
    SplitJoin([digits, cents], '.');
  }

  /** With only a comma, one or two digits after it are the decimals (`12,5` is 12.5). */
  lemma ParseAmountCommaDecimal(units: string, cents: string)
    requires units != [] && AllDigits(units) && 1 <= |cents| <= 2 && AllDigits(cents)
    ensures ParseAmount(units + "," + cents) == DecimalValue(units, cents)
  {
    var s := units + "," + cents;
    assert s == units + [','] + cents;
    assert IsDigit(s[0]) && IsDigit(s[|s| - 1]);
    CleanAmountPlain(s);
    CommaDecimalMarks(units, cents);
    ReadDecimal(units, cents);
  }

  lemma CommaDecimalMarks(units: string, cents: string)
    requires AllDigits(units) && 1 <= |cents| <= 2 && AllDigits(cents)
    ensures Separators(units + "," + cents) == units + "." + cents
  {
    var s := units + "," + cents;
    assert s == units + [','] + cents;
    assert s[|units|] == ',';
    assert '.' !in s;
    assert Join([units, cents], [',']) == s;
    SplitJoin([units, cents], ',');
    ReplaceFirstComma(units, cents);
  }

  /** With only a comma and three or more digits after it, the comma is a thousands mark (`1,500` is 1500). */
  lemma ParseAmountCommaThousands(thousands: string, units: string)
    requires thousands != [] && AllDigits(thousands) && |units| >= 3 && AllDigits(units)
    ensures ParseAmount(thousands + "," + units) == DigitsValue(thousands + units) as real
  {
    var s := thousands + "," + units;
    var t := thousands + units;
    assert s == thousands + [','] + units;
    assert IsDigit(s[0]) && IsDigit(s[|s| - 1]);
    CleanAmountPlain(s);
    CommaThousandsMarks(thousands, units);
    ParseDigitsText(t);
    ParseFloatDigits(t);
  }

  lemma CommaThousandsMarks(thousands: string, units: string)
    requires AllDigits(thousands) && |units| >= 3 && AllDigits(units)
    ensures Separators(thousands + "," + units) == thousands + units
  {
    var s := thousands + "," + units;
    assert s == thousands + [','] + units;
    assert s[|thousands|] == ',';
    assert ',' in s && '.' !in s;
    assert Separators(s) == CommaMark(s);
    assert Join([thousands, units], [',']) == s;
    SplitJoin([thousands, units], ',');
    RemoveCommaAt(thousands, units);
  }

  lemma {:induction false} RemoveCommaAt(a: string, b: string)
    requires AllDigits(a) && AllDigits(b)
    ensures Remove(a + "," + b, IsComma) == a + b
  {
    if a == [] {
      assert ("," + b)[1..] == b;
      RemoveSpec(b, IsComma);
    } else {
      assert (a + "," + b)[1..] == a[1..] + "," + b;
      RemoveCommaAt(a[1..], b);
    }
  }

  // ----------------------------------------------------------- column layout

  /** Length of the run of whitespace at the start of `s`. */
  function SpaceRun(s: string): (k: nat)
    ensures k <= |s|
    ensures k < |s| ==> !IsSpace(s[k])
    ensures forall i :: 0 <= i < k ==> IsSpace(s[i])
  {
    if s != [] && IsSpace(s[0]) then 1 + SpaceRun(s[1..]) else 0
  }

  /** `c` put in front of the first part. */
  function Prepend(c: char, parts: seq<string>): (r: seq<string>)
    requires parts != []
    ensures |r| == |parts| && r[0] == [c] + parts[0] && r[1..] == parts[1..]
  {
    [[c] + parts[0]] + parts[1..]
  }

  /** `s.split(/\s{2,}/)`: every run of two or more whitespace characters separates two values. */
  function SplitWide(s: string): (parts: seq<string>)
    ensures parts != []
    ensures s == [] || SpaceRun(s) >= 2 ==> parts[0] == []
    ensures s != [] && SpaceRun(s) < 2 ==> parts[0] != [] && parts[0][0] == s[0]
    decreases |s|
  {
    if s == [] then [""]
    else
      var k := SpaceRun(s);
      if k >= 2 then [""] + SplitWide(s[k..]) else Prepend(s[0], SplitWide(s[1..]))
  }

  /** No two whitespace characters next to each other. */
  predicate NarrowGaps(s: string)
  {
    forall i :: 0 <= i < |s| - 1 ==> !(IsSpace(s[i]) && IsSpace(s[i + 1]))
  }

  /** The values never contain two whitespace characters in a row: those runs are the separators. */
  lemma {:induction false} SplitWideFields(s: string)
    ensures forall j :: 0 <= j < |SplitWide(s)| ==> NarrowGaps(SplitWide(s)[j])
    decreases |s|
  {
    if s != [] {
      var k := SpaceRun(s);
      if k >= 2 {
        SplitWideFields(s[k..]);
        assert SplitWide(s) == [""] + SplitWide(s[k..]);
      } else {
        var rest := SplitWide(s[1..]);
        SplitWideFields(s[1..]);
        var p := [s[0]] + rest[0];
        assert SplitWide(s) == [p] + rest[1..];
        assert NarrowGaps(p) by {
          forall i | 0 <= i < |p| - 1
            ensures !(IsSpace(p[i]) && IsSpace(p[i + 1]))
          {
            if i > 0 {
              assert p[i] == rest[0][i - 1] && p[i + 1] == rest[0][i];
            } else if IsSpace(s[0]) {
              assert k == 1 && !IsSpace(s[1]) && rest[0][0] == s[1];
            }
          }
        }
        forall j | 0 < j < |SplitWide(s)| ensures NarrowGaps(SplitWide(s)[j]) {
          assert SplitWide(s)[j] == rest[j];
        }
      }
    }
  }

  /** A text without such a run is a single value. */
  lemma {:induction false} SplitWideSingle(s: string)
    requires NarrowGaps(s)
    ensures SplitWide(s) == [s]
    decreases |s|
  {
    if s != [] {
      if |s| >= 2 {
        assert !(IsSpace(s[0]) && IsSpace(s[1]));
      }
      assert NarrowGaps(s[1..]) by {
        forall i | 0 <= i < |s[1..]| - 1
          ensures !(IsSpace(s[1..][i]) && IsSpace(s[1..][i + 1]))
        {
          assert s[1..][i] == s[i + 1] && s[1..][i + 1] == s[i + 2];
        }
      }
      SplitWideSingle(s[1..]);
      assert [s[0]] + s[1..] == s;
    }
  }

  /** A value, a run of whitespace and the rest split into the value and the rest's values. */
  lemma {:induction false} SplitWideSeparator(v: string, gap: string, rest: string)
    requires NarrowGaps(v) && (v == [] || !IsSpace(v[|v| - 1]))
    requires |gap| >= 2 && IsBlank(gap) && (rest == [] || !IsSpace(rest[0]))
    ensures SplitWide(v + gap + rest) == [v] + SplitWide(rest)
    decreases |v|
  {
    var s := v + gap + rest;
    if v == [] {
      assert s == gap + rest;
      assert SpaceRun(s) == |gap| by {
        SpaceRunBlank(gap, rest);
      }
      assert s[|gap|..] == rest;
    } else {
      assert s[0] == v[0];
      assert SpaceRun(s) < 2 by {
        if IsSpace(s[0]) {
          if |v| == 1 {
            assert false;
          }
          assert s[1] == v[1] && !IsSpace(v[1]);
        }
      }
      assert s[1..] == v[1..] + gap + rest;
      assert NarrowGaps(v[1..]) by {
        forall i | 0 <= i < |v[1..]| - 1
          ensures !(IsSpace(v[1..][i]) && IsSpace(v[1..][i + 1]))
        {
          assert v[1..][i] == v[i + 1] && v[1..][i + 1] == v[i + 2];
        }
      }
      SplitWideSeparator(v[1..], gap, rest);
      assert [v[0]] + v[1..] == v;
    }
  }

  lemma {:induction false} SpaceRunBlank(gap: string, rest: string)
    requires IsBlank(gap) && (rest == [] || !IsSpace(rest[0]))
    ensures SpaceRun(gap + rest) == |gap|
  {
    if gap != [] {
      assert (gap + rest)[1..] == gap[1..] + rest;
      SpaceRunBlank(gap[1..], rest);
    } else {
      assert gap + rest == rest;
    }
  }

  /** The separator of a line: a tab before a semicolon before runs of whitespace. */
  function SplitValues(line: string): seq<string>
  {
    if '\t' in line then Split(line, '\t')
    else if ';' in line then Split(line, ';')
    else SplitWide(line)
  }

  /** `values.map(v => v.trim())`. */
  function Values(line: string): (values: seq<string>)
  {
    TrimEach(SplitValues(line))
  }

  /** A character of `/^[\d.,]+$/`. */
  predicate IsAmountChar(c: char) { IsDigit(c) || c == '.' || c == ',' }

  /** The third field looks like an amount: a currency sign, or digits, dots and commas only. */
  predicate AmountLike(field: string)
  {
    Contains(field, "R$") || '$' in field ||
    (var t := StripCurrency(field); t != [] && forall i :: 0 <= i < |t| ==> IsAmountChar(t[i]))
  }

  datatype Format = Format1 | Format2

  /**
   * `detectFormat(line)`: format2 (date, description, amount, type, bank,
   * category) when the line has six values and the third looks like an
   * amount, format1 (date, description, type, category, bank, amount)
   * otherwise. The source's further test of the fourth value for a type word
   * also answers format1, so it changes nothing.
   */
  function DetectFormat(line: string): Format
  {
    var values := Values(line);
    if |values| < 6 then Format1
    else if AmountLike(values[2]) then Format2
    else Format1
  }

  /** One pasted row, its six fields as text. */
  datatype RawRow = RawRow(date: string, description: string, amount: string, kind: string, bank: string, category: string)

  /** The row of a line, None for a line of fewer than six values. */
  function LineRow(line: string): (r: Option<RawRow>)
    ensures r.Some? <==> |Values(line)| >= 6
  {
    var v := Values(line);
    if |v| < 6 then None
    else if DetectFormat(line) == Format2 then Some(RawRow(v[0], v[1], v[2], v[3], v[4], v[5]))
    else Some(RawRow(v[0], v[1], v[5], v[2], v[4], v[3]))
  }

  /** The rows of the non-blank lines, in order. */
  function Rows(lines: seq<string>): (rows: seq<RawRow>)
    ensures |rows| <= |lines|
  {
    if lines == [] then []
    else
      var init := Rows(lines[..|lines| - 1]);
      var line := lines[|lines| - 1];
      if IsBlank(line) then init
      else
        match LineRow(line)
        case None => init
        case Some(row) => init + [row]
  }

  /** `parseRawText(text)`: the rows of the pasted text, one per non-blank line of six or more values. */
  function ParseRawText(text: string): seq<RawRow>
  {
    Rows(Split(text, '\n'))
  }

  /** The rows of two blocks of lines are the rows of each, in order: lines are read independently. */
  lemma {:induction false} RowsAppend(a: seq<string>, b: seq<string>)
    ensures Rows(a + b) == Rows(a) + Rows(b)
    decreases |b|
  {
    if b == [] {
      assert a + b == a;
    } else {
      var b' := b[..|b| - 1];
      assert (a + b)[..|a + b| - 1] == a + b';
      assert (a + b)[|a + b| - 1] == b[|b| - 1];
      RowsAppend(a, b');
    }
  }

  /** Lines joined by line feeds are read back line by line. */
  lemma ParseRawTextLines(lines: seq<string>)
    requires lines != [] && forall i :: 0 <= i < |lines| ==> '\n' !in lines[i]
    ensures ParseRawText(Join(lines, "\n")) == Rows(lines)
  {
    SplitJoin(lines, '\n');
  }

  /**
   * Six trimmed fields separated by tabs make one row: in the order date,
   * description, amount, type, bank, category when the third field looks like
   * an amount, and date, description, type, category, bank, amount otherwise.
   */
  lemma TabRow(f: seq<string>)
    requires |f| == 6
    requires forall i :: 0 <= i < 6 ==> '\t' !in f[i] && Trim(f[i]) == f[i]
    ensures LineRow(Join(f, "\t")) ==
      Some(if AmountLike(f[2]) then RawRow(f[0], f[1], f[2], f[3], f[4], f[5])
           else RawRow(f[0], f[1], f[5], f[2], f[4], f[3]))
  {
    var line := Join(f, "\t");
    assert line == f[0] + "\t" + Join(f[1..], "\t");
    assert line[|f[0]|] == '\t';
    SplitJoin(f, '\t');
    assert Values(line) == TrimEach(f);
    assert TrimEach(f) == f;
  }

  /** A line of tab-free values separated by semicolons is split at the semicolons. */
  lemma SemicolonValues(f: seq<string>)
    requires |f| >= 2
    requires forall i :: 0 <= i < |f| ==> '\t' !in f[i] && ';' !in f[i]
    ensures Values(Join(f, ";")) == TrimEach(f)
  {
    var line := Join(f, ";");
    assert line == f[0] + ";" + Join(f[1..], ";");
    assert line[|f[0]|] == ';';
    JoinNoChar(f, ";", '\t');
    SplitJoin(f, ';');
  }

  // ------------------------------------------------------------- handleImport

  /** The financial item `handleImport` inserts for a row. */
  datatype PastedItem = PastedItem(date: string, kind: string, description: string, amount: real,
                                   category: string, bank: string, source: string)

  /** What the duplicate query matches on: date, description and amount. */
  predicate SameEntry(a: PastedItem, b: PastedItem)
  {
    a.date == b.date && a.description == b.description && a.amount == b.amount
  }

  /** Whether the query for the item finds a row among `rows`. */
  predicate Recorded(item: PastedItem, rows: seq<PastedItem>)
  {
    exists k :: 0 <= k < |rows| && SameEntry(rows[k], item)
  }

  /** The item built from a row dated `date`, when its description and amount pass the basic checks. */
  function RowItemOf(row: RawRow, date: string): (r: Option<PastedItem>)
    ensures r.Some? ==> r.value.description != "" && r.value.amount > 0.0
    ensures r.Some? ==> r.value.kind in ["saida", "entrada", "transferencia"]
  {
    var amount := ParseAmount(row.amount);
    var description := Trim(row.description);
    if description == "" || amount == 0.0 then None
    else
      var category := if Trim(row.category) == "" then "Importado" else Trim(row.category);
      var bank := if Trim(row.bank) == "" then "CONTA SIMPLES" else Trim(row.bank);
      Some(PastedItem(date, NormalizeType(row.kind), description, amount, category, bank, "Raw Paste Import"))
  }

  /** The item `handleImport` builds from a row, dated by `parseDate` as written. */
  function RowItem(row: RawRow, today: string, utcOffsetMinutes: int): (r: Option<PastedItem>)
    requires -1440 < utcOffsetMinutes < 1440
    ensures r.Some? ==> r.value.description != "" && r.value.amount > 0.0
    ensures r.Some? ==> r.value.kind in ["saida", "entrada", "transferencia"]
  {
    RowItemOf(row, ParseDateAsWritten(row.date, today, utcOffsetMinutes))
  }

  /** The item built from a row dated by the corrected `parseDate`. */
  function RowItemCorrected(row: RawRow, today: string): (r: Option<PastedItem>)
    ensures r.Some? ==> r.value.description != "" && r.value.amount > 0.0
  {
    RowItemOf(row, ParseDate(row.date, today))
  }

  /** East of Greenwich, and in UTC, a row's item is the one the corrected reader gives. */
  lemma RowItemEastOfUtc(row: RawRow, today: string, utcOffsetMinutes: int)
    requires 0 <= utcOffsetMinutes < 1440
    ensures RowItem(row, today, utcOffsetMinutes) == RowItemCorrected(row, today)
  {
    AsWrittenEastOfUtc(row.date, today, utcOffsetMinutes);
  }

  /**
   * West of Greenwich, a row dated `DD/MM/YYYY` or `DD/MM/YY` is imported
   * with today's date, where the corrected reader gives the day it names.
   */
  lemma RowItemWestOfUtc(row: RawRow, day: string, month: string, year: string, today: string, utcOffsetMinutes: int)
    requires row.date == day + "/" + month + "/" + year && BrDateParts([day, month, year])
    requires -1440 < utcOffsetMinutes < 0
    ensures RowItem(row, today, utcOffsetMinutes).Some? ==> RowItem(row, today, utcOffsetMinutes).value.date == today
    ensures RowItemCorrected(row, today).Some? && |FullYear(year)| == 4 && ValidDate(BrDateValue([day, month, year])) ==>
      RowItemCorrected(row, today).value.date == FullYear(year) + "-" + PadStart2(month) + "-" + PadStart2(day)
  {
    AsWrittenWestOfUtc(day, month, year, today, utcOffsetMinutes);
    ParseDateBrazilian(day, month, year, today);
  }

  /** `RowItem` of every row, in order. */
  function RowItems(rows: seq<RawRow>, today: string, utcOffsetMinutes: int): (r: seq<Option<PastedItem>>)
    requires -1440 < utcOffsetMinutes < 1440
    ensures |r| == |rows|
  {
    if rows == [] then [] else [RowItem(rows[0], today, utcOffsetMinutes)] + RowItems(rows[1..], today, utcOffsetMinutes)
  }

  /** `RowItemCorrected` of every row, in order. */
  function RowItemsCorrected(rows: seq<RawRow>, today: string): (r: seq<Option<PastedItem>>)
    ensures |r| == |rows|
  {
    if rows == [] then [] else [RowItemCorrected(rows[0], today)] + RowItemsCorrected(rows[1..], today)
  }

  lemma {:induction false} RowItemsAt(rows: seq<RawRow>, today: string, utcOffsetMinutes: int, i: nat)
    requires -1440 < utcOffsetMinutes < 1440
    requires i < |rows|
    ensures RowItems(rows, today, utcOffsetMinutes)[i] == RowItem(rows[i], today, utcOffsetMinutes)
    ensures RowItemsCorrected(rows, today)[i] == RowItemCorrected(rows[i], today)
  {
    if i > 0 {
      RowItemsAt(rows[1..], today, utcOffsetMinutes, i - 1);
    }
  }

  /** The counters of an import and the items it inserted, in order. */
  datatype Tally = Tally(inserted: seq<PastedItem>, success: nat, errors: nat, skipped: nat, duplicates: nat)

  /**
   * One row of the import, given the item built from it: skipped when it
   * failed the basic checks, counted as a duplicate when the table (its rows
   * before the import and those inserted so far) already holds its date,
   * description and amount, and otherwise inserted unless the database
   * rejects it.
   */
  function ImportRow(t: Tally, item: Option<PastedItem>, existing: seq<PastedItem>, rejects: PastedItem -> bool): Tally
  {
    match item
    case None => t.(skipped := t.skipped + 1)
    case Some(it) =>
      if Recorded(it, existing + t.inserted) then t.(duplicates := t.duplicates + 1)
      else if rejects(it) then t.(errors := t.errors + 1)
      else t.(inserted := t.inserted + [it], success := t.success + 1)
  }

  /** The tally after the items of the given rows, in order. */
  function ImportItems(items: seq<Option<PastedItem>>, existing: seq<PastedItem>, rejects: PastedItem -> bool): Tally
  {
    if items == [] then Tally([], 0, 0, 0, 0)
    else ImportRow(ImportItems(items[..|items| - 1], existing, rejects), items[|items| - 1], existing, rejects)
  }

  /**
   * The loop of `handleImport` over the items built from the parsed rows.
   * The database is a parameter: `existing` are the user's items before the
   * import and `rejects` tells which inserts fail.
   */
  method ImportAll(items: seq<Option<PastedItem>>, existing: seq<PastedItem>, rejects: PastedItem -> bool)
    returns (t: Tally)
    ensures t == ImportItems(items, existing, rejects)
    ensures t.success + t.errors + t.skipped + t.duplicates == |items|
    ensures t.success == |t.inserted|
  {
    t := Tally([], 0, 0, 0, 0);
    for i := 0 to |items|
      invariant t == ImportItems(items[..i], existing, rejects)
      invariant t.success + t.errors + t.skipped + t.duplicates == i
      invariant t.success == |t.inserted|
    {
      ImportNext(items, existing, rejects, i);
      ghost var before := t;
      var item := items[i];
      if item.None? {
        t := t.(skipped := t.skipped + 1);
      } else if Recorded(item.value, existing + t.inserted) {
        t := t.(duplicates := t.duplicates + 1);
      } else if rejects(item.value) {
        t := t.(errors := t.errors + 1);
      } else {
        t := t.(inserted := t.inserted + [item.value], success := t.success + 1);
      }
      assert t == ImportRow(before, item, existing, rejects);
    }
    assert items[..|items|] == items;
  }

  /**
   * `handleImport`: each parsed row, dated by `parseDate` as written in the
   * local time zone, is skipped, counted as a duplicate, rejected or
   * inserted, in order.
   */
  method HandleImport(rows: seq<RawRow>, today: string, utcOffsetMinutes: int, existing: seq<PastedItem>, rejects: PastedItem -> bool)
    returns (t: Tally)
    requires -1440 < utcOffsetMinutes < 1440
    ensures t == ImportItems(RowItems(rows, today, utcOffsetMinutes), existing, rejects)
    ensures t.success + t.errors + t.skipped + t.duplicates == |rows|
    ensures t.success == |t.inserted|
  {
    t := ImportAll(RowItems(rows, today, utcOffsetMinutes), existing, rejects);
  }

  /** The import with the rows dated by the corrected `parseDate`. */
  method HandleImportCorrected(rows: seq<RawRow>, today: string, existing: seq<PastedItem>, rejects: PastedItem -> bool)
    returns (t: Tally)
    ensures t == ImportItems(RowItemsCorrected(rows, today), existing, rejects)
    ensures t.success + t.errors + t.skipped + t.duplicates == |rows|
    ensures t.success == |t.inserted|
  {
    t := ImportAll(RowItemsCorrected(rows, today), existing, rejects);
  }

  /** One more item: the tally of the first `i + 1` items is the next row of the first `i`. */
  lemma ImportNext(items: seq<Option<PastedItem>>, existing: seq<PastedItem>, rejects: PastedItem -> bool, i: nat)
    requires i < |items|
    ensures ImportItems(items[..i + 1], existing, rejects) == ImportRow(ImportItems(items[..i], existing, rejects), items[i], existing, rejects)
  {
    assert items[..i + 1][..i] == items[..i];
  }

  /** Items that pass the basic checks: a description and a positive amount. */
  predicate Checked(items: seq<Option<PastedItem>>)
  {
    forall i :: 0 <= i < |items| && items[i].Some? ==> items[i].value.description != "" && items[i].value.amount > 0.0
  }

  /** Inserted items: pairwise different entries, none already in the table, each checked. */
  predicate Fresh(ins: seq<PastedItem>, existing: seq<PastedItem>)
  {
    (forall i, j :: 0 <= i < j < |ins| ==> !SameEntry(ins[i], ins[j])) &&
    (forall i :: 0 <= i < |ins| ==> !Recorded(ins[i], existing)) &&
    (forall i :: 0 <= i < |ins| ==> ins[i].description != "" && ins[i].amount > 0.0)
  }

  /**
   * An import never inserts an entry twice, nor one the table already had:
   * the inserted items have pairwise different (date, description, amount)
   * and none of them matches an existing row. Each has a description and a
   * positive amount.
   */
  lemma {:induction false} ImportFresh(items: seq<Option<PastedItem>>, existing: seq<PastedItem>, rejects: PastedItem -> bool)
    requires Checked(items)
    ensures Fresh(ImportItems(items, existing, rejects).inserted, existing)
  {
    if items != [] {
      var init := items[..|items| - 1];
      var item := items[|items| - 1];
      assert Checked(init) by {
        forall i | 0 <= i < |init| && init[i].Some?
          ensures init[i].value.description != "" && init[i].value.amount > 0.0
        {
          assert init[i] == items[i];
        }
      }
      ImportFresh(init, existing, rejects);
      var t := ImportItems(init, existing, rejects);
      if item.Some? && !Recorded(item.value, existing + t.inserted) && !rejects(item.value) {
        FreshSnoc(t.inserted, existing, item.value);
      }
    }
  }

  /** A checked item the table (old rows and inserted ones) does not hold keeps the inserted items fresh. */
  lemma FreshSnoc(ins: seq<PastedItem>, existing: seq<PastedItem>, item: PastedItem)
    requires Fresh(ins, existing) && !Recorded(item, existing + ins)
    requires item.description != "" && item.amount > 0.0
    ensures Fresh(ins + [item], existing)
  {
    var all := existing + ins;
    forall i | 0 <= i < |ins|
      ensures !SameEntry(ins[i], item)
    {
      assert all[|existing| + i] == ins[i];
    }
    assert forall k :: 0 <= k < |existing| ==> all[k] == existing[k];
  }

  /** The items built from pasted rows all pass the basic checks, whichever date reader is used. */
  lemma RowItemsChecked(rows: seq<RawRow>, today: string, utcOffsetMinutes: int)
    requires -1440 < utcOffsetMinutes < 1440
    ensures Checked(RowItems(rows, today, utcOffsetMinutes))
    ensures Checked(RowItemsCorrected(rows, today))
  {
    forall i | 0 <= i < |rows|
      ensures RowItems(rows, today, utcOffsetMinutes)[i] == RowItem(rows[i], today, utcOffsetMinutes)
      ensures RowItemsCorrected(rows, today)[i] == RowItemCorrected(rows[i], today)
    {
      RowItemsAt(rows, today, utcOffsetMinutes, i);
    }
  }

  /** East of Greenwich, and in UTC, the import as written is the corrected import. */
  lemma {:induction false} ImportEastOfUtc(rows: seq<RawRow>, today: string, utcOffsetMinutes: int)
    requires 0 <= utcOffsetMinutes < 1440
    ensures RowItems(rows, today, utcOffsetMinutes) == RowItemsCorrected(rows, today)
  {
    if rows != [] {
      RowItemEastOfUtc(rows[0], today, utcOffsetMinutes);
      ImportEastOfUtc(rows[1..], today, utcOffsetMinutes);
    }
  }

  /** When no row passes the basic checks every row is skipped and nothing is inserted. */
  lemma {:induction false} ImportNothingValid(items: seq<Option<PastedItem>>, existing: seq<PastedItem>, rejects: PastedItem -> bool)
    requires forall i :: 0 <= i < |items| ==> items[i].None?
    ensures ImportItems(items, existing, rejects) == Tally([], 0, 0, |items|, 0)
  {
    if items != [] {
      ImportNothingValid(items[..|items| - 1], existing, rejects);
    }
  }
}
