/**
 * The item helpers of the offline launches page
 * (backups/code-backup/src/pages/Lancamentos.tsx): type normalisation, bank
 * name formatting, installment end month, month labels, the CSV export, the
 * per-unit summaries and the unit filter.
 */
module Lancamentos {
  import opened Wrappers
  import opened Strings
  import opened Numbers
  import opened Calendar
  import opened Csv
  import ImportData
  import Lists

  // ------------------------------------------------------------ normalizeType

  /** `normalizeType`: `receita` and `despesa` are translated, `entrada`/`saida` kept, anything else is `saida`. */
  function NormalizeType(value: string): (r: string)
    ensures r == "entrada" || r == "saida"
  {
    var normalized := Lower(value);
    if normalized == "receita" then "entrada"
    else if normalized == "despesa" then "saida"
    else if normalized == "entrada" || normalized == "saida" then normalized
    else "saida"
  }

  /** Only `receita` and `entrada`, in any case, give `entrada`; every other text gives `saida`. */
  lemma NormalizeTypeCases(value: string)
    ensures NormalizeType(value) == "entrada" <==> Lower(value) == "receita" || Lower(value) == "entrada"
    ensures NormalizeType(value) == "saida" <==> Lower(value) != "receita" && Lower(value) != "entrada"
  {
  }

  /** Normalising twice changes nothing. */
  lemma NormalizeTypeIdempotent(value: string)
    ensures NormalizeType(NormalizeType(value)) == NormalizeType(value)
  {
    if NormalizeType(value) == "entrada" {
      assert Lower("entrada") == "entrada";
    } else {
      assert Lower("saida") == "saida";
    }
  }

  // ----------------------------------------------------------- formatBankName

  /** `replace(/\s+/g, " ")`: every run of whitespace becomes one space. */
  function Collapse(s: string): (r: string)
    decreases |s|
  {
    if s == [] then []
    else if IsSpace(s[0]) then " " + Collapse(TrimStart(s[1..]))
    else [s[0]] + Collapse(s[1..])
  }

  /** No whitespace in `t`. */
  predicate NoSpace(t: string)
  {
    forall i :: 0 <= i < |t| ==> !IsSpace(t[i])
  }

  /** The only whitespace is the plain space, never two in a row. */
  predicate SingleSpaced(r: string)
  {
    (forall i :: 0 <= i < |r| && IsSpace(r[i]) ==> r[i] == ' ') &&
    (forall i :: 0 < i < |r| && r[i] == ' ' ==> r[i - 1] != ' ')
  }

  /** Collapsing leaves single plain spaces and keeps the first and last non-space characters. */
  lemma CollapseSpaced(s: string)
    ensures SingleSpaced(Collapse(s))
    ensures s != [] ==> Collapse(s) != []
    ensures s != [] && !IsSpace(s[0]) ==> Collapse(s)[0] == s[0]
    ensures s != [] && !IsSpace(s[|s| - 1]) ==> Collapse(s)[|Collapse(s)| - 1] == s[|s| - 1]
  {
    CollapseSingle(s);
    CollapseEnds(s);
  }

  lemma {:induction false} CollapseEnds(s: string)
    ensures s != [] ==> Collapse(s) != []
    ensures s != [] && !IsSpace(s[0]) ==> Collapse(s)[0] == s[0]
    ensures s != [] && !IsSpace(s[|s| - 1]) ==> Collapse(s)[|Collapse(s)| - 1] == s[|s| - 1]
    decreases |s|
  {
    if s != [] {
      var r := Collapse(s);
      if IsSpace(s[0]) {
        var t := TrimStart(s[1..]);
        CollapseEnds(t);
        TrimStartSpaces(s[1..]);
        assert r == " " + Collapse(t);
        if !IsSpace(s[|s| - 1]) {
          assert |s| > 1;
          assert s[1..][|s| - 2] == s[|s| - 1];
          assert t != [] && t[|t| - 1] == s[|s| - 1];
        }
      } else {
        CollapseEnds(s[1..]);
        assert r == [s[0]] + Collapse(s[1..]);
        if |s| > 1 && !IsSpace(s[|s| - 1]) {
          assert s[1..][|s| - 2] == s[|s| - 1];
        }
      }
    }
  }

  lemma {:induction false} CollapseSingle(s: string)
    ensures SingleSpaced(Collapse(s))
    decreases |s|
  {
    if s != [] {
      var r := Collapse(s);
      if IsSpace(s[0]) {
        var t := TrimStart(s[1..]);
        CollapseSingle(t);
        CollapseEnds(t);
        assert r == " " + Collapse(t);
        forall i | 0 < i < |r| && r[i] == ' '
          ensures r[i - 1] != ' '
        {
          if i > 1 {
            assert r[i] == Collapse(t)[i - 1] && r[i - 1] == Collapse(t)[i - 2];
          }
        }
      } else {
        CollapseSingle(s[1..]);
        CollapseEnds(s[1..]);
        assert r == [s[0]] + Collapse(s[1..]);
        forall i | 0 < i < |r| && r[i] == ' '
          ensures r[i - 1] != ' '
        {
          if i > 1 {
            assert r[i] == Collapse(s[1..])[i - 1] && r[i - 1] == Collapse(s[1..])[i - 2];
          }
        }
      }
    }
  }

  /** A suffix of a single-spaced text is single-spaced. */
  lemma SingleSpacedSuffix(r: string, j: nat)
    requires SingleSpaced(r) && j <= |r|
    ensures SingleSpaced(r[j..])
  {
    assert forall i :: 0 <= i < |r[j..]| ==> r[j..][i] == r[j + i];
  }

  /** Before the first space of a single-spaced text there is no whitespace. */
  lemma NoSpaceBeforeSpace(r: string, k: nat)
    requires SingleSpaced(r) && k <= |r| && ' ' !in r[..k]
    ensures NoSpace(r[..k])
  {
    forall i | 0 <= i < k ensures !IsSpace(r[..k][i]) {
      assert r[..k][i] == r[i];
    }
  }

  /** Splitting a single-spaced text that neither starts nor ends with a space gives non-empty words without whitespace. */
  lemma {:induction false} SplitSpaced(r: string)
    requires r != [] && SingleSpaced(r) && r[0] != ' ' && r[|r| - 1] != ' '
    ensures forall i :: 0 <= i < |Split(r, ' ')| ==> Split(r, ' ')[i] != [] && NoSpace(Split(r, ' ')[i])
    decreases |r|
  {
    var k := IndexOf(r, ' ');
    if k == |r| {
      assert r[..k] == r;
      NoSpaceBeforeSpace(r, k);
      assert Split(r, ' ') == [r];
    } else {
      var rest := r[k + 1..];
      assert 0 < k < |r| - 1;
      assert r[k + 1] != ' ';
      SingleSpacedSuffix(r, k + 1);
      SplitSpaced(rest);
      NoSpaceBeforeSpace(r, k);
      assert Split(r, ' ') == [r[..k]] + Split(rest, ' ');
    }
  }

  /** `normalized.split(" ")`: the words of the trimmed, collapsed text. */
  function BankTokens(value: string): seq<string>
  {
    Split(Collapse(Trim(value)), ' ')
  }

  /** `/[^0-9A-Za-zÀ-ÖØ-öø-ÿ]/`: a character that is not a digit or a (Latin-1) letter. */
  predicate IsSpecial(c: char)
  {
    !(IsDigit(c) || IsAsciiLetter(c) || ('\U{C0}' <= c <= '\U{D6}') || ('\U{D8}' <= c <= '\U{F6}') || ('\U{F8}' <= c <= '\U{FF}'))
  }

  predicate HasSpecial(token: string)
  {
    exists i :: 0 <= i < |token| && IsSpecial(token[i])
  }

  /** One token: upper-cased when it holds a special character or has at most two characters, capitalised otherwise. */
  function FormatToken(token: string): (r: string)
    ensures |r| == |token|
  {
    if token == "" then ""
    else if HasSpecial(token) then Upper(token)
    else if |token| <= 2 then Upper(token)
    else
      var lower := Lower(token);
      Upper(lower[..1]) + lower[1..]
  }

  /** The formatting of each token. */
  function FormatTokens(tokens: seq<string>): (r: seq<string>)
    ensures |r| == |tokens|
    ensures forall i :: 0 <= i < |tokens| ==> r[i] == FormatToken(tokens[i])
  {
    seq(|tokens|, i requires 0 <= i < |tokens| => FormatToken(tokens[i]))
  }

  /** `formatBankName`: blank gives "", otherwise the formatted words joined by single spaces. */
  function FormatBankName(value: string): string
  {
    if Trim(value) == "" then "" else Join(FormatTokens(BankTokens(value)), " ")
  }

  /** The case of a character decides nothing about whether it is whitespace. */
  lemma CaseKeepsNoSpace(t: string)
    requires NoSpace(t)
    ensures NoSpace(Upper(t)) && NoSpace(Lower(t))
  {
    forall i | 0 <= i < |t| ensures !IsSpace(Upper(t)[i]) && !IsSpace(Lower(t)[i]) {
      SpacePreservedByCase(t[i]);
    }
  }

  /** A formatted word is still a non-empty word without whitespace. */
  lemma FormatTokenWord(token: string)
    requires token != [] && NoSpace(token)
    ensures FormatToken(token) != [] && NoSpace(FormatToken(token))
  {
    CaseKeepsNoSpace(token);
    var lower := Lower(token);
    CaseKeepsNoSpace(lower[..1]);
    if !HasSpecial(token) && |token| > 2 {
      var r := Upper(lower[..1]) + lower[1..];
      forall i | 0 <= i < |r| ensures !IsSpace(r[i]) {
        if i > 0 { assert r[i] == lower[i]; }
      }
    }
  }

  /** The rule for one word: upper case with a special character or at most two characters, else capital first letter and the rest lower. */
  lemma FormatTokenRule(token: string)
    requires token != []
    ensures HasSpecial(token) || |token| <= 2 ==> FormatToken(token) == Upper(token)
    ensures !HasSpecial(token) && |token| > 2 ==>
      FormatToken(token)[0] == UpperChar(LowerChar(token[0])) && FormatToken(token)[1..] == Lower(token[1..])
  {
    if !HasSpecial(token) && |token| > 2 {
      var lower := Lower(token);
      assert FormatToken(token) == Upper(lower[..1]) + lower[1..];
      assert lower[1..] == Lower(token[1..]);
    }
  }

  /**
   * A blank name gives "", any other is the formatted words of the input,
   * each non-empty and without whitespace, separated by single spaces:
   * splitting the result at spaces gives those words back.
   */
  lemma FormatBankNameShape(value: string)
    ensures FormatBankName(value) == "" <==> IsBlank(value)
    ensures !IsBlank(value) ==>
      var words := FormatTokens(BankTokens(value));
      |words| >= 1 && Split(FormatBankName(value), ' ') == words &&
      (forall i :: 0 <= i < |words| ==> words[i] != [] && NoSpace(words[i]))
    ensures !IsBlank(value) ==> Join(BankTokens(value), " ") == Collapse(Trim(value))
  {
    TrimEmpty(value);
    if !IsBlank(value) {
      var t := Trim(value);
      CollapseSpaced(t);
      var c := Collapse(t);
      assert c[0] == t[0] && c[|c| - 1] == t[|t| - 1];
      SplitSpaced(c);
      var tokens := BankTokens(value);
      var words := FormatTokens(tokens);
      forall i | 0 <= i < |words| ensures words[i] != [] && NoSpace(words[i]) {
        FormatTokenWord(tokens[i]);
      }
      assert forall i :: 0 <= i < |words| ==> ' ' !in words[i] by {
        forall i | 0 <= i < |words| ensures ' ' !in words[i] {
          assert forall k :: 0 <= k < |words[i]| ==> words[i][k] != ' ';
        }
      }
      SplitJoin(words, ' ');
      JoinSplit(c, ' ');
      assert FormatBankName(value) == Join(words, " ");
    }
  }

  // -------------------------------------------------------- calculateEndMonth

  /** Truncation toward zero, as JavaScript's date constructor applies to its numbers. */
  function Trunc(x: real): int
  {
    if x >= 0.0 then x.Floor else -((-x).Floor)
  }

  /** `new Date(year, …)` reads a year from 0 to 99 as 1900 to 1999. */
  function CalendarYear(y: int): int
  {
    if 0 <= y <= 99 then 1900 + y else y
  }

  /**
   * `calculateEndMonth`: "" without a start month, without a positive count,
   * with a zero or non-numeric year or a non-numeric month; otherwise the
   * month `total - 1` months after the start, as `YYYY-MM`.
   */
  function CalculateEndMonth(startMonth: string, totalInstallments: int): (r: string)
  {
    if startMonth == "" || totalInstallments <= 0 then ""
    else
      var parts := Split(startMonth, '-');
      var year := NumberOf(parts[0]);
      var month := if |parts| >= 2 then NumberOf(parts[1]) else None;
      if year.None? || year.value == 0.0 || month.None? then ""
      else EndMonthFrom(year.value, month.value, totalInstallments)
  }

  /** `new Date(year, month - 1, 1)` moved on by `total - 1` months, as `YYYY-MM`. */
  function EndMonthFrom(year: real, month: real, totalInstallments: int): string
  {
    var start := 12 * CalendarYear(Trunc(year)) + Trunc(month - 1.0);
    MonthText(FromIndex(start + totalInstallments - 1))
  }

  /** A text of digits reads as the number they write. */
  lemma NumberOfDigits(s: string)
    requires s != [] && AllDigits(s)
    ensures NumberOf(s) == Some(DigitsValue(s) as real)
  {
    LeadingDigitsAll(s);
    assert !IsSpace(s[0]) && !IsSpace(s[|s| - 1]);
    TrimUnchanged(s);
    assert s[..|s|] == s;
    assert UnsignedPrefix(s) == Some((DecimalValue(s, ""), |s|));
    assert SignedPrefix(s) == UnsignedPrefix(s);
  }

  /** `YYYY-MM` splits at its dash into the year and the two month digits. */
  lemma MonthTextParts(ym: YearMonth)
    requires ym.year >= 0 && ValidMonth(ym)
    ensures Split(MonthText(ym), '-') == [NatToString(ym.year), Pad2(ym.month)]
  {
    var y, m := NatToString(ym.year), Pad2(ym.month);
    assert '-' !in y by { assert forall i :: 0 <= i < |y| ==> IsDigit(y[i]); }
    assert '-' !in m by { assert forall i :: 0 <= i < |m| ==> IsDigit(m[i]); }
    assert MonthText(ym) == Join([y, m], "-");
    SplitJoin([y, m], '-');
  }

  /** A start month whose parts read as numbers ends `n - 1` months after the month they write. */
  lemma EndMonthOfParts(startMonth: string, n: int, year: real, month: real)
    requires startMonth != "" && n > 0
    requires |Split(startMonth, '-')| >= 2
    requires NumberOf(Split(startMonth, '-')[0]) == Some(year) && year != 0.0
    requires NumberOf(Split(startMonth, '-')[1]) == Some(month)
    ensures CalculateEndMonth(startMonth, n) == EndMonthFrom(year, month, n)
  {
  }

  /** With whole numbers (a year from 100 on) the date arithmetic is plain month arithmetic. */
  lemma EndMonthFromWhole(ym: YearMonth, n: int)
    requires ym.year >= 100 && ValidMonth(ym)
    ensures EndMonthFrom(ym.year as real, ym.month as real, n) == MonthText(AddMonths(ym, n - 1))
  {
    assert Trunc(ym.year as real) == ym.year;
    assert Trunc(ym.month as real - 1.0) == ym.month - 1;
    var start := 12 * CalendarYear(Trunc(ym.year as real)) + Trunc(ym.month as real - 1.0);
    assert start == MonthIndex(ym);
    assert FromIndex(start + n - 1) == AddMonths(ym, n - 1);
  }

  /**
   * From a start month `YYYY-MM` (a year from 100 on), `n > 0` installments
   * end `n - 1` months later; one installment ends in the start month.
   */
  lemma EndMonthSpec(ym: YearMonth, n: int)
    requires ym.year >= 100 && ValidMonth(ym) && n > 0
    ensures CalculateEndMonth(MonthText(ym), n) == MonthText(AddMonths(ym, n - 1))
    ensures n == 1 ==> CalculateEndMonth(MonthText(ym), n) == MonthText(ym)
  {
    MonthTextParts(ym);
    NumberOfDigits(NatToString(ym.year));
    NumberOfDigits(Pad2(ym.month));
    EndMonthOfParts(MonthText(ym), n, ym.year as real, ym.month as real);
    EndMonthFromWhole(ym, n);
    if n == 1 {
      IndexInjective(AddMonths(ym, 0), ym);
    }
  }

  /** Without a start month or a positive count there is no end month. */
  lemma EndMonthNone(startMonth: string, n: int)
    requires startMonth == "" || n <= 0
    ensures CalculateEndMonth(startMonth, n) == ""
  {
  }

  // ---------------------------------------------------------- formatMonthLabel

  /** `formatMonthLabel`: `MM/YYYY` from `YYYY-MM[-DD]`, "" when the text or either part is missing. */
  function FormatMonthLabel(dateString: string): string
  {
    if dateString == "" then ""
    else
      var parts := Split(dateString, '-');
      if parts[0] == "" || |parts| < 2 || parts[1] == "" then ""
      else PadStart2(parts[1]) + "/" + parts[0]
  }

  /** A month or a date is labelled month first: `YYYY-MM` and `YYYY-MM-DD` both give `MM/YYYY`. */
  lemma MonthLabelSpec(year: string, month: string, day: string)
    requires year != [] && |month| == 2 && '-' !in year && '-' !in month && '-' !in day
    ensures FormatMonthLabel(year + "-" + month) == month + "/" + year
    ensures FormatMonthLabel(year + "-" + month + "-" + day) == month + "/" + year
  {
    assert year + "-" + month == Join([year, month], "-");
    SplitJoin([year, month], '-');
    SplitThree(year, month, day, '-');
    assert year + "-" + month + "-" + day == year + ['-'] + month + ['-'] + day;
  }

  // ------------------------------------------------------------------ buildCsv

  /** A financial item as the page holds it. */
  datatype Item = Item(
    date: string, kind: string, description: string, amount: real, category: string,
    bank: string, source: string, isRecurring: bool, isInstallment: bool,
    totalInstallments: Option<int>, businessUnitId: Option<string>,
    installmentStartMonth: string, installmentEndMonth: string)

  const CsvHeaders: seq<string> := ["date", "type", "description", "amount", "category", "bank", "source",
    "is_recurring", "is_installment", "total_installments", "business_unit", "installment_start_month",
    "installment_end_month"]

  /** `"true"` or `"false"`. */
  function BoolText(b: bool): string
  {
    if b then "true" else "false"
  }

  /** The first seven characters of a month or date (`YYYY-MM`), "" when there is none. */
  function MonthPart(s: string): string
  {
    if s == "" then "" else if |s| <= 7 then s else s[..7]
  }

  /** The unit's name for the export: "Sem unidade" without a unit or a named unit. */
  function UnitName(unitId: Option<string>, unitNames: map<string, string>): string
  {
    match unitId
    case None => "Sem unidade"
    case Some(id) =>
      if id == "" then "Sem unidade"
      else if id in unitNames && unitNames[id] != "" then unitNames[id]
      else "Sem unidade"
  }

  /** The values of one item's row, in header order, before quoting. */
  function RowValues(item: Item, unitNames: map<string, string>, toFixed2: real -> string): (r: seq<string>)
    ensures |r| == |CsvHeaders|
  {
    [item.date, NormalizeType(item.kind), item.description, toFixed2(item.amount), item.category,
     FormatBankName(item.bank), item.source, BoolText(item.isRecurring), BoolText(item.isInstallment),
     match item.totalInstallments case None => "" case Some(n) => IntToString(n),
     UnitName(item.businessUnitId, unitNames), MonthPart(item.installmentStartMonth), MonthPart(item.installmentEndMonth)]
  }

  /** The written fields: the text columns quoted with inner quotes doubled, the others bare. */
  function RowFields(item: Item, unitNames: map<string, string>, toFixed2: real -> string): (r: seq<string>)
    ensures |r| == |CsvHeaders|
  {
    var v := RowValues(item, unitNames, toFixed2);
    [v[0], v[1], Quote(v[2]), v[3], Quote(v[4]), Quote(v[5]), Quote(v[6]), v[7], v[8], v[9], Quote(v[10]), v[11], v[12]]
  }

  function RowLine(item: Item, unitNames: map<string, string>, toFixed2: real -> string): string
  {
    Join(RowFields(item, unitNames, toFixed2), ",")
  }

  function RowLines(items: seq<Item>, unitNames: map<string, string>, toFixed2: real -> string): (r: seq<string>)
    ensures |r| == |items| && forall k :: 0 <= k < |items| ==> r[k] == RowLine(items[k], unitNames, toFixed2)
  {
    seq(|items|, k requires 0 <= k < |items| => RowLine(items[k], unitNames, toFixed2))
  }

  /** `buildCsv`: the header line, then one line per item, joined by line breaks. */
  function BuildCsv(items: seq<Item>, unitNames: map<string, string>, toFixed2: real -> string): string
  {
    Join([Join(CsvHeaders, ",")] + RowLines(items, unitNames, toFixed2), "\n")
  }

  /** The columns written bare hold neither comma nor quote, and no value holds a line break. */
  predicate PlainRow(item: Item, unitNames: map<string, string>, toFixed2: real -> string)
  {
    var v := RowValues(item, unitNames, toFixed2);
    (forall i :: 0 <= i < |v| ==> '\n' !in v[i]) &&
    (forall i :: i in {0, 1, 3, 7, 8, 9, 11, 12} ==> ',' !in v[i] && '"' !in v[i])
  }

  /** Every field writes its value: the bare ones as they are, the text ones quoted. */
  lemma RowFieldsEncode(item: Item, unitNames: map<string, string>, toFixed2: real -> string)
    requires PlainRow(item, unitNames, toFixed2)
    ensures forall i :: 0 <= i < |CsvHeaders| ==>
      EncodesField(RowFields(item, unitNames, toFixed2)[i], RowValues(item, unitNames, toFixed2)[i])
    ensures forall i :: 0 <= i < |CsvHeaders| ==> '\n' !in RowFields(item, unitNames, toFixed2)[i]
  {
    var v := RowValues(item, unitNames, toFixed2);
    var f := RowFields(item, unitNames, toFixed2);
    assert f == [v[0], v[1], Quote(v[2]), v[3], Quote(v[4]), Quote(v[5]), Quote(v[6]), v[7], v[8], v[9], Quote(v[10]), v[11], v[12]];
    forall i | 0 <= i < |CsvHeaders| ensures EncodesField(f[i], v[i]) && '\n' !in f[i] {
      assert '\n' !in v[i];
      if i == 2 || i == 4 || i == 5 || i == 6 || i == 10 {
        QuoteKeepsAbsent(v[i], '\n');
      } else {
        assert i in {0, 1, 3, 7, 8, 9, 11, 12};
      }
    }
  }

  /** One item's line holds no line break and reads back as the item's values, trimmed. */
  lemma RowLineReadBack(item: Item, unitNames: map<string, string>, toFixed2: real -> string)
    requires PlainRow(item, unitNames, toFixed2)
    ensures '\n' !in RowLine(item, unitNames, toFixed2)
    ensures ImportData.Fields(RowLine(item, unitNames, toFixed2)) == TrimEach(RowValues(item, unitNames, toFixed2))
  {
    RowLineSingle(item, unitNames, toFixed2);
    RowLineFields(item, unitNames, toFixed2);
  }

  lemma RowLineSingle(item: Item, unitNames: map<string, string>, toFixed2: real -> string)
    requires PlainRow(item, unitNames, toFixed2)
    ensures '\n' !in RowLine(item, unitNames, toFixed2)
  {
    RowFieldsEncode(item, unitNames, toFixed2);
    JoinNoChar(RowFields(item, unitNames, toFixed2), ",", '\n');
  }

  lemma RowLineFields(item: Item, unitNames: map<string, string>, toFixed2: real -> string)
    requires PlainRow(item, unitNames, toFixed2)
    ensures ImportData.Fields(RowLine(item, unitNames, toFixed2)) == TrimEach(RowValues(item, unitNames, toFixed2))
  {
    var fields := RowFields(item, unitNames, toFixed2);
    RowFieldsEncode(item, unitNames, toFixed2);
    ImportData.ParseJoined(fields, RowValues(item, unitNames, toFixed2), "");
    assert Join(fields, ",") + "" == Join(fields, ",");
  }

  /** Every item line holds no line break and reads back as its item's values, trimmed. */
  lemma RowLinesReadBack(items: seq<Item>, unitNames: map<string, string>, toFixed2: real -> string)
    requires forall k :: 0 <= k < |items| ==> PlainRow(items[k], unitNames, toFixed2)
    ensures forall k :: 0 <= k < |items| ==> '\n' !in RowLines(items, unitNames, toFixed2)[k]
    ensures forall k :: 0 <= k < |items| ==>
      ImportData.Fields(RowLines(items, unitNames, toFixed2)[k]) == TrimEach(RowValues(items[k], unitNames, toFixed2))
  {
    forall k | 0 <= k < |items|
      ensures '\n' !in RowLines(items, unitNames, toFixed2)[k]
      ensures ImportData.Fields(RowLines(items, unitNames, toFixed2)[k]) == TrimEach(RowValues(items[k], unitNames, toFixed2))
    {
      RowLineReadBack(items[k], unitNames, toFixed2);
    }
  }

  /** The header line holds no line break. */
  lemma HeaderLineSingle()
    ensures '\n' !in Join(CsvHeaders, ",")
  {
    JoinNoChar(CsvHeaders, ",", '\n');
  }

  /** Lines without line breaks, joined by line breaks, split back into the same lines. */
  lemma SplitLines(header: string, rows: seq<string>)
    requires '\n' !in header && forall k :: 0 <= k < |rows| ==> '\n' !in rows[k]
    ensures Split(Join([header] + rows, "\n"), '\n') == [header] + rows
  {
    var lines := [header] + rows;
    forall i | 0 <= i < |lines| ensures '\n' !in lines[i] {
      if i > 0 { assert lines[i] == rows[i - 1]; }
    }
    SplitJoin(lines, '\n');
  }

  /**
   * The export read back line by line with the application's CSV line
   * reader: one header line and one line per item, each giving back the
   * item's values, trimmed, the doubled quotes undone.
   */
  lemma BuildCsvReadBack(items: seq<Item>, unitNames: map<string, string>, toFixed2: real -> string)
    requires forall k :: 0 <= k < |items| ==> PlainRow(items[k], unitNames, toFixed2)
    ensures |Split(BuildCsv(items, unitNames, toFixed2), '\n')| == |items| + 1
    ensures Split(BuildCsv(items, unitNames, toFixed2), '\n')[0] == Join(CsvHeaders, ",")
    ensures forall k :: 0 <= k < |items| ==>
      ImportData.Fields(Split(BuildCsv(items, unitNames, toFixed2), '\n')[k + 1]) == TrimEach(RowValues(items[k], unitNames, toFixed2))
  {
    HeaderLineSingle();
    ReadBackLines(Join(CsvHeaders, ","), items, unitNames, toFixed2);
  }

  /** A header line and the item lines, joined by line breaks, split back into the same lines. */
  lemma ReadBackLines(header: string, items: seq<Item>, unitNames: map<string, string>, toFixed2: real -> string)
    requires '\n' !in header
    requires forall k :: 0 <= k < |items| ==> PlainRow(items[k], unitNames, toFixed2)
    ensures var lines := Split(Join([header] + RowLines(items, unitNames, toFixed2), "\n"), '\n');
      |lines| == |items| + 1 && lines[0] == header &&
      forall k :: 0 <= k < |items| ==> ImportData.Fields(lines[k + 1]) == TrimEach(RowValues(items[k], unitNames, toFixed2))
  {
    var rows := RowLines(items, unitNames, toFixed2);
    RowLinesReadBack(items, unitNames, toFixed2);
    SplitLines(header, rows);
    var lines := Split(Join([header] + rows, "\n"), '\n');
    forall k | 0 <= k < |items|
      ensures ImportData.Fields(lines[k + 1]) == TrimEach(RowValues(items[k], unitNames, toFixed2))
    {
      assert lines[k + 1] == rows[k];
    }
  }

  /** Each quoted column doubles every quote: the field holds two quotes per quote of the value, plus the enclosing pair. */
  lemma QuotedCount(v: string)
    ensures Count(Quote(v), '"') == 2 * Count(v, '"') + 2
  {
    ReplaceAllCount(v);
    CountConcat("\"" + ReplaceAll(v, '"', "\"\""), "\"", '"');
    CountConcat("\"", ReplaceAll(v, '"', "\"\""), '"');
  }

  lemma {:induction false} ReplaceAllCount(v: string)
    ensures Count(ReplaceAll(v, '"', "\"\""), '"') == 2 * Count(v, '"')
  {
    if v != [] {
      ReplaceAllCount(v[1..]);
      var head := if v[0] == '"' then "\"\"" else [v[0]];
      assert ReplaceAll(v, '"', "\"\"") == head + ReplaceAll(v[1..], '"', "\"\"");
      CountConcat(head, ReplaceAll(v[1..], '"', "\"\""), '"');
    }
  }

  // ------------------------------------------------------------ unit summaries

  /** A business unit. */
  datatype Unit = Unit(id: string, name: string)

  /** The totals of one unit (or of "all", or of "none"). */
  datatype Summary = Summary(id: string, name: string, entradas: real, saidas: real, saldo: real)

  /** The JavaScript `Map` of summaries: the values by id and the ids in insertion order. */
  datatype SummaryMap = SummaryMap(order: seq<string>, byId: map<string, Summary>)

  /** The order lists exactly the keys, and each summary is stored under its own id. */
  ghost predicate ValidMap(m: SummaryMap)
  {
    (forall k :: k in m.byId ==> k in m.order) &&
    (forall i :: 0 <= i < |m.order| ==> m.order[i] in m.byId) &&
    (forall k :: k in m.byId ==> m.byId[k].id == k)
  }

  /** The incomes stored under a key, zero while the key is absent. */
  function EntradasIn(m: SummaryMap, key: string): real
  {
    if key in m.byId then m.byId[key].entradas else 0.0
  }

  /** The expenses stored under a key, zero while the key is absent. */
  function SaidasIn(m: SummaryMap, key: string): real
  {
    if key in m.byId then m.byId[key].saidas else 0.0
  }

  /** `ensure(id, name)`: a zero summary is added under a new id; an existing one is kept. */
  function Ensure(m: SummaryMap, id: string, name: string): (r: SummaryMap)
    ensures id in r.byId
  {
    if id in m.byId then m
    else SummaryMap(m.order + [id], m.byId[id := Summary(id, name, 0.0, 0.0, 0.0)])
  }

  /** `ensure` keeps the map valid, adds only its id, and adds nothing to any total. */
  lemma EnsureSpec(m: SummaryMap, id: string, name: string)
    requires ValidMap(m)
    ensures ValidMap(Ensure(m, id, name))
    ensures Ensure(m, id, name).byId.Keys == m.byId.Keys + {id}
    ensures forall k :: EntradasIn(Ensure(m, id, name), k) == EntradasIn(m, k) && SaidasIn(Ensure(m, id, name), k) == SaidasIn(m, k)
    ensures id !in m.byId ==> Ensure(m, id, name).byId[id].name == name
  {
    if id !in m.byId {
      var r := Ensure(m, id, name);
      forall i | 0 <= i < |r.order| ensures r.order[i] in r.byId {
        if i < |m.order| {
          assert r.order[i] == m.order[i];
        }
      }
    }
  }

  /** `summary.entradas += amount` for an income, else `summary.saidas += amount`. */
  function AddTo(s: Summary, entrada: bool, amount: real): Summary
  {
    if entrada then s.(entradas := s.entradas + amount) else s.(saidas := s.saidas + amount)
  }

  /** Adding to the summary stored under `id`. */
  function AddAt(m: SummaryMap, id: string, entrada: bool, amount: real): SummaryMap
    requires id in m.byId
  {
    m.(byId := m.byId[id := AddTo(m.byId[id], entrada, amount)])
  }

  /** `ensure` followed by the addition: only the key `id` changes, by `amount` on one side. */
  lemma StepSpec(m: SummaryMap, id: string, name: string, entrada: bool, amount: real)
    requires ValidMap(m)
    ensures ValidMap(AddAt(Ensure(m, id, name), id, entrada, amount))
    ensures AddAt(Ensure(m, id, name), id, entrada, amount).byId.Keys == m.byId.Keys + {id}
    ensures forall k ::
      EntradasIn(AddAt(Ensure(m, id, name), id, entrada, amount), k) == EntradasIn(m, k) + (if k == id && entrada then amount else 0.0) &&
      SaidasIn(AddAt(Ensure(m, id, name), id, entrada, amount), k) == SaidasIn(m, k) + (if k == id && !entrada then amount else 0.0)
  {
    EnsureSpec(m, id, name);
  }

  /** `item.business_unit_id ?? "none"`. */
  function Bucket(item: Item): string
  {
    match item.businessUnitId
    case None => "none"
    case Some(id) => id
  }

  /** The name a bucket first seen through an item gets. */
  function BucketName(unitId: string, unitNames: map<string, string>): string
  {
    if unitId == "none" then "Sem unidade"
    else if unitId in unitNames && unitNames[unitId] != "" then unitNames[unitId]
    else "Sem unidade"
  }

  /** An income (`entrada`) after normalisation. */
  predicate IsEntrada(item: Item)
  {
    NormalizeType(item.kind) == "entrada"
  }

  /** One item: its amount is added to "all" and then to its own bucket. */
  function AddItem(m: SummaryMap, item: Item, unitNames: map<string, string>): SummaryMap
  {
    var entrada := IsEntrada(item);
    var unitId := Bucket(item);
    var global := AddAt(Ensure(m, "all", "Todos"), "all", entrada, item.amount);
    AddAt(Ensure(global, unitId, BucketName(unitId, unitNames)), unitId, entrada, item.amount)
  }

  /** What an item adds to the incomes of `key`: its amount once toward "all" and once toward its bucket. */
  function EntradaOf(item: Item, key: string): real
  {
    if IsEntrada(item) then (if key == "all" then item.amount else 0.0) + (if Bucket(item) == key then item.amount else 0.0)
    else 0.0
  }

  /** What an item adds to the expenses of `key`, counted the same way. */
  function SaidaOf(item: Item, key: string): real
  {
    if IsEntrada(item) then 0.0
    else (if key == "all" then item.amount else 0.0) + (if Bucket(item) == key then item.amount else 0.0)
  }

  /** The incomes the items bring to `key`. */
  function EntradasFor(items: seq<Item>, key: string): real
  {
    if items == [] then 0.0 else EntradasFor(items[..|items| - 1], key) + EntradaOf(items[|items| - 1], key)
  }

  /** The expenses the items bring to `key`. */
  function SaidasFor(items: seq<Item>, key: string): real
  {
    if items == [] then 0.0 else SaidasFor(items[..|items| - 1], key) + SaidaOf(items[|items| - 1], key)
  }

  /** One item creates only "all" and its bucket and adds its share to every key. */
  lemma AddItemSpec(m: SummaryMap, item: Item, unitNames: map<string, string>)
    requires ValidMap(m)
    ensures ValidMap(AddItem(m, item, unitNames))
    ensures AddItem(m, item, unitNames).byId.Keys == m.byId.Keys + {"all", Bucket(item)}
    ensures forall k ::
      EntradasIn(AddItem(m, item, unitNames), k) == EntradasIn(m, k) + EntradaOf(item, k) &&
      SaidasIn(AddItem(m, item, unitNames), k) == SaidasIn(m, k) + SaidaOf(item, k)
  {
    AddItemValid(m, item, unitNames);
    AddItemKeys(m, item, unitNames);
    AddItemSums(m, item, unitNames);
  }

  /** One item keeps the map valid. */
  lemma AddItemValid(m: SummaryMap, item: Item, unitNames: map<string, string>)
    requires ValidMap(m)
    ensures ValidMap(AddItem(m, item, unitNames))
  {
    var entrada := IsEntrada(item);
    var unitId := Bucket(item);
    var global := AddAt(Ensure(m, "all", "Todos"), "all", entrada, item.amount);
    assert AddItem(m, item, unitNames) == AddAt(Ensure(global, unitId, BucketName(unitId, unitNames)), unitId, entrada, item.amount);
    StepSpec(m, "all", "Todos", entrada, item.amount);
    StepSpec(global, unitId, BucketName(unitId, unitNames), entrada, item.amount);
  }

  /** One item adds its share to every key. */
  lemma AddItemSums(m: SummaryMap, item: Item, unitNames: map<string, string>)
    ensures forall k ::
      EntradasIn(AddItem(m, item, unitNames), k) == EntradasIn(m, k) + EntradaOf(item, k) &&
      SaidasIn(AddItem(m, item, unitNames), k) == SaidasIn(m, k) + SaidaOf(item, k)
  {
    var entrada := IsEntrada(item);
    var unitId := Bucket(item);
    var global := AddAt(Ensure(m, "all", "Todos"), "all", entrada, item.amount);
    var next := AddAt(Ensure(global, unitId, BucketName(unitId, unitNames)), unitId, entrada, item.amount);
    assert AddItem(m, item, unitNames) == next;
    StepSums(m, "all", "Todos", entrada, item.amount);
    StepSums(global, unitId, BucketName(unitId, unitNames), entrada, item.amount);
  }

  /** `ensure` followed by the addition changes only the totals of `id`. */
  lemma StepSums(m: SummaryMap, id: string, name: string, entrada: bool, amount: real)
    ensures forall k ::
      EntradasIn(AddAt(Ensure(m, id, name), id, entrada, amount), k) == EntradasIn(m, k) + (if k == id && entrada then amount else 0.0) &&
      SaidasIn(AddAt(Ensure(m, id, name), id, entrada, amount), k) == SaidasIn(m, k) + (if k == id && !entrada then amount else 0.0)
  {
  }

  /** The map after the given items, in order. */
  function Accumulate(m: SummaryMap, items: seq<Item>, unitNames: map<string, string>): SummaryMap
  {
    if items == [] then m
    else AddItem(Accumulate(m, items[..|items| - 1], unitNames), items[|items| - 1], unitNames)
  }

  /**
   * After the items, every key holds its starting totals plus, for each
   * item, its amount once if the key is "all" and once if it is the item's
   * bucket; the keys are the starting ones plus "all" and the buckets.
   */
  lemma {:induction false} AccumulateSpec(m: SummaryMap, items: seq<Item>, unitNames: map<string, string>)
    requires ValidMap(m)
    ensures ValidMap(Accumulate(m, items, unitNames))
    ensures m.byId.Keys <= Accumulate(m, items, unitNames).byId.Keys
    ensures forall k ::
      EntradasIn(Accumulate(m, items, unitNames), k) == EntradasIn(m, k) + EntradasFor(items, k) &&
      SaidasIn(Accumulate(m, items, unitNames), k) == SaidasIn(m, k) + SaidasFor(items, k)
  {
    if items != [] {
      var n := |items| - 1;
      AccumulateSpec(m, items[..n], unitNames);
      AddItemSpec(Accumulate(m, items[..n], unitNames), items[n], unitNames);
    }
  }

  /** Every item's bucket is a key once the items are added. */
  lemma AccumulateBuckets(m: SummaryMap, items: seq<Item>, unitNames: map<string, string>)
    ensures "all" in m.byId ==> "all" in Accumulate(m, items, unitNames).byId
    ensures forall i :: 0 <= i < |items| ==> Bucket(items[i]) in Accumulate(m, items, unitNames).byId
  {
    AccumulateKeepsKeys(m, items, unitNames);
    AccumulateHasBuckets(m, items, unitNames);
  }

  /** Adding items removes no key. */
  lemma {:induction false} AccumulateKeepsKeys(m: SummaryMap, items: seq<Item>, unitNames: map<string, string>)
    ensures m.byId.Keys <= Accumulate(m, items, unitNames).byId.Keys
  {
    if items != [] {
      var n := |items| - 1;
      var prev := Accumulate(m, items[..n], unitNames);
      assert Accumulate(m, items, unitNames) == AddItem(prev, items[n], unitNames);
      AccumulateKeepsKeys(m, items[..n], unitNames);
      AddItemKeys(prev, items[n], unitNames);
    }
  }

  /** After the items, each item's bucket is a key. */
  lemma {:induction false} AccumulateHasBuckets(m: SummaryMap, items: seq<Item>, unitNames: map<string, string>)
    ensures forall i :: 0 <= i < |items| ==> Bucket(items[i]) in Accumulate(m, items, unitNames).byId
  {
    if items != [] {
      var n := |items| - 1;
      var prev := Accumulate(m, items[..n], unitNames);
      var next := AddItem(prev, items[n], unitNames);
      assert Accumulate(m, items, unitNames) == next;
      AccumulateHasBuckets(m, items[..n], unitNames);
      AddItemKeys(prev, items[n], unitNames);
      forall i | 0 <= i < |items| ensures Bucket(items[i]) in next.byId {
        if i < n {
          assert items[..n][i] == items[i];
          assert Bucket(items[i]) in prev.byId;
        } else {
          assert Bucket(items[n]) in next.byId.Keys;
        }
      }
    }
  }

  /** One item adds the keys "all" and its bucket and removes none. */
  lemma AddItemKeys(m: SummaryMap, item: Item, unitNames: map<string, string>)
    ensures AddItem(m, item, unitNames).byId.Keys == m.byId.Keys + {"all", Bucket(item)}
  {
  }

  /** The map after `ensure("all")` and the units, in order. */
  function Seeded(units: seq<Unit>): SummaryMap
  {
    if units == [] then Ensure(SummaryMap([], map[]), "all", "Todos")
    else Ensure(Seeded(units[..|units| - 1]), units[|units| - 1].id, units[|units| - 1].name)
  }

  /** The map before any item: "all", the units in order, then "none". */
  function Start(units: seq<Unit>): SummaryMap
  {
    Ensure(Seeded(units), "none", "Sem unidade")
  }

  lemma {:induction false} SeededSpec(units: seq<Unit>)
    ensures ValidMap(Seeded(units)) && "all" in Seeded(units).byId
    ensures forall i :: 0 <= i < |units| ==> units[i].id in Seeded(units).byId
    ensures forall k :: EntradasIn(Seeded(units), k) == 0.0 && SaidasIn(Seeded(units), k) == 0.0
  {
    if units == [] {
      EnsureSpec(SummaryMap([], map[]), "all", "Todos");
    } else {
      var n := |units| - 1;
      SeededSpec(units[..n]);
      EnsureSpec(Seeded(units[..n]), units[n].id, units[n].name);
      assert forall i :: 0 <= i < n ==> units[..n][i] == units[i];
    }
  }

  /** The starting map is valid, holds "all", every unit and "none", and every total in it is zero. */
  lemma StartSpec(units: seq<Unit>)
    ensures ValidMap(Start(units)) && "all" in Start(units).byId && "none" in Start(units).byId
    ensures forall i :: 0 <= i < |units| ==> units[i].id in Start(units).byId
    ensures forall k :: EntradasIn(Start(units), k) == 0.0 && SaidasIn(Start(units), k) == 0.0
  {
    SeededSpec(units);
    EnsureSpec(Seeded(units), "none", "Sem unidade");
  }

  /** `summary.saldo = summary.entradas - summary.saidas` for every summary. */
  function WithSaldo(byId: map<string, Summary>): (r: map<string, Summary>)
  {
    map k | k in byId :: byId[k].(saldo := byId[k].entradas - byId[k].saidas)
  }

  /** `Array.from(summaryMap.values())`: the summaries in insertion order. */
  function Values(order: seq<string>, byId: map<string, Summary>): seq<Summary>
  {
    if order == [] then []
    else Values(order[..|order| - 1], byId) + (if order[|order| - 1] in byId then [byId[order[|order| - 1]]] else [])
  }

  /** The values are exactly the summaries of the listed keys. */
  lemma {:induction false} ValuesMembers(order: seq<string>, byId: map<string, Summary>)
    requires forall k :: k in byId ==> byId[k].id == k
    ensures forall x :: x in Values(order, byId) ==> x.id in byId && byId[x.id] == x
    ensures forall i :: 0 <= i < |order| && order[i] in byId ==> byId[order[i]] in Values(order, byId)
  {
    if order != [] {
      var n := |order| - 1;
      ValuesMembers(order[..n], byId);
      assert forall i :: 0 <= i < n ==> order[..n][i] == order[i];
    }
  }

  /** The place of a summary in the list: "all" first, "none" last, the units between. */
  function Rank(s: Summary): nat
  {
    if s.id == "all" then 0 else if s.id == "none" then 2 else 1
  }

  /** The comparator is negative: "all" before everything, "none" after, units by name. */
  predicate Precedes(a: Summary, b: Summary, nameCmp: (string, string) -> int)
  {
    if a.id == "all" then true
    else if b.id == "all" then false
    else if a.id == "none" then false
    else if b.id == "none" then true
    else nameCmp(a.name, b.name) < 0
  }

  /** `x` placed before the first element it precedes. */
  function Insert(x: Summary, xs: seq<Summary>, nameCmp: (string, string) -> int): (r: seq<Summary>)
    ensures multiset(r) == multiset(xs) + multiset{x}
  {
    if xs == [] then [x]
    else if Precedes(x, xs[0], nameCmp) then [x] + xs
    else
      assert xs == [xs[0]] + xs[1..];
      [xs[0]] + Insert(x, xs[1..], nameCmp)
  }

  /** The stable sort of the list under the comparator (insertion sort). */
  function SortSummaries(xs: seq<Summary>, nameCmp: (string, string) -> int): (r: seq<Summary>)
    ensures multiset(r) == multiset(xs)
  {
    if xs == [] then []
    else
      var n := |xs| - 1;
      assert xs == xs[..n] + [xs[n]];
      Insert(xs[n], SortSummaries(xs[..n], nameCmp), nameCmp)
  }

  /** "all" summaries before units, units before "none". */
  ghost predicate RankSorted(r: seq<Summary>)
  {
    forall i, j :: 0 <= i < j < |r| ==> Rank(r[i]) <= Rank(r[j])
  }

  lemma {:induction false} InsertSorted(x: Summary, xs: seq<Summary>, nameCmp: (string, string) -> int)
    requires RankSorted(xs)
    ensures RankSorted(Insert(x, xs, nameCmp))
  {
    if xs != [] && !Precedes(x, xs[0], nameCmp) {
      var rest := Insert(x, xs[1..], nameCmp);
      assert Insert(x, xs, nameCmp) == [xs[0]] + rest;
      InsertSorted(x, xs[1..], nameCmp);
      forall j | 0 <= j < |xs[1..]| ensures Rank(xs[0]) <= Rank(xs[1..][j]) {
        assert xs[1..][j] == xs[j + 1];
      }
      InsertBound(x, xs[1..], nameCmp, Rank(xs[0]));
    }
  }

  /** Inserting an element no lower than a bound into a list no lower than it gives a list no lower than it. */
  lemma {:induction false} InsertBound(x: Summary, xs: seq<Summary>, nameCmp: (string, string) -> int, b: nat)
    requires b <= Rank(x) && forall j :: 0 <= j < |xs| ==> b <= Rank(xs[j])
    ensures forall j :: 0 <= j < |Insert(x, xs, nameCmp)| ==> b <= Rank(Insert(x, xs, nameCmp)[j])
  {
    if xs != [] && !Precedes(x, xs[0], nameCmp) {
      var rest := Insert(x, xs[1..], nameCmp);
      assert Insert(x, xs, nameCmp) == [xs[0]] + rest;
      forall j | 0 <= j < |xs[1..]| ensures b <= Rank(xs[1..][j]) {
        assert xs[1..][j] == xs[j + 1];
      }
      InsertBound(x, xs[1..], nameCmp, b);
    }
  }

  /** The sorted list puts "all" first and "none" last. */
  lemma {:induction false} SortSorted(xs: seq<Summary>, nameCmp: (string, string) -> int)
    ensures RankSorted(SortSummaries(xs, nameCmp))
  {
    if xs != [] {
      var n := |xs| - 1;
      SortSorted(xs[..n], nameCmp);
      InsertSorted(xs[n], SortSummaries(xs[..n], nameCmp), nameCmp);
    }
  }

  /** A rank-sorted list holding an "all" and a "none" summary starts with "all" and ends with "none". */
  lemma SortedEnds(r: seq<Summary>, a: nat, z: nat)
    requires RankSorted(r) && a < |r| && z < |r| && r[a].id == "all" && r[z].id == "none"
    ensures |r| >= 2 && r[0].id == "all" && r[|r| - 1].id == "none"
  {
    assert Rank(r[0]) <= Rank(r[a]);
    assert Rank(r[z]) <= Rank(r[|r| - 1]);
  }

  /** `mapWithSaldo`: each listed summary set under its id, later ones overwriting. */
  function ListMap(list: seq<Summary>): map<string, Summary>
  {
    if list == [] then map[] else ListMap(list[..|list| - 1])[list[|list| - 1].id := list[|list| - 1]]
  }

  /** A list whose every summary is the one a map holds under its id maps back to that part of the map. */
  lemma {:induction false} ListMapSpec(list: seq<Summary>, byId: map<string, Summary>)
    requires forall i :: 0 <= i < |list| ==> list[i].id in byId && byId[list[i].id] == list[i]
    ensures ListMap(list).Keys == set i | 0 <= i < |list| :: list[i].id
    ensures forall k :: k in ListMap(list) ==> ListMap(list)[k] == byId[k]
  {
    if list != [] {
      var n := |list| - 1;
      ListMapSpec(list[..n], byId);
      assert forall i :: 0 <= i < n ==> list[..n][i] == list[i];
      assert (set i | 0 <= i < |list| :: list[i].id) == (set i | 0 <= i < n :: list[..n][i].id) + {list[n].id};
    }
  }

  /**
   * The summaries memo: "all", the units and "none" are ensured in that
   * order, every item adds its amount to "all" and to its bucket, every
   * summary gets its balance, the list is sorted and indexed by id.
   */
  method UnitSummaries(units: seq<Unit>, items: seq<Item>, unitNames: map<string, string>, nameCmp: (string, string) -> int)
    returns (list: seq<Summary>, summaryById: map<string, Summary>)
    ensures list == SortSummaries(Values(Accumulate(Start(units), items, unitNames).order,
                                         WithSaldo(Accumulate(Start(units), items, unitNames).byId)), nameCmp)
    ensures summaryById == ListMap(list)
    ensures |list| >= 2 && list[0].id == "all" && list[|list| - 1].id == "none"
    ensures forall i :: 0 <= i < |list| ==> list[i].id in summaryById && summaryById[list[i].id] == list[i]
    ensures forall i :: 0 <= i < |units| ==> units[i].id in summaryById
    ensures forall i :: 0 <= i < |items| ==> Bucket(items[i]) in summaryById
    ensures forall k :: k in summaryById ==>
      summaryById[k].entradas == EntradasFor(items, k) && summaryById[k].saidas == SaidasFor(items, k) &&
      summaryById[k].saldo == summaryById[k].entradas - summaryById[k].saidas
  {
    var m := SeedSummaries(units);
    m := AddItems(m, units, items, unitNames);
    var byId := WithSaldo(m.byId);
    list := SortSummaries(Values(m.order, byId), nameCmp);
    summaryById := IndexById(list);
    SummariesSpec(units, items, unitNames, nameCmp, m, byId, list);
  }

  /** `list.forEach(summary => mapWithSaldo.set(summary.id, summary))`. */
  method IndexById(list: seq<Summary>) returns (byId: map<string, Summary>)
    ensures byId == ListMap(list)
    ensures forall i :: 0 <= i < |list| ==> list[i].id in byId && byId[list[i].id].id == list[i].id
  {
    byId := map[];
    for i := 0 to |list|
      invariant byId == ListMap(list[..i])
    {
      assert list[..i + 1][..i] == list[..i];
      byId := byId[list[i].id := list[i]];
    }
    assert list[..|list|] == list;
    forall i | 0 <= i < |list| ensures list[i].id in byId && byId[list[i].id].id == list[i].id {
      ListMapHas(list, i);
    }
  }

  /** `ensure("all")`, `ensure` of each unit in order, then `ensure("none")`. */
  method SeedSummaries(units: seq<Unit>) returns (m: SummaryMap)
    ensures m == Start(units)
    ensures ValidMap(m) && "all" in m.byId && "none" in m.byId
    ensures forall i :: 0 <= i < |units| ==> units[i].id in m.byId
  {
    m := Ensure(SummaryMap([], map[]), "all", "Todos");
    for i := 0 to |units|
      invariant m == Seeded(units[..i])
    {
      assert units[..i + 1][..i] == units[..i];
      m := Ensure(m, units[i].id, units[i].name);
    }
    assert units[..|units|] == units;
    m := Ensure(m, "none", "Sem unidade");
    StartSpec(units);
  }

  /** The `financialItems.forEach` adding each amount to "all" and to the item's bucket. */
  method AddItems(start: SummaryMap, ghost units: seq<Unit>, items: seq<Item>, unitNames: map<string, string>) returns (m: SummaryMap)
    requires start == Start(units)
    ensures m == Accumulate(start, items, unitNames)
  {
    m := start;
    for i := 0 to |items|
      invariant m == Accumulate(start, items[..i], unitNames)
    {
      AccumulateNext(start, items, unitNames, i);
      ghost var before := m;
      var item := items[i];
      var entrada := NormalizeType(item.kind) == "entrada";
      var unitId := Bucket(item);
      m := Ensure(m, "all", "Todos");
      m := AddAt(m, "all", entrada, item.amount);
      m := Ensure(m, unitId, BucketName(unitId, unitNames));
      m := AddAt(m, unitId, entrada, item.amount);
      assert m == AddItem(before, item, unitNames);
    }
    assert items[..|items|] == items;
  }

  /** The map after one more item. */
  lemma AccumulateNext(m: SummaryMap, items: seq<Item>, unitNames: map<string, string>, i: int)
    requires 0 <= i < |items|
    ensures Accumulate(m, items[..i + 1], unitNames) == AddItem(Accumulate(m, items[..i], unitNames), items[i], unitNames)
  {
    assert items[..i + 1][..i] == items[..i];
  }

  /** What the method promises about the list and its index, from the specification functions. */
  lemma SummariesSpec(units: seq<Unit>, items: seq<Item>, unitNames: map<string, string>, nameCmp: (string, string) -> int,
                      m: SummaryMap, byId: map<string, Summary>, list: seq<Summary>)
    requires m == Accumulate(Start(units), items, unitNames) && byId == WithSaldo(m.byId)
    requires list == SortSummaries(Values(m.order, byId), nameCmp)
    ensures |list| >= 2 && list[0].id == "all" && list[|list| - 1].id == "none"
    ensures ListMap(list).Keys == m.byId.Keys
    ensures forall k :: k in ListMap(list) ==> ListMap(list)[k] == byId[k]
    ensures forall i :: 0 <= i < |list| ==> list[i].id in ListMap(list) && ListMap(list)[list[i].id] == list[i]
    ensures forall k :: k in m.byId ==>
      byId[k].entradas == EntradasFor(items, k) && byId[k].saidas == SaidasFor(items, k) &&
      byId[k].saldo == byId[k].entradas - byId[k].saidas
    ensures forall i :: 0 <= i < |units| ==> units[i].id in m.byId
    ensures forall i :: 0 <= i < |items| ==> Bucket(items[i]) in m.byId
  {
    SummariesTotals(units, items, unitNames, m, byId);
    SortedIndex(m, byId, list, nameCmp);
  }

  /** The accumulated map is valid, holds "all", "none", every unit and every bucket, and its totals. */
  lemma SummariesTotals(units: seq<Unit>, items: seq<Item>, unitNames: map<string, string>, m: SummaryMap, byId: map<string, Summary>)
    requires m == Accumulate(Start(units), items, unitNames) && byId == WithSaldo(m.byId)
    ensures ValidMap(m) && "all" in m.byId && "none" in m.byId
    ensures forall k :: k in m.byId ==>
      byId[k].entradas == EntradasFor(items, k) && byId[k].saidas == SaidasFor(items, k) &&
      byId[k].saldo == byId[k].entradas - byId[k].saidas
    ensures forall i :: 0 <= i < |units| ==> units[i].id in m.byId
    ensures forall i :: 0 <= i < |items| ==> Bucket(items[i]) in m.byId
  {
    StartSpec(units);
    AccumulateSpec(Start(units), items, unitNames);
    AccumulateBuckets(Start(units), items, unitNames);
    forall k | k in m.byId
      ensures byId[k].entradas == EntradasFor(items, k) && byId[k].saidas == SaidasFor(items, k)
    {
      assert EntradasIn(m, k) == m.byId[k].entradas && SaidasIn(m, k) == m.byId[k].saidas;
    }
  }

  /** The sorted values of a valid map holding "all" and "none", and their index by id. */
  lemma SortedIndex(m: SummaryMap, byId: map<string, Summary>, list: seq<Summary>, nameCmp: (string, string) -> int)
    requires ValidMap(m) && "all" in m.byId && "none" in m.byId && byId == WithSaldo(m.byId)
    requires list == SortSummaries(Values(m.order, byId), nameCmp)
    ensures |list| >= 2 && list[0].id == "all" && list[|list| - 1].id == "none"
    ensures ListMap(list).Keys == m.byId.Keys
    ensures forall k :: k in ListMap(list) ==> ListMap(list)[k] == byId[k]
    ensures forall i :: 0 <= i < |list| ==> list[i].id in ListMap(list) && ListMap(list)[list[i].id] == list[i]
  {
    ListEntries(m, byId, list);
    ListMapSpec(list, byId);
    SortSorted(Values(m.order, byId), nameCmp);
    ListEnds(m, byId, list);
  }

  /** The sorted list holds exactly the stored summaries, each with its balance. */
  lemma ListEntries(m: SummaryMap, byId: map<string, Summary>, list: seq<Summary>)
    requires ValidMap(m) && byId == WithSaldo(m.byId) && multiset(list) == multiset(Values(m.order, byId))
    ensures forall i :: 0 <= i < |list| ==> list[i].id in byId && byId[list[i].id] == list[i]
    ensures forall k :: k in m.byId ==> byId[k] in list
    ensures ListMap(list).Keys == m.byId.Keys
  {
    SaldoIds(m, byId);
    ListStored(m.order, byId, list);
    ListComplete(m, byId, list);
    ListMapSpec(list, byId);
    ListIds(list, m.byId.Keys, byId);
  }

  /** Adding the balances keeps the keys, and each summary keeps its key as id. */
  lemma SaldoIds(m: SummaryMap, byId: map<string, Summary>)
    requires ValidMap(m) && byId == WithSaldo(m.byId)
    ensures byId.Keys == m.byId.Keys && forall k :: k in byId ==> byId[k].id == k
  {
  }

  /** Every summary of a permutation of the values is the one stored under its id. */
  lemma ListStored(order: seq<string>, byId: map<string, Summary>, list: seq<Summary>)
    requires forall k :: k in byId ==> byId[k].id == k
    requires multiset(list) == multiset(Values(order, byId))
    ensures forall i :: 0 <= i < |list| ==> list[i].id in byId && byId[list[i].id] == list[i]
  {
    ValuesMembers(order, byId);
    forall i | 0 <= i < |list| ensures list[i].id in byId && byId[list[i].id] == list[i] {
      assert list[i] in multiset(Values(order, byId));
    }
  }

  /** A permutation of the values holds the summary of every listed key. */
  lemma ListComplete(m: SummaryMap, byId: map<string, Summary>, list: seq<Summary>)
    requires ValidMap(m) && byId.Keys == m.byId.Keys && forall k :: k in byId ==> byId[k].id == k
    requires multiset(list) == multiset(Values(m.order, byId))
    ensures forall k :: k in m.byId ==> byId[k] in list
  {
    ValuesMembers(m.order, byId);
    forall k | k in m.byId ensures byId[k] in list {
      assert k in m.order;
      var j :| 0 <= j < |m.order| && m.order[j] == k;
      assert byId[k] in Values(m.order, byId);
      assert byId[k] in multiset(list);
    }
  }

  /** The ids of a list holding the summary of every key of a map, and only those, are the keys. */
  lemma ListIds(list: seq<Summary>, keys: set<string>, byId: map<string, Summary>)
    requires keys == byId.Keys && forall k :: k in byId ==> byId[k].id == k
    requires forall i :: 0 <= i < |list| ==> list[i].id in byId && byId[list[i].id] == list[i]
    requires forall k :: k in byId ==> byId[k] in list
    ensures (set i | 0 <= i < |list| :: list[i].id) == keys
  {
    forall k | k in keys ensures k in (set i | 0 <= i < |list| :: list[i].id) {
      var i :| 0 <= i < |list| && list[i] == byId[k];
      assert list[i].id == k;
    }
  }

  /** "all" and "none" being stored, the rank-sorted list starts with "all" and ends with "none". */
  lemma ListEnds(m: SummaryMap, byId: map<string, Summary>, list: seq<Summary>)
    requires ValidMap(m) && byId == WithSaldo(m.byId) && "all" in m.byId && "none" in m.byId
    requires RankSorted(list) && forall k :: k in m.byId ==> byId[k] in list
    ensures |list| >= 2 && list[0].id == "all" && list[|list| - 1].id == "none"
  {
    assert byId["all"] in list && byId["none"] in list;
    var ia :| 0 <= ia < |list| && list[ia] == byId["all"];
    var iz :| 0 <= iz < |list| && list[iz] == byId["none"];
    SortedEnds(list, ia, iz);
  }

  /** `selectedSummary`: the selected unit's summary, else the one of "all", else zeros. */
  function SelectedSummary(summaryById: map<string, Summary>, selectedUnitId: string): (r: Summary)
    ensures selectedUnitId in summaryById ==> r == summaryById[selectedUnitId]
  {
    if selectedUnitId in summaryById then summaryById[selectedUnitId]
    else if "all" in summaryById then summaryById["all"]
    else Summary("all", "Todos", 0.0, 0.0, 0.0)
  }

  /** The index always holds "all", so an unknown selection shows the totals of every item. */
  lemma SelectedFallsBackToAll(items: seq<Item>, list: seq<Summary>, summaryById: map<string, Summary>, selectedUnitId: string)
    requires |list| >= 1 && list[0].id == "all" && summaryById == ListMap(list)
    requires forall k :: k in summaryById ==> summaryById[k].entradas == EntradasFor(items, k)
    requires selectedUnitId !in summaryById
    ensures SelectedSummary(summaryById, selectedUnitId).id == "all"
    ensures SelectedSummary(summaryById, selectedUnitId).entradas == EntradasFor(items, "all")
  {
    ListMapHas(list, 0);
  }

  lemma {:induction false} ListMapHas(list: seq<Summary>, i: nat)
    requires i < |list|
    ensures list[i].id in ListMap(list) && ListMap(list)[list[i].id].id == list[i].id
  {
    if i < |list| - 1 {
      ListMapHas(list[..|list| - 1], i);
    }
  }

  /** With no item in a bucket named "all", the "all" totals count every item exactly once. */
  lemma {:induction false} AllCountsOnce(items: seq<Item>)
    requires forall i :: 0 <= i < |items| ==> Bucket(items[i]) != "all"
    ensures EntradasFor(items, "all") == IncomeTotal(items) && SaidasFor(items, "all") == ExpenseTotal(items)
  {
    if items != [] {
      AllCountsOnce(items[..|items| - 1]);
    }
  }

  /** The sum of the incomes. */
  function IncomeTotal(items: seq<Item>): real
  {
    if items == [] then 0.0
    else IncomeTotal(items[..|items| - 1]) + (if IsEntrada(items[|items| - 1]) then items[|items| - 1].amount else 0.0)
  }

  /** The sum of the expenses (every item that is not an income). */
  function ExpenseTotal(items: seq<Item>): real
  {
    if items == [] then 0.0
    else ExpenseTotal(items[..|items| - 1]) + (if IsEntrada(items[|items| - 1]) then 0.0 else items[|items| - 1].amount)
  }

  // ------------------------------------------------------------- filteredItems

  /** `!item.business_unit_id`: no unit, or the empty id. */
  predicate WithoutUnit(item: Item)
  {
    item.businessUnitId.None? || item.businessUnitId.value == ""
  }

  /** `filteredItems`: every item for "all", the items without a unit for "none", else the unit's items. */
  function FilteredItems(items: seq<Item>, selectedUnitId: string): seq<Item>
  {
    if selectedUnitId == "all" then items
    else if selectedUnitId == "none" then Lists.Filter(items, (item: Item) => WithoutUnit(item))
    else Lists.Filter(items, (item: Item) => item.businessUnitId == Some(selectedUnitId))
  }

  /** The filter keeps order and keeps exactly the items the selection names. */
  lemma FilteredItemsSpec(items: seq<Item>, selectedUnitId: string, x: Item)
    ensures Lists.IsSubsequence(FilteredItems(items, selectedUnitId), items)
    ensures selectedUnitId == "all" ==> FilteredItems(items, selectedUnitId) == items
    ensures selectedUnitId == "none" ==> (x in FilteredItems(items, selectedUnitId) <==> x in items && WithoutUnit(x))
    ensures selectedUnitId != "all" && selectedUnitId != "none" ==>
      (x in FilteredItems(items, selectedUnitId) <==> x in items && x.businessUnitId == Some(selectedUnitId))
  {
    if selectedUnitId == "all" {
      SubsequenceSelf(items);
    } else if selectedUnitId == "none" {
      Lists.FilterSubsequence(items, (item: Item) => WithoutUnit(item));
      Lists.FilterMembers(items, (item: Item) => WithoutUnit(item), x);
    } else {
      Lists.FilterSubsequence(items, (item: Item) => item.businessUnitId == Some(selectedUnitId));
      Lists.FilterMembers(items, (item: Item) => item.businessUnitId == Some(selectedUnitId), x);
    }
  }

  lemma {:induction false} SubsequenceSelf(xs: seq<Item>)
    ensures Lists.IsSubsequence(xs, xs)
  {
    if xs != [] {
      SubsequenceSelf(xs[1..]);
    }
  }
}
