/**
 * Pasted import of monthly expense summaries
 * (src/components/MonthlySummaryModal.tsx): the month and amount readers,
 * which throw on bad input, the splitting of the text into records of
 * month, category and amount, and the import loop with its counters.
 *
 * A thrown error is an `Err`; the database is a parameter of the import.
 */
module MonthlySummaryModal {
  import opened Wrappers
  import opened Strings
  import opened Numbers
  import Lists

  // --------------------------------------------------------------- parseMonth

  /** The text `^(\d{4})-(\d{2})$` matches. */
  predicate MonthShape(s: string)
  {
    |s| == 7 && s[4] == '-' && AllDigits(s[..4]) && AllDigits(s[5..])
  }

  /** `parseMonth(monthStr)`: the first day of a `YYYY-MM` month, or the error it throws. */
  function ParseMonth(monthStr: string): (r: Result<string>)
    ensures r.Ok? ==> |r.value| == 10 && r.value[7..] == "-01"
  {
    if IsBlank(monthStr) then Err("Mês não pode estar vazio")
    else
      var clean := Trim(monthStr);
      if MonthShape(clean) && 1 <= DigitsValue(clean[5..]) <= 12 then Ok(clean[..4] + "-" + clean[5..] + "-01")
      else Err("Formato de mês inválido: " + clean + ". Use YYYY-MM (ex: 2024-06)")
  }

  /**
   * Exactly the trimmed texts of four digits, a dash and two digits naming a
   * month 01..12 are accepted, and they become that month's first day.
   */
  lemma ParseMonthAccepts(monthStr: string)
    ensures ParseMonth(monthStr).Ok? <==>
      MonthShape(Trim(monthStr)) && 1 <= DigitsValue(Trim(monthStr)[5..]) <= 12
    ensures ParseMonth(monthStr).Ok? ==> ParseMonth(monthStr).value == Trim(monthStr) + "-01"
  {
    TrimEmpty(monthStr);
    var clean := Trim(monthStr);
    if MonthShape(clean) {
      assert clean == clean[..4] + "-" + clean[5..];
    }
  }

  /** Empty and blank texts, month 00 and months from 13 on are rejected. */
  lemma ParseMonthRejects(year: string, month: string, ws: string)
    requires |year| == 4 && AllDigits(year) && |month| == 2 && AllDigits(month)
    requires DigitsValue(month) == 0 || DigitsValue(month) >= 13
    requires IsBlank(ws)
    ensures ParseMonth(ws).Err?
    ensures ParseMonth(year + "-" + month).Err?
  {
    var s := year + "-" + month;
    assert s[..4] == year && s[5..] == month;
    TrimUnchanged(s);
    ParseMonthAccepts(s);
  }

  /** `2024-06` is June 2024. */
  lemma ParseMonthExample()
    ensures ParseMonth("2024-06") == Ok("2024-06-01")
  {
    var s := "2024-06";
    assert !IsSpace(s[0]) && !IsSpace(s[6]);
    TrimUnchanged(s);
    assert s[5..] == "06" && s[..4] == "2024";
    assert DigitsValue("06") == 6 by {
      assert "06"[..1] == "0" && "0"[..0] == "";
    }
    ParseMonthAccepts(s);
    assert s + "-01" == "2024-06-01";
  }

  // -------------------------------------------------------------- parseAmount

  /** `R$` and the whitespace after it, then all whitespace, removed. */
  function CleanAmount(amountStr: string): string
  {
    Trim(Remove(StripCurrency(amountStr), IsSpace))
  }

  /** With more than one dot, every dot but the last is a thousands mark and is dropped. */
  function KeepLastDot(c: string): string
  {
    var parts := Split(c, '.');
    if |parts| > 2 then Join(parts[..|parts| - 1], "") + "." + parts[|parts| - 1] else c
  }

  /** A character `/[^\d.-]/g` removes. */
  predicate NotNumeric(c: char) { !(IsDigit(c) || c == '.' || c == '-') }

  /** The number a settled text is read as: positive, or an error. */
  function ReadNumber(t: string, amountStr: string): (r: Result<real>)
    ensures r.Ok? ==> r.value > 0.0
  {
    match ParseFloat(Remove(t, NotNumeric))
    case None => Err("Valor inválido: " + amountStr)
    case Some(v) => if v <= 0.0 then Err("Valor inválido: " + amountStr) else Ok(v)
  }

  /** The number read from a cleaned text once its first comma is a point. */
  function ReadPositive(c: string, amountStr: string): (r: Result<real>)
    ensures r.Ok? ==> r.value > 0.0
  {
    ReadNumber(KeepLastDot(c), amountStr)
  }

  /**
   * `parseAmount(amountStr)`: the first comma is the decimal point, dots
   * before the last one are thousands marks, and only a positive number is
   * accepted.
   */
  function ParseAmount(amountStr: string): (r: Result<real>)
    ensures r.Ok? ==> r.value > 0.0
    ensures amountStr == "" ==> r.Err?
  {
    if amountStr == "" then Err("Valor não pode estar vazio")
    else ReadPositive(ReplaceFirst(CleanAmount(amountStr), ',', "."), amountStr)
  }

  /** A plain amount text: digits, dots and commas, starting and ending with a digit. */
  predicate PlainAmount(s: string)
  {
    s != [] && IsDigit(s[0]) && IsDigit(s[|s| - 1]) &&
    forall i :: 0 <= i < |s| ==> IsDigit(s[i]) || s[i] == '.' || s[i] == ','
  }

  lemma CleanAmountPlain(s: string)
    requires PlainAmount(s)
    ensures CleanAmount(s) == s
  {
    assert '$' !in s;
    RemoveSpec(s, IsSpace);
    TrimUnchanged(s);
  }

  /** `R$` and whitespace in front of a plain amount are ignored. */
  lemma CleanAmountCurrency(ws: string, s: string)
    requires IsBlank(ws) && PlainAmount(s)
    ensures CleanAmount("R$" + ws + s) == s
  {
    StripCurrencyPrefix(ws, s);
    CleanAmountPlain(s);
  }

  /** `2.331.59` (after the comma became a point) keeps only its last dot. */
  lemma KeepLastDotThousands(thousands: string, units: string, cents: string)
    requires '.' !in thousands && '.' !in units && '.' !in cents
    ensures KeepLastDot(thousands + "." + units + "." + cents) == thousands + units + "." + cents
  {
    var s := thousands + "." + units + "." + cents;
    assert s == thousands + ['.'] + units + ['.'] + cents;
    SplitThree(thousands, units, cents, '.');
    KeepLastOfThree(s, thousands, units, cents);
  }

  lemma KeepLastOfThree(s: string, a: string, b: string, c: string)
    requires Split(s, '.') == [a, b, c]
    ensures KeepLastDot(s) == a + b + "." + c
  {
    assert [a, b, c][..2] == [a, b];
    assert Join([a, b], "") == a + b;
  }

  /** A settled `digits.cents` text is read as the decimal it writes, when positive. */
  lemma ReadDecimal(digits: string, cents: string, amountStr: string)
    requires digits != [] && AllDigits(digits) && AllDigits(cents)
    ensures ReadNumber(digits + "." + cents, amountStr) ==
      if DecimalValue(digits, cents) > 0.0 then Ok(DecimalValue(digits, cents)) else Err("Valor inválido: " + amountStr)
  {
    var s := digits + "." + cents;
    RemoveSpec(s, NotNumeric);
    ParseFloatDecimal(digits, cents);
  }

  /** The comma of `t.u,c` becomes the point. */
  lemma CommaBecomesPoint(head: string, cents: string)
    requires ',' !in head
    ensures ReplaceFirst(head + "," + cents, ',', ".") == head + "." + cents
  {
    var body := head + "," + cents;
    assert body == head + [','] + cents;
    IndexOfPrefix(head, cents, ',');
    assert body[..|head|] == head && body[|head| + 1..] == cents;
  }

  lemma DigitsHaveNoMarks(s: string)
    requires AllDigits(s)
    ensures '.' !in s && ',' !in s
  {
  }

  /**
   * The example rows' format `R$ 2.331,59`: the dot is a thousands mark and
   * the comma the decimal point.
   */
  lemma ParseAmountThousands(ws: string, thousands: string, units: string, cents: string)
    requires IsBlank(ws)
    requires thousands != [] && AllDigits(thousands) && AllDigits(units) && cents != [] && AllDigits(cents)
    requires DecimalValue(thousands + units, cents) > 0.0
    ensures ParseAmount("R$" + ws + thousands + "." + units + "," + cents) == Ok(DecimalValue(thousands + units, cents))
  {
    var head := thousands + "." + units;
    var body := head + "," + cents;
    var text := "R$" + ws + body;
    assert "R$" + ws + thousands + "." + units + "," + cents == text;
    assert PlainAmount(body);
    CleanAmountCurrency(ws, body);
    DigitsHaveNoMarks(thousands);
    DigitsHaveNoMarks(units);
    DigitsHaveNoMarks(cents);
    CommaBecomesPoint(head, cents);
    KeepLastDotThousands(thousands, units, cents);
    ReadDecimal(thousands + units, cents, text);
  }

  /** `R$ 2.331,59` is 2331.59. */
  lemma ParseAmountExample()
    ensures ParseAmount("R$ 2.331,59") == Ok(2331.59)
  {
    assert "R$ 2.331,59" == "R$" + " " + "2" + "." + "331" + "," + "59";
    ExampleValue();
    assert "2" + "331" == "2331";
    ParseAmountThousands(" ", "2", "331", "59");
  }

  /** The digits `2331` and `59` write 2331.59. */
  lemma ExampleValue()
    ensures DecimalValue("2331", "59") == 2331.59
  {
    assert DigitsValue("2331") == 2331 by {
      assert "2331"[..3] == "233" && "233"[..2] == "23" && "23"[..1] == "2" && "2"[..0] == "";
    }
    assert DigitsValue("59") == 59 by {
      assert "59"[..1] == "5" && "5"[..0] == "";
    }
    assert Shifted(59, 2) == 0.59;
  }

  // ------------------------------------------------------------- parseRawText

  /** One pasted summary: month, category and amount as text. */
  datatype SummaryRecord = SummaryRecord(month: string, category: string, amount: string)

  /** The non-blank lines, in order. */
  function NonBlankLines(lines: seq<string>): (r: seq<string>)
    ensures |r| <= |lines|
    ensures forall i :: 0 <= i < |r| ==> !IsBlank(r[i])
  {
    if lines == [] then []
    else (if IsBlank(lines[0]) then [] else [lines[0]]) + NonBlankLines(lines[1..])
  }

  /** The values of a line: split at tabs when it has one, else at semicolons, else an error. */
  function LineValues(line: string): (r: Option<seq<string>>)
    ensures r.Some? <==> '\t' in line || ';' in line
  {
    if '\t' in line then Some(TrimEach(Split(line, '\t')))
    else if ';' in line then Some(TrimEach(Split(line, ';')))
    else None
  }

  /** The record of the `index`-th non-blank line (counted from 1), or the error it throws. */
  function LineRecord(line: string, index: nat): (r: Result<SummaryRecord>)
    ensures r.Ok? <==> LineValues(line).Some? && |LineValues(line).value| == 3
  {
    match LineValues(line)
    case None => Err("Linha " + NatToString(index) + ": Use TAB ou ponto e vírgula (;) como separador")
    case Some(values) =>
      if |values| != 3 then
        Err("Linha " + NatToString(index) + ": Deve ter exatamente 3 campos (mês, categoria, valor). Encontrados: " + NatToString(|values|))
      else Ok(SummaryRecord(values[0], values[1], values[2]))
  }

  /** `LineRecord` of each line, numbered from `index`. */
  function LineResults(lines: seq<string>, index: nat): (r: seq<Result<SummaryRecord>>)
    ensures |r| == |lines|
  {
    if lines == [] then [] else [LineRecord(lines[0], index)] + LineResults(lines[1..], index + 1)
  }

  lemma {:induction false} LineResultsAt(lines: seq<string>, index: nat, i: nat)
    requires i < |lines|
    ensures LineResults(lines, index)[i] == LineRecord(lines[i], index + i)
  {
    if i > 0 {
      LineResultsAt(lines[1..], index + 1, i - 1);
    }
  }

  /** `parseRawText(text)`: one record per non-blank line, or the error of the first bad line. */
  function ParseRawText(text: string): Result<seq<SummaryRecord>>
  {
    Lists.Collect(LineResults(NonBlankLines(Split(text, '\n')), 1))
  }

  /** Line `k` is the first that does not make a record. */
  predicate FirstBadLine(lines: seq<string>, k: int)
  {
    0 <= k < |lines| && LineRecord(lines[k], 1 + k).Err? && forall i :: 0 <= i < k ==> LineRecord(lines[i], 1 + i).Ok?
  }

  /**
   * The records come out in line order, one per non-blank line, exactly
   * when every such line is split by a tab or a semicolon into three values;
   * otherwise the error is that of the first line that is not.
   */
  lemma ParseRawTextSpec(text: string)
    ensures var lines := NonBlankLines(Split(text, '\n'));
      (ParseRawText(text).Ok? <==> forall i :: 0 <= i < |lines| ==> LineRecord(lines[i], 1 + i).Ok?) &&
      (ParseRawText(text).Ok? ==> (|ParseRawText(text).value| == |lines| &&
        forall i :: 0 <= i < |lines| ==> ParseRawText(text).value[i] == LineRecord(lines[i], 1 + i).value)) &&
      (ParseRawText(text).Err? ==> exists k :: FirstBadLine(lines, k) && ParseRawText(text).error == LineRecord(lines[k], 1 + k).error)
  {
    var lines := NonBlankLines(Split(text, '\n'));
    assert ParseRawText(text) == Lists.Collect(LineResults(lines, 1));
    LinesSpec(lines);
  }

  lemma LinesSpec(lines: seq<string>)
    ensures var r := Lists.Collect(LineResults(lines, 1));
      (r.Ok? <==> forall i :: 0 <= i < |lines| ==> LineRecord(lines[i], 1 + i).Ok?) &&
      (r.Ok? ==> |r.value| == |lines| && forall i :: 0 <= i < |lines| ==> r.value[i] == LineRecord(lines[i], 1 + i).value) &&
      (r.Err? ==> exists k :: FirstBadLine(lines, k) && r.error == LineRecord(lines[k], 1 + k).error)
  {
    var rs := LineResults(lines, 1);
    Lists.CollectSpec(rs);
    forall i | 0 <= i < |lines|
      ensures rs[i] == LineRecord(lines[i], 1 + i)
    {
      LineResultsAt(lines, 1, i);
    }
  }

  /** A tab decides the split even when the line also holds semicolons. */
  lemma TabFirst(line: string)
    requires '\t' in line && ';' in line
    ensures LineValues(line) == Some(TrimEach(Split(line, '\t')))
  {
  }

  /** Three tab-free, semicolon-separated values make one record. */
  lemma SemicolonRecord(month: string, category: string, amount: string, index: nat)
    requires '\t' !in month + category + amount && ';' !in month + category + amount
    ensures LineRecord(month + ";" + category + ";" + amount, index) ==
      Ok(SummaryRecord(Trim(month), Trim(category), Trim(amount)))
  {
    var line := month + ";" + category + ";" + amount;
    assert ';' !in month && ';' !in category && ';' !in amount && '\t' !in month && '\t' !in category && '\t' !in amount by {
      assert forall c :: c in month || c in category || c in amount ==> c in month + category + amount;
    }
    assert line == month + [';'] + category + [';'] + amount;
    assert line[|month|] == ';';
    assert '\t' !in line;
    SplitThree(month, category, amount, ';');
  }

  // ------------------------------------------------------------- handleImport

  /** A summary row of the `financial_summary` table. */
  datatype Summary = Summary(month: string, category: string, totalValue: real)

  /** The summary of a record, or the error its month, amount or category throws. */
  function RecordSummary(record: SummaryRecord): (r: Result<Summary>)
    ensures r.Ok? ==> ParseMonth(record.month).Ok? && ParseAmount(record.amount).Ok?
    ensures r.Ok? ==> r.value.totalValue > 0.0 && r.value.category != ""
  {
    match ParseMonth(record.month)
    case Err(e) => Err(e)
    case Ok(month) =>
      match ParseAmount(record.amount)
      case Err(e) => Err(e)
      case Ok(amount) =>
        var category := Trim(record.category);
        if category == "" then Err("Categoria não pode estar vazia") else Ok(Summary(month, category, amount))
  }

  /** `RecordSummary` of every record, in order. */
  function RecordSummaries(records: seq<SummaryRecord>): (r: seq<Result<Summary>>)
    ensures |r| == |records|
  {
    if records == [] then [] else [RecordSummary(records[0])] + RecordSummaries(records[1..])
  }

  /** The duplicate query matches on month and category. */
  predicate Recorded(s: Summary, rows: seq<Summary>)
  {
    exists k :: 0 <= k < |rows| && rows[k].month == s.month && rows[k].category == s.category
  }

  /** The counters of an import and the summaries it inserted. */
  datatype Tally = Tally(inserted: seq<Summary>, success: nat, errors: nat, duplicates: nat)

  /** One record: an error when it does not read, a duplicate when its month and category are stored, else inserted unless rejected. */
  function ImportStep(t: Tally, s: Result<Summary>, existing: seq<Summary>, rejects: Summary -> bool): Tally
  {
    match s
    case Err(_) => t.(errors := t.errors + 1)
    case Ok(summary) =>
      if Recorded(summary, existing + t.inserted) then t.(duplicates := t.duplicates + 1)
      else if rejects(summary) then t.(errors := t.errors + 1)
      else t.(inserted := t.inserted + [summary], success := t.success + 1)
  }

  function ImportAll(summaries: seq<Result<Summary>>, existing: seq<Summary>, rejects: Summary -> bool): Tally
  {
    if summaries == [] then Tally([], 0, 0, 0)
    else ImportStep(ImportAll(summaries[..|summaries| - 1], existing, rejects), summaries[|summaries| - 1], existing, rejects)
  }

  /**
   * `handleImport`: blank text and a text `parseRawText` rejects import
   * nothing (the error is reported); otherwise every record is counted once
   * as a success, an error or a duplicate.
   */
  method HandleImport(rawText: string, existing: seq<Summary>, rejects: Summary -> bool) returns (r: Result<Tally>)
    ensures IsBlank(rawText) ==> r.Err?
    ensures !IsBlank(rawText) && ParseRawText(rawText).Err? ==> r == Err(ParseRawText(rawText).error)
    ensures r.Ok? ==> (ParseRawText(rawText).Ok? &&
      r.value == ImportAll(RecordSummaries(ParseRawText(rawText).value), existing, rejects))
    ensures r.Ok? ==> r.value.success + r.value.errors + r.value.duplicates == |ParseRawText(rawText).value|
    ensures r.Ok? ==> r.value.success == |r.value.inserted|
  {
    if IsBlank(rawText) {
      return Err("Cole os dados no campo de texto");
    }
    var parsed := ParseRawText(rawText);
    if parsed.Err? {
      return Err(parsed.error);
    }
    var summaries := RecordSummaries(parsed.value);
    var t := ImportRecords(summaries, existing, rejects);
    ImportAllCounts(summaries, existing, rejects);
    return Ok(t);
  }

  /** The insert loop of `handleImport`, one record at a time. */
  method ImportRecords(summaries: seq<Result<Summary>>, existing: seq<Summary>, rejects: Summary -> bool) returns (t: Tally)
    ensures t == ImportAll(summaries, existing, rejects)
  {
    t := Tally([], 0, 0, 0);
    for i := 0 to |summaries|
      invariant t == ImportAll(summaries[..i], existing, rejects)
    {
      assert summaries[..i + 1][..i] == summaries[..i];
      var s := summaries[i];
      if s.Err? {
        t := t.(errors := t.errors + 1);
      } else if Recorded(s.value, existing + t.inserted) {
        t := t.(duplicates := t.duplicates + 1);
      } else if rejects(s.value) {
        t := t.(errors := t.errors + 1);
      } else {
        t := t.(inserted := t.inserted + [s.value], success := t.success + 1);
      }
    }
    assert summaries[..|summaries|] == summaries;
  }

  /** Every record is counted exactly once, and every success is an inserted summary. */
  lemma {:induction false} ImportAllCounts(summaries: seq<Result<Summary>>, existing: seq<Summary>, rejects: Summary -> bool)
    ensures var t := ImportAll(summaries, existing, rejects);
      t.success + t.errors + t.duplicates == |summaries| && t.success == |t.inserted|
  {
    if summaries != [] {
      ImportAllCounts(summaries[..|summaries| - 1], existing, rejects);
    }
  }

  /** Inserted summaries: no (month, category) twice and none already stored. */
  predicate Fresh(ins: seq<Summary>, existing: seq<Summary>)
  {
    (forall j :: 0 <= j < |ins| ==> !Recorded(ins[j], ins[..j])) &&
    (forall i :: 0 <= i < |ins| ==> !Recorded(ins[i], existing))
  }

  /** No (month, category) is inserted twice or when it was already stored. */
  lemma {:induction false} ImportAllFresh(summaries: seq<Result<Summary>>, existing: seq<Summary>, rejects: Summary -> bool)
    ensures Fresh(ImportAll(summaries, existing, rejects).inserted, existing)
  {
    if summaries != [] {
      var init := summaries[..|summaries| - 1];
      ImportAllFresh(init, existing, rejects);
      var t := ImportAll(init, existing, rejects);
      var s := summaries[|summaries| - 1];
      if s.Ok? && !Recorded(s.value, existing + t.inserted) && !rejects(s.value) {
        FreshSnoc(t.inserted, existing, s.value);
      }
    }
  }

  lemma FreshSnoc(ins: seq<Summary>, existing: seq<Summary>, s: Summary)
    requires Fresh(ins, existing) && !Recorded(s, existing + ins)
    ensures Fresh(ins + [s], existing)
  {
    var all := existing + ins;
    var ins' := ins + [s];
    assert forall i :: 0 <= i < |ins| ==> all[|existing| + i] == ins[i];
    assert forall k :: 0 <= k < |existing| ==> all[k] == existing[k];
    assert ins'[..|ins|] == ins;
    forall j | 0 <= j < |ins'|
      ensures ins'[..j] == ins[..j] || j == |ins|
    {
    }
  }
}
