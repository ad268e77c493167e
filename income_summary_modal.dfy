/**
 * Pasted import of monthly income summaries
 * (src/components/IncomeSummaryModal.tsx): each non-blank line is checked
 * and either becomes one summary or one error message, and the import sends
 * the summaries only when no line failed.
 *
 * The database insert is left out; `HandleImport` returns the rows it would
 * send in its single request.
 */
module IncomeSummaryModal {
  import opened Wrappers
  import opened Strings
  import opened Numbers
  import Lists

  /** A row of `financial_summary_income`. */
  datatype IncomeSummary = IncomeSummary(month: string, source: string, totalValue: real)

  /** The non-blank lines of the trimmed text, in order. */
  function NonBlankLines(lines: seq<string>): (r: seq<string>)
    ensures |r| <= |lines|
  {
    if lines == [] then []
    else (if IsBlank(lines[0]) then [] else [lines[0]]) + NonBlankLines(lines[1..])
  }

  /** `text.trim().split('\n').filter(line => line.trim())`. */
  function InputLines(text: string): seq<string>
  {
    NonBlankLines(Split(Trim(text), '\n'))
  }

  /** The text `^(\d{4})-(\d{2})$` matches: only the shape, any two digits as the month. */
  predicate MonthShape(s: string)
  {
    |s| == 7 && s[4] == '-' && AllDigits(s[..4]) && AllDigits(s[5..])
  }

  /** `s.replace(/R\$\s?/, '')`: the first `R$` and one whitespace after it removed. */
  function RemoveFirstCurrency(s: string): (r: string)
    ensures |r| <= |s|
  {
    if |s| >= 2 && s[0] == 'R' && s[1] == '$' then (if |s| >= 3 && IsSpace(s[2]) then s[3..] else s[2..])
    else if s == [] then []
    else [s[0]] + RemoveFirstCurrency(s[1..])
  }

  /** The value text cleaned: currency removed, every dot removed, the first comma made the point. */
  function CleanValue(valueStr: string): string
  {
    ReplaceFirst(Remove(RemoveFirstCurrency(valueStr), IsDot), ',', ".")
  }

  /** `parseFloat` of the cleaned value, when it is a number above zero. */
  function PositiveValue(valueStr: string): (r: Option<real>)
    ensures r.Some? ==> r.value > 0.0
  {
    match ParseFloat(CleanValue(valueStr))
    case None => None
    case Some(v) => if v <= 0.0 then None else Some(v)
  }

  /** `Linha n: ` in front of a message. */
  function LinePrefix(n: nat): string
  {
    "Linha " + NatToString(n) + ": "
  }

  /**
   * The validations of one line's trimmed columns, in the source's order: a month
   * of shape `AAAA-MM`, a value above zero, a non-empty source; the first
   * failure is the line's error. `n` is the line number shown (from 1).
   */
  function CheckColumns(monthStr: string, source: string, valueStr: string, n: nat): (r: Result<IncomeSummary>)
    ensures r.Ok? <==> MonthShape(monthStr) && PositiveValue(valueStr).Some? && source != ""
    ensures r.Ok? ==> r.value == IncomeSummary(monthStr + "-01", source, PositiveValue(valueStr).value)
  {
    if !MonthShape(monthStr) then
      Err(LinePrefix(n) + "Formato de mês inválido \"" + monthStr + "\" - esperado AAAA-MM")
    else
      match PositiveValue(valueStr)
      case None => Err(LinePrefix(n) + "Valor inválido \"" + valueStr + "\" - deve ser maior que zero")
      case Some(v) =>
        if source == "" then Err(LinePrefix(n) + "Fonte da receita não pode estar vazia")
        else Ok(IncomeSummary(monthStr + "-01", source, v))
  }

  /** The validation of line `i` (from 0): exactly three tab-separated columns, then their checks. */
  function CheckLine(line: string, i: nat): (r: Result<IncomeSummary>)
    ensures |Split(line, '\t')| != 3 ==> r.Err?
  {
    var columns := Split(line, '\t');
    if |columns| != 3 then
      Err(LinePrefix(i + 1) + "Esperado 3 colunas, encontrado " + NatToString(|columns|) + " - \"" + line + "\"")
    else
      CheckColumns(Trim(columns[0]), Trim(columns[1]), Trim(columns[2]), i + 1)
  }

  /** The outcome of every line, by position. */
  function Outcomes(lines: seq<string>): (r: seq<Result<IncomeSummary>>)
    ensures |r| == |lines|
    ensures forall i :: 0 <= i < |lines| ==> r[i] == CheckLine(lines[i], i)
  {
    seq(|lines|, i requires 0 <= i < |lines| => CheckLine(lines[i], i))
  }

  /** `validateAndParseData(text)`: the index loop collecting summaries and errors. */
  method ValidateAndParseData(text: string) returns (parsedData: seq<IncomeSummary>, errors: seq<string>)
    ensures parsedData == Lists.Oks(Outcomes(InputLines(text))) && errors == Lists.Errs(Outcomes(InputLines(text)))
    ensures |parsedData| + |errors| == |InputLines(text)|
  {
    var lines := InputLines(text);
    ghost var outcomes := Outcomes(lines);
    parsedData, errors := [], [];
    var i := 0;
    while i < |lines|
      invariant 0 <= i <= |lines|
      invariant parsedData == Lists.Oks(outcomes[..i]) && errors == Lists.Errs(outcomes[..i])
    {
      Lists.OksErrsNext(outcomes, i);
      var line := lines[i];
      var r := CheckLine(line, i);
      if r.Err? {
        errors := errors + [r.error];
        i := i + 1;
        continue;
      }
      parsedData := parsedData + [r.value];
      i := i + 1;
    }
    assert outcomes[..|lines|] == outcomes;
    Lists.OksErrsCount(outcomes);
  }

  /**
   * `handleImport`: the rows sent in one insert, or why nothing is sent:
   * blank text, any line with an error, or no valid line.
   */
  method HandleImport(textData: string) returns (r: Result<seq<IncomeSummary>>)
    ensures r.Ok? <==> !IsBlank(textData) && Lists.Errs(Outcomes(InputLines(textData))) == [] && InputLines(textData) != []
    ensures r.Ok? ==> |r.value| == |InputLines(textData)|
    ensures r.Ok? ==> forall i :: 0 <= i < |r.value| ==> CheckLine(InputLines(textData)[i], i) == Ok(r.value[i])
  {
    TrimEmpty(textData);
    if Trim(textData) == "" {
      return Err("Por favor, cole os dados para importar");
    }
    var parsedData, errors := ValidateAndParseData(textData);
    if |errors| > 0 {
      return Err("Problemas encontrados:\n" + Join(errors, "\n"));
    }
    Lists.NoErrsAllOks(Outcomes(InputLines(textData)));
    if |parsedData| == 0 {
      return Err("Nenhum dado válido encontrado para importar");
    }
    return Ok(parsedData);
  }

  // ------------------------------------------------------------ line checks

  /** A line that does not split into exactly three tab-separated columns is an error. */
  lemma ColumnsRequired(line: string, i: nat)
    requires Count(line, '\t') != 2
    ensures CheckLine(line, i).Err?
  {
  }

  /** The month is only checked for its shape: `2024-13` passes. */
  lemma MonthThirteenShape()
    ensures MonthShape("2024-13") && Trim("2024-13") == "2024-13"
  {
    var month := "2024-13";
    assert month[..4] == "2024" && month[5..] == "13";
    assert !IsSpace(month[0]) && !IsSpace(month[6]);
    TrimUnchanged(month);
  }

  /** A line of three tab-separated columns is judged by its trimmed columns. */
  lemma LineColumns(line: string, month: string, source: string, value: string, i: nat)
    requires Split(line, '\t') == [month, source, value]
    ensures CheckLine(line, i) == CheckColumns(Trim(month), Trim(source), Trim(value), i + 1)
  {
  }

  /** A line whose month is `2024-13` is stored with the month `2024-13-01`. */
  lemma MonthShapeOnly(source: string, value: string, n: nat)
    requires source != "" && PositiveValue(value).Some?
    ensures CheckColumns("2024-13", source, value, n) == Ok(IncomeSummary("2024-13-01", source, PositiveValue(value).value))
  {
    MonthThirteenShape();
    assert "2024-13" + "-01" == "2024-13-01";
  }

  /** A blank source is an error even when the month and value are fine. */
  lemma SourceRequired(line: string, i: nat)
    requires |Split(line, '\t')| == 3
    requires MonthShape(Trim(Split(line, '\t')[0])) && PositiveValue(Trim(Split(line, '\t')[2])).Some?
    requires IsBlank(Split(line, '\t')[1])
    ensures CheckLine(line, i).Err?
  {
    TrimEmpty(Split(line, '\t')[1]);
  }

  /** `R$ ` and the thousands dots are dropped and the comma is the decimal point: `R$ 1.500,50` is 1500.5. */
  lemma CleanValueBrazilian(thousands: string, units: string, cents: string)
    requires thousands != [] && AllDigits(thousands) && AllDigits(units) && AllDigits(cents)
    ensures CleanValue("R$ " + thousands + "." + units + "," + cents) == thousands + units + "." + cents
    ensures ParseFloat(CleanValue("R$ " + thousands + "." + units + "," + cents)) == Some(DecimalValue(thousands + units, cents))
  {
    var body := thousands + "." + units + "," + cents;
    var s := "R$ " + thousands + "." + units + "," + cents;
    assert s == "R$ " + body;
    assert s[3..] == body;
    assert RemoveFirstCurrency(s) == body;
    assert body == thousands + "." + (units + "," + cents);
    assert '.' !in thousands by {
      assert forall k :: 0 <= k < |thousands| ==> IsDigit(thousands[k]);
    }
    RemoveDot(thousands, units + "," + cents);
    assert '.' !in units + "," + cents by {
      assert forall k :: 0 <= k < |units + "," + cents| ==> (units + "," + cents)[k] == ',' || IsDigit((units + "," + cents)[k]);
    }
    RemoveNone(units + "," + cents);
    assert Remove(body, IsDot) == thousands + units + "," + cents;
    ReplaceFirstComma(thousands + units, cents);
    ParseFloatDecimal(thousands + units, cents);
  }
}
