/**
 * CSV file import of financial items (src/components/CSVImportModal.tsx):
 * the separator is guessed from the first line, every later non-blank line
 * becomes a record keyed by the lower-cased headers, and each record is
 * turned into one item through field aliases, a type normalisation and an
 * amount cleaning before it is inserted.
 *
 * The clock, JavaScript's `Date` parser and the database are parameters.
 */
module CsvImportModal {
  import opened Wrappers
  import opened Strings
  import opened Numbers
  import Lists

  // ---------------------------------------------------------------- parseCSV

  /** `detectSeparator`: `;` when the first line has more semicolons than commas, `,` otherwise. */
  function DetectSeparator(text: string): (sep: char)
    ensures sep == ';' || sep == ','
  {
    var firstLine := Split(text, '\n')[0];
    if Count(firstLine, ';') > Count(firstLine, ',') then ';' else ','
  }

  /** The separator is `;` exactly when semicolons outnumber commas on the first line; a tie gives `,`. */
  lemma DetectSeparatorRule(text: string)
    ensures DetectSeparator(text) == ';' <==> Count(Split(text, '\n')[0], ';') > Count(Split(text, '\n')[0], ',')
    ensures Count(Split(text, '\n')[0], ';') == Count(Split(text, '\n')[0], ',') ==> DetectSeparator(text) == ','
  {
  }

  /** A line without separators of either kind gives `,`. */
  lemma DetectSeparatorPlain(line: string, rest: string)
    requires ';' !in line && ',' !in line && '\n' !in line
    ensures DetectSeparator(line + "\n" + rest) == ','
  {
    var text := line + "\n" + rest;
    assert text == line + ['\n'] + rest;
    IndexOfPrefix(line, rest, '\n');
    assert text[..|line|] == line;
  }

  /** A record: each header with the cell below it. */
  type Record = map<string, string>

  /** The headers of the first line, each trimmed and lower-cased. */
  function Headers(firstLine: string, sep: char): (r: seq<string>)
    ensures |r| == Count(firstLine, sep) + 1
    ensures forall i :: 0 <= i < |r| ==> r[i] == Lower(Trim(Split(firstLine, sep)[i]))
  {
    var parts := Split(firstLine, sep);
    seq(|parts|, i requires 0 <= i < |parts| => Lower(Trim(parts[i])))
  }

  /** `values[index] || ''`: the cell at `index`, or the empty text past the end. */
  function Cell(values: seq<string>, index: nat): string
  {
    if index < |values| then values[index] else ""
  }

  /** The record the `headers.forEach` builds: later headers overwrite earlier ones of the same name. */
  function RowOf(headers: seq<string>, values: seq<string>): (row: Record)
  {
    if headers == [] then map[]
    else
      var n := |headers| - 1;
      RowOf(headers[..n], values)[headers[n] := Cell(values, n)]
  }

  /**
   * Every header is a key and nothing else is, and each key holds the cell
   * under its last occurrence among the headers (the empty text when the
   * line is short).
   */
  lemma RowOfSpec(headers: seq<string>, values: seq<string>)
    ensures RowOf(headers, values).Keys == set h | h in headers
    ensures forall i :: 0 <= i < |headers| && headers[i] !in headers[i + 1..] ==>
      RowOf(headers, values)[headers[i]] == Cell(values, i)
  {
    RowOfKeys(headers, values);
    forall i | 0 <= i < |headers| && headers[i] !in headers[i + 1..]
      ensures RowOf(headers, values)[headers[i]] == Cell(values, i)
    {
      RowOfLast(headers, values, i);
    }
  }

  /** The keys of the record are the headers. */
  lemma {:induction false} RowOfKeys(headers: seq<string>, values: seq<string>)
    ensures RowOf(headers, values).Keys == set h | h in headers
  {
    if headers != [] {
      var n := |headers| - 1;
      var init := headers[..n];
      RowOfKeys(init, values);
      assert headers == init + [headers[n]];
      assert (set h | h in headers) == (set h | h in init) + {headers[n]};
    }
  }

  /** A header that does not occur again holds its own cell. */
  lemma {:induction false} RowOfLast(headers: seq<string>, values: seq<string>, i: int)
    requires 0 <= i < |headers| && headers[i] !in headers[i + 1..]
    ensures headers[i] in RowOf(headers, values) && RowOf(headers, values)[headers[i]] == Cell(values, i)
  {
    var n := |headers| - 1;
    if i < n {
      var init := headers[..n];
      assert headers[i + 1..] == init[i + 1..] + [headers[n]];
      assert init[i] == headers[i];
      RowOfLast(init, values, i);
    }
  }

  /** The `headers.forEach` loop filling the record of one line. */
  method BuildRow(headers: seq<string>, values: seq<string>) returns (row: Record)
    ensures row == RowOf(headers, values)
  {
    row := map[];
    for index := 0 to |headers|
      invariant row == RowOf(headers[..index], values)
    {
      assert headers[..index + 1][..index] == headers[..index];
      row := row[headers[index] := Cell(values, index)];
    }
    assert headers[..|headers|] == headers;
  }

  /** The records of the data lines: blank lines give none, the others one each, in order. */
  function Records(lines: seq<string>, headers: seq<string>, sep: char): (r: seq<Record>)
    ensures |r| <= |lines|
  {
    if lines == [] then []
    else
      var n := |lines| - 1;
      var line := lines[n];
      if IsBlank(line) then Records(lines[..n], headers, sep)
      else Records(lines[..n], headers, sep) + [RowOf(headers, TrimEach(Split(line, sep)))]
  }

  /** `parseCSV`: the first line gives the headers, every later non-blank line a record. */
  function ParseCsv(text: string): seq<Record>
  {
    var sep := DetectSeparator(text);
    var lines := Split(text, '\n');
    Records(lines[1..], Headers(lines[0], sep), sep)
  }

  /** The number of non-blank lines. */
  function NonBlankCount(lines: seq<string>): (n: nat)
    ensures n <= |lines|
  {
    if lines == [] then 0 else NonBlankCount(lines[..|lines| - 1]) + (if IsBlank(lines[|lines| - 1]) then 0 else 1)
  }

  /** One record per non-blank data line, and every record has exactly the headers as keys. */
  lemma {:induction false} RecordsSpec(lines: seq<string>, headers: seq<string>, sep: char)
    ensures |Records(lines, headers, sep)| == NonBlankCount(lines)
    ensures forall k :: 0 <= k < |Records(lines, headers, sep)| ==>
      Records(lines, headers, sep)[k].Keys == set h | h in headers
  {
    if lines != [] {
      var n := |lines| - 1;
      RecordsSpec(lines[..n], headers, sep);
      RowOfSpec(headers, TrimEach(Split(lines[n], sep)));
    }
  }

  /** A header the data line has no cell for holds the empty text. */
  lemma ShortLine(headers: seq<string>, values: seq<string>, i: nat)
    requires |values| <= i < |headers| && headers[i] !in headers[i + 1..]
    ensures headers[i] in RowOf(headers, values) && RowOf(headers, values)[headers[i]] == ""
  {
    RowOfSpec(headers, values);
  }

  // ----------------------------------------------------------- field mapping

  /** A key the record has with a non-empty value: what `record.key ||` accepts. */
  predicate Present(record: Record, key: string)
  {
    key in record && record[key] != ""
  }

  /** `record.a || record.b || … || fallback`: the first present alias, else the fallback. */
  function Field(record: Record, keys: seq<string>, fallback: string): (r: string)
  {
    if keys == [] then fallback
    else if Present(record, keys[0]) then record[keys[0]]
    else Field(record, keys[1..], fallback)
  }

  /** The aliases are tried in order: the first present one wins, and with none present the fallback is used. */
  lemma {:induction false} FieldSpec(record: Record, keys: seq<string>, fallback: string)
    ensures (forall i :: 0 <= i < |keys| ==> !Present(record, keys[i])) ==> Field(record, keys, fallback) == fallback
    ensures forall i :: 0 <= i < |keys| && Present(record, keys[i]) && (forall j :: 0 <= j < i ==> !Present(record, keys[j])) ==>
      Field(record, keys, fallback) == record[keys[i]]
  {
    if keys != [] {
      FieldSpec(record, keys[1..], fallback);
      assert forall i :: 1 <= i < |keys| ==> keys[i] == keys[1..][i - 1];
    }
  }

  const DateKeys: seq<string> := ["date", "data", "d"]
  const TypeKeys: seq<string> := ["type", "tipo", "t"]
  const DescriptionKeys: seq<string> := ["description", "descricao", "desc"]
  const AmountKeys: seq<string> := ["amount", "valor", "v"]
  const CategoryKeys: seq<string> := ["category", "categoria", "cat"]
  const BankKeys: seq<string> := ["bank", "banco", "b"]

  /** The type words of each kind, compared after lower-casing and trimming. */
  const ExpenseWords: seq<string> := ["saída", "saida", "out", "expense"]
  const IncomeWords: seq<string> := ["entrada", "in", "income"]
  const TransferWords: seq<string> := ["transferência", "transferencia", "transfer"]

  /** The type normalisation of the import: every word that is neither expense nor transfer gives `entrada`. */
  function NormalizeType(kind: string): (r: string)
    ensures r == "saida" || r == "entrada" || r == "transferencia"
  {
    if kind in ExpenseWords then "saida"
    else if kind in IncomeWords then "entrada"
    else if kind in TransferWords then "transferencia"
    else "entrada"
  }

  /** Expense words give `saida`, transfer words `transferencia`, and every other text `entrada`. */
  lemma NormalizeTypeCases(kind: string)
    ensures NormalizeType(kind) == "saida" <==> kind in ExpenseWords
    ensures NormalizeType(kind) == "transferencia" <==> kind !in ExpenseWords + IncomeWords && kind in TransferWords
    ensures NormalizeType(kind) == "entrada" <==> kind !in ExpenseWords && (kind in IncomeWords || kind !in TransferWords)
  {
    assert kind in ExpenseWords + IncomeWords <==> kind in ExpenseWords || kind in IncomeWords;
  }

  /** `[R$\s]`: the characters the amount cleaning removes, every `R` included. */
  predicate IsAmountJunk(c: char) { c == 'R' || c == '$' || IsSpace(c) }

  /** `amountStr.replace(/[R$\s]/g, '').replace(',', '.')`. */
  function CleanAmount(amountStr: string): string
  {
    ReplaceFirst(Remove(amountStr, IsAmountJunk), ',', ".")
  }

  /** The parsed amount, or `None` when `parseFloat` gives `NaN` or the amount is zero (the row is skipped). */
  function Amount(record: Record): (r: Option<real>)
    ensures r.Some? ==> r.value != 0.0
  {
    match ParseFloat(CleanAmount(Field(record, AmountKeys, "0")))
    case None => None
    case Some(v) => if v == 0.0 then None else Some(v)
  }

  /** An item as inserted into `financial_items`. */
  datatype CsvItem = CsvItem(date: string, kind: string, description: string, amount: real,
                             category: string, bank: string, source: string)

  /**
   * The date stored: `today` when the field is empty, the day of the parsed
   * date when `dateOf` (JavaScript's `new Date(date).toISOString()` cut at
   * `T`) accepts it, and `today` when it does not.
   */
  function ValidDate(date: string, today: string, dateOf: string -> Option<string>): (r: string)
    ensures dateOf(date).None? ==> r == today
  {
    if date == "" then today
    else match dateOf(date)
      case None => today
      case Some(day) => day
  }

  /**
   * The item of one record, or `None` when its amount is `NaN` or zero. A
   * missing field takes its fixed default: today, `entrada`, `Sem
   * descrição`, `0`, `Sem categoria`, `CONTA SIMPLES`.
   */
  function RecordItem(record: Record, today: string, dateOf: string -> Option<string>): (r: Option<CsvItem>)
    ensures r.Some? <==> Amount(record).Some?
    ensures r.Some? ==> r.value.amount == Abs(Amount(record).value) && r.value.amount > 0.0
    ensures r.Some? ==> r.value.kind == NormalizeType(Trim(Lower(Field(record, TypeKeys, "entrada"))))
    ensures r.Some? ==> r.value.source == "CSV Import"
  {
    match Amount(record)
    case None => None
    case Some(amount) =>
      var date := Field(record, DateKeys, today);
      var description := Field(record, DescriptionKeys, "Sem descrição");
      var category := Field(record, CategoryKeys, "Sem categoria");
      var bank := Field(record, BankKeys, "CONTA SIMPLES");
      Some(CsvItem(ValidDate(date, today, dateOf),
                   NormalizeType(Trim(Lower(Field(record, TypeKeys, "entrada")))),
                   if description == "" then "Importado do CSV" else description,
                   Abs(amount),
                   if category == "" then "Importado" else category,
                   if bank == "" then "CONTA SIMPLES" else bank,
                   "CSV Import"))
  }

  /** The item of every record, in order. */
  function RecordItems(records: seq<Record>, today: string, dateOf: string -> Option<string>): (r: seq<Option<CsvItem>>)
    ensures |r| == |records|
  {
    if records == [] then [] else [RecordItem(records[0], today, dateOf)] + RecordItems(records[1..], today, dateOf)
  }

  lemma {:induction false} RecordItemsAt(records: seq<Record>, today: string, dateOf: string -> Option<string>, i: nat)
    requires i < |records|
    ensures RecordItems(records, today, dateOf)[i] == RecordItem(records[i], today, dateOf)
  {
    if i > 0 {
      RecordItemsAt(records[1..], today, dateOf, i - 1);
    }
  }

  // ------------------------------------------------------------ handleImport

  /** The counters of an import and the items it inserted, in order. */
  datatype Tally = Tally(inserted: seq<CsvItem>, success: nat, errors: nat)

  /** One record of the loop: skipped when it has no item, else inserted unless the database rejects it. */
  function ImportStep(t: Tally, item: Option<CsvItem>, rejects: CsvItem -> bool): Tally
  {
    match item
    case None => t
    case Some(it) =>
      if rejects(it) then t.(errors := t.errors + 1)
      else t.(inserted := t.inserted + [it], success := t.success + 1)
  }

  /** The tally after the given items, in order. */
  function ImportAll(items: seq<Option<CsvItem>>, rejects: CsvItem -> bool): Tally
  {
    if items == [] then Tally([], 0, 0)
    else ImportStep(ImportAll(items[..|items| - 1], rejects), items[|items| - 1], rejects)
  }

  /**
   * The loop of `handleImport` over the parsed records; `rejects` tells which
   * inserts the database refuses.
   */
  method HandleImport(text: string, today: string, dateOf: string -> Option<string>, rejects: CsvItem -> bool)
    returns (t: Tally)
    ensures t == ImportAll(RecordItems(ParseCsv(text), today, dateOf), rejects)
    ensures t.success == |t.inserted| && t.success + t.errors <= |ParseCsv(text)|
    ensures forall k :: 0 <= k < |t.inserted| ==> t.inserted[k].amount > 0.0 && t.inserted[k].source == "CSV Import"
  {
    var records := ParseCsv(text);
    var items := RecordItems(records, today, dateOf);
    t := ImportItems(items, rejects);
    ImportAllCounts(items, rejects);
    RecordItemsChecked(records, today, dateOf);
    ImportedItems(items, rejects);
  }

  /** The insert loop of `handleImport`, one record at a time. */
  method ImportItems(items: seq<Option<CsvItem>>, rejects: CsvItem -> bool) returns (t: Tally)
    ensures t == ImportAll(items, rejects)
  {
    t := Tally([], 0, 0);
    for i := 0 to |items|
      invariant t == ImportAll(items[..i], rejects)
    {
      assert items[..i + 1][..i] == items[..i];
      var item := items[i];
      if item.None? {
        continue;
      }
      if rejects(item.value) {
        t := t.(errors := t.errors + 1);
      } else {
        t := t.(inserted := t.inserted + [item.value], success := t.success + 1);
      }
    }
    assert items[..|items|] == items;
  }

  /** Every success is an inserted item, and no record is counted twice. */
  lemma {:induction false} ImportAllCounts(items: seq<Option<CsvItem>>, rejects: CsvItem -> bool)
    ensures var t := ImportAll(items, rejects);
      t.success == |t.inserted| && t.success + t.errors <= |items|
  {
    if items != [] {
      ImportAllCounts(items[..|items| - 1], rejects);
    }
  }

  /** Every item built from a record has a positive amount and the `CSV Import` source. */
  lemma RecordItemsChecked(records: seq<Record>, today: string, dateOf: string -> Option<string>)
    ensures forall i :: 0 <= i < |records| && RecordItems(records, today, dateOf)[i].Some? ==>
      RecordItems(records, today, dateOf)[i].value.amount > 0.0 && RecordItems(records, today, dateOf)[i].value.source == "CSV Import"
  {
    forall i | 0 <= i < |records| && RecordItems(records, today, dateOf)[i].Some?
      ensures RecordItems(records, today, dateOf)[i].value.amount > 0.0 && RecordItems(records, today, dateOf)[i].value.source == "CSV Import"
    {
      RecordItemsAt(records, today, dateOf, i);
    }
  }

  /** Every inserted item has a positive amount, a known type and the `CSV Import` source. */
  lemma {:induction false} ImportedItems(items: seq<Option<CsvItem>>, rejects: CsvItem -> bool)
    requires forall i :: 0 <= i < |items| && items[i].Some? ==> items[i].value.amount > 0.0 && items[i].value.source == "CSV Import"
    ensures forall k :: 0 <= k < |ImportAll(items, rejects).inserted| ==>
      ImportAll(items, rejects).inserted[k].amount > 0.0 && ImportAll(items, rejects).inserted[k].source == "CSV Import"
    ensures |ImportAll(items, rejects).inserted| <= |items|
  {
    if items != [] {
      ImportedItems(items[..|items| - 1], rejects);
    }
  }

  /** When the database accepts everything, exactly the records with an amount are inserted, in order. */
  lemma {:induction false} ImportAllAccepted(items: seq<Option<CsvItem>>, rejects: CsvItem -> bool)
    requires forall i :: 0 <= i < |items| && items[i].Some? ==> !rejects(items[i].value)
    ensures ImportAll(items, rejects).errors == 0
    ensures ImportAll(items, rejects).inserted == Somes(items)
  {
    if items != [] {
      ImportAllAccepted(items[..|items| - 1], rejects);
    }
  }

  /** The values of the `Some` elements, in order. */
  function Somes(items: seq<Option<CsvItem>>): seq<CsvItem>
  {
    if items == [] then []
    else
      var n := |items| - 1;
      Somes(items[..n]) + (if items[n].Some? then [items[n].value] else [])
  }

  // -------------------------------------------------------- amount cleaning

  /** A currency sign and spaces are dropped and the comma is the point: `R$ 10,50` is 10.5. */
  lemma CleanAmountComma(units: string, cents: string)
    requires units != [] && AllDigits(units) && AllDigits(cents)
    ensures CleanAmount("R$ " + units + "," + cents) == units + "." + cents
    ensures ParseFloat(CleanAmount("R$ " + units + "," + cents)) == Some(DecimalValue(units, cents))
  {
    var body := units + "," + cents;
    assert "R$ " + units + "," + cents == "R$ " + body;
    CurrencyPrefixDropped(body);
    DigitsNoJunk(units);
    DigitsNoJunk(cents);
    assert NoneDropped(",", IsAmountJunk);
    NoneDroppedConcat(units, ",", IsAmountJunk);
    NoneDroppedConcat(units + ",", cents, IsAmountJunk);
    RemoveSpec(body, IsAmountJunk);
    ReplaceFirstComma(units, cents);
    ParseFloatDecimal(units, cents);
  }

  /** Digits are never dropped by the cleaning. */
  lemma DigitsNoJunk(s: string)
    requires AllDigits(s)
    ensures NoneDropped(s, IsAmountJunk)
  {
    forall i | 0 <= i < |s| ensures !IsAmountJunk(s[i]) {
      assert IsDigit(s[i]);
    }
  }

  /** The leading `R$ ` is dropped whole. */
  lemma CurrencyPrefixDropped(body: string)
    ensures Remove("R$ " + body, IsAmountJunk) == Remove(body, IsAmountJunk)
  {
    var s := "R$ " + body;
    assert s[1..] == "$ " + body && s[1..][1..] == " " + body && s[1..][1..][1..] == body;
    assert Remove(s, IsAmountJunk) == Remove(s[1..], IsAmountJunk);
    assert Remove(s[1..], IsAmountJunk) == Remove(s[1..][1..], IsAmountJunk);
  }

  /**
   * Dots are kept, so a Brazilian thousands separator is read as the
   * decimal point: `1.234,56` is cleaned to `1.234.56`, which `parseFloat`
   * reads as 1.234.
   */
  lemma ThousandsDotIsDecimal(thousands: string, units: string, cents: string)
    requires thousands != [] && units != [] && AllDigits(thousands) && AllDigits(units) && AllDigits(cents)
    ensures CleanAmount(thousands + "." + units + "," + cents) == thousands + "." + units + "." + cents
    ensures ParseFloat(CleanAmount(thousands + "." + units + "," + cents)) == Some(DecimalValue(thousands, units))
  {
    ThousandsCleaned(thousands, units, cents);
    ParseFloatDecimalRest(thousands, units, "." + cents);
    assert thousands + "." + units + ("." + cents) == thousands + "." + units + "." + cents;
  }

  /** Nothing is dropped and the comma becomes a second point. */
  lemma ThousandsCleaned(thousands: string, units: string, cents: string)
    requires AllDigits(thousands) && AllDigits(units) && AllDigits(cents)
    ensures CleanAmount(thousands + "." + units + "," + cents) == thousands + "." + units + "." + cents
  {
    ThousandsNoJunk(thousands, units, cents);
    ThousandsCommaReplaced(thousands, units, cents);
  }

  /** Digits, a dot and a comma hold nothing the cleaning drops. */
  lemma ThousandsNoJunk(thousands: string, units: string, cents: string)
    requires AllDigits(thousands) && AllDigits(units) && AllDigits(cents)
    ensures Remove(thousands + "." + units + "," + cents, IsAmountJunk) == thousands + "." + units + "," + cents
  {
    DigitsNoJunk(thousands);
    DigitsNoJunk(units);
    DigitsNoJunk(cents);
    assert NoneDropped(".", IsAmountJunk) && NoneDropped(",", IsAmountJunk);
    NoneDroppedConcat(thousands, ".", IsAmountJunk);
    NoneDroppedConcat(thousands + ".", units, IsAmountJunk);
    NoneDroppedConcat(thousands + "." + units, ",", IsAmountJunk);
    NoneDroppedConcat(thousands + "." + units + ",", cents, IsAmountJunk);
    RemoveSpec(thousands + "." + units + "," + cents, IsAmountJunk);
  }

  /** The first comma, the one after the units, becomes the point. */
  lemma ThousandsCommaReplaced(thousands: string, units: string, cents: string)
    requires AllDigits(thousands) && AllDigits(units)
    ensures ReplaceFirst(thousands + "." + units + "," + cents, ',', ".") == thousands + "." + units + "." + cents
  {
    var head := thousands + "." + units;
    var s := thousands + "." + units + "," + cents;
    forall k | 0 <= k < |head| ensures head[k] != ',' {
      if k < |thousands| { assert head[k] == thousands[k]; }
      else if k > |thousands| { assert head[k] == units[k - |thousands| - 1]; }
    }
    assert s == head + [','] + cents;
    IndexOfPrefix(head, cents, ',');
    assert s[..|head|] == head;
    assert s[|head| + 1..] == cents;
  }

}
