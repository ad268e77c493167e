/**
 * The Supabase backup script (scripts/backup-supabase.ts): each table in a
 * fixed list is fetched and, when the fetch succeeds with at least one row,
 * written as a JSON file and as a CSV file whose header is the first row's
 * keys. The fetch is a parameter; each file write becomes an emitted
 * `Write` record, the JSON text being represented by the rows it encodes.
 */
module BackupSupabase {
  import opened Wrappers
  import opened Strings
  import opened Csv

  /** The tables backed up, in order. */
  const Tables: seq<string> := ["profiles", "categorias", "contas", "lancamentos", "unidades"]

  /**
   * A fetched row: `Object.keys(row)` in order and each value as
   * `String(value)`, where None stands for `null` or `undefined`.
   */
  datatype Row = Row(keys: seq<string>, values: map<string, Option<string>>)

  /** `row[header]`: a key the row does not have reads as `undefined`. */
  function Value(row: Row, header: string): Option<string>
  {
    if header in row.values then row.values[header] else None
  }

  /**
   * One CSV field: empty for `null`/`undefined`, otherwise `String(value)`,
   * quoted with inner quotes doubled when it holds `,`, `"` or `\n`.
   */
  function EscapeValue(value: Option<string>): (f: string)
    ensures value.None? ==> f == ""
    ensures EncodesField(f, value.GetOr(""))
  {
    match value
    case None => ""
    case Some(s) => if ',' in s || '"' in s || '\n' in s then Quote(s) else s
  }

  /** A value left bare is exactly the value, and a quoted one needed quoting. */
  lemma EscapeValueBare(s: string)
    ensures EscapeValue(Some(s)) == s <==> (',' !in s && '"' !in s && '\n' !in s)
  {
    var f := EscapeValue(Some(s));
    if ',' in s || '"' in s || '\n' in s {
      assert f == Quote(s);
      if f == s {
        assert |Quote(s)| == |ReplaceAll(s, '"', "\"\"")| + 2;
        ReplaceAllLength(s);
        assert false;
      }
    }
  }

  /** Doubling quotes never shortens a value. */
  lemma {:induction false} ReplaceAllLength(s: string)
    ensures |ReplaceAll(s, '"', "\"\"")| >= |s|
  {
    if s != [] {
      ReplaceAllLength(s[1..]);
    }
  }

  /** The fields of one row, one per header in header order. */
  function RowFields(headers: seq<string>, row: Row): (r: seq<string>)
    ensures |r| == |headers|
  {
    seq(|headers|, i requires 0 <= i < |headers| => EscapeValue(Value(row, headers[i])))
  }

  /** The header line, then one line per row, joined by `\n` (no final line feed). */
  function CsvLines(data: seq<Row>): (r: seq<string>)
    requires data != []
    ensures |r| == |data| + 1
  {
    var headers := data[0].keys;
    [Join(headers, ",")] + seq(|data|, j requires 0 <= j < |data| => Join(RowFields(headers, data[j]), ","))
  }

  function CsvText(data: seq<Row>): string
    requires data != []
  {
    Join(CsvLines(data), "\n")
  }

  /** A file written by the script. */
  datatype Write = JsonFile(path: string, rows: seq<Row>) | CsvFile(path: string, text: string)

  /** `join(backupDir, file)` for a file name without separators. */
  function PathIn(dir: string, file: string): string
  {
    dir + "/" + file
  }

  /**
   * `exportTable(tableName)` on the fetch result: an error or an empty table
   * writes nothing; otherwise the JSON file and then the CSV file.
   */
  function ExportTable(tableName: string, fetched: Result<seq<Row>>, backupDir: string): (w: seq<Write>)
    ensures w == [] <==> fetched.Err? || fetched.value == []
    ensures w != [] ==> w == [JsonFile(PathIn(backupDir, tableName + ".json"), fetched.value),
                              CsvFile(PathIn(backupDir, tableName + ".csv"), CsvText(fetched.value))]
  {
    match fetched
    case Err(_) => []
    case Ok(data) =>
      if data == [] then []
      else [JsonFile(PathIn(backupDir, tableName + ".json"), data),
            CsvFile(PathIn(backupDir, tableName + ".csv"), CsvText(data))]
  }

  /** The writes of the tables in order. */
  function WritesOf(tables: seq<string>, fetch: string -> Result<seq<Row>>, backupDir: string): seq<Write>
  {
    if tables == [] then []
    else
      var last := tables[|tables| - 1];
      WritesOf(tables[..|tables| - 1], fetch, backupDir) + ExportTable(last, fetch(last), backupDir)
  }

  /** `backupAll()`: every table of the list exported in turn. */
  method BackupAll(fetch: string -> Result<seq<Row>>, backupDir: string) returns (writes: seq<Write>)
    ensures writes == WritesOf(Tables, fetch, backupDir)
    ensures |writes| <= 2 * |Tables|
  {
    writes := [];
    for i := 0 to |Tables|
      invariant writes == WritesOf(Tables[..i], fetch, backupDir)
      invariant |writes| <= 2 * i
    {
      var table := Tables[i];
      assert Tables[..i + 1][..i] == Tables[..i];
      writes := writes + ExportTable(table, fetch(table), backupDir);
    }
    assert Tables[..|Tables|] == Tables;
  }

  /** A table whose fetch fails or comes back empty contributes no file. */
  lemma SkippedTable(tables: seq<string>, t: string, fetch: string -> Result<seq<Row>>, backupDir: string)
    requires fetch(t).Err? || fetch(t).value == []
    ensures WritesOf(tables + [t], fetch, backupDir) == WritesOf(tables, fetch, backupDir)
  {
    assert (tables + [t])[..|tables|] == tables;
  }

  /** No field of a row holds a line feed when none of its values does. */
  lemma RowFieldsSingleLine(headers: seq<string>, row: Row)
    requires forall h :: h in headers && Value(row, h).Some? ==> '\n' !in Value(row, h).value
    ensures forall i :: 0 <= i < |headers| ==> '\n' !in RowFields(headers, row)[i]
  {
    forall i | 0 <= i < |headers|
      ensures '\n' !in RowFields(headers, row)[i]
    {
      var v := Value(row, headers[i]);
      if v.Some? && EscapeValue(v) != v.value {
        QuoteKeepsAbsent(v.value, '\n');
      }
    }
  }

  /** No key and no value of the data holds a line feed. */
  predicate SingleLineData(data: seq<Row>)
  {
    data != [] &&
    (forall i :: 0 <= i < |data[0].keys| ==> '\n' !in data[0].keys[i]) &&
    (forall j, h :: 0 <= j < |data| && h in data[0].keys && Value(data[j], h).Some? ==>
       '\n' !in Value(data[j], h).value)
  }

  /**
   * Read back line by line, the CSV file is the header line followed by
   * exactly one line per row, in order.
   */
  lemma CsvTextSplit(data: seq<Row>)
    requires SingleLineData(data)
    ensures Split(CsvText(data), '\n') == CsvLines(data)
  {
    var ls := CsvLines(data);
    var headers := data[0].keys;
    JoinNoChar(headers, ",", '\n');
    forall k | 0 <= k < |ls|
      ensures '\n' !in ls[k]
    {
      if k > 0 {
        RowFieldsSingleLine(headers, data[k - 1]);
        JoinNoChar(RowFields(headers, data[k - 1]), ",", '\n');
      }
    }
    SplitJoin(ls, '\n');
  }
}
