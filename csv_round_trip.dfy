/**
 * The CSV files the export scripts write, read back with the application's
 * line splitter `parseCSVLine` (src/services/import-data.ts): every line
 * gives back its values, trimmed.
 */
module CsvRoundTrip {
  import opened Wrappers
  import opened Strings
  import opened Csv
  import ImportData
  import BackupSupabase
  import SqlToCsv

  /** The values of a backed-up row in header order, `null`/`undefined` read as "". */
  function BackupValues(headers: seq<string>, row: BackupSupabase.Row): (r: seq<string>)
    ensures |r| == |headers|
  {
    seq(|headers|, i requires 0 <= i < |headers| => BackupSupabase.Value(row, headers[i]).GetOr(""))
  }

  /** A backup line read back gives one field per header: the row's values, trimmed. */
  lemma BackupLineReadBack(headers: seq<string>, row: BackupSupabase.Row)
    requires |headers| >= 1
    ensures ImportData.Fields(Join(BackupSupabase.RowFields(headers, row), ",")) == TrimEach(BackupValues(headers, row))
  {
    var fields := BackupSupabase.RowFields(headers, row);
    var values := BackupValues(headers, row);
    assert forall i :: 0 <= i < |fields| ==> EncodesField(fields[i], values[i]);
    ImportData.ParseJoined(fields, values, "");
    assert Join(fields, ",") + "" == Join(fields, ",");
  }

  /** Trimmed values come back exactly. */
  lemma TrimEachTrimmed(values: seq<string>)
    requires forall i :: 0 <= i < |values| ==> Trim(values[i]) == values[i]
    ensures TrimEach(values) == values
  {
  }

  /** The header keys need no quoting, as the script joins them bare. */
  predicate BareHeaders(headers: seq<string>)
  {
    |headers| >= 1 && forall i :: 0 <= i < |headers| ==> ',' !in headers[i] && '"' !in headers[i]
  }

  /**
   * Escaping followed by `parseCSVLine`: a backup file read line by line is
   * the header, then one line per row holding that row's values, trimmed,
   * one per header key.
   */
  lemma BackupReadBack(data: seq<BackupSupabase.Row>)
    requires BackupSupabase.SingleLineData(data) && BareHeaders(data[0].keys)
    ensures |Split(BackupSupabase.CsvText(data), '\n')| == |data| + 1
    ensures ImportData.Fields(Split(BackupSupabase.CsvText(data), '\n')[0]) == TrimEach(data[0].keys)
    ensures forall j :: 0 <= j < |data| ==>
      ImportData.Fields(Split(BackupSupabase.CsvText(data), '\n')[j + 1]) == TrimEach(BackupValues(data[0].keys, data[j]))
  {
    var headers := data[0].keys;
    var lines := Split(BackupSupabase.CsvText(data), '\n');
    BackupSupabase.CsvTextSplit(data);
    assert lines[0] == Join(headers, ",");
    ImportData.ParseJoined(headers, headers, "");
    assert Join(headers, ",") + "" == Join(headers, ",");
    forall j | 0 <= j < |data|
      ensures ImportData.Fields(lines[j + 1]) == TrimEach(BackupValues(headers, data[j]))
    {
      assert lines[j + 1] == Join(BackupSupabase.RowFields(headers, data[j]), ",");
      BackupLineReadBack(headers, data[j]);
    }
  }

  /** Values without surrounding whitespace come back unchanged. */
  lemma BackupReadBackExact(data: seq<BackupSupabase.Row>, j: nat)
    requires BackupSupabase.SingleLineData(data) && BareHeaders(data[0].keys)
    requires j < |data|
    requires forall h :: h in data[0].keys && BackupSupabase.Value(data[j], h).Some? ==>
      Trim(BackupSupabase.Value(data[j], h).value) == BackupSupabase.Value(data[j], h).value
    ensures var lines := Split(BackupSupabase.CsvText(data), '\n');
      |lines| == |data| + 1 && ImportData.Fields(lines[j + 1]) == BackupValues(data[0].keys, data[j])
  {
    var values := BackupValues(data[0].keys, data[j]);
    BackupReadBack(data);
    forall i | 0 <= i < |values|
      ensures Trim(values[i]) == values[i]
    {
      if BackupSupabase.Value(data[j], data[0].keys[i]).None? {
        assert values[i] == "";
        TrimUnchanged("");
      }
    }
    TrimEachTrimmed(values);
  }

  /** A written record read back gives the row's cells, trimmed (the `\r` of `\r\n` is trimmed off). */
  lemma RecordReadBack(row: seq<string>)
    requires |row| >= 1
    ensures ImportData.Fields(SqlToCsv.Record(row)) == TrimEach(row)
  {
    var fields := SqlToCsv.WriterFields(row);
    SqlToCsv.WriterEachEncodes(row);
    assert forall i :: 0 <= i < |fields| ==> EncodesField(fields[i], row[i]);
    assert IsBlank("\r");
    ImportData.ParseJoined(fields, row, "\r");
  }

  /**
   * A CSV file written by `export_to_csv`, read line by line with
   * `parseCSVLine`: the header gives the columns and line `k + 1` gives row
   * `k`, each trimmed.
   */
  lemma SqlExportReadBack(header: seq<string>, rows: seq<seq<string>>)
    requires |header| >= 1 && forall k :: 0 <= k < |rows| ==> |rows[k]| >= 1
    requires SqlToCsv.SingleLineRow(header) && SqlToCsv.SingleLineCells(rows)
    ensures |Split(SqlToCsv.CsvText(header, rows), '\n')| == |rows| + 2
    ensures ImportData.Fields(Split(SqlToCsv.CsvText(header, rows), '\n')[0]) == TrimEach(header)
    ensures forall k :: 0 <= k < |rows| ==>
      ImportData.Fields(Split(SqlToCsv.CsvText(header, rows), '\n')[k + 1]) == TrimEach(rows[k])
  {
    SqlToCsv.CsvTextSplit(header, rows);
    LinesReadBack(header, rows, Split(SqlToCsv.CsvText(header, rows), '\n'));
  }

  /** The header line, the row lines and the empty last line read back as the header and the rows. */
  lemma LinesReadBack(header: seq<string>, rows: seq<seq<string>>, lines: seq<string>)
    requires |header| >= 1 && forall k :: 0 <= k < |rows| ==> |rows[k]| >= 1
    requires lines == SqlToCsv.CsvLines(header, rows) + [""]
    ensures |lines| == |rows| + 2
    ensures ImportData.Fields(lines[0]) == TrimEach(header)
    ensures forall k :: 0 <= k < |rows| ==> ImportData.Fields(lines[k + 1]) == TrimEach(rows[k])
  {
    var records := SqlToCsv.RecordLines(rows);
    assert lines == [SqlToCsv.Record(header)] + records + [""];
    RecordReadBack(header);
    RecordLinesReadBack(rows);
    forall k | 0 <= k < |rows|
      ensures ImportData.Fields(lines[k + 1]) == TrimEach(rows[k])
    {
      assert lines[k + 1] == records[k];
    }
  }

  /** Each written row line reads back as its row, trimmed. */
  lemma RecordLinesReadBack(rows: seq<seq<string>>)
    requires forall k :: 0 <= k < |rows| ==> |rows[k]| >= 1
    ensures forall k :: 0 <= k < |rows| ==> ImportData.Fields(SqlToCsv.RecordLines(rows)[k]) == TrimEach(rows[k])
  {
    forall k | 0 <= k < |rows|
      ensures ImportData.Fields(SqlToCsv.RecordLines(rows)[k]) == TrimEach(rows[k])
    {
      RecordReadBack(rows[k]);
    }
  }
}
