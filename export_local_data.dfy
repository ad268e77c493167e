/**
 * The local backup script (backups/code-backup/scripts/export-local-data.ts):
 * every table of the SQLite database is read and, unless empty, written as
 * a JSON file and a CSV file built exactly as the Supabase backup builds
 * them. The table list and the reads are parameters; a read that throws
 * ends the script after the files already written.
 */
module ExportLocalData {
  import opened Wrappers
  import opened BackupSupabase

  /** The outcome: the files written, and whether the script exited with an error. */
  datatype Outcome = Outcome(writes: seq<Write>, failed: bool)

  /** The files of one non-empty table: its JSON file, then its CSV file. */
  function TableWrites(tableName: string, data: seq<Row>, backupDir: string): (w: seq<Write>)
    ensures data == [] ==> w == []
    ensures data != [] ==> w == ExportTable(tableName, Ok(data), backupDir)
  {
    if data == [] then []
    else [JsonFile(PathIn(backupDir, tableName + ".json"), data),
          CsvFile(PathIn(backupDir, tableName + ".csv"), CsvText(data))]
  }

  /** Reference definition: the files written for the tables, up to the first read that throws. */
  function LocalWrites(tables: seq<string>, read: string -> Result<seq<Row>>, backupDir: string): Outcome
  {
    if tables == [] then Outcome([], false)
    else
      var before := LocalWrites(tables[..|tables| - 1], read, backupDir);
      var t := tables[|tables| - 1];
      if before.failed then before
      else match read(t)
        case Err(_) => Outcome(before.writes, true)
        case Ok(data) => Outcome(before.writes + TableWrites(t, data, backupDir), false)
  }

  /** The per-table loop of the script. */
  method ExportLocal(tables: seq<string>, read: string -> Result<seq<Row>>, backupDir: string)
    returns (outcome: Outcome)
    ensures outcome == LocalWrites(tables, read, backupDir)
  {
    var writes: seq<Write> := [];
    var i := 0;
    while i < |tables|
      invariant 0 <= i <= |tables|
      invariant LocalWrites(tables[..i], read, backupDir) == Outcome(writes, false)
    {
      assert tables[..i + 1][..i] == tables[..i];
      var t := tables[i];
      match read(t)
      case Err(_) =>
        LocalFailedStays(tables, i, read, backupDir);
        return Outcome(writes, true);
      case Ok(data) =>
        if data != [] {
          writes := writes + TableWrites(t, data, backupDir);
        }
      i := i + 1;
    }
    assert tables[..i] == tables;
    return Outcome(writes, false);
  }

  /** Once a read has thrown, the outcome no longer changes. */
  lemma {:induction false} LocalFailedStays(tables: seq<string>, i: nat, read: string -> Result<seq<Row>>, backupDir: string)
    requires i < |tables| && read(tables[i]).Err?
    requires !LocalWrites(tables[..i], read, backupDir).failed
    ensures LocalWrites(tables, read, backupDir) == Outcome(LocalWrites(tables[..i], read, backupDir).writes, true)
    decreases |tables|
  {
    if |tables| - 1 == i {
      assert tables[..|tables| - 1] == tables[..i];
    } else {
      var init := tables[..|tables| - 1];
      assert init[..i] == tables[..i];
      LocalFailedStays(init, i, read, backupDir);
    }
  }

  /**
   * Without read errors the local export writes, table by table, what the
   * Supabase backup writes for the same rows.
   */
  lemma {:induction false} SameAsSupabase(tables: seq<string>, read: string -> Result<seq<Row>>, backupDir: string)
    requires forall k :: 0 <= k < |tables| ==> read(tables[k]).Ok?
    ensures LocalWrites(tables, read, backupDir) == Outcome(WritesOf(tables, read, backupDir), false)
  {
    if tables != [] {
      SameAsSupabase(tables[..|tables| - 1], read, backupDir);
    }
  }
}
