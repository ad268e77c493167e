/**
 * The PostgreSQL data-only dump converter (scripts/sql-to-csv.py).
 *
 * `parse_postgres_dump` finds every block of the COPY text format,
 *
 *     COPY public.<name> (<columns>) FROM stdin;
 *     <tab-separated rows, one per line>
 *     \.
 *
 * and collects one table per name; `export_to_csv` writes one CSV file per
 * table, turning the COPY NULL marker `\N` into an empty cell.
 *
 * The block pattern is modelled by an explicit scanner that makes the same
 * choices as Python's backtracking regex engine: the name is the longest run
 * of non-whitespace after which optional whitespace and `(` let the rest of
 * the pattern match, the column list runs to the first `)`, at least one
 * whitespace character precedes `FROM stdin;`, and the data runs lazily to the
 * first `\n\.\n`. `re.findall` resumes after each match, or one character
 * further after a failed attempt. The table dictionary keeps insertion order,
 * as Python's `dict` does.
 */
module SqlToCsv {
  import opened Wrappers
  import opened Strings
  import opened Csv

  const CopyPrefix: string := "COPY public."
  const FromStdin: string := "FROM stdin;"
  /** The end-of-data marker: a line holding only a backslash and a period. */
  const Terminator: string := "\n\\.\n"
  /** The COPY text format's NULL marker, `\N`. */
  const NullMarker: string := "\\N"

  /** The three groups of one match: raw name, column list and data. */
  datatype Block = Block(rawName: string, columnList: string, data: string)

  datatype Found = Found(block: Block, end: nat)

  // ------------------------------------------------------------------ scanner

  /** The index just past the run of non-whitespace starting at `i`. */
  function WordRun(s: string, i: nat): (j: nat)
    requires i <= |s|
    ensures i <= j <= |s|
    ensures j < |s| ==> IsSpace(s[j])
    decreases |s| - i
  {
    if i < |s| && !IsSpace(s[i]) then WordRun(s, i + 1) else i
  }

  lemma {:induction false} WordRunAll(s: string, i: nat)
    requires i <= |s|
    ensures forall k :: i <= k < WordRun(s, i) ==> !IsSpace(s[k])
    decreases |s| - i
  {
    if i < |s| && !IsSpace(s[i]) {
      WordRunAll(s, i + 1);
    }
  }

  /**
   * The pattern after group 1 = s[a..e]: `\s*\(([^)]+)\)\s+FROM stdin;(.*?)\n\\\.\n`.
   * Every quantifier here has one possible extent, so no backtracking is
   * needed: each stage scans forward and hands over to the next.
   */
  function AfterName(s: string, a: nat, e: nat): (r: Option<Found>)
    requires a < e <= |s|
    ensures r.Some? ==> e < r.value.end <= |s| && r.value.block.rawName == s[a..e]
  {
    OpenFrom(s, s[a..e], e)
  }

  /** `\s*\(` from index `i`. */
  function OpenFrom(s: string, name: string, i: nat): (r: Option<Found>)
    requires i <= |s|
    ensures r.Some? ==> i < r.value.end <= |s| && r.value.block.rawName == name
    decreases |s| - i
  {
    if i == |s| then None
    else if IsSpace(s[i]) then OpenFrom(s, name, i + 1)
    else if s[i] == '(' then ColumnsFrom(s, name, i + 1, i + 1)
    else None
  }

  /** `([^)]+)\)`: the column list starts at `o`, and `c` is the scan position. */
  function ColumnsFrom(s: string, name: string, o: nat, c: nat): (r: Option<Found>)
    requires o <= c <= |s|
    ensures r.Some? ==> c < r.value.end <= |s| && r.value.block.rawName == name
    decreases |s| - c
  {
    if c == |s| then None
    else if s[c] != ')' then ColumnsFrom(s, name, o, c + 1)
    else if c == o then None
    else StdinFrom(s, name, s[o..c], c + 1, c + 1)
  }

  /** `\s+FROM stdin;`: the blanks start at `o`, and `f` is the scan position. */
  function StdinFrom(s: string, name: string, cl: string, o: nat, f: nat): (r: Option<Found>)
    requires o <= f <= |s|
    ensures r.Some? ==> f < r.value.end <= |s| && r.value.block.rawName == name && r.value.block.columnList == cl
    decreases |s| - f
  {
    if f < |s| && IsSpace(s[f]) then StdinFrom(s, name, cl, o, f + 1)
    else if f == o || !OccursAt(s, FromStdin, f) then None
    else DataFrom(s, name, cl, f + |FromStdin|, f + |FromStdin|)
  }

  /** `(.*?)\n\\\.\n`: the data starts at `d`, and `t` is the lazy scan position. */
  function DataFrom(s: string, name: string, cl: string, d: nat, t: nat): (r: Option<Found>)
    requires d <= t <= |s|
    ensures r.Some? ==> t < r.value.end <= |s| && r.value.block.rawName == name && r.value.block.columnList == cl
    decreases |s| - t
  {
    if t == |s| then None
    else if OccursAt(s, Terminator, t) then Some(Found(Block(name, cl, s[d..t]), t + |Terminator|))
    else DataFrom(s, name, cl, d, t + 1)
  }

  /** Group 1 `[^\s]+` tried as s[a..e], from the longest extent down to one character. */
  function NameCandidates(s: string, a: nat, e: nat): (r: Option<Found>)
    requires a <= e <= |s|
    ensures r.Some? ==> a < r.value.end <= |s|
    decreases e
  {
    if e == a then None
    else
      match AfterName(s, a, e)
      case Some(f) => Some(f)
      case None => NameCandidates(s, a, e - 1)
  }

  /** One attempt of the pattern at position `p`. */
  function MatchAt(s: string, p: nat): (r: Option<Found>)
    requires p <= |s|
    ensures r.Some? ==> p < r.value.end <= |s|
  {
    if !OccursAt(s, CopyPrefix, p) then None
    else
      var a := p + |CopyPrefix|;
      NameCandidates(s, a, WordRun(s, a))
  }

  /** `re.findall` from position `p`: non-overlapping matches, left to right. */
  function FindFrom(s: string, p: nat): (r: seq<Block>)
    requires p <= |s|
    decreases |s| - p
  {
    if p == |s| then []
    else
      match MatchAt(s, p)
      case Some(f) => [f.block] + FindFrom(s, f.end)
      case None => FindFrom(s, p + 1)
  }

  function FindAll(s: string): seq<Block>
  {
    FindFrom(s, 0)
  }

  // ------------------------------------------------------ shape of a match

  /** In `u`, the terminator occurs first at index `n`. */
  predicate FirstTerminatorAt(u: string, n: nat)
  {
    OccursAt(u, Terminator, n) && forall k :: 0 <= k < n ==> !OccursAt(u, Terminator, k)
  }

  lemma OccursAtShift(s: string, sub: string, off: nat, k: nat, u: string)
    requires off <= |s| && u == s[off..]
    ensures OccursAt(u, sub, k) <==> OccursAt(s, sub, off + k)
  {
    if 0 <= k <= |u| - |sub| {
      assert u[k..k + |sub|] == s[off + k..off + k + |sub|];
    }
  }

  /**
   * A match found by a stage starting at `start` ends with a terminator at or
   * after `start`, and its data runs to the first terminator.
   */
  predicate EndsAtTerminator(s: string, start: int, f: Found)
  {
    start <= f.end - |Terminator| && OccursAt(s, Terminator, f.end - |Terminator|) &&
    FirstTerminatorAt(f.block.data + Terminator, |f.block.data|)
  }

  /** The groups a match gives: a non-blank name without whitespace, a non-empty column list without `)`. */
  predicate ShapedBlock(b: Block)
  {
    b.rawName != [] && (forall i :: 0 <= i < |b.rawName| ==> !IsSpace(b.rawName[i])) &&
    b.columnList != [] && ')' !in b.columnList &&
    FirstTerminatorAt(b.data + Terminator, |b.data|)
  }

  /** The data run and the terminator that ends it, cut out of the text. */
  lemma FirstTerminatorSlice(s: string, d: nat, t: nat)
    requires d <= t && t + |Terminator| <= |s| && OccursAt(s, Terminator, t)
    requires forall k :: d <= k < t ==> !OccursAt(s, Terminator, k)
    ensures FirstTerminatorAt(s[d..t] + Terminator, t - d)
  {
    var u := s[d..t + |Terminator|];
    assert u == s[d..t] + Terminator;
    forall k | 0 <= k <= t - d
      ensures OccursAt(u, Terminator, k) <==> OccursAt(s, Terminator, d + k)
    {
      assert u[k..k + 4] == s[d + k..d + k + 4];
    }
  }

  lemma {:induction false} DataShape(s: string, name: string, cl: string, d: nat, t: nat)
    requires d <= t <= |s|
    requires forall k :: d <= k < t ==> !OccursAt(s, Terminator, k)
    requires DataFrom(s, name, cl, d, t).Some?
    ensures EndsAtTerminator(s, d, DataFrom(s, name, cl, d, t).value)
    decreases |s| - t
  {
    if OccursAt(s, Terminator, t) {
      FirstTerminatorSlice(s, d, t);
    } else {
      DataShape(s, name, cl, d, t + 1);
    }
  }

  lemma {:induction false} StdinShape(s: string, name: string, cl: string, o: nat, f: nat)
    requires o <= f <= |s| && StdinFrom(s, name, cl, o, f).Some?
    ensures EndsAtTerminator(s, f, StdinFrom(s, name, cl, o, f).value)
    decreases |s| - f
  {
    if f < |s| && IsSpace(s[f]) {
      StdinShape(s, name, cl, o, f + 1);
    } else {
      var d := f + |FromStdin|;
      DataShape(s, name, cl, d, d);
    }
  }

  lemma {:induction false} ColumnsShape(s: string, name: string, o: nat, c: nat)
    requires o <= c <= |s| && ColumnsFrom(s, name, o, c).Some?
    requires forall k :: o <= k < c ==> s[k] != ')'
    ensures var r := ColumnsFrom(s, name, o, c).value;
      r.block.columnList != [] && ')' !in r.block.columnList && EndsAtTerminator(s, c, r)
    decreases |s| - c
  {
    if s[c] != ')' {
      ColumnsShape(s, name, o, c + 1);
    } else {
      assert forall i :: 0 <= i < c - o ==> s[o..c][i] == s[o + i];
      StdinShape(s, name, s[o..c], c + 1, c + 1);
    }
  }

  lemma {:induction false} OpenShape(s: string, name: string, i: nat)
    requires i <= |s| && OpenFrom(s, name, i).Some?
    ensures var r := OpenFrom(s, name, i).value;
      r.block.columnList != [] && ')' !in r.block.columnList && EndsAtTerminator(s, i, r)
    decreases |s| - i
  {
    if IsSpace(s[i]) {
      OpenShape(s, name, i + 1);
    } else {
      ColumnsShape(s, name, i + 1, i + 1);
    }
  }

  /** What a successful candidate consumed. */
  lemma AfterNameShape(s: string, a: nat, e: nat)
    requires a < e <= |s|
    requires forall k :: a <= k < e ==> !IsSpace(s[k])
    requires AfterName(s, a, e).Some?
    ensures ShapedBlock(AfterName(s, a, e).value.block) && EndsAtTerminator(s, a, AfterName(s, a, e).value)
  {
    OpenShape(s, s[a..e], e);
    assert forall i :: 0 <= i < e - a ==> s[a..e][i] == s[a + i];
  }

  lemma {:induction false} CandidatesShape(s: string, a: nat, e: nat)
    requires a <= e <= |s|
    requires forall k :: a <= k < e ==> !IsSpace(s[k])
    requires NameCandidates(s, a, e).Some?
    ensures ShapedBlock(NameCandidates(s, a, e).value.block) && EndsAtTerminator(s, a, NameCandidates(s, a, e).value)
    decreases e
  {
    if AfterName(s, a, e).Some? {
      AfterNameShape(s, a, e);
    } else {
      CandidatesShape(s, a, e - 1);
    }
  }

  /**
   * Every match of the pattern has a non-blank name without whitespace, a
   * non-empty column list without `)`, and data ending at the first
   * terminator, which follows the match's start.
   */
  lemma MatchAtShape(s: string, p: nat)
    requires p <= |s| && MatchAt(s, p).Some?
    ensures ShapedBlock(MatchAt(s, p).value.block)
    ensures p <= MatchAt(s, p).value.end - |Terminator| && OccursAt(s, Terminator, MatchAt(s, p).value.end - |Terminator|)
  {
    var a := p + |CopyPrefix|;
    WordRunAll(s, a);
    CandidatesShape(s, a, WordRun(s, a));
  }

  /** A block whose data has no terminator after it is never matched. */
  lemma {:induction false} NoTerminatorNoMatch(s: string, p: nat)
    requires p <= |s|
    requires forall k :: p <= k <= |s| ==> !OccursAt(s, Terminator, k)
    ensures FindFrom(s, p) == []
    decreases |s| - p
  {
    if p < |s| {
      if MatchAt(s, p).Some? {
        MatchAtShape(s, p);
        assert false;
      }
      NoTerminatorNoMatch(s, p + 1);
    }
  }

  // ------------------------------------------------------------- one table

  datatype Table = Table(columns: seq<string>, rows: seq<seq<string>>)

  /** Python `str.strip('"')`: every leading and trailing double quote removed. */
  function StripQuotes(s: string): (r: string)
    ensures |r| <= |s|
    ensures r == [] || (r[0] != '"' && r[|r| - 1] != '"')
    ensures (s == [] || (s[0] != '"' && s[|s| - 1] != '"')) ==> r == s
    decreases |s|
  {
    if s != [] && s[0] == '"' then StripQuotes(s[1..])
    else if s != [] && s[|s| - 1] == '"' then StripQuotes(s[..|s| - 1])
    else s
  }

  /** A name written as a quoted identifier comes out without its quotes. */
  lemma StripQuotedName(n: string)
    requires n != [] && n[0] != '"' && n[|n| - 1] != '"'
    ensures StripQuotes("\"" + n + "\"") == n
  {
    var q := "\"" + n + "\"";
    assert q[1..] == n + "\"";
    assert (n + "\"")[..|n|] == n;
  }

  /** `[col.strip() for col in columns_str.split(',')]`. */
  function ColumnsOf(columnList: string): (r: seq<string>)
    ensures |r| == Count(columnList, ',') + 1
  {
    TrimEach(Split(columnList, ','))
  }

  /** Every column name is trimmed and holds no comma. */
  lemma ColumnsClean(columnList: string)
    ensures var r := ColumnsOf(columnList);
      forall i :: 0 <= i < |r| ==> Trim(r[i]) == r[i] && ',' !in r[i]
  {
    var parts := Split(columnList, ',');
    var r := ColumnsOf(columnList);
    forall i | 0 <= i < |r| ensures Trim(r[i]) == r[i] && ',' !in r[i] {
      TrimIdempotent(parts[i]);
      TrimSubset(parts[i], ',');
    }
  }

  lemma TrimSubset(s: string, c: char)
    requires c !in s
    ensures c !in Trim(s)
  {
    var t := TrimStart(s);
    TrimStartSpaces(s);
    TrimEndSpaces(t);
    assert forall x :: x in t ==> x in s;
    assert forall x :: x in TrimEnd(t) ==> x in t;
  }

  /** The stripped lines that are not blank, in order. */
  function NonBlankTrimmed(lines: seq<string>): (r: seq<string>)
    ensures |r| <= |lines|
  {
    if lines == [] then []
    else
      var rest := NonBlankTrimmed(lines[1..]);
      var t := Trim(lines[0]);
      if t == [] then rest else [t] + rest
  }

  /** Each line kept is non-empty and already trimmed. */
  lemma {:induction false} NonBlankTrimmedClean(lines: seq<string>)
    ensures forall i :: 0 <= i < |NonBlankTrimmed(lines)| ==> NonBlankTrimmed(lines)[i] != [] && Trim(NonBlankTrimmed(lines)[i]) == NonBlankTrimmed(lines)[i]
  {
    if lines != [] {
      var rest := NonBlankTrimmed(lines[1..]);
      NonBlankTrimmedClean(lines[1..]);
      TrimIdempotent(lines[0]);
      var t := Trim(lines[0]);
      if t != [] {
        var r := [t] + rest;
        assert NonBlankTrimmed(lines) == r;
        forall i | 0 <= i < |r| ensures r[i] != [] && Trim(r[i]) == r[i] {
          if i > 0 {
            assert r[i] == rest[i - 1];
          }
        }
      }
    }
  }

  /** A character in none of the lines is in none of the kept lines. */
  lemma {:induction false} NonBlankTrimmedAbsent(lines: seq<string>, c: char)
    requires forall i :: 0 <= i < |lines| ==> c !in lines[i]
    ensures forall i :: 0 <= i < |NonBlankTrimmed(lines)| ==> c !in NonBlankTrimmed(lines)[i]
  {
    if lines != [] {
      NonBlankTrimmedAbsent(lines[1..], c);
      TrimSubset(lines[0], c);
    }
  }

  /** `[line.strip() for line in data_str.strip().split('\n') if line.strip()]`. */
  function DataLines(data: string): seq<string>
  {
    NonBlankTrimmed(Split(Trim(data), '\n'))
  }

  /** Each line split on tab into its cells. */
  function RowsOf(lines: seq<string>): (r: seq<seq<string>>)
    ensures |r| == |lines|
    ensures forall i :: 0 <= i < |lines| ==> r[i] == Split(lines[i], '\t')
  {
    seq(|lines|, i requires 0 <= i < |lines| => Split(lines[i], '\t'))
  }

  function TableOf(b: Block): Table
  {
    Table(ColumnsOf(b.columnList), RowsOf(DataLines(b.data)))
  }

  function NameOf(b: Block): string
  {
    StripQuotes(b.rawName)
  }

  /** A block contributes a table only when it has a non-blank data line. */
  predicate HasRows(b: Block)
  {
    DataLines(b.data) != []
  }

  // ------------------------------------------------- the insertion-ordered map

  /** A Python dict from table name to table: keys in insertion order. */
  datatype Dump = Dump(names: seq<string>, tables: map<string, Table>)
  {
    ghost predicate Valid()
    {
      (forall i, j :: 0 <= i < j < |names| ==> names[i] != names[j]) &&
      (forall k :: k in tables <==> k in names)
    }
  }

  /** `d[k] = v`: a new key goes to the end, an existing key keeps its place. */
  function Put(d: Dump, k: string, v: Table): Dump
  {
    Dump(if k in d.tables then d.names else d.names + [k], d.tables[k := v])
  }

  lemma PutValid(d: Dump, k: string, v: Table)
    requires d.Valid()
    ensures Put(d, k, v).Valid()
  {
  }

  /** The loop of `parse_postgres_dump` as a fold over the matches. */
  function Collect(blocks: seq<Block>): Dump
  {
    if blocks == [] then Dump([], map[])
    else
      var d := Collect(blocks[..|blocks| - 1]);
      var b := blocks[|blocks| - 1];
      if HasRows(b) then Put(d, NameOf(b), TableOf(b)) else d
  }

  /** Reference definition: the table of the last block with rows that has this name. */
  function LastTable(blocks: seq<Block>, k: string): Option<Table>
  {
    if blocks == [] then None
    else
      var b := blocks[|blocks| - 1];
      if HasRows(b) && NameOf(b) == k then Some(TableOf(b))
      else LastTable(blocks[..|blocks| - 1], k)
  }

  /** The names of the blocks with rows, first occurrences only, in order. */
  function FirstNames(blocks: seq<Block>): (r: seq<string>)
  {
    if blocks == [] then []
    else
      var r := FirstNames(blocks[..|blocks| - 1]);
      var b := blocks[|blocks| - 1];
      if HasRows(b) && NameOf(b) !in r then r + [NameOf(b)] else r
  }

  /** The parsed dump never repeats a name, and its names are exactly its keys. */
  lemma {:induction false} CollectValid(blocks: seq<Block>)
    ensures Collect(blocks).Valid()
  {
    if blocks != [] {
      var b := blocks[|blocks| - 1];
      CollectValid(blocks[..|blocks| - 1]);
      if HasRows(b) {
        PutValid(Collect(blocks[..|blocks| - 1]), NameOf(b), TableOf(b));
      }
    }
  }

  /** The names appear in the order they first occurred in a block with rows. */
  lemma {:induction false} CollectNames(blocks: seq<Block>)
    ensures Collect(blocks).names == FirstNames(blocks)
  {
    if blocks != [] {
      var init := blocks[..|blocks| - 1];
      CollectNames(init);
      CollectValid(init);
    }
  }

  /** Each name holds the table of the last block with rows under that name. */
  lemma {:induction false} CollectTables(blocks: seq<Block>, k: string)
    ensures k in Collect(blocks).tables <==> LastTable(blocks, k).Some?
    ensures k in Collect(blocks).tables ==> Collect(blocks).tables[k] == LastTable(blocks, k).value
  {
    if blocks != [] {
      CollectTables(blocks[..|blocks| - 1], k);
    }
  }

  /** A block without rows adds nothing and overwrites nothing. */
  lemma EmptyBlockIgnored(blocks: seq<Block>, b: Block)
    requires !HasRows(b)
    ensures Collect(blocks + [b]) == Collect(blocks)
  {
    assert (blocks + [b])[..|blocks|] == blocks;
  }

  /** A later block with rows replaces the table under its name but keeps the name's position. */
  lemma ReplaceKeepsPosition(blocks: seq<Block>, b: Block)
    requires HasRows(b) && NameOf(b) in Collect(blocks).tables
    ensures Collect(blocks + [b]).names == Collect(blocks).names
    ensures Collect(blocks + [b]).tables == Collect(blocks).tables[NameOf(b) := TableOf(b)]
  {
    var all := blocks + [b];
    assert all[..|all| - 1] == blocks && all[|all| - 1] == b;
    var d := Collect(blocks);
    assert Collect(all) == Put(d, NameOf(b), TableOf(b));
  }

  /** The rows of one table: one per non-blank data line, split on tab. */
  method SplitRows(lines: seq<string>) returns (rows: seq<seq<string>>)
    ensures rows == RowsOf(lines)
  {
    rows := [];
    for j := 0 to |lines|
      invariant rows == RowsOf(lines[..j])
    {
      rows := rows + [Split(lines[j], '\t')];
    }
    assert lines[..|lines|] == lines;
  }

  lemma CollectSnoc(blocks: seq<Block>, i: nat)
    requires i < |blocks|
    ensures Collect(blocks[..i + 1]) ==
      if HasRows(blocks[i]) then Put(Collect(blocks[..i]), NameOf(blocks[i]), TableOf(blocks[i]))
      else Collect(blocks[..i])
  {
    assert blocks[..i + 1][..i] == blocks[..i];
  }

  /** `parse_postgres_dump(sql_file)` applied to the file's contents. */
  method ParsePostgresDump(content: string) returns (dump: Dump)
    ensures dump == Collect(FindAll(content))
    ensures dump.Valid()
  {
    var matches := FindAll(content);
    dump := Dump([], map[]);
    for i := 0 to |matches|
      invariant dump == Collect(matches[..i])
    {
      var b := matches[i];
      CollectSnoc(matches, i);
      var name := StripQuotes(b.rawName);
      var columns := ColumnsOf(b.columnList);
      var lines := DataLines(b.data);
      if lines != [] {
        var rows := SplitRows(lines);
        dump := Put(dump, name, Table(columns, rows));
      }
    }
    assert matches[..|matches|] == matches;
    CollectValid(matches);
  }

  // ------------------------------------- a block written as pg_dump writes it

  /** One data line of the COPY text format: the cells joined by tabs. */
  function RenderLine(row: seq<string>): string
  {
    Join(row, "\t")
  }

  /** Lines each preceded by a line feed. */
  function LinesText(lines: seq<string>): string
  {
    if lines == [] then "" else "\n" + lines[0] + LinesText(lines[1..])
  }

  /** The data group of a block: each row's line preceded by a line feed. */
  function RenderData(rows: seq<seq<string>>): string
  {
    LinesText(LinesOf(rows))
  }

  /** A data line that cannot end the data early. */
  predicate PlainLine(l: string)
  {
    l != [] && '\n' !in l && l != "\\."
  }

  /** `COPY public.<name> (<c1>, <c2>, ...) FROM stdin;`, the rows and the `\.` line. */
  function RenderBlock(name: string, columns: seq<string>, rows: seq<seq<string>>): string
  {
    BlockText(name, Join(columns, ", "), RenderData(rows))
  }

  predicate CleanName(name: string)
  {
    name != [] && forall i :: 0 <= i < |name| ==> !IsSpace(name[i])
  }

  predicate CleanColumns(columns: seq<string>)
  {
    |columns| >= 1 &&
    forall i :: 0 <= i < |columns| ==>
      columns[i] != [] && Trim(columns[i]) == columns[i] && ',' !in columns[i] && ')' !in columns[i]
  }

  /**
   * A row pg_dump can write and the script can read back: cells hold no tab or
   * line feed (COPY escapes them), and the line is non-blank, has no
   * whitespace at its ends and is not the `\.` marker.
   */
  predicate CleanRow(row: seq<string>)
  {
    |row| >= 1 &&
    (forall i :: 0 <= i < |row| ==> '\t' !in row[i] && '\n' !in row[i]) &&
    RenderLine(row) != [] && Trim(RenderLine(row)) == RenderLine(row) && RenderLine(row) != "\\."
  }

  predicate CleanRows(rows: seq<seq<string>>)
  {
    |rows| >= 1 && forall i :: 0 <= i < |rows| ==> CleanRow(rows[i])
  }

  lemma RowHasNoLineFeed(row: seq<string>)
    requires CleanRow(row)
    ensures '\n' !in RenderLine(row)
  {
    JoinNoChar(row, "\t", '\n');
  }

  /** In the data followed by `\n\.\n`, the first terminator is the final one. */
  lemma {:induction false} DataTerminator(lines: seq<string>)
    requires forall i :: 0 <= i < |lines| ==> PlainLine(lines[i])
    ensures FirstTerminatorAt(LinesText(lines) + Terminator, |LinesText(lines)|)
  {
    var u := LinesText(lines) + Terminator;
    if lines == [] {
      assert u == Terminator;
    } else {
      var l := lines[0];
      var rest := LinesText(lines[1..]) + Terminator;
      DataTerminator(lines[1..]);
      assert u == "\n" + l + rest;
      var off := 1 + |l|;
      assert u[off..] == rest;
      assert rest[0] == '\n';
      forall k | 0 <= k < |LinesText(lines)|
        ensures !OccursAt(u, Terminator, k)
      {
        if k < off {
          FirstLineNoTerminator(l, rest, k);
        } else {
          OccursAtShift(u, Terminator, off, k - off, rest);
        }
      }
      OccursAtShift(u, Terminator, off, |rest| - 4, rest);
    }
  }

  /** No terminator starts inside a line feed and a plain line that a line feed follows. */
  lemma FirstLineNoTerminator(l: string, rest: string, k: nat)
    requires PlainLine(l) && rest != [] && rest[0] == '\n' && k < 1 + |l|
    ensures !OccursAt("\n" + l + rest, Terminator, k)
  {
    var u := "\n" + l + rest;
    if k > 0 {
      assert u[k] == l[k - 1] != '\n';
    } else if |l| >= 3 {
      assert u[3] == l[2] != '\n';
    } else if |l| == 2 {
      assert u[1..3] == l != "\\.";
    } else {
      assert u[2] == rest[0] != '.';
    }
  }

  /** The rendered data is a line feed and then the lines joined by line feeds. */
  lemma {:induction false} LinesTextJoin(lines: seq<string>)
    requires |lines| >= 1
    ensures LinesText(lines) == "\n" + Join(lines, "\n")
  {
    if |lines| > 1 {
      LinesTextJoin(lines[1..]);
    }
  }

  function LinesOf(rows: seq<seq<string>>): (lines: seq<string>)
    ensures |lines| == |rows|
    ensures forall i :: 0 <= i < |rows| ==> lines[i] == RenderLine(rows[i])
  {
    seq(|rows|, i requires 0 <= i < |rows| => RenderLine(rows[i]))
  }

  lemma {:induction false} NonBlankTrimmedKeeps(lines: seq<string>)
    requires forall i :: 0 <= i < |lines| ==> lines[i] != [] && Trim(lines[i]) == lines[i]
    ensures NonBlankTrimmed(lines) == lines
  {
    if lines != [] {
      NonBlankTrimmedKeeps(lines[1..]);
    }
  }

  /** The data lines read from rendered data are the rendered lines. */
  lemma DataLinesOfRender(rows: seq<seq<string>>)
    requires CleanRows(rows)
    ensures DataLines(RenderData(rows)) == LinesOf(rows)
    ensures RowsOf(DataLines(RenderData(rows))) == rows
  {
    var lines := LinesOf(rows);
    forall i | 0 <= i < |lines| ensures '\n' !in lines[i] {
      RowHasNoLineFeed(rows[i]);
    }
    DataLinesOfLines(lines);
    RowsOfLines(rows);
  }

  /** Lines that are non-blank, trimmed and free of line feeds are read back as written. */
  lemma DataLinesOfLines(lines: seq<string>)
    requires |lines| >= 1
    requires forall i :: 0 <= i < |lines| ==> lines[i] != [] && Trim(lines[i]) == lines[i] && '\n' !in lines[i]
    ensures DataLines(LinesText(lines)) == lines
  {
    var j := Join(lines, "\n");
    LinesTextJoin(lines);
    JoinEdges(lines);
    TrimAfterLineFeed(j);
    assert Trim(LinesText(lines)) == j;
    SplitJoin(lines, '\n');
    NonBlankTrimmedKeeps(lines);
  }

  /** Joined trimmed lines begin and end with a non-space. */
  lemma JoinEdges(lines: seq<string>)
    requires |lines| >= 1
    requires forall i :: 0 <= i < |lines| ==> lines[i] != [] && Trim(lines[i]) == lines[i]
    ensures var j := Join(lines, "\n"); j != [] && !IsSpace(j[0]) && !IsSpace(j[|j| - 1])
  {
    var j := Join(lines, "\n");
    JoinEnds(lines, "\n");
    assert j[0] == lines[0][0];
    var last := lines[|lines| - 1];
    assert j[|j| - 1] == last[|last| - 1];
  }

  /** A line feed before a text with non-space edges is trimmed away. */
  lemma TrimAfterLineFeed(j: string)
    requires j != [] && !IsSpace(j[0]) && !IsSpace(j[|j| - 1])
    ensures Trim("\n" + j) == j
  {
    var d := "\n" + j;
    assert d[1..] == j;
    assert TrimStart(d) == j;
    TrimUnchanged(j);
  }

  /** Splitting each rendered line on tab gives back its cells. */
  lemma RowsOfLines(rows: seq<seq<string>>)
    requires forall i, k :: 0 <= i < |rows| && 0 <= k < |rows[i]| ==> '\t' !in rows[i][k]
    requires forall i :: 0 <= i < |rows| ==> |rows[i]| >= 1
    ensures RowsOf(LinesOf(rows)) == rows
  {
    var parsed := RowsOf(LinesOf(rows));
    forall i | 0 <= i < |rows| ensures parsed[i] == rows[i] {
      SplitJoin(rows[i], '\t');
    }
  }

  /** Each column with a leading blank, as it appears after a comma in `c1, c2, ...`. */
  function Spaced(cs: seq<string>): (r: seq<string>)
    ensures |r| == |cs|
    ensures forall i :: 0 <= i < |cs| ==> r[i] == " " + cs[i]
  {
    if cs == [] then [] else [" " + cs[0]] + Spaced(cs[1..])
  }

  lemma {:induction false} JoinSpacedTail(cs: seq<string>)
    requires |cs| >= 1
    ensures ", " + Join(cs, ", ") == "," + Join(Spaced(cs), ",")
  {
    if |cs| > 1 {
      JoinSpacedTail(cs[1..]);
      var sp := Spaced(cs);
      assert sp[1..] == Spaced(cs[1..]);
      calc {
        ", " + Join(cs, ", ");
        ", " + (cs[0] + ", " + Join(cs[1..], ", "));
        (", " + cs[0]) + (", " + Join(cs[1..], ", "));
        (", " + cs[0]) + ("," + Join(Spaced(cs[1..]), ","));
        "," + (" " + cs[0] + "," + Join(Spaced(cs[1..]), ","));
        "," + Join(sp, ",");
      }
    }
  }

  /** `c1, c2, ...` split on commas gives the first column and the others with a leading blank. */
  lemma {:induction false} JoinSpaced(columns: seq<string>)
    requires |columns| >= 1
    ensures Join(columns, ", ") == Join([columns[0]] + Spaced(columns[1..]), ",")
  {
    var sp := [columns[0]] + Spaced(columns[1..]);
    if |columns| > 1 {
      var rest := columns[1..];
      JoinSpacedTail(rest);
      assert sp[1..] == Spaced(rest);
      assert |sp| > 1;
      calc {
        Join(columns, ", ");
        columns[0] + ", " + Join(rest, ", ");
        columns[0] + (", " + Join(rest, ", "));
        columns[0] + ("," + Join(Spaced(rest), ","));
        sp[0] + "," + Join(sp[1..], ",");
        Join(sp, ",");
      }
    }
  }

  lemma ColumnsOfRender(columns: seq<string>)
    requires CleanColumns(columns)
    ensures ColumnsOf(Join(columns, ", ")) == columns
  {
    var sp := [columns[0]] + Spaced(columns[1..]);
    JoinSpaced(columns);
    SpacedPieces(columns);
    SplitJoin(sp, ',');
    assert Split(Join(columns, ", "), ',') == sp;
  }

  /** The comma-separated pieces of `c1, c2, ...` hold no comma and trim to the columns. */
  lemma SpacedPieces(columns: seq<string>)
    requires CleanColumns(columns)
    ensures var sp := [columns[0]] + Spaced(columns[1..]);
      (forall i :: 0 <= i < |sp| ==> ',' !in sp[i]) && TrimEach(sp) == columns
  {
    var sp := [columns[0]] + Spaced(columns[1..]);
    forall i | 0 <= i < |sp| ensures ',' !in sp[i] && Trim(sp[i]) == columns[i] {
      if i > 0 {
        SpacedPiece(columns, i);
      }
    }
  }

  lemma SpacedPiece(columns: seq<string>, i: nat)
    requires CleanColumns(columns) && 0 < i < |columns|
    ensures var p := ([columns[0]] + Spaced(columns[1..]))[i];
      ',' !in p && Trim(p) == columns[i]
  {
    var c := columns[i];
    assert ([columns[0]] + Spaced(columns[1..]))[i] == Spaced(columns[1..])[i - 1] == " " + c;
    assert forall x :: x in " " + c ==> x == ' ' || x in c;
    TrimLeadingSpace(c);
  }

  /** A word of non-whitespace followed by whitespace is one whole run. */
  lemma {:induction false} WordRunTo(s: string, i: nat, j: nat)
    requires i <= j < |s| && IsSpace(s[j])
    requires forall k :: i <= k < j ==> !IsSpace(s[k])
    ensures WordRun(s, i) == j
    decreases j - i
  {
    if i < j {
      WordRunTo(s, i + 1, j);
    }
  }

  /** The lazy data scan stops at the first terminator. */
  lemma {:induction false} DataTo(s: string, name: string, cl: string, d: nat, t: nat, t0: nat)
    requires d <= t <= t0 && t0 + |Terminator| <= |s| && OccursAt(s, Terminator, t0)
    requires forall k :: t <= k < t0 ==> !OccursAt(s, Terminator, k)
    ensures DataFrom(s, name, cl, d, t) == Some(Found(Block(name, cl, s[d..t0]), t0 + |Terminator|))
    decreases t0 - t
  {
    if t < t0 {
      DataTo(s, name, cl, d, t + 1, t0);
    }
  }

  /** The column scan stops at the first `)`. */
  lemma {:induction false} ColumnsTo(s: string, name: string, o: nat, c: nat, c0: nat)
    requires o <= c <= c0 < |s| && o < c0 && s[c0] == ')'
    requires forall k :: c <= k < c0 ==> s[k] != ')'
    ensures ColumnsFrom(s, name, o, c) == StdinFrom(s, name, s[o..c0], c0 + 1, c0 + 1)
    decreases c0 - c
  {
    if c < c0 {
      ColumnsTo(s, name, o, c + 1, c0);
    }
  }

  /** The data stage on a text whose rest is the data and the terminator. */
  lemma DataAt(s: string, name: string, cl: string, d: nat, data: string)
    requires d <= |s| && s[d..] == data + Terminator
    requires FirstTerminatorAt(data + Terminator, |data|)
    ensures DataFrom(s, name, cl, d, d) == Some(Found(Block(name, cl, data), |s|))
  {
    TerminatorAt(s, d, data);
    PieceAt(s, d, data, Terminator);
    DataTo(s, name, cl, d, d, d + |data|);
  }

  /** The first terminator of the rest `s[d..]`, at its own index in `s`. */
  lemma TerminatorAt(s: string, d: nat, data: string)
    requires d <= |s| && s[d..] == data + Terminator
    requires FirstTerminatorAt(data + Terminator, |data|)
    ensures d + |data| + |Terminator| <= |s| && OccursAt(s, Terminator, d + |data|)
    ensures forall k :: d <= k < d + |data| ==> !OccursAt(s, Terminator, k)
  {
    var u := s[d..];
    OccursAtShift(s, Terminator, d, |data|, u);
    forall k | d <= k < d + |data| ensures !OccursAt(s, Terminator, k) {
      OccursAtShift(s, Terminator, d, k - d, u);
      assert !OccursAt(u, Terminator, k - d);
    }
  }

  /** A piece `x` at index `i` of `s`, followed by `rest`. */
  lemma PieceAt(s: string, i: nat, x: string, rest: string)
    requires i <= |s| && s[i..] == x + rest
    ensures i + |x| <= |s| && s[i..i + |x|] == x && s[i + |x|..] == rest
  {
    assert s[i..][..|x|] == x;
    assert s[i..i + |x|] == s[i..][..|x|];
  }

  /** `) FROM stdin;` at index `c`, then the data and the terminator. */
  lemma StdinAt(s: string, name: string, cl: string, c: nat, data: string)
    requires c <= |s| && s[c..] == ") " + (FromStdin + (data + Terminator))
    requires FirstTerminatorAt(data + Terminator, |data|)
    ensures c < |s| && s[c] == ')'
    ensures StdinFrom(s, name, cl, c + 1, c + 1) == Some(Found(Block(name, cl, data), |s|))
  {
    var d := c + 2 + |FromStdin|;
    PieceAt(s, c, ") ", FromStdin + (data + Terminator));
    assert s[c] == s[c..c + 2][0] && s[c + 1] == s[c..c + 2][1];
    PieceAt(s, c + 2, FromStdin, data + Terminator);
    assert s[c + 2] == s[c + 2..d][0];
    assert StdinFrom(s, name, cl, c + 1, c + 2) == DataFrom(s, name, cl, d, d);
    DataAt(s, name, cl, d, data);
  }

  /** ` (`, the column list and the rest of a block from index `e`. */
  lemma OpenAt(s: string, name: string, e: nat, cl: string, data: string)
    requires e <= |s| && s[e..] == " (" + (cl + (") " + (FromStdin + (data + Terminator))))
    requires cl != [] && ')' !in cl
    requires FirstTerminatorAt(data + Terminator, |data|)
    ensures e < |s| && s[e] == ' '
    ensures OpenFrom(s, name, e) == Some(Found(Block(name, cl, data), |s|))
  {
    var o := e + 2;
    PieceAt(s, e, " (", cl + (") " + (FromStdin + (data + Terminator))));
    assert s[e] == s[e..o][0] && s[e + 1] == s[e..o][1];
    ColumnsAt(s, name, o, cl, data);
    assert OpenFrom(s, name, e + 1) == ColumnsFrom(s, name, o, o);
  }

  /** The column list at index `o`, then `) FROM stdin;`, the data and the terminator. */
  lemma ColumnsAt(s: string, name: string, o: nat, cl: string, data: string)
    requires o <= |s| && s[o..] == cl + (") " + (FromStdin + (data + Terminator)))
    requires cl != [] && ')' !in cl
    requires FirstTerminatorAt(data + Terminator, |data|)
    ensures ColumnsFrom(s, name, o, o) == Some(Found(Block(name, cl, data), |s|))
  {
    var c := o + |cl|;
    PieceAt(s, o, cl, ") " + (FromStdin + (data + Terminator)));
    StdinAt(s, name, cl, c, data);
    forall k | o <= k < c ensures s[k] != ')' {
      assert s[k] == s[o..c][k - o];
    }
    ColumnsTo(s, name, o, o, c);
  }

  /** The text of one block with its three groups. */
  function BlockText(name: string, cl: string, data: string): string
  {
    CopyPrefix + (name + (" (" + (cl + (") " + (FromStdin + (data + Terminator))))))
  }

  /** A block whose groups have the shapes a match gives is matched, whole. */
  lemma MatchPieces(name: string, cl: string, data: string)
    requires CleanName(name) && cl != [] && ')' !in cl
    requires FirstTerminatorAt(data + Terminator, |data|)
    ensures var s := BlockText(name, cl, data);
      MatchAt(s, 0) == Some(Found(Block(name, cl, data), |s|))
  {
    var s := BlockText(name, cl, data);
    var a := |CopyPrefix|;
    var e := a + |name|;
    var rest := " (" + (cl + (") " + (FromStdin + (data + Terminator))));
    assert s[0..] == s;
    PieceAt(s, 0, CopyPrefix, name + rest);
    PieceAt(s, a, name, rest);
    OpenAt(s, name, e, cl, data);
    forall k | a <= k < e ensures !IsSpace(s[k]) {
      assert s[k] == s[a..e][k - a];
    }
    WordRunTo(s, a, e);
    assert NameCandidates(s, a, e) == AfterName(s, a, e);
  }

  /**
   * A block written as pg_dump writes it is found by the scanner, whole, with
   * its name, its column list and its data.
   */
  lemma MatchRendered(name: string, columns: seq<string>, rows: seq<seq<string>>)
    requires CleanName(name) && CleanColumns(columns) && CleanRows(rows)
    ensures var s := RenderBlock(name, columns, rows);
      MatchAt(s, 0) == Some(Found(Block(name, Join(columns, ", "), RenderData(rows)), |s|))
  {
    var cl := Join(columns, ", ");
    JoinEnds(columns, ", ");
    JoinNoChar(columns, ", ", ')');
    var lines := LinesOf(rows);
    forall i | 0 <= i < |lines| ensures PlainLine(lines[i]) {
      RowHasNoLineFeed(rows[i]);
    }
    DataTerminator(lines);
    MatchPieces(name, cl, RenderData(rows));
  }

  /** A text matched whole at its start holds exactly that one block. */
  lemma FindWhole(s: string, b: Block)
    requires MatchAt(s, 0) == Some(Found(b, |s|))
    ensures FindAll(s) == [b]
  {
    assert FindFrom(s, |s|) == [];
  }

  /** A single block with rows is collected as the only table. */
  lemma CollectOne(b: Block)
    requires HasRows(b)
    ensures Collect([b]) == Dump([NameOf(b)], map[NameOf(b) := TableOf(b)])
  {
    assert [b][..0] == [];
  }

  /** Parsing a dump made of one well-formed block gives exactly that table. */
  lemma ParseRendered(name: string, columns: seq<string>, rows: seq<seq<string>>)
    requires CleanName(name) && CleanColumns(columns) && CleanRows(rows)
    ensures FindAll(RenderBlock(name, columns, rows)) == [Block(name, Join(columns, ", "), RenderData(rows))]
    ensures Collect(FindAll(RenderBlock(name, columns, rows)))
         == Dump([StripQuotes(name)], map[StripQuotes(name) := Table(columns, rows)])
  {
    var b := Block(name, Join(columns, ", "), RenderData(rows));
    MatchRendered(name, columns, rows);
    FindWhole(RenderBlock(name, columns, rows), b);
    ColumnsOfRender(columns);
    DataLinesOfRender(rows);
    assert TableOf(b) == Table(columns, rows);
    CollectOne(b);
  }

  // ------------------------------------------------------------ export_to_csv

  /** `['' if val == '\\N' else val for val in row]`. */
  function NormalizeRow(row: seq<string>): (r: seq<string>)
    ensures |r| == |row|
  {
    if row == [] then [] else [if row[0] == NullMarker then "" else row[0]] + NormalizeRow(row[1..])
  }

  /**
   * Exactly the cells equal to the NULL marker become empty; every other
   * cell, one that merely contains the marker included, is kept.
   */
  lemma {:induction false} NormalizeRowCells(row: seq<string>)
    ensures forall k :: 0 <= k < |row| ==> NormalizeRow(row)[k] == (if row[k] == NullMarker then "" else row[k])
  {
    if row != [] {
      NormalizeRowCells(row[1..]);
    }
  }

  /** No marker survives, so normalising again changes nothing. */
  lemma NormalizeRowIdempotent(row: seq<string>)
    ensures NullMarker !in NormalizeRow(row)
    ensures NormalizeRow(NormalizeRow(row)) == NormalizeRow(row)
  {
    var r := NormalizeRow(row);
    NormalizeRowCells(row);
    NormalizeRowCells(r);
  }

  /** Rows are written normalised, in order. */
  function NormalizedRows(rows: seq<seq<string>>): seq<seq<string>>
  {
    seq(|rows|, i requires 0 <= i < |rows| => NormalizeRow(rows[i]))
  }

  /**
   * A field as `csv.writer` writes it in the `excel` dialect with minimal
   * quoting: quoted when it holds the delimiter, the quote character or a
   * character of the `\r\n` line terminator.
   */
  function WriterField(v: string): (f: string)
    ensures EncodesField(f, v)
  {
    if ',' in v || '"' in v || '\r' in v || '\n' in v then Quote(v) else v
  }

  lemma WriterFieldSingleLine(v: string)
    requires '\n' !in v
    ensures '\n' !in WriterField(v)
  {
    if WriterField(v) != v {
      QuoteKeepsAbsent(v, '\n');
    }
  }

  function WriterEach(row: seq<string>): (r: seq<string>)
    ensures |r| == |row|
  {
    if row == [] then [] else [WriterField(row[0])] + WriterEach(row[1..])
  }

  /** Each written field encodes its cell, and no field gains a line feed. */
  lemma {:induction false} WriterEachEncodes(row: seq<string>)
    ensures forall i :: 0 <= i < |row| ==> EncodesField(WriterEach(row)[i], row[i])
    ensures (forall i :: 0 <= i < |row| ==> '\n' !in row[i]) ==>
      forall i :: 0 <= i < |row| ==> '\n' !in WriterEach(row)[i]
  {
    if row != [] {
      WriterEachEncodes(row[1..]);
      if '\n' !in row[0] {
        WriterFieldSingleLine(row[0]);
      }
    }
  }

  /** The fields of one `writerow`; a row made of one empty field is written as `""`. */
  function WriterFields(row: seq<string>): (r: seq<string>)
    ensures |r| == |row|
  {
    if row == [""] then [Quote("")] else WriterEach(row)
  }

  /** One written row up to its final `\n`: the fields joined by commas, then the `\r` of `\r\n`. */
  function Record(row: seq<string>): string
  {
    Join(WriterFields(row), ",") + "\r"
  }

  function RecordLines(rows: seq<seq<string>>): seq<string>
  {
    seq(|rows|, i requires 0 <= i < |rows| => Record(rows[i]))
  }

  /** The file `export_to_csv` writes for one table: the header row, then each row. */
  function CsvText(header: seq<string>, rows: seq<seq<string>>): string
  {
    if rows == [] then Record(header) + "\n"
    else CsvText(header, rows[..|rows| - 1]) + Record(rows[|rows| - 1]) + "\n"
  }

  /** One output file: its path and its contents. */
  datatype CsvFile = CsvFile(path: string, text: string)

  /** `os.path.join(output_dir, file)`: an absolute `file` replaces the directory. */
  function PathJoin(dir: string, file: string): string
  {
    if file != [] && file[0] == '/' then file
    else if dir == [] || dir[|dir| - 1] == '/' then dir + file
    else dir + "/" + file
  }

  /** The joined path ends with the file name and, unless that is absolute, starts with the directory. */
  lemma PathJoinEnds(dir: string, file: string)
    ensures |file| <= |PathJoin(dir, file)|
    ensures PathJoin(dir, file)[|PathJoin(dir, file)| - |file|..] == file
    ensures !StartsWith(file, "/") ==> StartsWith(PathJoin(dir, file), dir)
    ensures StartsWith(file, "/") || dir == [] ==> PathJoin(dir, file) == file
  {
  }

  /** The file written for table `name`. */
  function TableFile(dir: string, name: string, t: Table): CsvFile
  {
    CsvFile(PathJoin(dir, name + ".csv"), CsvText(t.columns, NormalizedRows(t.rows)))
  }

  /** The writes of one table, row by row. */
  method WriteTable(t: Table) returns (text: string)
    ensures text == CsvText(t.columns, NormalizedRows(t.rows))
  {
    text := Record(t.columns) + "\n";
    for j := 0 to |t.rows|
      invariant text == CsvText(t.columns, NormalizedRows(t.rows[..j]))
    {
      var row := NormalizeRow(t.rows[j]);
      assert NormalizedRows(t.rows[..j + 1])[..j] == NormalizedRows(t.rows[..j]);
      text := text + Record(row) + "\n";
    }
    assert t.rows[..|t.rows|] == t.rows;
  }

  /** The files written for the given names, in order. */
  function FilesOf(dir: string, names: seq<string>, tables: map<string, Table>): (r: seq<CsvFile>)
    requires forall k :: 0 <= k < |names| ==> names[k] in tables
    ensures |r| == |names|
  {
    if names == [] then []
    else
      var last := names[|names| - 1];
      FilesOf(dir, names[..|names| - 1], tables) + [TableFile(dir, last, tables[last])]
  }

  /** File `i` is the one written for the `i`-th name. */
  lemma {:induction false} FilesOfAt(dir: string, names: seq<string>, tables: map<string, Table>, i: nat)
    requires forall k :: 0 <= k < |names| ==> names[k] in tables
    requires i < |names|
    ensures FilesOf(dir, names, tables)[i] == TableFile(dir, names[i], tables[names[i]])
  {
    if i < |names| - 1 {
      FilesOfAt(dir, names[..|names| - 1], tables, i);
    }
  }

  /** `export_to_csv(tables, output_dir)`: one file per table, in the dump's order. */
  method ExportToCsv(dump: Dump, outputDir: string) returns (files: seq<CsvFile>)
    requires dump.Valid()
    ensures files == FilesOf(outputDir, dump.names, dump.tables)
  {
    var names := dump.names;
    files := [];
    for i := 0 to |names|
      invariant files == FilesOf(outputDir, names[..i], dump.tables)
    {
      var name := names[i];
      var text := WriteTable(dump.tables[name]);
      assert names[..i + 1][..i] == names[..i];
      files := files + [CsvFile(PathJoin(outputDir, name + ".csv"), text)];
    }
    assert names[..|names|] == names;
  }

  /** The records of a file: the header's, then each row's. */
  function CsvLines(header: seq<string>, rows: seq<seq<string>>): (r: seq<string>)
    ensures |r| == |rows| + 1
  {
    [Record(header)] + RecordLines(rows)
  }

  lemma CsvLinesSnoc(header: seq<string>, rows: seq<seq<string>>)
    requires rows != []
    ensures CsvLines(header, rows) == CsvLines(header, rows[..|rows| - 1]) + [Record(rows[|rows| - 1])]
  {
    var n := |rows|;
    assert RecordLines(rows) == RecordLines(rows[..n - 1]) + [Record(rows[n - 1])];
  }

  /** The written text is the records joined by line feeds, with a final line feed. */
  lemma {:induction false} CsvTextLines(header: seq<string>, rows: seq<seq<string>>)
    ensures CsvText(header, rows) == Join(CsvLines(header, rows), "\n") + "\n"
  {
    if rows != [] {
      var n := |rows|;
      CsvTextLines(header, rows[..n - 1]);
      CsvLinesSnoc(header, rows);
      JoinSnoc(CsvLines(header, rows[..n - 1]), Record(rows[n - 1]), "\n");
    }
  }

  /** No cell of the row holds a line feed. */
  predicate SingleLineRow(row: seq<string>)
  {
    forall i :: 0 <= i < |row| ==> '\n' !in row[i]
  }

  predicate SingleLineCells(rows: seq<seq<string>>)
  {
    forall r :: 0 <= r < |rows| ==> SingleLineRow(rows[r])
  }

  lemma RecordSingleLine(row: seq<string>)
    requires SingleLineRow(row)
    ensures '\n' !in Record(row)
  {
    WriterEachEncodes(row);
    if row == [""] {
      QuoteKeepsAbsent("", '\n');
    }
    JoinNoChar(WriterFields(row), ",", '\n');
  }

  lemma RecordLinesSingleLine(rows: seq<seq<string>>)
    requires SingleLineCells(rows)
    ensures forall k :: 0 <= k < |rows| ==> '\n' !in RecordLines(rows)[k]
  {
    forall k | 0 <= k < |rows|
      ensures '\n' !in RecordLines(rows)[k]
    {
      RecordSingleLine(rows[k]);
    }
  }

  /**
   * When no cell holds a line feed, the file's lines are the header record,
   * then one record per row in the same order, then the empty piece after
   * the last line feed.
   */
  lemma CsvTextSplit(header: seq<string>, rows: seq<seq<string>>)
    requires SingleLineRow(header) && SingleLineCells(rows)
    ensures Split(CsvText(header, rows), '\n') == CsvLines(header, rows) + [""]
  {
    var ls := CsvLines(header, rows);
    CsvTextLines(header, rows);
    JoinSnoc(ls, "", "\n");
    assert Join(ls + [""], "\n") == CsvText(header, rows);
    CsvLinesSingleLine(header, rows);
    SplitJoin(ls + [""], '\n');
  }

  lemma CsvLinesSingleLine(header: seq<string>, rows: seq<seq<string>>)
    requires SingleLineRow(header) && SingleLineCells(rows)
    ensures forall k :: 0 <= k < |rows| + 2 ==> '\n' !in (CsvLines(header, rows) + [""])[k]
  {
    var ls := CsvLines(header, rows) + [""];
    RecordSingleLine(header);
    RecordLinesSingleLine(rows);
    forall k | 0 <= k < |ls|
      ensures '\n' !in ls[k]
    {
      if 0 < k < |ls| - 1 {
        assert ls[k] == RecordLines(rows)[k - 1];
      }
    }
  }

  /** A parsed table's cells come from single data lines, so none holds a line feed. */
  lemma ParsedCellsSingleLine(b: Block)
    ensures SingleLineCells(TableOf(b).rows)
  {
    var lines := DataLines(b.data);
    NonBlankTrimmedAbsent(Split(Trim(b.data), '\n'), '\n');
    forall r, i | 0 <= r < |lines| && 0 <= i < |Split(lines[r], '\t')|
      ensures '\n' !in Split(lines[r], '\t')[i]
    {
      SplitKeepsAbsent(lines[r], '\t', '\n');
    }
  }
}
