/**
 * The import of the historical CSV files into the local database
 * (src/services/import-data.ts): the quote-aware line splitter
 * `parseCSVLine`, and the de-duplication done while importing business
 * units, unit categories and financial items. Each `execute` of an
 * `INSERT OR IGNORE` becomes an emitted insert record; `now()` is a parameter.
 */
module ImportData {
  import opened Wrappers
  import opened Strings
  import opened Numbers
  import opened Lists
  import opened Csv

  // ------------------------------------------------------------ parseCSVLine

  /**
   * The splitter's loop variables: the rest of the line, the field being
   * read, the quote mode and the fields completed so far (before trimming).
   */
  datatype ScanState = ScanState(rest: string, cur: string, inQuotes: bool, acc: seq<string>)

  /** One turn of the loop: an escaped quote, a quote, a separating comma or a plain character. */
  function Step(st: ScanState): (r: ScanState)
    requires st.rest != []
    ensures |r.rest| < |st.rest|
  {
    var s := st.rest;
    if s[0] == '"' && |s| > 1 && s[1] == '"' && st.inQuotes then ScanState(s[2..], st.cur + "\"", true, st.acc)
    else if s[0] == '"' then ScanState(s[1..], st.cur, !st.inQuotes, st.acc)
    else if s[0] == ',' && !st.inQuotes then ScanState(s[1..], "", false, st.acc + [st.cur])
    else ScanState(s[1..], st.cur + [s[0]], st.inQuotes, st.acc)
  }

  /** The untrimmed fields the loop completes from a state; the last one ends with the line. */
  function Run(st: ScanState): (r: seq<string>)
    ensures |r| > |st.acc|
    decreases |st.rest|
  {
    if st.rest == [] then st.acc + [st.cur] else Run(Step(st))
  }

  /** The fields of `line` before trimming. */
  function RawFields(line: string): (r: seq<string>)
    ensures |r| >= 1
  {
    Run(ScanState(line, "", false, []))
  }

  /** The fields `parseCSVLine(line)` returns: each one is trimmed as it is pushed. */
  function Fields(line: string): (r: seq<string>)
    ensures |r| == |RawFields(line)|
  {
    TrimEach(RawFields(line))
  }

  lemma TrimEachSnoc(xs: seq<string>, x: string)
    ensures TrimEach(xs + [x]) == TrimEach(xs) + [Trim(x)]
  {
  }

  /** `parseCSVLine`: one pass over the line, skipping the second quote of an escaped pair. */
  method ParseCsvLine(line: string) returns (result: seq<string>)
    ensures result == Fields(line)
  {
    result := [];
    var current := "";
    var inQuotes := false;
    ghost var raw: seq<string> := [];
    var i := 0;
    while i < |line|
      invariant 0 <= i <= |line|
      invariant Run(ScanState(line[i..], current, inQuotes, raw)) == RawFields(line)
      invariant result == TrimEach(raw)
      decreases |line| - i
    {
      var c := line[i];
      ghost var st := ScanState(line[i..], current, inQuotes, raw);
      assert line[i..][0] == c && line[i..][1..] == line[i + 1..];
      if c == '"' && i + 1 < |line| && line[i + 1] == '"' && inQuotes {
        assert line[i..][1] == line[i + 1] && line[i..][2..] == line[i + 2..];
        current := current + "\"";
        i := i + 1;
      } else if c == '"' {
        inQuotes := !inQuotes;
      } else if c == ',' && !inQuotes {
        TrimEachSnoc(raw, current);
        result := result + [Trim(current)];
        raw := raw + [current];
        current := "";
      } else {
        current := current + [c];
      }
      i := i + 1;
      assert Step(st) == ScanState(line[i..], current, inQuotes, raw);
    }
    assert line[i..] == [];
    TrimEachSnoc(raw, current);
    result := result + [Trim(current)];
  }

  /**
   * The commas of `s` preceded by an even number of quotes, counting from a
   * position where the parity so far is `odd`: the commas outside quotes.
   */
  function CommasOutsideQuotes(s: string, odd: bool): nat
  {
    if s == [] then 0
    else (if s[0] == ',' && !odd then 1 else 0) + CommasOutsideQuotes(s[1..], if s[0] == '"' then !odd else odd)
  }

  lemma {:induction false} RunCount(st: ScanState)
    ensures |Run(st)| == |st.acc| + 1 + CommasOutsideQuotes(st.rest, st.inQuotes)
    decreases |st.rest|
  {
    if st.rest != [] {
      var s := st.rest;
      RunCount(Step(st));
      if s[0] == '"' && |s| > 1 && s[1] == '"' && st.inQuotes {
        assert s[1..][1..] == s[2..];
      }
    }
  }

  /** parseCSVLine returns one field more than there are commas outside quotes. */
  lemma FieldCount(line: string)
    ensures |Fields(line)| == 1 + CommasOutsideQuotes(line, false)
  {
    RunCount(ScanState(line, "", false, []));
  }

  /** Every field parseCSVLine returns is whitespace-trimmed. */
  lemma FieldsTrimmed(line: string)
    ensures forall i :: 0 <= i < |Fields(line)| ==> Trim(Fields(line)[i]) == Fields(line)[i]
  {
    forall i | 0 <= i < |Fields(line)| ensures Trim(Fields(line)[i]) == Fields(line)[i] {
      TrimIdempotent(RawFields(line)[i]);
    }
  }

  // ------------------------------------------------------ encoded fields

  /** Outside quotes, a bare piece is appended to the field being read. */
  lemma {:induction false} PlainStep(v: string, tail: string, cur: string, acc: seq<string>)
    requires ',' !in v && '"' !in v
    ensures Run(ScanState(v + tail, cur, false, acc)) == Run(ScanState(tail, cur + v, false, acc))
  {
    if v == [] {
      assert v + tail == tail && cur + v == cur;
    } else {
      var st := ScanState(v + tail, cur, false, acc);
      assert (v + tail)[0] == v[0] && (v + tail)[1..] == v[1..] + tail;
      assert Step(st) == ScanState(v[1..] + tail, cur + [v[0]], false, acc);
      PlainStep(v[1..], tail, cur + [v[0]], acc);
      assert cur + [v[0]] + v[1..] == cur + v;
    }
  }

  /** How the quoted form writes one character: a quote doubled, any other as it is. */
  function Piece(x: char): string
  {
    if x == '"' then "\"\"" else [x]
  }

  /** Inside quotes, one character of the value, written as its piece, is read. */
  lemma QuotedHead(x: char, rest: string, cur: string, acc: seq<string>)
    ensures Run(ScanState(Piece(x) + rest, cur, true, acc)) == Run(ScanState(rest, cur + [x], true, acc))
  {
    var s := Piece(x) + rest;
    if x == '"' {
      assert s[2..] == rest;
    } else {
      assert s[0] == x && s[1..] == rest;
    }
    assert Step(ScanState(s, cur, true, acc)) == ScanState(rest, cur + [x], true, acc);
  }

  /** A quote not followed by another closes the quoted part. */
  lemma QuotedClose(tail: string, cur: string, acc: seq<string>)
    requires tail == [] || tail[0] != '"'
    ensures Run(ScanState("\"" + tail, cur, true, acc)) == Run(ScanState(tail, cur, false, acc))
  {
    assert ("\"" + tail)[1..] == tail;
    assert Step(ScanState("\"" + tail, cur, true, acc)) == ScanState(tail, cur, false, acc);
  }

  /** The quoted form of a non-empty value is its first character's piece, then the quoted form of the rest. */
  lemma QuotedConsText(v: string, close: string)
    requires v != []
    ensures ReplaceAll(v, '"', "\"\"") + close == Piece(v[0]) + (ReplaceAll(v[1..], '"', "\"\"") + close)
  {
    QuotedHeadText(v);
    Lists.ConcatAssoc(Piece(v[0]), ReplaceAll(v[1..], '"', "\"\""), close);
  }

  lemma QuotedHeadText(v: string)
    requires v != []
    ensures ReplaceAll(v, '"', "\"\"") == Piece(v[0]) + ReplaceAll(v[1..], '"', "\"\"")
  {
  }

  /** Inside quotes, doubled quotes read back as one and the closing quote ends quote mode. */
  lemma {:induction false} QuotedStep(v: string, tail: string, cur: string, acc: seq<string>)
    requires tail == [] || tail[0] != '"'
    ensures Run(ScanState(ReplaceAll(v, '"', "\"\"") + ("\"" + tail), cur, true, acc)) == Run(ScanState(tail, cur + v, false, acc))
  {
    var close := "\"" + tail;
    if v == [] {
      assert ReplaceAll(v, '"', "\"\"") + close == close;
      assert cur + v == cur;
      QuotedClose(tail, cur, acc);
    } else {
      var inner := ReplaceAll(v[1..], '"', "\"\"") + close;
      QuotedConsText(v, close);
      QuotedHead(v[0], inner, cur, acc);
      QuotedStep(v[1..], tail, cur + [v[0]], acc);
      assert [v[0]] + v[1..] == v;
      Lists.ConcatAssoc(cur, [v[0]], v[1..]);
    }
  }

  /** A whole encoded field reads back as its value. */
  lemma FieldStep(f: string, v: string, tail: string, cur: string, acc: seq<string>)
    requires EncodesField(f, v)
    requires tail == [] || tail[0] != '"'
    ensures Run(ScanState(f + tail, cur, false, acc)) == Run(ScanState(tail, cur + v, false, acc))
  {
    if f == Quote(v) {
      var inner := ReplaceAll(v, '"', "\"\"") + ("\"" + tail);
      assert f + tail == "\"" + inner && (f + tail)[1..] == inner;
      assert Step(ScanState(f + tail, cur, false, acc)) == ScanState(inner, cur, true, acc);
      QuotedStep(v, tail, cur, acc);
    } else {
      PlainStep(v, tail, cur, acc);
    }
  }

  /** A comma outside quotes completes the field being read. */
  lemma CommaStep(rest: string, cur: string, acc: seq<string>)
    ensures Run(ScanState("," + rest, cur, false, acc)) == Run(ScanState(rest, "", false, acc + [cur]))
  {
    assert ("," + rest)[1..] == rest;
    assert Step(ScanState("," + rest, cur, false, acc)) == ScanState(rest, "", false, acc + [cur]);
  }

  /** An encoded field and a comma complete the field with the value. */
  lemma FieldThenComma(f: string, v: string, rest: string, acc: seq<string>)
    requires EncodesField(f, v)
    ensures Run(ScanState(f + ("," + rest), "", false, acc)) == Run(ScanState(rest, "", false, acc + [v]))
  {
    FieldStep(f, v, "," + rest, "", acc);
    assert "" + v == v;
    CommaStep(rest, v, acc);
  }

  /** An encoded field followed by the end of the line, after `ws`, is the last field. */
  lemma LastField(f: string, v: string, ws: string, acc: seq<string>)
    requires EncodesField(f, v)
    requires ',' !in ws && '"' !in ws
    ensures Run(ScanState(f + ws, "", false, acc)) == acc + [v + ws]
  {
    FieldStep(f, v, ws, "", acc);
    assert "" + v == v;
    PlainStep(ws, [], v, acc);
    assert ws + [] == ws;
  }

  /**
   * The fields of the comma-joined encoded values `s`: the values, the last
   * one followed by `ws`.
   */
  lemma {:induction false} RunJoined(fields: seq<string>, values: seq<string>, ws: string, acc: seq<string>, s: string)
    requires |fields| == |values| >= 1
    requires forall i :: 0 <= i < |fields| ==> EncodesField(fields[i], values[i])
    requires ',' !in ws && '"' !in ws
    requires s == Join(fields, ",") + ws
    ensures Run(ScanState(s, "", false, acc)) == acc + values[..|values| - 1] + [values[|values| - 1] + ws]
  {
    if |fields| == 1 {
      assert s == fields[0] + ws;
      LastField(fields[0], values[0], ws, acc);
    } else {
      var rest := Join(fields[1..], ",") + ws;
      assert Join(fields, ",") == fields[0] + "," + Join(fields[1..], ",");
      Lists.ConcatAssoc(fields[0] + ",", Join(fields[1..], ","), ws);
      Lists.ConcatAssoc(fields[0], ",", rest);
      forall i | 0 <= i < |fields| - 1 ensures EncodesField(fields[1..][i], values[1..][i]) {
        assert EncodesField(fields[i + 1], values[i + 1]);
      }
      FieldThenComma(fields[0], values[0], rest, acc);
      RunJoined(fields[1..], values[1..], ws, acc + [values[0]], rest);
      ShiftFirst(acc, values, values[|values| - 1] + ws);
    }
  }

  lemma ShiftFirst(acc: seq<string>, values: seq<string>, x: string)
    requires |values| > 1
    ensures acc + [values[0]] + values[1..][..|values| - 2] + [x] == acc + values[..|values| - 1] + [x]
  {
    assert values[..|values| - 1] == [values[0]] + values[1..][..|values| - 2];
  }

  /**
   * Encoded fields joined by commas, with any trailing whitespace (a `\r`
   * left by a CRLF line end), read back as the trimmed values.
   */
  lemma ParseJoined(fields: seq<string>, values: seq<string>, ws: string)
    requires |fields| == |values| >= 1
    requires forall i :: 0 <= i < |fields| ==> EncodesField(fields[i], values[i])
    requires IsBlank(ws)
    ensures Fields(Join(fields, ",") + ws) == TrimEach(values)
  {
    ParseLine(fields, values, ws, Join(fields, ",") + ws);
  }

  lemma ParseLine(fields: seq<string>, values: seq<string>, ws: string, line: string)
    requires |fields| == |values| >= 1
    requires forall i :: 0 <= i < |fields| ==> EncodesField(fields[i], values[i])
    requires IsBlank(ws)
    requires line == Join(fields, ",") + ws
    ensures Fields(line) == TrimEach(values)
  {
    assert ',' !in ws && '"' !in ws;
    RunJoined(fields, values, ws, [], line);
    TrimEachBlankLast(RawFields(line), values, ws);
  }

  /** Trailing whitespace on the last element does not survive trimming. */
  lemma TrimEachBlankLast(xs: seq<string>, values: seq<string>, ws: string)
    requires |values| >= 1 && IsBlank(ws)
    requires xs == [] + values[..|values| - 1] + [values[|values| - 1] + ws]
    ensures TrimEach(xs) == TrimEach(values)
  {
    var n := |values|;
    var init, last := values[..n - 1], values[n - 1];
    assert xs == init + [last + ws];
    assert values == init + [last];
    TrimEachSnoc(init, last + ws);
    TrimEachSnoc(init, last);
    TrimBlankSuffix(last, ws);
  }

  /** On a line with no quote, parseCSVLine is split-on-comma with each part trimmed. */
  lemma FieldsWithoutQuotes(line: string)
    requires '"' !in line
    ensures Fields(line) == TrimEach(Split(line, ','))
  {
    var parts := Split(line, ',');
    SplitKeepsAbsent(line, ',', '"');
    JoinSplit(line, ',');
    assert Join(parts, ",") + "" == line;
    ParseJoined(parts, parts, "");
  }

  // ------------------------------------------------------ reading the files

  /** `csv.split('\n').slice(1)`: the lines after the header. */
  function LinesAfterHeader(csv: string): seq<string>
  {
    Split(csv, '\n')[1..]
  }

  /** The parsed non-blank lines, in order. */
  function Records(lines: seq<string>): (r: seq<seq<string>>)
    ensures |r| <= |lines|
  {
    if lines == [] then []
    else
      var init := Records(lines[..|lines| - 1]);
      var l := lines[|lines| - 1];
      if IsBlank(l) then init else init + [Fields(l)]
  }

  /** Every record has at least one field, as `split` never returns an empty list. */
  lemma {:induction false} RecordsNonEmpty(lines: seq<string>)
    ensures forall k :: 0 <= k < |Records(lines)| ==> |Records(lines)[k]| >= 1
  {
    if lines != [] {
      RecordsNonEmpty(lines[..|lines| - 1]);
    }
  }

  lemma RecordsSnoc(lines: seq<string>, l: string)
    ensures Records(lines + [l]) == if IsBlank(l) then Records(lines) else Records(lines) + [Fields(l)]
  {
    assert (lines + [l])[..|lines|] == lines;
  }

  /** Element `i` of a destructured line: undefined past its end. */
  function Cell(parts: seq<string>, i: nat): (r: Option<string>)
    ensures r.Some? <==> i < |parts|
  {
    if i < |parts| then Some(parts[i]) else None
  }

  /** `cell || null`: undefined and the empty string are both falsy. */
  function OrNull(c: Option<string>): (r: Option<string>)
    ensures r.Some? ==> r == c && r.value != ""
    ensures c.Some? && c.value != "" ==> r == c
  {
    if c == Some("") then None else c
  }

  /** `cell || fallback`. */
  function OrElse(c: Option<string>, fallback: string): (r: string)
    ensures c.Some? && c.value != "" ==> r == c.value
    ensures c.None? || c.value == "" ==> r == fallback
  {
    if c.Some? && c.value != "" then c.value else fallback
  }

  /** `String(x)` in a template literal: undefined prints as "undefined". */
  function Str(c: Option<string>): string
  {
    if c.Some? then c.value else "undefined"
  }

  /** The id every parsed line starts with (parseCSVLine returns at least one field). */
  function IdOf(parts: seq<string>): string
  {
    if parts == [] then "" else parts[0]
  }

  /** The name of a business_units line, its second field. */
  function NameCell(parts: seq<string>): Option<string>
  {
    Cell(parts, 1)
  }

  // ---------------------------------------------------------- business units

  datatype UnitInsert = UnitInsert(id: string, name: Option<string>, color: Option<string>,
                                   icon: Option<string>, createdAt: string)

  /** `[id, name, color, icon, , created_at]` of one business_units line. */
  function UnitInsertOf(parts: seq<string>, now: string): (r: UnitInsert)
    ensures r.id == IdOf(parts) && r.name == NameCell(parts)
    ensures r.createdAt != "" || now == ""
  {
    UnitInsert(IdOf(parts), Cell(parts, 1), OrNull(Cell(parts, 2)), OrNull(Cell(parts, 3)), OrElse(Cell(parts, 5), now))
  }

  /** The inserts for the given records, in order. */
  function UnitInserts(kept: seq<seq<string>>, now: string): (r: seq<UnitInsert>)
    ensures |r| == |kept|
    ensures forall k :: 0 <= k < |kept| ==> r[k] == UnitInsertOf(kept[k], now)
  {
    if kept == [] then [] else UnitInserts(kept[..|kept| - 1], now) + [UnitInsertOf(kept[|kept| - 1], now)]
  }

  /** The state of `importBusinessUnits` after the given lines: the seen names and the inserts so far. */
  ghost predicate UnitsAfter(lines: seq<string>, seen: set<Option<string>>, inserts: seq<UnitInsert>, now: string)
  {
    var rs := Records(lines);
    seen == KeysOf(rs, NameCell) && inserts == UnitInserts(FirstByKey(rs, NameCell), now)
  }

  /** One more line: a blank one changes nothing, a new name adds its insert, a seen name is skipped. */
  lemma UnitsStep(lines: seq<string>, i: nat, seen: set<Option<string>>, inserts: seq<UnitInsert>, now: string)
    requires i < |lines| && UnitsAfter(lines[..i], seen, inserts, now)
    ensures IsBlank(lines[i]) ==> UnitsAfter(lines[..i + 1], seen, inserts, now)
    ensures !IsBlank(lines[i]) ==>
      var parts := Fields(lines[i]);
      var name := Cell(parts, 1);
      if name in seen then UnitsAfter(lines[..i + 1], seen, inserts, now)
      else UnitsAfter(lines[..i + 1], seen + {name}, inserts + [UnitInsertOf(parts, now)], now)
  {
    TakeNext(lines, i);
    RecordsSnoc(lines[..i], lines[i]);
    if !IsBlank(lines[i]) {
      var rs, parts := Records(lines[..i]), Fields(lines[i]);
      FirstByKeyStep(rs, parts, NameCell, seen);
      InitOfSnoc(FirstByKey(rs, NameCell), parts);
    }
  }

  /**
   * `importBusinessUnits` on the fetched file: one insert per line whose name
   * was not seen before, in file order; `unique` is the size of the seen set.
   */
  method ImportBusinessUnits(lines: seq<string>, now: string) returns (inserts: seq<UnitInsert>, unique: int)
    ensures inserts == UnitInserts(FirstByKey(Records(lines), NameCell), now)
    ensures unique == |KeysOf(Records(lines), NameCell)| == |inserts|
  {
    var seen: set<Option<string>> := {};
    inserts := [];
    for i := 0 to |lines|
      invariant UnitsAfter(lines[..i], seen, inserts, now)
    {
      var line := lines[i];
      UnitsStep(lines, i, seen, inserts, now);
      if !IsBlank(line) {
        var parts := ParseCsvLine(line);
        var name := Cell(parts, 1);
        if name !in seen {
          seen := seen + {name};
          inserts := inserts + [UnitInsertOf(parts, now)];
        }
      }
    }
    UnitsDone(lines, seen, inserts, now);
    unique := |seen|;
  }

  /** After every line: the inserts of the first line of each name, one per distinct name. */
  lemma UnitsDone(lines: seq<string>, seen: set<Option<string>>, inserts: seq<UnitInsert>, now: string)
    requires UnitsAfter(lines[..|lines|], seen, inserts, now)
    ensures inserts == UnitInserts(FirstByKey(Records(lines), NameCell), now)
    ensures |seen| == |KeysOf(Records(lines), NameCell)| == |inserts|
  {
    TakeAll(lines);
    FirstByKeyCount(Records(lines), NameCell);
  }

  /** Each name is inserted once, by the first line that has it, and every name of the file is inserted. */
  lemma BusinessUnitsFirstWins(lines: seq<string>)
    ensures var rs := Records(lines);
      var kept := FirstByKey(rs, NameCell);
      (forall i, j :: 0 <= i < j < |kept| ==> NameCell(kept[i]) != NameCell(kept[j])) &&
      (forall m :: 0 <= m < |kept| ==> FirstOf(rs, NameCell, kept[m])) &&
      (forall i :: 0 <= i < |rs| && IsFirst(rs, NameCell, i) ==> rs[i] in kept)
  {
    var rs := Records(lines);
    FirstByKeyDistinct(rs, NameCell);
    FirstByKeySound(rs, NameCell);
    FirstByKeyComplete(rs, NameCell);
  }

  // ---------------------------------------------------------- categories

  datatype CategoryInsert = CategoryInsert(id: string, name: Option<string>, createdAt: string)

  /** `[id, , name, created_at]` of one categories line. */
  function CategoryInsertOf(parts: seq<string>, now: string): (r: CategoryInsert)
    ensures r.id == IdOf(parts) && r.name == Cell(parts, 2)
  {
    CategoryInsert(IdOf(parts), Cell(parts, 2), OrElse(Cell(parts, 3), now))
  }

  function CategoryInserts(rs: seq<seq<string>>, now: string): (r: seq<CategoryInsert>)
    ensures |r| == |rs|
    ensures forall k :: 0 <= k < |rs| ==> r[k] == CategoryInsertOf(rs[k], now)
  {
    if rs == [] then [] else CategoryInserts(rs[..|rs| - 1], now) + [CategoryInsertOf(rs[|rs| - 1], now)]
  }

  /** One more categories line adds its insert, unless the line is blank. */
  lemma CategoriesStep(lines: seq<string>, i: nat, now: string)
    requires i < |lines|
    ensures CategoryInserts(Records(lines[..i + 1]), now) ==
      CategoryInserts(Records(lines[..i]), now) + (if IsBlank(lines[i]) then [] else [CategoryInsertOf(Fields(lines[i]), now)])
  {
    TakeNext(lines, i);
    RecordsSnoc(lines[..i], lines[i]);
    InitOfSnoc(Records(lines[..i]), Fields(lines[i]));
  }

  /** `importCategories`: one insert per non-blank line, in order. */
  method ImportCategories(lines: seq<string>, now: string) returns (inserts: seq<CategoryInsert>)
    ensures inserts == CategoryInserts(Records(lines), now)
  {
    inserts := [];
    for i := 0 to |lines|
      invariant inserts == CategoryInserts(Records(lines[..i]), now)
    {
      var line := lines[i];
      CategoriesStep(lines, i, now);
      if !IsBlank(line) {
        var parts := ParseCsvLine(line);
        inserts := inserts + [CategoryInsertOf(parts, now)];
      }
    }
    TakeAll(lines);
  }

  // ------------------------------------------------------------ unit mapping

  /** The id of the first record with name `n`, if any. */
  function FirstIdOf(units: seq<seq<string>>, n: Option<string>): Option<string>
  {
    if units == [] then None
    else if NameCell(units[0]) == n then Some(IdOf(units[0]))
    else FirstIdOf(units[1..], n)
  }

  lemma {:induction false} FirstIdOfAppend(xs: seq<seq<string>>, x: seq<string>, n: Option<string>)
    ensures FirstIdOf(xs + [x], n) ==
      if FirstIdOf(xs, n).Some? then FirstIdOf(xs, n) else if NameCell(x) == n then Some(IdOf(x)) else None
  {
    if xs == [] {
      assert [x][1..] == [];
    } else {
      assert (xs + [x])[0] == xs[0] && (xs + [x])[1..] == xs[1..] + [x];
      FirstIdOfAppend(xs[1..], x, n);
    }
  }

  /** The first record of a name gives that name's first id. */
  lemma {:induction false} FirstIdOfFirst(units: seq<seq<string>>, k: nat)
    requires k < |units| && IsFirst(units, NameCell, k)
    ensures FirstIdOf(units, NameCell(units[k])) == Some(IdOf(units[k]))
  {
    if k > 0 {
      assert NameCell(units[0]) != NameCell(units[k]);
      assert IsFirst(units[1..], NameCell, k - 1) by {
        forall j | 0 <= j < k - 1 ensures NameCell(units[1..][j]) != NameCell(units[1..][k - 1]) {
          assert units[1..][j] == units[j + 1];
        }
      }
      FirstIdOfFirst(units[1..], k - 1);
    }
  }

  /** A first id belongs to the first record of that name. */
  lemma {:induction false} FirstIdOfSome(units: seq<seq<string>>, n: Option<string>) returns (k: nat)
    requires FirstIdOf(units, n).Some?
    ensures k < |units| && NameCell(units[k]) == n && IsFirst(units, NameCell, k)
    ensures FirstIdOf(units, n) == Some(IdOf(units[k]))
  {
    if NameCell(units[0]) == n {
      k := 0;
    } else {
      var k1 := FirstIdOfSome(units[1..], n);
      k := k1 + 1;
      assert units[k] == units[1..][k1];
      forall j | 0 <= j < k ensures NameCell(units[j]) != NameCell(units[k]) {
        if j > 0 {
          assert units[j] == units[1..][j - 1];
        }
      }
    }
  }

  /** `nameToId` after the given business_units records. */
  function NameIds(units: seq<seq<string>>): map<Option<string>, string>
  {
    if units == [] then map[]
    else
      var init := NameIds(units[..|units| - 1]);
      var u := units[|units| - 1];
      if NameCell(u) in init then init else init[NameCell(u) := IdOf(u)]
  }

  /** `unitMapping` after the given business_units records. */
  function UnitMap(units: seq<seq<string>>): map<string, string>
  {
    if units == [] then map[]
    else
      var u := units[|units| - 1];
      var ids := NameIds(units);
      assert NameCell(u) in ids;
      UnitMap(units[..|units| - 1])[IdOf(u) := ids[NameCell(u)]]
  }

  /** A name with a first id is a name of the records. */
  lemma FirstIdOfKey(units: seq<seq<string>>, n: Option<string>)
    requires FirstIdOf(units, n).Some?
    ensures n in KeysOf(units, NameCell)
  {
    var k := FirstIdOfSome(units, n);
  }

  /** `nameToId` holds every name of the records, each with the id of its first record. */
  lemma {:induction false} NameIdsSpec(units: seq<seq<string>>)
    ensures NameIds(units).Keys == KeysOf(units, NameCell)
    ensures forall n :: n in NameIds(units) ==> FirstIdOf(units, n) == Some(NameIds(units)[n])
  {
    if units != [] {
      var init, u := units[..|units| - 1], units[|units| - 1];
      assert units == init + [u];
      NameIdsSpec(init);
      KeysOfSnoc(units, NameCell);
      forall n | n in NameIds(units) ensures FirstIdOf(units, n) == Some(NameIds(units)[n]) {
        FirstIdOfAppend(init, u, n);
        if n !in NameIds(init) {
          if FirstIdOf(init, n).Some? {
            FirstIdOfKey(init, n);
          }
        }
      }
    }
  }

  lemma NameIdsTotal(units: seq<seq<string>>)
    ensures forall n :: n in KeysOf(units, NameCell) ==> n in NameIds(units)
  {
    NameIdsSpec(units);
  }

  /** `unitMapping` holds exactly the ids of the records. */
  lemma {:induction false} UnitMapKeys(units: seq<seq<string>>)
    ensures UnitMap(units).Keys == KeysOf(units, IdOf)
  {
    if units != [] {
      UnitMapKeys(units[..|units| - 1]);
      KeysOfSnoc(units, IdOf);
    }
  }

  /**
   * `unitMapping` sends the id of the last record with that id to the first
   * id of that record's name.
   */
  lemma {:induction false} UnitMapLast(units: seq<seq<string>>)
    ensures forall k :: 0 <= k < |units| && IsLast(units, IdOf, k) ==>
      IdOf(units[k]) in UnitMap(units) && FirstIdOf(units, NameCell(units[k])) == Some(UnitMap(units)[IdOf(units[k])])
  {
    UnitMapKeys(units);
    if units != [] {
      var init, u := units[..|units| - 1], units[|units| - 1];
      assert units == init + [u];
      UnitMapLast(init);
      UnitMapKeys(init);
      forall k | 0 <= k < |units| && IsLast(units, IdOf, k)
        ensures IdOf(units[k]) in UnitMap(units) && FirstIdOf(units, NameCell(units[k])) == Some(UnitMap(units)[IdOf(units[k])])
      {
        if k < |init| {
          UnitMapLastInit(init, u, k);
        } else {
          UnitMapLastOne(init, u);
        }
      }
    }
  }

  lemma UnitMapLastOne(init: seq<seq<string>>, u: seq<string>)
    ensures IdOf(u) in UnitMap(init + [u]) && FirstIdOf(init + [u], NameCell(u)) == Some(UnitMap(init + [u])[IdOf(u)])
  {
    var units := init + [u];
    assert units[..|units| - 1] == init;
    NameIdsSpec(units);
    assert NameCell(u) == NameCell(units[|units| - 1]);
    assert NameCell(u) in KeysOf(units, NameCell);
  }

  lemma UnitMapLastInit(init: seq<seq<string>>, u: seq<string>, k: nat)
    requires k < |init| && IsLast(init + [u], IdOf, k)
    requires IdOf(init[k]) in UnitMap(init) && FirstIdOf(init, NameCell(init[k])) == Some(UnitMap(init)[IdOf(init[k])])
    ensures IdOf((init + [u])[k]) in UnitMap(init + [u])
    ensures FirstIdOf(init + [u], NameCell((init + [u])[k])) == Some(UnitMap(init + [u])[IdOf((init + [u])[k])])
  {
    var units := init + [u];
    assert units[..|units| - 1] == init;
    assert units[k] == init[k];
    assert IdOf(units[|units| - 1]) != IdOf(units[k]);
    FirstIdOfAppend(init, u, NameCell(init[k]));
  }

  /** With distinct ids (table keys), every mapped id maps to itself. */
  lemma UnitMapIdempotent(units: seq<seq<string>>)
    requires forall i, j :: 0 <= i < j < |units| ==> IdOf(units[i]) != IdOf(units[j])
    ensures forall id :: id in UnitMap(units) ==>
      UnitMap(units)[id] in UnitMap(units) && UnitMap(units)[UnitMap(units)[id]] == UnitMap(units)[id]
  {
    UnitMapKeys(units);
    UnitMapLast(units);
    forall id | id in UnitMap(units)
      ensures UnitMap(units)[id] in UnitMap(units) && UnitMap(units)[UnitMap(units)[id]] == UnitMap(units)[id]
    {
      var k :| 0 <= k < |units| && IdOf(units[k]) == id;
      assert IsLast(units, IdOf, k);
      var n := NameCell(units[k]);
      var j := FirstIdOfSome(units, n);
      assert IsLast(units, IdOf, j);
      assert UnitMap(units)[id] == IdOf(units[j]);
      assert IdOf(units[j]) in KeysOf(units, IdOf);
    }
  }

  lemma NameIdsAppend(xs: seq<seq<string>>, x: seq<string>)
    ensures NameIds(xs + [x]) == if NameCell(x) in NameIds(xs) then NameIds(xs) else NameIds(xs)[NameCell(x) := IdOf(x)]
  {
    assert (xs + [x])[..|xs|] == xs;
  }

  lemma UnitMapAppend(xs: seq<seq<string>>, x: seq<string>)
    ensures UnitMap(xs + [x]) == UnitMap(xs)[IdOf(x) := NameIds(xs + [x])[NameCell(x)]]
  {
    assert (xs + [x])[..|xs|] == xs;
  }

  /** One more business_units line updates both maps, unless the line is blank. */
  lemma UnitMappingStep(unitLines: seq<string>, i: nat)
    requires i < |unitLines|
    ensures IsBlank(unitLines[i]) ==>
      NameIds(Records(unitLines[..i + 1])) == NameIds(Records(unitLines[..i])) &&
      UnitMap(Records(unitLines[..i + 1])) == UnitMap(Records(unitLines[..i]))
    ensures !IsBlank(unitLines[i]) ==>
      var parts, ids := Fields(unitLines[i]), NameIds(Records(unitLines[..i]));
      var ids' := if NameCell(parts) in ids then ids else ids[NameCell(parts) := IdOf(parts)];
      NameIds(Records(unitLines[..i + 1])) == ids' &&
      UnitMap(Records(unitLines[..i + 1])) == UnitMap(Records(unitLines[..i]))[IdOf(parts) := ids'[NameCell(parts)]]
  {
    TakeNext(unitLines, i);
    RecordsSnoc(unitLines[..i], unitLines[i]);
    if !IsBlank(unitLines[i]) {
      var rs, parts := Records(unitLines[..i]), Fields(unitLines[i]);
      NameIdsAppend(rs, parts);
      UnitMapAppend(rs, parts);
    }
  }

  /**
   * The loop over the business_units file that builds `nameToId` and
   * `unitMapping`, as importUnitCategories and importFinancialItems both do.
   */
  method BuildUnitMapping(unitLines: seq<string>) returns (unitMapping: map<string, string>)
    ensures unitMapping == UnitMap(Records(unitLines))
  {
    var nameToId: map<Option<string>, string> := map[];
    unitMapping := map[];
    for i := 0 to |unitLines|
      invariant nameToId == NameIds(Records(unitLines[..i]))
      invariant unitMapping == UnitMap(Records(unitLines[..i]))
    {
      var line := unitLines[i];
      UnitMappingStep(unitLines, i);
      if !IsBlank(line) {
        var parts := ParseCsvLine(line);
        var name := NameCell(parts);
        if name !in nameToId {
          nameToId := nameToId[name := IdOf(parts)];
        }
        unitMapping := unitMapping[IdOf(parts) := nameToId[name]];
      }
    }
    TakeAll(unitLines);
  }

  /** `unitMapping.get(id) || id`. */
  function MappedUnit(unitMapping: map<string, string>, id: Option<string>): (r: Option<string>)
    ensures id.None? ==> r.None?
    ensures id.Some? && id.value in unitMapping && unitMapping[id.value] != "" ==> r == Some(unitMapping[id.value])
    ensures id.Some? && (id.value !in unitMapping || unitMapping[id.value] == "") ==> r == id
  {
    if id.Some? && id.value in unitMapping && unitMapping[id.value] != "" then Some(unitMapping[id.value]) else id
  }

  // -------------------------------------------------------- unit categories

  datatype UnitCategoryInsert = UnitCategoryInsert(id: string, businessUnitId: Option<string>, categoryType: Option<string>,
                                                   name: Option<string>, createdAt: string)

  /** The de-duplication key `${mappedUnitId}-${type}-${name}`. */
  function CategoryKey(unitMapping: map<string, string>, parts: seq<string>): string
  {
    Str(MappedUnit(unitMapping, Cell(parts, 2))) + "-" + Str(Cell(parts, 3)) + "-" + Str(Cell(parts, 4))
  }

  /** `[id, , business_unit_id, type, name, created_at]` of one unit_categories line. */
  function UnitCategoryInsertOf(unitMapping: map<string, string>, parts: seq<string>, now: string): (r: UnitCategoryInsert)
    ensures r.businessUnitId == MappedUnit(unitMapping, Cell(parts, 2))
    ensures r.categoryType == Cell(parts, 3) && r.name == Cell(parts, 4)
  {
    UnitCategoryInsert(IdOf(parts), MappedUnit(unitMapping, Cell(parts, 2)), Cell(parts, 3), Cell(parts, 4), OrElse(Cell(parts, 5), now))
  }

  /** The de-duplication key of importUnitCategories as a function of the line. */
  function KeyUnder(unitMapping: map<string, string>): seq<string> -> string
  {
    p => CategoryKey(unitMapping, p)
  }

  function UnitCategoryInserts(unitMapping: map<string, string>, kept: seq<seq<string>>, now: string): (r: seq<UnitCategoryInsert>)
    ensures |r| == |kept|
    ensures forall k :: 0 <= k < |kept| ==> r[k] == UnitCategoryInsertOf(unitMapping, kept[k], now)
  {
    if kept == [] then []
    else UnitCategoryInserts(unitMapping, kept[..|kept| - 1], now) + [UnitCategoryInsertOf(unitMapping, kept[|kept| - 1], now)]
  }

  /** The state of `importUnitCategories` after the given lines: the seen keys and the inserts so far. */
  ghost predicate UnitCategoriesAfter(unitMapping: map<string, string>, lines: seq<string>, seen: set<string>,
                                      inserts: seq<UnitCategoryInsert>, now: string)
  {
    var rs := Records(lines);
    seen == KeysOf(rs, KeyUnder(unitMapping)) &&
    inserts == UnitCategoryInserts(unitMapping, FirstByKey(rs, KeyUnder(unitMapping)), now)
  }

  lemma UnitCategoriesAppend(unitMapping: map<string, string>, rs: seq<seq<string>>, parts: seq<string>,
                             seen: set<string>, inserts: seq<UnitCategoryInsert>, now: string)
    requires seen == KeysOf(rs, KeyUnder(unitMapping))
    requires inserts == UnitCategoryInserts(unitMapping, FirstByKey(rs, KeyUnder(unitMapping)), now)
    ensures var key, k := KeyUnder(unitMapping), CategoryKey(unitMapping, parts);
      if k in seen then
        seen == KeysOf(rs + [parts], key) &&
        inserts == UnitCategoryInserts(unitMapping, FirstByKey(rs + [parts], key), now)
      else
        seen + {k} == KeysOf(rs + [parts], key) &&
        inserts + [UnitCategoryInsertOf(unitMapping, parts, now)] ==
          UnitCategoryInserts(unitMapping, FirstByKey(rs + [parts], key), now)
  {
    var key := KeyUnder(unitMapping);
    FirstByKeyStep(rs, parts, key, seen);
    InitOfSnoc(FirstByKey(rs, key), parts);
  }

  /** One more line: a blank one changes nothing, a new key adds its insert, a seen key is skipped. */
  lemma UnitCategoriesStep(unitMapping: map<string, string>, lines: seq<string>, i: nat, seen: set<string>,
                           inserts: seq<UnitCategoryInsert>, now: string)
    requires i < |lines| && UnitCategoriesAfter(unitMapping, lines[..i], seen, inserts, now)
    ensures IsBlank(lines[i]) ==> UnitCategoriesAfter(unitMapping, lines[..i + 1], seen, inserts, now)
    ensures !IsBlank(lines[i]) ==>
      var parts := Fields(lines[i]);
      var k := CategoryKey(unitMapping, parts);
      if k in seen then UnitCategoriesAfter(unitMapping, lines[..i + 1], seen, inserts, now)
      else UnitCategoriesAfter(unitMapping, lines[..i + 1], seen + {k},
                               inserts + [UnitCategoryInsertOf(unitMapping, parts, now)], now)
  {
    TakeNext(lines, i);
    RecordsSnoc(lines[..i], lines[i]);
    if !IsBlank(lines[i]) {
      UnitCategoriesAppend(unitMapping, Records(lines[..i]), Fields(lines[i]), seen, inserts, now);
    }
  }

  /**
   * `importUnitCategories`: the unit mapping is built from business_units,
   * then a line is inserted only when its key was not seen; `count` is the
   * number of inserts, which is the number of distinct keys.
   */
  method ImportUnitCategories(lines: seq<string>, unitLines: seq<string>, now: string)
    returns (inserts: seq<UnitCategoryInsert>, count: int)
    ensures var m := UnitMap(Records(unitLines));
      var rs := Records(lines);
      inserts == UnitCategoryInserts(m, FirstByKey(rs, KeyUnder(m)), now) && count == |KeysOf(rs, KeyUnder(m))|
    ensures count == |inserts|
  {
    var unitMapping := BuildUnitMapping(unitLines);
    var seen: set<string> := {};
    inserts := [];
    count := 0;
    for i := 0 to |lines|
      invariant UnitCategoriesAfter(unitMapping, lines[..i], seen, inserts, now)
      invariant count == |inserts|
    {
      var line := lines[i];
      UnitCategoriesStep(unitMapping, lines, i, seen, inserts, now);
      if !IsBlank(line) {
        var parts := ParseCsvLine(line);
        var k := CategoryKey(unitMapping, parts);
        if k !in seen {
          seen := seen + {k};
          inserts := inserts + [UnitCategoryInsertOf(unitMapping, parts, now)];
          count := count + 1;
        }
      }
    }
    UnitCategoriesDone(unitMapping, lines, seen, inserts, now);
  }

  /** After every line: the inserts of the first line of each key, one per distinct key. */
  lemma UnitCategoriesDone(unitMapping: map<string, string>, lines: seq<string>, seen: set<string>,
                           inserts: seq<UnitCategoryInsert>, now: string)
    requires UnitCategoriesAfter(unitMapping, lines[..|lines|], seen, inserts, now)
    ensures inserts == UnitCategoryInserts(unitMapping, FirstByKey(Records(lines), KeyUnder(unitMapping)), now)
    ensures |KeysOf(Records(lines), KeyUnder(unitMapping))| == |inserts|
  {
    TakeAll(lines);
    FirstByKeyCount(Records(lines), KeyUnder(unitMapping));
  }

  // -------------------------------------------------------- bank balances

  datatype BalanceInsert = BalanceInsert(id: string, bankName: Option<string>, initialBalance: Option<real>,
                                         baselineDate: Option<string>, createdAt: string, updatedAt: string)

  /** `[id, , bank_name, initial_balance, created_at, updated_at, baseline_date]` of one bank_balances line. */
  function BalanceInsertOf(parts: seq<string>, now: string): (r: BalanceInsert)
    ensures r.id == IdOf(parts) && r.bankName == Cell(parts, 2)
  {
    BalanceInsert(IdOf(parts), Cell(parts, 2), ParseFloat(OrElse(Cell(parts, 3), "0")), OrNull(Cell(parts, 6)),
                  OrElse(Cell(parts, 4), now), OrElse(Cell(parts, 5), now))
  }

  function BalanceInserts(rs: seq<seq<string>>, now: string): (r: seq<BalanceInsert>)
    ensures |r| == |rs|
    ensures forall k :: 0 <= k < |rs| ==> r[k] == BalanceInsertOf(rs[k], now)
  {
    if rs == [] then [] else BalanceInserts(rs[..|rs| - 1], now) + [BalanceInsertOf(rs[|rs| - 1], now)]
  }

  /** A missing or empty opening balance is stored as 0. */
  lemma BalanceDefaultsToZero(parts: seq<string>, now: string)
    requires Cell(parts, 3).None? || Cell(parts, 3) == Some("")
    ensures BalanceInsertOf(parts, now).initialBalance == Some(0.0)
  {
    ParseFloatNat(0);
    assert NatToString(0) == "0";
  }

  /** One more bank_balances line adds its insert, unless the line is blank. */
  lemma BalancesStep(lines: seq<string>, i: nat, now: string)
    requires i < |lines|
    ensures BalanceInserts(Records(lines[..i + 1]), now) ==
      BalanceInserts(Records(lines[..i]), now) + (if IsBlank(lines[i]) then [] else [BalanceInsertOf(Fields(lines[i]), now)])
  {
    TakeNext(lines, i);
    RecordsSnoc(lines[..i], lines[i]);
    InitOfSnoc(Records(lines[..i]), Fields(lines[i]));
  }

  /**
   * `importBankBalances`: the file may be missing (`fetched` is None when
   * the fetch throws), in which case nothing is inserted.
   */
  method ImportBankBalances(fetched: Option<seq<string>>, now: string) returns (inserts: seq<BalanceInsert>)
    ensures fetched.None? ==> inserts == []
    ensures fetched.Some? ==> inserts == BalanceInserts(Records(fetched.value), now)
  {
    inserts := [];
    if fetched.None? {
      return;
    }
    var lines := fetched.value;
    for i := 0 to |lines|
      invariant inserts == BalanceInserts(Records(lines[..i]), now)
    {
      var line := lines[i];
      BalancesStep(lines, i, now);
      if !IsBlank(line) {
        var parts := ParseCsvLine(line);
        inserts := inserts + [BalanceInsertOf(parts, now)];
      }
    }
    TakeAll(lines);
  }

  // -------------------------------------------------------- recurring bills

  datatype BillInsert = BillInsert(id: string, name: Option<string>, value: Option<real>, dueDate: Option<int>,
                                   category: Option<string>, bank: Option<string>, createdAt: string, updatedAt: string)

  /** `[id, , name, value, category, due_date, bank, , , created_at, updated_at]` of one recurring_bills line. */
  function BillInsertOf(parts: seq<string>, now: string): (r: BillInsert)
    ensures Cell(parts, 3).None? ==> r.value.None?
    ensures Cell(parts, 5).None? ==> r.dueDate.None?
  {
    BillInsert(IdOf(parts), Cell(parts, 2),
               if Cell(parts, 3).Some? then ParseFloat(parts[3]) else None,
               if Cell(parts, 5).Some? then ParseInt(parts[5]) else None,
               OrNull(Cell(parts, 4)), OrNull(Cell(parts, 6)), OrElse(Cell(parts, 9), now), OrElse(Cell(parts, 10), now))
  }

  function BillInserts(rs: seq<seq<string>>, now: string): (r: seq<BillInsert>)
    ensures |r| == |rs|
    ensures forall k :: 0 <= k < |rs| ==> r[k] == BillInsertOf(rs[k], now)
  {
    if rs == [] then [] else BillInserts(rs[..|rs| - 1], now) + [BillInsertOf(rs[|rs| - 1], now)]
  }

  /** One more recurring_bills line adds its insert, unless the line is blank. */
  lemma BillsStep(lines: seq<string>, i: nat, now: string)
    requires i < |lines|
    ensures BillInserts(Records(lines[..i + 1]), now) ==
      BillInserts(Records(lines[..i]), now) + (if IsBlank(lines[i]) then [] else [BillInsertOf(Fields(lines[i]), now)])
  {
    TakeNext(lines, i);
    RecordsSnoc(lines[..i], lines[i]);
    InitOfSnoc(Records(lines[..i]), Fields(lines[i]));
  }

  /** `importRecurringBills`: one insert per non-blank line; `count` is their number. */
  method ImportRecurringBills(lines: seq<string>, now: string) returns (inserts: seq<BillInsert>, count: int)
    ensures inserts == BillInserts(Records(lines), now)
    ensures count == |inserts|
  {
    inserts := [];
    count := 0;
    for i := 0 to |lines|
      invariant inserts == BillInserts(Records(lines[..i]), now)
      invariant count == |inserts|
    {
      var line := lines[i];
      BillsStep(lines, i, now);
      if !IsBlank(line) {
        var parts := ParseCsvLine(line);
        inserts := inserts + [BillInsertOf(parts, now)];
        count := count + 1;
      }
    }
    TakeAll(lines);
  }

  // -------------------------------------------------------- financial items

  datatype ItemInsert = ItemInsert(
    id: string, date: Option<string>, itemType: string, description: Option<string>,
    amount: Option<real>, category: Option<string>, bank: Option<string>,
    businessUnitId: Option<string>, isInstallment: int, totalInstallments: Option<int>,
    installmentNumber: Option<int>, installmentGroupId: Option<string>,
    createdAt: string, updatedAt: string)

  /** `cell ? parseInt(cell) : null`; NaN is also None. */
  function IntOrNull(c: Option<string>): (r: Option<int>)
    ensures c.None? || c.value == "" ==> r.None?
    ensures c.Some? && c.value != "" ==> r == ParseInt(c.value)
  {
    if c.Some? && c.value != "" then ParseInt(c.value) else None
  }

  /** The literal truth values of the installment flag. */
  predicate IsTrueFlag(c: Option<string>)
  {
    c == Some("t") || c == Some("1") || c == Some("true")
  }

  /** One financial_items line as inserted, by the column positions of the export's header. */
  function ItemInsertOf(unitMapping: map<string, string>, parts: seq<string>, now: string): ItemInsert
  {
    var bu := Cell(parts, 9);
    ItemInsert(
      IdOf(parts), Cell(parts, 2), OrElse(Cell(parts, 3), "saida"), Cell(parts, 4),
      if Cell(parts, 5).Some? then ParseFloat(parts[5]) else None,
      OrNull(Cell(parts, 6)), OrNull(Cell(parts, 7)),
      if bu.Some? && bu.value != "" then MappedUnit(unitMapping, bu) else None,
      if IsTrueFlag(Cell(parts, 11)) then 1 else 0,
      IntOrNull(Cell(parts, 12)), IntOrNull(Cell(parts, 19)), OrNull(Cell(parts, 18)),
      OrElse(Cell(parts, 20), now), OrElse(Cell(parts, 21), now))
  }

  /**
   * The installment flag is 1 exactly for the literal truth values, the type
   * defaults to 'saida', and the unit goes through the unit mapping.
   */
  lemma ItemInsertFields(unitMapping: map<string, string>, parts: seq<string>, now: string)
    ensures var r := ItemInsertOf(unitMapping, parts, now);
      (r.isInstallment == 1 <==> IsTrueFlag(Cell(parts, 11))) &&
      (r.isInstallment == 0 <==> !IsTrueFlag(Cell(parts, 11))) &&
      (r.itemType == "saida" <==> Cell(parts, 3).None? || Cell(parts, 3) == Some("") || Cell(parts, 3) == Some("saida")) &&
      (Cell(parts, 9).None? || Cell(parts, 9) == Some("") ==> r.businessUnitId.None?) &&
      (Cell(parts, 9).Some? && Cell(parts, 9) != Some("") ==> r.businessUnitId == MappedUnit(unitMapping, Cell(parts, 9)))
  {
  }

  function ItemInserts(unitMapping: map<string, string>, rs: seq<seq<string>>, now: string): (r: seq<ItemInsert>)
    ensures |r| == |rs|
    ensures forall k :: 0 <= k < |rs| ==> r[k] == ItemInsertOf(unitMapping, rs[k], now)
  {
    if rs == [] then [] else ItemInserts(unitMapping, rs[..|rs| - 1], now) + [ItemInsertOf(unitMapping, rs[|rs| - 1], now)]
  }

  /** One more line of the financial_items file adds its insert, unless the line is blank. */
  lemma ItemsStep(unitMapping: map<string, string>, lines: seq<string>, i: nat, now: string)
    requires i < |lines|
    ensures ItemInserts(unitMapping, Records(lines[..i + 1]), now) ==
      ItemInserts(unitMapping, Records(lines[..i]), now) +
      (if IsBlank(lines[i]) then [] else [ItemInsertOf(unitMapping, Fields(lines[i]), now)])
  {
    TakeNext(lines, i);
    RecordsSnoc(lines[..i], lines[i]);
    var rs := Records(lines[..i]);
    InitOfSnoc(rs, Fields(lines[i]));
  }

  /** `importFinancialItems`: one insert per non-blank line, in order; `count` is their number. */
  method ImportFinancialItems(lines: seq<string>, unitLines: seq<string>, now: string)
    returns (inserts: seq<ItemInsert>, count: int)
    ensures inserts == ItemInserts(UnitMap(Records(unitLines)), Records(lines), now)
    ensures count == |inserts|
  {
    var unitMapping := BuildUnitMapping(unitLines);
    inserts := [];
    count := 0;
    for i := 0 to |lines|
      invariant inserts == ItemInserts(unitMapping, Records(lines[..i]), now)
      invariant count == |inserts|
    {
      var line := lines[i];
      ItemsStep(unitMapping, lines, i, now);
      if !IsBlank(line) {
        var parts := ParseCsvLine(line);
        inserts := inserts + [ItemInsertOf(unitMapping, parts, now)];
        count := count + 1;
      }
    }
    TakeAll(lines);
  }

  // -------------------------------------------------------- the whole import

  /** What each table receives, in the order the import runs. */
  datatype Imported = Imported(units: seq<UnitInsert>, categories: seq<CategoryInsert>,
                               unitCategories: seq<UnitCategoryInsert>, balances: seq<BalanceInsert>,
                               bills: seq<BillInsert>, items: seq<ItemInsert>)

  /**
   * `importHistoricalData` on the fetched files; the business_units file is
   * read by three of the steps and is the same text each time. A missing
   * bank_balances file is None.
   */
  method ImportHistoricalData(unitsCsv: string, categoriesCsv: string, unitCategoriesCsv: string,
                              balancesCsv: Option<string>, billsCsv: string, itemsCsv: string, now: string)
    returns (r: Imported)
    ensures var units := Records(LinesAfterHeader(unitsCsv));
      r.units == UnitInserts(FirstByKey(units, NameCell), now) &&
      r.categories == CategoryInserts(Records(LinesAfterHeader(categoriesCsv)), now) &&
      r.bills == BillInserts(Records(LinesAfterHeader(billsCsv)), now) &&
      r.items == ItemInserts(UnitMap(units), Records(LinesAfterHeader(itemsCsv)), now)
    ensures var m := UnitMap(Records(LinesAfterHeader(unitsCsv)));
      var rs := Records(LinesAfterHeader(unitCategoriesCsv));
      r.unitCategories == UnitCategoryInserts(m, FirstByKey(rs, KeyUnder(m)), now)
    ensures balancesCsv.None? ==> r.balances == []
    ensures balancesCsv.Some? ==> r.balances == BalanceInserts(Records(LinesAfterHeader(balancesCsv.value)), now)
  {
    var unitLines := LinesAfterHeader(unitsCsv);
    var units, _ := ImportBusinessUnits(unitLines, now);
    var categories := ImportCategories(LinesAfterHeader(categoriesCsv), now);
    var unitCategories, _ := ImportUnitCategories(LinesAfterHeader(unitCategoriesCsv), unitLines, now);
    var balanceLines := if balancesCsv.Some? then Some(LinesAfterHeader(balancesCsv.value)) else None;
    var balances := ImportBankBalances(balanceLines, now);
    var bills, _ := ImportRecurringBills(LinesAfterHeader(billsCsv), now);
    var items, _ := ImportFinancialItems(LinesAfterHeader(itemsCsv), unitLines, now);
    r := Imported(units, categories, unitCategories, balances, bills, items);
  }
}
