/** The checkpoint-set spreadsheet: printing a table as CSV, parsing it back, and the formula guard on cells. */
module Csv {
  import opened Common
  import opened Text

  const QUOTE := '"'
  const COMMA := ','
  const CR := '\r'
  const LF := '\n'
  const BOM := '\U{FEFF}'
  const ROW_LIMIT := 201

  type Row = seq<string>

  // ---------------------------------------------------------------- the formula guard

  predicate StartsFormula(c: char) {
    c == '=' || c == '+' || c == '@' || c == '-'
  }

  /** Text a spreadsheet could take for a formula: an operator after optional space, or leading control space. */
  predicate FormulaLike(v: string) {
    || (exists k :: 0 <= k < |v| && StartsFormula(v[k]) && forall j | 0 <= j < k :: IsSpace(v[j]))
    || (v != "" && (v[0] == '\t' || v[0] == CR || v[0] == LF))
  }

  function Protect(v: string): string {
    if FormulaLike(v) then "'" + v else v
  }

  function ImportedCell(v: string): string {
    if v != "" && v[0] == '\'' && FormulaLike(v[1..]) then v[1..] else v
  }

  /** Importing undoes the guard, except for text that already looks guarded. */
  lemma GuardIsUndone(v: string)
    ensures ImportedCell(Protect(v)) == v <==> !(v != "" && v[0] == '\'' && FormulaLike(v[1..]))
  {
    if FormulaLike(v) {
      assert ("'" + v)[1..] == v;
    } else if v != "" && v[0] == '\'' && FormulaLike(v[1..]) {
      assert |v[1..]| < |v|;
    }
  }

  /**
   * Text is printed with a leading apostrophe exactly when its first character that is not white space
   * is an operator a formula starts with, or its first character is a tab or ends a line. What is
   * printed never looks like a formula itself.
   */
  lemma FormulasAreGuardedExactly(v: string)
    ensures Protect(v)
            == if || (TrimStart(v) != "" && TrimStart(v)[0] in ['=', '+', '-', '@'])
                  || (v != "" && v[0] in ['\t', '\r', '\n'])
               then "'" + v else v
    ensures !FormulaLike(Protect(v))
  {
    FormulaAfterSpace(v);
    if FormulaLike(v) {
      assert Protect(v)[0] == '\'';
      assert !IsSpace('\'') && !StartsFormula('\'');
    }
  }

  lemma {:induction false} FormulaAfterSpace(v: string)
    ensures (exists k :: 0 <= k < |v| && StartsFormula(v[k]) && forall j | 0 <= j < k :: IsSpace(v[j]))
            <==> TrimStart(v) != "" && TrimStart(v)[0] in ['=', '+', '-', '@']
  {
    if v != "" && IsSpace(v[0]) {
      FormulaAfterSpace(v[1..]);
      if k :| 0 <= k < |v| && StartsFormula(v[k]) && forall j | 0 <= j < k :: IsSpace(v[j]) {
        assert k > 0 && v[1..][k - 1] == v[k];
        assert forall j | 0 <= j < k - 1 :: IsSpace(v[1..][j]);
      }
      if k :| 0 <= k < |v[1..]| && StartsFormula(v[1..][k]) && forall j | 0 <= j < k :: IsSpace(v[1..][j]) {
        assert v[k + 1] == v[1..][k];
        forall j | 0 <= j < k + 1 ensures IsSpace(v[j]) {
          if j > 0 {
            assert v[1..][j - 1] == v[j];
          }
        }
      }
    }
  }

  // ---------------------------------------------------------------- printing

  /** How one character stands inside quotes. */
  function InQuotes(c: char): (text: string)
    ensures text != ""
  {
    if c == QUOTE then [QUOTE, QUOTE] else [c]
  }

  function Doubled(v: string): string {
    if v == "" then "" else InQuotes(v[0]) + Doubled(v[1..])
  }

  predicate NeedsQuotes(v: string) {
    exists i :: 0 <= i < |v| && (v[i] == QUOTE || v[i] == COMMA || v[i] == LF || v[i] == CR)
  }

  function CsvCell(v: string): string {
    var guarded := Protect(v);
    if NeedsQuotes(guarded) then [QUOTE] + Doubled(guarded) + [QUOTE] else guarded
  }

  function Join(parts: seq<string>, separator: string): string {
    if parts == [] then "" else if |parts| == 1 then parts[0] else parts[0] + separator + Join(parts[1..], separator)
  }

  function Line(row: Row): string {
    Join(Map(row, CsvCell), [COMMA])
  }

  function Print(table: seq<Row>): string {
    [BOM] + Join(Map(table, Line), [CR, LF]) + [CR, LF]
  }

  // ---------------------------------------------------------------- parsing

  datatype CsvError = Unterminated | TooManyRows

  /** What the scanner holds between two characters. */
  datatype Scanner = Scanner(rows: seq<Row>, row: Row, field: string, quoted: bool)

  predicate SomeText(row: Row) {
    exists i :: 0 <= i < |row| && row[i] != ""
  }

  function WithoutTrailingCr(v: string): string {
    if v != "" && v[|v| - 1] == CR then v[..|v| - 1] else v
  }

  /** Ends a row: blank rows are dropped. */
  function EndRow(s: Scanner): Scanner {
    var row := s.row + [WithoutTrailingCr(s.field)];
    Scanner(if SomeText(row) then s.rows + [row] else s.rows, [], "", false)
  }

  /** Consumes one character, or two for a doubled quote. */
  function Take(input: string, s: Scanner): (taken: (Scanner, nat))
    requires input != ""
    ensures 1 <= taken.1 <= |input|
  {
    var c := input[0];
    if s.quoted then
      if c == QUOTE && |input| > 1 && input[1] == QUOTE then (s.(field := s.field + [QUOTE]), 2)
      else if c == QUOTE then (s.(quoted := false), 1)
      else (s.(field := s.field + [c]), 1)
    else if c == QUOTE && s.field == "" then (s.(quoted := true), 1)
    else if c == COMMA then (s.(row := s.row + [s.field], field := ""), 1)
    else if c == LF then (EndRow(s), 1)
    else (s.(field := s.field + [c]), 1)
  }

  function Scan(input: string, s: Scanner): Scanner
    decreases |input|
  {
    if input == "" then s else var (next, n) := Take(input, s); Scan(input[n..], next)
  }

  function WithoutBom(data: string): string {
    if data != "" && data[0] == BOM then data[1..] else data
  }

  function Parse(data: string): Result<seq<Row>, CsvError> {
    var last := Scan(WithoutBom(data), Scanner([], [], "", false));
    if last.quoted then Failure(Unterminated)
    else if |EndRow(last).rows| > ROW_LIMIT then Failure(TooManyRows)
    else Success(EndRow(last).rows)
  }

  method ParseCsv(data: string) returns (result: Result<seq<Row>, CsvError>)
    ensures result == Parse(data)
  {
    hide EndRow;
    var rows: seq<Row>, row: Row, field, quoted := [], [], "", false;
    var input := WithoutBom(data);
    var index := 0;
    while index < |input|
      invariant 0 <= index <= |input|
      invariant Scan(input[index..], Scanner(rows, row, field, quoted)) == Scan(input, Scanner([], [], "", false))
    {
      var character := input[index];
      ghost var s := Scanner(rows, row, field, quoted);
      ghost var (next, n) := Take(input[index..], s);
      assert input[index..][n..] == input[index + n..];
      if quoted {
        if character == QUOTE && index + 1 < |input| && input[index + 1] == QUOTE {
          field := field + [QUOTE];
          index := index + 1;
        } else if character == QUOTE {
          quoted := false;
        } else {
          field := field + [character];
        }
      } else if character == QUOTE && field == "" {
        quoted := true;
      } else if character == COMMA {
        row := row + [field];
        field := "";
      } else if character == LF {
        rows := RowEnded(rows, row, field);
        row, field := [], "";
      } else {
        field := field + [character];
      }
      index := index + 1;
      assert Scanner(rows, row, field, quoted) == next by { RowEndedIsEndRow(s); }
    }
    assert input[index..] == "";
    if quoted {
      return Failure(Unterminated);
    }
    rows := RowEnded(rows, row, field);
    RowEndedIsEndRow(Scanner(rows, row, field, quoted));
    RowEndedIsEndRow(Scan(input, Scanner([], [], "", false)));
    if |rows| > ROW_LIMIT {
      return Failure(TooManyRows);
    }
    result := Success(rows);
  }

  /** The rows after one more row has ended. */
  function RowEnded(rows: seq<Row>, row: Row, field: string): seq<Row> {
    var ended := row + [WithoutTrailingCr(field)];
    if SomeText(ended) then rows + [ended] else rows
  }

  lemma RowEndedIsEndRow(s: Scanner)
    ensures EndRow(s) == Scanner(RowEnded(s.rows, s.row, s.field), [], "", false)
  {
  }

  // ---------------------------------------------------------------- scanning what was printed

  lemma ScanStep(head: string, tail: string, s: Scanner, next: Scanner)
    requires head != "" && Take(head + tail, s) == (next, |head|)
    ensures Scan(head + tail, s) == Scan(tail, next)
  {
    hide Take;
    assert (head + tail)[|head|..] == tail;
  }

  lemma DoubledSplits(v: string, end: string)
    requires v != ""
    ensures Doubled(v) + end == InQuotes(v[0]) + (Doubled(v[1..]) + end)
  {
    Associate(InQuotes(v[0]), Doubled(v[1..]), end);
  }

  lemma TakeInQuotes(c: char, tail: string, s: Scanner)
    requires s.quoted
    ensures Take(InQuotes(c) + tail, s) == (s.(field := s.field + [c]), |InQuotes(c)|)
  {
    hide EndRow;
  }

  lemma ScanClosing(rest: string, s: Scanner)
    requires s.quoted && (rest == "" || rest[0] != QUOTE)
    ensures Scan(Doubled("") + ([QUOTE] + rest), s) == Scan(rest, s.(quoted := false))
  {
    hide Scan, EndRow;
    assert Doubled("") + ([QUOTE] + rest) == [QUOTE] + rest;
    ScanStep([QUOTE], rest, s, s.(quoted := false));
  }

  lemma {:induction false} ScanQuoted(v: string, rest: string, s: Scanner)
    requires s.quoted && (rest == "" || rest[0] != QUOTE)
    ensures Scan(Doubled(v) + ([QUOTE] + rest), s) == Scan(rest, s.(field := s.field + v, quoted := false))
    decreases |v|
  {
    hide Scan, EndRow, Doubled, Take, InQuotes;
    if v == "" {
      assert s.field + v == s.field;
      ScanClosing(rest, s);
    } else {
      var next := s.(field := s.field + [v[0]]);
      DoubledSplits(v, [QUOTE] + rest);
      TakeInQuotes(v[0], Doubled(v[1..]) + ([QUOTE] + rest), s);
      ScanStep(InQuotes(v[0]), Doubled(v[1..]) + ([QUOTE] + rest), s, next);
      ScanQuoted(v[1..], rest, next);
      FieldGrows(s.field, v);
    }
  }

  lemma FieldGrows(field: string, v: string)
    requires v != ""
    ensures field + [v[0]] + v[1..] == field + v
  {
    assert v == [v[0]] + v[1..];
  }

  predicate Plain(v: string) {
    forall i | 0 <= i < |v| :: v[i] != QUOTE && v[i] != COMMA && v[i] != LF && v[i] != CR
  }

  lemma {:induction false} ScanPlain(v: string, rest: string, s: Scanner)
    requires !s.quoted && Plain(v)
    ensures Scan(v + rest, s) == Scan(rest, s.(field := s.field + v))
    decreases |v|
  {
    hide Scan, EndRow;
    if v == "" {
      assert v + rest == rest && s.field + v == s.field;
    } else {
      var next := s.(field := s.field + [v[0]]);
      assert v + rest == [v[0]] + (v[1..] + rest);
      ScanStep([v[0]], v[1..] + rest, s, next);
      ScanPlain(v[1..], rest, next);
      assert next.field + v[1..] == s.field + v;
    }
  }

  /** Scanning a printed cell collects the guarded cell, whatever it contains. */
  lemma ScanCell(v: string, rest: string, s: Scanner)
    requires !s.quoted && s.field == "" && (rest == "" || rest[0] != QUOTE)
    ensures Scan(CsvCell(v) + rest, s) == Scan(rest, s.(field := Protect(v)))
  {
    hide Scan, EndRow, Doubled, Protect;
    var guarded := Protect(v);
    assert "" + guarded == guarded;
    if NeedsQuotes(guarded) {
      var tail := Doubled(guarded) + ([QUOTE] + rest);
      assert CsvCell(v) + rest == [QUOTE] + tail;
      ScanStep([QUOTE], tail, s, s.(quoted := true));
      ScanQuoted(guarded, rest, s.(quoted := true));
    } else {
      ScanPlain(guarded, rest, s);
    }
  }

  /** The end of a printed line: the carriage return joins the last cell and is taken off again. */
  lemma ScanLineEnd(rest: string, s: Scanner)
    requires !s.quoted
    ensures Scan([CR, LF] + rest, s) == Scan(rest, Scanner(RowEnded(s.rows, s.row, s.field + [CR]), [], "", false))
  {
    hide Scan;
    var next := s.(field := s.field + [CR]);
    assert [CR, LF] + rest == [CR] + ([LF] + rest);
    ScanStep([CR], [LF] + rest, s, next);
    RowEndedIsEndRow(next);
    ScanStep([LF], rest, next, EndRow(next));
  }

  lemma ScanComma(rest: string, s: Scanner)
    requires !s.quoted
    ensures Scan([COMMA] + rest, s) == Scan(rest, s.(row := s.row + [s.field], field := ""))
  {
    hide Scan, EndRow;
    ScanStep([COMMA], rest, s, s.(row := s.row + [s.field], field := ""));
  }

  lemma LineSplits(row: Row, rest: string)
    requires |row| > 1
    ensures Line(row) + [CR, LF] + rest == CsvCell(row[0]) + ([COMMA] + (Line(row[1..]) + [CR, LF] + rest))
  {
    hide CsvCell;
    assert Map(row, CsvCell)[1..] == Map(row[1..], CsvCell);
  }

  lemma LineOfOne(row: Row, rest: string)
    requires |row| == 1
    ensures Line(row) + [CR, LF] + rest == CsvCell(row[0]) + ([CR, LF] + rest)
  {
    hide CsvCell;
  }

  lemma {:induction false} ScanLine(row: Row, rest: string, s: Scanner)
    requires row != [] && !s.quoted && s.field == ""
    ensures Scan(Line(row) + [CR, LF] + rest, s)
            == Scan(rest,
                    Scanner(RowEnded(s.rows, s.row + Map(row, Protect)[..|row| - 1], Protect(row[|row| - 1]) + [CR]),
                            [], "", false))
    decreases |row|
  {
    hide Scan, Line, CsvCell, Protect, RowEnded;
    if |row| == 1 {
      LineOfOne(row, rest);
      ScanCell(row[0], [CR, LF] + rest, s);
      ScanLineEnd(rest, s.(field := Protect(row[0])));
      assert s.row + Map(row, Protect)[..0] == s.row;
    } else {
      var tail := Line(row[1..]) + [CR, LF] + rest;
      LineSplits(row, rest);
      ScanCell(row[0], [COMMA] + tail, s);
      ScanComma(tail, s.(field := Protect(row[0])));
      var next := s.(row := s.row + [Protect(row[0])]);
      ScanLine(row[1..], rest, next);
      assert next.row + Map(row[1..], Protect)[..|row| - 2] == s.row + Map(row, Protect)[..|row| - 1];
    }
  }

  /** The guarded cells of the rows that hold any text. */
  function Kept(table: seq<Row>): seq<Row> {
    if table == [] then []
    else (if SomeText(table[0]) then [Map(table[0], Protect)] else []) + Kept(table[1..])
  }

  lemma ProtectKeepsText(row: Row)
    ensures SomeText(Map(row, Protect)) <==> SomeText(row)
  {
    forall i | 0 <= i < |row| ensures row[i] != "" <==> Map(row, Protect)[i] != "" {
    }
  }

  lemma RowRebuilt(rows: seq<Row>, row: Row)
    requires row != []
    ensures RowEnded(rows, [] + Map(row, Protect)[..|row| - 1], Protect(row[|row| - 1]) + [CR]) == rows + Kept([row])
  {
    ProtectKeepsText(row);
    var last := Protect(row[|row| - 1]);
    assert WithoutTrailingCr(last + [CR]) == last;
    assert [] + Map(row, Protect)[..|row| - 1] + [last] == Map(row, Protect);
    assert Kept([row][1..]) == [];
  }

  /** One printed line, read from the start of a row, adds that row if it holds any text. */
  lemma ScanRow(row: Row, rest: string, rows: seq<Row>)
    ensures Scan(Line(row) + [CR, LF] + rest, Scanner(rows, [], "", false))
            == Scan(rest, Scanner(rows + Kept([row]), [], "", false))
  {
    hide Scan, Line, Protect, RowEnded, Kept;
    var s := Scanner(rows, [], "", false);
    if row == [] {
      EmptyLine(row, rows);
      assert [] + [CR, LF] + rest == [CR, LF] + rest;
      ScanLineEnd(rest, s);
      assert "" + [CR] == [CR];
    } else {
      ScanLine(row, rest, s);
      RowRebuilt(rows, row);
    }
  }

  lemma EmptyLine(row: Row, rows: seq<Row>)
    requires row == []
    ensures Line(row) == "" && RowEnded(rows, [], [CR]) == rows == rows + Kept([row])
  {
    assert [] + [WithoutTrailingCr([CR])] == [""];
    assert [row][1..] == [];
  }

  lemma JoinSplits(parts: seq<string>, separator: string, end: string)
    requires |parts| > 1
    ensures Join(parts, separator) + end == parts[0] + separator + (Join(parts[1..], separator) + end)
  {
    var rest := Join(parts[1..], separator);
    assert Join(parts, separator) == parts[0] + separator + rest;
  }

  lemma TableSplits(table: seq<Row>)
    requires |table| > 1
    ensures Join(Map(table, Line), [CR, LF]) + [CR, LF]
            == Line(table[0]) + [CR, LF] + (Join(Map(table[1..], Line), [CR, LF]) + [CR, LF])
  {
    hide Line, Join;
    assert Map(table, Line)[1..] == Map(table[1..], Line);
    JoinSplits(Map(table, Line), [CR, LF], [CR, LF]);
  }

  lemma KeptSplits(table: seq<Row>)
    requires table != []
    ensures Kept(table) == Kept([table[0]]) + Kept(table[1..])
  {
    hide Protect;
    assert [table[0]][1..] == [];
  }

  lemma {:induction false} ScanTable(table: seq<Row>, rows: seq<Row>)
    requires table != []
    ensures Scan(Join(Map(table, Line), [CR, LF]) + [CR, LF], Scanner(rows, [], "", false))
            == Scanner(rows + Kept(table), [], "", false)
    decreases |table|
  {
    hide Line, Kept, Scan;
    if |table| == 1 {
      assert table == [table[0]];
      assert Join(Map(table, Line), [CR, LF]) + [CR, LF] == Line(table[0]) + [CR, LF] + "";
      ScanRow(table[0], "", rows);
      ScanNothing(Scanner(rows + Kept(table), [], "", false));
    } else {
      TableSplits(table);
      KeptSplits(table);
      ScanRow(table[0], Join(Map(table[1..], Line), [CR, LF]) + [CR, LF], rows);
      ScanTable(table[1..], rows + Kept([table[0]]));
      assert rows + Kept([table[0]]) + Kept(table[1..]) == rows + Kept(table);
    }
  }

  lemma ScanNothing(s: Scanner)
    ensures Scan("", s) == s
  {
  }

  lemma ScanPrinted(table: seq<Row>)
    ensures Scan(WithoutBom(Print(table)), Scanner([], [], "", false)) == Scanner(Kept(table), [], "", false)
  {
    hide Line, Scan;
    var text := Join(Map(table, Line), [CR, LF]) + [CR, LF];
    assert WithoutBom(Print(table)) == text;
    if table == [] {
      var blank: Row, none: seq<Row> := [], [];
      EmptyLine(blank, none);
      assert text == Line(blank) + [CR, LF] + "";
      ScanRow(blank, "", none);
      ScanNothing(Scanner(none, [], "", false));
    } else {
      ScanTable(table, []);
      assert [] + Kept(table) == Kept(table);
    }
  }

  /**
   * Parsing a printed table gives back its guarded rows with blank rows dropped, for cells with any
   * mix of quotes, separators and line ends, or fails exactly when more than 201 rows remain.
   */
  lemma ParsePrinted(table: seq<Row>)
    ensures Parse(Print(table)) == if |Kept(table)| <= ROW_LIMIT then Success(Kept(table)) else Failure(TooManyRows)
  {
    hide Kept, Scan, Print;
    ScanPrinted(table);
    assert [] + [WithoutTrailingCr("")] == [""];
  }

  /** Whatever is parsed, a result never exceeds the limit and never holds a blank row. */
  lemma {:induction false} ScanKeepsRowsTextual(input: string, s: Scanner)
    requires forall i | 0 <= i < |s.rows| :: SomeText(s.rows[i])
    ensures forall i | 0 <= i < |Scan(input, s).rows| :: SomeText(Scan(input, s).rows[i])
    decreases |input|
  {
    if input != "" {
      var (next, n) := Take(input, s);
      ScanKeepsRowsTextual(input[n..], next);
    }
  }

  lemma ParsedRowsHoldText(data: string)
    requires Parse(data).Success?
    ensures |Parse(data).value| <= ROW_LIMIT
    ensures forall i | 0 <= i < |Parse(data).value| :: SomeText(Parse(data).value[i])
  {
    ScanKeepsRowsTextual(WithoutBom(data), Scanner([], [], "", false));
  }

  // ---------------------------------------------------------------- the whole export and import

  function ImportedRow(row: Row): Row {
    Map(row, ImportedCell)
  }

  predicate LooksGuarded(v: string) {
    v != "" && v[0] == '\'' && FormulaLike(v[1..])
  }

  predicate RowSafe(row: Row) {
    forall i | 0 <= i < |row| :: !LooksGuarded(row[i])
  }

  lemma RowComesBack(row: Row)
    ensures ImportedRow(Map(row, Protect)) == row <==> RowSafe(row)
  {
    forall i | 0 <= i < |row| ensures ImportedRow(Map(row, Protect))[i] == row[i] <==> !LooksGuarded(row[i]) {
      GuardIsUndone(row[i]);
    }
  }

  lemma {:induction false} KeptComesBack(table: seq<Row>)
    ensures Map(Kept(table), ImportedRow) == Filter(table, SomeText)
            <==> forall row | row in table && SomeText(row) :: RowSafe(row)
  {
    if table != [] {
      KeptComesBack(table[1..]);
      RowComesBack(table[0]);
      assert table == [table[0]] + table[1..];
      var kept, filtered := Kept(table[1..]), Filter(table[1..], SomeText);
      if SomeText(table[0]) {
        var row := Map(table[0], Protect);
        MapHead(row, kept, ImportedRow);
        SameHeadSameTail(ImportedRow(row), Map(kept, ImportedRow), table[0], filtered);
      } else {
        assert [] + kept == kept && [] + filtered == filtered;
      }
    }
  }

  /** Exporting and importing a table is the identity on its non-blank rows, unless a cell already looks guarded. */
  lemma ExportImportRoundTrip(table: seq<Row>)
    requires |Kept(table)| <= ROW_LIMIT
    ensures Parse(Print(table)).Success?
    ensures Map(Parse(Print(table)).value, ImportedRow) == Filter(table, SomeText)
            <==> forall row | row in table && SomeText(row) :: RowSafe(row)
  {
    ParsePrinted(table);
    KeptComesBack(table);
  }

  // ---------------------------------------------------------------- checkpoint sets

  datatype NumericCells = NumericCells(correct: string, tolerance: string, unit: string)
  datatype RatingCells = RatingCells(min: string, max: string, minLabel: string, maxLabel: string)

  /** A checkpoint with its values already turned into text. */
  datatype Checkpoint = Checkpoint(
    id: string, linked: Option<string>, kind: string, prompt: string, purpose: string, confidence: string,
    delivery: string,
    concepts: string, choices: Option<string>, numeric: Option<NumericCells>, rating: Option<RatingCells>,
    timeLimit: string, basePoints: string, explanation: string)

  const HEADERS: Row := [
    "source_id", "linked_recheck_source_id", "type", "prompt", "purpose", "confidence", "delivery", "concept_keys_json",
    "choices_json", "correct_value", "tolerance", "unit", "rating_min", "rating_max", "rating_min_label",
    "rating_max_label",
    "time_limit_seconds", "base_points", "explanation"]

  function OrEmpty(v: Option<string>): string {
    if v.Some? then v.value else ""
  }

  function RowOf(c: Checkpoint): Row {
    var numeric := if c.numeric.Some? then c.numeric.value else NumericCells("", "", "");
    var rating := if c.rating.Some? then c.rating.value else RatingCells("", "", "", "");
    [c.id, OrEmpty(c.linked), c.kind, c.prompt, c.purpose, c.confidence, c.delivery, c.concepts, OrEmpty(c.choices),
     numeric.correct, numeric.tolerance, numeric.unit, rating.min, rating.max, rating.minLabel, rating.maxLabel,
     c.timeLimit, c.basePoints, c.explanation]
  }

  function TableOf(checkpoints: seq<Checkpoint>): seq<Row> {
    [HEADERS] + Map(checkpoints, RowOf)
  }

  method CheckpointSetCsv(checkpoints: seq<Checkpoint>) returns (text: string)
    ensures text == Print(TableOf(checkpoints))
  {
    var rows := [HEADERS];
    var n := 0;
    while n < |checkpoints|
      invariant 0 <= n <= |checkpoints|
      invariant rows == TableOf(checkpoints[..n])
    {
      rows := rows + [RowOf(checkpoints[n])];
      n := n + 1;
    }
    assert checkpoints[..n] == checkpoints;
    text := Print(rows);
  }

  lemma {:induction false} NothingDropped(table: seq<Row>)
    requires forall row | row in table :: SomeText(row)
    ensures |Kept(table)| == |table| && forall i | 0 <= i < |table| :: Kept(table)[i] == Map(table[i], Protect)
  {
    if table != [] {
      assert table[0] in table;
      NothingDropped(table[1..]);
    }
  }

  /**
   * An exported checkpoint set parses back to its header and one row per checkpoint, cell by cell,
   * exactly when it has at most 200 checkpoints.
   */
  lemma ExportedSetParses(checkpoints: seq<Checkpoint>)
    requires forall c | c in checkpoints :: c.id != ""
    ensures Parse(Print(TableOf(checkpoints))).Success? <==> |checkpoints| <= 200
    ensures |checkpoints| <= 200 ==>
              Parse(Print(TableOf(checkpoints))).value == Map(TableOf(checkpoints), (row: Row) => Map(row, Protect))
  {
    var table := TableOf(checkpoints);
    forall row | row in table ensures SomeText(row) {
      assert row == HEADERS || exists c :: c in checkpoints && row == RowOf(c);
      assert row[0] != "";
    }
    NothingDropped(table);
    ParsePrinted(table);
  }

  /** What a checkpoint has to say under the name of a column. */
  function FieldNamed(c: Checkpoint, name: string): string {
    if name == "source_id" then c.id
    else if name == "linked_recheck_source_id" then (if c.linked.Some? then c.linked.value else "")
    else if name == "type" then c.kind
    else if name == "prompt" then c.prompt
    else if name == "purpose" then c.purpose
    else if name == "confidence" then c.confidence
    else if name == "delivery" then c.delivery
    else if name == "concept_keys_json" then c.concepts
    else if name == "choices_json" then (if c.choices.Some? then c.choices.value else "")
    else if name == "correct_value" then (if c.numeric.Some? then c.numeric.value.correct else "")
    else if name == "tolerance" then (if c.numeric.Some? then c.numeric.value.tolerance else "")
    else if name == "unit" then (if c.numeric.Some? then c.numeric.value.unit else "")
    else if name == "rating_min" then (if c.rating.Some? then c.rating.value.min else "")
    else if name == "rating_max" then (if c.rating.Some? then c.rating.value.max else "")
    else if name == "rating_min_label" then (if c.rating.Some? then c.rating.value.minLabel else "")
    else if name == "rating_max_label" then (if c.rating.Some? then c.rating.value.maxLabel else "")
    else if name == "time_limit_seconds" then c.timeLimit
    else if name == "base_points" then c.basePoints
    else c.explanation
  }

  /** Every cell of an exported row stands under the header that names it. */
  lemma CellsStandUnderTheirHeaders(c: Checkpoint, i: nat)
    requires i < 19
    ensures |HEADERS| == 19 && |RowOf(c)| == 19 && RowOf(c)[i] == FieldNamed(c, HEADERS[i])
  {
    var header := HEADERS[i];
    if i < 9 {
      assert i == 0 || i == 1 || i == 2 || i == 3 || i == 4 || i == 5 || i == 6 || i == 7 || i == 8;
    }
  }
}
