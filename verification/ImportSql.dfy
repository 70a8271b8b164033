/**
 The SQL an import generates, and a reader for it.

 Column types are inferred from a sample; the rows are printed in batches of INSERT
 statements. Each value is examined again when it is printed, so text past the sample is quoted
 rather than taken for grammar. The reader lexes the text back by the dialect's quoting rule.
 */
module ImportSql {
  import opened Common
  import opened SqlText
  import opened JsText
  import CsvReader

  // ---------------------------------------------------------------- the three shapes of a value

  predicate Digits(s: string) {
    s != "" && forall c <- s :: '0' <= c <= '9'
  }

  function Unsigned(s: string): string {
    if s != "" && s[0] == '-' then s[1..] else s
  }

  /** `-?\d+` */
  predicate IsInteger(s: string) {
    Digits(Unsigned(s))
  }

  /** `-?\d+(\.\d+)?` */
  predicate IsNumeric(s: string) {
    var u := Unsigned(s);
    var i := IndexOf(u, '.');
    Digits(u[..i]) && (i == |u| || Digits(u[i + 1..]))
  }

  /** `true|false|0|1`, in any case. */
  predicate IsBoolean(s: string) {
    Lower(s) in {"true", "false", "0", "1"}
  }

  datatype SqlType = TextType | IntegerType | NumericType | BooleanType

  /** A column no sampled value says anything about is text. */
  function InferSqlType(values: seq<string>): SqlType {
    if forall v <- values :: v == "" then TextType
    else if forall v <- values :: v != "" ==> IsInteger(v) then IntegerType
    else if forall v <- values :: v != "" ==> IsNumeric(v) then NumericType
    else if forall v <- values :: v != "" ==> IsBoolean(v) then BooleanType
    else TextType
  }

  // ---------------------------------------------------------------- printing

  predicate IsNullWord(val: string) {
    val == "" || val == "NULL" || val == "null"
  }

  function EscapeSQL(value: string, escape: LiteralEscape): string {
    if IsNullWord(value) then "NULL" else QuoteLiteral(value, escape)
  }

  function PrintCell(val: string, sqlType: SqlType, escape: LiteralEscape): string {
    if IsNullWord(val) then "NULL"
    else if sqlType == BooleanType && IsBoolean(val) then
      if Lower(val) == "true" || val == "1" then "TRUE" else "FALSE"
    else if sqlType == IntegerType && IsInteger(val) then val
    else if sqlType == NumericType && IsNumeric(val) then val
    else EscapeSQL(val, escape)
  }

  function Join(parts: seq<string>, separator: string): string {
    if parts == [] then ""
    else if |parts| == 1 then parts[0]
    else parts[0] + separator + Join(parts[1..], separator)
  }

  /** A row may be longer than the headers; the cells beyond them have no type. */
  function TypeAt(types: seq<SqlType>, i: nat): SqlType {
    if i < |types| then types[i] else TextType
  }

  function PrintCells(row: seq<string>, types: seq<SqlType>, from: nat, escape: LiteralEscape): seq<string> {
    if row == [] then []
    else [PrintCell(row[0], TypeAt(types, from), escape)] + PrintCells(row[1..], types, from + 1, escape)
  }

  function PrintRows(rows: seq<seq<string>>, types: seq<SqlType>, escape: LiteralEscape): seq<string> {
    if rows == [] then []
    else ["  (" + Join(PrintCells(rows[0], types, 0, escape), ", ") + ")"] + PrintRows(rows[1..], types, escape)
  }

  const BATCH: nat := 100

  function BatchSize(n: nat): nat {
    if n < BATCH then n else BATCH
  }

  function Batches<T>(rows: seq<T>): seq<seq<T>> {
    if rows == [] then [] else [rows[..BatchSize(|rows|)]] + Batches(rows[BatchSize(|rows|)..])
  }

  function PrintInsert(prefix: string, batch: seq<seq<string>>, types: seq<SqlType>, escape: LiteralEscape): string {
    prefix + Join(PrintRows(batch, types, escape), ",\n") + ";"
  }

  function PrintInserts(prefix: string, rows: seq<seq<string>>, types: seq<SqlType>,
          escape: LiteralEscape): seq<string>
  {
    if rows == [] then []
    else
      var size := BatchSize(|rows|);
      [PrintInsert(prefix, rows[..size], types, escape)] + PrintInserts(prefix, rows[size..], types, escape)
  }

  /** An existing object, spelled as the dialect addresses it, or a new table by its name. */
  datatype Target = Existing(identifier: string) | NewTable(name: string)

  function TargetIdentifier(target: Target): string {
    match target
    case Existing(identifier) => identifier
    case NewTable(name) => if name == "" then "imported_data" else name
  }

  /** The sampled cells of a column; a cell a short row lacks reads as "undefined". */
  function Sample(rows: seq<seq<string>>, column: nat): seq<string> {
    if rows == [] then []
    else [if column < |rows[0]| then rows[0][column] else "undefined"] + Sample(rows[1..], column)
  }

  function ColumnTypes(headers: nat, rows: seq<seq<string>>): (types: seq<SqlType>)
    ensures |types| == headers
  {
    var sample := rows[..BatchSize(|rows|)];
    seq(headers, i requires 0 <= i => InferSqlType(Sample(sample, i)))
  }

  function Mapped(headers: seq<string>, mapping: map<string, string>): seq<string> {
    if headers == [] then []
    else
      [if headers[0] in mapping && mapping[headers[0]] != "" then mapping[headers[0]] else headers[0]]
      + Mapped(headers[1..], mapping)
  }

  function TypeName(t: SqlType): string {
    match t
    case TextType => "TEXT"
    case IntegerType => "INTEGER"
    case NumericType => "NUMERIC"
    case BooleanType => "BOOLEAN"
  }

  function ColumnDefs(names: seq<string>, types: seq<SqlType>): seq<string>
    requires |names| <= |types|
  {
    if names == [] then [] else ["  " + names[0] + " " + TypeName(types[0])] + ColumnDefs(names[1..], types[1..])
  }

  lemma MappedLength(headers: seq<string>, mapping: map<string, string>)
    ensures |Mapped(headers, mapping)| == |headers|
  {
  }

  function CreateText(table: string, names: seq<string>, types: seq<SqlType>): string
    requires |names| <= |types|
  {
    "CREATE TABLE " + table + " (\n" + Join(ColumnDefs(names, types), ",\n") + "\n);"
  }

  function InsertPrefix(table: string, names: seq<string>): string {
    "INSERT INTO " + table + " (" + Join(names, ", ") + ")\nVALUES\n"
  }

  /** What the import statement for a new table starts with, or nothing. */
  function Created(data: CsvReader.ParsedData, target: Target, mapping: map<string, string>): Option<string> {
    MappedLength(data.headers, mapping);
    if target.NewTable? then
      Some(CreateText(TargetIdentifier(target), Mapped(data.headers, mapping), ColumnTypes(|data.headers|, data.rows)))
    else None
  }

  method GenerateImportSQL(data: Option<CsvReader.ParsedData>, target: Option<Target>, mapping: map<string, string>,
                           escape: LiteralEscape)
    returns (sql: string)
    ensures data == None || target == None ==> sql == ""
    ensures data.Some? && target.Some? ==> sql == ImportText(data.value, target.value, mapping, escape)
  {
    if data == None { return ""; }
    if target == None { return ""; }
    var rows := data.value.rows;
    var tableName := TargetIdentifier(target.value);
    var mappedHeaders := Mapped(data.value.headers, mapping);
    MappedLength(data.value.headers, mapping);
    var columnTypes := ColumnTypes(|data.value.headers|, rows);
    var statements := [];
    if target.value.NewTable? {
      statements := statements + [CreateText(tableName, mappedHeaders, columnTypes)];
    }
    var inserts := Inserts(InsertPrefix(tableName, mappedHeaders), rows, columnTypes, escape);
    sql := Join(statements + inserts, "\n\n");
  }

  /** The batching loop. */
  method Inserts(prefix: string, rows: seq<seq<string>>, columnTypes: seq<SqlType>, escape: LiteralEscape)
    returns (statements: seq<string>)
    ensures statements == PrintInserts(prefix, rows, columnTypes, escape)
  {
    statements := [];
    var i := 0;
    assert rows[0..] == rows;
    while i < |rows|
      invariant 0 <= i <= |rows|
      invariant PrintInserts(prefix, rows, columnTypes, escape)
             == statements + PrintInserts(prefix, rows[i..], columnTypes, escape)
    {
      var size := BatchSize(|rows| - i);
      InsertsFrom(prefix, rows, i, columnTypes, escape, statements);
      statements := statements + [PrintInsert(prefix, rows[i..i + size], columnTypes, escape)];
      i := i + size;
    }
    assert rows[i..] == [] && statements + [] == statements;
  }

  lemma InsertsFrom(prefix: string, rows: seq<seq<string>>, i: nat, types: seq<SqlType>, escape: LiteralEscape,
                    before: seq<string>)
    requires i < |rows|
    ensures var size := BatchSize(|rows| - i);
            before + PrintInserts(prefix, rows[i..], types, escape)
            == before + [PrintInsert(prefix, rows[i..i + size], types, escape)]
               + PrintInserts(prefix, rows[i + size..], types, escape)
  {
    hide PrintInsert;
    var size := BatchSize(|rows| - i);
    assert rows[i..][..size] == rows[i..i + size] && rows[i..][size..] == rows[i + size..];
  }

  function ImportText(data: CsvReader.ParsedData, target: Target, mapping: map<string, string>,
          escape: LiteralEscape): string
  {
    var create := Created(data, target, mapping);
    var prefix := InsertPrefix(TargetIdentifier(target), Mapped(data.headers, mapping));
    var inserts := PrintInserts(prefix, data.rows, ColumnTypes(|data.headers|, data.rows), escape);
    Join((if create.Some? then [create.value] else []) + inserts, "\n\n")
  }

  // ---------------------------------------------------------------- what a cell means

  datatype Literal =
    NullLiteral | BooleanLiteral(truth: bool) | NumberLiteral(digits: string) | TextLiteral(text: string)

  /** What the cell `val` of a column of type `sqlType` is to be in the table. */
  function Meaning(val: string, sqlType: SqlType): Literal {
    if IsNullWord(val) then NullLiteral
    else if sqlType == BooleanType && IsBoolean(val) then BooleanLiteral(Lower(val) == "true" || val == "1")
    else if (sqlType == IntegerType && IsInteger(val)) || (sqlType == NumericType && IsNumeric(val)) then
      NumberLiteral(val)
    else TextLiteral(val)
  }

  /** The cell a literal stands for: none for NULL, canonical for a boolean. */
  function CellOf(literal: Literal): Option<string> {
    match literal
    case NullLiteral => None
    case BooleanLiteral(truth) => Some(if truth then "true" else "false")
    case NumberLiteral(digits) => Some(digits)
    case TextLiteral(text) => Some(text)
  }

  /** Nothing of a cell is lost but the spelling of an absent value and of a boolean. */
  lemma MeaningKeepsTheCell(val: string, sqlType: SqlType)
    ensures CellOf(Meaning(val, sqlType)) == None <==> val == "" || val == "NULL" || val == "null"
    ensures Meaning(val, sqlType).NumberLiteral? <==>
              || (sqlType == IntegerType && IsInteger(val) && !IsNullWord(val))
              || (sqlType == NumericType && IsNumeric(val) && !IsNullWord(val))
    ensures Meaning(val, sqlType).BooleanLiteral? <==>
              sqlType == BooleanType && Lower(val) in {"true", "false", "0", "1"} && !IsNullWord(val)
    ensures !IsNullWord(val) ==>
              || CellOf(Meaning(val, sqlType)) == Some(val)
              || (&& sqlType == BooleanType && Lower(val) in {"true", "false", "0", "1"}
                  && CellOf(Meaning(val, sqlType)) == Some(if Lower(val) in {"true", "1"} then "true" else "false"))
  {
    if val != "" && Lower(val) == "1" {
      assert Lower(val) == [Lower(val)[0]] + Lower(val[1..]);
      assert |Lower(val)| == 1;
      assert val[0] == '1';
      assert val == "1";
    }
  }

  // ---------------------------------------------------------------- reading

  datatype Parsed<T> = Parsed(value: T, rest: string)

  predicate Starts(text: string, prefix: string) {
    |prefix| <= |text| && text[..|prefix|] == prefix
  }

  /** The text up to the next comma or closing parenthesis. */
  function Bare(text: string): (word: string)
    ensures |word| <= |text| && text[..|word|] == word
  {
    if text == "" || text[0] == ',' || text[0] == ')' then "" else [text[0]] + Bare(text[1..])
  }

  function ReadWord(word: string): Option<Literal> {
    if word == "NULL" then Some(NullLiteral)
    else if word == "TRUE" then Some(BooleanLiteral(true))
    else if word == "FALSE" then Some(BooleanLiteral(false))
    else if IsNumeric(word) then Some(NumberLiteral(word))
    else None
  }

  function ReadCell(text: string, escape: LiteralEscape): (r: Option<Parsed<Literal>>)
    ensures r.Some? ==> |r.value.rest| < |text|
  {
    if text == "" then None
    else if text[0] == '\'' then
      ReadLiteralShortens(text[1..], escape);
      var literal := ReadLiteral(text[1..], escape);
      if literal.None? then None else Some(Parsed(TextLiteral(literal.value.value), literal.value.rest))
    else
      var word := Bare(text);
      var literal := ReadWord(word);
      if literal.None? || word == "" then None else Some(Parsed(literal.value, text[|word|..]))
  }

  lemma ReadLiteralShortens(text: string, escape: LiteralEscape)
    ensures ReadLiteral(text, escape).Some? ==> |ReadLiteral(text, escape).value.rest| <= |text|
  {
  }

  /** The cells of a row, up to and with its closing parenthesis. */
  function ReadCells(text: string, escape: LiteralEscape): (r: Option<Parsed<seq<Literal>>>)
    ensures r.Some? ==> |r.value.rest| < |text|
    decreases |text|
  {
    var cell := ReadCell(text, escape);
    if cell.None? then None
    else if Starts(cell.value.rest, ")") then Some(Parsed([cell.value.value], cell.value.rest[1..]))
    else if Starts(cell.value.rest, ", ") then
      var more := ReadCells(cell.value.rest[2..], escape);
      if more.None? then None else Some(Parsed([cell.value.value] + more.value.value, more.value.rest))
    else None
  }

  function ReadRow(text: string, escape: LiteralEscape): (r: Option<Parsed<seq<Literal>>>)
    ensures r.Some? ==> |r.value.rest| < |text|
  {
    if !Starts(text, "  (") then None
    else if Starts(text[3..], ")") then Some(Parsed([], text[4..]))
    else ReadCells(text[3..], escape)
  }

  /** The rows of a statement, up to and with its semicolon. */
  function ReadRows(text: string, escape: LiteralEscape): (r: Option<Parsed<seq<seq<Literal>>>>)
    ensures r.Some? ==> |r.value.rest| < |text|
    decreases |text|
  {
    var row := ReadRow(text, escape);
    if row.None? then None
    else if Starts(row.value.rest, ";") then Some(Parsed([row.value.value], row.value.rest[1..]))
    else if Starts(row.value.rest, ",\n") then
      var more := ReadRows(row.value.rest[2..], escape);
      if more.None? then None else Some(Parsed([row.value.value] + more.value.value, more.value.rest))
    else None
  }

  /** A list of INSERT statements of one heading, a blank line between them. */
  function ReadInserts(text: string, prefix: string, escape: LiteralEscape): Option<seq<seq<seq<Literal>>>>
    decreases |text|
  {
    if !Starts(text, prefix) then None
    else
      var rows := ReadRows(text[|prefix|..], escape);
      if rows.None? then None
      else if rows.value.rest == "" then Some([rows.value.value])
      else if Starts(rows.value.rest, "\n\n") then
        var more := ReadInserts(rows.value.rest[2..], prefix, escape);
        if more.None? then None else Some([rows.value.value] + more.value)
      else None
  }

  function ReadImport(text: string, create: Option<string>, prefix: string, escape: LiteralEscape):
    Option<seq<seq<seq<Literal>>>>
  {
    var body :=
      if create.None? || !Starts(text, create.value) then text
      else if text == create.value then ""
      else text[|create.value|..];
    if body == "" then Some([])
    else if create.None? then ReadInserts(body, prefix, escape)
    else if Starts(body, "\n\n") then ReadInserts(body[2..], prefix, escape)
    else None
  }

  // ---------------------------------------------------------------- reading what was printed

  lemma BareStops(word: string, rest: string)
    requires (forall i :: 0 <= i < |word| ==> word[i] != ',' && word[i] != ')')
    requires rest != "" && (rest[0] == ',' || rest[0] == ')')
    ensures Bare(word + rest) == word
  {
    if word == "" {
      assert word + rest == rest;
    } else {
      BareStops(word[1..], rest);
      assert word == [word[0]] + word[1..];
      assert word + rest == [word[0]] + (word[1..] + rest);
    }
  }

  lemma NumericChars(s: string)
    requires IsNumeric(s)
    ensures s != "" && forall c <- s :: c == '-' || c == '.' || '0' <= c <= '9'
  {
    var u := Unsigned(s);
    var i := IndexOf(u, '.');
    forall k | 0 <= k < |u| ensures u[k] == '.' || '0' <= u[k] <= '9' {
      if k < i {
        assert u[..i][k] in u[..i];
      } else if k > i {
        assert u[i + 1..][k - i - 1] in u[i + 1..];
      }
    }
    forall k | 0 <= k < |s| ensures s[k] == '-' || s[k] == '.' || '0' <= s[k] <= '9' {
      if s != u && k > 0 {
        assert s[k] == u[k - 1];
      }
    }
  }

  lemma IntegerIsNumeric(s: string)
    requires IsInteger(s)
    ensures IsNumeric(s)
  {
    var u := Unsigned(s);
    var i := IndexOf(u, '.');
    assert forall k :: 0 <= k < |u| ==> u[k] in u;
    assert u[..|u|] == u;
  }

  /** Each printed cell reads back as what it means, and no further. */
  lemma CellReadsBack(val: string, sqlType: SqlType, escape: LiteralEscape, rest: string)
    requires rest != "" && (rest[0] == ',' || rest[0] == ')')
    ensures ReadCell(PrintCell(val, sqlType, escape) + rest, escape) == Some(Parsed(Meaning(val, sqlType), rest))
  {
    match Meaning(val, sqlType)
    case TextLiteral(_) => TextReadsBack(val, escape, rest);
    case NumberLiteral(_) => NumberReadsBack(val, sqlType, escape, rest);
    case meaning => WordReadsBack(PrintCell(val, sqlType, escape), meaning, escape, rest);
  }

  lemma TextReadsBack(val: string, escape: LiteralEscape, rest: string)
    requires rest != "" && (rest[0] == ',' || rest[0] == ')')
    ensures ReadCell(QuoteLiteral(val, escape) + rest, escape) == Some(Parsed(TextLiteral(val), rest))
  {
    LiteralReadsBack(val, escape, rest);
    hide *;
    QuotedText(val, escape, rest);
  }

  lemma QuotedText(val: string, escape: LiteralEscape, rest: string)
    ensures QuoteLiteral(val, escape) + rest == "'" + (Escaped(val, escape) + "'" + rest)
  {
    hide Escaped;
  }

  lemma NumberReadsBack(val: string, sqlType: SqlType, escape: LiteralEscape, rest: string)
    requires rest != "" && (rest[0] == ',' || rest[0] == ')')
    requires Meaning(val, sqlType) == NumberLiteral(val)
    ensures ReadCell(PrintCell(val, sqlType, escape) + rest, escape) == Some(Parsed(NumberLiteral(val), rest))
  {
    if IsInteger(val) { IntegerIsNumeric(val); }
    NumericChars(val);
    assert val[0] in val;
    assert val != "TRUE" && val != "FALSE" by {
      assert 'T' in "TRUE" && 'F' in "FALSE";
    }
    WordReadsBack(val, NumberLiteral(val), escape, rest);
  }

  lemma WordReadsBack(word: string, meaning: Literal, escape: LiteralEscape, rest: string)
    requires rest != "" && (rest[0] == ',' || rest[0] == ')')
    requires word != "" && word[0] != '\'' && ',' !in word && ')' !in word
    requires ReadWord(word) == Some(meaning)
    ensures ReadCell(word + rest, escape) == Some(Parsed(meaning, rest))
  {
    BareStops(word, rest);
    assert (word + rest)[0] == word[0] && (word + rest)[|word|..] == rest;
  }

  function Meanings(row: seq<string>, types: seq<SqlType>, from: nat): seq<Literal> {
    if row == [] then [] else [Meaning(row[0], TypeAt(types, from))] + Meanings(row[1..], types, from + 1)
  }

  /** The matrix an import is to put into the table. */
  function Matrix(rows: seq<seq<string>>, types: seq<SqlType>): seq<seq<Literal>> {
    if rows == [] then [] else [Meanings(rows[0], types, 0)] + Matrix(rows[1..], types)
  }

  /** A joined list, taken apart at its first separator. */
  lemma JoinStep(parts: seq<string>, separator: string, end: string)
    requires parts != []
    ensures |parts| == 1 ==> Join(parts, separator) + end == parts[0] + end
    ensures |parts| > 1 ==>
              Join(parts, separator) + end == parts[0] + (separator + (Join(parts[1..], separator) + end))
  {
  }

  lemma OneMoreCell(text: string, escape: LiteralEscape, cell: Literal, tail: string, cells: seq<Literal>, rest: string)
    requires ReadCell(text, escape) == Some(Parsed(cell, ", " + tail))
    requires ReadCells(tail, escape) == Some(Parsed(cells, rest))
    ensures ReadCells(text, escape) == Some(Parsed([cell] + cells, rest))
  {
    hide ReadCell;
    assert (", " + tail)[0] == ',';
    assert (", " + tail)[..1] != ")";
  }

  lemma {:induction false} CellsReadBack(row: seq<string>, types: seq<SqlType>, from: nat, escape: LiteralEscape,
          rest: string)
    requires row != []
    ensures ReadCells(Join(PrintCells(row, types, from, escape), ", ") + (")" + rest), escape)
         == Some(Parsed(Meanings(row, types, from), rest))
    decreases |row|
  {
    var cells := PrintCells(row, types, from, escape);
    var later := PrintCells(row[1..], types, from + 1, escape);
    assert cells == [PrintCell(row[0], TypeAt(types, from), escape)] + later && cells[1..] == later;
    var text := Join(cells, ", ") + (")" + rest);
    JoinStep(cells, ", ", ")" + rest);
    if |row| == 1 {
      CellReadsBack(row[0], TypeAt(types, from), escape, ")" + rest);
      assert Meanings(row[1..], types, from + 1) == [];
      assert Meanings(row, types, from) == [Meaning(row[0], TypeAt(types, from))];
    } else {
      var tail := Join(later, ", ") + (")" + rest);
      CellReadsBack(row[0], TypeAt(types, from), escape, ", " + tail);
      CellsReadBack(row[1..], types, from + 1, escape, rest);
      OneMoreCell(text, escape, Meaning(row[0], TypeAt(types, from)), tail, Meanings(row[1..], types, from + 1), rest);
    }
  }

  lemma PrintedCellIsNotClosed(val: string, sqlType: SqlType, escape: LiteralEscape)
    ensures PrintCell(val, sqlType, escape) != "" && PrintCell(val, sqlType, escape)[0] != ')'
  {
    if Meaning(val, sqlType).NumberLiteral? {
      if sqlType == IntegerType { IntegerIsNumeric(val); }
      NumericChars(val);
      assert val[0] in val;
    }
  }

  function RowText(row: seq<string>, types: seq<SqlType>, escape: LiteralEscape): string {
    "  (" + Join(PrintCells(row, types, 0, escape), ", ") + ")"
  }

  lemma RowReadsBack(row: seq<string>, types: seq<SqlType>, escape: LiteralEscape, rest: string)
    ensures ReadRow(RowText(row, types, escape) + rest, escape) == Some(Parsed(Meanings(row, types, 0), rest))
  {
    var cells := Join(PrintCells(row, types, 0, escape), ", ");
    var tail := cells + (")" + rest);
    assert RowText(row, types, escape) + rest == "  (" + tail;
    if row == [] {
      assert tail == ")" + rest;
      assert ("  (" + tail)[4..] == tail[1..];
    } else {
      PrintedCellIsNotClosed(row[0], TypeAt(types, 0), escape);
      JoinStep(PrintCells(row, types, 0, escape), ", ", ")" + rest);
      assert tail[0] == PrintCell(row[0], TypeAt(types, 0), escape)[0] != ')';
      assert !Starts(tail, ")");
      CellsReadBack(row, types, 0, escape, rest);
    }
  }

  lemma OneMoreRow(text: string, escape: LiteralEscape, row: seq<Literal>, tail: string, rows: seq<seq<Literal>>,
          rest: string)
    requires ReadRow(text, escape) == Some(Parsed(row, ",\n" + tail))
    requires ReadRows(tail, escape) == Some(Parsed(rows, rest))
    ensures ReadRows(text, escape) == Some(Parsed([row] + rows, rest))
  {
    hide ReadRow;
    assert (",\n" + tail)[..1] != ";" by { assert (",\n" + tail)[0] == ','; }
  }

  lemma {:induction false} RowsReadBack(rows: seq<seq<string>>, types: seq<SqlType>, escape: LiteralEscape,
          rest: string)
    requires rows != []
    ensures ReadRows(Join(PrintRows(rows, types, escape), ",\n") + (";" + rest), escape)
         == Some(Parsed(Matrix(rows, types), rest))
    decreases |rows|
  {
    var printed := PrintRows(rows, types, escape);
    var later := PrintRows(rows[1..], types, escape);
    assert printed == [RowText(rows[0], types, escape)] + later && printed[1..] == later;
    var text := Join(printed, ",\n") + (";" + rest);
    JoinStep(printed, ",\n", ";" + rest);
    if |rows| == 1 {
      RowReadsBack(rows[0], types, escape, ";" + rest);
      assert Matrix(rows[1..], types) == [];
      assert Matrix(rows, types) == [Meanings(rows[0], types, 0)];
    } else {
      var tail := Join(later, ",\n") + (";" + rest);
      RowReadsBack(rows[0], types, escape, ",\n" + tail);
      RowsReadBack(rows[1..], types, escape, rest);
      OneMoreRow(text, escape, Meanings(rows[0], types, 0), tail, Matrix(rows[1..], types), rest);
    }
  }

  function BatchedMatrix(rows: seq<seq<string>>, types: seq<SqlType>): seq<seq<seq<Literal>>> {
    if rows == [] then []
    else
      var size := BatchSize(|rows|);
      [Matrix(rows[..size], types)] + BatchedMatrix(rows[size..], types)
  }

  lemma InsertReadsBack(prefix: string, batch: seq<seq<string>>, types: seq<SqlType>, escape: LiteralEscape,
          rest: string)
    requires batch != []
    ensures var text := PrintInsert(prefix, batch, types, escape) + rest;
            Starts(text, prefix)
            && ReadRows(text[|prefix|..], escape) == Some(Parsed(Matrix(batch, types), rest))
  {
    var body := Join(PrintRows(batch, types, escape), ",\n");
    RowsReadBack(batch, types, escape, rest);
    FourParts(prefix, body, ";", rest);
  }

  lemma OneMoreInsert(text: string, prefix: string, escape: LiteralEscape, rows: seq<seq<Literal>>, tail: string,
                      more: seq<seq<seq<Literal>>>)
    requires Starts(text, prefix) && ReadRows(text[|prefix|..], escape) == Some(Parsed(rows, "\n\n" + tail))
    requires ReadInserts(tail, prefix, escape) == Some(more)
    ensures ReadInserts(text, prefix, escape) == Some([rows] + more)
  {
  }

  lemma {:induction false} InsertsReadBack(prefix: string, rows: seq<seq<string>>, types: seq<SqlType>,
          escape: LiteralEscape)
    requires rows != []
    ensures ReadInserts(Join(PrintInserts(prefix, rows, types, escape), "\n\n"), prefix, escape)
         == Some(BatchedMatrix(rows, types))
    ensures Starts(Join(PrintInserts(prefix, rows, types, escape), "\n\n"), prefix)
    decreases |rows|
  {
    var size := BatchSize(|rows|);
    var batch, others := rows[..size], rows[size..];
    var printed := PrintInserts(prefix, rows, types, escape);
    var later := PrintInserts(prefix, others, types, escape);
    assert printed == [PrintInsert(prefix, batch, types, escape)] + later && printed[1..] == later;
    var text := Join(printed, "\n\n");
    JoinStep(printed, "\n\n", "");
    assert text + "" == text && Join(later, "\n\n") + "" == Join(later, "\n\n");
    if others == [] {
      InsertReadsBack(prefix, batch, types, escape, "");
      assert BatchedMatrix(others, types) == [];
      assert BatchedMatrix(rows, types) == [Matrix(batch, types)];
    } else {
      var tail := Join(later, "\n\n");
      InsertReadsBack(prefix, batch, types, escape, "\n\n" + tail);
      InsertsReadBack(prefix, others, types, escape);
      OneMoreInsert(text, prefix, escape, Matrix(batch, types), tail, BatchedMatrix(others, types));
    }
  }

  /**
   Main result. In every dialect, whatever the rows hold and however long they are, the text
   an import generates reads back as exactly the matrix of the meanings of the cells, in order
   and in the batches they were printed in.
   */
  lemma ImportReadsBack(data: CsvReader.ParsedData, target: Target, mapping: map<string, string>, escape: LiteralEscape)
    ensures var types := ColumnTypes(|data.headers|, data.rows);
            var prefix := InsertPrefix(TargetIdentifier(target), Mapped(data.headers, mapping));
            ReadImport(ImportText(data, target, mapping, escape), Created(data, target, mapping), prefix, escape)
            == Some(Batches(Matrix(data.rows, types)))
  {
    var types := ColumnTypes(|data.headers|, data.rows);
    var prefix := InsertPrefix(TargetIdentifier(target), Mapped(data.headers, mapping));
    hide *;
    BatchesOfMatrix(data.rows, types);
    ScriptReadsBack(Created(data, target, mapping), prefix, data.rows, types, escape);
  }

  /** The statements with a blank line between each two, the first perhaps a CREATE TABLE. */
  function Script(create: Option<string>, inserts: seq<string>): string {
    Join((if create.Some? then [create.value] else []) + inserts, "\n\n")
  }

  lemma AfterCreate(create: string, inserts: seq<string>)
    requires inserts != []
    ensures Script(Some(create), inserts) == create + ("\n\n" + Join(inserts, "\n\n"))
  {
    JoinHead(create, inserts, "\n\n");
    hide Join;
    assert create + "\n\n" + Join(inserts, "\n\n") == create + ("\n\n" + Join(inserts, "\n\n"));
  }

  lemma JoinHead(first: string, parts: seq<string>, separator: string)
    requires parts != []
    ensures Join([first] + parts, separator) == first + separator + Join(parts, separator)
  {
    assert ([first] + parts)[1..] == parts;
  }

  lemma ReadsNoInserts(create: Option<string>, prefix: string, escape: LiteralEscape)
    ensures ReadImport(Script(create, []), create, prefix, escape) == Some([])
  {
    hide ReadInserts;
    if create.Some? {
      assert [create.value] + [] == [create.value];
    }
  }

  lemma ReadsPastCreate(create: string, body: string, prefix: string, escape: LiteralEscape)
    ensures ReadImport(create + ("\n\n" + body), Some(create), prefix, escape) == ReadInserts(body, prefix, escape)
  {
    hide ReadInserts;
    var text := create + ("\n\n" + body);
    assert text[..|create|] == create && text[|create|..] == "\n\n" + body;
    assert ("\n\n" + body)[..2] == "\n\n" && ("\n\n" + body)[2..] == body;
  }

  lemma ReadsAlone(body: string, prefix: string, escape: LiteralEscape)
    requires body != ""
    ensures ReadImport(body, None, prefix, escape) == ReadInserts(body, prefix, escape)
  {
    hide ReadInserts;
  }

  lemma NoInserts(prefix: string, types: seq<SqlType>, escape: LiteralEscape)
    ensures PrintInserts(prefix, [], types, escape) == [] && BatchedMatrix([], types) == []
  {
  }

  lemma SomeInserts(prefix: string, rows: seq<seq<string>>, types: seq<SqlType>, escape: LiteralEscape)
    requires rows != []
    ensures PrintInserts(prefix, rows, types, escape) != []
    ensures Join(PrintInserts(prefix, rows, types, escape), "\n\n") != ""
  {
    var inserts := PrintInserts(prefix, rows, types, escape);
    assert inserts[0] != "" by {
      assert inserts[0][|inserts[0]| - 1] == ';';
    }
  }

  lemma ScriptReadsBack(create: Option<string>, prefix: string, rows: seq<seq<string>>, types: seq<SqlType>,
          escape: LiteralEscape)
    ensures ReadImport(Script(create, PrintInserts(prefix, rows, types, escape)), create, prefix, escape)
            == Some(BatchedMatrix(rows, types))
  {
    hide *;
    if rows == [] {
      NoInserts(prefix, types, escape);
      ReadsNoInserts(create, prefix, escape);
    } else {
      var inserts := PrintInserts(prefix, rows, types, escape);
      InsertsReadBack(prefix, rows, types, escape);
      SomeInserts(prefix, rows, types, escape);
      if create.Some? {
        AfterCreate(create.value, inserts);
        ReadsPastCreate(create.value, Join(inserts, "\n\n"), prefix, escape);
      } else {
        ScriptAlone(inserts);
        ReadsAlone(Join(inserts, "\n\n"), prefix, escape);
      }
    }
  }

  lemma ScriptAlone(inserts: seq<string>)
    ensures Script(None, inserts) == Join(inserts, "\n\n")
  {
    assert [] + inserts == inserts;
  }

  lemma MatrixOver(a: seq<seq<string>>, b: seq<seq<string>>, types: seq<SqlType>)
    ensures Matrix(a + b, types) == Matrix(a, types) + Matrix(b, types) && |Matrix(a, types)| == |a|
  {
    if a == [] {
      assert a + b == b;
    } else {
      assert (a + b)[1..] == a[1..] + b;
      MatrixOver(a[1..], b, types);
    }
  }

  lemma {:induction false} BatchesOfMatrix(rows: seq<seq<string>>, types: seq<SqlType>)
    ensures BatchedMatrix(rows, types) == Batches(Matrix(rows, types))
    decreases |rows|
  {
    if rows != [] {
      var size := BatchSize(|rows|);
      assert rows == rows[..size] + rows[size..];
      MatrixOver(rows[..size], rows[size..], types);
      MatrixOver(rows, [], types);
      var m := Matrix(rows, types);
      assert rows + [] == rows;
      assert m[..size] == Matrix(rows[..size], types) && m[size..] == Matrix(rows[size..], types);
      BatchesOfMatrix(rows[size..], types);
    }
  }

  function Concat<T>(batches: seq<seq<T>>): seq<T> {
    if batches == [] then [] else batches[0] + Concat(batches[1..])
  }

  /** The batches are the rows in order, a hundred in each but the last, none of them empty. */
  lemma {:induction false} BatchesAre<T>(rows: seq<T>)
    ensures Concat(Batches(rows)) == rows
    ensures |Batches(rows)| == (|rows| + 99) / 100
    ensures forall i :: 0 <= i < |Batches(rows)| ==>
              && 0 < |Batches(rows)[i]| <= 100
              && (i + 1 < |Batches(rows)| ==> |Batches(rows)[i]| == 100)
    decreases |rows|
  {
    if rows != [] {
      var size := BatchSize(|rows|);
      BatchesAre(rows[size..]);
      var batches := Batches(rows);
      assert batches[1..] == Batches(rows[size..]);
      assert rows == rows[..size] + rows[size..];
    }
  }

  // ---------------------------------------------------------------- where the rows go

  /** How the target is spelled in a statement. */
  predicate SpelledAs(target: Target, table: string) {
    || target == Existing(table)
    || (target == NewTable(table) && table != "")
    || (target == NewTable("") && table == "imported_data")
  }

  /** The column each header goes to: the one it is mapped to, if any, or its own name. */
  ghost predicate GoTo(headers: seq<string>, mapping: map<string, string>, names: seq<string>) {
    && |names| == |headers|
    && forall i :: 0 <= i < |headers| ==>
         var mapped := headers[i] in mapping && mapping[headers[i]] != "";
         names[i] == if mapped then mapping[headers[i]] else headers[i]
  }

  /** Each definition names its column and its type. */
  ghost predicate Define(definitions: seq<string>, names: seq<string>, types: seq<SqlType>) {
    && |definitions| == |names| <= |types|
    && forall i :: 0 <= i < |names| ==>
         definitions[i] == "  " + names[i] + " " + (if types[i] == IntegerType then "INTEGER"
                                                    else if types[i] == NumericType then "NUMERIC"
                                                    else if types[i] == BooleanType then "BOOLEAN" else "TEXT")
  }

  lemma SpelledAsIs(target: Target, table: string)
    requires SpelledAs(target, table)
    ensures TargetIdentifier(target) == table
  {
  }

  lemma {:induction false} MappedIs(headers: seq<string>, mapping: map<string, string>, names: seq<string>)
    requires GoTo(headers, mapping, names)
    ensures Mapped(headers, mapping) == names
    decreases |headers|
  {
    if headers != [] {
      MappedIs(headers[1..], mapping, names[1..]);
      assert names == [names[0]] + names[1..];
    }
  }

  lemma {:induction false} DefinedIs(definitions: seq<string>, names: seq<string>, types: seq<SqlType>)
    requires Define(definitions, names, types)
    ensures ColumnDefs(names, types) == definitions
    decreases |names|
  {
    if names != [] {
      forall i | 0 <= i < |names| - 1
        ensures definitions[1..][i] == definitions[i + 1] && names[1..][i] == names[i + 1]
                && types[1..][i] == types[i + 1]
      {
      }
      DefinedIs(definitions[1..], names[1..], types[1..]);
      assert definitions == [definitions[0]] + definitions[1..];
    } else {
      assert definitions == [];
    }
  }

  lemma CreatedIs(data: CsvReader.ParsedData, target: Target, mapping: map<string, string>, table: string,
          names: seq<string>, definitions: seq<string>)
    requires SpelledAs(target, table) && GoTo(data.headers, mapping, names)
    requires Define(definitions, names, ColumnTypes(|data.headers|, data.rows))
    ensures Created(data, target, mapping)
            == if target.NewTable? then
                 Some("CREATE TABLE " + table + " (\n" + Join(definitions, ",\n") + "\n);")
               else None
  {
    hide ColumnTypes;
    hide Join;
    SpelledAsIs(target, table);
    MappedIs(data.headers, mapping, names);
    DefinedIs(definitions, names, ColumnTypes(|data.headers|, data.rows));
  }

  /**
   Main result about the target, in terms of the import's inputs alone. The text starts with the
   definition of the new table, if it is one, and every other statement inserts into the
   object chosen, or the table named, under the columns the headers go to; what they insert are
   the meanings of the cells.
   */
  lemma ImportGoesToItsTarget(data: CsvReader.ParsedData, target: Target, mapping: map<string, string>,
          escape: LiteralEscape, table: string, names: seq<string>, definitions: seq<string>)
    requires SpelledAs(target, table) && GoTo(data.headers, mapping, names)
    requires Define(definitions, names, ColumnTypes(|data.headers|, data.rows))
    ensures var create := if !target.NewTable? then None
                          else Some("CREATE TABLE " + table + " (\n" + Join(definitions, ",\n") + "\n);");
            var heading := "INSERT INTO " + table + " (" + Join(names, ", ") + ")\nVALUES\n";
            var text := ImportText(data, target, mapping, escape);
            && (create.Some? ==> Starts(text, create.value))
            && (create.None? && data.rows != [] ==> Starts(text, heading))
            && (create.None? && data.rows == [] ==> text == "")
            && ReadImport(text, create, heading, escape)
               == Some(Batches(Matrix(data.rows, ColumnTypes(|data.headers|, data.rows))))
  {
    var types := ColumnTypes(|data.headers|, data.rows);
    var heading := "INSERT INTO " + table + " (" + Join(names, ", ") + ")\nVALUES\n";
    hide *;
    SpelledAsIs(target, table);
    MappedIs(data.headers, mapping, names);
    CreatedIs(data, target, mapping, table, names, definitions);
    PrefixIs(table, names);
    ImportReadsBack(data, target, mapping, escape);
    ImportIsScript(data, target, mapping, escape);
    ScriptStarts(Created(data, target, mapping), heading, data.rows, types, escape);
  }

  lemma PrefixIs(table: string, names: seq<string>)
    ensures InsertPrefix(table, names) == "INSERT INTO " + table + " (" + Join(names, ", ") + ")\nVALUES\n"
  {
  }

  lemma ImportIsScript(data: CsvReader.ParsedData, target: Target, mapping: map<string, string>, escape: LiteralEscape)
    ensures var prefix := InsertPrefix(TargetIdentifier(target), Mapped(data.headers, mapping));
            var types := ColumnTypes(|data.headers|, data.rows);
            ImportText(data, target, mapping, escape)
            == Script(Created(data, target, mapping), PrintInserts(prefix, data.rows, types, escape))
  {
  }

  lemma ScriptStarts(create: Option<string>, prefix: string, rows: seq<seq<string>>, types: seq<SqlType>,
          escape: LiteralEscape)
    ensures var text := Script(create, PrintInserts(prefix, rows, types, escape));
            && (create.Some? ==> Starts(text, create.value))
            && (create.None? && rows != [] ==> Starts(text, prefix))
            && (create.None? && rows == [] ==> text == "")
  {
    var inserts := PrintInserts(prefix, rows, types, escape);
    if rows == [] {
      assert inserts == [];
      if create.Some? {
        assert [create.value] + [] == [create.value];
      }
    } else {
      InsertsReadBack(prefix, rows, types, escape);
      hide PrintInserts;
      if create.Some? {
        AfterCreate(create.value, inserts);
      } else {
        assert [] + inserts == inserts;
      }
    }
  }

  // ---------------------------------------------------------------- the column list

  /** The names in a list with a comma and a blank between each two. */
  function Names(text: string): seq<string>
    decreases |text|
  {
    var i := CommaAt(text);
    if i == |text| then [text] else [text[..i]] + Names(text[i + 2..])
  }

  /** Where the first comma and blank are, or the length. */
  function CommaAt(text: string): (i: nat)
    ensures i == |text| || i + 2 <= |text|
    ensures i < |text| ==> text[i] == ',' && text[i + 1] == ' '
    ensures forall k :: 0 <= k < i && k + 1 < |text| ==> !(text[k] == ',' && text[k + 1] == ' ')
  {
    if |text| < 2 then |text|
    else if text[0] == ',' && text[1] == ' ' then 0
    else 1 + CommaAt(text[1..])
  }

  predicate HoldsComma(name: string) {
    CommaAt(name) < |name|
  }

  lemma CommaOver(name: string, rest: string)
    ensures CommaAt(name + ", " + rest) == CommaAt(name)
  {
    var text := name + ", " + rest;
    if name == "" {
      assert text[0] == ',' && text[1] == ' ';
    } else {
      assert text[0] == name[0] && text[1..] == name[1..] + ", " + rest;
      assert text[1] == if |name| > 1 then name[1] else ',';
      CommaOver(name[1..], rest);
    }
  }

  lemma NamesStep(text: string)
    ensures var i := CommaAt(text);
            Names(text) == if i == |text| then [text] else [text[..i]] + Names(text[i + 2..])
  {
  }

  lemma {:induction false} NamesOver(name: string, rest: string)
    ensures Names(name + ", " + rest) == Names(name) + Names(rest)
    decreases |name|
  {
    hide Names;
    hide CommaAt;
    var text, i := name + ", " + rest, CommaAt(name);
    CommaOver(name, rest);
    NamesStep(text);
    NamesStep(name);
    if i < |name| {
      var later := name[i + 2..];
      assert text[..i] == name[..i] && text[i + 2..] == later + ", " + rest;
      NamesOver(later, rest);
    } else {
      assert text[..i] == name && text[i + 2..] == rest;
    }
  }

  lemma NamesOfOne(name: string)
    ensures |Names(name)| >= 1 && (|Names(name)| == 1 <==> !HoldsComma(name))
            && (!HoldsComma(name) ==> Names(name) == [name])
  {
    var i := CommaAt(name);
    if i < |name| {
      NamesOfOne(name[i + 2..]);
    }
  }

  lemma {:induction false} NamesOfList(names: seq<string>)
    requires names != []
    ensures |Names(Join(names, ", "))| >= |names|
    ensures |Names(Join(names, ", "))| == |names| <==> forall name <- names :: !HoldsComma(name)
    ensures (forall name <- names :: !HoldsComma(name)) ==> Names(Join(names, ", ")) == names
    decreases |names|
  {
    hide Names;
    hide HoldsComma;
    NamesOfOne(names[0]);
    if |names| == 1 {
      assert forall name <- names :: name == names[0];
    } else {
      var rest := names[1..];
      NamesOver(names[0], Join(rest, ", "));
      NamesOfList(rest);
      assert forall name <- rest :: name in names;
      assert forall name <- names :: name == names[0] || name in rest;
      assert names == [names[0]] + rest;
    }
  }

  /**
   Column names go into the list as they are. So read back, the list of at least one column
   names the same columns if and only if none holds a comma and a blank; otherwise it always
   names more.
   */
  lemma ColumnsReadBackIff(names: seq<string>)
    requires names != []
    ensures Names(Join(names, ", ")) == names <==> forall name <- names :: !HoldsComma(name)
    ensures Names(Join(names, ", ")) != names ==> |Names(Join(names, ", "))| > |names|
  {
    NamesOfList(names);
  }

  // ---------------------------------------------------------------- the types of the columns

  /** What a sampled cell of row `k` reads as. */
  function Sampled(rows: seq<seq<string>>, k: nat, column: nat): string
    requires k < |rows|
  {
    if column < |rows[k]| then rows[k][column] else "undefined"
  }

  /** Each type a cell can be written in without quotes, and text, which takes any. */
  predicate HasType(cell: string, t: SqlType) {
    match t
    case IntegerType => IsInteger(cell)
    case NumericType => IsNumeric(cell)
    case BooleanType => IsBoolean(cell)
    case TextType => true
  }

  function Width(t: SqlType): nat {
    match t
    case IntegerType => 0
    case NumericType => 1
    case BooleanType => 2
    case TextType => 3
  }

  lemma SampleAt(rows: seq<seq<string>>, column: nat)
    ensures |Sample(rows, column)| == |rows|
    ensures forall k :: 0 <= k < |rows| ==> Sample(rows, column)[k] == Sampled(rows, k, column)
  {
  }

  lemma InferredIsNarrowest(values: seq<string>, t: SqlType)
    ensures forall v <- values :: v != "" ==> HasType(v, InferSqlType(values))
    ensures (forall v <- values :: v == "") ==> InferSqlType(values) == TextType
    ensures Width(t) < Width(InferSqlType(values)) && (exists v <- values :: v != "") ==>
              exists v <- values :: v != "" && !HasType(v, t)
  {
    hide IsInteger;
    hide IsNumeric;
    hide IsBoolean;
  }

  /**
   A column's type is read off the first hundred rows: every cell there that is not empty has it,
   and for any narrower type one has not; a column with no such cell is text.
   */
  lemma TypesAreNarrowest(headers: nat, rows: seq<seq<string>>, column: nat, narrower: SqlType)
    requires column < headers
    ensures var n := if |rows| < 100 then |rows| else 100;
            var t := ColumnTypes(headers, rows)[column];
            && (forall k :: 0 <= k < n ==> Sampled(rows, k, column) == "" || HasType(Sampled(rows, k, column), t))
            && ((forall k :: 0 <= k < n ==> Sampled(rows, k, column) == "") ==> t == TextType)
            && (Width(narrower) < Width(t) && (exists k :: 0 <= k < n && Sampled(rows, k, column) != "") ==>
                  exists k :: 0 <= k < n && Sampled(rows, k, column) != ""
                              && !HasType(Sampled(rows, k, column), narrower))
  {
    hide InferSqlType;
    hide HasType;
    hide Width;
    hide Sample;
    var n := if |rows| < 100 then |rows| else 100;
    var values := Sample(rows[..n], column);
    SampleAt(rows[..n], column);
    InferredIsNarrowest(values, narrower);
    assert forall k :: 0 <= k < n ==> values[k] == Sampled(rows, k, column) && values[k] in values;
    assert ColumnTypes(headers, rows)[column] == InferSqlType(values);
    if Width(narrower) < Width(InferSqlType(values)) && exists v <- values :: v != "" && !HasType(v, narrower) {
      var v :| v in values && v != "" && !HasType(v, narrower);
      var k :| 0 <= k < |values| && values[k] == v;
      assert Sampled(rows, k, column) == v;
    }
  }

  predicate Decimals(s: string) {
    s != "" && forall c <- s :: c in "0123456789"
  }

  predicate IsNumeral(s: string, minus: string, whole: string, tail: string) {
    && minus in {"", "-"} && Decimals(whole) && s == minus + whole + tail
    && (tail == "" || (tail[0] == '.' && Decimals(tail[1..])))
  }

  lemma DecimalsAreDigits(s: string)
    ensures Decimals(s) <==> Digits(s)
  {
    assert forall c: char :: '0' <= c <= '9' <==> c in "0123456789";
  }

  lemma PointAfter(whole: string, tail: string)
    requires Digits(whole) && (tail == "" || tail[0] == '.')
    ensures IndexOf(whole + tail, '.') == |whole|
  {
    var u, i := whole + tail, IndexOf(whole + tail, '.');
    forall k | 0 <= k < |whole| ensures u[k] != '.' {
      assert u[k] == whole[k] && whole[k] in whole;
    }
    assert forall k :: 0 <= k < i ==> u[..i][k] == u[k];
    assert tail != "" ==> u[|whole|] == '.';
  }

  lemma NumeralReads(s: string, minus: string, whole: string, tail: string)
    requires IsNumeral(s, minus, whole, tail)
    ensures IsNumeric(s) && (tail == "" ==> IsInteger(s))
  {
    DecimalsAreDigits(whole);
    assert whole[0] in whole;
    var u := whole + tail;
    assert Unsigned(s) == u by {
      assert s[0] == if minus == "" then whole[0] else '-';
    }
    PointAfter(whole, tail);
    assert u[..|whole|] == whole;
    if tail == "" {
      assert u == whole;
    } else {
      DecimalsAreDigits(tail[1..]);
      assert u[|whole| + 1..] == tail[1..];
    }
  }

  lemma IntegerHasNoPoint(s: string)
    requires IsInteger(s)
    ensures IndexOf(Unsigned(s), '.') == |Unsigned(s)|
  {
    hide IndexOf;
    var u := Unsigned(s);
    assert forall k :: 0 <= k < |u| ==> u[k] in u;
  }

  lemma NumericIsNumeral(s: string) returns (minus: string, whole: string, tail: string)
    requires IsNumeric(s)
    ensures IsNumeral(s, minus, whole, tail) && (IsInteger(s) ==> tail == "")
  {
    hide IndexOf;
    hide Digits;
    hide Decimals;
    hide IsInteger;
    var u := Unsigned(s);
    var i := IndexOf(u, '.');
    minus, whole, tail := if s != "" && s[0] == '-' then "-" else "", u[..i], u[i..];
    DecimalsAreDigits(whole);
    assert s == minus + u && u == whole + tail;
    assert minus + u == minus + whole + tail;
    if IsInteger(s) {
      IntegerHasNoPoint(s);
    }
    if tail != "" {
      DecimalsAreDigits(tail[1..]);
      assert tail[1..] == u[i + 1..];
    }
  }

  /**
   Only numerals are written without quotes: perhaps a minus, digits, perhaps a point and digits
   after it; an integer is one without a point.
   */
  lemma NumeralsIff(s: string)
    ensures IsNumeric(s) <==> exists minus, whole, tail :: IsNumeral(s, minus, whole, tail)
    ensures IsInteger(s) <==> exists minus, whole :: IsNumeral(s, minus, whole, "")
  {
    hide IsNumeral;
    if IsInteger(s) {
      IntegerIsNumeric(s);
    }
    if IsNumeric(s) {
      var minus, whole, tail := NumericIsNumeral(s);
    }
    if minus, whole, tail :| IsNumeral(s, minus, whole, tail) {
      NumeralReads(s, minus, whole, tail);
    }
    if minus, whole :| IsNumeral(s, minus, whole, "") {
      NumeralReads(s, minus, whole, "");
    }
  }
}
