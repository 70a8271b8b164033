/**
 The CSV reader of the import dialog, and the writer it undoes: quote every field, double the
 inner quotes, one record a line (RFC 4180, section 2).
 */
module CsvReader {
  import opened JsText

  datatype Delimiter = Comma | Semicolon | Tab

  function CharOf(d: Delimiter): char {
    match d
    case Comma => ','
    case Semicolon => ';'
    case Tab => '\t'
  }

  datatype ParsedData = ParsedData(headers: seq<string>, rows: seq<seq<string>>, totalRows: nat)

  // ---------------------------------------------------------------- lines

  /** A line break is a line feed with an optional carriage return before it. */
  function DropReturn(line: string): string {
    if line != "" && line[|line| - 1] == '\r' then line[..|line| - 1] else line
  }

  function SplitLines(text: string): seq<string>
    decreases |text|
  {
    var i := IndexOf(text, '\n');
    if i == |text| then [text] else [DropReturn(text[..i])] + SplitLines(text[i + 1..])
  }

  function NonBlank(lines: seq<string>): (kept: seq<string>)
    ensures |kept| <= |lines|
  {
    if lines == [] then []
    else if Blank(lines[0]) then NonBlank(lines[1..])
    else [lines[0]] + NonBlank(lines[1..])
  }

  // ---------------------------------------------------------------- one line

  /** The fields of what is left of a line, with `current` read so far of the field at hand. */
  function Fields(line: string, current: string, inQuotes: bool, d: char): seq<string>
    decreases |line|
  {
    if line == "" then [Trim(current)]
    else
      var ch := line[0];
      if ch == '"' && !inQuotes then Fields(line[1..], current, true, d)
      else if ch == '"' && inQuotes then
        if |line| > 1 && line[1] == '"' then Fields(line[2..], current + "\"", true, d)
        else Fields(line[1..], current, false, d)
      else if ch == d && !inQuotes then [Trim(current)] + Fields(line[1..], "", false, d)
      else Fields(line[1..], current + [ch], inQuotes, d)
  }

  method ParseLine(line: string, d: char) returns (result: seq<string>)
    ensures result == Fields(line, "", false, d)
  {
    result := [];
    var current := "";
    var inQuotes := false;
    var i := 0;
    assert line[0..] == line && [] + Fields(line, "", false, d) == Fields(line, "", false, d);
    while i < |line|
      invariant 0 <= i <= |line|
      invariant Fields(line, "", false, d) == result + Fields(line[i..], current, inQuotes, d)
    {
      var ch := line[i];
      FieldsAt(line, i, current, inQuotes, d);
      if ch == '"' && !inQuotes {
        inQuotes := true;
      } else if ch == '"' && inQuotes {
        if i + 1 < |line| && line[i + 1] == '"' {
          current := current + "\"";
          i := i + 1;
        } else {
          inQuotes := false;
        }
      } else if ch == d && !inQuotes {
        PushField(result, Trim(current), Fields(line[i + 1..], "", false, d));
        result := result + [Trim(current)];
        current := "";
      } else {
        current := current + [ch];
      }
      i := i + 1;
    }
    assert line[i..] == "";
    result := result + [Trim(current)];
  }

  lemma PushField(result: seq<string>, field: string, rest: seq<string>)
    ensures result + ([field] + rest) == result + [field] + rest
  {
  }

  /** One turn of the loop, at position `i` of the line. */
  lemma FieldsAt(line: string, i: nat, current: string, inQuotes: bool, d: char)
    requires i < |line|
    ensures var ch, now := line[i], Fields(line[i..], current, inQuotes, d);
            if ch == '"' && !inQuotes then now == Fields(line[i + 1..], current, true, d)
            else if ch == '"' && i + 1 < |line| && line[i + 1] == '"' then
              now == Fields(line[i + 2..], current + "\"", true, d)
            else if ch == '"' then now == Fields(line[i + 1..], current, false, d)
            else if ch == d && !inQuotes then now == [Trim(current)] + Fields(line[i + 1..], "", false, d)
            else now == Fields(line[i + 1..], current + [ch], inQuotes, d)
  {
    assert line[i..][1..] == line[i + 1..];
    if i + 1 < |line| {
      assert line[i..][2..] == line[i + 2..];
    }
  }

  method ParseCSV(text: string, firstRowIsHeader: bool, delimiter: Delimiter) returns (data: ParsedData)
    ensures data == Parsed(text, firstRowIsHeader, delimiter)
  {
    var lines := NonBlank(SplitLines(text));
    if |lines| == 0 {
      return ParsedData([], [], 0);
    }
    var firstRow := ParseLine(lines[0], CharOf(delimiter));
    var headers := if firstRowIsHeader then firstRow else ColumnNames(|firstRow|);
    var rows := ParseLines(if firstRowIsHeader then lines[1..] else lines, CharOf(delimiter));
    data := ParsedData(headers, rows, |rows|);
  }

  method ParseLines(lines: seq<string>, d: char) returns (rows: seq<seq<string>>)
    ensures rows == AllFields(lines, d)
  {
    rows := [];
    var i := 0;
    while i < |lines|
      invariant 0 <= i <= |lines| && rows == AllFields(lines[..i], d)
    {
      var row := ParseLine(lines[i], d);
      OneMoreLine(lines[..i], lines[i], d);
      assert lines[..i + 1] == lines[..i] + [lines[i]];
      rows := rows + [row];
      i := i + 1;
    }
    assert lines[..i] == lines;
  }

  lemma OneMoreLine(lines: seq<string>, line: string, d: char)
    ensures AllFields(lines + [line], d) == AllFields(lines, d) + [Fields(line, "", false, d)]
  {
    if lines == [] {
      assert lines + [line] == [line] && [line][1..] == [];
    } else {
      assert (lines + [line])[1..] == lines[1..] + [line];
      OneMoreLine(lines[1..], line, d);
    }
  }

  function AllFields(lines: seq<string>, d: char): (rows: seq<seq<string>>)
    ensures |rows| == |lines|
  {
    if lines == [] then [] else [Fields(lines[0], "", false, d)] + AllFields(lines[1..], d)
  }

  /** `column_${index + 1}`. */
  function ColumnName(index: nat): string {
    "column_" + Decimal(index + 1)
  }

  function ColumnNames(n: nat): seq<string> {
    seq(n, i requires 0 <= i => ColumnName(i))
  }

  function Parsed(text: string, firstRowIsHeader: bool, delimiter: Delimiter): ParsedData {
    var lines := NonBlank(SplitLines(text));
    if lines == [] then ParsedData([], [], 0)
    else
      var first := Fields(lines[0], "", false, CharOf(delimiter));
      var rows := AllFields(if firstRowIsHeader then lines[1..] else lines, CharOf(delimiter));
      ParsedData(if firstRowIsHeader then first else ColumnNames(|first|), rows, |rows|)
  }

  // ---------------------------------------------------------------- the writer

  function Doubled(cell: string): string {
    if cell == "" then "" else (if cell[0] == '"' then "\"\"" else [cell[0]]) + Doubled(cell[1..])
  }

  function Quoted(cell: string): string {
    "\"" + Doubled(cell) + "\""
  }

  function WriteRow(row: seq<string>, d: char): string
  {
    if row == [] then ""
    else if |row| == 1 then Quoted(row[0]) else Quoted(row[0]) + [d] + WriteRow(row[1..], d)
  }

  predicate IsTable(table: seq<seq<string>>) {
    table != [] && forall row <- table :: row != []
  }

  function Eol(crlf: bool): string {
    if crlf then "\r\n" else "\n"
  }

  /** Records joined by the line break, which may also follow the last one. */
  function WriteTable(table: seq<seq<string>>, d: char, crlf: bool, closed: bool): string
    requires IsTable(table)
  {
    var eol := Eol(crlf);
    if |table| == 1 then WriteRow(table[0], d) + if closed then eol else ""
    else
      assert forall row <- table[1..] :: row in table;
      WriteRow(table[0], d) + eol + WriteTable(table[1..], d, crlf, closed)
  }

  function TrimRow(row: seq<string>): seq<string> {
    if row == [] then [] else [Trim(row[0])] + TrimRow(row[1..])
  }

  function TrimAll(table: seq<seq<string>>): (trimmed: seq<seq<string>>)
    ensures |trimmed| == |table|
  {
    if table == [] then [] else [TrimRow(table[0])] + TrimAll(table[1..])
  }

  /** Inside quotes, one character of a cell as the writer spells it. */
  lemma InQuotesStep(c: char, tail: string, current: string, d: char)
    ensures Fields((if c == '"' then "\"\"" else [c]) + tail, current, true, d) == Fields(tail, current + [c], true, d)
  {
    if c == '"' {
      var line := "\"\"" + tail;
      assert line[0] == '"' && line[1] == '"' && line[2..] == tail;
      assert current + "\"" == current + [c];
    } else {
      var line := [c] + tail;
      assert line[0] == c && line[1..] == tail;
    }
  }

  /** A quoted cell is read back whole, whatever it holds, and the quotes are closed. */
  lemma {:induction false} CellReadsBack(cell: string, current: string, rest: string, d: char)
    requires rest == "" || rest[0] != '"'
    ensures Fields(Doubled(cell) + "\"" + rest, current, true, d) == Fields(rest, current + cell, false, d)
    decreases |cell|
  {
    if cell == "" {
      assert Doubled(cell) + "\"" + rest == ['"'] + rest;
      ClosingQuote(current, rest, d);
      assert current + cell == current;
    } else {
      var head := if cell[0] == '"' then "\"\"" else [cell[0]];
      var tail := Doubled(cell[1..]) + "\"" + rest;
      assert Doubled(cell) + "\"" + rest == head + tail;
      InQuotesStep(cell[0], tail, current, d);
      CellReadsBack(cell[1..], current + [cell[0]], rest, d);
      OneCharOn(current, cell);
    }
  }

  lemma OneCharOn(current: string, cell: string)
    requires cell != ""
    ensures current + [cell[0]] + cell[1..] == current + cell
  {
  }

  lemma ClosingQuote(current: string, rest: string, d: char)
    requires rest == "" || rest[0] != '"'
    ensures Fields(['"'] + rest, current, true, d) == Fields(rest, current, false, d)
  {
    assert (['"'] + rest)[1..] == rest;
  }

  lemma QuotedReads(cell: string, rest: string, d: char)
    requires rest == "" || rest[0] != '"'
    ensures Fields(Quoted(cell) + rest, "", false, d) == Fields(rest, cell, false, d)
  {
    var line := Quoted(cell) + rest;
    assert line[0] == '"' && line[1..] == Doubled(cell) + "\"" + rest;
    CellReadsBack(cell, "", rest, d);
    assert "" + cell == cell;
  }

  lemma DelimiterEnds(rest: string, current: string, d: char)
    requires d != '"'
    ensures Fields([d] + rest, current, false, d) == [Trim(current)] + Fields(rest, "", false, d)
    ensures Fields("", current, false, d) == [Trim(current)]
  {
    assert ([d] + rest)[1..] == rest;
  }

  /** Cells, the first up to its delimiter: one step of a row. */
  lemma FirstCell(first: string, cell: string, rest: string, d: char)
    requires d != '"' && Fields(first + ([d] + rest), "", false, d) == Fields([d] + rest, cell, false, d)
    ensures Fields(first + [d] + rest, "", false, d) == [Trim(cell)] + Fields(rest, "", false, d)
  {
    hide Fields;
    assert first + [d] + rest == first + ([d] + rest);
    DelimiterEnds(rest, cell, d);
  }

  lemma LastCell(first: string, cell: string, d: char)
    requires d != '"' && Fields(first + "", "", false, d) == Fields("", cell, false, d)
    ensures Fields(first, "", false, d) == [Trim(cell)]
  {
    hide Fields;
    assert first + "" == first;
    DelimiterEnds("", cell, d);
  }

  lemma TrimRowStep(row: seq<string>)
    requires row != []
    ensures TrimRow(row) == [Trim(row[0])] + TrimRow(row[1..]) && (|row| == 1 ==> TrimRow(row) == [Trim(row[0])])
  {
    hide Trim;
  }

  lemma {:induction false} RowReadsBack(row: seq<string>, d: char)
    requires row != [] && d != '"'
    ensures Fields(WriteRow(row, d), "", false, d) == TrimRow(row)
    decreases |row|
  {
    hide Fields;
    hide Quoted;
    hide Trim;
    hide TrimRow;
    TrimRowStep(row);
    if |row| == 1 {
      QuotedReads(row[0], "", d);
      LastCell(Quoted(row[0]), row[0], d);
    } else {
      var rest := WriteRow(row[1..], d);
      RowReadsBack(row[1..], d);
      QuotedReads(row[0], [d] + rest, d);
      FirstCell(Quoted(row[0]), row[0], rest, d);
    }
  }

  // ---------------------------------------------------------------- lines of a written table

  predicate HasBreak(row: seq<string>) {
    exists cell <- row :: '\n' in cell
  }

  lemma DoubledBreaks(cell: string)
    ensures '\n' in Doubled(cell) <==> '\n' in cell
  {
    if cell != "" {
      DoubledBreaks(cell[1..]);
      assert cell == [cell[0]] + cell[1..];
    }
  }

  /** A written row starts and ends with a quote, and holds a line feed only if a cell does. */
  lemma {:induction false} RowShape(row: seq<string>, d: char)
    requires row != [] && d != '\n'
    ensures var w := WriteRow(row, d);
            && |w| >= 2 && w[0] == '"' == w[|w| - 1]
            && ('\n' in w <==> HasBreak(row))
    decreases |row|
  {
    DoubledBreaks(row[0]);
    if |row| > 1 {
      RowShape(row[1..], d);
      assert row == [row[0]] + row[1..];
    }
  }

  lemma IndexOfConcat(a: string, rest: string, c: char)
    requires c !in a
    ensures IndexOf(a + [c] + rest, c) == |a|
  {
    if a != "" {
      assert (a + [c] + rest)[1..] == a[1..] + [c] + rest;
      IndexOfConcat(a[1..], rest, c);
    }
  }

  /** A line without a line feed, followed by a line break, is split off as it is. */
  lemma FirstLineSplits(line: string, crlf: bool, rest: string)
    requires '\n' !in line && (line == "" || line[|line| - 1] != '\r')
    ensures SplitLines(line + Eol(crlf) + rest) == [line] + SplitLines(rest)
  {
    var first := if crlf then line + "\r" else line;
    var text := line + Eol(crlf) + rest;
    assert text == first + ['\n'] + rest;
    IndexOfConcat(first, rest, '\n');
    assert text[..|first|] == first && text[|first| + 1..] == rest;
    assert DropReturn(first) == line;
  }

  lemma NonBlankOver(a: seq<string>, b: seq<string>)
    ensures NonBlank(a + b) == NonBlank(a) + NonBlank(b)
  {
    if a == [] {
      assert a + b == b;
    } else {
      assert (a + b)[1..] == a[1..] + b;
      NonBlankOver(a[1..], b);
    }
  }

  lemma QuotedIsNotBlank(line: string)
    requires '"' in line
    ensures !Blank(line) && NonBlank([line]) == [line]
  {
  }

  function WriteRows(table: seq<seq<string>>, d: char): (lines: seq<string>)
    ensures |lines| == |table|
  {
    if table == [] then []
    else
      [WriteRow(table[0], d)] + WriteRows(table[1..], d)
  }

  lemma NoBreakOneLine(line: string)
    requires '\n' !in line
    ensures SplitLines(line) == [line]
  {
    assert forall i :: 0 <= i < |line| ==> line[i] in line;
  }

  /** Without line feeds in the cells, the lines kept are exactly the written records. */
  lemma {:induction false} LinesAreRows(table: seq<seq<string>>, d: char, crlf: bool, closed: bool)
    requires IsTable(table) && d != '\n' && forall row <- table :: !HasBreak(row)
    ensures NonBlank(SplitLines(WriteTable(table, d, crlf, closed))) == WriteRows(table, d)
    decreases |table|
  {
    var eol := Eol(crlf);
    var line := WriteRow(table[0], d);
    assert table[0] in table;
    RowShape(table[0], d);
    QuotedIsNotBlank(line);
    if |table| == 1 {
      if closed {
        FirstLineSplits(line, crlf, "");
        assert line + eol + "" == line + eol;
        NoBreakOneLine("");
        NonBlankOver([line], [""]);
      } else {
        NoBreakOneLine(line);
        assert line + "" == line;
      }
    } else {
      assert forall row <- table[1..] :: row in table;
      var rest := WriteTable(table[1..], d, crlf, closed);
      LinesAreRows(table[1..], d, crlf, closed);
      FirstLineSplits(line, crlf, rest);
      NonBlankOver([line], SplitLines(rest));
    }
  }

  /** What reading a table gives when its first record is taken for the header, and when not. */
  function AsParsed(table: seq<seq<string>>, firstRowIsHeader: bool): ParsedData
    requires table != []
  {
    if firstRowIsHeader then ParsedData(table[0], table[1..], |table| - 1)
    else ParsedData(ColumnNames(|table[0]|), table, |table|)
  }

  /**
   For every table whose cells hold no line feed, both line breaks, each delimiter, and with
   or without a final line break, the reader gives the table back with each cell trimmed.
   */
  lemma ReadingTrims(table: seq<seq<string>>, delimiter: Delimiter, crlf: bool, closed: bool, firstRowIsHeader: bool)
    requires IsTable(table) && forall row <- table :: !HasBreak(row)
    ensures Parsed(WriteTable(table, CharOf(delimiter), crlf, closed), firstRowIsHeader, delimiter)
         == AsParsed(TrimAll(table), firstRowIsHeader)
  {
    var d := CharOf(delimiter);
    LinesAreRows(table, d, crlf, closed);
    RowsReadBack(table, d);
  }

  lemma {:induction false} RowsReadBack(table: seq<seq<string>>, d: char)
    requires d != '"' && forall row <- table :: row != []
    ensures AllFields(WriteRows(table, d), d) == TrimAll(table)
    decreases |table|
  {
    if table != [] {
      assert table[0] in table && forall row <- table[1..] :: row in table;
      RowReadsBack(table[0], d);
      RowsReadBack(table[1..], d);
      var lines := WriteRows(table, d);
      assert lines[1..] == WriteRows(table[1..], d);
    }
  }

  // ---------------------------------------------------------------- exactly when it reads back

  /** The last line of a text that ends with a quote is kept. */
  lemma {:induction false} QuoteKeepsTheLastLine(part: string)
    requires part != "" && part[|part| - 1] == '"'
    ensures |NonBlank(SplitLines(part))| >= 1
    decreases |part|
  {
    var i := IndexOf(part, '\n');
    if i == |part| {
      QuotedIsNotBlank(part);
    } else {
      QuoteKeepsTheLastLine(part[i + 1..]);
      NonBlankOver([DropReturn(part[..i])], SplitLines(part[i + 1..]));
    }
  }

  /** It is kept beside the lines of what follows it. */
  lemma {:induction false} BrokenKeepsTheLastLine(part: string, crlf: bool, rest: string)
    requires part != "" && part[|part| - 1] == '"'
    ensures |NonBlank(SplitLines(part + Eol(crlf) + rest))| >= 1 + |NonBlank(SplitLines(rest))|
    decreases |part|
  {
    var eol := Eol(crlf);
    var i := IndexOf(part, '\n');
    if i == |part| {
      assert part[..i] == part;
      QuotedIsNotBlank(part);
      FirstLineSplits(part, crlf, rest);
      NonBlankOver([part], SplitLines(rest));
    } else {
      assert part[i] in part;
      SplitsAtFirstBreak(part, eol + rest);
      var line, tail := DropReturn(part[..i]), part[i + 1..];
      assert part + (eol + rest) == part + eol + rest && tail + (eol + rest) == tail + eol + rest;
      assert tail != "" && tail[|tail| - 1] == '"';
      BrokenKeepsTheLastLine(tail, crlf, rest);
      NonBlankOver([line], SplitLines(tail + eol + rest));
    }
  }

  /** Lines of a text with a line feed: what is before it, then the lines after it. */
  lemma SplitsAtFirstBreak(text: string, more: string)
    requires '\n' in text
    ensures var i := IndexOf(text, '\n');
            && i < |text|
            && SplitLines(text + more) == [DropReturn(text[..i])] + SplitLines(text[i + 1..] + more)
  {
    var i := IndexOf(text, '\n');
    assert text[..|text|] == text;
    var first, tail := text[..i], text[i + 1..];
    assert text == first + ['\n'] + tail;
    assert text + more == first + ['\n'] + (tail + more);
    IndexOfConcat(first, tail + more, '\n');
    assert (text + more)[i + 1..] == tail + more && (text + more)[..i] == first;
  }

  /** A written record with a line feed in a cell is at least two lines. */
  lemma BrokenRowIsTwoLines(w: string, crlf: bool, rest: string)
    requires |w| >= 2 && w[0] == '"' == w[|w| - 1] && '\n' in w
    ensures |NonBlank(SplitLines(w + Eol(crlf) + rest))| >= 2 + |NonBlank(SplitLines(rest))|
    ensures |NonBlank(SplitLines(w))| >= 2
  {
    hide SplitLines;
    hide NonBlank;
    hide IndexOf;
    hide Blank;
    hide Eol;
    var eol := Eol(crlf);
    SplitsAtFirstBreak(w, eol + rest);
    SplitsAtFirstBreak(w, "");
    var i := IndexOf(w, '\n');
    assert w[i] == '\n' && 0 < i < |w| - 1;
    var line, tail := DropReturn(w[..i]), w[i + 1..];
    assert w + "" == w && tail + "" == tail;
    assert w + (eol + rest) == w + eol + rest && tail + (eol + rest) == tail + eol + rest;
    assert tail[|tail| - 1] == w[|w| - 1];
    BrokenKeepsTheLastLine(tail, crlf, rest);
    QuoteKeepsTheLastLine(tail);
    assert line[0] == '"';
    QuotedIsNotBlank(line);
    NonBlankOver([line], SplitLines(tail + eol + rest));
    NonBlankOver([line], SplitLines(tail));
  }

  /** One written record before the rest, or at the end. */
  lemma RecordLines(row: seq<string>, d: char, crlf: bool, rest: string)
    requires row != [] && d != '\n'
    ensures var w, kept := WriteRow(row, d), if HasBreak(row) then 2 else 1;
            && |NonBlank(SplitLines(w + Eol(crlf) + rest))| >= kept + |NonBlank(SplitLines(rest))|
            && |NonBlank(SplitLines(w))| >= kept
  {
    var w := WriteRow(row, d);
    RowShape(row, d);
    if HasBreak(row) {
      BrokenRowIsTwoLines(w, crlf, rest);
    } else {
      BrokenKeepsTheLastLine(w, crlf, rest);
      QuoteKeepsTheLastLine(w);
    }
  }

  /** The reader never finds fewer records than were written, and more if a cell holds a line feed. */
  lemma {:induction false} BreaksAddLines(table: seq<seq<string>>, d: char, crlf: bool, closed: bool)
    requires IsTable(table) && d != '\n'
    ensures var n := |NonBlank(SplitLines(WriteTable(table, d, crlf, closed)))|;
            n >= |table| && ((exists row <- table :: HasBreak(row)) ==> n > |table|)
    decreases |table|
  {
    var w := WriteRow(table[0], d);
    assert table[0] in table;
    assert forall row <- table[1..] :: row in table;
    assert table == [table[0]] + table[1..];
    if |table| == 1 {
      RecordLines(table[0], d, crlf, "");
      assert w + Eol(crlf) + "" == w + Eol(crlf) && w + "" == w;
    } else {
      BreaksAddLines(table[1..], d, crlf, closed);
      RecordLines(table[0], d, crlf, WriteTable(table[1..], d, crlf, closed));
    }
  }

  /** No cell holds a line feed or starts or ends with white space. */
  predicate Plain(table: seq<seq<string>>) {
    (forall row <- table :: !HasBreak(row)) && TrimAll(table) == table
  }

  /**
   Main result. The reader undoes the writer on a non-empty table, for each delimiter, if and
   only if no cell holds a line feed and no cell has outer white space.
   */
  lemma ReadsBackIff(table: seq<seq<string>>, delimiter: Delimiter, crlf: bool, closed: bool)
    requires IsTable(table)
    ensures Parsed(WriteTable(table, CharOf(delimiter), crlf, closed), false, delimiter) == AsParsed(table, false)
       <==> Plain(table)
    ensures Plain(table) ==>
              Parsed(WriteTable(table, CharOf(delimiter), crlf, closed), true, delimiter) == AsParsed(table, true)
  {
    if exists row <- table :: HasBreak(row) {
      var lines := NonBlank(SplitLines(WriteTable(table, CharOf(delimiter), crlf, closed)));
      BreaksAddLines(table, CharOf(delimiter), crlf, closed);
      assert |Parsed(WriteTable(table, CharOf(delimiter), crlf, closed), false, delimiter).rows| == |lines|;
    } else {
      ReadingTrims(table, delimiter, crlf, closed, false);
      ReadingTrims(table, delimiter, crlf, closed, true);
    }
  }

  // ---------------------------------------------------------------- cells without quotes

  /** A cell written without quotes: no quote in it, and no delimiter. */
  predicate Bare(cell: string, d: char) {
    '"' !in cell && d !in cell
  }

  /** A row with each cell in quotes or bare. */
  function WriteEither(row: seq<string>, bare: seq<bool>, d: char): string
    requires |bare| == |row|
  {
    if row == [] then ""
    else
      var first := if bare[0] then row[0] else Quoted(row[0]);
      if |row| == 1 then first else first + [d] + WriteEither(row[1..], bare[1..], d)
  }

  lemma {:induction false} BareReads(cell: string, current: string, rest: string, d: char)
    requires Bare(cell, d) && d != '"'
    ensures Fields(cell + rest, current, false, d) == Fields(rest, current + cell, false, d)
    decreases |cell|
  {
    if cell == "" {
      assert cell + rest == rest && current + cell == current;
    } else {
      assert cell[0] in cell && (cell + rest)[0] == cell[0] && (cell + rest)[1..] == cell[1..] + rest;
      assert forall c <- cell[1..] :: c in cell;
      BareStep(cell[0], cell[1..] + rest, current, d);
      assert [cell[0]] + (cell[1..] + rest) == cell + rest;
      BareReads(cell[1..], current + [cell[0]], rest, d);
      OneCharOn(current, cell);
    }
  }

  lemma BareStep(c: char, tail: string, current: string, d: char)
    requires c != '"' && c != d
    ensures Fields([c] + tail, current, false, d) == Fields(tail, current + [c], false, d)
  {
    assert ([c] + tail)[1..] == tail;
  }

  /** One cell, bare or quoted, is read up to where it ends. */
  lemma EitherReads(cell: string, bare: bool, rest: string, d: char)
    requires d != '"' && (bare ==> Bare(cell, d)) && (rest == "" || rest[0] == d)
    ensures Fields((if bare then cell else Quoted(cell)) + rest, "", false, d) == Fields(rest, cell, false, d)
  {
    if bare {
      BareReads(cell, "", rest, d);
      assert "" + cell == cell;
    } else {
      QuotedReads(cell, rest, d);
    }
  }

  lemma {:induction false} EitherRowReads(row: seq<string>, bare: seq<bool>, d: char)
    requires row != [] && |bare| == |row| && d != '"'
    requires forall i :: 0 <= i < |row| && bare[i] ==> Bare(row[i], d)
    ensures Fields(WriteEither(row, bare, d), "", false, d) == TrimRow(row)
    decreases |row|
  {
    hide Fields;
    hide Bare;
    hide Quoted;
    hide Trim;
    hide TrimRow;
    var first := if bare[0] then row[0] else Quoted(row[0]);
    TrimRowStep(row);
    if |row| == 1 {
      EitherReads(row[0], bare[0], "", d);
      LastCell(first, row[0], d);
    } else {
      var rest := WriteEither(row[1..], bare[1..], d);
      EitherRowReads(row[1..], bare[1..], d);
      EitherReads(row[0], bare[0], [d] + rest, d);
      FirstCell(first, row[0], rest, d);
    }
  }

  /**
   A writer may quote only some cells: a line in which every cell is quoted, or holds no quote and
   no delimiter, is read as its cells, each trimmed, under the delimiter chosen.
   */
  lemma EitherSpellingReads(row: seq<string>, bare: seq<bool>, delimiter: Delimiter)
    requires row != [] && |bare| == |row|
    requires var d := if delimiter == Comma then ',' else if delimiter == Semicolon then ';' else '\t';
             forall i :: 0 <= i < |row| && bare[i] ==> '"' !in row[i] && d !in row[i]
    ensures var d := if delimiter == Comma then ',' else if delimiter == Semicolon then ';' else '\t';
            Fields(WriteEither(row, bare, d), "", false, CharOf(delimiter)) == TrimRow(row)
  {
    hide Fields;
    EitherRowReads(row, bare, CharOf(delimiter));
  }

  /** Without a header row the columns are named by their numbers, from one on. */
  lemma ColumnsAreNumbered(text: string, delimiter: Delimiter, i: nat)
    requires i < |Parsed(text, false, delimiter).headers|
    ensures var data := Parsed(text, false, delimiter);
            && data.headers[i] == "column_" + Decimal(i + 1) && Spelled(Decimal(i + 1)) == i + 1
            && data.rows != [] && |data.headers| == |data.rows[0]| && data.totalRows == |data.rows|
  {
    hide Fields;
    DecimalReadsBack(i + 1);
  }
}
