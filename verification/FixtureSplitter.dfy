/**
 Splitting a fixture file into its statements.

 A comment line is dropped whole; a statement ends at a line ending in a semicolon. The SQLite
 reader knows triggers, whose bodies hold semicolons of their own: only the one after END
 closes such a statement. The DuckDB reader has no trigger rule.
 */
module FixtureSplitter {
  import opened Common
  import opened JsText

  // ---------------------------------------------------------------- the two patterns

  predicate IsWord(c: char) {
    'a' <= c <= 'z' || 'A' <= c <= 'Z' || '0' <= c <= '9' || c == '_'
  }

  /** `word` in any case at the start of `s`. */
  predicate Opens(s: string, word: string) {
    |word| <= |s| && Lower(s[..|word|]) == word
  }

  /** `word` and at least one white space; what follows them. */
  function AfterWord(s: string, word: string): Option<string> {
    if Opens(s, word) && |s| > |word| && IsSpace(s[|word|]) then Some(TrimStart(s[|word|..])) else None
  }

  predicate TriggerWord(s: string) {
    Opens(s, "trigger") && (|s| == 7 || !IsWord(s[7]))
  }

  /** The header of a trigger: CREATE, perhaps TEMP or TEMPORARY, and TRIGGER as a word. */
  predicate TriggerHeader(s: string) {
    HeaderHere(TrimStart(s))
  }

  predicate HeaderHere(s: string) {
    var rest := AfterWord(s, "create");
    && rest.Some?
    && (|| TriggerWord(rest.value)
        || (AfterWord(rest.value, "temp").Some? && TriggerWord(AfterWord(rest.value, "temp").value))
        || (AfterWord(rest.value, "temporary").Some? && TriggerWord(AfterWord(rest.value, "temporary").value)))
  }

  /** END as a word, with nothing but white space after it. */
  predicate EndsWithEnd(s: string) {
    EndWord(TrimEnd(s))
  }

  /** A trigger whose body goes on. */
  predicate OpenTrigger(candidate: string) {
    TriggerHeader(candidate) && !EndsWithEnd(candidate)
  }

  predicate IsComment(line: string) {
    var t := Trim(line);
    |t| >= 2 && t[0] == '-' && t[1] == '-'
  }

  /** The line without what follows its last character, if that is a semicolon: the part before it. */
  function BeforeSemicolon(line: string): Option<string> {
    var body := TrimEnd(line);
    if body != "" && body[|body| - 1] == ';' then Some(body[..|body| - 1]) else None
  }

  // ---------------------------------------------------------------- reading

  /** What one line does: it may complete a statement, and leaves a buffer. */
  datatype Turn = Turn(done: seq<string>, buffer: string)

  function TakeLine(line: string, buffer: string, triggers: bool): Turn {
    if IsComment(line) then Turn([], buffer)
    else
      var body := BeforeSemicolon(line);
      if body.None? || (triggers && OpenTrigger(buffer + body.value)) then Turn([], buffer + line + "\n")
      else
        var statement := Trim(buffer + body.value);
        Turn(if statement != "" then [statement] else [], "")
  }

  /** The statements of the lines, `buffer` read so far of the one at hand. */
  function Statements(lines: seq<string>, buffer: string, triggers: bool): seq<string>
    decreases |lines|
  {
    if lines == [] then []
    else
      var turn := TakeLine(lines[0], buffer, triggers);
      turn.done + Statements(lines[1..], turn.buffer, triggers)
  }

  /** Reading a file without a statement is an error rather than an empty list. */
  function ReadFixture(text: string, triggers: bool): Option<seq<string>> {
    var statements := Statements(SplitLines(text), "", triggers);
    if statements == [] then None else Some(statements)
  }

  method ReadSqliteFixture(text: string) returns (result: Option<seq<string>>)
    ensures result == ReadFixture(text, true)
  {
    var lines := SplitLines(text);
    var statements: seq<string> := [];
    var buffer := "";
    var i := 0;
    while i < |lines|
      invariant 0 <= i <= |lines|
      invariant Statements(lines, "", true) == statements + Statements(lines[i..], buffer, true)
    {
      hide Statements;
      StatementsStep(lines, i, buffer, true, statements);
      var line := lines[i];
      i := i + 1;
      if IsComment(line) {
        assert statements + [] == statements;
        continue;
      }
      var body := BeforeSemicolon(line);
      if body.None? {
        assert statements + [] == statements;
        buffer := buffer + line + "\n";
        continue;
      }
      var candidate := buffer + body.value;
      if OpenTrigger(candidate) {
        assert statements + [] == statements;
        buffer := buffer + line + "\n";
        continue;
      }
      var statement := Trim(candidate);
      if statement != "" {
        statements := statements + [statement];
      } else {
        assert statements + [] == statements;
      }
      buffer := "";
    }
    assert lines[i..] == [] && Statements([], buffer, true) == [] && statements + [] == statements;
    return if |statements| == 0 then None else Some(statements);
  }

  method ReadDuckdbFixture(text: string) returns (result: Option<seq<string>>)
    ensures result == ReadFixture(text, false)
  {
    var lines := SplitLines(text);
    var statements: seq<string> := [];
    var buffer := "";
    var i := 0;
    while i < |lines|
      invariant 0 <= i <= |lines|
      invariant Statements(lines, "", false) == statements + Statements(lines[i..], buffer, false)
    {
      hide Statements;
      StatementsStep(lines, i, buffer, false, statements);
      var line := lines[i];
      i := i + 1;
      if IsComment(line) {
        assert statements + [] == statements;
        continue;
      }
      var body := BeforeSemicolon(line);
      if body.None? {
        assert statements + [] == statements;
        buffer := buffer + line + "\n";
        continue;
      }
      var candidate := buffer + body.value;
      var statement := Trim(candidate);
      if statement != "" {
        statements := statements + [statement];
      } else {
        assert statements + [] == statements;
      }
      buffer := "";
    }
    assert lines[i..] == [] && Statements([], buffer, false) == [] && statements + [] == statements;
    return if |statements| == 0 then None else Some(statements);
  }

  /** One turn of either loop. */
  lemma StatementsStep(lines: seq<string>, i: nat, buffer: string, triggers: bool, before: seq<string>)
    requires i < |lines|
    ensures var turn := TakeLine(lines[i], buffer, triggers);
            before + Statements(lines[i..], buffer, triggers)
            == before + turn.done + Statements(lines[i + 1..], turn.buffer, triggers)
  {
    hide TakeLine;
    assert lines[i..][1..] == lines[i + 1..];
  }

  // ---------------------------------------------------------------- the two readers

  /** The line ends with a semicolon inside a trigger whose body goes on. */
  predicate CutsTrigger(line: string, buffer: string) {
    !IsComment(line) && BeforeSemicolon(line).Some? && OpenTrigger(buffer + BeforeSemicolon(line).value)
  }

  /** No statement, as the reader without the rule cuts them, is a trigger whose body goes on. */
  predicate TriggerFree(lines: seq<string>, buffer: string)
    decreases |lines|
  {
    lines == []
    || (!CutsTrigger(lines[0], buffer) && TriggerFree(lines[1..], TakeLine(lines[0], buffer, false).buffer))
  }

  lemma TrimLength(s: string, p: nat)
    requires p < |s| && !IsSpace(s[p])
    ensures |s| - |TrimStart(s)| <= p
    ensures |Trim(s)| >= p + 1 - (|s| - |TrimStart(s)|)
  {
    TrimStartDropsSpaces(s);
    var t := TrimStart(s);
    assert t[p - (|s| - |t|)] == s[p];
  }

  lemma TrimStartOfPrefix(s: string, more: string)
    requires TrimStart(s) != ""
    ensures |s + more| - |TrimStart(s + more)| == |s| - |TrimStart(s)|
  {
    hide IsSpace;
    FirstOf(s, more);
    if IsSpace(s[0]) {
      TrimStartOfPrefix(s[1..], more);
    }
  }

  /** From where the text starts, white space apart, through position `p`. */
  function Reach(buffer: string, p: nat): int {
    p + 1 - (|buffer| - |TrimStart(buffer)|)
  }

  lemma ReachGrows(buffer: string, more: string, p: nat)
    requires p < |buffer| && !IsSpace(buffer[p])
    ensures p < |buffer + more| && !IsSpace((buffer + more)[p]) && Reach(buffer + more, p) == Reach(buffer, p)
    ensures |Trim(buffer + more)| >= Reach(buffer, p) > 0
  {
    TrimLength(buffer, p);
    TrimStartOfPrefix(buffer, more);
    assert (buffer + more)[p] == buffer[p];
    TrimLength(buffer + more, p);
  }

  lemma TurnReachesOver(line: string, buffer: string, triggers: bool, p: nat)
    requires p < |buffer| && !IsSpace(buffer[p])
    ensures var turn := TakeLine(line, buffer, triggers);
            if turn.done == [] then
              p < |turn.buffer| && !IsSpace(turn.buffer[p]) && Reach(turn.buffer, p) == Reach(buffer, p)
            else |turn.done[0]| >= Reach(buffer, p)
  {
    hide Reach;
    hide Trim;
    hide IsSpace;
    hide IsComment;
    hide OpenTrigger;
    hide BeforeSemicolon;
    ReachGrows(buffer, line + "\n", p);
    assert buffer + line + "\n" == buffer + (line + "\n");
    var body := BeforeSemicolon(line);
    if body.Some? {
      ReachGrows(buffer, body.value, p);
    }
  }

  /**
   Once the buffer holds something that is no white space, the next statement reaches at least
   from where the buffer starts to there.
   */
  lemma {:induction false} NextReachesOver(lines: seq<string>, buffer: string, triggers: bool, p: nat)
    requires p < |buffer| && !IsSpace(buffer[p])
    ensures var next := Statements(lines, buffer, triggers); next != [] ==> |next[0]| >= Reach(buffer, p)
    decreases |lines|
  {
    hide TakeLine;
    hide Reach;
    if lines != [] {
      var turn := TakeLine(lines[0], buffer, triggers);
      TurnReachesOver(lines[0], buffer, triggers, p);
      if turn.done == [] {
        NextReachesOver(lines[1..], turn.buffer, triggers, p);
        assert Statements(lines, buffer, triggers) == [] + Statements(lines[1..], turn.buffer, triggers);
      } else {
        assert Statements(lines, buffer, triggers)[0] == turn.done[0];
      }
    }
  }

  /** A trigger taken for complete at its first semicolon is shorter than what comes of waiting. */
  lemma WaitingReadsLonger(lines: seq<string>, buffer: string, line: string)
    requires BeforeSemicolon(line).Some? && OpenTrigger(buffer + BeforeSemicolon(line).value)
    ensures var cut := Trim(buffer + BeforeSemicolon(line).value);
            var waited := Statements(lines, buffer + line + "\n", true);
            cut != "" && (waited != [] ==> |waited[0]| > |cut|)
  {
    var candidate, longer := buffer + BeforeSemicolon(line).value, buffer + line + "\n";
    HeaderIsNotBlank(candidate);
    SemicolonFollows(buffer, line);
    TrimStartOfPrefix(candidate, longer[|candidate|..]);
    hide OpenTrigger;
    hide Statements;
    NextReachesOver(lines, longer, true, |candidate|);
    assert |Trim(candidate)| <= |TrimStart(candidate)|;
  }

  lemma SemicolonFollows(buffer: string, line: string)
    requires BeforeSemicolon(line).Some?
    ensures var candidate, longer := buffer + BeforeSemicolon(line).value, buffer + line + "\n";
            |candidate| < |longer| && longer[|candidate|] == ';' && longer == candidate + longer[|candidate|..]
  {
    var body := BeforeSemicolon(line).value;
    assert TrimEnd(line) == body + ";";
    assert line[|body|] == ';' && line[..|body|] == body;
    assert line == body + line[|body|..];
  }

  lemma HeaderIsNotBlank(candidate: string)
    requires TriggerHeader(candidate)
    ensures TrimStart(candidate) != "" && Trim(candidate) != ""
  {
    TrimLength(candidate, |candidate| - |TrimStart(candidate)|);
  }

  /** The two readers take a line alike, unless it cuts a trigger. */
  lemma TurnsDiffer(line: string, buffer: string)
    ensures !CutsTrigger(line, buffer) ==> TakeLine(line, buffer, true) == TakeLine(line, buffer, false)
    ensures CutsTrigger(line, buffer) ==>
              var cut := Trim(buffer + BeforeSemicolon(line).value);
              && TakeLine(line, buffer, true) == Turn([], buffer + line + "\n")
              && (cut != "" ==> TakeLine(line, buffer, false) == Turn([cut], ""))
  {
    hide OpenTrigger;
    hide IsComment;
    hide BeforeSemicolon;
    hide Trim;
  }

  /**
   Main result about the pair. On any file, the two readers give the same statements if and
   only if none of them, as the simpler reader cuts them, is a trigger whose body goes on.
   */
  lemma {:induction false} ReadersAgreeIff(lines: seq<string>, buffer: string)
    ensures Statements(lines, buffer, true) == Statements(lines, buffer, false) <==> TriggerFree(lines, buffer)
    decreases |lines|
  {
    if lines != [] {
      var line, rest := lines[0], lines[1..];
      TurnsDiffer(line, buffer);
      if CutsTrigger(line, buffer) {
        WaitingReadsLonger(rest, buffer, line);
        CutReadsApart(rest, buffer, line);
      } else {
        hide CutsTrigger;
        hide TakeLine;
        var turn := TakeLine(line, buffer, false);
        ReadersAgreeIff(rest, turn.buffer);
        SamePrefix(turn.done, Statements(rest, turn.buffer, true), Statements(rest, turn.buffer, false));
      }
    }
  }

  lemma CutReadsApart(rest: seq<string>, buffer: string, line: string)
    requires BeforeSemicolon(line).Some?
    requires var cut := Trim(buffer + BeforeSemicolon(line).value);
             var waited := Statements(rest, buffer + line + "\n", true);
             waited != [] ==> |waited[0]| > |cut|
    ensures var cut := Trim(buffer + BeforeSemicolon(line).value);
            [] + Statements(rest, buffer + line + "\n", true) != [cut] + Statements(rest, "", false)
  {
    hide Statements;
    hide Trim;
    hide BeforeSemicolon;
    var cut := Trim(buffer + BeforeSemicolon(line).value);
    var waited := Statements(rest, buffer + line + "\n", true);
    assert [] + waited == waited;
    assert ([cut] + Statements(rest, "", false))[0] == cut;
  }

  lemma SamePrefix(first: seq<string>, a: seq<string>, b: seq<string>)
    ensures first + a == first + b <==> a == b
  {
    assert (first + a)[|first|..] == a && (first + b)[|first|..] == b;
  }

  // ---------------------------------------------------------------- printing

  /** One statement as a file holds it: comment and blank lines, then its own lines. */
  datatype Item = Item(gap: seq<string>, lines: seq<string>)

  /** The first `n` lines as the buffer holds them, each with its line feed. */
  function Buffered(lines: seq<string>, n: nat): string
    requires n <= |lines|
  {
    if n == 0 then "" else Buffered(lines, n - 1) + lines[n - 1] + "\n"
  }

  /** The line does not close the statement: any semicolon at its end is inside a trigger's body. */
  predicate GoesOn(lines: seq<string>, i: nat, triggers: bool)
    requires i < |lines|
  {
    && !IsComment(lines[i])
    && (BeforeSemicolon(lines[i]).Some? ==>
          triggers && OpenTrigger(Buffered(lines, i) + BeforeSemicolon(lines[i]).value))
  }

  predicate Trimmed(text: string) {
    text != "" && !IsSpace(text[0]) && !IsSpace(text[|text| - 1])
  }

  /**
   A statement a fixture can hold: no outer white space, no line that reads as a comment, and
   no semicolon at a line's end but inside a trigger's body; a trigger ends with END.
   */
  predicate WellFormed(lines: seq<string>, triggers: bool) {
    && lines != []
    && Trimmed(Joined(lines))
    && (triggers ==> !OpenTrigger(Joined(lines)))
    && (forall i :: 0 <= i < |lines| ==> '\n' !in lines[i])
    && (forall i :: 0 <= i < |lines| - 1 ==> GoesOn(lines, i, triggers))
    && !IsComment(lines[|lines| - 1] + ";")
  }

  /** A line between statements. */
  predicate IsGap(line: string) {
    '\n' !in line && (IsComment(line) || Blank(line))
  }

  predicate Printable(items: seq<Item>, triggers: bool) {
    forall k :: 0 <= k < |items| ==>
      && items[k].lines != [] && WellFormed(items[k].lines, triggers)
      && forall i :: 0 <= i < |items[k].gap| ==> IsGap(items[k].gap[i])
  }

  function PrintLines(items: seq<Item>): seq<string>
    requires forall k :: 0 <= k < |items| ==> items[k].lines != []
  {
    if items == [] then []
    else
      var lines := items[0].lines;
      items[0].gap + (lines[..|lines| - 1] + ([lines[|lines| - 1] + ";"] + PrintLines(items[1..])))
  }

  /** The file: the statements, each closed by a semicolon, and perhaps more gap lines at the end. */
  function PrintFile(items: seq<Item>, trailing: seq<string>): string
    requires forall k :: 0 <= k < |items| ==> items[k].lines != []
    requires trailing != []
  {
    Joined(PrintLines(items) + trailing)
  }

  function Texts(items: seq<Item>): seq<string>
    requires forall k :: 0 <= k < |items| ==> items[k].lines != []
  {
    if items == [] then [] else [Joined(items[0].lines)] + Texts(items[1..])
  }

  // ---------------------------------------------------------------- leading white space

  lemma TrimStartSkips(w: string, s: string)
    requires Blank(w)
    ensures TrimStart(w + s) == TrimStart(s)
  {
    if w == "" {
      assert w + s == s;
    } else {
      FirstOf(w, s);
      TrimStartSkips(w[1..], s);
    }
  }

  lemma FirstOf(w: string, s: string)
    requires w != ""
    ensures (w + s)[0] == w[0] && (w + s)[1..] == w[1..] + s
  {
  }

  lemma BlankTrimsAway(w: string)
    requires Blank(w)
    ensures TrimEnd(w) == ""
  {
    var t := TrimEnd(w);
    assert forall i :: 0 <= i < |w| ==> w[i] in w;
  }

  lemma TrimEndKeeps(w: string, s: string)
    requires Blank(w)
    ensures TrimEnd(w + s) == if TrimEnd(s) == "" then "" else w + TrimEnd(s)
    decreases |s|
  {
    if s == "" {
      assert w + s == w;
      BlankTrimsAway(w);
    } else {
      LastOf(w, s);
      if IsSpace(s[|s| - 1]) {
        TrimEndKeeps(w, s[..|s| - 1]);
      }
    }
  }

  lemma LastOf(w: string, s: string)
    requires s != ""
    ensures (w + s)[|w + s| - 1] == s[|s| - 1] && (w + s)[..|w + s| - 1] == w + s[..|s| - 1]
  {
  }

  lemma TrimDropsLead(w: string, s: string)
    requires Blank(w) && Trimmed(s)
    ensures Trim(w + s) == s
  {
    TrimStartSkips(w, s);
  }

  lemma LowerAt(s: string, i: nat)
    requires i < |s|
    ensures |Lower(s)| == |s| && Lower(s)[i] == Lower([s[i]])[0]
  {
    if i > 0 {
      LowerAt(s[1..], i - 1);
    } else if |s| > 1 {
      LowerAt(s[1..], 0);
    }
  }

  lemma EndIgnoresLead(w: string, s: string)
    requires Blank(w)
    ensures EndsWithEnd(w + s) == EndsWithEnd(s)
  {
    TrimEndKeeps(w, s);
    if TrimEnd(s) != "" && w != "" {
      EndAfterSpace(w, TrimEnd(s));
    } else if w == "" {
      assert w + s == s;
    }
  }

  /** `t` ends with END as a word. */
  predicate EndWord(t: string) {
    |t| >= 3 && Lower(t[|t| - 3..]) == "end" && (|t| == 3 || !IsWord(t[|t| - 4]))
  }

  lemma EndAfterSpace(w: string, t: string)
    requires Blank(w) && w != "" && t != ""
    ensures EndWord(w + t) == EndWord(t)
  {
    var t' := w + t;
    assert w[|w| - 1] in w;
    if |t| >= 3 {
      assert t'[|t'| - 3..] == t[|t| - 3..];
      if |t| == 3 {
        assert t'[|t'| - 4] == w[|w| - 1];
      } else {
        assert t'[|t'| - 4] == t[|t| - 4];
      }
    } else if |t'| >= 3 {
      SpaceIsNoLetter(t'[|t'| - 3..], 2 - |t|);
    }
  }

  lemma SpaceIsNoLetter(tail: string, i: nat)
    requires |tail| == 3 && i < 3 && IsSpace(tail[i])
    ensures Lower(tail) != "end"
  {
    LowerAt(tail, i);
    assert Lower([tail[i]])[0] == tail[i];
  }

  lemma OpenIgnoresLead(w: string, s: string)
    requires Blank(w)
    ensures OpenTrigger(w + s) == OpenTrigger(s)
  {
    hide HeaderHere;
    hide EndsWithEnd;
    hide TrimStart;
    TrimStartSkips(w, s);
    EndIgnoresLead(w, s);
  }

  // ---------------------------------------------------------------- reading back

  lemma BlankLine(line: string)
    requires Blank(line)
    ensures !IsComment(line) && BeforeSemicolon(line).None?
  {
    BlankIffTrimsAway(line);
    TrimEndKeeps(line, "");
    assert line + "" == line;
  }

  /** Gap lines leave nothing but white space in the buffer. */
  lemma {:induction false} GapReads(gap: seq<string>, rest: seq<string>, w: string, triggers: bool) returns (w': string)
    requires Blank(w) && forall i :: 0 <= i < |gap| ==> IsGap(gap[i])
    ensures Blank(w') && Statements(gap + rest, w, triggers) == Statements(rest, w', triggers)
    decreases |gap|
  {
    if gap == [] {
      assert gap + rest == rest;
      w' := w;
    } else {
      var line := gap[0];
      assert (gap + rest)[0] == line && (gap + rest)[1..] == gap[1..] + rest;
      var next := TakeLine(line, w, triggers).buffer;
      GapTurn(line, w, triggers);
      w' := GapReads(gap[1..], rest, next, triggers);
      assert [] + Statements(gap[1..] + rest, next, triggers) == Statements(gap[1..] + rest, next, triggers);
    }
  }

  lemma GapTurn(line: string, w: string, triggers: bool)
    requires Blank(w) && IsGap(line)
    ensures TakeLine(line, w, triggers).done == [] && Blank(TakeLine(line, w, triggers).buffer)
  {
    if !IsComment(line) {
      BlankLine(line);
    }
  }

  lemma LastLineReads(last: string, triggers: bool)
    ensures BeforeSemicolon(last + ";") == Some(last)
  {
    var line := last + ";";
    assert line[|line| - 1] == ';';
    assert TrimEnd(line) == line;
    assert line[..|line| - 1] == last;
  }

  lemma FirstTurn(line: string, rest: seq<string>, buffer: string, triggers: bool)
    ensures var turn := TakeLine(line, buffer, triggers);
            Statements([line] + rest, buffer, triggers) == turn.done + Statements(rest, turn.buffer, triggers)
  {
    hide TakeLine;
    assert ([line] + rest)[1..] == rest;
  }

  lemma TurnContinues(line: string, buffer: string, triggers: bool)
    requires !IsComment(line)
    requires BeforeSemicolon(line).Some? ==> triggers && OpenTrigger(buffer + BeforeSemicolon(line).value)
    ensures TakeLine(line, buffer, triggers) == Turn([], buffer + line + "\n")
  {
    hide OpenTrigger;
    hide IsComment;
    hide BeforeSemicolon;
    hide Trim;
  }

  lemma TurnCloses(line: string, buffer: string, triggers: bool, body: string, text: string)
    requires !IsComment(line) && BeforeSemicolon(line) == Some(body)
    requires !(triggers && OpenTrigger(buffer + body)) && Trim(buffer + body) == text != ""
    ensures TakeLine(line, buffer, triggers) == Turn([text], "")
  {
    hide OpenTrigger;
    hide IsComment;
    hide BeforeSemicolon;
    hide Trim;
  }

  /** From line `i` on, with the lines before it in the buffer, a statement is read to its end. */
  lemma {:induction false} StatementReads(lines: seq<string>, i: nat, w: string, rest: seq<string>, triggers: bool)
    requires WellFormed(lines, triggers) && i < |lines| && Blank(w)
    ensures var k := |lines| - 1;
            Statements(lines[i..k] + ([lines[k] + ";"] + rest), w + Buffered(lines, i), triggers)
            == [Joined(lines)] + Statements(rest, "", triggers)
    decreases |lines| - i
  {
    hide *;
    var k := |lines| - 1;
    var more := [lines[k] + ";"] + rest;
    if i == k {
      assert lines[i..k] + more == more;
      FirstTurn(lines[k] + ";", rest, w + Buffered(lines, k), triggers);
      ClosingTurn(lines, w, triggers);
    } else {
      var later := lines[i + 1..k] + more;
      assert lines[i..k] + more == [lines[i]] + later;
      FirstTurn(lines[i], later, w + Buffered(lines, i), triggers);
      InnerLineGoesOn(lines, i, triggers);
      InnerTurn(lines, i, w, triggers);
      StatementReads(lines, i + 1, w, rest, triggers);
      NothingInFront(Statements(later, w + Buffered(lines, i + 1), triggers));
    }
  }

  lemma NothingInFront(xs: seq<string>)
    ensures [] + xs == xs
  {
  }

  lemma InnerLineGoesOn(lines: seq<string>, i: nat, triggers: bool)
    requires WellFormed(lines, triggers) && i < |lines| - 1
    ensures GoesOn(lines, i, triggers)
  {
  }

  lemma InnerTurn(lines: seq<string>, i: nat, w: string, triggers: bool)
    requires i < |lines| && GoesOn(lines, i, triggers) && Blank(w)
    ensures TakeLine(lines[i], w + Buffered(lines, i), triggers) == Turn([], w + Buffered(lines, i + 1))
  {
    hide OpenTrigger;
    hide IsComment;
    hide BeforeSemicolon;
    hide TakeLine;
    var b := Buffered(lines, i);
    var body := BeforeSemicolon(lines[i]);
    if body.Some? {
      assert w + b + body.value == w + (b + body.value);
      OpenIgnoresLead(w, b + body.value);
    }
    TurnContinues(lines[i], w + b, triggers);
    LineOn(w, b, lines[i]);
  }

  lemma LineOn(w: string, b: string, line: string)
    ensures w + b + line + "\n" == w + (b + line + "\n")
  {
  }

  lemma BufferedAndLast(lines: seq<string>, i: nat)
    requires i < |lines|
    ensures Buffered(lines, i) + Joined(lines[i..]) == Joined(lines)
    decreases i
  {
    if i == 0 {
      assert lines[0..] == lines;
      assert "" + Joined(lines) == Joined(lines);
    } else {
      BufferedAndLast(lines, i - 1);
      assert lines[i - 1..][1..] == lines[i..];
      assert Joined(lines[i - 1..]) == lines[i - 1] + "\n" + Joined(lines[i..]);
      LinesOn(Buffered(lines, i - 1), lines[i - 1], "\n", Joined(lines[i..]));
    }
  }

  lemma LinesOn(a: string, b: string, c: string, d: string)
    ensures a + (b + c + d) == a + b + c + d
  {
  }

  lemma ClosingTurn(lines: seq<string>, w: string, triggers: bool)
    requires WellFormed(lines, triggers) && Blank(w)
    ensures var k := |lines| - 1;
            TakeLine(lines[k] + ";", w + Buffered(lines, k), triggers) == Turn([Joined(lines)], "")
  {
    var k := |lines| - 1;
    BufferedAndLast(lines, k);
    assert lines[k..] == [lines[k]];
    Closes(w, Buffered(lines, k), lines[k], triggers);
  }

  lemma Closes(w: string, before: string, last: string, triggers: bool)
    requires Trimmed(before + last) && (triggers ==> !OpenTrigger(before + last)) && !IsComment(last + ";") && Blank(w)
    ensures TakeLine(last + ";", w + before, triggers) == Turn([before + last], "")
  {
    hide OpenTrigger;
    hide IsComment;
    hide BeforeSemicolon;
    hide Trim;
    hide TakeLine;
    LastLineReads(last, triggers);
    assert w + before + last == w + (before + last);
    TrimDropsLead(w, before + last);
    OpenIgnoresLead(w, before + last);
    TurnCloses(last + ";", w + before, triggers, last, before + last);
  }

  lemma {:induction false} LinesReadBack(items: seq<Item>, trailing: seq<string>, w: string, triggers: bool)
    requires Printable(items, triggers) && Blank(w) && forall i :: 0 <= i < |trailing| ==> IsGap(trailing[i])
    ensures Statements(PrintLines(items) + trailing, w, triggers) == Texts(items)
    decreases |items|
  {
    hide WellFormed;
    hide Statements;
    if items == [] {
      var w' := GapReads(trailing, [], w, triggers);
      assert PrintLines(items) + trailing == trailing + [];
      NoLines(w', triggers);
    } else {
      ItemLines(items[0].lines, triggers);
      var lines := items[0].lines;
      var k := |lines| - 1;
      var rest := PrintLines(items[1..]) + trailing;
      var more := lines[..k] + ([lines[k] + ";"] + rest);
      assert PrintLines(items) + trailing == items[0].gap + more;
      var w' := GapReads(items[0].gap, more, w, triggers);
      StatementReads(lines, 0, w', rest, triggers);
      assert lines[0..k] == lines[..k] && w' + Buffered(lines, 0) == w';
      LinesReadBack(items[1..], trailing, "", triggers);
    }
  }

  lemma NoLines(w: string, triggers: bool)
    ensures Statements([], w, triggers) == []
  {
  }

  lemma ItemLines(lines: seq<string>, triggers: bool)
    requires WellFormed(lines, triggers)
    ensures lines != []
  {
  }

  predicate NoBreaks(lines: seq<string>) {
    forall i :: 0 <= i < |lines| ==> '\n' !in lines[i]
  }

  lemma NoBreaksOver(a: seq<string>, b: seq<string>)
    requires NoBreaks(a) && NoBreaks(b)
    ensures NoBreaks(a + b)
  {
  }

  lemma ItemHasNoBreaks(item: Item, triggers: bool)
    requires WellFormed(item.lines, triggers) && forall i :: 0 <= i < |item.gap| ==> IsGap(item.gap[i])
    ensures var k := |item.lines| - 1;
            k >= 0 && NoBreaks(item.gap) && NoBreaks(item.lines[..k]) && NoBreaks([item.lines[k] + ";"])
  {
    hide IsComment;
    hide GoesOn;
    hide Trimmed;
    hide OpenTrigger;
    hide Blank;
  }

  lemma PrintedHasNoBreaks(items: seq<Item>, triggers: bool)
    requires Printable(items, triggers)
    ensures NoBreaks(PrintLines(items))
  {
    hide WellFormed;
    hide NoBreaks;
    hide IsGap;
    if items == [] {
      NoLinesNoBreaks();
    } else {
      PrintedHasNoBreaks(items[1..], triggers);
      ItemHasNoBreaks(items[0], triggers);
      var lines, rest := items[0].lines, PrintLines(items[1..]);
      var k := |lines| - 1;
      NoBreaksOver([lines[k] + ";"], rest);
      NoBreaksOver(lines[..k], [lines[k] + ";"] + rest);
      NoBreaksOver(items[0].gap, lines[..k] + ([lines[k] + ";"] + rest));
    }
  }

  lemma NoLinesNoBreaks()
    ensures NoBreaks([])
  {
  }

  /** Printing well-formed statements between comment and blank lines and reading the file gives the list. */
  lemma FileReadsBack(items: seq<Item>, trailing: seq<string>, triggers: bool)
    requires Printable(items, triggers) && items != []
    requires trailing != [] && forall i :: 0 <= i < |trailing| ==> IsGap(trailing[i])
    ensures ReadFixture(PrintFile(items, trailing), triggers) == Some(Texts(items))
  {
    hide WellFormed;
    hide Statements;
    PrintedHasNoBreaks(items, triggers);
    assert NoBreaks(trailing) by { assert forall i :: 0 <= i < |trailing| ==> IsGap(trailing[i]); }
    NoBreaksOver(PrintLines(items), trailing);
    SplitJoins(PrintLines(items) + trailing);
    LinesReadBack(items, trailing, "", triggers);
  }

  // ---------------------------------------------------------------- what is read is well-formed

  lemma TrimStartOver(a: string, more: string)
    ensures TrimStart(a + more) == if TrimStart(a) == "" then TrimStart(more) else TrimStart(a) + more
  {
    if TrimStart(a) == "" {
      AllSpaces(a);
      TrimStartSkips(a, more);
    } else {
      TrimStartOfPrefix(a, more);
      var n := |a| - |TrimStart(a)|;
      assert (a + more)[n..] == a[n..] + more;
    }
  }

  lemma AllSpaces(a: string)
    ensures TrimStart(a) == "" <==> Blank(a)
  {
    TrimStartDropsSpaces(a);
    var t := TrimStart(a);
    assert t != "" ==> t[0] in a;
  }

  lemma CommentAt(line: string)
    ensures var t := TrimStart(line);
            IsComment(line) <==> |t| >= 2 && t[0] == '-' && t[1] == '-'
  {
    hide IsSpace;
    hide TrimStart;
    hide TrimEnd;
    var t := TrimStart(line);
    DashIsNoSpace();
    if |t| >= 2 && t[1] == '-' {
      assert |TrimEnd(t)| >= 2;
    }
  }

  lemma DashIsNoSpace()
    ensures !IsSpace('-')
  {
  }

  lemma CommentGrows(a: string, more: string)
    ensures IsComment(a) ==> IsComment(a + more)
    ensures '-' !in more && IsComment(a + more) ==> IsComment(a)
  {
    CommentAt(a);
    CommentAt(a + more);
    TrimStartOver(a, more);
    hide IsComment;
    if '-' !in more {
      forall c | c in TrimStart(more) ensures c != '-' {
      }
      var t, t' := TrimStart(a), TrimStart(a + more);
      if |t'| >= 2 && t != "" && |t| < 2 {
        assert t'[1] == more[0];
      } else if |t'| >= 2 && t == "" {
        assert t'[0] in t';
      }
    }
  }

  /** White space after it changes nothing about a trigger that is open. */
  lemma OpenStaysOpen(t: string, spaces: string)
    requires Blank(spaces) && OpenTrigger(t)
    ensures OpenTrigger(t + spaces)
  {
    TrimEndDrops(t, spaces);
    HeaderGrows(t, spaces);
  }

  lemma TrimEndDrops(t: string, spaces: string)
    requires Blank(spaces)
    ensures TrimEnd(t + spaces) == TrimEnd(t)
    decreases |spaces|
  {
    if spaces == "" {
      assert t + spaces == t;
    } else {
      LastOf(t, spaces);
      assert spaces[|spaces| - 1] in spaces;
      TrimEndDrops(t, spaces[..|spaces| - 1]);
    }
  }

  lemma AfterWordGrows(s: string, more: string, word: string)
    requires AfterWord(s, word).Some? && AfterWord(s, word).value != ""
    ensures AfterWord(s + more, word) == Some(AfterWord(s, word).value + more)
  {
    assert (s + more)[..|word|] == s[..|word|];
    assert (s + more)[|word|] == s[|word|];
    assert (s + more)[|word|..] == s[|word|..] + more;
    TrimStartOver(s[|word|..], more);
  }

  lemma TriggerWordGrows(s: string, spaces: string)
    requires Blank(spaces) && TriggerWord(s)
    ensures TriggerWord(s + spaces) && s != ""
  {
    assert (s + spaces)[..7] == s[..7];
    if |s| == 7 && spaces != "" {
      assert (s + spaces)[7] == spaces[0] && spaces[0] in spaces;
    }
  }

  lemma HeaderGrows(t: string, spaces: string)
    requires Blank(spaces) && TriggerHeader(t)
    ensures TriggerHeader(t + spaces)
  {
    hide Opens;
    TrimStartOver(t, spaces);
    var s := TrimStart(t);
    assert s != "" by { HeaderIsNotBlank(t); }
    var rest := AfterWord(s, "create").value;
    assert rest != "" by { WordsFollow(rest); }
    AfterWordGrows(s, spaces, "create");
    if TriggerWord(rest) {
      TriggerWordGrows(rest, spaces);
    } else {
      var temp := AfterWord(rest, "temp");
      var word := if temp.Some? && TriggerWord(temp.value) then "temp" else "temporary";
      TriggerWordGrows(AfterWord(rest, word).value, spaces);
      AfterWordGrows(rest, spaces, word);
    }
  }

  lemma WordsFollow(rest: string)
    ensures !TriggerWord("")
    ensures AfterWord("", "temp").None? && AfterWord("", "temporary").None?
  {
  }

  lemma BufferedAlike(a: seq<string>, b: seq<string>, n: nat)
    requires n <= |a| && n <= |b| && a[..n] == b[..n]
    ensures Buffered(a, n) == Buffered(b, n)
  {
    if n > 0 {
      assert a[..n][..n - 1] == a[..n - 1] && b[..n][..n - 1] == b[..n - 1];
      assert a[..n][n - 1] == a[n - 1] && b[..n][n - 1] == b[n - 1];
      BufferedAlike(a, b, n - 1);
    }
  }

  lemma GoesOnAlike(a: seq<string>, b: seq<string>, i: nat, triggers: bool)
    requires i < |a| && i < |b| && a[..i + 1] == b[..i + 1]
    ensures GoesOn(a, i, triggers) == GoesOn(b, i, triggers)
  {
    hide IsComment;
    hide OpenTrigger;
    hide BeforeSemicolon;
    hide Buffered;
    assert a[..i + 1][..i] == a[..i] && b[..i + 1][..i] == b[..i];
    assert a[..i + 1][i] == a[i] && b[..i + 1][i] == b[i];
    BufferedAlike(a, b, i);
  }

  predicate Starts(line: string) {
    line != "" && !IsSpace(line[0])
  }

  /** The lines of a statement not yet closed. */
  predicate Part(lines: seq<string>, triggers: bool) {
    && NoBreaks(lines)
    && (lines != [] ==> Starts(lines[0]))
    && (forall i :: 0 <= i < |lines| ==> GoesOn(lines, i, triggers))
  }

  lemma OneHasNoBreaks(line: string)
    requires '\n' !in line
    ensures NoBreaks([line])
  {
  }

  lemma PartGrows(lines: seq<string>, line: string, triggers: bool)
    requires Part(lines, triggers) && '\n' !in line && !IsComment(line)
    requires lines == [] ==> Starts(line)
    requires BeforeSemicolon(line).Some? ==>
               triggers && OpenTrigger(Buffered(lines, |lines|) + BeforeSemicolon(line).value)
    ensures Part(lines + [line], triggers)
  {
    hide GoesOn;
    hide OpenTrigger;
    hide BeforeSemicolon;
    hide IsComment;
    hide NoBreaks;
    hide Starts;
    hide Buffered;
    var longer := lines + [line];
    OneHasNoBreaks(line);
    NoBreaksOver(lines, [line]);
    forall i | 0 <= i < |longer| ensures GoesOn(longer, i, triggers) {
      if i < |lines| {
        assert longer[..i + 1] == lines[..i + 1];
        GoesOnAlike(longer, lines, i, triggers);
      } else {
        LastGoesOn(lines, line, triggers);
      }
    }
  }

  lemma LastGoesOn(lines: seq<string>, line: string, triggers: bool)
    requires !IsComment(line)
    requires BeforeSemicolon(line).Some? ==>
               triggers && OpenTrigger(Buffered(lines, |lines|) + BeforeSemicolon(line).value)
    ensures GoesOn(lines + [line], |lines|, triggers)
  {
    hide IsComment;
    hide OpenTrigger;
    hide BeforeSemicolon;
    hide Buffered;
    assert (lines + [line])[..|lines|] == lines == lines[..|lines|];
    BufferedAlike(lines + [line], lines, |lines|);
  }

  lemma PartShrinks(lines: seq<string>, triggers: bool)
    requires Part(lines, triggers) && lines != []
    ensures var k := |lines| - 1;
            && Part(lines[..k], triggers) && '\n' !in lines[k] && !IsComment(lines[k])
            && (lines[..k] == [] ==> Starts(lines[k]))
            && Buffered(lines, |lines|) == Buffered(lines[..k], k) + lines[k] + "\n"
  {
    hide OpenTrigger;
    hide BeforeSemicolon;
    hide IsComment;
    hide Starts;
    var k := |lines| - 1;
    var before := lines[..k];
    BufferedAlike(lines, before, k);
    assert GoesOn(lines, k, triggers);
    forall i | 0 <= i < |before| ensures GoesOn(before, i, triggers) {
      assert before[..i + 1] == lines[..i + 1];
      GoesOnAlike(before, lines, i, triggers);
    }
  }

  lemma TrimEndReaches(a: string, x: string)
    requires TrimEnd(x) != ""
    ensures TrimEnd(a + x) == a + TrimEnd(x)
    decreases |x|
  {
    hide IsSpace;
    LastOf(a, x);
    if IsSpace(x[|x| - 1]) {
      TrimEndReaches(a, x[..|x| - 1]);
    }
  }

  lemma BlankAtEnd(x: string)
    ensures TrimEnd(x) == "" <==> Blank(x)
  {
    if TrimEnd(x) != "" {
      assert x[|TrimEnd(x)| - 1] in x;
    } else {
      assert forall i :: 0 <= i < |x| ==> IsSpace(x[i]);
    }
  }

  lemma JoinedLast(before: seq<string>, last: string)
    ensures Joined(before + [last]) == Buffered(before, |before|) + last
  {
    var lines, k := before + [last], |before|;
    BufferedAndLast(lines, k);
    assert lines[k..] == [last] && lines[..k] == before == before[..k];
    BufferedAlike(lines, before, k);
  }

  /** A statement's lines with their last one trimmed are well-formed. */
  lemma ClosedIsWellFormed(before: seq<string>, last: string, triggers: bool)
    requires Part(before, triggers) && '\n' !in last && !IsComment(last + ";")
    requires last != "" && !IsSpace(last[|last| - 1]) && (before == [] ==> Starts(last))
    requires triggers ==> !OpenTrigger(Buffered(before, |before|) + last)
    ensures WellFormed(before + [last], triggers)
  {
    hide OpenTrigger;
    hide BeforeSemicolon;
    hide IsComment;
    hide GoesOn;
    hide Buffered;
    hide NoBreaks;
    hide IsSpace;
    var lines := before + [last];
    JoinedLast(before, last);
    ClosedHasNoBreaks(before, last);
    ClosedIsTrimmed(before, last);
    forall i | 0 <= i < |lines| - 1 ensures GoesOn(lines, i, triggers) {
      assert lines[..i + 1] == before[..i + 1];
      GoesOnAlike(lines, before, i, triggers);
    }
  }

  lemma ClosedHasNoBreaks(before: seq<string>, last: string)
    requires NoBreaks(before) && '\n' !in last
    ensures forall i :: 0 <= i < |before + [last]| ==> '\n' !in (before + [last])[i]
  {
  }

  lemma ClosedIsTrimmed(before: seq<string>, last: string)
    requires last != "" && !IsSpace(last[|last| - 1])
    requires if before == [] then Starts(last) else Starts(before[0])
    ensures Trimmed(Buffered(before, |before|) + last)
  {
    hide IsSpace;
    hide Buffered;
    var text := Buffered(before, |before|) + last;
    assert text[|text| - 1] == last[|last| - 1];
    if before == [] {
      NothingBuffered(before);
      assert text == last;
    } else {
      BufferedStarts(before, |before|);
      assert text[0] == before[0][0];
    }
  }

  lemma BufferedStarts(lines: seq<string>, n: nat)
    requires 0 < n <= |lines| && lines[0] != ""
    ensures Buffered(lines, n) != "" && Buffered(lines, n)[0] == lines[0][0]
  {
    if n > 1 {
      BufferedStarts(lines, n - 1);
    }
  }

  lemma {:induction false} EndsWell(before: seq<string>, last: string, triggers: bool)
    requires Part(before, triggers) && '\n' !in last && !IsComment(last) && (before == [] ==> Starts(last))
    requires triggers ==> !OpenTrigger(Buffered(before, |before|) + last)
    ensures WellFormed(SplitLines(TrimEnd(Buffered(before, |before|) + last)), triggers)
    decreases |before|
  {
    hide *;
    BlankAtEnd(last);
    StartsNotBlank(last);
    var text := Buffered(before, |before|) + last;
    if TrimEnd(last) == "" {
      PartShrinks(before, triggers);
      var k := |before| - 1;
      var shorter := Buffered(before[..k], k) + before[k];
      assert text == shorter + ("\n" + last);
      BlankWithBreak(last);
      TrimEndDrops(shorter, "\n" + last);
      if OpenTrigger(shorter) {
        OpenStaysOpen(shorter, "\n" + last);
      }
      EndsWell(before[..k], before[k], triggers);
    } else {
      var t := TrimEnd(last);
      var spaces := last[|t|..];
      assert last == t + spaces;
      TrimEndReaches(Buffered(before, |before|), last);
      TrimmedAway(last);
      if OpenTrigger(Buffered(before, |before|) + t) {
        assert text == Buffered(before, |before|) + t + spaces;
        OpenStaysOpen(Buffered(before, |before|) + t, spaces);
      }
      CommentGrows(t, spaces);
      CommentGrows(t, ";");
      ClosedIsWellFormed(before, t, triggers);
      JoinedLast(before, t);
      WellFormedSplits(before + [t], triggers);
    }
  }

  lemma StartsNotBlank(line: string)
    ensures Starts(line) ==> !Blank(line)
  {
    assert line != "" ==> line[0] in line;
  }

  lemma BlankWithBreak(line: string)
    requires Blank(line)
    ensures Blank("\n" + line)
  {
  }

  lemma TrimmedAway(line: string)
    ensures var t := TrimEnd(line);
            && Blank(line[|t|..]) && (Starts(line) && t != "" ==> Starts(t))
            && ('\n' !in line ==> '\n' !in t)
  {
  }

  lemma WellFormedSplits(lines: seq<string>, triggers: bool)
    requires WellFormed(lines, triggers)
    ensures SplitLines(Joined(lines)) == lines
  {
    hide OpenTrigger;
    hide IsComment;
    hide GoesOn;
    hide Trimmed;
    SplitJoins(lines);
  }

  /** Where in the buffer the white space in front of a line goes makes no difference. */
  lemma LeadMoves(lead: string, t: string, w: string, triggers: bool)
    requires Blank(lead) && Starts(t) && !IsComment(lead + t)
    ensures !IsComment(t) && TakeLine(lead + t, w, triggers) == TakeLine(t, w + lead, triggers)
  {
    hide *;
    LeadIsNoComment(lead, t);
    LeadBeforeSemicolon(lead, t);
    var body := BeforeSemicolon(t);
    if body.Some? {
      assert w + (lead + body.value) == w + lead + body.value;
    }
    assert w + (lead + t) + "\n" == w + lead + t + "\n";
    SameTurn(lead + t, w, t, w + lead, triggers);
  }

  lemma LeadIsNoComment(lead: string, t: string)
    requires Blank(lead) && Starts(t)
    ensures IsComment(lead + t) == IsComment(t)
  {
    CommentAt(lead + t);
    CommentAt(t);
    AllSpaces(lead);
    TrimStartOver(lead, t);
  }

  lemma LeadBeforeSemicolon(lead: string, t: string)
    requires Blank(lead) && Starts(t)
    ensures BeforeSemicolon(lead + t)
            == if BeforeSemicolon(t).None? then None else Some(lead + BeforeSemicolon(t).value)
  {
    BlankAtEnd(t);
    StartsNotBlank(t);
    TrimEndReaches(lead, t);
    LastOf(lead, TrimEnd(t));
  }

  lemma SameTurn(a: string, before: string, b: string, before': string, triggers: bool)
    requires !IsComment(a) && !IsComment(b) && before + a + "\n" == before' + b + "\n"
    requires BeforeSemicolon(a).None? == BeforeSemicolon(b).None?
    requires BeforeSemicolon(a).Some? ==> before + BeforeSemicolon(a).value == before' + BeforeSemicolon(b).value
    ensures TakeLine(a, before, triggers) == TakeLine(b, before', triggers)
  {
    hide IsComment;
    hide BeforeSemicolon;
    hide OpenTrigger;
    hide Trim;
  }

  /** The buffer as it stands: white space and the lines of a statement not yet closed. */
  predicate Holds(buffer: string, w: string, lines: seq<string>, triggers: bool) {
    Blank(w) && Part(lines, triggers) && buffer == w + Buffered(lines, |lines|)
  }

  predicate AllWellFormed(statements: seq<string>, triggers: bool) {
    forall k :: 0 <= k < |statements| ==> WellFormed(SplitLines(statements[k]), triggers)
  }

  lemma NoneIllFormed(triggers: bool)
    ensures AllWellFormed([], triggers) && Holds("", "", [], triggers)
  {
  }

  lemma OneWellFormed(statement: string, triggers: bool)
    requires WellFormed(SplitLines(statement), triggers)
    ensures AllWellFormed([statement], triggers)
  {
  }

  lemma PartGoesOn(line: string, w: string, lines: seq<string>, triggers: bool)
    requires Holds(w + Buffered(lines, |lines|), w, lines, triggers)
    requires '\n' !in line && !IsComment(line) && (lines == [] ==> Starts(line))
    requires BeforeSemicolon(line).Some? ==>
               triggers && OpenTrigger(w + Buffered(lines, |lines|) + BeforeSemicolon(line).value)
    ensures var turn := TakeLine(line, w + Buffered(lines, |lines|), triggers);
            turn.done == [] && Holds(turn.buffer, w, lines + [line], triggers)
  {
    hide TakeLine;
    hide Buffered;
    hide IsComment;
    hide OpenTrigger;
    hide BeforeSemicolon;
    hide Part;
    hide Starts;
    hide Blank;
    var before := Buffered(lines, |lines|);
    var body := BeforeSemicolon(line);
    TurnContinues(line, w + before, triggers);
    if body.Some? {
      assert w + before + body.value == w + (before + body.value);
      OpenIgnoresLead(w, before + body.value);
    }
    PartGrows(lines, line, triggers);
    BufferedOneMore(lines, line);
    LineOn(w, before, line);
  }

  lemma BufferedOneMore(lines: seq<string>, line: string)
    ensures Buffered(lines + [line], |lines| + 1) == Buffered(lines, |lines|) + line + "\n"
  {
    assert (lines + [line])[..|lines|] == lines == lines[..|lines|];
    BufferedAlike(lines + [line], lines, |lines|);
  }

  lemma BodyStarts(line: string)
    requires BeforeSemicolon(line).Some?
    ensures var body := BeforeSemicolon(line).value;
            && (IsComment(body) ==> IsComment(line))
            && ('\n' !in line ==> '\n' !in body)
            && (Starts(line) ==> body == "" || Starts(body))
  {
    var body := BeforeSemicolon(line).value;
    assert line == body + line[|body|..];
    CommentGrows(body, line[|body|..]);
    hide IsComment;
  }

  lemma PartCloses(line: string, w: string, lines: seq<string>, triggers: bool)
    requires Holds(w + Buffered(lines, |lines|), w, lines, triggers)
    requires '\n' !in line && !IsComment(line) && (lines == [] ==> Starts(line))
    requires BeforeSemicolon(line).Some?
    requires triggers ==> !OpenTrigger(w + Buffered(lines, |lines|) + BeforeSemicolon(line).value)
    ensures var turn := TakeLine(line, w + Buffered(lines, |lines|), triggers);
            turn.buffer == "" && AllWellFormed(turn.done, triggers)
  {
    hide *;
    var body := BeforeSemicolon(line).value;
    HoldsPart(w + Buffered(lines, |lines|), w, lines, triggers);
    var text := Buffered(lines, |lines|) + body;
    BodyStarts(line);
    assert w + Buffered(lines, |lines|) + body == w + text;
    OpenIgnoresLead(w, text);
    NoneIllFormed(triggers);
    if lines == [] && body == "" {
      assert w + text == w by { NothingBuffered(lines); }
      BlankIffTrimsAway(w);
      ClosingTakes(line, w + Buffered(lines, |lines|), triggers);
    } else {
      EndsWell(lines, body, triggers);
      TextStarts(lines, body);
      TrimsToEnd(w, text);
      OneWellFormed(TrimEnd(text), triggers);
      ClosingTakes(line, w + Buffered(lines, |lines|), triggers);
    }
  }

  lemma NothingBuffered(lines: seq<string>)
    ensures Buffered([], 0) == ""
  {
  }

  lemma HoldsPart(buffer: string, w: string, lines: seq<string>, triggers: bool)
    requires Holds(buffer, w, lines, triggers)
    ensures Blank(w) && Part(lines, triggers) && buffer == w + Buffered(lines, |lines|)
    ensures lines != [] ==> Starts(lines[0])
  {
    hide GoesOn;
    hide NoBreaks;
  }

  lemma TextStarts(lines: seq<string>, body: string)
    requires if lines == [] then Starts(body) else Starts(lines[0])
    ensures Starts(Buffered(lines, |lines|) + body)
  {
    hide IsSpace;
    if lines != [] {
      BufferedStarts(lines, |lines|);
    } else {
      assert "" + body == body;
    }
  }

  lemma TrimsToEnd(w: string, text: string)
    requires Blank(w) && Starts(text)
    ensures Trim(w + text) == TrimEnd(text)
  {
    TrimStartSkips(w, text);
  }

  lemma ClosingTakes(line: string, buffer: string, triggers: bool)
    requires !IsComment(line) && BeforeSemicolon(line).Some?
    requires triggers ==> !OpenTrigger(buffer + BeforeSemicolon(line).value)
    ensures var statement := Trim(buffer + BeforeSemicolon(line).value);
            TakeLine(line, buffer, triggers) == Turn(if statement != "" then [statement] else [], "")
  {
    hide IsComment;
    hide BeforeSemicolon;
    hide OpenTrigger;
    hide Trim;
  }

  lemma TurnReadsWell(line: string, buffer: string, w: string, lines: seq<string>, triggers: bool)
    returns (w': string, lines': seq<string>)
    requires '\n' !in line && Holds(buffer, w, lines, triggers)
    ensures var turn := TakeLine(line, buffer, triggers);
            Holds(turn.buffer, w', lines', triggers) && AllWellFormed(turn.done, triggers)
  {
    hide *;
    w', lines' := w, lines;
    HoldsPart(buffer, w, lines, triggers);
    NoneIllFormed(triggers);
    CommentTurn(line, buffer, triggers);
    if !IsComment(line) {
      if lines == [] && Blank(line) {
        w' := w + line + "\n";
        BlankTurn(line, buffer, w, triggers);
      } else if lines == [] {
        var t := TrimStart(line);
        var lead := line[..|line| - |t|];
        SplitLead(line);
        LeadMoves(lead, t, w, triggers);
        NoPartHolds(buffer, w, lead, triggers);
        w', lines' := OpenTurn(t, w + lead, [], triggers);
      } else {
        w', lines' := OpenTurn(line, w, lines, triggers);
      }
    }
  }

  lemma OpenTurn(line: string, w: string, lines: seq<string>, triggers: bool) returns (w': string, lines': seq<string>)
    requires Holds(w + Buffered(lines, |lines|), w, lines, triggers)
    requires '\n' !in line && !IsComment(line) && (lines == [] ==> Starts(line))
    ensures var turn := TakeLine(line, w + Buffered(lines, |lines|), triggers);
            Holds(turn.buffer, w', lines', triggers) && AllWellFormed(turn.done, triggers)
  {
    hide *;
    NoneIllFormed(triggers);
    var body := BeforeSemicolon(line);
    if body.Some? && !(triggers && OpenTrigger(w + Buffered(lines, |lines|) + body.value)) {
      PartCloses(line, w, lines, triggers);
      w', lines' := "", [];
    } else {
      PartGoesOn(line, w, lines, triggers);
      w', lines' := w, lines + [line];
    }
  }

  lemma CommentTurn(line: string, buffer: string, triggers: bool)
    ensures IsComment(line) ==> TakeLine(line, buffer, triggers) == Turn([], buffer)
  {
  }

  lemma BlankTurn(line: string, buffer: string, w: string, triggers: bool)
    requires Blank(line) && Holds(buffer, w, [], triggers)
    ensures TakeLine(line, buffer, triggers).done == []
    ensures Holds(TakeLine(line, buffer, triggers).buffer, w + line + "\n", [], triggers)
  {
    hide BeforeSemicolon;
    hide IsComment;
    hide Trim;
    BlankLine(line);
    assert buffer == w + "" == w;
  }

  lemma SplitLead(line: string)
    ensures var t := TrimStart(line);
            var lead := line[..|line| - |t|];
            && Blank(lead) && line == lead + t && (!Blank(line) ==> Starts(t)) && ('\n' !in line ==> '\n' !in t)
  {
    TrimStartDropsSpaces(line);
    AllSpaces(line);
  }

  lemma NoPartHolds(buffer: string, w: string, lead: string, triggers: bool)
    requires Holds(buffer, w, [], triggers) && Blank(lead)
    ensures buffer == w && Holds(w + lead + Buffered([], 0), w + lead, [], triggers)
    ensures w + lead + Buffered([], 0) == w + lead
  {
  }

  /** Whatever lines are read, every statement read of them is well-formed. */
  lemma {:induction false} ReadIsWellFormed(file: seq<string>, buffer: string, w: string, lines: seq<string>,
          triggers: bool)
    requires NoBreaks(file) && Holds(buffer, w, lines, triggers)
    ensures AllWellFormed(Statements(file, buffer, triggers), triggers)
    decreases |file|
  {
    hide *;
    NoLines(buffer, triggers);
    NoneIllFormed(triggers);
    if file != [] {
      RestHasNoBreaks(file);
      var w', lines' := TurnReadsWell(file[0], buffer, w, lines, triggers);
      var turn := TakeLine(file[0], buffer, triggers);
      ReadIsWellFormed(file[1..], turn.buffer, w', lines', triggers);
      assert file == [file[0]] + file[1..];
      FirstTurn(file[0], file[1..], buffer, triggers);
      BothWellFormed(turn.done, Statements(file[1..], turn.buffer, triggers), triggers);
    }
  }

  lemma RestHasNoBreaks(file: seq<string>)
    requires NoBreaks(file) && file != []
    ensures '\n' !in file[0] && NoBreaks(file[1..])
  {
  }

  lemma BothWellFormed(a: seq<string>, b: seq<string>, triggers: bool)
    requires AllWellFormed(a, triggers) && AllWellFormed(b, triggers)
    ensures AllWellFormed(a + b, triggers)
  {
    hide WellFormed;
    hide SplitLines;
  }

  // ---------------------------------------------------------------- exactly what reads back

  /** Any statements as files hold them: no outer white space, at least one line, gaps between. */
  predicate Separated(items: seq<Item>) {
    forall k :: 0 <= k < |items| ==>
      && items[k].lines != [] && NoBreaks(items[k].lines) && Trimmed(Joined(items[k].lines))
      && forall i :: 0 <= i < |items[k].gap| ==> IsGap(items[k].gap[i])
  }

  predicate EachWellFormed(items: seq<Item>, triggers: bool) {
    forall k :: 0 <= k < |items| ==> WellFormed(items[k].lines, triggers)
  }

  lemma PrintableIff(items: seq<Item>, triggers: bool)
    requires Separated(items)
    ensures Printable(items, triggers) <==> EachWellFormed(items, triggers)
  {
    hide WellFormed;
    hide NoBreaks;
    hide Trimmed;
    hide IsGap;
  }

  lemma TextAt(items: seq<Item>, k: nat)
    requires Separated(items) && k < |items|
    ensures |Texts(items)| == |items| && Texts(items)[k] == Joined(items[k].lines)
    ensures SplitLines(Texts(items)[k]) == items[k].lines
  {
    hide IsGap;
    hide Trimmed;
    if k > 0 {
      TextAt(items[1..], k - 1);
    } else if |items| > 1 {
      TextAt(items[1..], 0);
    }
    SplitJoins(items[k].lines);
  }

  lemma SplitHasNoBreaks(text: string)
    ensures NoBreaks(SplitLines(text))
  {
    JoinedSplits(text);
  }

  /**
   Main result. For any list of statements without outer white space, between any comment and
   blank lines: printing them and reading the file gives exactly the list if and only if each
   is well-formed for the reader.
   */
  lemma FileReadsBackIff(items: seq<Item>, trailing: seq<string>, triggers: bool)
    requires Separated(items) && items != []
    requires trailing != [] && forall i :: 0 <= i < |trailing| ==> IsGap(trailing[i])
    ensures ReadFixture(PrintFile(items, trailing), triggers) == Some(Texts(items)) <==> EachWellFormed(items, triggers)
  {
    PrintableIff(items, triggers);
    hide WellFormed;
    hide Printable;
    hide Statements;
    hide IsGap;
    hide PrintFile;
    hide Texts;
    hide Holds;
    hide NoBreaks;
    if EachWellFormed(items, triggers) {
      FileReadsBack(items, trailing, triggers);
    } else if ReadFixture(PrintFile(items, trailing), triggers) == Some(Texts(items)) {
      var file := SplitLines(PrintFile(items, trailing));
      SplitHasNoBreaks(PrintFile(items, trailing));
      NoneIllFormed(triggers);
      ReadIsWellFormed(file, "", "", [], triggers);
      forall k | 0 <= k < |items| ensures WellFormed(items[k].lines, triggers) {
        TextAt(items, k);
        assert WellFormed(SplitLines(Texts(items)[k]), triggers);
      }
    }
  }

  lemma EndIsSeen(before: string, body: string)
    requires EndsWithEnd(body) && (before == "" || before[|before| - 1] == '\n')
    ensures EndsWithEnd(before + body)
  {
    hide IsSpace;
    hide Lower;
    hide TrimEnd;
    TrimEndReaches(before, body);
    var t := TrimEnd(body);
    var all := before + t;
    assert all[|all| - 3..] == t[|t| - 3..];
    if |t| > 3 {
      assert all[|all| - 4] == t[|t| - 4];
    } else if before != "" {
      assert all[|all| - 4] == before[|before| - 1];
    }
  }

  /** A line's own end decides whether the text so far ends with END. */
  lemma EndIsSeenIff(before: string, body: string)
    requires !Blank(body) && (before == "" || before[|before| - 1] == '\n')
    ensures EndsWithEnd(before + body) <==> EndsWithEnd(body)
  {
    hide IsSpace;
    hide TrimEnd;
    BlankAtEnd(body);
    TrimEndReaches(before, body);
    var t := TrimEnd(body);
    if |t| >= 3 || before == "" {
      LongEnough(before, t);
    } else {
      BreakIsNoEnd(before, t);
    }
  }

  lemma LongEnough(before: string, t: string)
    requires before == "" || (|t| >= 3 && before[|before| - 1] == '\n')
    ensures EndWord(before + t) <==> EndWord(t)
  {
    hide Lower;
    var all := before + t;
    if before == "" {
      assert all == t;
    } else {
      assert all[|all| - 3..] == t[|t| - 3..];
      assert all[|all| - 4] == if |t| > 3 then t[|t| - 4] else before[|before| - 1];
    }
  }

  lemma BreakIsNoEnd(before: string, t: string)
    requires before != "" && before[|before| - 1] == '\n' && 0 < |t| < 3
    ensures !EndWord(before + t) && !EndWord(t)
  {
    hide IsSpace;
    var all := before + t;
    if |all| >= 3 {
      var tail := all[|all| - 3..];
      assert tail[2 - |t|] == '\n';
      BreakIsSpace();
      SpaceIsNoLetter(tail, 2 - |t|);
    }
  }

  lemma BreakIsSpace()
    ensures IsSpace('\n')
  {
  }

  lemma BufferedEndsInBreak(lines: seq<string>, n: nat)
    requires n <= |lines|
    ensures var b := Buffered(lines, n); b == "" || b[|b| - 1] == '\n'
  {
  }

  /**
   A statement with END before a semicolon at the end of an inner line is never read back,
   not even by the reader that knows triggers.
   */
  lemma InnerEndIsNotReadBack(items: seq<Item>, trailing: seq<string>, triggers: bool, k: nat, i: nat)
    requires Separated(items) && k < |items| && i < |items[k].lines| - 1
    requires trailing != [] && forall i :: 0 <= i < |trailing| ==> IsGap(trailing[i])
    requires var body := BeforeSemicolon(items[k].lines[i]); body.Some? && EndsWithEnd(body.value)
    ensures ReadFixture(PrintFile(items, trailing), triggers) != Some(Texts(items))
  {
    hide ReadFixture;
    hide PrintFile;
    hide Texts;
    FileReadsBackIff(items, trailing, triggers);
    var lines := items[k].lines;
    var body := BeforeSemicolon(lines[i]).value;
    BufferedEndsInBreak(lines, i);
    EndIsSeen(Buffered(lines, i), body);
    assert !GoesOn(lines, i, triggers);
    assert !WellFormed(lines, triggers);
  }

  // ---------------------------------------------------------------- triggers are kept whole

  lemma LowerOver(a: string, b: string)
    ensures Lower(a + b) == Lower(a) + Lower(b) && |Lower(a)| == |a|
  {
    if a == "" {
      assert a + b == b;
    } else {
      assert (a + b)[1..] == a[1..] + b;
      LowerOver(a[1..], b);
    }
  }

  /** A word in any case, and a blank: what follows the word. */
  lemma WordRead(word: string, spelled: string, rest: string)
    requires Lower(spelled) == word && |spelled| == |word| && rest != "" && !IsSpace(rest[0])
    ensures AfterWord(spelled + " " + rest, word) == Some(rest)
  {
    hide IsSpace;
    hide Lower;
    BlankIsSpace();
    var s := spelled + " " + rest;
    assert s[..|word|] == spelled && s[|word|..] == " " + rest;
    assert (" " + rest)[1..] == rest;
    assert TrimStart(" " + rest) == TrimStart(rest) == rest;
  }

  lemma BlankIsSpace()
    ensures IsSpace(' ') && !IsWord(' ')
  {
  }

  lemma TriggerRead(spelled: string, rest: string)
    requires Lower(spelled) == "trigger" && |spelled| == 7
    ensures TriggerWord(spelled + " " + rest)
  {
    hide Lower;
    var s := spelled + " " + rest;
    assert s[..7] == spelled && s[7] == ' ';
  }

  /** CREATE, perhaps TEMP or TEMPORARY, and TRIGGER, in any case and a blank after each. */
  predicate Heads(line: string, create: string, temp: string, trigger: string, rest: string) {
    && |create| == 6 && Lower(create) == "create" && |trigger| == 7 && Lower(trigger) == "trigger"
    && (temp == "" || (|temp| == 4 && Lower(temp) == "temp") || (|temp| == 9 && Lower(temp) == "temporary"))
    && line == create + " " + ((if temp == "" then "" else temp + " ") + (trigger + " " + rest))
  }

  lemma WordStarts(word: string, lower: string)
    requires Lower(word) == lower && lower != "" && 'a' <= lower[0] <= 'z'
    ensures word != "" && !IsSpace(word[0])
  {
    if word != "" {
      LetterStarts(word);
    }
  }

  lemma LetterStarts(word: string)
    requires word != "" && 'a' <= Lower(word)[0] <= 'z'
    ensures !IsSpace(word[0])
  {
  }

  lemma LowerStarts(create: string, temp: string, trigger: string)
    requires Lower(create) == "create" && Lower(trigger) == "trigger"
    requires temp == "" || Lower(temp) == "temp" || Lower(temp) == "temporary"
    ensures create != "" && !IsSpace(create[0]) && trigger != "" && !IsSpace(trigger[0])
    ensures temp != "" ==> !IsSpace(temp[0])
  {
    hide IsSpace;
    hide Lower;
    CreateStarts(create);
    TriggerStarts(trigger);
    if temp != "" {
      TempStarts(temp);
    }
  }

  lemma CreateStarts(create: string)
    requires Lower(create) == "create"
    ensures create != "" && !IsSpace(create[0])
  {
    hide IsSpace;
    hide Lower;
    WordStarts(create, "create");
  }

  lemma TriggerStarts(trigger: string)
    requires Lower(trigger) == "trigger"
    ensures trigger != "" && !IsSpace(trigger[0])
  {
    hide IsSpace;
    hide Lower;
    WordStarts(trigger, "trigger");
  }

  lemma TempStarts(temp: string)
    requires Lower(temp) == "temp" || Lower(temp) == "temporary"
    ensures temp != "" && !IsSpace(temp[0])
  {
    hide IsSpace;
    hide Lower;
    if Lower(temp) == "temp" {
      WordStarts(temp, "temp");
    } else {
      WordStarts(temp, "temporary");
    }
  }

  /** After CREATE: TRIGGER at once, or after one of the two words. */
  lemma AfterCreateIs(temp: string, trigger: string, rest: string)
    requires |trigger| == 7 && Lower(trigger) == "trigger" && !IsSpace(trigger[0])
    requires temp == "" || (|temp| == 4 && Lower(temp) == "temp") || (|temp| == 9 && Lower(temp) == "temporary")
    ensures var next := (if temp == "" then "" else temp + " ") + (trigger + " " + rest);
            || TriggerWord(next)
            || (AfterWord(next, "temp").Some? && TriggerWord(AfterWord(next, "temp").value))
            || (AfterWord(next, "temporary").Some? && TriggerWord(AfterWord(next, "temporary").value))
  {
    hide IsSpace;
    hide Lower;
    hide AfterWord;
    hide TriggerWord;
    var last := trigger + " " + rest;
    assert last[0] == trigger[0];
    TriggerRead(trigger, rest);
    if temp == "" {
      assert "" + last == last;
    } else if |temp| == 4 {
      WordRead("temp", temp, last);
    } else {
      WordRead("temporary", temp, last);
    }
  }

  lemma HeadsIsHeader(line: string, create: string, temp: string, trigger: string, rest: string, more: string)
    requires Heads(line, create, temp, trigger, rest)
    ensures TriggerHeader(line + more)
  {
    hide IsSpace;
    hide Lower;
    hide AfterWord;
    hide TriggerWord;
    LowerStarts(create, temp, trigger);
    var next := (if temp == "" then "" else temp + " ") + (trigger + " " + (rest + more));
    HeadsOn(create, temp, trigger, rest, more);
    AfterCreateIs(temp, trigger, rest + more);
    assert next[0] == if temp == "" then trigger[0] else temp[0];
    WordRead("create", create, next);
    assert (create + " " + next)[0] == create[0];
    assert TrimStart(create + " " + next) == create + " " + next;
  }

  lemma HeadsOn(create: string, temp: string, trigger: string, rest: string, more: string)
    ensures create + " " + ((if temp == "" then "" else temp + " ") + (trigger + " " + rest)) + more
         == create + " " + ((if temp == "" then "" else temp + " ") + (trigger + " " + (rest + more)))
  {
  }

  /** A line of a trigger's body: no comment, and any semicolon at its end is after something other than END. */
  predicate BodyLine(line: string) {
    && '\n' !in line && !IsComment(line)
    && (BeforeSemicolon(line).Some? ==>
          !Blank(BeforeSemicolon(line).value) && !EndsWithEnd(BeforeSemicolon(line).value))
  }

  lemma BufferedBegins(lines: seq<string>, n: nat) returns (more: string)
    requires 0 < n <= |lines|
    ensures Buffered(lines, n) == lines[0] + more
  {
    if n == 1 {
      more := "\n";
      assert Buffered(lines, 0) == "" && "" + lines[0] + "\n" == lines[0] + more;
    } else {
      var before := BufferedBegins(lines, n - 1);
      more := before + lines[n - 1] + "\n";
    }
  }

  /** In a trigger such a line never closes the statement. */
  lemma BodyLineGoesOn(lines: seq<string>, i: nat, create: string, temp: string, trigger: string, rest: string)
    requires 0 < i < |lines| && BodyLine(lines[i]) && Heads(lines[0], create, temp, trigger, rest)
    ensures GoesOn(lines, i, true)
  {
    hide Heads;
    hide IsComment;
    hide EndsWithEnd;
    hide TriggerHeader;
    hide Blank;
    var body := BeforeSemicolon(lines[i]);
    if body.Some? {
      var more := BufferedBegins(lines, i);
      assert lines[0] + more + body.value == lines[0] + (more + body.value);
      HeadsIsHeader(lines[0], create, temp, trigger, rest, more + body.value);
      BufferedEndsInBreak(lines, i);
      EndIsSeenIff(Buffered(lines, i), body.value);
    }
  }

  /**
   The rule does what it is for: a trigger headed in any of the ways SQLite has, whose body lines
   may end in semicolons of their own but for END, and whose last line ends with END, is well-formed, so
   it is read back whole; the reader without the rule cuts it at the first of those semicolons.
   */
  lemma TriggerIsWellFormed(lines: seq<string>, create: string, temp: string, trigger: string, rest: string)
    requires |lines| > 1 && Heads(lines[0], create, temp, trigger, rest)
    requires '\n' !in lines[0] && !IsComment(lines[0]) && BeforeSemicolon(lines[0]).None?
    requires forall i :: 0 < i < |lines| - 1 ==> BodyLine(lines[i])
    requires var last := lines[|lines| - 1];
             '\n' !in last && !IsComment(last + ";") && EndsWithEnd(last) && !IsSpace(last[|last| - 1])
    ensures WellFormed(lines, true)
    ensures (exists i :: 0 < i < |lines| - 1 && BeforeSemicolon(lines[i]).Some?) ==> !WellFormed(lines, false)
  {
    hide IsComment;
    hide EndsWithEnd;
    hide OpenTrigger;
    hide Heads;
    hide BeforeSemicolon;
    hide IsSpace;
    var k := |lines| - 1;
    forall i | 0 <= i < k ensures GoesOn(lines, i, true) {
      if i == 0 {
        HeadGoesOn(lines);
      } else {
        BodyLineGoesOn(lines, i, create, temp, trigger, rest);
      }
    }
    BufferedAndLast(lines, k);
    assert lines[k..] == [lines[k]];
    var more := BufferedBegins(lines, k);
    BufferedEndsInBreak(lines, k);
    HeadBegins(lines[0], create, temp, trigger, rest);
    assert Joined(lines) == lines[0] + (more + lines[k]);
    EndedIsClosed(Buffered(lines, k), lines[k]);
    if i :| 0 < i < k && BeforeSemicolon(lines[i]).Some? {
      assert !GoesOn(lines, i, false);
    }
  }

  lemma HeadGoesOn(lines: seq<string>)
    requires lines != [] && !IsComment(lines[0]) && BeforeSemicolon(lines[0]).None?
    ensures GoesOn(lines, 0, true)
  {
  }

  lemma HeadBegins(line: string, create: string, temp: string, trigger: string, rest: string)
    requires Heads(line, create, temp, trigger, rest)
    ensures line != "" && !IsSpace(line[0])
  {
    hide IsSpace;
    LowerStarts(create, temp, trigger);
  }

  lemma EndedIsClosed(before: string, last: string)
    requires EndsWithEnd(last) && (before == "" || before[|before| - 1] == '\n')
    ensures last != "" && !OpenTrigger(before + last)
  {
    hide IsSpace;
    EndIsSeen(before, last);
  }

  /** A line that is no comment, has no semicolon at its end and no outer white space. */
  predicate Plain(line: string) {
    && '\n' !in line && Starts(line) && line[0] != '-'
    && !IsSpace(line[|line| - 1]) && line[|line| - 1] != ';'
  }

  lemma PlainLine(line: string)
    requires Plain(line)
    ensures BeforeSemicolon(line).None? && !IsComment(line) && !IsComment(line + ";")
  {
    hide IsSpace;
    hide IsComment;
    CommentAt(line);
    CommentAt(line + ";");
    assert TrimStart(line) == line && TrimStart(line + ";") == line + ";";
    assert TrimEnd(line) == line;
  }

  lemma LetterIsNoSpace(c: char)
    requires 'A' <= c <= 'Z'
    ensures !IsSpace(c)
  {
  }

  lemma PlainEnds()
    ensures Plain("END") && !OpenTrigger("END")
  {
    hide IsSpace;
    LetterIsNoSpace('E');
    LetterIsNoSpace('D');
    assert TrimStart("END") == "END";
  }

  lemma FirstHalf(head: string, inner: string)
    requires Plain(head) && Plain(inner) && EndsWithEnd(inner)
    ensures WellFormed([head, inner], true)
  {
    hide OpenTrigger;
    hide IsComment;
    hide BeforeSemicolon;
    hide IsSpace;
    PlainLine(head);
    PlainLine(inner);
    TextIsClosed(head, inner);
    var lines := [head, inner];
    assert Joined(lines) == head + "\n" + inner by { assert lines[1..] == [inner]; }
  }

  lemma TextIsClosed(head: string, inner: string)
    requires EndsWithEnd(inner)
    ensures !OpenTrigger(head + "\n" + inner)
  {
    EndIsSeen(head + "\n", inner);
  }

  lemma SecondHalf()
    ensures WellFormed(["END"], true)
  {
    hide OpenTrigger;
    hide IsComment;
    PlainEnds();
    PlainLine("END");
    assert Joined(["END"]) == "END";
  }

  lemma BlankIsGap()
    ensures IsGap("")
  {
  }

  /** A statement and its two halves, cut after an inner semicolon, are the same lines. */
  lemma CutPrintsAlike(head: string, inner: string)
    ensures PrintLines([Item([], [head, inner + ";", "END"])])
            == PrintLines([Item([], [head, inner]), Item([], ["END"])])
  {
    var whole := [Item([], [head, inner + ";", "END"])];
    var cut := [Item([], [head, inner]), Item([], ["END"])];
    assert cut[1..] == [Item([], ["END"])] && cut[1..][1..] == [] && whole[1..] == [];
    assert PrintLines(cut[1..]) == ["END" + ";"];
    assert PrintLines(cut) == [head, inner + ";", "END" + ";"];
    assert PrintLines(whole) == [head, inner + ";", "END" + ";"];
  }

  lemma CutTexts(head: string, inner: string)
    ensures Texts([Item([], [head, inner]), Item([], ["END"])]) == [head + "\n" + inner, "END"]
  {
    var cut := [Item([], [head, inner]), Item([], ["END"])];
    assert cut[1..] == [Item([], ["END"])] && cut[1..][1..] == [];
    assert Joined([head, inner]) == head + "\n" + inner by { assert [head, inner][1..] == [inner]; }
    assert Joined(["END"]) == "END";
    assert Texts(cut[1..]) == ["END"];
  }

  lemma WholeText(head: string, inner: string)
    ensures Joined([head, inner + ";", "END"]) == head + "\n" + inner + ";\nEND"
    ensures Texts([Item([], [head, inner + ";", "END"])]) == [head + "\n" + inner + ";\nEND"]
  {
    var lines := [head, inner + ";", "END"];
    assert [Item([], lines)][1..] == [];
    assert lines[1..] == [inner + ";", "END"] && lines[1..][1..] == ["END"];
    assert Joined(lines[1..]) == inner + ";" + "\n" + "END";
    assert head + "\n" + (inner + ";" + "\n" + "END") == head + "\n" + inner + ";\nEND";
  }

  lemma WholeIsSeparated(head: string, inner: string)
    requires Plain(head) && Plain(inner)
    ensures Separated([Item([], [head, inner + ";", "END"])])
  {
    hide IsSpace;
    hide Joined;
    hide OpenTrigger;
    WholeText(head, inner);
    PlainEnds();
    var text := head + "\n" + inner + ";\nEND";
    assert text[|text| - 1] == 'D' && text[0] == head[0];
    LetterIsNoSpace('D');
    assert NoBreaks([head, inner + ";", "END"]);
  }

  lemma HalvesArePrintable(head: string, inner: string)
    requires WellFormed([head, inner], true) && WellFormed(["END"], true)
    ensures Printable([Item([], [head, inner]), Item([], ["END"])], true)
  {
    hide WellFormed;
  }

  lemma CutInTwo(head: string, inner: string)
    requires Plain(head) && Plain(inner) && EndsWithEnd(inner)
    ensures var trigger := Item([], [head, inner + ";", "END"]);
            && Separated([trigger])
            && ReadFixture(PrintFile([trigger], [""]), true) == Some([head + "\n" + inner, "END"])
            && Texts([trigger]) == [head + "\n" + inner + ";\nEND"]
  {
    hide *;
    FirstHalf(head, inner);
    SecondHalf();
    WholeIsSeparated(head, inner);
    HalvesArePrintable(head, inner);
    BlankIsGap();
    FileReadsBack([Item([], [head, inner]), Item([], ["END"])], [""], true);
    CutPrintsAlike(head, inner);
    CutTexts(head, inner);
    WholeText(head, inner);
    SameFile([Item([], [head, inner + ";", "END"])], [Item([], [head, inner]), Item([], ["END"])], [""]);
  }

  lemma SameFile(a: seq<Item>, b: seq<Item>, trailing: seq<string>)
    requires forall k :: 0 <= k < |a| ==> a[k].lines != []
    requires forall k :: 0 <= k < |b| ==> b[k].lines != []
    requires trailing != [] && PrintLines(a) == PrintLines(b)
    ensures PrintFile(a, trailing) == PrintFile(b, trailing)
  {
  }

  const TRIGGER_HEAD := "CREATE TRIGGER t DELETE ON a BEGIN"
  const CASE_LINE := "SELECT CASE WHEN 1 THEN 2 END"

  lemma CaseEnds(before: string)
    ensures EndsWithEnd(before + " END")
  {
    hide IsSpace;
    LetterIsNoSpace('D');
    var t := before + " END";
    assert t[|t| - 1] == 'D';
    assert t[|t| - 3..] == "END";
    assert Lower("END") == "end";
    assert t[|t| - 4] == ' ';
  }

  lemma CaseLineEnds()
    ensures EndsWithEnd(CASE_LINE)
  {
    hide EndsWithEnd;
    CaseEnds("SELECT CASE WHEN 1 THEN 2");
    assert CASE_LINE == "SELECT CASE WHEN 1 THEN 2" + " END";
  }

  lemma CaseIsPlain()
    ensures Plain(TRIGGER_HEAD) && Plain(CASE_LINE)
  {
    hide IsSpace;
    LetterIsNoSpace('C');
    LetterIsNoSpace('D');
    LetterIsNoSpace('N');
    LetterIsNoSpace('S');
  }

  /** A trigger whose body holds a CASE expression comes back as two statements. */
  lemma CaseTriggerIsCut()
    ensures var trigger := Item([], [TRIGGER_HEAD, CASE_LINE + ";", "END"]);
            && Separated([trigger])
            && ReadFixture(PrintFile([trigger], [""]), true) == Some([TRIGGER_HEAD + "\n" + CASE_LINE, "END"])
            && Texts([trigger]) == [TRIGGER_HEAD + "\n" + CASE_LINE + ";\nEND"]
  {
    CaseIsPlain();
    CaseLineEnds();
    hide *;
    CutInTwo(TRIGGER_HEAD, CASE_LINE);
  }

  /** END counts as a word of its own: not after a letter, a digit or an underscore. */
  lemma EndIsAWord(before: string, c: char)
    ensures EndsWithEnd(before + [c] + "END")
       <==> !('a' <= c <= 'z' || 'A' <= c <= 'Z' || '0' <= c <= '9' || c == '_')
  {
    hide IsSpace;
    LetterIsNoSpace('D');
    var t := before + [c] + "END";
    assert t[|t| - 1] == 'D';
    assert TrimEnd(t) == t;
    assert t[|t| - 3..] == "END";
    assert Lower("END") == "end";
    assert t[|t| - 4] == c;
  }

  /** A file of nothing but comments and blank lines is an error, not an empty list, and no list is empty. */
  lemma OnlyGapsIsAnError(gaps: seq<string>, text: string, triggers: bool)
    requires gaps != [] && forall i :: 0 <= i < |gaps| ==> IsGap(gaps[i])
    ensures ReadFixture(Joined(gaps), triggers) == None
    ensures ReadFixture(text, triggers) != Some([])
  {
    hide Statements;
    hide IsComment;
    hide Blank;
    SplitJoins(gaps);
    NothingHeld();
    var w := GapReads(gaps, [], "", triggers);
    assert gaps + [] == gaps;
    NoLines(w, triggers);
  }

  lemma NothingHeld()
    ensures Blank("")
  {
  }
}
