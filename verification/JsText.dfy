/** The few JavaScript string operations several of the components share. */
module JsText {
  /** What JavaScript's `trim` removes. */
  predicate IsSpace(c: char) {
    || c in {'\t', '\n', '\U{0B}', '\U{0C}', '\r', ' ', '\U{A0}', '\U{1680}', '\U{FEFF}'}
    || ('\U{2000}' <= c <= '\U{200A}')
    || c in {'\U{2028}', '\U{2029}', '\U{202F}', '\U{205F}', '\U{3000}'}
  }

  function TrimStart(s: string): (t: string)
    ensures |t| <= |s| && t == s[|s| - |t|..]
    ensures t == "" || !IsSpace(t[0])
  {
    if s != "" && IsSpace(s[0]) then TrimStart(s[1..]) else s
  }

  function TrimEnd(s: string): (t: string)
    ensures t <= s
    ensures t == "" || !IsSpace(t[|t| - 1])
    ensures forall i :: |t| <= i < |s| ==> IsSpace(s[i])
  {
    if s != "" && IsSpace(s[|s| - 1]) then TrimEnd(s[..|s| - 1]) else s
  }

  function Trim(s: string): string {
    TrimEnd(TrimStart(s))
  }

  function IndexOf(s: string, c: char): (i: nat)
    ensures i <= |s| && c !in s[..i]
    ensures i < |s| ==> s[i] == c
  {
    if s == "" then 0
    else if s[0] == c then 0
    else
      var i := 1 + IndexOf(s[1..], c);
      assert s[..i] == [s[0]] + s[1..][..i - 1];
      i
  }

  predicate Blank(line: string) {
    forall c <- line :: IsSpace(c)
  }

  /** `line.trim()` is empty exactly for a blank line. */
  lemma BlankIffTrimsAway(line: string)
    ensures Blank(line) <==> Trim(line) == ""
  {
    var t := TrimStart(line);
    TrimStartDropsSpaces(line);
    assert t != "" ==> t[0] in line;
  }

  lemma TrimStartDropsSpaces(s: string)
    ensures forall i :: 0 <= i < |s| - |TrimStart(s)| ==> IsSpace(s[i])
  {
    if s != "" && IsSpace(s[0]) {
      TrimStartDropsSpaces(s[1..]);
      assert forall i :: 1 <= i < |s| ==> s[i] == s[1..][i - 1];
    }
  }

  function Lower(s: string): string {
    if s == "" then ""
    else [if 'A' <= s[0] <= 'Z' then ((s[0] as int) + 32) as char else s[0]] + Lower(s[1..])
  }

  /** A number as a template literal prints it. */
  function Decimal(n: nat): string {
    if n < 10 then [('0' as int + n) as char] else Decimal(n / 10) + [('0' as int + n % 10) as char]
  }

  function SplitLines(text: string): seq<string>
    decreases |text|
  {
    var i := IndexOf(text, '\n');
    if i == |text| then [text] else [text[..i]] + SplitLines(text[i + 1..])
  }

  /** The lines with a line feed between each two. */
  function Joined(lines: seq<string>): string {
    if lines == [] then "" else if |lines| == 1 then lines[0] else lines[0] + "\n" + Joined(lines[1..])
  }

  lemma {:induction false} JoinedSplits(text: string)
    ensures SplitLines(text) != [] && Joined(SplitLines(text)) == text
    ensures forall i :: 0 <= i < |SplitLines(text)| ==> '\n' !in SplitLines(text)[i]
    decreases |text|
  {
    var i := IndexOf(text, '\n');
    if i < |text| {
      var rest := text[i + 1..];
      JoinedSplits(rest);
      assert SplitLines(text)[1..] == SplitLines(rest);
      assert text == text[..i] + "\n" + rest;
    }
  }

  lemma {:induction false} SplitJoins(lines: seq<string>)
    requires lines != [] && forall i :: 0 <= i < |lines| ==> '\n' !in lines[i]
    ensures SplitLines(Joined(lines)) == lines
    decreases |lines|
  {
    hide SplitLines;
    if |lines| == 1 {
      LastLineSplits(lines[0]);
    } else {
      var rest := lines[1..];
      assert forall i :: 0 <= i < |rest| ==> rest[i] == lines[i + 1];
      SplitJoins(rest);
      FirstLineSplits(lines[0], Joined(rest));
    }
  }

  lemma LastLineSplits(line: string)
    requires '\n' !in line
    ensures SplitLines(line) == [line]
  {
    NoBreakInside(line);
  }

  lemma FirstLineSplits(line: string, rest: string)
    requires '\n' !in line
    ensures SplitLines(line + "\n" + rest) == [line] + SplitLines(rest)
  {
    var text := line + "\n" + rest;
    FirstBreak(line, rest);
    assert text[..|line|] == line && text[|line| + 1..] == rest;
  }

  lemma NoBreakInside(line: string)
    requires '\n' !in line
    ensures IndexOf(line, '\n') == |line|
  {
    assert forall i :: 0 <= i < |line| ==> line[i] in line;
  }

  lemma FirstBreak(line: string, rest: string)
    requires '\n' !in line
    ensures IndexOf(line + "\n" + rest, '\n') == |line|
  {
    if line != "" {
      assert (line + "\n" + rest)[1..] == line[1..] + "\n" + rest;
      assert line[0] in line && forall c <- line[1..] :: c in line;
      FirstBreak(line[1..], rest);
    }
  }

  /** The number a text of digits spells. */
  function Spelled(s: string): int {
    if s == "" then 0 else 10 * Spelled(s[..|s| - 1]) + (s[|s| - 1] as int - '0' as int)
  }

  /** A printed number spells itself, in digits alone and without a zero in front. */
  lemma DecimalReadsBack(n: nat)
    ensures Decimal(n) != "" && Spelled(Decimal(n)) == n
    ensures forall c <- Decimal(n) :: '0' <= c <= '9'
    ensures n > 0 ==> Decimal(n)[0] != '0'
  {
    if n < 10 {
      assert Decimal(n)[..0] == "";
    } else {
      DecimalReadsBack(n / 10);
      assert Decimal(n)[..|Decimal(n)| - 1] == Decimal(n / 10);
    }
  }
}
