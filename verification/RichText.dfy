/**
 Markdown as a language model writes it, read into nodes: `**bold**` and `code` inside a line,
 and headings, bullets, paragraphs and fenced code over the lines.
 */
module RichText {
  import opened Common
  import opened JsText

  // ---------------------------------------------------------------- one line

  datatype Node = Text(text: string) | Bold(text: string) | Code(text: string)

  /** What a regular expression's dot does not match. */
  predicate IsLineEnd(c: char) {
    c in {'\n', '\r', '\U{2028}', '\U{2029}'}
  }

  predicate Stars(s: string, i: nat) {
    i + 1 < |s| && s[i] == '*' && s[i + 1] == '*'
  }

  /** The first pair of stars at or after `j`, unless a line ends before it. */
  function BoldEnd(s: string, j: nat): (end: Option<nat>)
    requires j <= |s|
    ensures end.Some? ==> j <= end.value && Stars(s, end.value)
    ensures end.Some? ==> forall k :: j <= k < end.value ==> !Stars(s, k) && !IsLineEnd(s[k])
    ensures end.None? ==> forall k :: j <= k && Stars(s, k) ==> exists l :: j <= l < k && IsLineEnd(s[l])
    decreases |s| - j
  {
    if j + 1 >= |s| then None
    else if Stars(s, j) then Some(j)
    else if IsLineEnd(s[j]) then None
    else BoldEnd(s, j + 1)
  }

  /** The first backtick at or after `j`. */
  function CodeEnd(s: string, j: nat): (end: Option<nat>)
    requires j <= |s|
    ensures end.Some? ==> j <= end.value < |s| && s[end.value] == '`'
    ensures forall k :: j <= k < |s| && (end.None? || k < end.value) ==> s[k] != '`'
    decreases |s| - j
  {
    if j == |s| then None else if s[j] == '`' then Some(j) else CodeEnd(s, j + 1)
  }

  datatype Match = Match(index: nat, node: Node, next: nat)

  /** The pattern tried at one position: stars first, then a backtick. */
  function MatchAt(s: string, i: nat): (m: Option<Match>)
    requires i < |s|
    ensures m.Some? ==> m.value.index == i && i < m.value.next <= |s|
  {
    if Stars(s, i) && BoldEnd(s, i + 2).Some? then
      var end := BoldEnd(s, i + 2).value;
      Some(Match(i, Bold(s[i + 2..end]), end + 2))
    else if s[i] == '`' && CodeEnd(s, i + 1).Some? && CodeEnd(s, i + 1).value > i + 1 then
      var end := CodeEnd(s, i + 1).value;
      Some(Match(i, Code(s[i + 1..end]), end + 1))
    else None
  }

  /** The next match at or after `from`. */
  function Exec(s: string, from: nat): (m: Option<Match>)
    requires from <= |s|
    ensures m.Some? ==> from <= m.value.index < m.value.next <= |s|
    decreases |s| - from
  {
    if from == |s| then None
    else if MatchAt(s, from).Some? then MatchAt(s, from)
    else Exec(s, from + 1)
  }

  /** The nodes from position `cursor` on. */
  function InlineFrom(s: string, cursor: nat): seq<Node>
    requires cursor <= |s|
    decreases |s| - cursor
  {
    var m := Exec(s, cursor);
    if m.None? then (if cursor < |s| then [Text(s[cursor..])] else [])
    else Between(s, cursor, m.value.index) + ([m.value.node] + InlineFrom(s, m.value.next))
  }

  /** The plain text between two matches, left out when there is none. */
  function Between(s: string, cursor: nat, index: nat): seq<Node>
    requires cursor <= index <= |s|
  {
    if index > cursor then [Text(s[cursor..index])] else []
  }

  function Inline(s: string): seq<Node> {
    InlineFrom(s, 0)
  }

  method RenderInline(text: string) returns (nodes: seq<Node>)
    ensures nodes == Inline(text)
  {
    nodes := [];
    var cursor := 0;
    var match_ := Exec(text, 0);
    assert [] + InlineFrom(text, 0) == Inline(text);
    while match_.Some?
      invariant cursor <= |text| && match_ == Exec(text, cursor)
      invariant Inline(text) == nodes + InlineFrom(text, cursor)
      decreases |text| - cursor
    {
      hide Exec;
      var m := match_.value;
      ghost var before := nodes;
      if m.index > cursor {
        nodes := nodes + [Text(text[cursor..m.index])];
      }
      nodes := nodes + [m.node];
      FourParts(before, Between(text, cursor, m.index), [m.node], InlineFrom(text, m.next));
      assert nodes == before + Between(text, cursor, m.index) + [m.node];
      cursor := m.next;
      match_ := Exec(text, cursor);
    }
    if cursor < |text| {
      nodes := nodes + [Text(text[cursor..])];
    } else {
      assert nodes + [] == nodes;
    }
  }

  // ---------------------------------------------------------------- what the nodes are

  /** A node as the line holds it, marks included. */
  function Marked(node: Node): string {
    match node
    case Text(t) => t
    case Bold(t) => "**" + t + "**"
    case Code(t) => "`" + t + "`"
  }

  function Print(nodes: seq<Node>): string {
    if nodes == [] then "" else Marked(nodes[0]) + Print(nodes[1..])
  }

  /** A pair of stars opens here: another pair follows on the same line. */
  ghost predicate OpensBold(s: string, k: nat) {
    Stars(s, k) && exists j :: k + 2 <= j && Stars(s, j) && forall l :: k + 2 <= l < j ==> !IsLineEnd(s[l])
  }

  /** A backtick opens here: another one follows, and not at once. */
  ghost predicate OpensCode(s: string, k: nat) {
    k + 1 < |s| && s[k] == '`' && s[k + 1] != '`' && exists j :: k + 1 < j < |s| && s[j] == '`'
  }

  /** What a node at position `at` of the line may hold. */
  ghost predicate NodeFits(s: string, at: nat, node: Node) {
    match node
    case Text(t) => t != "" && forall k :: at <= k < at + |t| ==> !OpensBold(s, k) && !OpensCode(s, k)
    case Bold(t) => forall k :: 0 <= k < |t| ==> !IsLineEnd(t[k]) && !Stars(t + "**", k)
    case Code(t) => t != "" && '`' !in t
  }

  /** Every node fits where it stands, and plain text is in one piece. */
  ghost predicate WellChosen(s: string, at: nat, nodes: seq<Node>)
    decreases |nodes|
  {
    nodes == []
    || (&& NodeFits(s, at, nodes[0])
        && (nodes[0].Text? && |nodes| > 1 ==> !nodes[1].Text?)
        && WellChosen(s, at + |Marked(nodes[0])|, nodes[1..]))
  }

  lemma MatchIffOpens(s: string, i: nat)
    requires i < |s|
    ensures MatchAt(s, i).Some? <==> OpensBold(s, i) || OpensCode(s, i)
  {
    if Stars(s, i) && BoldEnd(s, i + 2).Some? {
      assert Stars(s, BoldEnd(s, i + 2).value);
    }
    if OpensCode(s, i) {
      assert CodeEnd(s, i + 1).Some?;
    }
  }

  /** A match is a node that fits, and its marks and text are what the line holds there. */
  lemma MatchFits(s: string, i: nat)
    requires i < |s| && MatchAt(s, i).Some?
    ensures var m := MatchAt(s, i).value;
            !m.node.Text? && NodeFits(s, i, m.node) && s[i..m.next] == Marked(m.node)
  {
    hide NodeFits;
    hide BoldEnd;
    hide CodeEnd;
    if Stars(s, i) && BoldEnd(s, i + 2).Some? {
      BoldFits(s, i, BoldEnd(s, i + 2).value);
    } else {
      CodeFits(s, i, CodeEnd(s, i + 1).value);
    }
  }

  lemma BoldFits(s: string, i: nat, end: nat)
    requires Stars(s, i) && i + 2 <= end && Stars(s, end)
    requires forall k :: i + 2 <= k < end ==> !Stars(s, k) && !IsLineEnd(s[k])
    ensures NodeFits(s, i, Bold(s[i + 2..end])) && s[i..end + 2] == Marked(Bold(s[i + 2..end]))
  {
    hide IsLineEnd;
    var t := s[i + 2..end];
    forall k | 0 <= k < |t| ensures !IsLineEnd(t[k]) && !Stars(t + "**", k) {
      assert !Stars(s, i + 2 + k) && t[k] == s[i + 2 + k];
      assert (t + "**")[k + 1] == s[i + 2 + k + 1];
    }
    assert s[i..end + 2] == "**" + t + "**";
  }

  lemma CodeFits(s: string, i: nat, end: nat)
    requires i + 1 < end < |s| && s[i] == '`' == s[end] && forall k :: i + 1 <= k < end ==> s[k] != '`'
    ensures NodeFits(s, i, Code(s[i + 1..end])) && s[i..end + 1] == Marked(Code(s[i + 1..end]))
  {
    assert s[i..end + 1] == "`" + s[i + 1..end] + "`";
  }

  /** Conversely, a fitting node whose marks and text stand there is the match. */
  lemma FitIsMatched(s: string, i: nat, node: Node)
    requires !node.Text? && NodeFits(s, i, node)
    requires i + |Marked(node)| <= |s| && s[i..i + |Marked(node)|] == Marked(node)
    ensures i < |s| && MatchAt(s, i) == Some(Match(i, node, i + |Marked(node)|))
  {
    var t, whole := node.text, Marked(node);
    Stands(s, i, whole);
    if node.Bold? {
      BoldStands(s, i, t);
    } else {
      CodeStands(s, i, t);
    }
  }

  lemma Stands(s: string, i: nat, whole: string)
    requires i + |whole| <= |s| && s[i..i + |whole|] == whole
    ensures forall k :: i <= k < i + |whole| ==> s[k] == whole[k - i]
  {
    var there := s[i..i + |whole|];
    assert forall k :: i <= k < i + |whole| ==> s[k] == there[k - i];
  }

  lemma CodeStands(s: string, i: nat, t: string)
    requires t != "" && '`' !in t
    requires i + |t| + 2 <= |s| && forall k :: i <= k < i + |t| + 2 ==> s[k] == ("`" + t + "`")[k - i]
    ensures s[i] == '`' && CodeEnd(s, i + 1) == Some(i + 1 + |t|) && s[i + 1..i + 1 + |t|] == t
  {
    forall k | i + 1 <= k < i + 1 + |t| ensures s[k] == t[k - i - 1] && s[k] != '`' {
      assert t[k - i - 1] in t;
    }
    assert s[i + 1 + |t|] == '`';
  }

  lemma BoldStands(s: string, i: nat, t: string)
    requires NodeFits(s, i, Bold(t))
    requires i + |t| + 4 <= |s| && forall k :: i <= k < i + |t| + 4 ==> s[k] == ("**" + t + "**")[k - i]
    ensures Stars(s, i) && BoldEnd(s, i + 2) == Some(i + 2 + |t|) && s[i + 2..i + 2 + |t|] == t
  {
    var inner, end := t + "**", i + 2 + |t|;
    assert s[i] == '*' && s[i + 1] == '*' && s[end] == '*' && s[end + 1] == '*';
    assert forall k :: i + 2 <= k < end + 2 ==> s[k] == inner[k - i - 2];
    forall k | i + 2 <= k < end ensures !Stars(s, k) && !IsLineEnd(s[k]) && s[k] == t[k - i - 2] {
      assert !Stars(inner, k - i - 2);
      assert s[k + 1] == inner[k + 1 - i - 2];
    }
    assert Stars(s, end);
  }

  lemma ExecSkips(s: string, from: nat, to: nat)
    requires from <= to <= |s| && forall k :: from <= k < to ==> !OpensBold(s, k) && !OpensCode(s, k)
    ensures Exec(s, from) == Exec(s, to)
    decreases |s| - from
  {
    if from < to {
      MatchIffOpens(s, from);
      ExecSkips(s, from + 1, to);
    }
  }

  lemma ExecIsFirst(s: string, from: nat)
    requires from <= |s|
    ensures var m := Exec(s, from);
            && (m.Some? ==> m == MatchAt(s, m.value.index))
            && forall k :: from <= k < (if m.Some? then m.value.index else |s|) ==> !OpensBold(s, k) && !OpensCode(s, k)
    decreases |s| - from
  {
    if from < |s| {
      MatchIffOpens(s, from);
      if MatchAt(s, from).None? {
        ExecIsFirst(s, from + 1);
      }
    }
  }

  lemma PrintStep(node: Node, rest: seq<Node>)
    ensures Print([node] + rest) == Marked(node) + Print(rest)
  {
    assert ([node] + rest)[1..] == rest;
  }

  lemma WellChosenStep(s: string, at: nat, node: Node, rest: seq<Node>)
    requires NodeFits(s, at, node) && WellChosen(s, at + |Marked(node)|, rest)
    requires node.Text? && rest != [] ==> !rest[0].Text?
    ensures WellChosen(s, at, [node] + rest)
  {
    hide NodeFits;
    assert ([node] + rest)[1..] == rest;
  }

  lemma Cut(s: string, a: nat, b: nat)
    requires a <= b <= |s|
    ensures s[a..] == s[a..b] + s[b..]
  {
  }

  /** The nodes of the rest of the line print back to it, and are well chosen. */
  lemma {:induction false} InlineIsRight(s: string, cursor: nat)
    requires cursor <= |s|
    ensures Print(InlineFrom(s, cursor)) == s[cursor..]
    ensures WellChosen(s, cursor, InlineFrom(s, cursor))
    decreases |s| - cursor
  {
    hide NodeFits;
    hide MatchAt;
    hide Marked;
    hide WellChosen;
    hide Print;
    hide Exec;
    ExecIsFirst(s, cursor);
    var m := Exec(s, cursor);
    if m.None? {
      LastTextIsRight(s, cursor);
    } else {
      var index, node, next := m.value.index, m.value.node, m.value.next;
      InlineIsRight(s, next);
      MatchFits(s, index);
      var rest := [node] + InlineFrom(s, next);
      NodeIsRight(s, index, node, next, InlineFrom(s, next));
      if index > cursor {
        TextIsRight(s, cursor, index, rest);
      } else {
        assert [] + rest == rest;
      }
    }
  }

  lemma LastTextIsRight(s: string, cursor: nat)
    requires cursor <= |s| && forall k :: cursor <= k < |s| ==> !OpensBold(s, k) && !OpensCode(s, k)
    ensures var nodes := if cursor < |s| then [Text(s[cursor..])] else [];
            Print(nodes) == s[cursor..] && WellChosen(s, cursor, nodes)
  {
    hide OpensBold;
    hide OpensCode;
    if cursor < |s| {
      var node := Text(s[cursor..]);
      assert [node][1..] == [];
      assert Print([node]) == Marked(node) + "";
    }
  }

  lemma NodeIsRight(s: string, index: nat, node: Node, next: nat, rest: seq<Node>)
    requires index < next <= |s| && s[index..next] == Marked(node) && NodeFits(s, index, node) && !node.Text?
    requires Print(rest) == s[next..] && WellChosen(s, next, rest)
    ensures Print([node] + rest) == s[index..] && WellChosen(s, index, [node] + rest)
  {
    hide NodeFits;
    hide WellChosen;
    hide Print;
    hide Marked;
    Cut(s, index, next);
    PrintStep(node, rest);
    WellChosenStep(s, index, node, rest);
  }

  lemma TextIsRight(s: string, cursor: nat, index: nat, rest: seq<Node>)
    requires cursor < index <= |s| && forall k :: cursor <= k < index ==> !OpensBold(s, k) && !OpensCode(s, k)
    requires Print(rest) == s[index..] && WellChosen(s, index, rest) && rest != [] && !rest[0].Text?
    ensures var nodes := [Text(s[cursor..index])] + rest;
            Print(nodes) == s[cursor..] && WellChosen(s, cursor, nodes)
  {
    hide OpensBold;
    hide OpensCode;
    hide WellChosen;
    hide Print;
    Cut(s, cursor, index);
    PrintStep(Text(s[cursor..index]), rest);
    WellChosenStep(s, cursor, Text(s[cursor..index]), rest);
  }

  lemma HeadChosen(s: string, at: nat, node: Node, rest: seq<Node>)
    requires WellChosen(s, at, [node] + rest)
    ensures NodeFits(s, at, node) && (node.Text? && rest != [] ==> !rest[0].Text?)
    ensures WellChosen(s, at + |Marked(node)|, rest)
  {
    hide NodeFits;
    hide Marked;
    assert ([node] + rest)[1..] == rest;
    assert rest != [] ==> ([node] + rest)[1] == rest[0];
  }

  lemma NothingLeft(s: string, cursor: nat)
    requires cursor <= |s| && Print([]) == s[cursor..]
    ensures InlineFrom(s, cursor) == []
  {
    assert |s[cursor..]| == 0;
  }

  /** Nodes that print to the rest of the line and are well chosen are the ones rendered. */
  lemma {:induction false} RightIsInline(s: string, cursor: nat, nodes: seq<Node>)
    requires cursor <= |s| && Print(nodes) == s[cursor..] && WellChosen(s, cursor, nodes)
    ensures nodes == InlineFrom(s, cursor)
    decreases |nodes|
  {
    hide NodeFits;
    hide Marked;
    hide WellChosen;
    hide Print;
    hide InlineFrom;
    hide Exec;
    if nodes == [] {
      NothingLeft(s, cursor);
    } else {
      var node, rest := nodes[0], nodes[1..];
      assert nodes == [node] + rest;
      var next := cursor + |Marked(node)|;
      PrintStep(node, rest);
      HeadChosen(s, cursor, node, rest);
      PrefixOf(s, cursor, Marked(node), Print(rest));
      RightIsInline(s, next, rest);
      if node.Text? {
        TextIsInline(s, cursor, node, rest);
      } else {
        MarkIsInline(s, cursor, node, rest);
      }
    }
  }

  lemma MarkIsInline(s: string, cursor: nat, node: Node, rest: seq<Node>)
    requires !node.Text? && NodeFits(s, cursor, node)
    requires cursor + |Marked(node)| <= |s| && s[cursor..cursor + |Marked(node)|] == Marked(node)
    requires rest == InlineFrom(s, cursor + |Marked(node)|)
    ensures [node] + rest == InlineFrom(s, cursor)
  {
    FitIsMatched(s, cursor, node);
    hide NodeFits;
    hide Marked;
    hide MatchAt;
    assert [] + ([node] + rest) == [node] + rest;
  }

  lemma PrefixOf(s: string, at: nat, first: string, rest: string)
    requires at <= |s| && s[at..] == first + rest
    ensures at + |first| <= |s| && s[at..at + |first|] == first && s[at + |first|..] == rest
  {
    var tail := s[at..];
    assert tail[..|first|] == first && tail[|first|..] == rest;
  }

  lemma TextIsInline(s: string, cursor: nat, node: Node, rest: seq<Node>)
    requires node.Text? && NodeFits(s, cursor, node) && cursor + |Marked(node)| <= |s|
    requires s[cursor..cursor + |Marked(node)|] == Marked(node)
    requires rest == InlineFrom(s, cursor + |Marked(node)|) && (rest != [] ==> !rest[0].Text?)
    ensures [node] + rest == InlineFrom(s, cursor)
  {
    hide OpensBold;
    hide OpensCode;
    var next := cursor + |node.text|;
    ExecSkips(s, cursor, next);
    ExecIsFirst(s, next);
    hide MatchAt;
    hide Exec;
    var m := Exec(s, next);
    if m.None? {
      assert next == |s| && rest == [] && s[cursor..] == node.text;
      assert [node] + rest == [node];
    } else {
      assert m.value.index == next;
      assert rest == [m.value.node] + InlineFrom(s, m.value.next);
    }
  }

  /**
   Main result for one line, on every string: printing the rendered nodes back gives the line
   exactly, and among all lists of nodes that do, the rendered one is the list in which no
   mark that opens is left as text and none closes later than it could.
   */
  lemma InlineIff(s: string, nodes: seq<Node>)
    ensures nodes == Inline(s) <==> Print(nodes) == s && WellChosen(s, 0, nodes)
  {
    assert s[0..] == s;
    InlineIsRight(s, 0);
    if Print(nodes) == s && WellChosen(s, 0, nodes) {
      RightIsInline(s, 0, nodes);
    }
  }

  // ---------------------------------------------------------------- what a line is

  predicate NoLineEnd(s: string) {
    forall i :: 0 <= i < |s| ==> !IsLineEnd(s[i])
  }

  predicate NoBacktick(s: string) {
    s == "" || (s[0] != '`' && NoBacktick(s[1..]))
  }

  /** The info string of a fence line: after three backticks, and without one itself. */
  function FenceInfo(line: string): Option<string> {
    var t := TrimStart(line);
    if |t| >= 3 && t[0] == '`' && t[1] == '`' && t[2] == '`' && NoBacktick(t[3..]) then Some(t[3..]) else None
  }

  /** White space, and then the rest of the line, which ends nowhere inside. */
  function AfterSpace(s: string): Option<string> {
    if s != "" && IsSpace(s[0]) && NoLineEnd(TrimStart(s)) then Some(TrimStart(s)) else None
  }

  function Bullet(line: string): Option<string> {
    var t := TrimStart(line);
    if t != "" && (t[0] == '-' || t[0] == '*') then AfterSpace(t[1..]) else None
  }

  function Hashes(s: string): (n: nat)
    ensures n <= |s|
  {
    if s != "" && s[0] == '#' then 1 + Hashes(s[1..]) else 0
  }

  function HeadingText(line: string): Option<string> {
    var t := TrimStart(line);
    if 1 <= Hashes(t) <= 6 then AfterSpace(t[Hashes(t)..]) else None
  }

  // ---------------------------------------------------------------- the text in pieces

  /** A line of prose, or a fence with its opening line, what it holds and its closing line. */
  datatype Piece = Prose(line: string) | Fenced(opener: string, lines: seq<string>, closer: Option<string>)

  /** How many lines come before the next fence line. */
  function Inside(lines: seq<string>): (n: nat)
    ensures n <= |lines|
  {
    if lines == [] || FenceInfo(lines[0]).Some? then 0 else 1 + Inside(lines[1..])
  }

  function Pieces(lines: seq<string>): seq<Piece>
    decreases |lines|
  {
    if lines == [] then []
    else if FenceInfo(lines[0]).None? then [Prose(lines[0])] + Pieces(lines[1..])
    else FencedPieces(lines[0], [], lines[1..])
  }

  /** Inside a fence that `opener` opened, with `held` read already. */
  function FencedPieces(opener: string, held: seq<string>, lines: seq<string>): seq<Piece>
    decreases |lines|
  {
    var n := Inside(lines);
    if n == |lines| then [Fenced(opener, held + lines, None)]
    else [Fenced(opener, held + lines[..n], Some(lines[n]))] + Pieces(lines[n + 1..])
  }

  function LinesOf(pieces: seq<Piece>): seq<string> {
    if pieces == [] then [] else PieceLines(pieces[0]) + LinesOf(pieces[1..])
  }

  function PieceLines(piece: Piece): seq<string> {
    match piece
    case Prose(line) => [line]
    case Fenced(opener, lines, closer) => [opener] + lines + (if closer.Some? then [closer.value] else [])
  }

  /** Fence lines open and close fences and are nothing else; only the last fence may be open. */
  predicate PieceFits(piece: Piece, last: bool) {
    match piece
    case Prose(line) => FenceInfo(line).None?
    case Fenced(opener, lines, closer) =>
      && FenceInfo(opener).Some?
      && (forall i :: 0 <= i < |lines| ==> FenceInfo(lines[i]).None?)
      && (if closer.Some? then FenceInfo(closer.value).Some? else last)
  }

  predicate WellPieced(pieces: seq<Piece>) {
    forall i :: 0 <= i < |pieces| ==> PieceFits(pieces[i], i == |pieces| - 1)
  }

  // ---------------------------------------------------------------- blocks

  datatype Block =
    | List(items: seq<seq<Node>>)
    | Heading(title: seq<Node>)
    | Paragraph(line: seq<Node>)
    | CodeBlock(code: string, tag: Option<string>)

  function TagOf(info: string): Option<string> {
    var tag := Lower(Trim(info));
    if tag == "" then None else Some(tag)
  }

  function InlineAll(items: seq<string>): seq<seq<Node>> {
    if items == [] then [] else [Inline(items[0])] + InlineAll(items[1..])
  }

  function ListBlock(bullets: seq<string>): seq<Block> {
    if bullets == [] then [] else [List(InlineAll(bullets))]
  }

  /** A fence is shown unless it is blank or the statement the host shows already. */
  function FenceBlock(lines: seq<string>, tag: Option<string>, carded: Option<string>): seq<Block> {
    var code := Joined(lines);
    if |Trim(code)| > 0 && Some(Trim(code)) != carded then [CodeBlock(code, tag)] else []
  }

  /** A line that is neither a fence nor a bullet. */
  function LineBlock(line: string): seq<Block> {
    var heading := HeadingText(line);
    if heading.Some? then (if |Trim(heading.value)| > 0 then [Heading(Inline(Trim(heading.value)))] else [])
    else if |Trim(line)| == 0 then []
    else [Paragraph(Inline(line))]
  }

  function BulletOf(piece: Piece): Option<string> {
    if piece.Prose? then Bullet(piece.line) else None
  }

  predicate IsBullet(piece: Piece) {
    BulletOf(piece).Some?
  }

  function PieceBlock(piece: Piece, carded: Option<string>): seq<Block> {
    match piece
    case Prose(line) => LineBlock(line)
    case Fenced(opener, lines, _) =>
      FenceBlock(lines, OpenerTag(opener), carded)
  }

  /** The items of the bullets that come first, up to the next piece that is none. */
  function RunItems(pieces: seq<Piece>): (items: seq<string>)
    ensures |items| <= |pieces|
    ensures items == [] <==> pieces == [] || !IsBullet(pieces[0])
  {
    if pieces == [] || !IsBullet(pieces[0]) then [] else [BulletOf(pieces[0]).value] + RunItems(pieces[1..])
  }

  /** Each longest run of bullets is one list; every other piece is a block of its own, or none. */
  function Blocks(pieces: seq<Piece>, carded: Option<string>): seq<Block>
    decreases |pieces|
  {
    if pieces == [] then []
    else if IsBullet(pieces[0]) then
      var items := RunItems(pieces);
      [List(InlineAll(items))] + Blocks(pieces[|items|..], carded)
    else PieceBlock(pieces[0], carded) + Blocks(pieces[1..], carded)
  }

  /** The same with some bullets collected already. */
  function Going(bullets: seq<string>, pieces: seq<Piece>, carded: Option<string>): seq<Block>
    decreases |pieces|
  {
    if pieces == [] then ListBlock(bullets)
    else if IsBullet(pieces[0]) then Going(bullets + [BulletOf(pieces[0]).value], pieces[1..], carded)
    else ListBlock(bullets) + (PieceBlock(pieces[0], carded) + Going([], pieces[1..], carded))
  }

  lemma {:induction false} GoingListsRuns(bullets: seq<string>, pieces: seq<Piece>, carded: Option<string>)
    ensures var items := RunItems(pieces);
            Going(bullets, pieces, carded) == ListBlock(bullets + items) + Blocks(pieces[|items|..], carded)
    decreases |pieces|, 0
  {
    hide PieceBlock;
    hide BulletOf;
    hide ListBlock;
    var items := RunItems(pieces);
    if items != [] {
      GoingListsRuns(bullets + [items[0]], pieces[1..], carded);
      assert pieces[1..][|items| - 1..] == pieces[|items|..];
      assert bullets + [items[0]] + RunItems(pieces[1..]) == bullets + items;
    } else {
      assert bullets + [] == bullets && pieces[0..] == pieces;
      if pieces != [] {
        StartsOver(pieces[1..], carded);
      } else {
        assert ListBlock(bullets) + [] == ListBlock(bullets);
      }
    }
  }

  lemma StartsOver(pieces: seq<Piece>, carded: Option<string>)
    ensures Going([], pieces, carded) == Blocks(pieces, carded)
    decreases |pieces|, 1
  {
    GoingListsRuns([], pieces, carded);
    hide PieceBlock;
    hide BulletOf;
    hide Going;
    var items := RunItems(pieces);
    assert [] + items == items;
    if items == [] {
      assert pieces[0..] == pieces;
      assert ListBlock([]) + Blocks(pieces, carded) == Blocks(pieces, carded);
    }
  }

  // ---------------------------------------------------------------- the loop over the lines

  datatype Fence = Fence(tag: Option<string>, lines: seq<string>)

  method RenderProse(text: string, cardedStatement: Option<string>) returns (blocks: seq<Block>)
    ensures blocks == Blocks(Pieces(SplitLines(text)), CardedText(cardedStatement))
  {
    blocks := [];
    var bullets: seq<string> := [];
    var fence: Option<Fence> := None;
    ghost var opener := "";
    var carded := CardedText(cardedStatement);
    var lines := SplitLines(text);
    AtTheStart(lines, carded);
    hide *;
    var i := 0;
    while i < |lines|
      invariant i <= |lines|
      invariant Collecting(bullets, fence, opener)
      invariant Blocks(Pieces(lines), carded) == blocks + Going(bullets, Ahead(opener, fence, lines[i..]), carded)
    {
      assert lines[i..] == [lines[i]] + lines[i + 1..];
      blocks, bullets, fence, opener := TakeLine(lines[i], blocks, bullets, fence, carded, opener, lines[i + 1..]);
      i := i + 1;
    }
    AtTheEnd(bullets, opener, fence, lines[i..], carded);
    blocks := blocks + ListBlock(bullets);
    if fence.Some? {
      assert blocks + [] == blocks;
      blocks := blocks + FenceBlock(fence.value.lines, fence.value.tag, carded);
    }
  }

  /** Bullets are collected outside fences only, and a fence keeps its opener's tag. */
  predicate Collecting(bullets: seq<string>, fence: Option<Fence>, opener: string) {
    if fence.Some? then bullets == [] && fence.value.tag == OpenerTag(opener) else opener == ""
  }

  /** The turn of one line, `rest` to come. */
  method TakeLine(line: string, before: seq<Block>, collected: seq<string>, open: Option<Fence>, carded: Option<string>,
                  ghost openedBy: string, ghost rest: seq<string>)
    returns (blocks: seq<Block>, bullets: seq<string>, fence: Option<Fence>, ghost opener: string)
    requires Collecting(collected, open, openedBy)
    ensures Collecting(bullets, fence, opener)
    ensures before + Going(collected, Ahead(openedBy, open, [line] + rest), carded)
            == blocks + Going(bullets, Ahead(opener, fence, rest), carded)
  {
    blocks, bullets, fence, opener := before, collected, open, openedBy;
    var marker := FenceInfo(line);
    if fence.Some? {
      if marker.None? {
        HeldStep(opener, fence.value, line, rest);
        hide *;
        fence := Some(fence.value.(lines := fence.value.lines + [line]));
      } else {
        CloseStep(blocks, opener, fence.value, line, rest, carded);
        hide *;
        blocks := blocks + FenceBlock(fence.value.lines, fence.value.tag, carded);
        fence := None;
        opener := "";
      }
      return;
    }
    if marker.Some? {
      OpenStep(blocks, bullets, line, rest, carded);
      hide *;
      blocks := blocks + ListBlock(bullets);
      bullets := [];
      fence := Some(Fence(TagOf(marker.value), []));
      opener := line;
      return;
    }
    ProseStep(blocks, bullets, line, rest, carded);
    hide *;
    var bullet := Bullet(line);
    if bullet.Some? {
      bullets := bullets + [bullet.value];
      return;
    }
    blocks := blocks + ListBlock(bullets);
    bullets := [];
    blocks := PushLine(blocks, line);
  }

  method PushLine(before: seq<Block>, line: string) returns (blocks: seq<Block>)
    ensures blocks == before + LineBlock(line)
  {
    hide HeadingText;
    hide Trim;
    hide Inline;
    blocks := before;
    var heading := HeadingText(line);
    var title := if heading.None? then "" else Trim(heading.value);
    if heading.Some? {
      if |title| > 0 {
        blocks := blocks + [Heading(Inline(title))];
      }
      return;
    }
    if |Trim(line)| == 0 {
      return;
    }
    blocks := blocks + [Paragraph(Inline(line))];
  }

  function CardedText(statement: Option<string>): Option<string> {
    if statement.Some? then Some(Trim(statement.value)) else None
  }

  function OpenerTag(opener: string): Option<string> {
    TagOf(if FenceInfo(opener).Some? then FenceInfo(opener).value else "")
  }

  /** The pieces still to come, in or out of a fence. */
  function Ahead(opener: string, fence: Option<Fence>, lines: seq<string>): seq<Piece> {
    if fence.Some? then FencedPieces(opener, fence.value.lines, lines) else Pieces(lines)
  }

  lemma AtTheStart(lines: seq<string>, carded: Option<string>)
    ensures Collecting([], None, "")
    ensures Blocks(Pieces(lines), carded) == [] + Going([], Ahead("", None, lines[0..]), carded)
  {
    StartsOver(Pieces(lines), carded);
    hide Blocks;
    hide Going;
    assert lines[0..] == lines;
  }

  lemma HeldStep(opener: string, fence: Fence, line: string, rest: seq<string>)
    requires FenceInfo(line).None?
    ensures Ahead(opener, Some(fence), [line] + rest)
            == Ahead(opener, Some(fence.(lines := fence.lines + [line])), rest)
  {
    hide FenceInfo;
    var lines := [line] + rest;
    assert lines[1..] == rest;
    var n := Inside(rest);
    if n == |rest| {
      assert fence.lines + lines == fence.lines + [line] + rest;
    } else {
      assert fence.lines + lines[..n + 1] == fence.lines + [line] + rest[..n];
      assert lines[n + 2..] == rest[n + 1..];
    }
  }

  lemma CloseStep(before: seq<Block>, opener: string, fence: Fence, line: string, rest: seq<string>,
          carded: Option<string>)
    requires FenceInfo(line).Some? && fence.tag == OpenerTag(opener)
    ensures before + Going([], Ahead(opener, Some(fence), [line] + rest), carded)
            == before + FenceBlock(fence.lines, fence.tag, carded) + Going([], Ahead("", None, rest), carded)
  {
    hide FenceInfo;
    hide FenceBlock;
    hide TagOf;
    var lines := [line] + rest;
    assert Inside(lines) == 0 && lines[..0] == [] && fence.lines + [] == fence.lines && lines[1..] == rest;
    var piece := Fenced(opener, fence.lines, Some(line));
    assert ([piece] + Pieces(rest))[1..] == Pieces(rest);
    var block, later := FenceBlock(fence.lines, fence.tag, carded), Going([], Pieces(rest), carded);
    assert [] + (block + later) == block + later;
    ThreeParts(before, block, later);
  }

  lemma OpenStep(before: seq<Block>, bullets: seq<string>, line: string, rest: seq<string>, carded: Option<string>)
    requires FenceInfo(line).Some?
    ensures var fence := Fence(TagOf(FenceInfo(line).value), []);
            && fence.tag == OpenerTag(line)
            && before + Going(bullets, Ahead("", None, [line] + rest), carded)
               == before + ListBlock(bullets) + Going([], Ahead(line, Some(fence), rest), carded)
  {
    hide FenceInfo;
    hide TagOf;
    hide PieceBlock;
    assert ([line] + rest)[1..] == rest;
    var pieces := FencedPieces(line, [], rest);
    assert pieces != [] && !IsBullet(pieces[0]);
    var later := PieceBlock(pieces[0], carded) + Going([], pieces[1..], carded);
    assert [] + later == later;
    ThreeParts(before, ListBlock(bullets), later);
  }

  lemma ProseStep(before: seq<Block>, bullets: seq<string>, line: string, rest: seq<string>, carded: Option<string>)
    requires FenceInfo(line).None?
    ensures Bullet(line).Some? ==>
              before + Going(bullets, Ahead("", None, [line] + rest), carded)
              == before + Going(bullets + [Bullet(line).value], Ahead("", None, rest), carded)
    ensures Bullet(line).None? ==>
              before + Going(bullets, Ahead("", None, [line] + rest), carded)
              == before + ListBlock(bullets) + LineBlock(line) + Going([], Ahead("", None, rest), carded)
  {
    hide FenceInfo;
    hide ListBlock;
    hide LineBlock;
    hide Bullet;
    assert ([line] + rest)[1..] == rest;
    assert ([Prose(line)] + Pieces(rest))[1..] == Pieces(rest);
    var later := Going([], Pieces(rest), carded);
    ThreeParts(before, ListBlock(bullets), LineBlock(line) + later);
    ThreeParts(before + ListBlock(bullets), LineBlock(line), later);
  }

  lemma AtTheEnd(bullets: seq<string>, opener: string, fence: Option<Fence>, lines: seq<string>, carded: Option<string>)
    requires lines == [] && Collecting(bullets, fence, opener)
    ensures Going(bullets, Ahead(opener, fence, lines), carded)
            == if fence.Some? then FenceBlock(fence.value.lines, fence.value.tag, carded) else ListBlock(bullets)
    ensures ListBlock([]) == [] && (fence.Some? ==> bullets == [])
  {
    hide FenceInfo;
    hide TagOf;
    hide FenceBlock;
    if fence.Some? {
      var held := fence.value.lines;
      assert held + lines == held;
      var piece := Fenced(opener, held, None);
      assert [piece][1..] == [];
      var block := FenceBlock(held, fence.value.tag, carded);
      assert [] + (block + []) == block;
    }
  }

  // ---------------------------------------------------------------- the pieces are the text

  lemma InsideIs(lines: seq<string>)
    ensures forall i :: 0 <= i < Inside(lines) ==> FenceInfo(lines[i]).None?
    ensures Inside(lines) < |lines| ==> FenceInfo(lines[Inside(lines)]).Some?
  {
    hide FenceInfo;
    if lines != [] && FenceInfo(lines[0]).None? {
      InsideIs(lines[1..]);
      assert forall i :: 1 <= i < |lines| ==> lines[i] == lines[1..][i - 1];
    }
  }

  lemma InsideStops(lines: seq<string>, n: nat)
    requires n <= |lines| && forall i :: 0 <= i < n ==> FenceInfo(lines[i]).None?
    requires n < |lines| ==> FenceInfo(lines[n]).Some?
    ensures Inside(lines) == n
  {
    hide FenceInfo;
    InsideIs(lines);
  }

  lemma OneMorePiece(piece: Piece, rest: seq<Piece>)
    requires PieceFits(piece, rest == []) && WellPieced(rest)
    ensures WellPieced([piece] + rest) && LinesOf([piece] + rest) == PieceLines(piece) + LinesOf(rest)
  {
    hide PieceFits;
    hide PieceLines;
    var pieces := [piece] + rest;
    assert pieces[1..] == rest;
    forall i | 0 <= i < |pieces| ensures PieceFits(pieces[i], i == |pieces| - 1) {
      if i > 0 {
        assert pieces[i] == rest[i - 1];
      }
    }
  }

  lemma {:induction false} PiecesAreTheLines(lines: seq<string>)
    ensures LinesOf(Pieces(lines)) == lines && WellPieced(Pieces(lines))
    decreases |lines|
  {
    hide FenceInfo;
    hide LinesOf;
    hide WellPieced;
    if lines == [] {
      NoPieces();
    } else if FenceInfo(lines[0]).None? {
      PiecesAreTheLines(lines[1..]);
      OneMorePiece(Prose(lines[0]), Pieces(lines[1..]));
    } else {
      FenceIsTheLines(lines[0], lines[1..]);
      assert lines == [lines[0]] + lines[1..];
    }
  }

  lemma NoPieces()
    ensures LinesOf([]) == [] && WellPieced([])
  {
  }

  lemma FenceIsTheLines(opener: string, lines: seq<string>)
    requires FenceInfo(opener).Some?
    ensures var pieces := FencedPieces(opener, [], lines); LinesOf(pieces) == [opener] + lines && WellPieced(pieces)
    decreases |lines|
  {
    InsideIs(lines);
    hide FenceInfo;
    hide LinesOf;
    hide WellPieced;
    hide PieceFits;
    hide PieceLines;
    hide Pieces;
    hide Inside;
    var n := Inside(lines);
    if n == |lines| {
      assert [] + lines == lines;
      OpenFence(opener, lines);
    } else {
      var held, rest := lines[..n], lines[n + 1..];
      assert [] + held == held;
      assert forall i :: 0 <= i < n ==> held[i] == lines[i];
      PiecesAreTheLines(rest);
      ClosedFence(opener, held, lines[n], rest, Pieces(rest));
      assert lines == held + [lines[n]] + rest;
    }
  }

  lemma OpenFence(opener: string, held: seq<string>)
    requires FenceInfo(opener).Some? && forall i :: 0 <= i < |held| ==> FenceInfo(held[i]).None?
    ensures var pieces := [Fenced(opener, held, None)]; LinesOf(pieces) == [opener] + held && WellPieced(pieces)
  {
    hide FenceInfo;
    NoPieces();
    var piece := Fenced(opener, held, None);
    OneMorePiece(piece, []);
    assert [piece] + [] == [piece] && PieceLines(piece) + [] == [opener] + held;
  }

  lemma ClosedFence(opener: string, held: seq<string>, closer: string, rest: seq<string>, pieces: seq<Piece>)
    requires FenceInfo(opener).Some? && forall i :: 0 <= i < |held| ==> FenceInfo(held[i]).None?
    requires FenceInfo(closer).Some? && WellPieced(pieces) && LinesOf(pieces) == rest
    ensures var all := [Fenced(opener, held, Some(closer))] + pieces;
            LinesOf(all) == [opener] + (held + [closer] + rest) && WellPieced(all)
  {
    hide FenceInfo;
    hide WellPieced;
    hide LinesOf;
    OneMorePiece(Fenced(opener, held, Some(closer)), pieces);
    assert [opener] + held + [closer] + rest == [opener] + (held + [closer] + rest);
  }

  lemma FirstPiece(piece: Piece, rest: seq<Piece>)
    requires WellPieced([piece] + rest)
    ensures PieceFits(piece, rest == []) && WellPieced(rest)
  {
    hide PieceFits;
    var pieces := [piece] + rest;
    assert pieces[0] == piece;
    forall i | 0 <= i < |rest| ensures PieceFits(rest[i], i == |rest| - 1) {
      assert pieces[i + 1] == rest[i];
    }
  }

  /** One piece in front of lines whose pieces are known. */
  lemma PieceIsFound(piece: Piece, rest: seq<Piece>, lines: seq<string>)
    requires PieceFits(piece, rest == []) && Pieces(lines) == rest && (rest == [] ==> lines == [])
    ensures Pieces(PieceLines(piece) + lines) == [piece] + rest
  {
    hide FenceInfo;
    match piece
    case Prose(line) =>
      assert ([line] + lines)[1..] == lines;
    case Fenced(opener, held, closer) =>
      var after := held + (if closer.Some? then [closer.value] else []) + lines;
      assert PieceLines(piece) + lines == [opener] + after;
      assert ([opener] + after)[1..] == after;
      hide PieceLines;
      FenceIsFound(opener, held, closer, lines, after);
      hide FencedPieces;
      hide Inside;
  }

  lemma FenceIsFound(opener: string, held: seq<string>, closer: Option<string>, lines: seq<string>, after: seq<string>)
    requires PieceFits(Fenced(opener, held, closer), lines == [])
    requires after == held + (if closer.Some? then [closer.value] else []) + lines
    ensures FencedPieces(opener, [], after)
            == [Fenced(opener, held, closer)] + (if closer.Some? then Pieces(lines) else [])
  {
    hide FenceInfo;
    hide Pieces;
    InsideStops(after, |held|);
    hide Inside;
    assert after[..|held|] == held && [] + held == held && [] + after == after;
    if closer.Some? {
      assert after[|held| + 1..] == lines;
    } else {
      assert after == held;
    }
  }

  lemma {:induction false} LinesGiveThePieces(pieces: seq<Piece>)
    requires WellPieced(pieces)
    ensures Pieces(LinesOf(pieces)) == pieces
    decreases |pieces|
  {
    hide Pieces;
    hide WellPieced;
    hide PieceFits;
    hide PieceLines;
    if pieces == [] {
      NoLines();
    } else {
      var piece, rest := pieces[0], pieces[1..];
      assert pieces == [piece] + rest;
      FirstPiece(piece, rest);
      LinesGiveThePieces(rest);
      PieceIsFound(piece, rest, LinesOf(rest));
    }
  }

  lemma NoLines()
    ensures Pieces([]) == []
  {
  }

  /**
   Main result about fences. On any text, every line is in exactly one piece and in order; and
   there is only one way to take lines for openers, closers, fenced text and prose in which
   each fence line opens or closes a fence and only the last fence may stay open.
   */
  lemma PiecesIff(text: string, pieces: seq<Piece>)
    ensures pieces == Pieces(SplitLines(text)) <==> WellPieced(pieces) && LinesOf(pieces) == SplitLines(text)
    ensures Joined(LinesOf(Pieces(SplitLines(text)))) == text
  {
    JoinedSplits(text);
    PiecesAreTheLines(SplitLines(text));
    if WellPieced(pieces) {
      LinesGiveThePieces(pieces);
    }
  }

  // ---------------------------------------------------------------- what the blocks say

  datatype Saying =
    Item(text: string) | Title(text: string) | Plain(text: string) | Quoted(code: string, tag: Option<string>)

  function SaidItems(items: seq<seq<Node>>): seq<Saying> {
    if items == [] then [] else [Item(Print(items[0]))] + SaidItems(items[1..])
  }

  /** What a block shows, markup printed back. */
  function SaidBy(block: Block): seq<Saying> {
    match block
    case List(items) => SaidItems(items)
    case Heading(title) => [Title(Print(title))]
    case Paragraph(line) => [Plain(Print(line))]
    case CodeBlock(code, tag) => [Quoted(code, tag)]
  }

  function Said(blocks: seq<Block>): seq<Saying> {
    if blocks == [] then [] else SaidBy(blocks[0]) + Said(blocks[1..])
  }

  /** A line of hash marks and white space only: a heading with nothing after it. */
  predicate EmptyHeading(line: string) {
    var t := TrimStart(line);
    1 <= Hashes(t) <= 6 && |t| > Hashes(t) && Blank(t[Hashes(t)..])
  }

  /** What a piece has to say, read off the piece alone. */
  function PieceSays(piece: Piece, carded: Option<string>): seq<Saying> {
    match piece
    case Prose(line) =>
      if Bullet(line).Some? then [Item(Bullet(line).value)]
      else if Blank(line) || EmptyHeading(line) then []
      else if HeadingText(line).Some? then [Title(Trim(HeadingText(line).value))]
      else [Plain(line)]
    case Fenced(opener, lines, _) =>
      var code := Joined(lines);
      if Blank(code) || Some(Trim(code)) == carded then [] else [Quoted(code, OpenerTag(opener))]
  }

  function PiecesSay(pieces: seq<Piece>, carded: Option<string>): seq<Saying> {
    if pieces == [] then [] else PieceSays(pieces[0], carded) + PiecesSay(pieces[1..], carded)
  }

  lemma PrintedInline(s: string)
    ensures Print(Inline(s)) == s
  {
    InlineIff(s, Inline(s));
  }

  lemma SaidConcat(a: seq<Block>, b: seq<Block>)
    ensures Said(a + b) == Said(a) + Said(b)
  {
    hide SaidBy;
    if a == [] {
      assert a + b == b;
    } else {
      assert (a + b)[1..] == a[1..] + b;
      SaidConcat(a[1..], b);
    }
  }

  /** The items of a run are said as the bullets of its pieces are. */
  lemma {:induction false} RunSays(pieces: seq<Piece>, carded: Option<string>)
    ensures var items := RunItems(pieces);
            PiecesSay(pieces, carded) == SaidItems(InlineAll(items)) + PiecesSay(pieces[|items|..], carded)
    decreases |pieces|
  {
    hide Bullet;
    hide Inline;
    hide Print;
    hide EmptyHeading;
    var items := RunItems(pieces);
    if items == [] {
      assert pieces[0..] == pieces;
      assert [] + PiecesSay(pieces, carded) == PiecesSay(pieces, carded);
    } else {
      RunSays(pieces[1..], carded);
      var rest := RunItems(pieces[1..]);
      assert items[1..] == rest && pieces[1..][|rest|..] == pieces[|items|..];
      PrintedInline(items[0]);
      assert InlineAll(items)[1..] == InlineAll(rest);
      ThreeParts([Item(items[0])], SaidItems(InlineAll(rest)), PiecesSay(pieces[|items|..], carded));
    }
  }

  /** A heading has text just when it is not one of hash marks and white space. */
  lemma EmptyHeadingIff(line: string)
    ensures EmptyHeading(line) <==> HeadingText(line).Some? && |Trim(HeadingText(line).value)| == 0
  {
    var t := TrimStart(line);
    BlankAfterSpace(t[Hashes(t)..]);
    hide TrimStart;
    hide Blank;
    hide Hashes;
    hide AfterSpace;
    hide Trim;
  }

  lemma BlankAfterSpace(rest: string)
    ensures rest != "" && Blank(rest) <==> AfterSpace(rest).Some? && |Trim(AfterSpace(rest).value)| == 0
  {
    hide Trim;
    hide TrimStart;
    hide IsSpace;
    hide IsLineEnd;
    BlankIffTrimsAway(rest);
    TrimOfTrimmedStart(rest);
    if rest != "" && Blank(rest) {
      BlankHead(rest);
    }
  }

  lemma BlankHead(s: string)
    requires Blank(s) && s != ""
    ensures IsSpace(s[0]) && TrimStart(s) == ""
  {
    hide IsSpace;
    assert s[0] in s;
    BlankStart(s);
  }

  lemma BlankStart(s: string)
    requires Blank(s)
    ensures TrimStart(s) == ""
  {
    assert forall i :: 0 <= i < |s| ==> s[i] in s;
  }

  lemma TrimOfTrimmedStart(s: string)
    ensures Trim(TrimStart(s)) == Trim(s)
  {
  }

  lemma BlankHasNoHashes(line: string)
    requires Blank(line)
    ensures HeadingText(line).None?
  {
    hide AfterSpace;
    BlankStart(line);
  }

  /** A line block has nothing to show exactly for blank lines and empty headings. */
  lemma NothingShownIff(line: string)
    ensures LineBlock(line) == [] <==> Blank(line) || EmptyHeading(line)
    ensures HeadingText(line).Some? ==> !Blank(line)
  {
    BlankIffTrimsAway(line);
    EmptyHeadingIff(line);
    if Blank(line) {
      BlankHasNoHashes(line);
    }
    hide HeadingText;
    hide EmptyHeading;
    hide Blank;
    hide Trim;
    hide Inline;
  }

  lemma {:induction false} LineSays(line: string, carded: Option<string>)
    requires Bullet(line).None?
    ensures Said(LineBlock(line)) == PieceSays(Prose(line), carded)
  {
    NothingShownIff(line);
    hide Bullet;
    hide HeadingText;
    hide EmptyHeading;
    hide Blank;
    hide Trim;
    hide Inline;
    hide Print;
    if LineBlock(line) != [] {
      OneBlock(LineBlock(line)[0]);
      PrintedInline(if HeadingText(line).Some? then Trim(HeadingText(line).value) else line);
    }
  }

  lemma OneBlock(block: Block)
    ensures Said([block]) == SaidBy(block)
  {
    assert SaidBy(block) + [] == SaidBy(block);
  }

  lemma FenceSays(opener: string, lines: seq<string>, closer: Option<string>, carded: Option<string>)
    ensures Said(FenceBlock(lines, OpenerTag(opener), carded)) == PieceSays(Fenced(opener, lines, closer), carded)
  {
    hide OpenerTag;
    var code := Joined(lines);
    BlankIffTrimsAway(code);
    hide Trim;
    hide Blank;
    hide Joined;
    OneBlock(CodeBlock(code, OpenerTag(opener)));
  }

  /**
   Main result about the blocks, on every list of pieces: what the blocks say, printed back,
   is what the pieces have to say, each once and in order. Left out are blank lines and empty
   headings outside fences, and fences that are blank or hold just the statement shown already.
   */
  lemma {:induction false} BlocksSayThePieces(pieces: seq<Piece>, carded: Option<string>)
    ensures Said(Blocks(pieces, carded)) == PiecesSay(pieces, carded)
    decreases |pieces|
  {
    hide Bullet;
    hide LineBlock;
    hide FenceBlock;
    hide PieceSays;
    hide SaidBy;
    if pieces != [] {
      if IsBullet(pieces[0]) {
        var items := RunItems(pieces);
        var rest := pieces[|items|..];
        RunSays(pieces, carded);
        BlocksSayThePieces(rest, carded);
        ListSays(items, Blocks(rest, carded));
      } else {
        BlocksSayThePieces(pieces[1..], carded);
        SaidConcat(PieceBlock(pieces[0], carded), Blocks(pieces[1..], carded));
        match pieces[0]
        case Prose(line) => LineSays(line, carded);
        case Fenced(opener, lines, closer) => FenceSays(opener, lines, closer, carded);
      }
    }
  }

  lemma ListSays(items: seq<string>, rest: seq<Block>)
    ensures Said([List(InlineAll(items))] + rest) == SaidItems(InlineAll(items)) + Said(rest)
  {
    assert ([List(InlineAll(items))] + rest)[1..] == rest;
  }

  /** A fence is quoted line by line as it was written: even one that nothing closes. */
  lemma FencesAreVerbatim(lines: seq<string>)
    requires lines != [] && forall i :: 0 <= i < |lines| ==> '\n' !in lines[i]
    ensures SplitLines(Joined(lines)) == lines
  {
    SplitJoins(lines);
  }

  // ---------------------------------------------------------------- carriage returns

  lemma TrimStartKeepsTail(s: string, more: string)
    ensures TrimStart(s + more) == if Blank(s) then TrimStart(more) else TrimStart(s) + more
  {
    if s == "" {
      assert s + more == more;
    } else {
      assert (s + more)[0] == s[0] && (s + more)[1..] == s[1..] + more;
      if IsSpace(s[0]) {
        BlankWithout(s);
        TrimStartKeepsTail(s[1..], more);
      } else {
        assert s[0] in s;
      }
    }
  }

  lemma BlankWithout(s: string)
    requires s != "" && IsSpace(s[0])
    ensures Blank(s) <==> Blank(s[1..])
  {
    assert s == [s[0]] + s[1..];
  }

  lemma ReturnTrims()
    ensures TrimStart("\r") == "" && IsSpace('\r') && IsLineEnd('\r')
  {
    assert "\r"[1..] == "";
  }

  /** After a carriage return nothing but white space can have been read as what follows a mark. */
  lemma ReturnAfterSpace(s: string)
    ensures AfterSpace(s + "\r") == if Blank(s) then Some("") else None
  {
    hide IsSpace;
    hide IsLineEnd;
    hide TrimStart;
    ReturnTrims();
    TrimStartKeepsTail(s, "\r");
    if Blank(s) {
      assert s != "" ==> s[0] in s;
      assert (s + "\r")[0] == if s == "" then '\r' else s[0];
    } else {
      var rest := TrimStart(s) + "\r";
      assert IsLineEnd(rest[|rest| - 1]);
    }
  }

  lemma HashesBeforeReturn(s: string)
    ensures Hashes(s + "\r") == Hashes(s)
  {
    if s != "" && s[0] == '#' {
      assert (s + "\r")[0] == s[0] && (s + "\r")[1..] == s[1..] + "\r";
      HashesBeforeReturn(s[1..]);
    } else if s != "" {
      assert (s + "\r")[0] == s[0];
    }
  }

  /** A list mark with nothing but white space after it. */
  predicate BareBullet(line: string) {
    var t := TrimStart(line);
    t != "" && (t[0] == '-' || t[0] == '*') && Blank(t[1..])
  }

  /** One to six hash marks with nothing but white space after them. */
  predicate BareHeading(line: string) {
    var t := TrimStart(line);
    1 <= Hashes(t) <= 6 && Blank(t[Hashes(t)..])
  }

  lemma BlankTrims(line: string)
    ensures Blank(line) <==> TrimStart(line) == ""
  {
    TrimStartDropsSpaces(line);
    var t := TrimStart(line);
    assert t != "" ==> t[0] in line;
  }

  lemma ReturnBullet(line: string)
    ensures Bullet(line + "\r") == if BareBullet(line) then Some("") else None
  {
    hide TrimStart;
    hide AfterSpace;
    hide Blank;
    BlankTrims(line);
    ReturnTrims();
    TrimStartKeepsTail(line, "\r");
    var t := TrimStart(line);
    if t != "" {
      assert (t + "\r")[0] == t[0] && (t + "\r")[1..] == t[1..] + "\r";
      ReturnAfterSpace(t[1..]);
    }
  }

  lemma NoHashes()
    ensures Hashes("") == 0
  {
  }

  lemma ReturnHeading(line: string)
    ensures HeadingText(line + "\r") == if BareHeading(line) then Some("") else None
    ensures EmptyHeading(line + "\r") <==> BareHeading(line)
  {
    hide TrimStart;
    hide AfterSpace;
    hide Blank;
    hide Hashes;
    BlankTrims(line);
    ReturnTrims();
    NoHashes();
    TrimStartKeepsTail(line, "\r");
    var t := TrimStart(line);
    if t != "" {
      HashesBeforeReturn(t);
      var n := Hashes(t);
      assert (t + "\r")[n..] == t[n..] + "\r";
      ReturnAfterSpace(t[n..]);
      BlankBeforeReturn(t[n..]);
    }
  }

  lemma BlankBeforeReturn(s: string)
    ensures Blank(s + "\r") <==> Blank(s)
  {
    hide IsSpace;
    hide IsLineEnd;
    hide TrimStart;
    ReturnTrims();
    assert forall c <- s :: c in s + "\r";
    assert forall c <- s + "\r" :: c in s || c == '\r';
  }

  /**
   Lines are cut at line feeds only, so in a text with CRLF line ends each ends in a carriage
   return, which neither pattern reads over but both take for white space. For every line: it is
   a list item, an empty one, exactly if it is a bare list mark; a heading, which then shows
   nothing, exactly if it is bare hash marks; and otherwise, unless blank, a paragraph.
   */
  lemma CarriageReturnIff(line: string, carded: Option<string>)
    ensures Bullet(line + "\r").Some? <==> BareBullet(line)
    ensures HeadingText(line + "\r").Some? <==> BareHeading(line)
    ensures PieceSays(Prose(line + "\r"), carded)
            == if BareBullet(line) then [Item("")]
               else if Blank(line) || BareHeading(line) then []
               else [Plain(line + "\r")]
  {
    hide Bullet;
    hide HeadingText;
    hide EmptyHeading;
    hide Blank;
    hide BareBullet;
    hide BareHeading;
    ReturnBullet(line);
    ReturnHeading(line);
    BlankBeforeReturn(line);
  }

  lemma TextIsNotBare(line: string)
    ensures Bullet(line).Some? && Bullet(line).value != "" ==> !BareBullet(line) && !BareHeading(line) && !Blank(line)
    ensures HeadingText(line).Some? && HeadingText(line).value != ""
            ==> !BareBullet(line) && !BareHeading(line) && !Blank(line)
  {
    hide TrimStart;
    hide Blank;
    hide NoLineEnd;
    hide IsSpace;
    NoHashes();
    BlankTrims(line);
    var t := TrimStart(line);
    if t != "" {
      BlankTrims(t[1..]);
      BlankTrims(t[Hashes(t)..]);
    }
  }

  /** So with CRLF line ends every bullet and every heading that has text is a paragraph. */
  lemma CarriageReturnHidesMarks(line: string, carded: Option<string>)
    requires || (Bullet(line).Some? && Bullet(line).value != "")
             || (HeadingText(line).Some? && HeadingText(line).value != "")
    ensures PieceSays(Prose(line + "\r"), carded) == [Plain(line + "\r")]
  {
    hide *;
    CarriageReturnIff(line, carded);
    TextIsNotBare(line);
  }

  lemma PlainSays(line: string, carded: Option<string>)
    requires Bullet(line).None? && HeadingText(line).None? && !EmptyHeading(line) && !Blank(line)
    ensures PieceSays(Prose(line), carded) == [Plain(line)]
  {
    hide Bullet;
    hide HeadingText;
    hide EmptyHeading;
    hide Blank;
  }

  lemma LoneDash()
    ensures TrimStart("-") == "-" && !Blank("-") && Blank("")
  {
    hide IsSpace;
    MarksAreNoSpace();
    assert '-' in "-";
  }

  lemma LoneDashIsNoMark()
    ensures Bullet("-").None? && HeadingText("-").None? && !EmptyHeading("-") && BareBullet("-")
  {
    hide TrimStart;
    hide IsSpace;
    hide Blank;
    LoneDash();
    assert "-"[1..] == "" && AfterSpace("").None?;
    assert Hashes("-") == 0;
  }

  /** A lone dash is a paragraph before a line feed, and an empty list item before both characters. */
  lemma DashBeforeReturn(carded: Option<string>)
    ensures PieceSays(Prose("-"), carded) == [Plain("-")] && PieceSays(Prose("-\r"), carded) == [Item("")]
  {
    hide *;
    LoneDash();
    LoneDashIsNoMark();
    assert "-" + "\r" == "-\r";
    CarriageReturnIff("-", carded);
    PlainSays("-", carded);
  }

  // ---------------------------------------------------------------- what the three patterns match

  /** Text as a dot matches it, with no white space in front. */
  predicate OnOneLine(text: string) {
    && (text == "" || !IsSpace(text[0]))
    && forall c <- text :: c != '\n' && c != '\r' && c != '\U{2028}' && c != '\U{2029}'
  }

  lemma OneLineIff(text: string)
    ensures OnOneLine(text) <==> NoLineEnd(text) && (text == "" || !IsSpace(text[0]))
  {
    hide IsSpace;
    assert forall i :: 0 <= i < |text| ==> text[i] in text;
  }

  /** White space and a text, as a pattern reads them after a mark. */
  predicate SpaceThen(s: string, space: string, text: string) {
    s == space + text && space != "" && Blank(space) && OnOneLine(text)
  }

  lemma AfterSpaceReads(s: string, space: string, text: string)
    requires SpaceThen(s, space, text)
    ensures AfterSpace(s) == Some(text)
  {
    hide IsSpace;
    hide IsLineEnd;
    OneLineIff(text);
    TrimStartKeepsTail(space, text);
    assert space[0] in space && s[0] == space[0];
    assert TrimStart(text) == text;
  }

  lemma AfterSpaceIs(s: string) returns (space: string)
    requires AfterSpace(s).Some?
    ensures SpaceThen(s, space, AfterSpace(s).value) && s == space + AfterSpace(s).value
  {
    hide IsSpace;
    hide IsLineEnd;
    var text := TrimStart(s);
    space := s[..|s| - |text|];
    TrimStartDropsSpaces(s);
    OneLineIff(text);
    assert |text| == |s| ==> text == s;
  }

  /** A bullet: white space, a dash or an asterisk, white space, and the item. */
  predicate IsBulletLine(line: string, lead: string, mark: string, space: string, item: string) {
    && Blank(lead) && mark in {"-", "*"}
    && line == lead + (mark + (space + item)) && SpaceThen(space + item, space, item)
  }

  lemma MarksAreNoSpace()
    ensures !IsSpace('-') && !IsSpace('*') && !IsSpace('#') && !IsSpace('`')
  {
  }

  lemma MarkedLine(line: string, lead: string, t: string)
    requires line == lead + t && Blank(lead) && t != "" && !IsSpace(t[0])
    ensures TrimStart(line) == t
  {
    hide IsSpace;
    TrimStartKeepsTail(lead, t);
  }

  lemma LeadIsBlank(line: string)
    ensures var t := TrimStart(line);
            Blank(line[..|line| - |t|]) && line == line[..|line| - |t|] + t
  {
    TrimStartDropsSpaces(line);
  }

  lemma BulletIs(line: string) returns (lead: string, mark: string, space: string)
    requires Bullet(line).Some?
    ensures IsBulletLine(line, lead, mark, space, Bullet(line).value)
  {
    hide IsSpace;
    hide AfterSpace;
    hide SpaceThen;
    hide Blank;
    hide TrimStart;
    var t := TrimStart(line);
    lead, mark := line[..|line| - |t|], [t[0]];
    LeadIsBlank(line);
    space := AfterSpaceIs(t[1..]);
    assert t == mark + t[1..];
  }

  lemma BulletReads(line: string, lead: string, mark: string, space: string, item: string)
    requires IsBulletLine(line, lead, mark, space, item)
    ensures Bullet(line) == Some(item)
  {
    hide IsSpace;
    hide AfterSpace;
    hide SpaceThen;
    hide Blank;
    hide TrimStart;
    var rest := space + item;
    MarksAreNoSpace();
    assert (mark + rest)[0] == mark[0] && mark[0] in {'-', '*'} && (mark + rest)[1..] == rest;
    MarkedLine(line, lead, mark + rest);
    AfterSpaceReads(rest, space, item);
  }

  /** What a bullet line is, and which item it shows, for every line. */
  lemma BulletIff(line: string, item: string)
    ensures Bullet(line) == Some(item) <==> exists lead, mark, space :: IsBulletLine(line, lead, mark, space, item)
  {
    hide *;
    if Bullet(line) == Some(item) {
      var lead, mark, space := BulletIs(line);
    }
    if lead, mark, space :| IsBulletLine(line, lead, mark, space, item) {
      BulletReads(line, lead, mark, space, item);
    }
  }

  /** A heading: white space, one to six hash marks, white space, and the title before it is trimmed. */
  predicate IsHeadingLine(line: string, lead: string, marks: string, space: string, title: string) {
    && Blank(lead) && 1 <= |marks| <= 6 && (forall c <- marks :: c == '#')
    && line == lead + (marks + (space + title)) && SpaceThen(space + title, space, title)
  }

  lemma NoHashInFront(rest: string)
    requires rest != "" && rest[0] != '#'
    ensures Hashes(rest) == 0
  {
  }

  lemma HashInFront(s: string)
    ensures Hashes("#" + s) == 1 + Hashes(s)
  {
    assert ("#" + s)[1..] == s;
  }

  lemma {:induction false} HashesOf(marks: string, rest: string)
    requires (forall c <- marks :: c == '#') && rest != "" && rest[0] != '#'
    ensures Hashes(marks + rest) == |marks|
  {
    hide Hashes;
    if marks == "" {
      assert marks + rest == rest;
      NoHashInFront(rest);
    } else {
      assert marks[0] in marks && forall c <- marks[1..] :: c in marks;
      HashesOf(marks[1..], rest);
      HashInFront(marks[1..] + rest);
      assert marks + rest == "#" + (marks[1..] + rest);
    }
  }

  lemma HashesAre(t: string)
    ensures forall c <- t[..Hashes(t)] :: c == '#'
  {
    if t != "" && t[0] == '#' {
      HashesAre(t[1..]);
      assert t[..Hashes(t)] == [t[0]] + t[1..][..Hashes(t[1..])];
    }
  }

  lemma SpaceInFront(rest: string, space: string, text: string)
    requires SpaceThen(rest, space, text)
    ensures rest != "" && IsSpace(rest[0])
  {
    assert space[0] in space && rest[0] == space[0];
  }

  lemma HeadingIs(line: string) returns (lead: string, marks: string, space: string)
    requires HeadingText(line).Some?
    ensures IsHeadingLine(line, lead, marks, space, HeadingText(line).value)
  {
    hide IsSpace;
    hide AfterSpace;
    hide SpaceThen;
    hide Blank;
    hide TrimStart;
    hide Hashes;
    var t := TrimStart(line);
    var n := Hashes(t);
    lead, marks := line[..|line| - |t|], t[..n];
    LeadIsBlank(line);
    HashesAre(t);
    space := AfterSpaceIs(t[n..]);
    assert t == marks + t[n..];
  }

  lemma HeadingReads(line: string, lead: string, marks: string, space: string, title: string)
    requires IsHeadingLine(line, lead, marks, space, title)
    ensures HeadingText(line) == Some(title)
  {
    hide IsSpace;
    hide AfterSpace;
    hide SpaceThen;
    hide Blank;
    hide TrimStart;
    hide Hashes;
    MarksAreNoSpace();
    var rest := space + title;
    assert marks[0] in marks && (marks + rest)[0] == marks[0] && (marks + rest)[|marks|..] == rest;
    MarkedLine(line, lead, marks + rest);
    SpaceInFront(rest, space, title);
    HashesOf(marks, rest);
    AfterSpaceReads(rest, space, title);
  }

  /** What a heading line is, and which title it has, for every line. */
  lemma HeadingIff(line: string, title: string)
    ensures HeadingText(line) == Some(title)
            <==> exists lead, marks, space :: IsHeadingLine(line, lead, marks, space, title)
  {
    hide *;
    if HeadingText(line) == Some(title) {
      var lead, marks, space := HeadingIs(line);
    }
    if lead, marks, space :| IsHeadingLine(line, lead, marks, space, title) {
      HeadingReads(line, lead, marks, space, title);
    }
  }

  lemma NoBacktickIff(s: string)
    ensures NoBacktick(s) <==> '`' !in s
  {
    if s != "" {
      NoBacktickIff(s[1..]);
      assert s == [s[0]] + s[1..];
    }
  }

  /** A fence line: white space, three backticks, and an info string without one. */
  predicate IsFenceLine(line: string, lead: string, info: string) {
    Blank(lead) && '`' !in info && line == lead + ("```" + info)
  }

  lemma FenceIs(line: string) returns (lead: string)
    requires FenceInfo(line).Some?
    ensures IsFenceLine(line, lead, FenceInfo(line).value)
  {
    hide IsSpace;
    hide Blank;
    hide TrimStart;
    hide NoBacktick;
    var t := TrimStart(line);
    lead := line[..|line| - |t|];
    LeadIsBlank(line);
    NoBacktickIff(t[3..]);
    assert t[..3] == [t[0], t[1], t[2]] == "```";
    assert t == t[..3] + t[3..];
  }

  lemma FenceReads(line: string, lead: string, info: string)
    requires IsFenceLine(line, lead, info)
    ensures FenceInfo(line) == Some(info)
  {
    hide IsSpace;
    hide Blank;
    hide TrimStart;
    hide NoBacktick;
    MarksAreNoSpace();
    NoBacktickIff(info);
    MarkedLine(line, lead, "```" + info);
    assert ("```" + info)[3..] == info;
  }

  /** What a fence line is, and its info string, for every line. */
  lemma FenceIff(line: string, info: string)
    ensures FenceInfo(line) == Some(info) <==> exists lead :: IsFenceLine(line, lead, info)
  {
    hide *;
    if FenceInfo(line) == Some(info) {
      var lead := FenceIs(line);
    }
    if lead :| IsFenceLine(line, lead, info) {
      FenceReads(line, lead, info);
    }
  }

  lemma BlankBoth(a: string, b: string)
    requires Blank(a) && Blank(b)
    ensures Blank(a + b)
  {
  }

  lemma LowerKeepsLength(s: string)
    ensures |Lower(s)| == |s|
  {
  }

  lemma TrimTail(word: string, tail: string)
    requires Blank(tail) && word != "" && !IsSpace(word[|word| - 1])
    ensures TrimEnd(word + tail) == word
    decreases |tail|
  {
    hide IsSpace;
    if tail == "" {
      assert word + tail == word;
    } else {
      assert tail[|tail| - 1] in tail;
      assert (word + tail)[..|word + tail| - 1] == word + tail[..|tail| - 1];
      assert forall c <- tail[..|tail| - 1] :: c in tail;
      TrimTail(word, tail[..|tail| - 1]);
    }
  }

  lemma TrimsToWord(lead: string, word: string, tail: string)
    requires Blank(lead) && Blank(tail) && word != "" && !IsSpace(word[0]) && !IsSpace(word[|word| - 1])
    ensures Trim(lead + word + tail) == word
  {
    hide IsSpace;
    hide TrimStart;
    hide TrimEnd;
    assert lead + word + tail == lead + (word + tail);
    MarkedLine(lead + (word + tail), lead, word + tail);
    TrimTail(word, tail);
  }

  lemma TrimsToNothing(lead: string, tail: string)
    requires Blank(lead) && Blank(tail)
    ensures Trim(lead + "" + tail) == ""
  {
    hide IsSpace;
    hide Trim;
    BlankBoth(lead, tail);
    assert lead + "" + tail == lead + tail;
    BlankIffTrimsAway(lead + tail);
  }

  /** A fence's tag is its info string trimmed and in lower case, and none if that is blank. */
  lemma TagIs(lead: string, word: string, tail: string)
    requires Blank(lead) && Blank(tail)
    requires word == "" || (!IsSpace(word[0]) && !IsSpace(word[|word| - 1]))
    ensures TagOf(lead + word + tail) == if word == "" then None else Some(Lower(word))
  {
    hide IsSpace;
    hide Trim;
    hide Lower;
    LowerKeepsLength(word);
    LowerKeepsLength("");
    if word == "" {
      TrimsToNothing(lead, tail);
    } else {
      TrimsToWord(lead, word, tail);
    }
  }
}
