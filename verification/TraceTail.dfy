/**
 Following one transcript that somebody else appends to.

 Each pass seeks to a byte offset, reads text lines from there, and stops at a line whose
 end has not been written yet. The offset moves by the encoded length of each whole line. The
 file is a sequence of characters, each taking its UTF-8 width; opening it as text makes every
 line ending a line feed.
 */
module TraceTail {
  import opened Common

  /** The bytes a character takes in UTF-8. */
  function Width(c: char): (w: nat)
    ensures 1 <= w <= 4
  {
    if c as int < 0x80 then 1 else if c as int < 0x800 then 2 else if c as int < 0x1_0000 then 3 else 4
  }

  function ByteLen(text: string): nat {
    if text == "" then 0 else Width(text[0]) + ByteLen(text[1..])
  }

  /** What is read after seeking to a byte offset; none if the offset is inside a character. */
  function SuffixAt(file: string, offset: nat): Option<string> {
    if offset == 0 then Some(file)
    else if file == "" then Some("")
    else if Width(file[0]) <= offset then SuffixAt(file[1..], offset - Width(file[0]))
    else None
  }

  /** Where the first line ends: at a line feed or a carriage return. */
  function LineEnd(text: string): (i: nat)
    ensures i <= |text|
    ensures i < |text| ==> text[i] == '\n' || text[i] == '\r'
    ensures forall k :: 0 <= k < i ==> text[k] != '\n' && text[k] != '\r'
  {
    if text == "" || text[0] == '\n' || text[0] == '\r' then 0 else 1 + LineEnd(text[1..])
  }

  /** How many characters the first whole line takes in the file, its ending included. */
  function Taken(text: string): (n: nat)
    requires LineEnd(text) < |text|
    ensures 0 < n <= |text|
  {
    var i := LineEnd(text);
    if text[i] == '\r' && i + 1 < |text| && text[i + 1] == '\n' then i + 2 else i + 1
  }

  /** The complete lines of a text, as the reader sees them: each with a line feed for its ending. */
  function Complete(text: string): seq<string>
    decreases |text|
  {
    if LineEnd(text) == |text| then []
    else [text[..LineEnd(text)] + "\n"] + Complete(text[Taken(text)..])
  }

  function Take(lines: seq<string>, limit: nat): seq<string> {
    if limit < |lines| then lines[..limit] else lines
  }

  function Encoded(lines: seq<string>): nat {
    if lines == [] then 0 else ByteLen(lines[0]) + Encoded(lines[1..])
  }

  // ---------------------------------------------------------------- the follow loop

  /**
   `processed` is the lines the loop has gone round for: a blank line, or one that is no entry,
   is among them, though nothing is shown for it.
   */
  datatype Tail = Tail(file: string, offset: nat, processed: seq<string>)

  /** A writer appends, or a pass reads; an error may end a pass after some lines. */
  datatype Event = Append(text: string) | Pass(limit: nat)

  function Read(s: Tail, limit: nat): seq<string> {
    var suffix := SuffixAt(s.file, s.offset);
    if suffix.None? then [] else Take(Complete(suffix.value), limit)
  }

  function Step(s: Tail, event: Event): Tail {
    match event
    case Append(text) => s.(file := s.file + text)
    case Pass(limit) =>
      var lines := Read(s, limit);
      s.(offset := s.offset + Encoded(lines), processed := s.processed + lines)
  }

  function After(s: Tail, events: seq<Event>): Tail
    decreases |events|
  {
    if events == [] then s else After(Step(s, events[0]), events[1..])
  }

  class Follower {
    var offset: nat
    var processed: seq<string>

    constructor ()
      ensures offset == 0 && processed == []
    {
      offset, processed := 0, [];
    }

    /** One pass over the file as it is now; `limit` is where an error happens to end it. */
    method ReadPass(file: string, limit: nat)
      modifies this
      ensures Tail(file, offset, processed) == Step(Tail(file, old(offset), old(processed)), Pass(limit))
    {
      var suffix := SuffixAt(file, offset);
      if suffix.None? { return; }
      var rest := suffix.value;
      var left := limit;
      ghost var done: seq<string> := [];
      while left > 0 && LineEnd(rest) < |rest|
        invariant 0 <= left <= limit && |done| == limit - left
        invariant Complete(suffix.value) == done + Complete(rest)
        invariant processed == old(processed) + done && offset == old(offset) + Encoded(done)
        decreases left
      {
        var line := rest[..LineEnd(rest)] + "\n";
        offset := offset + ByteLen(line);
        processed := processed + [line];
        rest := rest[Taken(rest)..];
        left := left - 1;
        EncodedOneMore(done, line);
        ThreeParts(done, [line], Complete(rest));
        done := done + [line];
      }
      if left > 0 {
        assert LineEnd(rest) == |rest|;
        assert Complete(rest) == [];
      }
      TakeDone(done, Complete(rest), limit);
    }
  }

  lemma TakeDone(done: seq<string>, rest: seq<string>, limit: nat)
    requires |done| <= limit && (|done| < limit ==> rest == [])
    ensures Take(done + rest, limit) == done
  {
  }

  lemma EncodedOneMore(lines: seq<string>, line: string)
    ensures Encoded(lines + [line]) == Encoded(lines) + ByteLen(line)
  {
    if lines == [] {
      assert [] + [line] == [line];
      assert [line][1..] == [];
    } else {
      assert (lines + [line])[1..] == lines[1..] + [line];
      EncodedOneMore(lines[1..], line);
    }
  }

  // ---------------------------------------------------------------- where lines end

  lemma ByteLenOver(a: string, b: string)
    ensures ByteLen(a + b) == ByteLen(a) + ByteLen(b)
  {
    if a == "" {
      assert a + b == b;
    } else {
      assert (a + b)[1..] == a[1..] + b;
      ByteLenOver(a[1..], b);
    }
  }

  lemma SeekFinds(a: string, b: string)
    ensures SuffixAt(a + b, ByteLen(a)) == Some(b)
  {
    if a == "" {
      assert a + b == b;
    } else {
      assert (a + b)[1..] == a[1..] + b;
      SeekFinds(a[1..], b);
    }
  }

  lemma EncodedInFront(line: string, lines: seq<string>)
    ensures Encoded([line] + lines) == ByteLen(line) + Encoded(lines)
  {
    assert ([line] + lines)[1..] == lines;
  }

  predicate Ends(text: string, c: char) {
    text != "" && text[|text| - 1] == c
  }

  /** The two characters of one line ending, one at the end of `read` and one in front of `rest`. */
  predicate SplitsPair(read: string, rest: string) {
    Ends(read, '\r') && rest != "" && rest[0] == '\n'
  }

  /** `read` is whole lines of `read + rest`, endings included. */
  predicate WholeLines(read: string, rest: string) {
    read == "" || ((Ends(read, '\n') || Ends(read, '\r')) && !SplitsPair(read, rest))
  }

  lemma LineEndOver(a: string, b: string)
    ensures LineEnd(a + b) == if LineEnd(a) < |a| then LineEnd(a) else |a| + LineEnd(b)
  {
    if a == "" {
      assert a + b == b;
    } else {
      assert (a + b)[1..] == a[1..] + b;
      LineEndOver(a[1..], b);
    }
  }

  lemma TakenOver(a: string, b: string)
    requires LineEnd(a) < |a| && !SplitsPair(a, b)
    ensures LineEnd(a + b) == LineEnd(a) && Taken(a + b) == Taken(a)
  {
    hide LineEnd;
    LineEndOver(a, b);
    var i := LineEnd(a);
    assert (a + b)[i] == a[i];
    if i + 1 < |a| {
      assert (a + b)[i + 1] == a[i + 1];
    } else if b != "" {
      assert (a + b)[i + 1] == b[0];
    }
  }

  lemma WholeLinesAfter(a: string, b: string, n: nat)
    requires WholeLines(a, b) && n <= |a|
    ensures WholeLines(a[n..], b)
  {
    if n < |a| {
      assert a[n..][|a| - n - 1] == a[|a| - 1];
    }
  }

  lemma WholeHasLine(a: string, b: string)
    requires a != "" && WholeLines(a, b)
    ensures LineEnd(a) < |a| && !SplitsPair(a, b)
  {
  }

  /** The first line of whole lines is the first line of what they begin. */
  lemma FirstLineOver(a: string, b: string)
    requires a != "" && WholeLines(a, b)
    ensures LineEnd(a) < |a| && LineEnd(a + b) == LineEnd(a) && Taken(a + b) == Taken(a)
    ensures (a + b)[..LineEnd(a)] == a[..LineEnd(a)] && (a + b)[Taken(a)..] == a[Taken(a)..] + b
    ensures WholeLines(a[Taken(a)..], b)
  {
    hide *;
    WholeHasLine(a, b);
    TakenOver(a, b);
    WholeLinesAfter(a, b, Taken(a));
  }

  lemma CompleteOverStep(a: string, b: string)
    requires a != "" && WholeLines(a, b)
    ensures Complete(a + b) == [a[..LineEnd(a)] + "\n"] + Complete(a[Taken(a)..] + b)
    ensures Complete(a) == [a[..LineEnd(a)] + "\n"] + Complete(a[Taken(a)..])
  {
    hide WholeLines;
    hide LineEnd;
    hide Taken;
    FirstLineOver(a, b);
  }

  lemma NoneComplete()
    ensures Complete("") == []
  {
  }

  lemma {:induction false} CompleteOver(a: string, b: string)
    requires WholeLines(a, b)
    ensures Complete(a + b) == Complete(a) + Complete(b)
    decreases |a|
  {
    hide WholeLines;
    hide LineEnd;
    hide Taken;
    hide Complete;
    if a == "" {
      NoneComplete();
      assert a + b == b;
    } else {
      FirstLineOver(a, b);
      CompleteOverStep(a, b);
      CompleteOver(a[Taken(a)..], b);
    }
  }

  lemma SplitPairFirst(a: string, b: string)
    requires SplitsPair(a, b)
    ensures LineEnd(a) < |a| && LineEnd(a + b) == LineEnd(a) && LineEnd(b) == 0 && Taken(b) == 1
    ensures if Taken(a) == |a| then (a + b)[Taken(a + b)..] == b[1..]
            else (a + b)[Taken(a + b)..] == a[Taken(a)..] + b && SplitsPair(a[Taken(a)..], b)
  {
    EndsInLine(a);
    StartsInBreak(b);
    LineEndOver(a, b);
    hide LineEnd;
    var i := LineEnd(a);
    assert (a + b)[i] == a[i];
    if i == |a| - 1 {
      assert (a + b)[i + 1] == b[0];
      assert (a + b)[|a| + 1..] == b[1..];
    } else {
      assert (a + b)[i + 1] == a[i + 1];
      assert Taken(a) < |a|;
      WholePartSplits(a, b, Taken(a));
    }
  }

  lemma EndsInLine(a: string)
    requires Ends(a, '\r')
    ensures LineEnd(a) < |a|
  {
  }

  lemma StartsInBreak(b: string)
    requires b != "" && b[0] == '\n'
    ensures LineEnd(b) == 0
  {
  }

  lemma WholePartSplits(a: string, b: string, n: nat)
    requires SplitsPair(a, b) && n < |a|
    ensures SplitsPair(a[n..], b) && (a + b)[n..] == a[n..] + b
  {
    assert a[n..][|a| - n - 1] == a[|a| - 1];
  }

  lemma OneMore(text: string)
    requires LineEnd(text) < |text|
    ensures |Complete(text)| == 1 + |Complete(text[Taken(text)..])|
  {
    hide LineEnd;
    hide Taken;
  }

  /** A line ending split in two is read as two lines. */
  lemma {:induction false} SplitPairReadsTwice(a: string, b: string)
    requires SplitsPair(a, b)
    ensures |Complete(a + b)| + 1 == |Complete(a)| + |Complete(b)|
    decreases |a|
  {
    hide *;
    SplitPairFirst(a, b);
    OneMore(a);
    OneMore(b);
    OneMore(a + b);
    if Taken(a) == |a| {
      assert a[|a|..] == "";
      NoneComplete();
    } else {
      SplitPairReadsTwice(a[Taken(a)..], b);
    }
  }

  lemma EndedLine(x: string)
    requires Ends(x, '\n') || Ends(x, '\r')
    ensures Complete(x) != []
  {
  }

  lemma AtMostACharacterALine(text: string)
    ensures |Complete(text)| <= |text|
    decreases |text|
  {
    if LineEnd(text) < |text| {
      AtMostACharacterALine(text[Taken(text)..]);
    }
  }

  // ---------------------------------------------------------------- what a pass consumes

  /** How many of the first `n` lines end in a carriage return and a line feed. */
  function Pairs(text: string, n: nat): nat
    decreases n
  {
    if n == 0 || LineEnd(text) == |text| then 0
    else (if Taken(text) == LineEnd(text) + 2 then 1 else 0) + Pairs(text[Taken(text)..], n - 1)
  }

  /** The bytes of the file the first `n` lines take. */
  function Consumed(text: string, n: nat): nat
    decreases n
  {
    if n == 0 || LineEnd(text) == |text| then 0
    else ByteLen(text[..Taken(text)]) + Consumed(text[Taken(text)..], n - 1)
  }

  /**
   On any text, the offset a pass adds falls short of what it consumed by one byte for each
   line ending of two characters, so it is exact if and only if there is none among them.
   */
  lemma {:induction false} OffsetExactIff(text: string, n: nat)
    ensures Encoded(Take(Complete(text), n)) + Pairs(text, n) == Consumed(text, n)
    ensures Encoded(Take(Complete(text), n)) == Consumed(text, n) <==> Pairs(text, n) == 0
    decreases n
  {
    if n > 0 && LineEnd(text) < |text| {
      var rest := text[Taken(text)..];
      OffsetExactIff(rest, n - 1);
      var line := text[..LineEnd(text)] + "\n";
      TakeOfCons(line, Complete(rest), n);
      EncodedInFront(line, Take(Complete(rest), n - 1));
      LineBytes(text);
    }
  }

  lemma TakeOfCons(x: string, xs: seq<string>, n: nat)
    requires n > 0
    ensures Take([x] + xs, n) == [x] + Take(xs, n - 1)
  {
  }

  lemma LineBytes(text: string)
    requires LineEnd(text) < |text|
    ensures ByteLen(text[..Taken(text)])
         == ByteLen(text[..LineEnd(text)] + "\n") + if Taken(text) == LineEnd(text) + 2 then 1 else 0
  {
    hide LineEnd;
    hide ByteLen;
    var body, ending := text[..LineEnd(text)], text[LineEnd(text)..Taken(text)];
    assert text[..Taken(text)] == body + ending;
    ByteLenOver(body, ending);
    ByteLenOver(body, "\n");
    OneByte('\n');
    EndingBytes(text);
  }

  lemma TwoBytes(c: char, d: char)
    requires c < '\U{80}' && d < '\U{80}'
    ensures ByteLen([c, d]) == 2
  {
    OneByte(c);
    OneByte(d);
    ByteLenOver([c], [d]);
    assert [c] + [d] == [c, d];
  }

  lemma OneByte(c: char)
    requires c < '\U{80}'
    ensures ByteLen([c]) == 1
  {
    assert [c][1..] == "";
  }

  /** A line ending takes as many bytes as it has characters. */
  lemma EndingBytes(text: string)
    requires LineEnd(text) < |text|
    ensures ByteLen(text[LineEnd(text)..Taken(text)]) == Taken(text) - LineEnd(text)
  {
    hide LineEnd;
    hide ByteLen;
    var n, taken := LineEnd(text), Taken(text);
    OneByte(text[n]);
    if taken == n + 2 {
      TwoBytes(text[n], text[n + 1]);
      assert text[n..taken] == [text[n], text[n + 1]];
    } else {
      assert text[n..taken] == [text[n]];
    }
  }

  lemma NothingTaken(text: string, n: nat)
    requires n == 0 || LineEnd(text) == |text|
    ensures WholeLines("", text) && Complete("") == [] == Take(Complete(text), n)
            && ByteLen("") == 0 == Consumed(text, n)
  {
  }

  lemma FirstLineAlone(text: string)
    requires LineEnd(text) < |text|
    ensures var line := text[..Taken(text)];
            && LineEnd(line) == LineEnd(text) < |line| && Taken(line) == |line|
            && line[..LineEnd(text)] == text[..LineEnd(text)]
  {
    var line := text[..Taken(text)];
    assert text == line + text[Taken(text)..];
    LineEndOver(line, text[Taken(text)..]);
  }

  lemma CompleteAlone(text: string)
    requires LineEnd(text) < |text|
    ensures Complete(text[..Taken(text)]) == [text[..LineEnd(text)] + "\n"]
  {
    hide LineEnd;
    hide Taken;
    FirstLineAlone(text);
    var line := text[..Taken(text)];
    assert line[|line|..] == "" && Complete("") == [];
  }

  lemma FirstLineIsWhole(text: string, later: string, rest: string)
    requires LineEnd(text) < |text| && text[Taken(text)..] == later + rest
    ensures WholeLines(text[..Taken(text)], later)
  {
    hide LineEnd;
    hide WholeLines;
    LineIsWhole(text, Taken(text), later, rest);
  }

  lemma LineIsWhole(text: string, n: nat, later: string, rest: string)
    requires 0 < n <= |text| && text[n..] == later + rest
    requires text[n - 1] == '\n' || (text[n - 1] == '\r' && (n < |text| ==> text[n] != '\n'))
    ensures WholeLines(text[..n], later)
  {
    if later != "" {
      assert later[0] == (later + rest)[0] == text[n..][0];
    }
  }

  lemma WholeLinesOn(read: string, more: string, rest: string)
    requires WholeLines(read, more + rest) && WholeLines(more, rest)
    ensures WholeLines(read, more) && WholeLines(read + more, rest)
  {
    if more == "" {
      assert more + rest == rest && read + more == read;
    }
  }

  lemma OneLineTaken(text: string, later: string, rest: string)
    requires LineEnd(text) < |text| && text[Taken(text)..] == later + rest && WholeLines(later, rest)
    ensures var line := text[..Taken(text)];
            && WholeLines(line, later) && WholeLines(line + later, rest)
            && Complete(line) == [text[..LineEnd(text)] + "\n"]
  {
    hide Complete;
    hide LineEnd;
    hide Taken;
    hide WholeLines;
    CompleteAlone(text);
    FirstLineIsWhole(text, later, rest);
    assert later + rest + "" == later + rest;
    FirstLineIsWhole(text, later + rest, "");
    WholeLinesOn(text[..Taken(text)], later, rest);
  }

  lemma TakesFirst(text: string, n: nat)
    requires n > 0 && LineEnd(text) < |text|
    ensures Take(Complete(text), n)
            == [text[..LineEnd(text)] + "\n"] + Take(Complete(text[Taken(text)..]), n - 1)
    ensures Consumed(text, n) == ByteLen(text[..Taken(text)]) + Consumed(text[Taken(text)..], n - 1)
  {
    hide LineEnd;
    hide Taken;
    hide ByteLen;
    TakeOfCons(text[..LineEnd(text)] + "\n", Complete(text[Taken(text)..]), n);
  }

  /** What `n` lines take is whole lines, and they are all the lines of it. */
  lemma {:induction false} PassConsumes(text: string, n: nat) returns (more: string, rest: string)
    ensures text == more + rest && WholeLines(more, rest)
    ensures Complete(more) == Take(Complete(text), n) && ByteLen(more) == Consumed(text, n)
    decreases n
  {
    hide *;
    if n == 0 || LineEnd(text) == |text| {
      more, rest := "", text;
      NothingTaken(text, n);
    } else {
      var line, others := text[..Taken(text)], text[Taken(text)..];
      assert text == line + others;
      var later;
      later, rest := PassConsumes(others, n - 1);
      more := line + later;
      assert line + (later + rest) == more + rest;
      OneLineTaken(text, later, rest);
      TakesFirst(text, n);
      CompleteOver(line, later);
      ByteLenOver(line, later);
    }
  }

  // ---------------------------------------------------------------- exactly once

  /** What is ahead of the offset is exactly what has not been processed. */
  predicate OnTrack(s: Tail) {
    var suffix := SuffixAt(s.file, s.offset);
    suffix.Some? && Complete(s.file) == s.processed + Complete(suffix.value)
  }

  predicate AlwaysOnTrack(s: Tail, events: seq<Event>)
    decreases |events|
  {
    OnTrack(s) && (events == [] || AlwaysOnTrack(Step(s, events[0]), events[1..]))
  }

  /**
   No line a pass takes ends in both characters, and when the file has been read to its end
   nothing appended completes a line ending whose first half was read.
   */
  predicate CleanStep(s: Tail, event: Event) {
    var suffix := SuffixAt(s.file, s.offset);
    match event
    case Append(text) => suffix == Some("") ==> !SplitsPair(s.file, text)
    case Pass(limit) => suffix.Some? ==> Pairs(suffix.value, limit) == 0
  }

  predicate Clean(s: Tail, events: seq<Event>)
    decreases |events|
  {
    events == [] || (CleanStep(s, events[0]) && Clean(Step(s, events[0]), events[1..]))
  }

  /** Where a run on track stands: whole lines have been read, and all of them processed. */
  predicate Stands(s: Tail, read: string, rest: string) {
    && s.file == read + rest && WholeLines(read, rest)
    && s.offset == ByteLen(read) && s.processed == Complete(read)
  }

  lemma StandsOnTrack(s: Tail, read: string, rest: string)
    requires Stands(s, read, rest)
    ensures OnTrack(s) && SuffixAt(s.file, s.offset) == Some(rest)
    ensures Complete(s.file) == s.processed + Complete(rest)
  {
    hide WholeLines;
    SeekFinds(read, rest);
    CompleteOver(read, rest);
  }

  lemma AppendStands(s: Tail, text: string, read: string, rest: string)
    requires Stands(s, read, rest) && CleanStep(s, Append(text))
    ensures Stands(Step(s, Append(text)), read, rest + text)
  {
    hide Complete;
    StandsOnTrack(s, read, rest);
    assert read + rest + text == read + (rest + text);
    if rest == "" {
      assert read + rest == read && rest + text == text;
    }
  }

  lemma SplitAppendGoesOff(s: Tail, text: string, read: string, rest: string)
    requires Stands(s, read, rest) && !CleanStep(s, Append(text))
    ensures !OnTrack(Step(s, Append(text)))
  {
    hide WholeLines;
    hide Complete;
    StandsOnTrack(s, read, rest);
    assert read + rest == read;
    SplitPairReadsTwice(read, text);
    SeekFinds(read, text);
  }

  /** What a pass leaves: its lines are behind it, and the offset is short of them by the pairs. */
  lemma PassMoves(s: Tail, limit: nat, read: string, rest: string) returns (more: string, rest': string)
    requires Stands(s, read, rest)
    ensures rest == more + rest' && WholeLines(more, rest') && s.file == read + more + rest'
    ensures WholeLines(read + more, rest')
    ensures var s' := Step(s, Pass(limit));
            && s'.file == s.file && s'.processed == s.processed + Complete(more)
            && s'.processed == Complete(read + more) == Complete(read) + Complete(more)
            && s'.offset + Pairs(rest, limit) == ByteLen(read + more) && s'.offset >= ByteLen(read)
    ensures Complete(more) == Take(Complete(rest), limit)
  {
    hide Complete;
    hide Encoded;
    hide Pairs;
    hide Consumed;
    hide ByteLen;
    hide Take;
    StandsOnTrack(s, read, rest);
    more, rest' := PassConsumes(rest, limit);
    OffsetExactIff(rest, limit);
    assert read + (more + rest') == read + more + rest';
    WholeLinesOn(read, more, rest');
    CompleteOver(read, more);
    ByteLenOver(read, more);
  }

  lemma CleanPassStands(s: Tail, limit: nat, read: string, rest: string) returns (read': string, rest': string)
    requires Stands(s, read, rest) && CleanStep(s, Pass(limit))
    ensures Stands(Step(s, Pass(limit)), read', rest')
    ensures Complete(read') == Complete(read) + Take(Complete(rest), limit)
  {
    hide Complete;
    hide Step;
    hide WholeLines;
    hide ByteLen;
    var more;
    StandsOnTrack(s, read, rest);
    more, rest' := PassMoves(s, limit, read, rest);
    read' := read + more;
  }

  /** Seeking to a byte before the end of `a` reads a last part of it again. */
  lemma SeekShort(a: string, b: string, offset: nat) returns (x: string)
    requires offset < ByteLen(a) && SuffixAt(a + b, offset).Some?
    ensures x != "" && SuffixAt(a + b, offset) == Some(x + b)
    ensures |x| <= |a| && x == a[|a| - |x|..]
  {
    if offset == 0 {
      x := a;
    } else {
      assert (a + b)[1..] == a[1..] + b;
      x := SeekShort(a[1..], b, offset - Width(a[0]));
    }
  }

  /** After a pass over a pair the file has more lines ahead than have not been processed. */
  lemma PairPassGoesOff(s: Tail, limit: nat, read: string, rest: string)
    requires Stands(s, read, rest) && !CleanStep(s, Pass(limit))
    ensures !OnTrack(Step(s, Pass(limit)))
  {
    hide Complete;
    hide Step;
    hide ByteLen;
    StandsOnTrack(s, read, rest);
    var more, rest' := PassMoves(s, limit, read, rest);
    var s' := Step(s, Pass(limit));
    if SuffixAt(s'.file, s'.offset).Some? {
      var x := SeekShort(read + more, rest', s'.offset);
      EndedLine(x);
      CompleteOver(x, rest');
      CompleteOver(read + more, rest');
    }
  }

  lemma CleanStepStands(s: Tail, event: Event, read: string, rest: string) returns (read': string, rest': string)
    requires Stands(s, read, rest) && CleanStep(s, event)
    ensures Stands(Step(s, event), read', rest')
  {
    match event
    case Append(text) =>
      AppendStands(s, text, read, rest);
      read', rest' := read, rest + text;
    case Pass(limit) => read', rest' := CleanPassStands(s, limit, read, rest);
  }

  lemma UncleanStepGoesOff(s: Tail, event: Event, read: string, rest: string)
    requires Stands(s, read, rest) && !CleanStep(s, event)
    ensures !OnTrack(Step(s, event))
  {
    match event
    case Append(text) => SplitAppendGoesOff(s, text, read, rest);
    case Pass(limit) => PairPassGoesOff(s, limit, read, rest);
  }

  lemma {:induction false} TrackIff(s: Tail, events: seq<Event>, read: string, rest: string)
    requires Stands(s, read, rest)
    ensures AlwaysOnTrack(s, events) <==> Clean(s, events)
    decreases |events|
  {
    hide Stands;
    hide CleanStep;
    hide Step;
    hide OnTrack;
    StandsOnTrack(s, read, rest);
    if events != [] {
      var next := Step(s, events[0]);
      if CleanStep(s, events[0]) {
        var read', rest' := CleanStepStands(s, events[0], read, rest);
        TrackIff(next, events[1..], read', rest');
      } else {
        UncleanStepGoesOff(s, events[0], read, rest);
      }
    }
  }

  lemma {:induction false} CleanRunStands(s: Tail, events: seq<Event>, read: string, rest: string)
    returns (read': string, rest': string)
    requires Stands(s, read, rest) && Clean(s, events)
    ensures Stands(After(s, events), read', rest')
    decreases |events|
  {
    hide Stands;
    hide CleanStep;
    hide Step;
    if events == [] {
      read', rest' := read, rest;
    } else {
      read', rest' := CleanStepStands(s, events[0], read, rest);
      read', rest' := CleanRunStands(Step(s, events[0]), events[1..], read', rest');
    }
  }

  const UNREAD := Tail("", 0, [])

  lemma UnreadStands()
    ensures Stands(UNREAD, "", "")
  {
    assert "" + "" == "";
  }

  /**
   Main result. For any interleaving of appends and passes, of any text: at every moment the
   lines processed and the lines ahead are together the complete lines of the file, each once
   and in order, if and only if every step is clean.
   */
  lemma ExactlyOnceIff(events: seq<Event>)
    ensures AlwaysOnTrack(UNREAD, events) <==> Clean(UNREAD, events)
  {
    UnreadStands();
    TrackIff(UNREAD, events, "", "");
  }

  predicate LineFeedsOnly(text: string) {
    forall i :: 0 <= i < |text| ==> text[i] != '\r'
  }

  predicate AppendsLineFeedsOnly(events: seq<Event>) {
    forall e <- events :: e.Append? ==> LineFeedsOnly(e.text)
  }

  lemma NoPairs(text: string, n: nat)
    requires LineFeedsOnly(text)
    ensures Pairs(text, n) == 0
    decreases n
  {
    if n > 0 && LineEnd(text) < |text| {
      NoPairs(text[Taken(text)..], n - 1);
    }
  }

  lemma SuffixOf(file: string, offset: nat)
    ensures var suffix := SuffixAt(file, offset);
            suffix.Some? ==> |suffix.value| <= |file| && suffix.value == file[|file| - |suffix.value|..]
  {
  }

  lemma {:induction false} LineFeedsAreClean(s: Tail, events: seq<Event>)
    requires LineFeedsOnly(s.file) && AppendsLineFeedsOnly(events)
    ensures Clean(s, events) && LineFeedsOnly(After(s, events).file)
    decreases |events|
  {
    if events != [] {
      assert events[0] in events;
      SuffixOf(s.file, s.offset);
      if events[0].Pass? && SuffixAt(s.file, s.offset).Some? {
        NoPairs(SuffixAt(s.file, s.offset).value, events[0].limit);
      }
      LineFeedsAreClean(Step(s, events[0]), events[1..]);
    }
  }

  lemma TakeAll(lines: seq<string>, limit: nat)
    requires |lines| <= limit
    ensures Take(lines, limit) == lines
  {
  }

  /**
   Line feeds alone are always clean: what was processed is a first part of the complete lines
   of the file, in order and each once, and the offset is the end of the last of them; a pass
   that is not cut short leaves no complete line unprocessed.
   */
  lemma ExactlyOnce(events: seq<Event>)
    requires AppendsLineFeedsOnly(events)
    ensures var s := After(UNREAD, events);
            exists read: string :: read <= s.file && (read == "" || Ends(read, '\n'))
              && s.offset == ByteLen(read) && s.processed == Complete(read)
              && Complete(s.file) == s.processed + Complete(s.file[|read|..])
    ensures var s := After(UNREAD, events);
            var passed := Step(s, Pass(|s.file|));
            passed.processed == Complete(s.file)
  {
    hide Complete;
    hide ByteLen;
    UnreadStands();
    LineFeedsAreClean(UNREAD, events);
    var s := After(UNREAD, events);
    var read, rest := CleanRunStands(UNREAD, events, "", "");
    StandsOnTrack(s, read, rest);
    assert s.file[|read|..] == rest;
    AtMostACharacterALine(rest);
    NoPairs(rest, |s.file|);
    var read', rest' := CleanPassStands(s, |s.file|, read, rest);
    TakeAll(Complete(rest), |s.file|);
  }

  lemma PairTexts()
    ensures Complete("a\r") == ["a\n"] == Complete("a\r\n") && Complete("\n") == ["\n"]
  {
    NoneComplete();
    assert LineEnd("a\r") == 1 == LineEnd("a\r\n");
    assert "a\r"[2..] == "" && "a\r"[..1] + "\n" == "a\n";
    assert "\n"[1..] == "" && "\n"[..0] + "\n" == "\n";
    assert "a\r\n"[3..] == "" && "a\r\n"[..1] + "\n" == "a\n";
  }

  lemma TwoBytesEach()
    ensures Encoded(["a\n"]) == 2 == ByteLen("a\r")
  {
    TwoBytes('a', '\n');
    TwoBytes('a', '\r');
    assert ["a\n"][1..] == [];
  }

  /** Reading between the two characters of a line ending: the second is read as a line of its own. */
  lemma PairReadInTwoPasses()
    ensures var once := Step(Step(UNREAD, Append("a\r")), Pass(9));
            var twice := Step(Step(once, Append("\n")), Pass(9));
            && once.processed == ["a\n"] && twice.processed == ["a\n", "\n"]
            && Complete(twice.file) == ["a\n"]
  {
    hide Complete;
    hide Encoded;
    hide ByteLen;
    PairTexts();
    TwoBytesEach();
    SeekFinds("a\r", "\n");
    assert "" + "a\r" == "a\r" && "a\r" + "\n" == "a\r\n";
  }

  /** With three lines that end in both characters the second pass processes the last one again. */
  lemma PairsMakeItReadTwice()
    ensures var file := Crlf('a') + (Crlf('b') + (Crlf('c') + ""));
            var once := Step(Tail(file, 0, []), Pass(9));
            && once.processed == [] + ([Lf('a')] + ([Lf('b')] + ([Lf('c')] + []))) && once.offset == 6
            && Step(once, Pass(9)).processed == once.processed + ([Lf('c')] + [])
  {
    hide Complete;
    hide Encoded;
    hide SuffixAt;
    hide Crlf;
    hide Lf;
    var last := Crlf('c') + "";
    LineOf('a', Crlf('b') + last);
    LineOf('b', last);
    LineOf('c', "");
    NoneComplete();
    NoneEncoded();
    EncodedOf('c', []);
    EncodedOf('b', [Lf('c')] + []);
    EncodedOf('a', [Lf('b')] + ([Lf('c')] + []));
    SixBytesIn(last);
    var file := Crlf('a') + (Crlf('b') + last);
    var lines := [Lf('a')] + ([Lf('b')] + ([Lf('c')] + []));
    assert Complete(file) == lines && |lines| == 3;
    assert SuffixAt(file, 0) == Some(file) by { SeekFinds("", file); assert "" + file == file; }
    var once := Step(Tail(file, 0, []), Pass(9));
    assert once == Tail(file, 6, [] + lines);
  }

  lemma NoneEncoded()
    ensures Encoded([]) == 0
  {
  }

  lemma SixBytesIn(last: string)
    ensures SuffixAt(Crlf('a') + (Crlf('b') + last), 6) == Some(last)
  {
    var read := Crlf('a') + Crlf('b');
    assert Crlf('a') + (Crlf('b') + last) == read + last;
    ThreeBytes('a');
    ThreeBytes('b');
    ByteLenOver(Crlf('a'), Crlf('b'));
    SeekFinds(read, last);
  }

  function Crlf(c: char): string {
    [c] + "\r\n"
  }

  function Lf(c: char): string {
    [c] + "\n"
  }

  lemma LineOf(c: char, rest: string)
    requires c != '\r' && c != '\n'
    ensures Complete(Crlf(c) + rest) == [Lf(c)] + Complete(rest)
  {
    var text := Crlf(c) + rest;
    assert text[1..][0] == '\r' && text[2] == '\n';
    assert LineEnd(text) == 1 && Taken(text) == 3;
    assert text[..1] + "\n" == Lf(c) && text[3..] == rest;
  }

  lemma EncodedOf(c: char, lines: seq<string>)
    requires c < '\U{80}'
    ensures Encoded([Lf(c)] + lines) == 2 + Encoded(lines)
  {
    EncodedInFront(Lf(c), lines);
    ByteLenOver([c], "\n");
    OneByte(c);
    OneByte('\n');
  }

  lemma ThreeBytes(c: char)
    requires c < '\U{80}'
    ensures ByteLen(Crlf(c)) == 3
  {
    ByteLenOver([c], "\r\n");
    ByteLenOver("\r", "\n");
    assert "\r" + "\n" == "\r\n";
    OneByte(c);
    OneByte('\r');
    OneByte('\n');
  }

  // ---------------------------------------------------------------- the bytes of a character

  /** A byte that continues a character, and its six bits. */
  function Tail6(n: int): int {
    0x80 + n % 64
  }

  /** A character's bytes in UTF-8, as section 3 of RFC 3629 lays them out. */
  function Utf8(c: char): seq<int> {
    var n := c as int;
    if n < 0x80 then [n]
    else if n < 0x800 then [0xC0 + n / 64, Tail6(n)]
    else if n < 0x1_0000 then [0xE0 + n / 64 / 64, Tail6(n / 64), Tail6(n)]
    else [0xF0 + n / 64 / 64 / 64, Tail6(n / 64 / 64), Tail6(n / 64), Tail6(n)]
  }

  /** The number the bytes of one character stand for, six bits from each but the first. */
  function Scalar(bytes: seq<int>): int
    requires bytes != []
  {
    if |bytes| == 1 then
      if bytes[0] < 0x80 then bytes[0]
      else if bytes[0] < 0xE0 then bytes[0] - 0xC0
      else if bytes[0] < 0xF0 then bytes[0] - 0xE0
      else bytes[0] - 0xF0
    else 64 * Scalar(bytes[..|bytes| - 1]) + (bytes[|bytes| - 1] - 0x80)
  }

  lemma LastSix(first: seq<int>, n: int)
    requires first != [] && Scalar(first) == n / 64
    ensures Scalar(first + [Tail6(n)]) == n
  {
    assert (first + [Tail6(n)])[..|first|] == first;
  }

  lemma LeadByte(c: char)
    ensures |Utf8(c)| == Width(c)
    ensures Width(c) == 1 <==> Utf8(c)[0] < 0x80
    ensures Width(c) == 2 <==> 0xC0 <= Utf8(c)[0] < 0xE0
    ensures Width(c) == 3 <==> 0xE0 <= Utf8(c)[0] < 0xF0
    ensures Width(c) == 4 <==> 0xF0 <= Utf8(c)[0] < 0xF8
    ensures forall i :: 0 < i < |Utf8(c)| ==> 0x80 <= Utf8(c)[i] < 0xC0
  {
  }

  /** A width is the number of those bytes, which stand for the character again. */
  lemma WidthIsUtf8(c: char)
    ensures |Utf8(c)| == Width(c) && Scalar(Utf8(c)) == c as int
  {
    LeadByte(c);
    hide Tail6;
    var n := c as int;
    if n >= 0x1_0000 {
      var lead := [0xF0 + n / 64 / 64 / 64];
      LastSix(lead, n / 64 / 64);
      LastSix(lead + [Tail6(n / 64 / 64)], n / 64);
      LastSix(lead + [Tail6(n / 64 / 64)] + [Tail6(n / 64)], n);
      assert Utf8(c) == lead + [Tail6(n / 64 / 64)] + [Tail6(n / 64)] + [Tail6(n)];
    } else if n >= 0x800 {
      var lead := [0xE0 + n / 64 / 64];
      LastSix(lead, n / 64);
      LastSix(lead + [Tail6(n / 64)], n);
      assert Utf8(c) == lead + [Tail6(n / 64)] + [Tail6(n)];
    } else if n >= 0x80 {
      LastSix([0xC0 + n / 64], n);
      assert Utf8(c) == [0xC0 + n / 64] + [Tail6(n)];
    }
  }

  function Bytes(text: string): seq<int> {
    if text == "" then [] else Utf8(text[0]) + Bytes(text[1..])
  }

  /** So a text's length in bytes is that of its encoding. */
  lemma {:induction false} ByteLenIsUtf8(text: string)
    ensures ByteLen(text) == |Bytes(text)|
  {
    hide Utf8;
    hide Width;
    if text != "" {
      WidthIsUtf8(text[0]);
      ByteLenIsUtf8(text[1..]);
    }
  }
}
