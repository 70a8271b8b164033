/**
 String literals of the three families of dialects: printed by the quoting function and read
 back by the grammar of the dialect.
 */
module SqlText {
  import opened Common

  /** How a dialect spells the escapes inside a single-quoted literal. */
  datatype LiteralEscape = Standard | DoubleAndBackslash | Backslash

  /** Every `c` replaced by `with`, as a global replace does it. */
  function ReplaceAll(s: string, c: char, with: string): string {
    if s == "" then "" else (if s[0] == c then with else [s[0]]) + ReplaceAll(s[1..], c, with)
  }

  function QuoteLiteral(value: string, escape: LiteralEscape): string {
    "'" + Escaped(value, escape) + "'"
  }

  /** The backslash goes first, or the one added in front of a quote would be doubled too. */
  function Escaped(value: string, escape: LiteralEscape): string {
    match escape
    case Standard => ReplaceAll(value, '\'', "''")
    case DoubleAndBackslash => ReplaceAll(ReplaceAll(value, '\\', "\\\\"), '\'', "''")
    case Backslash => ReplaceAll(ReplaceAll(value, '\\', "\\\\"), '\'', "\\'")
  }

  /** What a literal was read as, and the text after its closing quote. */
  datatype Reading = Reading(value: string, rest: string)

  /**
   Read the inside of a literal, up to its closing quote. Where the quote is doubled, a pair
   stands for one quote; where a backslash escapes, it stands for the character after it.
   */
  function ReadLiteral(text: string, escape: LiteralEscape): Option<Reading> {
    if text == "" then None
    else if text[0] == '\\' && escape != Standard then
      if |text| == 1 then None else Prefixed(text[1], ReadLiteral(text[2..], escape))
    else if text[0] == '\'' then
      if escape != Backslash && |text| > 1 && text[1] == '\'' then Prefixed('\'', ReadLiteral(text[2..], escape))
      else Some(Reading("", text[1..]))
    else Prefixed(text[0], ReadLiteral(text[1..], escape))
  }

  function Prefixed(c: char, r: Option<Reading>): Option<Reading> {
    if r.None? then None else Some(Reading([c] + r.value.value, r.value.rest))
  }

  /** How one character is spelled inside a literal. */
  function Spelled(c: char, escape: LiteralEscape): string {
    if c == '\\' && escape != Standard then "\\\\"
    else if c == '\'' then (if escape == Backslash then "\\'" else "''")
    else [c]
  }

  lemma ReplaceAllOverConcat(s: string, t: string, c: char, with: string)
    ensures ReplaceAll(s + t, c, with) == ReplaceAll(s, c, with) + ReplaceAll(t, c, with)
  {
    if s == "" {
      assert s + t == t;
    } else {
      assert (s + t)[1..] == s[1..] + t;
      ReplaceAllOverConcat(s[1..], t, c, with);
    }
  }

  /** The two passes spell each character on its own. */
  lemma EscapedStep(value: string, escape: LiteralEscape)
    requires value != ""
    ensures Escaped(value, escape) == Spelled(value[0], escape) + Escaped(value[1..], escape)
  {
    var head := if value[0] == '\\' then "\\\\" else [value[0]];
    var tail := ReplaceAll(value[1..], '\\', "\\\\");
    if escape != Standard {
      assert ReplaceAll(value, '\\', "\\\\") == head + tail;
      var quote := if escape == Backslash then "\\'" else "''";
      ReplaceAllOverConcat(head, tail, '\'', quote);
      assert [value[0]][1..] == "" && "\\\\"[1..] == "\\" && "\\"[1..] == "";
    }
  }

  /**
   Main result. In every dialect, and for every value, reading what was printed gives the
   value back and stops where the literal ends, provided no quote follows where a doubled one
   would be taken for data.
   */
  lemma {:induction false} LiteralReadsBack(value: string, escape: LiteralEscape, rest: string)
    requires escape != Backslash ==> rest == "" || rest[0] != '\''
    ensures ReadLiteral(Escaped(value, escape) + "'" + rest, escape) == Some(Reading(value, rest))
    decreases |value|
  {
    if value == "" {
      NothingLeft(escape, rest);
    } else {
      LiteralReadsBack(value[1..], escape, rest);
      InsideStep(value, escape, rest);
      assert [value[0]] + value[1..] == value;
    }
  }

  lemma NothingLeft(escape: LiteralEscape, rest: string)
    requires escape != Backslash ==> rest == "" || rest[0] != '\''
    ensures ReadLiteral(Escaped("", escape) + "'" + rest, escape) == Some(Reading("", rest))
  {
    assert Escaped("", escape) + "'" + rest == ['\''] + rest;
    assert (['\''] + rest)[1..] == rest;
  }

  lemma InsideStep(value: string, escape: LiteralEscape, rest: string)
    requires value != ""
    ensures Escaped(value, escape) + "'" + rest
         == Spelled(value[0], escape) + (Escaped(value[1..], escape) + "'" + rest)
  {
    EscapedStep(value, escape);
  }
}
