// Lines, joins and splits of text, and the non-blank lines that a text shows.
module TextLines {

  const NEWLINE := '\n'
  const SEPARATOR: string := "\n\n"

  predicate NoNewline(s: string) {
    forall i | 0 <= i < |s| :: s[i] != NEWLINE
  }

  /** The pieces of s between newlines; there is always at least one. */
  function SplitLines(s: string): (lines: seq<string>)
    ensures lines != []
  {
    if s == [] then [""]
    else
      var rest := SplitLines(s[1..]);
      if s[0] == NEWLINE then [""] + rest else [[s[0]] + rest[0]] + rest[1..]
  }

  function JoinLines(lines: seq<string>): string {
    if lines == [] then "" else if |lines| == 1 then lines[0] else lines[0] + "\n" + JoinLines(lines[1..])
  }

  // Blocks joined by an empty line.
  function Join(parts: seq<string>): string {
    if parts == [] then ""
    else if |parts| == 1 then parts[0]
    else Join(parts[..|parts| - 1]) + SEPARATOR + parts[|parts| - 1]
  }

  function StripTrailingNewlines(s: string): string {
    if s != [] && s[|s| - 1] == NEWLINE then StripTrailingNewlines(s[..|s| - 1]) else s
  }

  predicate Blank(isSpace: char -> bool, line: string) {
    forall i | 0 <= i < |line| :: isSpace(line[i])
  }

  function NonBlank(isSpace: char -> bool, lines: seq<string>): seq<string> {
    if lines == [] then []
    else
      var first := if Blank(isSpace, lines[0]) then [] else [lines[0]];
      first + NonBlank(isSpace, lines[1..])
  }

  /** The non-blank lines of a text in order: what a reader of the text gets. */
  function Content(isSpace: char -> bool, s: string): seq<string> {
    NonBlank(isSpace, SplitLines(s))
  }

  lemma ConsFirst(c: char, a: seq<string>, b: seq<string>)
    requires a != []
    ensures [[c] + (a + b)[0]] + (a + b)[1..] == [[c] + a[0]] + a[1..] + b
  {
    assert (a + b)[1..] == a[1..] + b;
  }

  lemma {:induction false} SplitConcat(a: string, b: string)
    ensures SplitLines(a + "\n" + b) == SplitLines(a) + SplitLines(b)
  {
    var whole := a + "\n" + b;
    if a == [] {
      assert whole[1..] == b;
    } else {
      assert whole[1..] == a[1..] + "\n" + b;
      SplitConcat(a[1..], b);
      ConsFirst(a[0], SplitLines(a[1..]), SplitLines(b));
    }
  }

  lemma {:induction false} SplitOneLine(s: string)
    requires NoNewline(s)
    ensures SplitLines(s) == [s]
  {
    if s != [] {
      SplitOneLine(s[1..]);
      assert [s[0]] + s[1..] == s && [s[1..]][1..] == [];
    }
  }

  lemma {:induction false} LinesHaveNoNewline(s: string)
    ensures forall line | line in SplitLines(s) :: NoNewline(line)
  {
    if s != [] {
      LinesHaveNoNewline(s[1..]);
      var rest := SplitLines(s[1..]);
      assert NoNewline(rest[0]);
    }
  }

  /** Splitting undoes joining. */
  lemma {:induction false} SplitJoin(lines: seq<string>)
    requires lines != [] && forall line | line in lines :: NoNewline(line)
    ensures SplitLines(JoinLines(lines)) == lines
  {
    SplitOneLine(lines[0]);
    if |lines| > 1 {
      SplitJoin(lines[1..]);
      SplitConcat(lines[0], JoinLines(lines[1..]));
    }
  }

  lemma {:induction false} NonBlankConcat(isSpace: char -> bool, a: seq<string>, b: seq<string>)
    ensures NonBlank(isSpace, a + b) == NonBlank(isSpace, a) + NonBlank(isSpace, b)
  {
    if a == [] {
      assert a + b == b;
    } else {
      assert (a + b)[1..] == a[1..] + b;
      NonBlankConcat(isSpace, a[1..], b);
    }
  }

  lemma ContentOfLines(isSpace: char -> bool, lines: seq<string>)
    requires forall line | line in lines :: NoNewline(line)
    ensures Content(isSpace, JoinLines(lines)) == NonBlank(isSpace, lines)
  {
    if lines != [] {
      SplitJoin(lines);
    }
  }

  lemma ContentOfSeparated(isSpace: char -> bool, a: string, b: string)
    ensures Content(isSpace, a + SEPARATOR + b) == Content(isSpace, a) + Content(isSpace, b)
  {
    assert a + SEPARATOR + b == a + "\n" + ("" + "\n" + b);
    SplitConcat(a, "" + "\n" + b);
    SplitConcat("", b);
    var none: seq<string> := [""];
    NonBlankConcat(isSpace, SplitLines(a), none + SplitLines(b));
    NonBlankConcat(isSpace, none, SplitLines(b));
  }

  lemma {:induction false} ContentOfStripped(isSpace: char -> bool, s: string)
    ensures Content(isSpace, StripTrailingNewlines(s)) == Content(isSpace, s)
  {
    if s != [] && s[|s| - 1] == NEWLINE {
      var t := s[..|s| - 1];
      ContentOfStripped(isSpace, t);
      assert s == t + "\n" + "";
      SplitConcat(t, "");
      var none: seq<string> := [""];
      NonBlankConcat(isSpace, SplitLines(t), none);
    }
  }

  // The content of several texts one after the other.
  function ContentOfAll(isSpace: char -> bool, parts: seq<string>): seq<string> {
    if parts == [] then [] else ContentOfAll(isSpace, parts[..|parts| - 1]) + Content(isSpace, parts[|parts| - 1])
  }

  lemma {:induction false} ContentOfJoin(isSpace: char -> bool, parts: seq<string>)
    ensures Content(isSpace, Join(parts)) == ContentOfAll(isSpace, parts)
  {
    if parts == [] {
    } else if |parts| == 1 {
      assert parts[..0] == [];
    } else {
      ContentOfJoin(isSpace, parts[..|parts| - 1]);
      ContentOfSeparated(isSpace, Join(parts[..|parts| - 1]), parts[|parts| - 1]);
    }
  }

  lemma ContentOfAllSnoc(isSpace: char -> bool, a: seq<string>, part: string)
    ensures ContentOfAll(isSpace, a + [part]) == ContentOfAll(isSpace, a) + Content(isSpace, part)
  {
    assert (a + [part])[..|a|] == a;
  }

  lemma {:induction false} ContentOfAllConcat(isSpace: char -> bool, a: seq<string>, b: seq<string>)
    ensures ContentOfAll(isSpace, a + b) == ContentOfAll(isSpace, a) + ContentOfAll(isSpace, b)
  {
    if b == [] {
      assert a + b == a;
    } else {
      var init, part := b[..|b| - 1], b[|b| - 1];
      assert b == init + [part] && a + b == (a + init) + [part];
      ContentOfAllConcat(isSpace, a, init);
      ContentOfAllSnoc(isSpace, a + init, part);
      ContentOfAllSnoc(isSpace, init, part);
      Associative(ContentOfAll(isSpace, a), ContentOfAll(isSpace, init), Content(isSpace, part));
    }
  }

  lemma Associative(a: seq<string>, b: seq<string>, c: seq<string>)
    ensures (a + b) + c == a + (b + c)
  {
  }

  /** Joining two non-empty lists joins their joins. */
  lemma {:induction false} JoinConcat(a: seq<string>, b: seq<string>)
    requires a != [] && b != []
    ensures Join(a + b) == Join(a) + SEPARATOR + Join(b)
  {
    if |b| == 1 {
      assert (a + b)[..|a + b| - 1] == a;
    } else {
      var init := b[..|b| - 1];
      assert (a + b)[..|a + b| - 1] == a + init;
      JoinConcat(a, init);
    }
  }
}
