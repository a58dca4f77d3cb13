// Cutting the lines of a section into indivisible Markdown blocks. The line
// classifiers are parameters: everything below holds for any choice of them.
module MarkdownBlocks {
  import opened Wrappers
  import opened TextLines

  // A fence line: its marker character, the length of the run, and what follows it.
  datatype Fence = Fence(marker: char, length: nat, rest: string)

  datatype Heading = Heading(level: nat, title: string)

  datatype Lexer = Lexer(
    isSpace: char -> bool,
    heading: string -> Option<Heading>,
    fence: string -> Option<Fence>,
    rule: string -> bool,
    ordered: string -> bool,
    unordered: string -> bool)

  datatype Kind = FenceBlock | RuleBlock | QuoteBlock | TableBlock | ListBlock | ParagraphBlock

  datatype Block = Block(text: string, kind: Kind)

  function FirstNonSpace(isSpace: char -> bool, line: string): Option<char> {
    if line == [] then None
    else if isSpace(line[0]) then FirstNonSpace(isSpace, line[1..])
    else Some(line[0])
  }

  predicate IsBlank(lex: Lexer, line: string) { Blank(lex.isSpace, line) }

  predicate IsQuote(lex: Lexer, line: string) { FirstNonSpace(lex.isSpace, line) == Some('>') }

  predicate IsTable(lex: Lexer, line: string) { FirstNonSpace(lex.isSpace, line) == Some('|') }

  predicate IsItem(lex: Lexer, line: string) { lex.ordered(line) || lex.unordered(line) }

  predicate IsIndented(line: string) { line != [] && (line[0] == ' ' || line[0] == '\t') }

  predicate Closes(lex: Lexer, line: string, open: Fence) {
    var f := lex.fence(line);
    f.Some? && f.value.marker == open.marker && open.length <= f.value.length && IsBlank(lex, f.value.rest)
  }

  // ---------- Where a block ends ----------

  /** A fence runs through its first closing line, or to the end of the section. */
  function FenceEnd(lex: Lexer, lines: seq<string>, i: nat, open: Fence): (e: nat)
    requires i <= |lines|
    ensures i <= e <= |lines|
    ensures forall k | i <= k < e - 1 :: !Closes(lex, lines[k], open)
    ensures e < |lines| ==> i < e && Closes(lex, lines[e - 1], open)
    decreases |lines| - i
  {
    if i == |lines| then i
    else if Closes(lex, lines[i], open) then i + 1
    else FenceEnd(lex, lines, i + 1, open)
  }

  predicate QuoteGoesOn(lex: Lexer, lines: seq<string>, i: nat)
    requires i < |lines|
  {
    || IsQuote(lex, lines[i])
    || (IsBlank(lex, lines[i]) && i + 1 < |lines| && IsQuote(lex, lines[i + 1]))
  }

  predicate ListGoesOn(lex: Lexer, lines: seq<string>, i: nat)
    requires i < |lines|
  {
    if IsBlank(lex, lines[i]) then
      i + 1 < |lines| && (IsItem(lex, lines[i + 1]) || IsIndented(lines[i + 1]))
    else IsItem(lex, lines[i]) || IsIndented(lines[i])
  }

  predicate ParagraphGoesOn(lex: Lexer, line: string) {
    && !IsBlank(lex, line)
    && lex.heading(line).None? && lex.fence(line).None?
    && !IsTable(lex, line) && !IsQuote(lex, line) && !IsItem(lex, line) && !lex.rule(line)
  }

  predicate GoesOn(lex: Lexer, kind: Kind, lines: seq<string>, i: nat)
    requires i < |lines|
  {
    match kind
    case QuoteBlock => QuoteGoesOn(lex, lines, i)
    case TableBlock => IsTable(lex, lines[i])
    case ListBlock => ListGoesOn(lex, lines, i)
    case ParagraphBlock => ParagraphGoesOn(lex, lines[i])
    case FenceBlock => false
    case RuleBlock => false
  }

  /** Blocks other than fences go on while the next line belongs to them. */
  function RunEnd(lex: Lexer, kind: Kind, lines: seq<string>, i: nat): (e: nat)
    requires i <= |lines|
    ensures i <= e <= |lines|
    decreases |lines| - i
  {
    if i == |lines| || !GoesOn(lex, kind, lines, i) then i else RunEnd(lex, kind, lines, i + 1)
  }

  function KindOf(lex: Lexer, line: string): Kind {
    if lex.fence(line).Some? then FenceBlock
    else if lex.rule(line) && !IsTable(lex, line) then RuleBlock
    else if IsQuote(lex, line) then QuoteBlock
    else if IsTable(lex, line) then TableBlock
    else if IsItem(lex, line) then ListBlock
    else ParagraphBlock
  }

  function BlockEnd(lex: Lexer, lines: seq<string>, i: nat): (e: nat)
    requires i < |lines|
    ensures i < e <= |lines|
  {
    var kind := KindOf(lex, lines[i]);
    if kind == FenceBlock then FenceEnd(lex, lines, i + 1, lex.fence(lines[i]).value)
    else RunEnd(lex, kind, lines, i + 1)
  }

  function BlockAt(lex: Lexer, lines: seq<string>, i: nat): Block
    requires i < |lines|
  {
    var kind := KindOf(lex, lines[i]);
    if kind == RuleBlock then Block(lines[i], kind)
    else Block(StripTrailingNewlines(JoinLines(lines[i..BlockEnd(lex, lines, i)])), kind)
  }

  function Tokenize(lex: Lexer, lines: seq<string>, i: nat): seq<Block>
    requires i <= |lines|
    decreases |lines| - i
  {
    if i == |lines| then []
    else if IsBlank(lex, lines[i]) then Tokenize(lex, lines, i + 1)
    else [BlockAt(lex, lines, i)] + Tokenize(lex, lines, BlockEnd(lex, lines, i))
  }

  function Texts(blocks: seq<Block>): (r: seq<string>)
    ensures |r| == |blocks|
  {
    seq(|blocks|, i requires 0 <= i < |blocks| => blocks[i].text)
  }

  // ---------- Nothing is lost ----------

  predicate AllOneLine(lines: seq<string>) {
    forall line | line in lines :: NoNewline(line)
  }

  lemma BlockContent(lex: Lexer, lines: seq<string>, i: nat)
    requires i < |lines| && AllOneLine(lines) && !IsBlank(lex, lines[i])
    ensures Content(lex.isSpace, BlockAt(lex, lines, i).text)
         == NonBlank(lex.isSpace, lines[i..BlockEnd(lex, lines, i)])
    ensures Content(lex.isSpace, BlockAt(lex, lines, i).text) != []
  {
    var span := lines[i..BlockEnd(lex, lines, i)];
    ContentOfLines(lex.isSpace, span);
    ContentOfStripped(lex.isSpace, JoinLines(span));
    if KindOf(lex, lines[i]) == RuleBlock {
      assert span == [lines[i]];
    }
  }

  lemma ContentOfFirst(isSpace: char -> bool, first: string, rest: seq<string>)
    ensures ContentOfAll(isSpace, [first] + rest) == Content(isSpace, first) + ContentOfAll(isSpace, rest)
  {
    assert ContentOfAll(isSpace, [first]) == Content(isSpace, first) by {
      assert [first][..0] == [];
    }
    hide ContentOfAll, Content;
    ContentOfAllConcat(isSpace, [first], rest);
  }

  lemma OneMoreBlock(isSpace: char -> bool, first: Block, rest: seq<Block>, a: seq<string>, b: seq<string>)
    requires Content(isSpace, first.text) == NonBlank(isSpace, a)
    requires ContentOfAll(isSpace, Texts(rest)) == NonBlank(isSpace, b)
    ensures ContentOfAll(isSpace, Texts([first] + rest)) == NonBlank(isSpace, a + b)
  {
    hide ContentOfAll, Content, NonBlank;
    assert Texts([first] + rest) == [first.text] + Texts(rest);
    ContentOfFirst(isSpace, first.text, Texts(rest));
    NonBlankConcat(isSpace, a, b);
  }

  // Whether the tokens from line i on show the non-blank lines from there on.
  predicate Keeps(lex: Lexer, lines: seq<string>, i: nat)
    requires i <= |lines|
  {
    ContentOfAll(lex.isSpace, Texts(Tokenize(lex, lines, i))) == NonBlank(lex.isSpace, lines[i..])
  }

  lemma SkipKeeps(lex: Lexer, lines: seq<string>, i: nat)
    requires i < |lines| && IsBlank(lex, lines[i]) && Keeps(lex, lines, i + 1)
    ensures Keeps(lex, lines, i)
  {
    hide ContentOfAll, Texts;
    assert lines[i..][1..] == lines[i + 1..];
  }

  lemma BlockKeeps(lex: Lexer, lines: seq<string>, i: nat)
    requires i < |lines| && AllOneLine(lines) && !IsBlank(lex, lines[i])
    requires Keeps(lex, lines, BlockEnd(lex, lines, i))
    ensures Keeps(lex, lines, i)
  {
    hide ContentOfAll, Content, NonBlank, BlockAt, BlockEnd, Texts;
    var e := BlockEnd(lex, lines, i);
    BlockContent(lex, lines, i);
    OneMoreBlock(lex.isSpace, BlockAt(lex, lines, i), Tokenize(lex, lines, e), lines[i..e], lines[e..]);
    assert lines[i..] == lines[i..e] + lines[e..];
  }

  /** The blocks show exactly the non-blank lines, in order and each once. */
  lemma {:induction false} TokensKeepContent(lex: Lexer, lines: seq<string>, i: nat)
    requires i <= |lines| && AllOneLine(lines)
    ensures Keeps(lex, lines, i)
    decreases |lines| - i
  {
    if i < |lines| {
      hide Keeps;
      if IsBlank(lex, lines[i]) {
        TokensKeepContent(lex, lines, i + 1);
        SkipKeeps(lex, lines, i);
      } else {
        TokensKeepContent(lex, lines, BlockEnd(lex, lines, i));
        BlockKeeps(lex, lines, i);
      }
    }
  }

  /** No block is without content. */
  lemma {:induction false} TokensHaveContent(lex: Lexer, lines: seq<string>, i: nat)
    requires i <= |lines| && AllOneLine(lines)
    ensures forall b | b in Tokenize(lex, lines, i) :: Content(lex.isSpace, b.text) != []
    decreases |lines| - i
  {
    if i == |lines| {
    } else if IsBlank(lex, lines[i]) {
      TokensHaveContent(lex, lines, i + 1);
    } else {
      BlockContent(lex, lines, i);
      hide Content, NonBlank, BlockAt, BlockEnd;
      TokensHaveContent(lex, lines, BlockEnd(lex, lines, i));
    }
  }

  // ---------- The scanner ----------

  method ScanFence(lex: Lexer, lines: seq<string>, start: nat, open: Fence) returns (i: nat)
    requires start <= |lines|
    ensures i == FenceEnd(lex, lines, start, open)
  {
    i := start;
    while i < |lines|
      invariant start <= i <= |lines|
      invariant FenceEnd(lex, lines, start, open) == FenceEnd(lex, lines, i, open)
    {
      var close := lex.fence(lines[i]);
      if close.Some? && close.value.marker == open.marker && close.value.length >= open.length
         && IsBlank(lex, close.value.rest) {
        i := i + 1;
        return;
      }
      i := i + 1;
    }
  }

  method ScanRun(lex: Lexer, kind: Kind, lines: seq<string>, start: nat) returns (i: nat)
    requires start <= |lines|
    ensures i == RunEnd(lex, kind, lines, start)
  {
    i := start;
    while i < |lines| && GoesOn(lex, kind, lines, i)
      invariant start <= i <= |lines|
      invariant RunEnd(lex, kind, lines, start) == RunEnd(lex, kind, lines, i)
    {
      i := i + 1;
    }
  }

  method TokenizeBlocks(lex: Lexer, lines: seq<string>) returns (blocks: seq<Block>)
    ensures blocks == Tokenize(lex, lines, 0)
    ensures AllOneLine(lines) ==> ContentOfAll(lex.isSpace, Texts(blocks)) == NonBlank(lex.isSpace, lines)
  {
    blocks := [];
    var i := 0;
    while i < |lines|
      invariant 0 <= i <= |lines|
      invariant Tokenize(lex, lines, 0) == blocks + Tokenize(lex, lines, i)
    {
      var line := lines[i];
      if IsBlank(lex, line) {
        i := i + 1;
        continue;
      }
      var start := i;
      var kind := KindOf(lex, line);
      if kind == FenceBlock {
        i := ScanFence(lex, lines, start + 1, lex.fence(line).value);
      } else {
        i := ScanRun(lex, kind, lines, start + 1);
      }
      var text := if kind == RuleBlock then line else StripTrailingNewlines(JoinLines(lines[start..i]));
      blocks := blocks + [Block(text, kind)];
    }
    if AllOneLine(lines) {
      TokensKeepContent(lex, lines, 0);
      assert lines[0..] == lines;
    }
  }
}
