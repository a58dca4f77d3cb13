// When a fence of a manual stays in one piece: sections are cut at headings before
// fences are recognised.
module FencedBlocks {
  import opened Wrappers
  import opened TextLines
  import opened MarkdownBlocks
  import opened ManualSections

  // The scan of a section comes to line k, starting at line i.
  predicate Reaches(lex: Lexer, lines: seq<string>, i: nat, k: nat)
    requires i <= |lines|
    decreases |lines| - i
  {
    || i == k
    || (i < k && i < |lines|
        && Reaches(lex, lines, if IsBlank(lex, lines[i]) then i + 1 else BlockEnd(lex, lines, i), k))
  }

  /** The block that starts at a line the scan comes to is among the blocks. */
  lemma {:induction false} ReachedIsBlock(lex: Lexer, lines: seq<string>, i: nat, k: nat)
    requires i <= |lines| && Reaches(lex, lines, i, k) && k < |lines| && !IsBlank(lex, lines[k])
    ensures BlockAt(lex, lines, k) in Tokenize(lex, lines, i)
    decreases |lines| - i
  {
    hide BlockAt, BlockEnd, IsBlank;
    if i != k {
      ReachedIsBlock(lex, lines, if IsBlank(lex, lines[i]) then i + 1 else BlockEnd(lex, lines, i), k);
    }
  }

  // The lines of the section that line i lies in.
  function SectionLines(lex: Lexer, lines: seq<string>, i: nat): seq<string>
    requires i <= |lines|
  {
    lines[SectionStart(lex, lines, i)..SectionEnd(lex, lines, i)]
  }

  /** Line i opens a fence: it is no heading, and a block of its section starts there. */
  predicate OpensFence(lex: Lexer, lines: seq<string>, i: nat) {
    && i < |lines| && lex.heading(lines[i]).None? && lex.fence(lines[i]).Some? && !IsBlank(lex, lines[i])
    && Reaches(lex, SectionLines(lex, lines, i), 0, i - SectionStart(lex, lines, i))
  }

  // Where the fence ends when only fences are looked at.
  function WholeEnd(lex: Lexer, lines: seq<string>, i: nat): (e: nat)
    requires OpensFence(lex, lines, i)
    ensures i < e <= |lines|
  {
    FenceEnd(lex, lines, i + 1, lex.fence(lines[i]).value)
  }

  function FenceOf(lines: seq<string>, i: nat, e: nat): Block
    requires i <= e <= |lines|
  {
    Block(StripTrailingNewlines(JoinLines(lines[i..e])), FenceBlock)
  }

  function Sooner(a: nat, b: nat): nat { if a < b then a else b }

  // A fence looked for in a stretch of lines ends there, or with the stretch.
  lemma {:induction false} FenceEndInside(lex: Lexer, lines: seq<string>, s: nat, t: nat, i: nat, open: Fence)
    requires s <= i <= t <= |lines|
    ensures s + FenceEnd(lex, lines[s..t], i - s, open) == Sooner(FenceEnd(lex, lines, i, open), t)
    decreases t - i
  {
    hide Closes;
    if i < t {
      assert lines[s..t][i - s] == lines[i];
      if !Closes(lex, lines[i], open) {
        FenceEndInside(lex, lines, s, t, i + 1, open);
      }
    }
  }

  lemma SectionEndIsHeading(lex: Lexer, lines: seq<string>, i: nat, e: nat)
    requires i < e <= |lines| && lex.heading(lines[i]).None?
    ensures var t := SectionEnd(lex, lines, i);
      i < t && (e <= t <==> NoHeadings(lex, lines, i + 1, e))
  {
    var t := SectionEnd(lex, lines, i);
    assert t < e ==> IsHeading(lex, lines, t);
  }

  // A fence block of a stretch of lines.
  lemma FenceAt(lex: Lexer, lines: seq<string>, k: nat)
    requires k < |lines| && lex.fence(lines[k]).Some?
    ensures BlockAt(lex, lines, k) == FenceOf(lines, k, FenceEnd(lex, lines, k + 1, lex.fence(lines[k]).value))
  {
  }

  lemma FenceOfStretch(lines: seq<string>, s: nat, t: nat, i: nat, e: nat)
    requires s <= i <= e <= t <= |lines|
    ensures FenceOf(lines[s..t], i - s, e - s) == FenceOf(lines, i, e)
  {
    hide StripTrailingNewlines, JoinLines;
    var a, b := lines[s..t][i - s..e - s], lines[i..e];
    assert |a| == |b| && forall k | 0 <= k < |a| :: a[k] == lines[s..t][i - s + k] == lines[i + k] == b[k];
    assert a == b;
  }

  /** The block that an opening line starts runs to the end of the fence or to the next
      heading, whichever comes first. */
  lemma FenceBlockSpan(lex: Lexer, lines: seq<string>, i: nat)
    requires OpensFence(lex, lines, i)
    ensures var s, e := SectionStart(lex, lines, i), Sooner(WholeEnd(lex, lines, i), SectionEnd(lex, lines, i));
      && s <= i < e && i - s < |SectionLines(lex, lines, i)|
      && BlockAt(lex, SectionLines(lex, lines, i), i - s) == FenceOf(lines, i, e)
      && !IsBlank(lex, SectionLines(lex, lines, i)[i - s])
  {
    hide FenceEnd, SectionStart, SectionEnd, Reaches, IsBlank, BlockAt, FenceOf;
    var s, t := SectionStart(lex, lines, i), SectionEnd(lex, lines, i);
    var ls := lines[s..t];
    SectionEndIsHeading(lex, lines, i, i + 1);
    assert ls[i - s] == lines[i];
    FenceEndInside(lex, lines, s, t, i + 1, lex.fence(lines[i]).value);
    FenceAt(lex, ls, i - s);
    FenceOfStretch(lines, s, t, i, Sooner(WholeEnd(lex, lines, i), t));
  }

  // A heading is never a blank line.
  ghost predicate HeadingsShow(lex: Lexer) {
    forall line: string :: lex.heading(line).Some? ==> !IsBlank(lex, line)
  }

  lemma {:induction false} NonBlankSplit(isSpace: char -> bool, lines: seq<string>, i: nat, t: nat, e: nat)
    requires i <= t <= e <= |lines|
    ensures NonBlank(isSpace, lines[i..e]) == NonBlank(isSpace, lines[i..t]) + NonBlank(isSpace, lines[t..e])
  {
    NonBlankConcat(isSpace, lines[i..t], lines[t..e]);
    assert lines[i..t] + lines[t..e] == lines[i..e];
  }

  /** What the block shows are exactly the non-blank lines of the whole fence if and only if
      no line after the opening one reads as a heading. */
  lemma ShowsWholeFence(lex: Lexer, lines: seq<string>, i: nat)
    requires OpensFence(lex, lines, i) && AllOneLine(lines) && HeadingsShow(lex)
    ensures var e, t := WholeEnd(lex, lines, i), SectionEnd(lex, lines, i);
      && i < t
      && (Content(lex.isSpace, FenceOf(lines, i, Sooner(e, t)).text) == NonBlank(lex.isSpace, lines[i..e])
          <==> NoHeadings(lex, lines, i + 1, e))
  {
    var e, t := WholeEnd(lex, lines, i), SectionEnd(lex, lines, i);
    SectionEndIsHeading(lex, lines, i, e);
    var span := lines[i..Sooner(e, t)];
    ContentOfLines(lex.isSpace, span);
    ContentOfStripped(lex.isSpace, JoinLines(span));
    hide Content, WholeEnd, OpensFence, SectionEnd;
    if t < e {
      NonBlankSplit(lex.isSpace, lines, i, t, e);
      assert IsHeading(lex, lines, t) && lines[t..e][0] == lines[t];
      assert NonBlank(lex.isSpace, lines[t..e]) != [];
    }
  }

  // ---------- In the sections of the manual ----------

  lemma {:induction false} SectionIsEmitted(lex: Lexer, lines: seq<string>, i: nat, j: nat)
    requires i <= j <= |lines| && SectionEnd(lex, lines, i) < j
    ensures forall x | x in Emitted(lex, lines, SectionStart(lex, lines, i), SectionEnd(lex, lines, i)) ::
      x in SectionsBefore(lex, lines, j)
    decreases j
  {
    hide Emitted, Operational, PathAt;
    var s, t := SectionStart(lex, lines, i), SectionEnd(lex, lines, i);
    var from := SectionStart(lex, lines, j);
    assert t < from by { assert IsHeading(lex, lines, t); }
    StartOfStretch(lex, lines, s, t);
    if t < from - 1 {
      SectionIsEmitted(lex, lines, i, from - 1);
    }
  }

  lemma SectionIsThere(lex: Lexer, lines: seq<string>, i: nat)
    requires i <= |lines|
    ensures forall x | x in Emitted(lex, lines, SectionStart(lex, lines, i), SectionEnd(lex, lines, i)) ::
      x in SectionsOf(lex, lines)
  {
    hide Emitted, SectionsBefore;
    var s, t := SectionStart(lex, lines, i), SectionEnd(lex, lines, i);
    if t == |lines| {
      StartOfStretch(lex, lines, s, |lines|);
    } else {
      SectionIsEmitted(lex, lines, i, |lines|);
    }
  }

  // A section of the list holds this block.
  predicate Holds(sections: seq<Section>, block: Block) {
    exists x :: x in sections && block in x.blocks
  }

  /** The fence that line i opens, in every manual: under an operational heading it comes
      out as one block of one section, from its opening line to its closing one, if and
      only if no line after the opening one reads as a heading; otherwise what comes out
      is cut short at the first such line. */
  lemma FenceStaysWholeExactly(lex: Lexer, lines: seq<string>, i: nat)
    requires OpensFence(lex, lines, i) && Operational(lex, lines, SectionStart(lex, lines, i))
    ensures var e, t := WholeEnd(lex, lines, i), SectionEnd(lex, lines, i);
      && i < Sooner(e, t) && Holds(SectionsOf(lex, lines), FenceOf(lines, i, Sooner(e, t)))
      && (Sooner(e, t) == e <==> NoHeadings(lex, lines, i + 1, e))
  {
    hide SectionsOf, Operational, BlockAt, Tokenize, FenceOf, WholeEnd, Reaches, PathAt, TitleAt, SectionStart, SectionEnd,
      NoHeadings, IsHeading, IsBlank;
    var s, e, t := SectionStart(lex, lines, i), WholeEnd(lex, lines, i), SectionEnd(lex, lines, i);
    FenceBlockSpan(lex, lines, i);
    SectionEndIsHeading(lex, lines, i, e);
    var ls := SectionLines(lex, lines, i);
    ReachedIsBlock(lex, ls, 0, i - s);
    SectionIsThere(lex, lines, i);
    var blocks := Tokenize(lex, ls, 0);
    var x := Section(PathAt(lex, lines, s), TitleAt(lex, lines, s), blocks);
    assert Emitted(lex, lines, s, t) == [x];
    assert x in Emitted(lex, lines, s, t);
  }

  /** A manual of three lines, a fence around a comment that reads as a heading: the block
      ends after the opening line. */
  lemma FencedCommentCutsSection(lex: Lexer, open: string, comment: string)
    requires lex.heading(open).None? && lex.fence(open).Some? && !IsBlank(lex, open)
    requires Closes(lex, open, lex.fence(open).value) && lex.fence(comment).None?
    requires lex.heading(comment).Some?
    ensures var lines := [open, comment, open];
      && OpensFence(lex, lines, 0) && WholeEnd(lex, lines, 0) == 3
      && SectionEnd(lex, lines, 0) == 1 && Holds(SectionsOf(lex, lines), FenceOf(lines, 0, 1))
  {
    var lines := [open, comment, open];
    assert SectionStart(lex, lines, 0) == 0;
    assert OpensFence(lex, lines, 0);
    assert !Closes(lex, lines[1], lex.fence(open).value) && Closes(lex, lines[2], lex.fence(open).value);
    assert FenceEnd(lex, lines, 2, lex.fence(open).value) == 3;
    assert IsHeading(lex, lines, 1) && !IsHeading(lex, lines, 0);
    assert SectionEnd(lex, lines, 1) == 1;
    assert Open(lex, lines, 0) == [];
    hide Closes;
    FenceStaysWholeExactly(lex, lines, 0);
  }
}
