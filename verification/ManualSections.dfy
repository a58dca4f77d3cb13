// Cutting a manual into sections at its headings, with the path of open headings
// as the section path.
module ManualSections {
  import opened Wrappers
  import opened TextLines
  import opened MarkdownBlocks

  const METADATA_TITLE: string := "Procedure metadata"
  const PREAMBLE: string := "Preamble"

  datatype Section = Section(path: seq<string>, title: string, blocks: seq<Block>)

  datatype ParseError = EmptyHeading

  // ---------- The open headings ----------

  predicate IsHeading(lex: Lexer, lines: seq<string>, i: nat) {
    i < |lines| && lex.heading(lines[i]).Some?
  }

  function LevelAt(lex: Lexer, lines: seq<string>, i: nat): nat
    requires IsHeading(lex, lines, i)
  {
    lex.heading(lines[i]).value.level
  }

  /** The heading in line j encloses line i: no heading of equal or smaller level
      comes between them. */
  predicate Encloses(lex: Lexer, lines: seq<string>, j: nat, i: nat) {
    && j < i && IsHeading(lex, lines, j)
    && forall k: nat | j < k < i && IsHeading(lex, lines, k) :: LevelAt(lex, lines, j) < LevelAt(lex, lines, k)
  }

  predicate AllHeadings(lex: Lexer, lines: seq<string>, idx: seq<nat>) {
    forall j | j in idx :: IsHeading(lex, lines, j)
  }

  function PopTo(lex: Lexer, lines: seq<string>, idx: seq<nat>, level: nat): (r: seq<nat>)
    requires AllHeadings(lex, lines, idx)
    ensures |r| <= |idx| && r == idx[..|r|] && AllHeadings(lex, lines, r) && forall j | j in r :: j in idx
    ensures r != [] ==> LevelAt(lex, lines, r[|r| - 1]) < level
    ensures forall a | |r| <= a < |idx| :: level <= LevelAt(lex, lines, idx[a])
  {
    if idx == [] then idx
    else
      assert idx[|idx| - 1] in idx;
      if LevelAt(lex, lines, idx[|idx| - 1]) < level then idx
      else
        assert AllHeadings(lex, lines, idx[..|idx| - 1]);
        PopTo(lex, lines, idx[..|idx| - 1], level)
  }

  /** The line numbers on the heading stack once the first i lines are read. */
  function Open(lex: Lexer, lines: seq<string>, i: nat): (r: seq<nat>)
    requires i <= |lines|
    ensures AllHeadings(lex, lines, r) && forall j | j in r :: j < i
  {
    if i == 0 then []
    else if IsHeading(lex, lines, i - 1) then
      PopTo(lex, lines, Open(lex, lines, i - 1), LevelAt(lex, lines, i - 1)) + [i - 1]
    else Open(lex, lines, i - 1)
  }

  // Positions and levels both increase strictly along the stack.
  predicate Rising(lex: Lexer, lines: seq<string>, idx: seq<nat>) {
    && AllHeadings(lex, lines, idx)
    && forall a, b | 0 <= a < b < |idx| ::
         idx[a] < idx[b] && LevelAt(lex, lines, idx[a]) < LevelAt(lex, lines, idx[b])
  }

  lemma RisingPrefix(lex: Lexer, lines: seq<string>, idx: seq<nat>, n: nat)
    requires Rising(lex, lines, idx) && n <= |idx|
    ensures Rising(lex, lines, idx[..n])
  {
    var r := idx[..n];
    assert forall a | 0 <= a < n :: r[a] == idx[a];
    forall j | j in r ensures j in idx {
      var a :| 0 <= a < n && r[a] == j;
      assert idx[a] == j;
    }
  }

  /** Popping keeps exactly the entries of smaller level. */
  lemma PopToKeepsLower(lex: Lexer, lines: seq<string>, idx: seq<nat>, level: nat, j: nat)
    requires Rising(lex, lines, idx) && IsHeading(lex, lines, j)
    ensures j in PopTo(lex, lines, idx, level) <==> j in idx && LevelAt(lex, lines, j) < level
  {
    var r := PopTo(lex, lines, idx, level);
    hide PopTo, LevelAt, IsHeading;
    if j in r {
      var a :| 0 <= a < |r| && r[a] == j;
      assert idx[a] == j && idx[|r| - 1] == r[|r| - 1];
      assert a == |r| - 1 || a < |r| - 1;
    }
    if j in idx {
      var a :| 0 <= a < |idx| && idx[a] == j;
      if a < |r| {
        assert r[a] == j;
      }
    }
  }

  lemma EnclosesNext(lex: Lexer, lines: seq<string>, j: nat, i: nat)
    requires i < |lines|
    ensures !IsHeading(lex, lines, i) ==>
      (Encloses(lex, lines, j, i + 1) <==> Encloses(lex, lines, j, i))
    ensures IsHeading(lex, lines, i) ==>
      (Encloses(lex, lines, j, i + 1)
       <==> j == i || (Encloses(lex, lines, j, i) && LevelAt(lex, lines, j) < LevelAt(lex, lines, i)))
  {
  }

  lemma RisingPush(lex: Lexer, lines: seq<string>, idx: seq<nat>, i: nat)
    requires Rising(lex, lines, idx) && IsHeading(lex, lines, i)
    requires forall j | j in idx :: j < i && LevelAt(lex, lines, j) < LevelAt(lex, lines, i)
    ensures Rising(lex, lines, idx + [i])
  {
    var more := idx + [i];
    forall a, b | 0 <= a < b < |more|
      ensures more[a] < more[b] && AllHeadings(lex, lines, more)
           && LevelAt(lex, lines, more[a]) < LevelAt(lex, lines, more[b])
    {
      if b == |idx| {
        assert idx[a] in idx;
      }
    }
  }

  // Whether the stack after i lines is as it should be.
  ghost predicate StackOk(lex: Lexer, lines: seq<string>, i: nat)
    requires i <= |lines|
  {
    && Rising(lex, lines, Open(lex, lines, i))
    && forall j: nat :: j in Open(lex, lines, i) <==> Encloses(lex, lines, j, i)
  }

  lemma HeadingKeepsStack(lex: Lexer, lines: seq<string>, i: nat)
    requires i < |lines| && StackOk(lex, lines, i) && IsHeading(lex, lines, i)
    ensures StackOk(lex, lines, i + 1)
  {
    var before, level := Open(lex, lines, i), LevelAt(lex, lines, i);
    var kept := PopTo(lex, lines, before, level);
    assert Open(lex, lines, i + 1) == kept + [i];
    hide Open, Encloses, PopTo;
    RisingPrefix(lex, lines, before, |kept|);
    forall j | j in kept ensures j < i && LevelAt(lex, lines, j) < level {
      PopToKeepsLower(lex, lines, before, level, j);
    }
    RisingPush(lex, lines, kept, i);
    forall j: nat ensures j in kept + [i] <==> Encloses(lex, lines, j, i + 1) {
      EnclosesNext(lex, lines, j, i);
      if IsHeading(lex, lines, j) {
        PopToKeepsLower(lex, lines, before, level, j);
      } else {
        OnlyHeadingsEnclose(lex, lines, j, i);
      }
    }
  }

  lemma OnlyHeadingsEnclose(lex: Lexer, lines: seq<string>, j: nat, i: nat)
    requires !IsHeading(lex, lines, j)
    ensures !Encloses(lex, lines, j, i)
  {
  }

  /** The stack holds exactly the enclosing headings, outermost first, with strictly
      increasing levels. */
  lemma {:induction false} OpenIsEnclosing(lex: Lexer, lines: seq<string>, i: nat)
    requires i <= |lines|
    ensures Rising(lex, lines, Open(lex, lines, i))
    ensures forall j: nat :: j in Open(lex, lines, i) <==> Encloses(lex, lines, j, i)
  {
    if 0 < i {
      OpenIsEnclosing(lex, lines, i - 1);
      if IsHeading(lex, lines, i - 1) {
        HeadingKeepsStack(lex, lines, i - 1);
      } else {
        forall j: nat ensures Encloses(lex, lines, j, i) <==> Encloses(lex, lines, j, i - 1) {
          EnclosesNext(lex, lines, j, i - 1);
        }
      }
    }
  }

  // ---------- What the sections must show ----------

  function Stack(lex: Lexer, lines: seq<string>, idx: seq<nat>): (r: seq<Heading>)
    requires AllHeadings(lex, lines, idx)
    ensures |r| == |idx|
  {
    seq(|idx|, a requires 0 <= a < |idx| =>
      assert idx[a] in idx;
      lex.heading(lines[idx[a]]).value)
  }

  function TitlesOf(stack: seq<Heading>): (r: seq<string>)
    ensures |r| == |stack|
  {
    seq(|stack|, a requires 0 <= a < |stack| => stack[a].title)
  }

  function Titles(lex: Lexer, lines: seq<string>, idx: seq<nat>): (r: seq<string>)
    requires AllHeadings(lex, lines, idx)
    ensures |r| == |idx|
  {
    TitlesOf(Stack(lex, lines, idx))
  }

  function PathAt(lex: Lexer, lines: seq<string>, i: nat): seq<string>
    requires i <= |lines|
  {
    var open := Open(lex, lines, i);
    if open == [] then [PREAMBLE] else Titles(lex, lines, open)
  }

  // The nearest heading above line i is not the metadata heading.
  predicate Operational(lex: Lexer, lines: seq<string>, i: nat)
    requires i <= |lines|
  {
    var open := Open(lex, lines, i);
    open == [] || Titles(lex, lines, open)[|open| - 1] != METADATA_TITLE
  }

  // A line together with the section path under which it is found.
  datatype Tagged = Tagged(path: seq<string>, line: string)

  function TagAll(path: seq<string>, lines: seq<string>): (r: seq<Tagged>)
    ensures |r| == |lines|
  {
    seq(|lines|, i requires 0 <= i < |lines| => Tagged(path, lines[i]))
  }

  /** What the first i lines of a manual contribute: every non-blank line that is no
      heading and not under the metadata heading, with its enclosing headings. */
  function Retained(lex: Lexer, lines: seq<string>, i: nat): seq<Tagged>
    requires i <= |lines|
  {
    if i == 0 then []
    else
      var line := lines[i - 1];
      Retained(lex, lines, i - 1)
      + (if lex.heading(line).Some? || IsBlank(lex, line) || !Operational(lex, lines, i - 1) then []
         else [Tagged(PathAt(lex, lines, i - 1), line)])
  }

  function TagsOf(isSpace: char -> bool, sections: seq<Section>): seq<Tagged> {
    if sections == [] then []
    else
      var last := sections[|sections| - 1];
      TagsOf(isSpace, sections[..|sections| - 1])
      + TagAll(last.path, ContentOfAll(isSpace, Texts(last.blocks)))
  }

  lemma TagsOfAppend(isSpace: char -> bool, sections: seq<Section>, s: Section)
    ensures TagsOf(isSpace, sections + [s])
         == TagsOf(isSpace, sections) + TagAll(s.path, ContentOfAll(isSpace, Texts(s.blocks)))
  {
    assert (sections + [s])[..|sections|] == sections;
  }

  predicate NoHeadings(lex: Lexer, lines: seq<string>, from: nat, end: nat) {
    forall k: nat | from <= k && k < end && k < |lines| :: lex.heading(lines[k]).None?
  }

  lemma NonBlankSnoc(isSpace: char -> bool, lines: seq<string>, line: string)
    ensures NonBlank(isSpace, lines + [line])
         == NonBlank(isSpace, lines) + if Blank(isSpace, line) then [] else [line]
  {
    NonBlankConcat(isSpace, lines, [line]);
    assert NonBlank(isSpace, [line]) == if Blank(isSpace, line) then [] else [line] by {
      assert [line][1..] == [];
    }
  }

  // What the heading-free lines from..end contribute.
  function Stretch(lex: Lexer, lines: seq<string>, from: nat, end: nat): seq<Tagged>
    requires from <= end <= |lines|
  {
    if Operational(lex, lines, from) then TagAll(PathAt(lex, lines, from), NonBlank(lex.isSpace, lines[from..end]))
    else []
  }

  lemma StretchGrows(lex: Lexer, lines: seq<string>, from: nat, end: nat)
    requires from < end <= |lines|
    ensures Stretch(lex, lines, from, end) == Stretch(lex, lines, from, end - 1)
      + if Operational(lex, lines, from) && !IsBlank(lex, lines[end - 1])
        then [Tagged(PathAt(lex, lines, from), lines[end - 1])] else []
  {
    assert lines[from..end] == lines[from..end - 1] + [lines[end - 1]];
    NonBlankSnoc(lex.isSpace, lines[from..end - 1], lines[end - 1]);
  }

  lemma RetainedNext(lex: Lexer, lines: seq<string>, i: nat)
    requires i < |lines| && lex.heading(lines[i]).None?
    ensures Open(lex, lines, i + 1) == Open(lex, lines, i)
    ensures Retained(lex, lines, i + 1) == Retained(lex, lines, i)
      + if Operational(lex, lines, i) && !IsBlank(lex, lines[i]) then [Tagged(PathAt(lex, lines, i), lines[i])] else []
  {
  }

  lemma SameOpenSamePath(lex: Lexer, lines: seq<string>, i: nat, j: nat)
    requires i <= |lines| && j <= |lines| && Open(lex, lines, i) == Open(lex, lines, j)
    ensures PathAt(lex, lines, i) == PathAt(lex, lines, j)
    ensures Operational(lex, lines, i) == Operational(lex, lines, j)
  {
  }

  lemma Regroup(a: seq<Tagged>, b: seq<Tagged>, c: seq<Tagged>)
    ensures (a + b) + c == a + (b + c)
  {
  }

  lemma RetainedHeading(lex: Lexer, lines: seq<string>, i: nat)
    requires IsHeading(lex, lines, i)
    ensures Retained(lex, lines, i + 1) == Retained(lex, lines, i)
    ensures Open(lex, lines, i + 1) == PopTo(lex, lines, Open(lex, lines, i), LevelAt(lex, lines, i)) + [i]
  {
  }

  /** A stretch without headings contributes its non-blank lines under one path. */
  lemma {:induction false} RetainedStretch(lex: Lexer, lines: seq<string>, from: nat, end: nat)
    requires from <= end <= |lines| && NoHeadings(lex, lines, from, end)
    ensures Open(lex, lines, end) == Open(lex, lines, from)
    ensures Retained(lex, lines, end) == Retained(lex, lines, from) + Stretch(lex, lines, from, end)
    decreases end
  {
    if from == end {
      assert lines[from..end] == [];
    } else {
      RetainedStretch(lex, lines, from, end - 1);
      StretchGrows(lex, lines, from, end);
      RetainedNext(lex, lines, end - 1);
      SameOpenSamePath(lex, lines, from, end - 1);
      hide *;
      var more := if Operational(lex, lines, from) && !IsBlank(lex, lines[end - 1])
                  then [Tagged(PathAt(lex, lines, from), lines[end - 1])] else [];
      Regroup(Retained(lex, lines, from), Stretch(lex, lines, from, end - 1), more);
    }
  }

  // ---------- The sections line by line ----------

  /** Where the section of line i starts: after the nearest heading above it. */
  function SectionStart(lex: Lexer, lines: seq<string>, i: nat): (s: nat)
    requires i <= |lines|
    ensures s <= i && NoHeadings(lex, lines, s, i)
    ensures s > 0 ==> IsHeading(lex, lines, s - 1)
  {
    if i == 0 || IsHeading(lex, lines, i - 1) then i else SectionStart(lex, lines, i - 1)
  }

  /** Where it ends: at the next heading, or with the manual. */
  function SectionEnd(lex: Lexer, lines: seq<string>, i: nat): (e: nat)
    requires i <= |lines|
    ensures i <= e <= |lines| && NoHeadings(lex, lines, i, e)
    ensures e < |lines| ==> IsHeading(lex, lines, e)
    decreases |lines| - i
  {
    if i == |lines| || IsHeading(lex, lines, i) then i else SectionEnd(lex, lines, i + 1)
  }

  function TitleAt(lex: Lexer, lines: seq<string>, i: nat): string
    requires i <= |lines|
  {
    var path := PathAt(lex, lines, i);
    if path == [] then PREAMBLE else path[|path| - 1]
  }

  // What the heading-free lines from..end leave in the list of sections.
  function Emitted(lex: Lexer, lines: seq<string>, from: nat, end: nat): seq<Section>
    requires from <= end <= |lines|
  {
    var blocks := Tokenize(lex, lines[from..end], 0);
    When(Operational(lex, lines, from) && blocks != [], Section(PathAt(lex, lines, from), TitleAt(lex, lines, from), blocks))
  }

  // The sections that end at a heading before line i, in order.
  function SectionsBefore(lex: Lexer, lines: seq<string>, i: nat): seq<Section>
    requires i <= |lines|
  {
    var s := SectionStart(lex, lines, i);
    if s == 0 then []
    else
      SectionsBefore(lex, lines, s - 1) + Emitted(lex, lines, SectionStart(lex, lines, s - 1), s - 1)
  }

  /** The sections of a manual. */
  function SectionsOf(lex: Lexer, lines: seq<string>): seq<Section> {
    SectionsBefore(lex, lines, |lines|) + Emitted(lex, lines, SectionStart(lex, lines, |lines|), |lines|)
  }

  lemma StartOfStretch(lex: Lexer, lines: seq<string>, from: nat, i: nat)
    requires from <= i <= |lines| && NoHeadings(lex, lines, from, i) && (from > 0 ==> IsHeading(lex, lines, from - 1))
    ensures SectionStart(lex, lines, i) == from
    decreases i
  {
    if from < i {
      StartOfStretch(lex, lines, from, i - 1);
    }
  }

  // ---------- The parser ----------

  method PopWhile(stack: seq<Heading>, level: nat, ghost lex: Lexer, ghost lines: seq<string>, ghost idx: seq<nat>)
    returns (r: seq<Heading>)
    requires AllHeadings(lex, lines, idx) && stack == Stack(lex, lines, idx)
    ensures r == Stack(lex, lines, PopTo(lex, lines, idx, level))
  {
    r := stack;
    ghost var left := idx;
    while r != [] && r[|r| - 1].level >= level
      invariant AllHeadings(lex, lines, left) && r == Stack(lex, lines, left)
      invariant PopTo(lex, lines, left, level) == PopTo(lex, lines, idx, level)
    {
      r := r[..|r| - 1];
      left := left[..|left| - 1];
    }
  }

  /** Ends a section: its blocks are kept under the current path unless they are
      empty or belong to the metadata heading. */
  method Flush(lex: Lexer, sections: seq<Section>, sawHeading: bool, path: seq<string>, title: string,
               current: seq<string>)
    returns (r: seq<Section>)
    requires AllOneLine(current)
    ensures TagsOf(lex.isSpace, r) == TagsOf(lex.isSpace, sections)
      + if !sawHeading then TagAll([PREAMBLE], NonBlank(lex.isSpace, current))
        else if title == METADATA_TITLE then [] else TagAll(path, NonBlank(lex.isSpace, current))
    ensures r == sections
      + var blocks := Tokenize(lex, current, 0);
        if !sawHeading then When(blocks != [], Section([PREAMBLE], PREAMBLE, blocks))
        else When(title != METADATA_TITLE && blocks != [], Section(path, title, blocks))
  {
    var blocks := TokenizeBlocks(lex, current);
    assert blocks == [] ==> NonBlank(lex.isSpace, current) == [];
    hide TagsOf, NonBlank;
    r := sections;
    if !sawHeading {
      if blocks != [] {
        TagsOfAppend(lex.isSpace, sections, Section([PREAMBLE], PREAMBLE, blocks));
        r := sections + [Section([PREAMBLE], PREAMBLE, blocks)];
      }
      return;
    }
    if title == METADATA_TITLE {
      return;
    }
    if blocks != [] {
      TagsOfAppend(lex.isSpace, sections, Section(path, title, blocks));
      r := sections + [Section(path, title, blocks)];
    }
  }

  lemma PushStack(lex: Lexer, lines: seq<string>, idx: seq<nat>, i: nat)
    requires AllHeadings(lex, lines, idx) && IsHeading(lex, lines, i)
    ensures AllHeadings(lex, lines, idx + [i])
    ensures Stack(lex, lines, idx + [i]) == Stack(lex, lines, idx) + [lex.heading(lines[i]).value]
  {
  }

  predicate HasEmptyHeading(lex: Lexer, lines: seq<string>, end: nat) {
    exists k: nat :: k < end && k < |lines| && lex.heading(lines[k]).Some? && lex.heading(lines[k]).value.title == ""
  }

  // What the parser's variables hold before line i; the current section started at `from`.
  ghost predicate AtLine(lex: Lexer, lines: seq<string>, from: nat, i: nat, stack: seq<Heading>, path: seq<string>,
                         title: string, sawHeading: bool, current: seq<string>)
  {
    && from <= i <= |lines|
    && current == lines[from..i] && NoHeadings(lex, lines, from, i)
    && stack == Stack(lex, lines, Open(lex, lines, i))
    && (sawHeading <==> Open(lex, lines, i) != [])
    && (sawHeading ==> path == Titles(lex, lines, Open(lex, lines, i)) && title == path[|path| - 1])
  }

  lemma LineStep(lex: Lexer, lines: seq<string>, from: nat, i: nat, stack: seq<Heading>, path: seq<string>,
                 title: string, sawHeading: bool, current: seq<string>)
    requires AtLine(lex, lines, from, i, stack, path, title, sawHeading, current)
    requires i < |lines| && lex.heading(lines[i]).None?
    ensures AtLine(lex, lines, from, i + 1, stack, path, title, sawHeading, current + [lines[i]])
  {
    RetainedNext(lex, lines, i);
    hide Open;
  }

  lemma TitlesOfPush(stack: seq<Heading>, heading: Heading)
    ensures var r := TitlesOf(stack + [heading]);
      r != [] && r[|r| - 1] == heading.title
  {
  }

  lemma HeadingStep(lex: Lexer, lines: seq<string>, i: nat, heading: Heading, stack: seq<Heading>)
    requires i < |lines| && lex.heading(lines[i]) == Some(heading)
    requires stack == Stack(lex, lines, PopTo(lex, lines, Open(lex, lines, i), heading.level)) + [heading]
    ensures AtLine(lex, lines, i + 1, i + 1, stack, TitlesOf(stack), heading.title, true, [])
  {
    var below := PopTo(lex, lines, Open(lex, lines, i), heading.level);
    RetainedHeading(lex, lines, i);
    PushStack(lex, lines, below, i);
    TitlesOfPush(Stack(lex, lines, below), heading);
    hide PopTo, Stack, TitlesOf, AtLine, Open;
    assert Open(lex, lines, i + 1) == below + [i];
    AtFreshLine(lex, lines, i + 1, stack, heading.title);
  }

  lemma AtFreshLine(lex: Lexer, lines: seq<string>, i: nat, stack: seq<Heading>, title: string)
    requires i <= |lines| && Open(lex, lines, i) != [] && stack == Stack(lex, lines, Open(lex, lines, i))
    requires stack != [] && TitlesOf(stack)[|stack| - 1] == title
    ensures AtLine(lex, lines, i, i, stack, TitlesOf(stack), title, true, [])
  {
    hide Open, Stack, TitlesOf;
    assert lines[i..i] == [];
  }

  // What flushing the current lines must add.
  lemma CurrentStretch(lex: Lexer, lines: seq<string>, from: nat, i: nat, stack: seq<Heading>, path: seq<string>,
                       title: string, sawHeading: bool, current: seq<string>)
    requires AtLine(lex, lines, from, i, stack, path, title, sawHeading, current) && AllOneLine(lines)
    ensures AllOneLine(current)
    ensures Retained(lex, lines, i) == Retained(lex, lines, from)
      + if !sawHeading then TagAll([PREAMBLE], NonBlank(lex.isSpace, current))
        else if title == METADATA_TITLE then [] else TagAll(path, NonBlank(lex.isSpace, current))
  {
    RetainedStretch(lex, lines, from, i);
    hide Open, Retained, NonBlank;
    SameOpenSamePath(lex, lines, from, i);
  }

  // What flushing the current lines emits.
  lemma CurrentEmits(lex: Lexer, lines: seq<string>, from: nat, i: nat, stack: seq<Heading>, path: seq<string>,
                     title: string, sawHeading: bool, current: seq<string>)
    requires AtLine(lex, lines, from, i, stack, path, title, sawHeading, current)
    ensures from <= i <= |lines|
    ensures Emitted(lex, lines, from, i) ==
      var blocks := Tokenize(lex, current, 0);
      if !sawHeading then When(blocks != [], Section([PREAMBLE], PREAMBLE, blocks))
      else When(title != METADATA_TITLE && blocks != [], Section(path, title, blocks))
  {
    RetainedStretch(lex, lines, from, i);
    hide Open, Retained, Tokenize, TagAll;
  }

  predicate WholeSection(lex: Lexer, s: Section) {
    s.blocks != [] && forall b | b in s.blocks :: Content(lex.isSpace, b.text) != []
  }

  method FlushAt(lex: Lexer, lines: seq<string>, sections: seq<Section>, sawHeading: bool, path: seq<string>,
                 title: string, current: seq<string>, ghost stack: seq<Heading>, ghost from: nat, ghost i: nat)
    returns (r: seq<Section>)
    requires AllOneLine(lines) && AtLine(lex, lines, from, i, stack, path, title, sawHeading, current)
    requires TagsOf(lex.isSpace, sections) == Retained(lex, lines, from)
    requires forall s | s in sections :: WholeSection(lex, s)
    ensures r == sections + Emitted(lex, lines, from, i)
    ensures TagsOf(lex.isSpace, r) == Retained(lex, lines, i)
    ensures forall s | s in r :: WholeSection(lex, s)
  {
    CurrentStretch(lex, lines, from, i, stack, path, title, sawHeading, current);
    CurrentEmits(lex, lines, from, i, stack, path, title, sawHeading, current);
    TokensHaveContent(lex, current, 0);
    hide Emitted, Operational, TagsOf, Retained, NonBlank, TagAll, AtLine;
    r := Flush(lex, sections, sawHeading, path, title, current);
  }

  /** Sections show exactly the retained lines of the manual, each under the path of
      its enclosing headings; parsing fails exactly on a heading without a title. */
  method ParseSections(lex: Lexer, lines: seq<string>) returns (r: Result<seq<Section>, ParseError>)
    requires AllOneLine(lines)
    ensures r.Err? <==> HasEmptyHeading(lex, lines, |lines|)
    ensures r.Ok? ==> r.value == SectionsOf(lex, lines)
    ensures r.Ok? ==> TagsOf(lex.isSpace, r.value) == Retained(lex, lines, |lines|)
    ensures r.Ok? ==> forall s | s in r.value :: WholeSection(lex, s)
  {
    var sections: seq<Section> := [];
    var stack: seq<Heading> := [];
    var path, title, current, sawHeading := [], "", [], false;
    ghost var from := 0;
    var i := 0;
    hide Retained, TagsOf, WholeSection, Emitted, SectionsBefore, SectionStart;
    StartsEmpty(lex, lines);
    NoSectionsAtFirst(lex, lines);
    while i < |lines|
      invariant 0 <= from <= i <= |lines|
      invariant !HasEmptyHeading(lex, lines, i)
      invariant AtLine(lex, lines, from, i, stack, path, title, sawHeading, current)
      invariant from > 0 ==> IsHeading(lex, lines, from - 1)
      invariant sections == SectionsBefore(lex, lines, from)
      invariant TagsOf(lex.isSpace, sections) == Retained(lex, lines, from)
      invariant forall s | s in sections :: WholeSection(lex, s)
    {
      var line := lines[i];
      var heading := lex.heading(line);
      if heading.None? {
        LineStep(lex, lines, from, i, stack, path, title, sawHeading, current);
        current := current + [line];
        i := i + 1;
        continue;
      }
      sections := FlushAt(lex, lines, sections, sawHeading, path, title, current, stack, from, i);
      sawHeading := true;
      if heading.value.title == "" {
        return Err(EmptyHeading);
      }
      stack := PopWhile(stack, heading.value.level, lex, lines, Open(lex, lines, i));
      stack := stack + [heading.value];
      HeadingStep(lex, lines, i, heading.value, stack);
      RetainedHeading(lex, lines, i);
      path := TitlesOf(stack);
      title := heading.value.title;
      HeadingEndsSection(lex, lines, from, i);
      i := i + 1;
      current, from := [], i;
    }
    sections := FlushAt(lex, lines, sections, sawHeading, path, title, current, stack, from, i);
    StartOfStretch(lex, lines, from, |lines|);
    SameStartSameSections(lex, lines, from, |lines|);
    r := Ok(sections);
  }

  lemma NoSectionsAtFirst(lex: Lexer, lines: seq<string>)
    ensures SectionsBefore(lex, lines, 0) == []
  {
  }

  lemma HeadingEndsSection(lex: Lexer, lines: seq<string>, from: nat, i: nat)
    requires from <= i && IsHeading(lex, lines, i) && NoHeadings(lex, lines, from, i)
    requires from > 0 ==> IsHeading(lex, lines, from - 1)
    ensures SectionsBefore(lex, lines, i + 1) == SectionsBefore(lex, lines, from) + Emitted(lex, lines, from, i)
  {
    StartOfStretch(lex, lines, i + 1, i + 1);
    StartOfStretch(lex, lines, from, i);
    SameStartSameSections(lex, lines, from, i);
    hide Emitted;
  }

  lemma SameStartSameSections(lex: Lexer, lines: seq<string>, from: nat, i: nat)
    requires from <= i <= |lines| && NoHeadings(lex, lines, from, i) && (from > 0 ==> IsHeading(lex, lines, from - 1))
    ensures SectionsBefore(lex, lines, i) == SectionsBefore(lex, lines, from)
  {
    StartOfStretch(lex, lines, from, i);
    StartOfStretch(lex, lines, from, from);
    hide Emitted, SectionStart;
  }

  lemma StartsEmpty(lex: Lexer, lines: seq<string>)
    ensures AtLine(lex, lines, 0, 0, [], [], "", false, [])
    ensures TagsOf(lex.isSpace, []) == Retained(lex, lines, 0)
  {
  }
}
