// From the text of a manual to its chunks.
module ProcedureCorpus {
  import opened Wrappers
  import opened TextLines
  import opened MarkdownBlocks
  import opened ManualSections
  import opened GreedyPacking

  datatype Chunk = Chunk(path: seq<string>, title: string, index: nat, content: string)

  /** The chunks of one section, numbered from `first`. */
  function SectionChunks(s: Section, first: nat, max: nat): (r: seq<Chunk>) {
    var contents := JoinAll(Pack(Texts(s.blocks), max));
    seq(|contents|, i requires 0 <= i < |contents| => Chunk(s.path, s.title, first + i, contents[i]))
  }

  function ChunksOf(sections: seq<Section>, max: nat): seq<Chunk> {
    if sections == [] then []
    else
      var before := ChunksOf(sections[..|sections| - 1], max);
      before + SectionChunks(sections[|sections| - 1], |before|, max)
  }

  // The non-blank lines of the chunks, each with the section path of its chunk.
  function ChunkTags(isSpace: char -> bool, chunks: seq<Chunk>): seq<Tagged> {
    if chunks == [] then []
    else
      var last := chunks[|chunks| - 1];
      ChunkTags(isSpace, chunks[..|chunks| - 1]) + TagAll(last.path, Content(isSpace, last.content))
  }

  lemma {:induction false} ChunkTagsConcat(isSpace: char -> bool, a: seq<Chunk>, b: seq<Chunk>)
    ensures ChunkTags(isSpace, a + b) == ChunkTags(isSpace, a) + ChunkTags(isSpace, b)
  {
    if b == [] {
      assert a + b == a;
    } else {
      var init, last := b[..|b| - 1], b[|b| - 1];
      assert (a + b)[..|a + b| - 1] == a + init;
      ChunkTagsConcat(isSpace, a, init);
      Regroup(ChunkTags(isSpace, a), ChunkTags(isSpace, init), TagAll(last.path, Content(isSpace, last.content)));
    }
  }

  lemma TagAllConcat(path: seq<string>, a: seq<string>, b: seq<string>)
    ensures TagAll(path, a + b) == TagAll(path, a) + TagAll(path, b)
  {
  }

  lemma {:induction false} TagsOfContents(isSpace: char -> bool, path: seq<string>, title: string, first: nat,
                                          contents: seq<string>, chunks: seq<Chunk>)
    requires |chunks| == |contents|
    requires forall i | 0 <= i < |chunks| :: chunks[i] == Chunk(path, title, first + i, contents[i])
    ensures ChunkTags(isSpace, chunks) == TagAll(path, ContentOfAll(isSpace, contents))
  {
    if contents != [] {
      var n := |contents| - 1;
      TagsOfContents(isSpace, path, title, first, contents[..n], chunks[..n]);
      TagAllConcat(path, ContentOfAll(isSpace, contents[..n]), Content(isSpace, contents[n]));
    }
  }

  /** The chunks of a section show the lines of its blocks. */
  lemma SectionKeepsContent(isSpace: char -> bool, s: Section, first: nat, max: nat)
    ensures ChunkTags(isSpace, SectionChunks(s, first, max)) == TagAll(s.path, ContentOfAll(isSpace, Texts(s.blocks)))
  {
    var texts := Texts(s.blocks);
    var contents := JoinAll(Pack(texts, max));
    TagsOfContents(isSpace, s.path, s.title, first, contents, SectionChunks(s, first, max));
    PackGroups(texts, max);
    JoinGroups(Pack(texts, max));
    ContentOfJoin(isSpace, contents);
    ContentOfJoin(isSpace, texts);
  }

  lemma {:induction false} ChunksKeepContent(isSpace: char -> bool, sections: seq<Section>, max: nat)
    ensures ChunkTags(isSpace, ChunksOf(sections, max)) == TagsOf(isSpace, sections)
  {
    if sections != [] {
      var init, last := sections[..|sections| - 1], sections[|sections| - 1];
      ChunksKeepContent(isSpace, init, max);
      var before := ChunksOf(init, max);
      hide ChunkTags, SectionChunks;
      ChunkTagsConcat(isSpace, before, SectionChunks(last, |before|, max));
      SectionKeepsContent(isSpace, last, |before|, max);
    }
  }

  /** Chunk numbers count up from zero through the whole document. */
  lemma {:induction false} ChunksAreNumbered(sections: seq<Section>, max: nat, i: nat)
    requires i < |ChunksOf(sections, max)|
    ensures ChunksOf(sections, max)[i].index == i
  {
    var init := sections[..|sections| - 1];
    if i < |ChunksOf(init, max)| {
      ChunksAreNumbered(init, max, i);
    }
  }

  lemma SectionChunkAt(s: Section, first: nat, max: nat)
    ensures var contents := JoinAll(Pack(Texts(s.blocks), max));
      var r := SectionChunks(s, first, max);
      |r| == |contents| && forall j | 0 <= j < |r| :: r[j] == Chunk(s.path, s.title, first + j, contents[j])
  {
  }

  lemma OneMoreSection(sections: seq<Section>, k: nat, max: nat)
    requires k < |sections|
    ensures ChunksOf(sections[..k + 1], max)
         == ChunksOf(sections[..k], max) + SectionChunks(sections[k], |ChunksOf(sections[..k], max)|, max)
  {
    assert sections[..k + 1][..k] == sections[..k];
  }

  /** Appends the chunks of one section, continuing the numbering. */
  method AddSection(before: seq<Chunk>, s: Section, max: nat) returns (chunks: seq<Chunk>)
    ensures chunks == before + SectionChunks(s, |before|, max)
  {
    chunks := before;
    var contents := SplitSectionContent(Texts(s.blocks), max);
    ghost var added := SectionChunks(s, |before|, max);
    SectionChunkAt(s, |before|, max);
    hide *;
    var j := 0;
    while j < |contents|
      invariant 0 <= j <= |contents|
      invariant chunks == before + added[..j]
    {
      assert added[j] == Chunk(s.path, s.title, |before| + j, contents[j]);
      assert added[..j + 1] == added[..j] + [added[j]];
      chunks := chunks + [Chunk(s.path, s.title, |chunks|, contents[j])];
      j := j + 1;
    }
    assert added[..j] == added;
  }

  /** The chunks of a parsed manual, numbered through the document. */
  method ChunkDocument(sections: seq<Section>, max: nat) returns (chunks: seq<Chunk>)
    ensures chunks == ChunksOf(sections, max)
    ensures forall i | 0 <= i < |chunks| :: chunks[i].index == i
  {
    chunks := [];
    var k := 0;
    while k < |sections|
      invariant 0 <= k <= |sections|
      invariant chunks == ChunksOf(sections[..k], max)
    {
      OneMoreSection(sections, k, max);
      chunks := AddSection(chunks, sections[k], max);
      k := k + 1;
    }
    assert sections[..k] == sections;
    forall i | 0 <= i < |chunks| ensures chunks[i].index == i {
      ChunksAreNumbered(sections, max, i);
    }
  }

  /** Manual to chunks, end to end: reading the chunks in order and dropping blank
      lines gives exactly the retained lines of the manual, each once, in order, and
      in a chunk whose section path is the chain of headings that enclose the line. */
  method ChunkManual(lex: Lexer, text: string, max: nat) returns (r: Result<seq<Chunk>, ParseError>)
    ensures var lines := SplitLines(text);
      && (r.Err? <==> HasEmptyHeading(lex, lines, |lines|))
      && (r.Ok? ==> ChunkTags(lex.isSpace, r.value) == Retained(lex, lines, |lines|))
      && (r.Ok? ==> forall i | 0 <= i < |r.value| :: r.value[i].index == i)
  {
    var lines := SplitLines(text);
    LinesHaveNoNewline(text);
    var parsed := ParseSections(lex, lines);
    if parsed.Err? {
      return Err(parsed.error);
    }
    var chunks := ChunkDocument(parsed.value, max);
    ChunksKeepContent(lex.isSpace, parsed.value, max);
    r := Ok(chunks);
  }
}
