/** From the lines of a text to its chunks: no non-blank line is lost or taken twice. */
module ChunkedLines {
  import opened FileChunker
  import opened FileLoaders
  import opened LineRuns
  import opened Options
  import opened Texts

  lemma {:induction false} TrimEndStops(space: Space, s: string)
    ensures TrimEnd(space, s) != "" ==> !space(TrimEnd(space, s)[|TrimEnd(space, s)| - 1])
  {
    if s != "" && space(s[|s| - 1]) {
      TrimEndStops(space, s[..|s| - 1]);
    }
  }

  lemma TrimmedIsNotBlank(space: Space, s: string)
    ensures Trim(space, s) != "" ==> !Blank(space, Trim(space, s))
  {
    TrimEndStops(space, TrimStart(space, s));
    BlankMeansAllSpace(space, Trim(space, s));
  }

  /** A paragraph has visible text. */
  lemma ParagraphIsVisible(space: Space, lines: seq<string>, p: Span, kind: Kind, b: Block)
    requires ParagraphOf(space, lines, p, kind, b) && !Blank(space, lines[p.s])
    ensures !Blank(space, b.text)
  {
    var current := lines[p.s..p.e];
    assert current[0] == lines[p.s];
    JoinNotBlank(space, current, "\n", 0);
    TrimmedIsNotBlank(space, Join(current, "\n"));
  }

  lemma RunBlockIsVisible(space: Space, lines: seq<string>, runs: seq<Span>, blocks: seq<Block>, kind: Kind, k: nat)
    requires AreRuns(Marks(space, lines), runs) && Paragraphs(space, lines, runs, kind, blocks) && k < |blocks|
    ensures !Blank(space, blocks[k].text)
  {
    assert MaximalRun(Marks(space, lines), runs[k]);
    assert Marks(space, lines)[runs[k].s];
    ParagraphIsVisible(space, lines, runs[k], kind, blocks[k]);
  }

  lemma {:induction false} AllKept(space: Space, cs: seq<ChunkDraft>)
    requires forall c :: c in cs ==> Visible(space, c)
    ensures NonBlank(space, cs) == cs
  {
    if cs == [] {
    } else {
      assert cs[|cs| - 1] in cs;
      AllKept(space, cs[..|cs| - 1]);
    }
  }

  lemma DraftIsVisible(space: Space, blocks: seq<Block>, p: Span, c: ChunkDraft)
    requires DraftOf(blocks, p, c) && !Blank(space, blocks[p.s].text)
    ensures Visible(space, c)
  {
    assert BlockTexts(c.blocks)[0] == blocks[p.s].text;
    JoinNotBlank(space, BlockTexts(c.blocks), "\n\n", 0);
  }

  /** Chunks of paragraphs are never dropped. */
  lemma ParagraphChunksAreKept(space: Space, lines: seq<string>, runs: seq<Span>, blocks: seq<Block>, kind: Kind, spans: seq<Span>, cs: seq<ChunkDraft>)
    requires AreRuns(Marks(space, lines), runs) && Paragraphs(space, lines, runs, kind, blocks) && Drafted(blocks, spans, cs)
    ensures NonBlank(space, cs) == cs
  {
    forall c | c in cs ensures Visible(space, c) {
      var k :| 0 <= k < |cs| && cs[k] == c;
      assert DraftOf(blocks, spans[k], cs[k]);
      RunBlockIsVisible(space, lines, runs, blocks, kind, spans[k].s);
      DraftIsVisible(space, blocks, spans[k], cs[k]);
    }
    AllKept(space, cs);
  }

  /* ---------- line ranges ---------- */

  predicate Proper(b: Block) {
    b.meta.lineStart.Some? && b.meta.lineEnd.Some? && b.meta.lineStart.value <= b.meta.lineEnd.value
  }

  predicate Spans(b: Block, line: nat) {
    Proper(b) && b.meta.lineStart.value <= line <= b.meta.lineEnd.value
  }

  /** Every block has a line range, and the ranges ascend. */
  ghost predicate Ascending(blocks: seq<Block>) {
    && (forall k :: 0 <= k < |blocks| ==> Proper(blocks[k]))
    && forall j, k :: 0 <= j < k < |blocks| ==> blocks[j].meta.lineEnd.value < blocks[k].meta.lineStart.value
  }

  lemma ParagraphRange(space: Space, lines: seq<string>, p: Span, kind: Kind, b: Block)
    requires ParagraphOf(space, lines, p, kind, b)
    ensures Proper(b) && b.meta.lineStart == Some(p.s + 1) && b.meta.lineEnd == Some(p.e)
  {
  }

  lemma ParagraphsAscend(space: Space, lines: seq<string>, runs: seq<Span>, blocks: seq<Block>, kind: Kind)
    requires AreRuns(Marks(space, lines), runs) && Paragraphs(space, lines, runs, kind, blocks)
    ensures Ascending(blocks)
    ensures forall k :: 0 <= k < |blocks| ==> blocks[k].meta.lineStart == Some(runs[k].s + 1) && blocks[k].meta.lineEnd == Some(runs[k].e)
  {
    forall k | 0 <= k < |blocks|
      ensures Proper(blocks[k]) && blocks[k].meta.lineStart == Some(runs[k].s + 1) && blocks[k].meta.lineEnd == Some(runs[k].e)
    {
      ParagraphRange(space, lines, runs[k], kind, blocks[k]);
    }
  }

  /** The line lies in the chunk's line range. */
  predicate ChunkSpans(c: ChunkDraft, line: nat) {
    c.blocks != [] &&
    var m := c.Meta();
    m.lineStart.Some? && m.lineEnd.Some? && m.lineStart.value <= line <= m.lineEnd.value
  }

  lemma RangeOfDraft(blocks: seq<Block>, p: Span, c: ChunkDraft, line: nat)
    requires DraftOf(blocks, p, c) && Proper(blocks[p.s]) && Proper(blocks[p.e - 1])
    ensures ChunkSpans(c, line) <==> blocks[p.s].meta.lineStart.value <= line <= blocks[p.e - 1].meta.lineEnd.value
  {
    assert c.blocks[0] == blocks[p.s] && c.blocks[|c.blocks| - 1] == blocks[p.e - 1];
  }

  lemma BlocksAscend(blocks: seq<Block>, j: nat, k: nat)
    requires Ascending(blocks) && j <= k < |blocks|
    ensures Proper(blocks[j]) && Proper(blocks[k])
    ensures blocks[j].meta.lineStart.value <= blocks[k].meta.lineStart.value
    ensures blocks[j].meta.lineEnd.value <= blocks[k].meta.lineEnd.value
    ensures j < k ==> blocks[j].meta.lineEnd.value < blocks[k].meta.lineStart.value
  {
  }

  lemma BlockLineInChunk(blocks: seq<Block>, p: Span, c: ChunkDraft, b: nat, line: nat)
    requires Ascending(blocks) && DraftOf(blocks, p, c) && p.s <= b < p.e && Spans(blocks[b], line)
    ensures ChunkSpans(c, line)
  {
    BlocksAscend(blocks, p.s, b);
    BlocksAscend(blocks, b, p.e - 1);
    RangeOfDraft(blocks, p, c, line);
  }

  lemma LaterChunkIsBelow(blocks: seq<Block>, p: Span, c: ChunkDraft, q: Span, d: ChunkDraft, line: nat)
    requires Ascending(blocks) && DraftOf(blocks, p, c) && DraftOf(blocks, q, d) && p.e <= q.s
    ensures !(ChunkSpans(c, line) && ChunkSpans(d, line))
  {
    BlocksAscend(blocks, p.s, p.e - 1);
    BlocksAscend(blocks, p.e - 1, q.s);
    BlocksAscend(blocks, q.s, q.e - 1);
    RangeOfDraft(blocks, p, c, line);
    RangeOfDraft(blocks, q, d, line);
  }

  ghost predicate InChunk(cs: seq<ChunkDraft>, k: int, line: nat) {
    0 <= k < |cs| && ChunkSpans(cs[k], line)
  }

  lemma LineHasBlock(space: Space, lines: seq<string>, runs: seq<Span>, blocks: seq<Block>, kind: Kind, line: nat)
    requires AreRuns(Marks(space, lines), runs) && Paragraphs(space, lines, runs, kind, blocks)
    requires 1 <= line <= |lines| && !Blank(space, lines[line - 1])
    ensures exists b: nat :: b < |blocks| && Spans(blocks[b], line)
  {
    assert Marks(space, lines)[line - 1];
    assert Covered(runs, line - 1);
    var k: nat :| k < |runs| && LineRuns.Holds(runs[k], line - 1);
    ParagraphsAscend(space, lines, runs, blocks, kind);
    assert Spans(blocks[k], line);
  }

  lemma LineHasChunk(blocks: seq<Block>, target: nat, spans: seq<Span>, drafts: seq<ChunkDraft>, b: nat, line: nat)
    requires Ascending(blocks) && Tiles(blocks, target, spans, |blocks|) && Drafted(blocks, spans, drafts)
    requires b < |blocks| && Spans(blocks[b], line)
    ensures exists k :: InChunk(drafts, k, line)
  {
    InSomeSpan(blocks, target, spans, |blocks|, b);
    var k :| 0 <= k < |spans| && LineRuns.Holds(spans[k], b);
    BlockLineInChunk(blocks, spans[k], drafts[k], b, line);
    assert InChunk(drafts, k, line);
  }

  /** Every non-blank line of the text, counted from one, lies in the line range of exactly one chunk. */
  lemma EveryLineInOneChunk(space: Space, lines: seq<string>, blocks: seq<Block>, kind: Kind, target: nat, drafts: seq<ChunkDraft>, line: nat)
    requires AreParagraphs(space, lines, kind, blocks) && TiledBy(blocks, target, drafts)
    requires 1 <= line <= |lines| && !Blank(space, lines[line - 1])
    ensures exists k :: InChunk(NonBlank(space, drafts), k, line)
    ensures forall j, k :: InChunk(NonBlank(space, drafts), j, line) && InChunk(NonBlank(space, drafts), k, line) ==> j == k
  {
    var runs :| AreRuns(Marks(space, lines), runs) && Paragraphs(space, lines, runs, kind, blocks);
    var spans :| Tiles(blocks, target, spans, |blocks|) && Drafted(blocks, spans, drafts);
    ParagraphChunksAreKept(space, lines, runs, blocks, kind, spans, drafts);
    ParagraphsAscend(space, lines, runs, blocks, kind);
    LineHasBlock(space, lines, runs, blocks, kind, line);
    var b: nat :| b < |blocks| && Spans(blocks[b], line);
    LineHasChunk(blocks, target, spans, drafts, b, line);
    forall j, k | InChunk(drafts, j, line) && InChunk(drafts, k, line) ensures j == k {
      OneChunkAtMost(blocks, target, spans, drafts, line, j, k);
    }
  }

  lemma OneChunkAtMost(blocks: seq<Block>, target: nat, spans: seq<Span>, drafts: seq<ChunkDraft>, line: nat, j: int, k: int)
    requires Ascending(blocks) && Tiles(blocks, target, spans, |blocks|) && Drafted(blocks, spans, drafts)
    requires InChunk(drafts, j, line) && InChunk(drafts, k, line)
    ensures j == k
  {
    if j < k {
      TilesOrdered(blocks, target, spans, |blocks|, j, k);
      LaterChunkIsBelow(blocks, spans[j], drafts[j], spans[k], drafts[k], line);
    } else if k < j {
      TilesOrdered(blocks, target, spans, |blocks|, k, j);
      LaterChunkIsBelow(blocks, spans[k], drafts[k], spans[j], drafts[j], line);
    }
  }
}
