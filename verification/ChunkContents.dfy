/** What a chunk says about its blocks: how large they are taken to be, their kind and where they come from. */
module ChunkContents {
  import opened FileChunker
  import opened FileLoaders
  import opened LineRuns
  import opened Texts

  /** Latin letters, digits, underscore, hyphen and full stop, by their codes. */
  predicate PartOfWord(c: char) {
    var n := c as int;
    65 <= n <= 90 || 97 <= n <= 122 || 48 <= n <= 57 || n == 95 || n == 45 || n == 46
  }

  function WordMarks(text: string): (marks: seq<bool>)
    ensures |marks| == |text| && forall i :: 0 <= i < |text| ==> marks[i] == PartOfWord(text[i])
  {
    seq(|text|, i requires 0 <= i < |text| => PartOfWord(text[i]))
  }

  function Ideographs(text: string): set<nat> {
    set i | 0 <= i < |text| && 0x3400 <= text[i] as int <= 0x9fff
  }

  lemma WordCharIsPartOfWord(c: char)
    ensures IsWordChar(c) <==> PartOfWord(c)
  {
  }

  lemma {:induction false} IdeographsAreCounted(text: string)
    ensures CjkCount(text) == |Ideographs(text)|
  {
    if text != "" {
      var n := |text| - 1;
      IdeographsAreCounted(text[..n]);
      assert Ideographs(text) == Ideographs(text[..n]) + if IsCjk(text[n]) then {n} else {};
    }
  }

  /** The last mark belongs to the last run. */
  lemma LastRun(marks: seq<bool>, runs: seq<Span>)
    requires AreRuns(marks, runs) && marks != [] && marks[|marks| - 1]
    ensures runs != [] && runs[|runs| - 1].e == |marks| && MaximalRun(marks, runs[|runs| - 1])
  {
    var n := |marks| - 1;
    assert Covered(runs, n);
    var k :| 0 <= k < |runs| && Holds(runs[k], n);
    assert MaximalRun(marks, runs[k]);
    assert MaximalRun(marks, runs[|runs| - 1]);
    if k < |runs| - 1 {
      assert false;
    }
  }

  /** The runs that are left when the last position is taken away. */
  function Shortened(runs: seq<Span>, n: nat): seq<Span> {
    if runs == [] || runs[|runs| - 1].e <= n then runs
    else
      var last := |runs| - 1;
      if runs[last].s >= n then runs[..last] else runs[last := Span(runs[last].s, n)]
  }

  lemma ShortenedAreRuns(marks: seq<bool>, runs: seq<Span>)
    requires AreRuns(marks, runs) && marks != []
    ensures AreRuns(marks[..|marks| - 1], Shortened(runs, |marks| - 1))
  {
    var n := |marks| - 1;
    var init, less := marks[..n], Shortened(runs, n);
    if marks[n] {
      LastRun(marks, runs);
    }
    forall k | 0 <= k < |less| ensures MaximalRun(init, less[k]) {
      assert MaximalRun(marks, runs[k]);
    }
    forall i: nat | i < n && init[i] ensures Covered(less, i) {
      assert Covered(runs, i);
      var k :| 0 <= k < |runs| && Holds(runs[k], i);
      assert Holds(less[k], i);
    }
  }

  /** A run is lost exactly if it begins at the last position. */
  lemma ShortenedCounts(marks: seq<bool>, runs: seq<Span>)
    requires marks != [] && (runs != [] ==> MaximalRun(marks, runs[|runs| - 1]))
    requires marks[|marks| - 1] ==> runs != [] && runs[|runs| - 1].e == |marks|
    ensures var n := |marks| - 1;
            |runs| == |Shortened(runs, n)| + if marks[n] && (n == 0 || !marks[n - 1]) then 1 else 0
  {
    var n := |marks| - 1;
    if runs != [] {
      var last := runs[|runs| - 1];
      assert last.e == |marks| ==> marks[n];
      assert last.e == |marks| && last.s < n ==> marks[n - 1];
    }
  }

  lemma {:induction false} WordsAreRuns(text: string, runs: seq<Span>)
    requires AreRuns(WordMarks(text), runs)
    ensures WordCount(text) == |runs|
  {
    var marks := WordMarks(text);
    if text == "" {
      NoRuns(marks, runs);
    } else {
      var n := |text| - 1;
      assert WordMarks(text[..n]) == marks[..n];
      ShortenedAreRuns(marks, runs);
      if marks[n] {
        LastRun(marks, runs);
      }
      assert runs != [] ==> MaximalRun(marks, runs[|runs| - 1]);
      ShortenedCounts(marks, runs);
      WordsAreRuns(text[..n], Shortened(runs, n));
      WordCharIsPartOfWord(text[n]);
      if n > 0 {
        WordCharIsPartOfWord(text[n - 1]);
      }
    }
  }

  /** A text is taken to have as many tokens as it has ideographs and maximal runs of word characters, and at least
      one. */
  lemma EstimateIsCount(text: string, runs: seq<Span>)
    requires AreRuns(WordMarks(text), runs)
    ensures var n := |Ideographs(text)| + |runs|;
            EstimateTokens(text) == if n == 0 then 1 else n
  {
    IdeographsAreCounted(text);
    WordsAreRuns(text, runs);
  }

  /** A table or code block has its chunk to itself, so what the chunk is said to be is what its first block is. */
  lemma KindOfFirst(blocks: seq<Block>, target: nat, p: Span, c: ChunkDraft)
    requires IsSpan(blocks, target, p) && DraftOf(blocks, p, c)
    ensures c.ChunkKind() == blocks[p.s].kind
  {
    forall i | p.s <= i < p.e && (blocks[i].kind.Table? || blocks[i].kind.Code?) ensures p.e == p.s + 1 {
      SpanIsTight(blocks, target, p, i);
    }
  }

  /** A chunk's text is the text of its blocks in order, with an empty line between any two. */
  lemma TextInOrder(blocks: seq<Block>, p: Span, c: ChunkDraft, m: nat, before: ChunkDraft, after: ChunkDraft)
    requires DraftOf(blocks, p, c)
    requires p.s < m < p.e ==> DraftOf(blocks, Span(p.s, m), before) && DraftOf(blocks, Span(m, p.e), after)
    ensures p.e == p.s + 1 ==> c.Text() == blocks[p.s].text
    ensures p.s < m < p.e ==> c.Text() == before.Text() + "\n\n" + after.Text()
  {
    if p.s < m < p.e {
      assert BlockTexts(c.blocks) == BlockTexts(before.blocks) + BlockTexts(after.blocks);
      JoinInParts(BlockTexts(before.blocks), BlockTexts(after.blocks), "\n\n");
    }
  }

  /** Where no size is asked for, a chunk without its last block is taken to have less than 420 tokens, and one of fewer
      is ended by a table or code. */
  lemma UsualChunk(blocks: seq<Block>, p: Span)
    requires IsSpan(blocks, TARGET, p)
    ensures p.s + 1 < p.e ==> Tokens(blocks, p.s, p.e - 1) < 420
    ensures p.e < |blocks| && Tokens(blocks, p.s, p.e) < 420 ==>
              exists k :: p.e - 1 <= k <= p.e && (blocks[k].kind.Table? || blocks[k].kind.Code?)
  {
    SpanIsTight(blocks, TARGET, p, p.s);
    if p.e < |blocks| {
      SpanEndsForReason(blocks, TARGET, p);
      assert blocks[p.e - 1].kind.Table? || blocks[p.e - 1].kind.Code? || blocks[p.e].kind.Table? || blocks[p.e].kind.Code?
             || Tokens(blocks, p.s, p.e) >= 420;
    }
  }

  /** The metadata begins as the first block's and ends as the last one's. */
  lemma MetaReachesFromFirstToLast(blocks: seq<Block>, p: Span, c: ChunkDraft)
    requires DraftOf(blocks, p, c)
    ensures var m, first, last := c.Meta(), blocks[p.s].meta, blocks[p.e - 1].meta;
            && m.rowStart == first.rowStart && m.lineStart == first.lineStart && m.startMs == first.startMs
            && m.rowEnd == last.rowEnd && m.lineEnd == last.lineEnd && m.endMs == last.endMs
            && m.page == first.page && m.sheetName == first.sheetName && m.symbolName == first.symbolName
  {
    assert c.blocks[0] == blocks[p.s] && c.blocks[|c.blocks| - 1] == blocks[p.e - 1];
  }
}
