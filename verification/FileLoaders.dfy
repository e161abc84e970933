/** Cutting a text into paragraph blocks. */
module FileLoaders {
  import opened LineRuns
  import opened Options
  import opened Texts

  datatype Kind = Paragraph | Heading | Table | Code | OtherKind(name: string)

  datatype Metadata = Metadata(page: Option<nat>, sheetName: Option<string>, rowStart: Option<nat>, rowEnd: Option<nat>,
                               lineStart: Option<nat>, lineEnd: Option<nat>, startMs: Option<nat>, endMs: Option<nat>,
                               symbolName: Option<string>)

  datatype Block = Block(text: string, kind: Kind, meta: Metadata)

  function Lines(first: nat, last: nat): Metadata {
    Metadata(None, None, None, None, Some(first), Some(last), None, None, None)
  }

  /** Which lines have something to see. */
  function Marks(space: Space, lines: seq<string>): (r: seq<bool>)
    ensures |r| == |lines| && forall i :: 0 <= i < |r| ==> r[i] == !Blank(space, lines[i])
  {
    seq(|lines|, i requires 0 <= i < |lines| => !Blank(space, lines[i]))
  }

  /** The block of some lines, numbered from one to the last. */
  function BlockOf(space: Space, current: seq<string>, startLine: nat, endLine: nat, kind: Kind): Block {
    var value := Trim(space, Join(current, "\n"));
    Block(value, if value != "" && value[0] == '#' then Heading else kind, Lines(startLine, endLine))
  }

  ghost predicate ParagraphOf(space: Space, lines: seq<string>, p: Span, kind: Kind, b: Block) {
    p.s < p.e <= |lines| && b == BlockOf(space, lines[p.s..p.e], p.s + 1, p.e, kind)
  }

  ghost predicate Paragraphs(space: Space, lines: seq<string>, runs: seq<Span>, kind: Kind, blocks: seq<Block>) {
    |blocks| == |runs| && forall k :: 0 <= k < |runs| ==> ParagraphOf(space, lines, runs[k], kind, blocks[k])
  }

  ghost predicate HasText(space: Space, current: seq<string>) {
    exists k :: 0 <= k < |current| && !Blank(space, current[k])
  }

  /** Close the paragraph collected so far, if there is anything in it. */
  method Flush(space: Space, blocks: seq<Block>, current: seq<string>, startLine: nat, endLine: nat, kind: Kind) returns (more: seq<Block>)
    requires current == [] || HasText(space, current)
    ensures more == if current == [] then blocks else blocks + [BlockOf(space, current, startLine, endLine, kind)]
  {
    if current != [] {
      ghost var k :| 0 <= k < |current| && !Blank(space, current[k]);
      JoinNotBlank(space, current, "\n", k);
    }
    var value := Trim(space, Join(current, "\n"));
    more := blocks;
    if value != "" {
      more := blocks + [Block(value, if value[0] == '#' then Heading else kind, Lines(startLine, endLine))];
    }
  }

  /** The loop's variables before line `n`. */
  ghost predicate Collecting(space: Space, lines: seq<string>, marks: seq<bool>, runs: seq<Span>, blocks: seq<Block>,
                             current: seq<string>, kind: Kind, startLine: nat, n: nat) {
    && |marks| == |lines| && 1 <= startLine <= n + 1 && n <= |lines|
    && current == lines[startLine - 1..n]
    && Halfway(marks, runs, startLine - 1, n)
    && Paragraphs(space, lines, runs, kind, blocks)
  }

  lemma ParagraphAdded(space: Space, lines: seq<string>, runs: seq<Span>, kind: Kind, blocks: seq<Block>, p: Span, b: Block)
    requires Paragraphs(space, lines, runs, kind, blocks) && ParagraphOf(space, lines, p, kind, b)
    ensures Paragraphs(space, lines, runs + [p], kind, blocks + [b])
  {
  }

  /** The blocks after a flush. */
  lemma Closes(space: Space, lines: seq<string>, runs: seq<Span>, blocks: seq<Block>, kind: Kind, s: nat, n: nat, more: seq<Block>)
    requires Paragraphs(space, lines, runs, kind, blocks) && s <= n <= |lines|
    requires more == if lines[s..n] == [] then blocks else blocks + [BlockOf(space, lines[s..n], s + 1, n, kind)]
    ensures Paragraphs(space, lines, Closed(runs, s, n), kind, more)
  {
    if s < n {
      ParagraphAdded(space, lines, runs, kind, blocks, Span(s, n), BlockOf(space, lines[s..n], s + 1, n, kind));
    }
  }

  lemma TextCollected(space: Space, lines: seq<string>, marks: seq<bool>, runs: seq<Span>, blocks: seq<Block>, current: seq<string>,
                      kind: Kind, startLine: nat, n: nat)
    requires Collecting(space, lines, marks, runs, blocks, current, kind, startLine, n) && n < |lines| && marks[n]
    ensures Collecting(space, lines, marks, runs, blocks, current + [lines[n]], kind, if current == [] then n + 1 else startLine, n + 1)
  {
    Marked(marks, runs, startLine - 1, n);
  }

  lemma CurrentHasText(space: Space, lines: seq<string>, marks: seq<bool>, runs: seq<Span>, s: nat, n: nat)
    requires |marks| == |lines| && Halfway(marks, runs, s, n) && marks == Marks(space, lines)
    ensures lines[s..n] == [] || HasText(space, lines[s..n])
  {
    if s < n {
      assert marks[s];
      assert lines[s..n][0] == lines[s];
    }
  }

  /** A blank line closes the paragraph. */
  method TakeBlankLine(space: Space, lines: seq<string>, ghost marks: seq<bool>, ghost runs: seq<Span>, blocks: seq<Block>,
                       current: seq<string>, kind: Kind, startLine: nat, index: nat)
    returns (more: seq<Block>)
    requires Collecting(space, lines, marks, runs, blocks, current, kind, startLine, index)
    requires index < |lines| && !marks[index] && (current == [] || HasText(space, current))
    ensures Collecting(space, lines, marks, Closed(runs, startLine - 1, index), more, [], kind, index + 2, index + 1)
  {
    more := Flush(space, blocks, current, startLine, index, kind);
    Closes(space, lines, runs, blocks, kind, startLine - 1, index, more);
    Unmarked(marks, runs, startLine - 1, index);
  }

  method TakeLastLine(space: Space, lines: seq<string>, ghost marks: seq<bool>, ghost runs: seq<Span>, blocks: seq<Block>,
                      current: seq<string>, kind: Kind, startLine: nat)
    returns (more: seq<Block>)
    requires Collecting(space, lines, marks, runs, blocks, current, kind, startLine, |lines|)
    requires current == [] || HasText(space, current)
    ensures AreRuns(marks, Closed(runs, startLine - 1, |lines|))
    ensures Paragraphs(space, lines, Closed(runs, startLine - 1, |lines|), kind, more)
  {
    more := Flush(space, blocks, current, startLine, |lines|, kind);
    Closes(space, lines, runs, blocks, kind, startLine - 1, |lines|, more);
    AllEnded(marks, runs, startLine - 1);
  }

  method CollectParagraphs(space: Space, lines: seq<string>, kind: Kind) returns (blocks: seq<Block>, ghost runs: seq<Span>)
    ensures AreRuns(Marks(space, lines), runs) && Paragraphs(space, lines, runs, kind, blocks)
  {
    ghost var marks := Marks(space, lines);
    blocks, runs := [], [];
    var current: seq<string> := [];
    var startLine: nat := 1;
    for index := 0 to |lines|
      invariant Collecting(space, lines, marks, runs, blocks, current, kind, startLine, index)
    {
      if Blank(space, lines[index]) {
        CurrentHasText(space, lines, marks, runs, startLine - 1, index);
        blocks := TakeBlankLine(space, lines, marks, runs, blocks, current, kind, startLine, index);
        runs := Closed(runs, startLine - 1, index);
        current, startLine := [], index + 2;
        continue;
      }
      TextCollected(space, lines, marks, runs, blocks, current, kind, startLine, index);
      if |current| == 0 {
        startLine := index + 1;
      }
      current := current + [lines[index]];
    }
    CurrentHasText(space, lines, marks, runs, startLine - 1, |lines|);
    blocks := TakeLastLine(space, lines, marks, runs, blocks, current, kind, startLine);
    runs := Closed(runs, startLine - 1, |lines|);
  }

  /** The blocks are the maximal runs of non-blank lines, in order, all of them. */
  ghost predicate AreParagraphs(space: Space, lines: seq<string>, kind: Kind, blocks: seq<Block>) {
    exists runs :: AreRuns(Marks(space, lines), runs) && Paragraphs(space, lines, runs, kind, blocks)
  }

  /** `lines` is the text split at line ends.  A text without a non-blank line becomes one block. */
  method SplitParagraphBlocks(space: Space, text: string, lines: seq<string>, kind: Kind) returns (blocks: seq<Block>)
    ensures if forall i :: 0 <= i < |lines| ==> Blank(space, lines[i]) then blocks == [Block(text, kind, Lines(1, |lines|))]
            else AreParagraphs(space, lines, kind, blocks)
  {
    ghost var runs;
    blocks, runs := CollectParagraphs(space, lines, kind);
    NoRuns(Marks(space, lines), runs);
    if |blocks| == 0 {
      blocks := [Block(text, kind, Lines(1, |lines|))];
    }
  }
}
