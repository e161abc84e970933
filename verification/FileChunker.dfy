/** Packing a file's blocks into chunks of about a given size. */
module FileChunker {
  import opened FileLoaders
  import opened LineRuns
  import opened Texts

  /** A chunk with its blocks; its text, kind and metadata are read off them. */
  datatype ChunkDraft = ChunkDraft(blocks: seq<Block>, blockStartIndex: nat, blockEndIndex: nat, tokenEstimate: int) {
    function Text(): string {
      Join(BlockTexts(blocks), "\n\n")
    }

    function ChunkKind(): Kind
      requires blocks != []
    {
      if exists b :: b in blocks && b.kind == Table then Table
      else if exists b :: b in blocks && b.kind == Code then Code
      else blocks[0].kind
    }

    function Meta(): Metadata
      requires blocks != []
    {
      MergeMetadata(blocks[0].meta, blocks[|blocks| - 1].meta)
    }
  }

  const TARGET := 420

  predicate IsCjk(c: char) {
    '\U{3400}' <= c <= '\U{9FFF}'
  }

  predicate IsWordChar(c: char) {
    'A' <= c <= 'Z' || 'a' <= c <= 'z' || '0' <= c <= '9' || c == '_' || c == '-' || c == '.'
  }

  function CjkCount(text: string): nat {
    if text == "" then 0 else CjkCount(text[..|text| - 1]) + if IsCjk(text[|text| - 1]) then 1 else 0
  }

  /** Maximal runs of word characters, counted where they begin. */
  function WordCount(text: string): nat {
    if text == "" then 0
    else
      var n := |text| - 1;
      WordCount(text[..n]) + if IsWordChar(text[n]) && (n == 0 || !IsWordChar(text[n - 1])) then 1 else 0
  }

  function EstimateTokens(text: string): (n: nat)
    ensures n >= 1
  {
    var n := CjkCount(text) + WordCount(text);
    if n > 1 then n else 1
  }

  /** A table or a piece of code is a chunk of its own. */
  predicate Forced(b: Block) {
    b.kind == Table || b.kind == Code
  }

  function BlockTexts(bs: seq<Block>): (r: seq<string>)
    ensures |r| == |bs| && forall k :: 0 <= k < |bs| ==> r[k] == bs[k].text
  {
    seq(|bs|, k requires 0 <= k < |bs| => bs[k].text)
  }

  function MergeMetadata(first: Metadata, last: Metadata): Metadata {
    first.(rowEnd := last.rowEnd, lineEnd := last.lineEnd, endMs := last.endMs)
  }

  /** The estimate for the first `n` blocks. */
  function TokensUpTo(blocks: seq<Block>, n: nat): nat
    requires n <= |blocks|
  {
    if n == 0 then 0 else TokensUpTo(blocks, n - 1) + EstimateTokens(blocks[n - 1].text)
  }

  function Tokens(blocks: seq<Block>, s: nat, e: nat): int
    requires s <= e <= |blocks|
  {
    TokensUpTo(blocks, e) - TokensUpTo(blocks, s)
  }

  lemma {:induction false} TokensAreNat(blocks: seq<Block>, s: nat, e: nat)
    requires s <= e <= |blocks|
    ensures Tokens(blocks, s, e) >= e - s
  {
    if s < e {
      TokensAreNat(blocks, s, e - 1);
    }
  }

  /* ---------- where chunks end ---------- */

  /** A chunk from `s` ends before `e`: a forced block stands on either side, or the target is reached. */
  predicate Stops(blocks: seq<Block>, target: nat, s: nat, e: nat) {
    s < e <= |blocks| && (Forced(blocks[e - 1]) || Tokens(blocks, s, e) >= target || (e < |blocks| && Forced(blocks[e])))
  }

  ghost predicate NoEarlierStop(blocks: seq<Block>, target: nat, s: nat, e: nat) {
    forall m: nat {:trigger Stops(blocks, target, s, m)} :: s < m < e ==> !Stops(blocks, target, s, m)
  }

  /** As long as it may be, and no longer. */
  ghost predicate IsSpan(blocks: seq<Block>, target: nat, p: Span) {
    && p.s < p.e <= |blocks|
    && NoEarlierStop(blocks, target, p.s, p.e)
    && (p.e == |blocks| || Stops(blocks, target, p.s, p.e))
  }

  /** The spans cover the first `n` blocks, one after the other. */
  ghost predicate Tiles(blocks: seq<Block>, target: nat, spans: seq<Span>, n: nat) {
    if spans == [] then n == 0
    else
      var last := spans[|spans| - 1];
      last.e == n && IsSpan(blocks, target, last) && Tiles(blocks, target, spans[..|spans| - 1], last.s)
  }

  predicate DraftOf(blocks: seq<Block>, p: Span, c: ChunkDraft) {
    p.s < p.e <= |blocks| && c == ChunkDraft(blocks[p.s..p.e], p.s, p.e - 1, Tokens(blocks, p.s, p.e))
  }

  ghost predicate Drafted(blocks: seq<Block>, spans: seq<Span>, cs: seq<ChunkDraft>) {
    |cs| == |spans| && forall k :: 0 <= k < |cs| ==> DraftOf(blocks, spans[k], cs[k])
  }

  predicate Visible(space: Space, c: ChunkDraft) {
    !Blank(space, c.Text())
  }

  function NonBlank(space: Space, cs: seq<ChunkDraft>): seq<ChunkDraft> {
    if cs == [] then []
    else NonBlank(space, cs[..|cs| - 1]) + if Visible(space, cs[|cs| - 1]) then [cs[|cs| - 1]] else []
  }

  /** The state of the loop before block `i`: the open chunk starts at `s`. */
  ghost predicate Packing(blocks: seq<Block>, target: nat, spans: seq<Span>, s: nat, i: nat) {
    && s <= i <= |blocks|
    && Tiles(blocks, target, spans, s)
    && NoEarlierStop(blocks, target, s, i)
    && (s < i ==> !Forced(blocks[i - 1]) && Tokens(blocks, s, i) < target)
  }

  lemma SpanEnds(blocks: seq<Block>, target: nat, spans: seq<Span>, s: nat, e: nat)
    requires s < e <= |blocks| && Tiles(blocks, target, spans, s)
    requires NoEarlierStop(blocks, target, s, e) && (e == |blocks| || Stops(blocks, target, s, e))
    ensures Tiles(blocks, target, spans + [Span(s, e)], e)
  {
    assert (spans + [Span(s, e)])[..|spans|] == spans;
  }

  lemma ForcedComes(blocks: seq<Block>, target: nat, spans: seq<Span>, s: nat, i: nat)
    requires Packing(blocks, target, spans, s, i) && s < i < |blocks| && Forced(blocks[i])
    ensures Packing(blocks, target, spans + [Span(s, i)], i, i)
  {
    SpanEnds(blocks, target, spans, s, i);
  }

  lemma BlockAdded(blocks: seq<Block>, target: nat, spans: seq<Span>, s: nat, i: nat)
    requires Packing(blocks, target, spans, s, i) && i < |blocks| && (s < i ==> !Forced(blocks[i]))
    ensures NoEarlierStop(blocks, target, s, i + 1)
    ensures Forced(blocks[i]) || Tokens(blocks, s, i + 1) >= target ==>
              Packing(blocks, target, spans + [Span(s, i + 1)], i + 1, i + 1)
    ensures !Forced(blocks[i]) && Tokens(blocks, s, i + 1) < target ==> Packing(blocks, target, spans, s, i + 1)
  {
    if Forced(blocks[i]) || Tokens(blocks, s, i + 1) >= target {
      SpanEnds(blocks, target, spans, s, i + 1);
    }
  }

  lemma LastSpan(blocks: seq<Block>, target: nat, spans: seq<Span>, s: nat)
    requires Packing(blocks, target, spans, s, |blocks|)
    ensures Tiles(blocks, target, if s < |blocks| then spans + [Span(s, |blocks|)] else spans, |blocks|)
  {
    if s < |blocks| {
      SpanEnds(blocks, target, spans, s, |blocks|);
    }
  }

  method FlushChunk(chunks: seq<ChunkDraft>, current: seq<Block>, currentStart: nat, endIndex: int, tokens: int)
    returns (more: seq<ChunkDraft>)
    requires current != [] ==> endIndex >= 0
    ensures more == if current == [] then chunks else chunks + [ChunkDraft(current, currentStart, endIndex, tokens)]
  {
    if |current| == 0 {
      return chunks;
    }
    more := chunks + [ChunkDraft(current, currentStart, endIndex, tokens)];
  }

  /** The loop's variables before block `i`. */
  ghost predicate Packed(blocks: seq<Block>, target: nat, spans: seq<Span>, chunks: seq<ChunkDraft>,
                         current: seq<Block>, currentStart: nat, tokens: int, s: nat, i: nat) {
    && Packing(blocks, target, spans, s, i)
    && Drafted(blocks, spans, chunks)
    && current == blocks[s..i] && tokens == Tokens(blocks, s, i)
    && (current != [] ==> currentStart == s)
  }

  lemma DraftAdded(blocks: seq<Block>, spans: seq<Span>, chunks: seq<ChunkDraft>, s: nat, e: nat)
    requires Drafted(blocks, spans, chunks) && s < e <= |blocks|
    ensures Drafted(blocks, spans + [Span(s, e)], chunks + [ChunkDraft(blocks[s..e], s, e - 1, Tokens(blocks, s, e))])
  {
  }

  lemma FlushForced(blocks: seq<Block>, target: nat, spans: seq<Span>, chunks: seq<ChunkDraft>,
                    current: seq<Block>, currentStart: nat, tokens: int, s: nat, i: nat)
    requires Packed(blocks, target, spans, chunks, current, currentStart, tokens, s, i)
    requires current != [] && i < |blocks| && Forced(blocks[i])
    ensures Packed(blocks, target, spans + [Span(s, i)], chunks + [ChunkDraft(current, currentStart, i - 1, tokens)], [], currentStart, 0, i, i)
  {
    ForcedComes(blocks, target, spans, s, i);
    DraftAdded(blocks, spans, chunks, s, i);
  }

  lemma AddBlock(blocks: seq<Block>, target: nat, spans: seq<Span>, chunks: seq<ChunkDraft>,
                 current: seq<Block>, currentStart: nat, tokens: int, s: nat, i: nat)
    requires Packed(blocks, target, spans, chunks, current, currentStart, tokens, s, i)
    requires i < |blocks| && (current != [] ==> !Forced(blocks[i]))
    ensures var more, start, sum := current + [blocks[i]], if current == [] then i else currentStart, tokens + EstimateTokens(blocks[i].text);
            if Forced(blocks[i]) || sum >= target then
              Packed(blocks, target, spans + [Span(s, i + 1)], chunks + [ChunkDraft(more, start, i, sum)], [], start, 0, i + 1, i + 1)
            else Packed(blocks, target, spans, chunks, more, start, sum, s, i + 1)
  {
    BlockAdded(blocks, target, spans, s, i);
    DraftAdded(blocks, spans, chunks, s, i + 1);
    assert blocks[s..i + 1] == current + [blocks[i]];
  }

  lemma AllPacked(blocks: seq<Block>, target: nat, spans: seq<Span>, chunks: seq<ChunkDraft>,
                  current: seq<Block>, currentStart: nat, tokens: int, s: nat)
    requires Packed(blocks, target, spans, chunks, current, currentStart, tokens, s, |blocks|)
    ensures var last := if current == [] then spans else spans + [Span(s, |blocks|)];
            && Tiles(blocks, target, last, |blocks|)
            && Drafted(blocks, last, if current == [] then chunks else chunks + [ChunkDraft(current, currentStart, |blocks| - 1, tokens)])
  {
    LastSpan(blocks, target, spans, s);
    if s < |blocks| {
      DraftAdded(blocks, spans, chunks, s, |blocks|);
    }
  }

  method TakeBlock(blocks: seq<Block>, target: nat, index: nat, chunks0: seq<ChunkDraft>, current0: seq<Block>, currentStart0: nat,
                   tokens0: int, ghost spans0: seq<Span>, ghost s0: nat)
    returns (chunks: seq<ChunkDraft>, current: seq<Block>, currentStart: nat, tokens: int, ghost spans: seq<Span>, ghost s: nat)
    requires index < |blocks| && (current0 != [] ==> !Forced(blocks[index]))
    requires Packed(blocks, target, spans0, chunks0, current0, currentStart0, tokens0, s0, index)
    ensures Packed(blocks, target, spans, chunks, current, currentStart, tokens, s, index + 1)
  {
    AddBlock(blocks, target, spans0, chunks0, current0, currentStart0, tokens0, s0, index);
    var block := blocks[index];
    chunks, spans, s := chunks0, spans0, s0;
    currentStart := if |current0| == 0 then index else currentStart0;
    current := current0 + [block];
    tokens := tokens0 + EstimateTokens(block.text);
    if Forced(block) || tokens >= target {
      chunks := FlushChunk(chunks, current, currentStart, index, tokens);
      spans := spans + [Span(s, index + 1)];
      current, tokens, s := [], 0, index + 1;
    }
  }

  method MakeRoom(blocks: seq<Block>, target: nat, index: nat, chunks0: seq<ChunkDraft>, current0: seq<Block>, currentStart: nat,
                  tokens0: int, ghost spans0: seq<Span>, ghost s0: nat)
    returns (chunks: seq<ChunkDraft>, current: seq<Block>, tokens: int, ghost spans: seq<Span>, ghost s: nat)
    requires index < |blocks|
    requires Packed(blocks, target, spans0, chunks0, current0, currentStart, tokens0, s0, index)
    ensures Packed(blocks, target, spans, chunks, current, currentStart, tokens, s, index)
    ensures current != [] ==> !Forced(blocks[index])
  {
    chunks, current, tokens, spans, s := chunks0, current0, tokens0, spans0, s0;
    if Forced(blocks[index]) && |current| > 0 {
      FlushForced(blocks, target, spans, chunks, current, currentStart, tokens, s, index);
      chunks := FlushChunk(chunks, current, currentStart, index - 1, tokens);
      spans := spans + [Span(s, index)];
      current, tokens, s := [], 0, index;
    }
  }

  method PackBlock(blocks: seq<Block>, target: nat, index: nat, chunks0: seq<ChunkDraft>, current0: seq<Block>, currentStart0: nat,
                   tokens0: int, ghost spans0: seq<Span>, ghost s0: nat)
    returns (chunks: seq<ChunkDraft>, current: seq<Block>, currentStart: nat, tokens: int, ghost spans: seq<Span>, ghost s: nat)
    requires index < |blocks|
    requires Packed(blocks, target, spans0, chunks0, current0, currentStart0, tokens0, s0, index)
    ensures Packed(blocks, target, spans, chunks, current, currentStart, tokens, s, index + 1)
  {
    chunks, current, tokens, spans, s := MakeRoom(blocks, target, index, chunks0, current0, currentStart0, tokens0, spans0, s0);
    chunks, current, currentStart, tokens, spans, s :=
      TakeBlock(blocks, target, index, chunks, current, currentStart0, tokens, spans, s);
  }

  method FlushLast(blocks: seq<Block>, target: nat, chunks0: seq<ChunkDraft>, current: seq<Block>, currentStart: nat, tokens: int,
                   ghost spans0: seq<Span>, ghost s: nat)
    returns (chunks: seq<ChunkDraft>, ghost spans: seq<Span>)
    requires Packed(blocks, target, spans0, chunks0, current, currentStart, tokens, s, |blocks|)
    ensures Tiles(blocks, target, spans, |blocks|) && Drafted(blocks, spans, chunks)
  {
    AllPacked(blocks, target, spans0, chunks0, current, currentStart, tokens, s);
    chunks := FlushChunk(chunks0, current, currentStart, |blocks| - 1, tokens);
    spans := if current == [] then spans0 else spans0 + [Span(s, |blocks|)];
  }

  method Pack(blocks: seq<Block>, target: nat) returns (chunks: seq<ChunkDraft>, ghost spans: seq<Span>)
    ensures Tiles(blocks, target, spans, |blocks|) && Drafted(blocks, spans, chunks)
  {
    chunks, spans := [], [];
    var current: seq<Block> := [];
    var currentStart: nat := 0;
    var tokens := 0;
    ghost var s: nat := 0;
    for index := 0 to |blocks|
      invariant Packed(blocks, target, spans, chunks, current, currentStart, tokens, s, index)
    {
      chunks, current, currentStart, tokens, spans, s :=
        PackBlock(blocks, target, index, chunks, current, currentStart, tokens, spans, s);
    }
    chunks, spans := FlushLast(blocks, target, chunks, current, currentStart, tokens, spans, s);
  }

  /** The drafts tile the blocks. */
  ghost predicate TiledBy(blocks: seq<Block>, target: nat, drafts: seq<ChunkDraft>) {
    exists spans :: Tiles(blocks, target, spans, |blocks|) && Drafted(blocks, spans, drafts)
  }

  /** Those with nothing but space in them are dropped. */
  method Chunk(space: Space, blocks: seq<Block>, target: nat := TARGET) returns (chunks: seq<ChunkDraft>)
    ensures exists drafts :: TiledBy(blocks, target, drafts) && chunks == NonBlank(space, drafts)
  {
    ghost var spans;
    chunks, spans := Pack(blocks, target);
    assert TiledBy(blocks, target, chunks);
    chunks := NonBlank(space, chunks);
  }

  /* ---------- what a chunk is ---------- */

  /** A table or code block stands alone, and leaving out its last block takes a chunk below the target. */
  lemma SpanIsTight(blocks: seq<Block>, target: nat, p: Span, i: nat)
    requires IsSpan(blocks, target, p) && p.s <= i < p.e
    ensures blocks[i].kind.Table? || blocks[i].kind.Code? ==> p.e == p.s + 1
    ensures p.s + 1 < p.e ==> Tokens(blocks, p.s, p.e - 1) < target
  {
    assert Forced(blocks[i]) <==> blocks[i].kind.Table? || blocks[i].kind.Code?;
    if p.s + 1 < p.e {
      assert !Stops(blocks, target, p.s, p.e - 1);
      ForcedStops(blocks, target, p.s, i);
      ForcedStops(blocks, target, p.s, p.s);
    }
  }

  /** A chunk that is not the last ends because it is large enough, or because it is or precedes a table or code. */
  lemma SpanEndsForReason(blocks: seq<Block>, target: nat, p: Span)
    requires IsSpan(blocks, target, p) && p.e < |blocks|
    ensures || Tokens(blocks, p.s, p.e) >= target
            || blocks[p.e - 1].kind.Table? || blocks[p.e - 1].kind.Code?
            || blocks[p.e].kind.Table? || blocks[p.e].kind.Code?
  {
    assert Stops(blocks, target, p.s, p.e);
  }

  lemma ForcedStops(blocks: seq<Block>, target: nat, s: nat, i: nat)
    requires s <= i < |blocks|
    ensures Forced(blocks[i]) ==> if i == s then Stops(blocks, target, s, s + 1) else Stops(blocks, target, s, i)
  {
  }

  lemma {:induction false} TilesAreSpans(blocks: seq<Block>, target: nat, spans: seq<Span>, n: nat, k: nat)
    requires Tiles(blocks, target, spans, n) && k < |spans|
    ensures IsSpan(blocks, target, spans[k]) && spans[k].e <= n
  {
    if k < |spans| - 1 {
      TilesAreSpans(blocks, target, spans[..|spans| - 1], spans[|spans| - 1].s, k);
    }
  }

  lemma {:induction false} TilesOrdered(blocks: seq<Block>, target: nat, spans: seq<Span>, n: nat, j: nat, k: nat)
    requires Tiles(blocks, target, spans, n) && j < k < |spans|
    ensures spans[j].e <= spans[k].s
  {
    var last := |spans| - 1;
    if k < last {
      TilesOrdered(blocks, target, spans[..last], spans[last].s, j, k);
    } else {
      TilesAreSpans(blocks, target, spans[..last], spans[last].s, j);
    }
  }

  lemma {:induction false} InSomeSpan(blocks: seq<Block>, target: nat, spans: seq<Span>, n: nat, i: nat)
    requires Tiles(blocks, target, spans, n) && i < n
    ensures exists k :: 0 <= k < |spans| && Holds(spans[k], i)
  {
    var last := |spans| - 1;
    if spans[last].s <= i {
      assert Holds(spans[last], i);
    } else {
      InSomeSpan(blocks, target, spans[..last], spans[last].s, i);
      var k :| 0 <= k < last && Holds(spans[..last][k], i);
      assert Holds(spans[k], i);
    }
  }

  /** Every block is in exactly one span. */
  lemma ExactlyOneSpan(blocks: seq<Block>, target: nat, spans: seq<Span>, i: nat)
    requires Tiles(blocks, target, spans, |blocks|) && i < |blocks|
    ensures exists k :: 0 <= k < |spans| && Holds(spans[k], i)
    ensures forall j, k :: 0 <= j < |spans| && 0 <= k < |spans| && Holds(spans[j], i) && Holds(spans[k], i) ==> j == k
  {
    InSomeSpan(blocks, target, spans, |blocks|, i);
    forall j, k | 0 <= j < |spans| && 0 <= k < |spans| && Holds(spans[j], i) && Holds(spans[k], i) ensures j == k {
      if j < k {
        TilesOrdered(blocks, target, spans, |blocks|, j, k);
      } else if k < j {
        TilesOrdered(blocks, target, spans, |blocks|, k, j);
      }
    }
  }
}
