/** What one frame says about a node or an edge is folded into one snapshot before it is written.  The folds depend on
    the set of things said, not on their order or on how often they are said. */
module SnapshotFolds {
  import opened Options
  import opened ValidityMerge

  type NodeId = nat
  type EventId = nat

  datatype Relation = HasState | OtherRelation(name: nat)

  /** An edge is identified by its ends and its relation. */
  datatype EdgeId = EdgeId(source: NodeId, relation: Relation, target: NodeId)

  /** One mention of a node.  `key` stands for the serialised payload, numbered in text order; equal keys mean equal
      payloads. */
  datatype Mention = Mention(confidence: real, key: nat, occurredAt: Option<int>, evidence: seq<EventId>)

  /** The stored payload is the winner's, with the earliest time and the highest confidence of all. */
  datatype NodeSnapshot = NodeSnapshot(evidence: set<EventId>, key: nat, occurredAt: Option<int>, confidence: real)

  datatype EdgeMention = EdgeMention(confidence: real, evidence: seq<EventId>, needsConfirmation: bool, createdAt: int, range: Range)

  /** A snapshot starts with one range and only gains more. */
  type Ranges = rs: seq<Range> | rs != [] witness [Range(0, None)]

  datatype EdgeSnapshot = EdgeSnapshot(confidence: real, evidence: set<EventId>, needsConfirmation: bool, createdAt: int,
                                       ranges: Ranges)

  /** What is merged into the edge table. */
  datatype EdgeInput = EdgeInput(confidence: real, evidence: set<EventId>, needsConfirmation: bool, createdAt: int,
                                 validFrom: int, validTo: Option<int>)

  function Events(evidence: seq<EventId>): set<EventId> {
    set e | e in evidence
  }

  function Earlier(a: Option<int>, b: Option<int>): Option<int> {
    if a.None? then b else if b.None? then a else if b.value < a.value then b else a
  }

  function MaxReal(a: real, b: real): real {
    if b > a then b else a
  }

  /* ---------- one contribution ---------- */

  function FirstMention(m: Mention): NodeSnapshot {
    NodeSnapshot(Events(m.evidence), m.key, m.occurredAt, m.confidence)
  }

  function WithMention(s: NodeSnapshot, m: Mention): NodeSnapshot {
    var wins := m.confidence > s.confidence || (m.confidence == s.confidence && m.key < s.key);
    NodeSnapshot(s.evidence + Events(m.evidence), if wins then m.key else s.key,
                 Earlier(s.occurredAt, m.occurredAt), MaxReal(s.confidence, m.confidence))
  }

  function FirstEdge(m: EdgeMention): EdgeSnapshot {
    EdgeSnapshot(m.confidence, Events(m.evidence), m.needsConfirmation, m.createdAt, [m.range])
  }

  function WithEdge(s: EdgeSnapshot, m: EdgeMention): EdgeSnapshot {
    EdgeSnapshot(MaxReal(s.confidence, m.confidence), s.evidence + Events(m.evidence),
                 s.needsConfirmation || m.needsConfirmation,
                 if m.createdAt < s.createdAt then m.createdAt else s.createdAt, s.ranges + [m.range])
  }

  /** The snapshot maps one frame is collected into. */
  class FrameSnapshots {
    var nodes: map<NodeId, NodeSnapshot>
    var edges: map<EdgeId, EdgeSnapshot>

    constructor ()
      ensures nodes == map[] && edges == map[]
    {
      nodes, edges := map[], map[];
    }

    method ContributeSupport(n: NodeId, m: Mention)
      modifies this`nodes
      ensures nodes == NodesAfterOne(old(nodes), n, m)
    {
      if n !in nodes {
        nodes := nodes[n := NodeSnapshot(Events(m.evidence), m.key, m.occurredAt, m.confidence)];
        return;
      }
      var existing := nodes[n];
      var key := existing.key;
      if m.confidence > existing.confidence || (m.confidence == existing.confidence && m.key < existing.key) {
        key := m.key;
      }
      nodes := nodes[n := NodeSnapshot(existing.evidence + Events(m.evidence), key,
                                       Earlier(existing.occurredAt, m.occurredAt), MaxReal(existing.confidence, m.confidence))];
    }

    method ContributeEdge(e: EdgeId, m: EdgeMention)
      modifies this`edges
      ensures edges == EdgesAfterOne(old(edges), e, m)
    {
      if e !in edges {
        edges := edges[e := EdgeSnapshot(m.confidence, Events(m.evidence), m.needsConfirmation, m.createdAt, [m.range])];
        return;
      }
      var snapshot := edges[e];
      snapshot := snapshot.(confidence := MaxReal(snapshot.confidence, m.confidence),
                            evidence := snapshot.evidence + Events(m.evidence),
                            needsConfirmation := snapshot.needsConfirmation || m.needsConfirmation,
                            createdAt := if m.createdAt < snapshot.createdAt then m.createdAt else snapshot.createdAt);
      edges := edges[e := snapshot.(ranges := snapshot.ranges + [m.range])];
    }

    /** Every mention of one frame, in the order the frame is walked. */
    method Collect(mentions: seq<(NodeId, Mention)>, links: seq<(EdgeId, EdgeMention)>)
      requires nodes == map[] && edges == map[]
      modifies this
      ensures nodes == NodesAfter(mentions) && edges == EdgesAfter(links)
    {
      for k := 0 to |mentions|
        invariant nodes == NodesAfter(mentions[..k]) && edges == map[]
      {
        assert mentions[..k + 1][..k] == mentions[..k];
        ContributeSupport(mentions[k].0, mentions[k].1);
      }
      assert mentions[..|mentions|] == mentions;
      for k := 0 to |links|
        invariant nodes == NodesAfter(mentions) && edges == EdgesAfter(links[..k])
      {
        assert links[..k + 1][..k] == links[..k];
        ContributeEdge(links[k].0, links[k].1);
      }
      assert links[..|links|] == links;
    }
  }

  function NodesAfterOne(nodes: map<NodeId, NodeSnapshot>, n: NodeId, m: Mention): map<NodeId, NodeSnapshot> {
    nodes[n := if n in nodes then WithMention(nodes[n], m) else FirstMention(m)]
  }

  function EdgesAfterOne(edges: map<EdgeId, EdgeSnapshot>, e: EdgeId, m: EdgeMention): map<EdgeId, EdgeSnapshot> {
    edges[e := if e in edges then WithEdge(edges[e], m) else FirstEdge(m)]
  }

  function NodesAfter(ms: seq<(NodeId, Mention)>): map<NodeId, NodeSnapshot> {
    if ms == [] then map[] else
      var last := ms[|ms| - 1];
      NodesAfterOne(NodesAfter(ms[..|ms| - 1]), last.0, last.1)
  }

  function EdgesAfter(ms: seq<(EdgeId, EdgeMention)>): map<EdgeId, EdgeSnapshot> {
    if ms == [] then map[] else
      var last := ms[|ms| - 1];
      EdgesAfterOne(EdgesAfter(ms[..|ms| - 1]), last.0, last.1)
  }

  /* ---------- nodes: the snapshot as a summary of a set ---------- */

  ghost function Said<K(!new), M(!new)>(ms: seq<(K, M)>, k: K): set<M> {
    set p | p in ms && p.0 == k :: p.1
  }

  lemma SaidOneMore<K(!new), M(!new)>(ms: seq<(K, M)>, k: K)
    requires ms != []
    ensures var before, last := ms[..|ms| - 1], ms[|ms| - 1];
            Said(ms, k) == if last.0 == k then Said(before, k) + {last.1} else Said(before, k)
  {
    assert ms == ms[..|ms| - 1] + [ms[|ms| - 1]];
  }

  ghost predicate AllEvidence(s: set<Mention>, evidence: set<EventId>) {
    forall e :: e in evidence <==> exists m :: m in s && e in m.evidence
  }

  ghost predicate Strongest(s: set<Mention>, confidence: real, key: nat) {
    && (exists m :: m in s && m.confidence == confidence && m.key == key)
    && forall m :: m in s ==> m.confidence < confidence || (m.confidence == confidence && key <= m.key)
  }

  ghost predicate Earliest(s: set<Mention>, at: Option<int>) {
    && (at.Some? ==> exists m :: m in s && m.occurredAt == at)
    && forall m :: m in s && m.occurredAt.Some? ==> at.Some? && at.value <= m.occurredAt.value
  }

  /** All evidence, the strongest mention's payload (ties by text), the earliest time. */
  ghost predicate Summarises(s: set<Mention>, n: NodeSnapshot) {
    AllEvidence(s, n.evidence) && Strongest(s, n.confidence, n.key) && Earliest(s, n.occurredAt)
  }

  lemma SummaryIsUnique(s: set<Mention>, a: NodeSnapshot, b: NodeSnapshot)
    requires Summarises(s, a) && Summarises(s, b)
    ensures a == b
  {
    assert a.evidence == b.evidence;
  }

  lemma MentionSummarised(s: set<Mention>, n: NodeSnapshot, m: Mention)
    requires Summarises(s, n)
    ensures Summarises(s + {m}, WithMention(n, m))
  {
    var t, w := s + {m}, WithMention(n, m);
    assert m in t;
    forall e ensures e in w.evidence <==> exists q :: q in t && e in q.evidence {
      if e in n.evidence {
        var q :| q in s && e in q.evidence;
        assert q in t;
      }
    }
    var best :| best in s && best.confidence == n.confidence && best.key == n.key;
    assert best in t;
    if n.occurredAt.Some? {
      var first :| first in s && first.occurredAt == n.occurredAt;
      assert first in t;
    }
  }

  lemma FirstSummarised(m: Mention)
    ensures Summarises({m}, FirstMention(m))
  {
    assert m in {m};
  }

  lemma {:induction false} SnapshotSummarises(ms: seq<(NodeId, Mention)>, n: NodeId)
    ensures n in NodesAfter(ms) <==> Said(ms, n) != {}
    ensures n in NodesAfter(ms) ==> Summarises(Said(ms, n), NodesAfter(ms)[n])
  {
    if ms == [] {
    } else {
      var before, m := ms[..|ms| - 1], ms[|ms| - 1].1;
      SnapshotSummarises(before, n);
      SaidOneMore(ms, n);
      if ms[|ms| - 1].0 == n {
        if n in NodesAfter(before) {
          MentionSummarised(Said(before, n), NodesAfter(before)[n], m);
        } else {
          FirstSummarised(m);
          assert Said(ms, n) == {m};
        }
      }
    }
  }

  ghost predicate SaySame<K(!new), M(!new)>(a: seq<(K, M)>, b: seq<(K, M)>) {
    forall p :: p in a <==> p in b
  }

  lemma SameSaid<K(!new), M(!new)>(a: seq<(K, M)>, b: seq<(K, M)>, k: K)
    requires SaySame(a, b)
    ensures Said(a, k) == Said(b, k)
  {
    forall m ensures m in Said(a, k) <==> m in Said(b, k) {
      assert m in Said(a, k) <==> (k, m) in a;
      assert m in Said(b, k) <==> (k, m) in b;
    }
  }

  /** Node snapshots depend only on the set of mentions. */
  lemma NodesIgnoreOrderAndRepeats(a: seq<(NodeId, Mention)>, b: seq<(NodeId, Mention)>)
    requires SaySame(a, b)
    ensures NodesAfter(a) == NodesAfter(b)
  {
    forall n ensures n in NodesAfter(a) <==> n in NodesAfter(b)
      ensures n in NodesAfter(a) ==> NodesAfter(a)[n] == NodesAfter(b)[n]
    {
      SameSaid(a, b, n);
      SnapshotSummarises(a, n);
      SnapshotSummarises(b, n);
      if n in NodesAfter(a) {
        SummaryIsUnique(Said(a, n), NodesAfter(a)[n], NodesAfter(b)[n]);
      }
    }
  }

  /* ---------- edges ---------- */

  function Flushed(s: EdgeSnapshot): EdgeInput {
    var validity := Merge(s.ranges);
    EdgeInput(s.confidence, s.evidence, validity.disjoint || s.needsConfirmation, s.createdAt, validity.from, validity.to)
  }

  ghost function RangesOf(s: set<EdgeMention>): set<Range> {
    set m | m in s :: m.range
  }

  ghost predicate EdgeEvidence(s: set<EdgeMention>, evidence: set<EventId>) {
    forall e :: e in evidence <==> exists m :: m in s && e in m.evidence
  }

  ghost predicate EdgeExtremes(s: set<EdgeMention>, confidence: real, createdAt: int, needsConfirmation: bool) {
    && (exists m :: m in s && m.confidence == confidence)
    && (exists m :: m in s && m.createdAt == createdAt)
    && (forall m :: m in s ==> m.confidence <= confidence && createdAt <= m.createdAt)
    && (needsConfirmation <==> exists m :: m in s && m.needsConfirmation)
  }

  /** All evidence and ranges, the highest confidence, the earliest creation, and doubt if any mention is in doubt. */
  ghost predicate SummarisesEdge(s: set<EdgeMention>, n: EdgeSnapshot) {
    && EdgeEvidence(s, n.evidence)
    && EdgeExtremes(s, n.confidence, n.createdAt, n.needsConfirmation)
    && Elements(n.ranges) == RangesOf(s)
  }

  lemma EdgeSummaryIsUnique(s: set<EdgeMention>, a: EdgeSnapshot, b: EdgeSnapshot)
    requires SummarisesEdge(s, a) && SummarisesEdge(s, b)
    ensures a == b.(ranges := a.ranges) && Elements(a.ranges) == Elements(b.ranges)
  {
    assert a.evidence == b.evidence;
  }

  lemma EdgeExtremesGrow(s: set<EdgeMention>, n: EdgeSnapshot, m: EdgeMention)
    requires EdgeExtremes(s, n.confidence, n.createdAt, n.needsConfirmation)
    ensures var w := WithEdge(n, m);
            EdgeExtremes(s + {m}, w.confidence, w.createdAt, w.needsConfirmation)
  {
    assert m in s + {m};
    var best :| best in s && best.confidence == n.confidence;
    var first :| first in s && first.createdAt == n.createdAt;
    assert best in s + {m} && first in s + {m};
    if n.needsConfirmation {
      var q :| q in s && q.needsConfirmation;
      assert q in s + {m};
    }
  }

  lemma EdgeSummarised(s: set<EdgeMention>, n: EdgeSnapshot, m: EdgeMention)
    requires SummarisesEdge(s, n)
    ensures SummarisesEdge(s + {m}, WithEdge(n, m))
  {
    EdgeExtremesGrow(s, n, m);
    var t, w := s + {m}, WithEdge(n, m);
    assert m in t;
    forall e ensures e in w.evidence <==> exists q :: q in t && e in q.evidence {
      if e in n.evidence {
        var q :| q in s && e in q.evidence;
        assert q in t;
      }
    }
    assert Elements(w.ranges) == Elements(n.ranges) + {m.range};
    assert RangesOf(t) == RangesOf(s) + {m.range};
  }

  lemma FirstEdgeSummarised(m: EdgeMention)
    ensures SummarisesEdge({m}, FirstEdge(m))
  {
    assert m in {m};
    assert RangesOf({m}) == {m.range} == Elements([m.range]);
  }

  lemma {:induction false} EdgeSnapshotSummarises(ms: seq<(EdgeId, EdgeMention)>, e: EdgeId)
    ensures e in EdgesAfter(ms) <==> Said(ms, e) != {}
    ensures e in EdgesAfter(ms) ==> SummarisesEdge(Said(ms, e), EdgesAfter(ms)[e])
  {
    if ms == [] {
    } else {
      var before, m := ms[..|ms| - 1], ms[|ms| - 1].1;
      EdgeSnapshotSummarises(before, e);
      SaidOneMore(ms, e);
      if ms[|ms| - 1].0 == e {
        if e in EdgesAfter(before) {
          EdgeSummarised(Said(before, e), EdgesAfter(before)[e], m);
        } else {
          FirstEdgeSummarised(m);
          assert Said(ms, e) == {m};
        }
      }
    }
  }

  function RangesSaid(ms: seq<(EdgeId, EdgeMention)>, e: EdgeId): seq<Range> {
    if ms == [] then [] else
      var last := ms[|ms| - 1];
      RangesSaid(ms[..|ms| - 1], e) + if last.0 == e then [last.1.range] else []
  }

  lemma {:induction false} SnapshotRanges(ms: seq<(EdgeId, EdgeMention)>, e: EdgeId)
    ensures e in EdgesAfter(ms) ==> EdgesAfter(ms)[e].ranges == RangesSaid(ms, e)
    ensures e !in EdgesAfter(ms) ==> RangesSaid(ms, e) == []
  {
    if ms == [] {
    } else {
      SnapshotRanges(ms[..|ms| - 1], e);
    }
  }

  lemma {:induction false} RangesSplit(a: seq<(EdgeId, EdgeMention)>, b: seq<(EdgeId, EdgeMention)>, e: EdgeId)
    ensures RangesSaid(a + b, e) == RangesSaid(a, e) + RangesSaid(b, e)
  {
    if b == [] {
      assert a + b == a;
    } else {
      RangesSplit(a, b[..|b| - 1], e);
      assert (a + b)[..|a + b| - 1] == a + b[..|b| - 1];
    }
  }

  lemma TakeOut<T>(b: seq<T>, j: nat)
    requires j < |b|
    ensures multiset(b[..j] + b[j + 1..]) == multiset(b) - multiset{b[j]}
  {
    assert b == b[..j] + [b[j]] + b[j + 1..];
  }

  lemma RangesTakeOut(b: seq<(EdgeId, EdgeMention)>, j: nat, e: EdgeId)
    requires j < |b|
    ensures multiset(RangesSaid(b, e)) ==
            multiset(RangesSaid(b[..j] + b[j + 1..], e)) + multiset(if b[j].0 == e then [b[j].1.range] else [])
  {
    assert b == b[..j] + [b[j]] + b[j + 1..];
    RangesSplit(b[..j], b[j + 1..], e);
    RangesSplit(b[..j], [b[j]], e);
    RangesSplit(b[..j] + [b[j]], b[j + 1..], e);
  }

  lemma {:induction false} RangesIgnoreOrder(a: seq<(EdgeId, EdgeMention)>, b: seq<(EdgeId, EdgeMention)>, e: EdgeId)
    requires multiset(a) == multiset(b)
    ensures multiset(RangesSaid(a, e)) == multiset(RangesSaid(b, e))
  {
    assert |a| == |multiset(a)| == |multiset(b)| == |b|;
    if a == [] {
    } else {
      var last := a[|a| - 1];
      assert last in multiset(b);
      var j :| 0 <= j < |b| && b[j] == last;
      var rest := b[..j] + b[j + 1..];
      TakeOut(a, |a| - 1);
      assert a[..|a| - 1] + a[|a|..] == a[..|a| - 1];
      TakeOut(b, j);
      RangesIgnoreOrder(a[..|a| - 1], rest, e);
      RangesTakeOut(b, j, e);
    }
  }

  ghost predicate InDoubt(s: set<EdgeMention>) {
    exists m :: m in s && m.needsConfirmation
  }

  lemma RangesSaidAreSaid(ms: seq<(EdgeId, EdgeMention)>, e: EdgeId)
    requires e in EdgesAfter(ms)
    ensures RangesSaid(ms, e) != [] && Elements(RangesSaid(ms, e)) == RangesOf(Said(ms, e))
  {
    EdgeSnapshotSummarises(ms, e);
    SnapshotRanges(ms, e);
  }

  /** Lists of the same mentions reach the edge table alike exactly when both repeat an inverted first range or neither
      does, or the ranges leave a gap anyway, or some mention puts the edge in doubt. */
  lemma EdgesAgreeIff(a: seq<(EdgeId, EdgeMention)>, b: seq<(EdgeId, EdgeMention)>, e: EdgeId)
    requires SaySame(a, b) && e in EdgesAfter(a)
    ensures e in EdgesAfter(b) && Once(RangesSaid(a, e)) != []
    ensures Flushed(EdgesAfter(a)[e]) == Flushed(EdgesAfter(b)[e]) <==>
            || (DoublesFirst(RangesSaid(a, e)) <==> DoublesFirst(RangesSaid(b, e)))
            || Merge(Once(RangesSaid(a, e))).disjoint
            || InDoubt(Said(a, e))
  {
    SameSaid(a, b, e);
    EdgeSnapshotSummarises(a, e);
    EdgeSnapshotSummarises(b, e);
    EdgeSummaryIsUnique(Said(a, e), EdgesAfter(a)[e], EdgesAfter(b)[e]);
    SnapshotRanges(a, e);
    SnapshotRanges(b, e);
    RangesSaidAreSaid(a, e);
    RangesSaidAreSaid(b, e);
    MergesAgreeIff(RangesSaid(a, e), RangesSaid(b, e));
  }

  /** So what reaches the edge table depends only on the set of mentions, unless the first range is inverted and no
      mention puts the edge in doubt. */
  lemma EdgesIgnoreOrderAndRepeats(a: seq<(EdgeId, EdgeMention)>, b: seq<(EdgeId, EdgeMention)>, e: EdgeId)
    requires SaySame(a, b)
    requires InDoubt(Said(a, e)) || forall m :: m in Said(a, e) && Inverted(m.range) ==>
               exists q :: q in Said(a, e) && !Leq(m.range, q.range)
    ensures e in EdgesAfter(a) <==> e in EdgesAfter(b)
    ensures e in EdgesAfter(a) ==> Flushed(EdgesAfter(a)[e]) == Flushed(EdgesAfter(b)[e])
  {
    SameSaid(a, b, e);
    EdgeSnapshotSummarises(a, e);
    EdgeSnapshotSummarises(b, e);
    if e in EdgesAfter(a) {
      EdgesAgreeIff(a, b, e);
      if !InDoubt(Said(a, e)) {
        FirstIsProper(a, e);
        FirstIsProper(b, e);
      }
    }
  }

  lemma FirstIsProper(ms: seq<(EdgeId, EdgeMention)>, e: EdgeId)
    requires e in EdgesAfter(ms)
    requires forall m :: m in Said(ms, e) && Inverted(m.range) ==> exists q :: q in Said(ms, e) && !Leq(m.range, q.range)
    ensures !DoublesFirst(RangesSaid(ms, e))
  {
    var rs := RangesSaid(ms, e);
    RangesSaidAreSaid(ms, e);
    forall r | Inverted(r) ensures !Least(rs, r) {
      if r in rs {
        assert r in Elements(rs);
        var m :| m in Said(ms, e) && m.range == r;
        var q :| q in Said(ms, e) && !Leq(m.range, q.range);
        assert q.range in RangesOf(Said(ms, e)) && q.range in rs;
      }
    }
  }

  /** Order alone never matters, whatever the ranges. */
  lemma EdgesIgnoreOrder(a: seq<(EdgeId, EdgeMention)>, b: seq<(EdgeId, EdgeMention)>, e: EdgeId)
    requires multiset(a) == multiset(b)
    ensures e in EdgesAfter(a) <==> e in EdgesAfter(b)
    ensures e in EdgesAfter(a) ==> Flushed(EdgesAfter(a)[e]) == Flushed(EdgesAfter(b)[e])
  {
    forall p ensures p in a <==> p in b {
      assert p in a <==> p in multiset(a);
    }
    SameSaid(a, b, e);
    EdgeSnapshotSummarises(a, e);
    EdgeSnapshotSummarises(b, e);
    if e in EdgesAfter(a) {
      EdgeSummaryIsUnique(Said(a, e), EdgesAfter(a)[e], EdgesAfter(b)[e]);
      SnapshotRanges(a, e);
      SnapshotRanges(b, e);
      RangesIgnoreOrder(a, b, e);
      MergeIgnoresOrder(RangesSaid(a, e), RangesSaid(b, e));
    }
  }

  /** Saying an edge again, word for word, reaches the edge table exactly when its range is inverted and comes first,
      and the edge was not in doubt for another reason. */
  lemma RepeatedEdgeMention(ms: seq<(EdgeId, EdgeMention)>, e: EdgeId, m: EdgeMention)
    requires (e, m) in ms
    ensures e in EdgesAfter(ms)
    ensures var once, again := EdgesAfter(ms)[e], EdgesAfter(ms + [(e, m)])[e];
            Flushed(again) != Flushed(once) <==>
            Inverted(m.range) && (forall q :: q in Said(ms, e) ==> Leq(m.range, q.range)) && !Flushed(once).needsConfirmation
  {
    EdgeSnapshotSummarises(ms, e);
    assert m in Said(ms, e);
    var s := EdgesAfter(ms)[e];
    assert (ms + [(e, m)])[..|ms|] == ms;
    assert EdgesAfter(ms + [(e, m)])[e] == WithEdge(s, m);
    RepeatAddsOnlyItsRange(Said(ms, e), s, m);
    assert m.range in RangesOf(Said(ms, e));
    assert m.range in s.ranges;
    RepeatChangesMerge(s.ranges, m.range);
    RepeatOnlyAddsGap(s.ranges, m.range);
    forall r ensures r in s.ranges <==> r in RangesOf(Said(ms, e)) {
      assert r in s.ranges <==> r in Elements(s.ranges);
    }
    if forall q :: q in Said(ms, e) ==> Leq(m.range, q.range) {
      forall r | r in s.ranges ensures Leq(m.range, r) {
      }
    } else {
      var q :| q in Said(ms, e) && !Leq(m.range, q.range);
      assert q.range in RangesOf(Said(ms, e));
    }
  }

  lemma RepeatAddsOnlyItsRange(s: set<EdgeMention>, n: EdgeSnapshot, m: EdgeMention)
    requires SummarisesEdge(s, n) && m in s
    ensures WithEdge(n, m) == n.(ranges := n.ranges + [m.range])
  {
    assert n.evidence + Events(m.evidence) == n.evidence;
  }

  lemma RepeatOnlyAddsGap(rs: seq<Range>, r: Range)
    requires r in rs
    ensures Merge(rs + [r]) != Merge(rs) ==> Merge(rs + [r]) == Merge(rs).(disjoint := true)
  {
    MergeRepeat(rs, r);
  }

  /* ---------- how such a range comes about ---------- */

  /** The interval of a mention: a start the frame leaves out is the time of its evidence. */
  function StatedRange(validFrom: Option<int>, validTo: Option<int>, evidenceTime: int): Range {
    Range(if validFrom.Some? then validFrom.value else evidenceTime, validTo)
  }

  /** The frame validator refuses a relation whose stated start is after its end. */
  predicate Admitted(validFrom: Option<int>, validTo: Option<int>) {
    !(validFrom.Some? && validTo.Some? && validFrom.value > validTo.value)
  }

  /** A mention of an admitted relation, said again, reaches the edge table exactly when the frame left its start out,
      its evidence is later than its end, no mention begins before it, and the edge was not in doubt otherwise. */
  lemma RepeatedAdmittedMention(ms: seq<(EdgeId, EdgeMention)>, e: EdgeId, m: EdgeMention,
                                validFrom: Option<int>, validTo: Option<int>, evidenceTime: int)
    requires (e, m) in ms && Admitted(validFrom, validTo) && m.range == StatedRange(validFrom, validTo, evidenceTime)
    ensures e in EdgesAfter(ms)
    ensures Flushed(EdgesAfter(ms + [(e, m)])[e]) != Flushed(EdgesAfter(ms)[e]) <==>
            && validFrom.None? && validTo.Some? && evidenceTime > validTo.value
            && (forall q :: q in Said(ms, e) ==> Leq(m.range, q.range)) && !Flushed(EdgesAfter(ms)[e]).needsConfirmation
  {
    RepeatedEdgeMention(ms, e, m);
  }

  /** A relation that ended at 3 and whose evidence is from 5, mentioned twice, comes out in doubt. */
  lemma LateEvidenceTwiceIsDoubt(e: EdgeId)
    ensures var m := EdgeMention(0.8, [0], false, 9, StatedRange(None, Some(3), 5));
            Flushed(EdgesAfter([(e, m), (e, m)])[e]) != Flushed(EdgesAfter([(e, m)])[e])
  {
    var m := EdgeMention(0.8, [0], false, 9, StatedRange(None, Some(3), 5));
    assert (e, m) in [(e, m)] && [(e, m)] + [(e, m)] == [(e, m), (e, m)];
    assert [(e, m)][..0] == [];
    assert EdgesAfter([(e, m)]) == map[e := FirstEdge(m)];
    assert Merge([m.range]) == Start(m.range);
    RepeatedAdmittedMention([(e, m)], e, m, None, Some(3), 5);
  }
}
