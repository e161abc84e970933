/** The HAS_STATE edges a rebuild leaves behind. */
module StateEdges {
  import opened FrameStates
  import opened Options
  import opened SnapshotFolds
  import opened ValidityMerge

  /** The support a frame gives an edge; `input` is what was last merged. */
  datatype Support = Support(active: bool, input: EdgeInput)

  datatype Edge = Edge(needsConfirmation: bool, validFrom: int, validTo: Option<int>)

  type Supports = map<(EdgeId, nat), Support>

  /** What stays fixed during a rebuild: the decisions, the nodes under governance, the clock. */
  datatype Context = Context(decisions: map<NodeId, Decision>, closed: set<NodeId>, now: int)

  /* ---------- what one frame says about edges ---------- */

  predicate LinkOpen(x: Context, l: Link) {
    l.edge.source !in x.closed && l.edge.target !in x.closed
  }

  function LinkMention(x: Context, l: Link): (EdgeId, EdgeMention) {
    (l.edge, EdgeMention(l.confidence, l.evidence, false, x.now, l.range))
  }

  predicate Current(x: Context, t: Transition) {
    && Eligible(t) && t.subject.value !in x.closed && t.to !in x.closed
    && t.subject.value in x.decisions
    && CompareEvidenceOrder(t.order, x.decisions[t.subject.value].order) == 0
    && t.to in x.decisions[t.subject.value].stateKeys
  }

  function StateEdge(s: NodeId, k: NodeId): EdgeId {
    EdgeId(s, HasState, k)
  }

  predicate Contested(x: Context, s: NodeId)
    requires s in x.decisions
  {
    |x.decisions[s].stateKeys| > 1
  }

  function TransitionMention(x: Context, t: Transition): (EdgeId, EdgeMention)
    requires Current(x, t)
  {
    (StateEdge(t.subject.value, t.to),
     EdgeMention(t.confidence, t.evidence, Contested(x, t.subject.value), x.now, Range(t.validFrom, None)))
  }

  function LinkMentions(x: Context, ls: seq<Link>): seq<(EdgeId, EdgeMention)> {
    if ls == [] then [] else
      var l := ls[|ls| - 1];
      LinkMentions(x, ls[..|ls| - 1]) + if LinkOpen(x, l) then [LinkMention(x, l)] else []
  }

  function TransitionMentions(x: Context, ts: seq<Transition>): seq<(EdgeId, EdgeMention)> {
    if ts == [] then [] else
      var t := ts[|ts| - 1];
      TransitionMentions(x, ts[..|ts| - 1]) + if Current(x, t) then [TransitionMention(x, t)] else []
  }

  function FrameMentions(x: Context, f: Frame): seq<(EdgeId, EdgeMention)> {
    LinkMentions(x, f.links) + TransitionMentions(x, f.transitions)
  }

  function FlushedAll(edges: map<EdgeId, EdgeSnapshot>): map<EdgeId, EdgeInput> {
    map e | e in edges :: Flushed(edges[e])
  }

  function FrameInputs(x: Context, f: Frame): map<EdgeId, EdgeInput> {
    FlushedAll(EdgesAfter(FrameMentions(x, f)))
  }

  /* ---------- the edge table ---------- */

  function RowsFor(es: set<EdgeId>, id: nat): (r: set<(EdgeId, nat)>)
    ensures forall p :: p in r <==> p.0 in es && p.1 == id
  {
    set e | e in es :: (e, id)
  }

  function WithFrame(supports: Supports, id: nat, inputs: map<EdgeId, EdgeInput>): Supports {
    var rows := RowsFor(inputs.Keys, id);
    supports + (map p | p in rows :: Support(true, inputs[p.0]))
  }

  function AllInactive(supports: Supports): Supports {
    map p | p in supports :: supports[p].(active := false)
  }

  function AfterFrames(x: Context, supports: Supports, frames: seq<Frame>): Supports {
    if frames == [] then AllInactive(supports) else
      var f := frames[|frames| - 1];
      WithFrame(AfterFrames(x, supports, frames[..|frames| - 1]), f.id, FrameInputs(x, f))
  }

  predicate ActiveRow(supports: Supports, e: EdgeId, id: nat) {
    (e, id) in supports && supports[(e, id)].active
  }

  /** The ranges of the edge's active supports among the first `n` frames. */
  function ActiveRanges(supports: Supports, e: EdgeId, n: nat): seq<Range> {
    if n == 0 then [] else
      ActiveRanges(supports, e, n - 1) +
      if ActiveRow(supports, e, n - 1) then
        [Range(supports[(e, n - 1)].input.validFrom, supports[(e, n - 1)].input.validTo)]
      else []
  }

  predicate Doubtful(supports: Supports, e: EdgeId, n: nat) {
    exists id :: 0 <= id < n && ActiveRow(supports, e, id) && supports[(e, id)].input.needsConfirmation
  }

  function ReducedEdge(supports: Supports, e: EdgeId, n: nat): Option<Edge> {
    var ranges := ActiveRanges(supports, e, n);
    if ranges == [] then None else
      var validity := Merge(ranges);
      Some(Edge(validity.disjoint || Doubtful(supports, e, n), validity.from, validity.to))
  }

  function EdgeAt(edges: map<EdgeId, Edge>, e: EdgeId): Option<Edge> {
    if e in edges then Some(edges[e]) else None
  }

  ghost predicate EdgeRight(supports: Supports, edges: map<EdgeId, Edge>, n: nat, e: EdgeId) {
    EdgeAt(edges, e) == ReducedEdge(supports, e, n)
  }

  /** The edge table is the reduction of the supports, except possibly at the edges in `stale`. */
  ghost predicate RightExcept(supports: Supports, edges: map<EdgeId, Edge>, n: nat, stale: set<EdgeId>) {
    forall e {:trigger EdgeRight(supports, edges, n, e)} :: e !in stale ==> EdgeRight(supports, edges, n, e)
  }

  lemma {:induction false} OtherRowsUntouched(a: Supports, b: Supports, e: EdgeId, n: nat)
    requires forall id :: 0 <= id < n ==> (ActiveRow(a, e, id) <==> ActiveRow(b, e, id))
                                          && (ActiveRow(a, e, id) ==> a[(e, id)] == b[(e, id)])
    ensures ActiveRanges(a, e, n) == ActiveRanges(b, e, n)
  {
    if n == 0 {
    } else {
      OtherRowsUntouched(a, b, e, n - 1);
    }
  }

  lemma SameReducedEdge(a: Supports, b: Supports, e: EdgeId, n: nat)
    requires forall id :: 0 <= id < n ==> (ActiveRow(a, e, id) <==> ActiveRow(b, e, id))
                                          && (ActiveRow(a, e, id) ==> a[(e, id)] == b[(e, id)])
    ensures ReducedEdge(a, e, n) == ReducedEdge(b, e, n)
  {
    OtherRowsUntouched(a, b, e, n);
    assert Doubtful(a, e, n) ==> Doubtful(b, e, n);
    assert Doubtful(b, e, n) ==> Doubtful(a, e, n);
  }

  lemma RowChangeIsLocal(supports: Supports, edges: map<EdgeId, Edge>, more: map<EdgeId, Edge>, n: nat, stale: set<EdgeId>,
                         e: EdgeId, id: nat, row: Support)
    requires RightExcept(supports, edges, n, stale)
    requires forall d :: d != e ==> EdgeAt(more, d) == EdgeAt(edges, d)
    requires EdgeAt(more, e) == ReducedEdge(supports[(e, id) := row], e, n)
    ensures RightExcept(supports[(e, id) := row], more, n, stale)
  {
    var after := supports[(e, id) := row];
    forall d | d !in stale ensures EdgeRight(after, more, n, d) {
      if d != e {
        assert EdgeRight(supports, edges, n, d);
        SameReducedEdge(supports, after, d, n);
      }
    }
  }

  lemma NoActiveRanges(supports: Supports, e: EdgeId, n: nat)
    ensures ActiveRanges(supports, e, n) == [] <==> forall id :: 0 <= id < n ==> !ActiveRow(supports, e, id)
  {
    if n > 0 {
      NoActiveRanges(supports, e, n - 1);
    }
  }

  lemma ActiveIsStale(supports: Supports, e: EdgeId, id: nat)
    ensures ActiveRow(supports, e, id) ==> e in set p | p in supports && supports[p].active :: p.0
  {
    if ActiveRow(supports, e, id) {
      var p := (e, id);
      assert p in supports && supports[p].active && p.0 == e;
    }
  }

  lemma InvalidationLeavesOthers(supports: Supports, edges: map<EdgeId, Edge>, n: nat)
    requires RightExcept(supports, edges, n, {})
    ensures RightExcept(AllInactive(supports), edges, n, set p | p in supports && supports[p].active :: p.0)
  {
    var stale := set p | p in supports && supports[p].active :: p.0;
    forall e | e !in stale ensures EdgeRight(AllInactive(supports), edges, n, e) {
      assert EdgeRight(supports, edges, n, e);
      forall id ensures !ActiveRow(supports, e, id) {
        ActiveIsStale(supports, e, id);
      }
      SameReducedEdge(supports, AllInactive(supports), e, n);
    }
  }

  class StateProjector {
    /** Frames ever recorded; their ids lie below it. */
    const recorded: nat
    var supports: Supports
    var edges: map<EdgeId, Edge>

    ghost predicate Valid()
      reads this
    {
      RightExcept(supports, edges, recorded, {})
    }

    constructor (recorded: nat)
      ensures Valid() && this.recorded == recorded && supports == map[]
    {
      this.recorded := recorded;
      supports, edges := map[], map[];
      new;
      forall e ensures EdgeRight(supports, edges, recorded, e) {
        NoActiveRanges(supports, e, recorded);
      }
    }

    method ReduceEdge(e: EdgeId)
      modifies this`edges
      ensures EdgeAt(edges, e) == ReducedEdge(supports, e, recorded)
      ensures forall d :: d != e ==> EdgeAt(edges, d) == EdgeAt(old(edges), d)
    {
      var ranges := ActiveRanges(supports, e, recorded);
      if ranges == [] {
        edges := edges - {e};
        return;
      }
      var merged := MergeMemoryValidityIntervals(ranges);
      var validity := merged.value;
      edges := edges[e := Edge(validity.disjoint || Doubtful(supports, e, recorded), validity.from, validity.to)];
    }

    /** Replace the frame's support of the edge, then reduce the edge. */
    method MergeEdge(e: EdgeId, id: nat, input: EdgeInput, ghost stale: set<EdgeId>)
      requires RightExcept(supports, edges, recorded, stale)
      modifies this`supports, this`edges
      ensures supports == old(supports)[(e, id) := Support(true, input)]
      ensures RightExcept(supports, edges, recorded, stale)
    {
      supports := supports[(e, id) := Support(true, input)];
      ReduceEdge(e);
      RowChangeIsLocal(old(supports), old(edges), edges, recorded, stale, e, id, Support(true, input));
    }

    method FlushEdgeSnapshots(id: nat, snapshots: map<EdgeId, EdgeSnapshot>, ghost stale: set<EdgeId>)
      requires RightExcept(supports, edges, recorded, stale)
      modifies this`supports, this`edges
      ensures supports == WithFrame(old(supports), id, FlushedAll(snapshots))
      ensures RightExcept(supports, edges, recorded, stale)
    {
      var rest := snapshots.Keys;
      ghost var done: set<EdgeId> := {};
      while rest != {}
        invariant rest + done == snapshots.Keys && rest !! done
        invariant Flushing(old(supports), supports, id, snapshots, done)
        invariant RightExcept(supports, edges, recorded, stale)
        decreases rest
      {
        var e :| e in rest;
        ghost var before := supports;
        MergeEdge(e, id, Flushed(snapshots[e]), stale);
        FlushOne(old(supports), before, id, snapshots, done, e);
        rest := rest - {e};
        done := done + {e};
      }
      assert done == snapshots.Keys;
      AllFlushed(old(supports), supports, id, snapshots);
    }

    method CollectEdges(x: Context, f: Frame) returns (snapshots: map<EdgeId, EdgeSnapshot>)
      ensures snapshots == EdgesAfter(FrameMentions(x, f))
    {
      var collected := new FrameSnapshots();
      for k := 0 to |f.links|
        invariant fresh(collected) && collected.edges == EdgesAfter(LinkMentions(x, f.links[..k]))
      {
        var l := f.links[k];
        OneMoreLink(x, f.links, k);
        if l.edge.source !in x.closed && l.edge.target !in x.closed {
          collected.ContributeEdge(l.edge, EdgeMention(l.confidence, l.evidence, false, x.now, l.range));
        }
      }
      assert f.links[..|f.links|] == f.links;
      CollectTransitions(x, f, collected);
      snapshots := collected.edges;
    }

    method CollectTransitions(x: Context, f: Frame, collected: FrameSnapshots)
      requires collected.edges == EdgesAfter(LinkMentions(x, f.links))
      modifies collected`edges
      ensures collected.edges == EdgesAfter(FrameMentions(x, f))
    {
      ghost var links := LinkMentions(x, f.links);
      assert links + [] == links;
      for k := 0 to |f.transitions|
        invariant collected.edges == EdgesAfter(links + TransitionMentions(x, f.transitions[..k]))
      {
        var t := f.transitions[k];
        OneMoreTransition(x, links, f.transitions, k);
        if Eligible(t) && t.subject.value !in x.closed && t.to !in x.closed {
          var s := t.subject.value;
          var isCurrentState := s in x.decisions && CompareEvidenceOrder(t.order, x.decisions[s].order) == 0
                                && t.to in x.decisions[s].stateKeys;
          if isCurrentState {
            collected.ContributeEdge(StateEdge(s, t.to),
                                     EdgeMention(t.confidence, t.evidence, |x.decisions[s].stateKeys| > 1, x.now, Range(t.validFrom, None)));
          }
        }
      }
      assert f.transitions[..|f.transitions|] == f.transitions;
    }

    method Rebuild(frames: seq<Frame>, closed: set<NodeId>, now: int) returns (x: Context)
      requires Valid() && forall f :: f in frames ==> f.id < recorded
      modifies this`supports, this`edges
      ensures Valid()
      ensures Decided(ClaimsOf(frames), x.decisions) && x.closed == closed && x.now == now
      ensures supports == AfterFrames(x, old(supports), frames)
    {
      var stale := set p | p in supports && supports[p].active :: p.0;
      InvalidationLeavesOthers(supports, edges, recorded);
      supports := map p | p in supports :: supports[p].(active := false);
      var decisions := ResolveCurrentStates(frames);
      x := Context(decisions, closed, now);
      for k := 0 to |frames|
        invariant supports == AfterFrames(x, old(supports), frames[..k])
        invariant RightExcept(supports, edges, recorded, stale)
      {
        var f := frames[k];
        assert frames[..k + 1][..k] == frames[..k];
        var snapshots := CollectEdges(x, f);
        FlushEdgeSnapshots(f.id, snapshots, stale);
      }
      assert frames[..|frames|] == frames;
      ReduceEdges(stale);
    }

    method ReduceEdges(stale: set<EdgeId>)
      requires RightExcept(supports, edges, recorded, stale)
      modifies this`edges
      ensures Valid()
    {
      var rest := stale;
      while rest != {}
        invariant RightExcept(supports, edges, recorded, rest)
        decreases rest
      {
        var e :| e in rest;
        ghost var before := edges;
        ReduceEdge(e);
        OneLessStale(supports, before, edges, recorded, rest, e);
        rest := rest - {e};
      }
    }
  }

  lemma OneLessStale(supports: Supports, edges: map<EdgeId, Edge>, more: map<EdgeId, Edge>, n: nat, stale: set<EdgeId>, e: EdgeId)
    requires RightExcept(supports, edges, n, stale)
    requires forall d :: d != e ==> EdgeAt(more, d) == EdgeAt(edges, d)
    requires EdgeAt(more, e) == ReducedEdge(supports, e, n)
    ensures RightExcept(supports, more, n, stale - {e})
  {
    forall d | d !in stale - {e} ensures EdgeRight(supports, more, n, d) {
      if d != e {
        assert EdgeRight(supports, edges, n, d);
      }
    }
  }

  ghost predicate RowFlushed(start: Supports, now: Supports, id: nat, snapshots: map<EdgeId, EdgeSnapshot>, done: set<EdgeId>, p: (EdgeId, nat)) {
    if p.1 == id && p.0 in done && p.0 in snapshots then p in now && now[p] == Support(true, Flushed(snapshots[p.0]))
    else (p in now <==> p in start) && (p in start ==> now[p] == start[p])
  }

  ghost predicate Flushing(start: Supports, now: Supports, id: nat, snapshots: map<EdgeId, EdgeSnapshot>, done: set<EdgeId>) {
    forall p {:trigger RowFlushed(start, now, id, snapshots, done, p)} :: RowFlushed(start, now, id, snapshots, done, p)
  }

  lemma FlushOne(start: Supports, now: Supports, id: nat, snapshots: map<EdgeId, EdgeSnapshot>, done: set<EdgeId>, e: EdgeId)
    requires Flushing(start, now, id, snapshots, done) && e in snapshots
    ensures Flushing(start, now[(e, id) := Support(true, Flushed(snapshots[e]))], id, snapshots, done + {e})
  {
    var more, after := done + {e}, now[(e, id) := Support(true, Flushed(snapshots[e]))];
    forall p ensures RowFlushed(start, after, id, snapshots, more, p) {
      assert RowFlushed(start, now, id, snapshots, done, p);
    }
  }

  lemma AllFlushed(start: Supports, now: Supports, id: nat, snapshots: map<EdgeId, EdgeSnapshot>)
    requires Flushing(start, now, id, snapshots, snapshots.Keys)
    ensures now == WithFrame(start, id, FlushedAll(snapshots))
  {
    forall p ensures (p in now <==> p in WithFrame(start, id, FlushedAll(snapshots)))
      ensures p in now ==> now[p] == WithFrame(start, id, FlushedAll(snapshots))[p]
    {
      assert RowFlushed(start, now, id, snapshots, snapshots.Keys, p);
    }
  }

  lemma LastMention(ms: seq<(EdgeId, EdgeMention)>, m: (EdgeId, EdgeMention))
    ensures EdgesAfter(ms + [m]) == EdgesAfterOne(EdgesAfter(ms), m.0, m.1)
  {
    assert (ms + [m])[..|ms|] == ms;
  }

  lemma OneMoreLink(x: Context, ls: seq<Link>, k: nat)
    requires k < |ls|
    ensures var before := EdgesAfter(LinkMentions(x, ls[..k]));
            EdgesAfter(LinkMentions(x, ls[..k + 1])) ==
            if LinkOpen(x, ls[k]) then EdgesAfterOne(before, LinkMention(x, ls[k]).0, LinkMention(x, ls[k]).1) else before
  {
    assert ls[..k + 1][..k] == ls[..k];
    var ms := LinkMentions(x, ls[..k]);
    assert ms + [] == ms;
    LastMention(ms, LinkMention(x, ls[k]));
  }

  lemma OneMoreTransition(x: Context, links: seq<(EdgeId, EdgeMention)>, ts: seq<Transition>, k: nat)
    requires k < |ts|
    ensures var before := EdgesAfter(links + TransitionMentions(x, ts[..k]));
            EdgesAfter(links + TransitionMentions(x, ts[..k + 1])) ==
            if Current(x, ts[k]) then EdgesAfterOne(before, TransitionMention(x, ts[k]).0, TransitionMention(x, ts[k]).1) else before
  {
    assert ts[..k + 1][..k] == ts[..k];
    var ms := TransitionMentions(x, ts[..k]);
    if Current(x, ts[k]) {
      LastMention(links + ms, TransitionMention(x, ts[k]));
      assert links + (ms + [TransitionMention(x, ts[k])]) == links + ms + [TransitionMention(x, ts[k])];
    } else {
      assert ms + [] == ms;
    }
  }

  /* ---------- which edges transitions bring about ---------- */

  lemma {:induction false} LinkMentioned(x: Context, ls: seq<Link>, p: (EdgeId, EdgeMention))
    ensures p in LinkMentions(x, ls) ==> exists l :: l in ls && l.edge == p.0
  {
    if ls == [] {
    } else {
      var l := ls[|ls| - 1];
      LinkMentioned(x, ls[..|ls| - 1], p);
      assert ls == ls[..|ls| - 1] + [l];
      if p in LinkMentions(x, ls) && p !in LinkMentions(x, ls[..|ls| - 1]) {
        assert l in ls;
      }
    }
  }

  lemma {:induction false} TransitionMentioned(x: Context, ts: seq<Transition>, p: (EdgeId, EdgeMention))
    ensures p in TransitionMentions(x, ts) <==> exists t :: t in ts && Current(x, t) && TransitionMention(x, t) == p
  {
    if ts == [] {
    } else {
      var t := ts[|ts| - 1];
      TransitionMentioned(x, ts[..|ts| - 1], p);
      assert ts == ts[..|ts| - 1] + [t];
      assert t in ts;
    }
  }

  ghost predicate Stated(f: Frame, e: EdgeId) {
    exists l :: l in f.links && l.edge == e
  }

  ghost predicate Moves(x: Context, f: Frame, e: EdgeId) {
    exists t :: t in f.transitions && Current(x, t) && StateEdge(t.subject.value, t.to) == e
  }

  /** An edge no relation of the frame states is said only by the frame's current transitions: open-ended, and in doubt
      when the states are contested. */
  lemma SaidByTransitions(x: Context, f: Frame, e: EdgeId)
    requires !Stated(f, e)
    ensures Said(FrameMentions(x, f), e) != {} <==> Moves(x, f, e)
    ensures forall m :: m in Said(FrameMentions(x, f), e) ==>
              m.range.to.None? && e.source in x.decisions && m.needsConfirmation == Contested(x, e.source)
  {
    var ms := FrameMentions(x, f);
    forall m: EdgeMention | m in Said(ms, e)
      ensures Moves(x, f, e)
      ensures m.range.to.None? && e.source in x.decisions && m.needsConfirmation == Contested(x, e.source)
    {
      LinkMentioned(x, f.links, (e, m));
      TransitionMentioned(x, f.transitions, (e, m));
    }
    if Moves(x, f, e) {
      var t :| t in f.transitions && Current(x, t) && StateEdge(t.subject.value, t.to) == e;
      TransitionMentioned(x, f.transitions, TransitionMention(x, t));
      assert TransitionMention(x, t) in ms;
      assert TransitionMention(x, t).1 in Said(ms, e);
    }
  }

  lemma OpenEndedIsWhole(rs: seq<Range>)
    requires rs != [] && forall r :: r in rs ==> r.to.None?
    ensures !Merge(rs).disjoint && Merge(rs).to.None?
  {
    MergeCovers(rs);
    var s, m := Elements(rs), Merge(rs);
    assert forall r :: r in s ==> r in rs;
    forall y | Opens(s, y) ensures y == m.from {
      assert Opens(s, m.from);
    }
  }

  lemma InputFromTransitions(x: Context, f: Frame, e: EdgeId)
    requires !Stated(f, e)
    ensures e in FrameInputs(x, f) <==> Moves(x, f, e)
    ensures e in FrameInputs(x, f) ==>
              && e.source in x.decisions
              && FrameInputs(x, f)[e].validTo.None?
              && FrameInputs(x, f)[e].needsConfirmation == Contested(x, e.source)
  {
    var ms := FrameMentions(x, f);
    SaidByTransitions(x, f, e);
    EdgeSnapshotSummarises(ms, e);
    if e in EdgesAfter(ms) {
      var snapshot := EdgesAfter(ms)[e];
      assert EdgeExtremes(Said(ms, e), snapshot.confidence, snapshot.createdAt, snapshot.needsConfirmation);
      forall r | r in snapshot.ranges ensures r.to.None? {
        assert r in Elements(snapshot.ranges);
      }
      OpenEndedIsWhole(snapshot.ranges);
    }
  }

  /* ---------- from frames to the edge table ---------- */

  ghost predicate Gives(x: Context, f: Frame, e: EdgeId, id: nat) {
    f.id == id && e in FrameInputs(x, f)
  }

  lemma WithFrameAt(supports: Supports, id: nat, inputs: map<EdgeId, EdgeInput>, p: (EdgeId, nat))
    ensures var after := WithFrame(supports, id, inputs);
            if p.1 == id && p.0 in inputs then p in after && after[p] == Support(true, inputs[p.0])
            else (p in after <==> p in supports) && (p in supports ==> after[p] == supports[p])
  {
  }

  ghost predicate GivenBy(x: Context, frames: seq<Frame>, e: EdgeId, id: nat, input: EdgeInput) {
    exists f :: f in frames && Gives(x, f, e, id) && FrameInputs(x, f)[e] == input
  }

  ghost predicate Given(x: Context, frames: seq<Frame>, e: EdgeId, id: nat) {
    exists f :: f in frames && Gives(x, f, e, id)
  }

  lemma GivenOneMore(x: Context, frames: seq<Frame>, e: EdgeId, id: nat)
    requires frames != []
    ensures var before, f := frames[..|frames| - 1], frames[|frames| - 1];
            && (Given(x, frames, e, id) <==> Given(x, before, e, id) || Gives(x, f, e, id))
            && (forall input :: GivenBy(x, before, e, id, input) ==> GivenBy(x, frames, e, id, input))
            && (Gives(x, f, e, id) ==> GivenBy(x, frames, e, id, FrameInputs(x, f)[e]))
  {
    var before, f := frames[..|frames| - 1], frames[|frames| - 1];
    assert frames == before + [f];
    assert forall g :: g in frames <==> g in before || g == f;
  }

  lemma {:induction false} RowAfter(x: Context, supports: Supports, frames: seq<Frame>, e: EdgeId, id: nat)
    ensures var after := AfterFrames(x, supports, frames);
            && (ActiveRow(after, e, id) <==> Given(x, frames, e, id))
            && (ActiveRow(after, e, id) ==> GivenBy(x, frames, e, id, after[(e, id)].input))
  {
    if frames == [] {
    } else {
      var f, before := frames[|frames| - 1], frames[..|frames| - 1];
      RowAfter(x, supports, before, e, id);
      GivenOneMore(x, frames, e, id);
      WithFrameAt(AfterFrames(x, supports, before), f.id, FrameInputs(x, f), (e, id));
    }
  }

  /* ---------- what an edge shows ---------- */

  ghost function RangesShown(supports: Supports, e: EdgeId, n: nat): set<Range> {
    set id: nat | id < n && (e, id) in supports && supports[(e, id)].active ::
      Range(supports[(e, id)].input.validFrom, supports[(e, id)].input.validTo)
  }

  ghost predicate TwoActive(supports: Supports, e: EdgeId, n: nat) {
    exists i: nat, j: nat :: i < j < n && ActiveRow(supports, e, i) && ActiveRow(supports, e, j)
  }

  lemma {:induction false} ShownAreActive(supports: Supports, e: EdgeId, n: nat)
    ensures Elements(ActiveRanges(supports, e, n)) == RangesShown(supports, e, n)
    ensures |ActiveRanges(supports, e, n)| > 1 <==> TwoActive(supports, e, n)
  {
    if n == 0 {
    } else {
      ShownAreActive(supports, e, n - 1);
      NoActiveRanges(supports, e, n - 1);
      var before := ActiveRanges(supports, e, n - 1);
      if ActiveRow(supports, e, n - 1) {
        var input := supports[(e, n - 1)].input;
        assert Elements(before + [Range(input.validFrom, input.validTo)]) == Elements(before) + {Range(input.validFrom, input.validTo)};
        if i: nat :| i < n - 1 && ActiveRow(supports, e, i) {
          assert TwoActive(supports, e, n);
        }
      } else {
        assert before + [] == before;
      }
    }
  }

  /** An edge is there as long as a support of it is active.  It is valid from the last point where the range of one begins
      after all earlier ones are over, up to where those since then end, and in doubt if one is, or if there was a gap. */
  lemma EdgeSumsUp(supports: Supports, e: EdgeId, n: nat)
    ensures ReducedEdge(supports, e, n).Some? <==> exists id :: 0 <= id < n && (e, id) in supports && supports[(e, id)].active
    ensures ReducedEdge(supports, e, n).Some? ==>
              var edge, rs := ReducedEdge(supports, e, n).value, RangesShown(supports, e, n);
              && LastOpening(rs, edge.validFrom) && EndsSince(rs, edge.validFrom, edge.validTo)
              && (edge.needsConfirmation <==>
                    || (exists id :: 0 <= id < n && (e, id) in supports && supports[(e, id)].active && supports[(e, id)].input.needsConfirmation)
                    || HasOther(rs, edge.validFrom) || (StartsInverted(rs) && TwoActive(supports, e, n)))
  {
    NoActiveRanges(supports, e, n);
    ShownAreActive(supports, e, n);
    var ranges := ActiveRanges(supports, e, n);
    if id :| 0 <= id < n && (e, id) in supports && supports[(e, id)].active {
      assert ActiveRow(supports, e, id);
    }
    if ranges != [] {
      var id :| 0 <= id < n && ActiveRow(supports, e, id);
      assert (e, id) in supports && supports[(e, id)].active;
      MergeCovers(ranges);
      assert Doubtful(supports, e, n) <==>
             exists id :: 0 <= id < n && (e, id) in supports && supports[(e, id)].active && supports[(e, id)].input.needsConfirmation by {
        if Doubtful(supports, e, n) {
          var id :| 0 <= id < n && ActiveRow(supports, e, id) && supports[(e, id)].input.needsConfirmation;
          assert (e, id) in supports && supports[(e, id)].active;
        }
        if id :| 0 <= id < n && (e, id) in supports && supports[(e, id)].active && supports[(e, id)].input.needsConfirmation {
          assert ActiveRow(supports, e, id);
        }
      }
    }
  }

  lemma {:induction false} RangesActive(supports: Supports, e: EdgeId, n: nat)
    requires forall id :: 0 <= id < n && ActiveRow(supports, e, id) ==> supports[(e, id)].input.validTo.None?
    ensures forall r :: r in ActiveRanges(supports, e, n) ==> r.to.None?
  {
    if n == 0 {
    } else {
      RangesActive(supports, e, n - 1);
    }
  }

  ghost predicate Settled(x: Context, e: EdgeId) {
    && e.relation == HasState
    && e.source in x.decisions && e.target in x.decisions[e.source].stateKeys
    && e.source !in x.closed && e.target !in x.closed
  }

  /** The decision names exactly the states some frame's transition can show. */
  lemma SettledByMove(x: Context, frames: seq<Frame>, e: EdgeId)
    requires Decided(ClaimsOf(frames), x.decisions)
    ensures Settled(x, e) <==> exists f :: f in frames && Moves(x, f, e)
  {
    var s := e.source;
    assert DecidedAt(ClaimsOf(frames), x.decisions, s);
    if Settled(x, e) {
      var c :| c in ClaimsOf(frames) && c.subject == s && c.order == x.decisions[s].order && c.state == e.target;
      var f :| f in frames && c in FrameClaims(f);
      var t :| t in f.transitions && Eligible(t) && ClaimOf(f, t) == c;
      assert Current(x, t) && StateEdge(t.subject.value, t.to) == e;
      assert Moves(x, f, e);
    }
  }

  /** Some newest claim about the subject says this state. */
  ghost predicate NewestSays(frames: seq<Frame>, s: NodeId, k: NodeId) {
    exists c :: Newest(ClaimsOf(frames), c) && c.subject == s && c.state == k
  }

  lemma SettledIsNewest(x: Context, frames: seq<Frame>, e: EdgeId)
    requires Decided(ClaimsOf(frames), x.decisions)
    ensures Settled(x, e) <==>
            e.relation == HasState && e.source !in x.closed && e.target !in x.closed && NewestSays(frames, e.source, e.target)
  {
    DecidedIsNewest(ClaimsOf(frames), x.decisions, e.source, e.target);
  }

  lemma ContestedIsSeveral(x: Context, frames: seq<Frame>, e: EdgeId)
    requires Decided(ClaimsOf(frames), x.decisions) && Settled(x, e)
    ensures Contested(x, e.source) <==> exists k :: k != e.target && NewestSays(frames, e.source, k)
  {
    var ks := x.decisions[e.source].stateKeys;
    forall k ensures k in ks <==> NewestSays(frames, e.source, k) {
      DecidedIsNewest(ClaimsOf(frames), x.decisions, e.source, k);
    }
    if Contested(x, e.source) {
      if ks <= {e.target} {
        SubsetSize(ks, {e.target});
        assert false;
      }
      var k :| k in ks && k != e.target;
    } else if k :| k != e.target && k in ks {
      OneOfOne(ks, k, e.target);
    }
  }

  lemma EdgeFromSettled(x: Context, supports: Supports, frames: seq<Frame>, edges: map<EdgeId, Edge>, n: nat, e: EdgeId)
    requires Decided(ClaimsOf(frames), x.decisions)
    requires forall f :: f in frames ==> f.id < n
    requires RightExcept(AfterFrames(x, supports, frames), edges, n, {})
    requires forall f :: f in frames ==> !Stated(f, e)
    ensures e in edges <==> Settled(x, e)
    ensures e in edges ==> (edges[e].needsConfirmation <==> Contested(x, e.source)) && edges[e].validTo.None?
  {
    var after := AfterFrames(x, supports, frames);
    assert EdgeRight(after, edges, n, e);
    SettledByMove(x, frames, e);
    forall id | 0 <= id < n && ActiveRow(after, e, id)
      ensures Settled(x, e) && after[(e, id)].input.validTo.None? && after[(e, id)].input.needsConfirmation == Contested(x, e.source)
    {
      RowAfter(x, supports, frames, e, id);
      var f :| f in frames && Gives(x, f, e, id) && after[(e, id)].input == FrameInputs(x, f)[e];
      InputFromTransitions(x, f, e);
    }
    NoActiveRanges(after, e, n);
    if Settled(x, e) {
      var f :| f in frames && Moves(x, f, e);
      InputFromTransitions(x, f, e);
      assert Gives(x, f, e, f.id);
      RowAfter(x, supports, frames, e, f.id);
      RangesActive(after, e, n);
      OpenEndedIsWhole(ActiveRanges(after, e, n));
    }
  }

  /** After a rebuild, an edge no frame states as a relation of its own is there exactly when it gives a subject, neither
      end under governance, a state that a newest claim about it says; it is open-ended, and in doubt exactly when
      another newest claim says another state. */
  lemma EdgeFromDecision(x: Context, supports: Supports, frames: seq<Frame>, edges: map<EdgeId, Edge>, n: nat, e: EdgeId)
    requires Decided(ClaimsOf(frames), x.decisions)
    requires forall f :: f in frames ==> f.id < n
    requires RightExcept(AfterFrames(x, supports, frames), edges, n, {})
    requires forall f :: f in frames ==> !Stated(f, e)
    ensures e in edges <==>
            e.relation == HasState && e.source !in x.closed && e.target !in x.closed && NewestSays(frames, e.source, e.target)
    ensures e in edges ==>
              && edges[e].validTo.None?
              && (edges[e].needsConfirmation <==> exists k :: k != e.target && NewestSays(frames, e.source, k))
  {
    EdgeFromSettled(x, supports, frames, edges, n, e);
    SettledIsNewest(x, frames, e);
    if Settled(x, e) {
      ContestedIsSeveral(x, frames, e);
    }
  }

  /* ---------- stated relations ---------- */

  /** The frame states the relation, and neither end is under governance. */
  ghost predicate StatesOpenly(x: Context, f: Frame, e: EdgeId) {
    exists l :: l in f.links && l.edge == e && e.source !in x.closed && e.target !in x.closed
  }

  lemma {:induction false} OpenLinkIsMentioned(x: Context, ls: seq<Link>, l: Link)
    requires l in ls && l.edge.source !in x.closed && l.edge.target !in x.closed
    ensures (l.edge, EdgeMention(l.confidence, l.evidence, false, x.now, l.range)) in LinkMentions(x, ls)
  {
    var init, last := ls[..|ls| - 1], ls[|ls| - 1];
    assert ls == init + [last];
    if l in init {
      OpenLinkIsMentioned(x, init, l);
    }
  }

  lemma {:induction false} ClosedIsNotMentioned(x: Context, ls: seq<Link>, p: (EdgeId, EdgeMention))
    ensures p in LinkMentions(x, ls) ==> exists l :: l in ls && l.edge == p.0 && p.0.source !in x.closed && p.0.target !in x.closed
  {
    if ls == [] {
    } else {
      ClosedIsNotMentioned(x, ls[..|ls| - 1], p);
      assert ls == ls[..|ls| - 1] + [ls[|ls| - 1]];
    }
  }

  lemma StatedIsSaid(x: Context, f: Frame, e: EdgeId)
    ensures Said(FrameMentions(x, f), e) != {} <==> StatesOpenly(x, f, e) || Moves(x, f, e)
  {
    var ms := FrameMentions(x, f);
    if StatesOpenly(x, f, e) {
      var l :| l in f.links && l.edge == e && e.source !in x.closed && e.target !in x.closed;
      OpenLinkIsMentioned(x, f.links, l);
      assert (e, EdgeMention(l.confidence, l.evidence, false, x.now, l.range)).1 in Said(ms, e);
    }
    if Moves(x, f, e) {
      var t :| t in f.transitions && Current(x, t) && StateEdge(t.subject.value, t.to) == e;
      TransitionMentioned(x, f.transitions, TransitionMention(x, t));
      assert TransitionMention(x, t).1 in Said(ms, e);
    }
    forall m: EdgeMention | m in Said(ms, e) ensures StatesOpenly(x, f, e) || Moves(x, f, e) {
      ClosedIsNotMentioned(x, f.links, (e, m));
      TransitionMentioned(x, f.transitions, (e, m));
    }
  }

  ghost predicate Brings(x: Context, f: Frame, e: EdgeId) {
    StatesOpenly(x, f, e) || Moves(x, f, e)
  }

  lemma InputIsBrought(x: Context, f: Frame, e: EdgeId)
    ensures e in FrameInputs(x, f) <==> Brings(x, f, e)
  {
    StatedIsSaid(x, f, e);
    EdgeSnapshotSummarises(FrameMentions(x, f), e);
  }

  ghost predicate SomeActive(supports: Supports, e: EdgeId, n: nat) {
    exists id: nat :: id < n && ActiveRow(supports, e, id)
  }

  lemma ActiveIsBrought(x: Context, supports: Supports, frames: seq<Frame>, n: nat, e: EdgeId)
    requires forall f :: f in frames ==> f.id < n
    ensures SomeActive(AfterFrames(x, supports, frames), e, n) <==> exists f :: f in frames && Brings(x, f, e)
  {
    if f :| f in frames && Brings(x, f, e) {
      InputIsBrought(x, f, e);
      RowAfter(x, supports, frames, e, f.id);
      assert Gives(x, f, e, f.id);
    }
    if SomeActive(AfterFrames(x, supports, frames), e, n) {
      var id: nat :| id < n && ActiveRow(AfterFrames(x, supports, frames), e, id);
      RowAfter(x, supports, frames, e, id);
      var f :| f in frames && Gives(x, f, e, id);
      InputIsBrought(x, f, e);
    }
  }

  lemma StatedIsBrought(x: Context, f: Frame, e: EdgeId)
    ensures Stated(f, e) && e.source !in x.closed && e.target !in x.closed <==> StatesOpenly(x, f, e)
  {
  }

  lemma ThereIffActive(supports: Supports, edges: map<EdgeId, Edge>, n: nat, e: EdgeId)
    requires EdgeRight(supports, edges, n, e)
    ensures e in edges <==> SomeActive(supports, e, n)
  {
    NoActiveRanges(supports, e, n);
    if e in edges {
      assert ActiveRanges(supports, e, n) != [];
    } else {
      assert EdgeAt(edges, e) == None;
      assert ActiveRanges(supports, e, n) == [];
    }
  }

  lemma BroughtIff(x: Context, frames: seq<Frame>, e: EdgeId)
    requires Decided(ClaimsOf(frames), x.decisions)
    ensures (exists f :: f in frames && Brings(x, f, e)) <==>
            && e.source !in x.closed && e.target !in x.closed
            && ((exists f :: f in frames && Stated(f, e)) || (e.relation == HasState && NewestSays(frames, e.source, e.target)))
  {
    SettledByMove(x, frames, e);
    SettledIsNewest(x, frames, e);
    if f :| f in frames && Stated(f, e) && e.source !in x.closed && e.target !in x.closed {
      StatedIsBrought(x, f, e);
      assert Brings(x, f, e);
    }
    if f :| f in frames && Moves(x, f, e) {
      assert Brings(x, f, e);
    }
    if f :| f in frames && Brings(x, f, e) {
      StatedIsBrought(x, f, e);
    }
  }

  /** After a rebuild an edge is there exactly when some frame states it between ends that are not under governance, or a
      newest claim about its subject says its state. */
  lemma EdgeIsThereIff(x: Context, supports: Supports, frames: seq<Frame>, edges: map<EdgeId, Edge>, n: nat, e: EdgeId)
    requires Decided(ClaimsOf(frames), x.decisions)
    requires forall f :: f in frames ==> f.id < n
    requires RightExcept(AfterFrames(x, supports, frames), edges, n, {})
    ensures e in edges <==>
            && e.source !in x.closed && e.target !in x.closed
            && ((exists f :: f in frames && Stated(f, e)) || (e.relation == HasState && NewestSays(frames, e.source, e.target)))
  {
    var after := AfterFrames(x, supports, frames);
    assert EdgeRight(after, edges, n, e);
    ThereIffActive(after, edges, n, e);
    ActiveIsBrought(x, supports, frames, n, e);
    BroughtIff(x, frames, e);
  }

  /* ---------- the result ---------- */

  ghost predicate ShownActive(edges: map<EdgeId, Edge>, s: NodeId, k: NodeId) {
    StateEdge(s, k) in edges && !edges[StateEdge(s, k)].needsConfirmation
  }

  lemma OneOfOne(ks: set<NodeId>, j: NodeId, k: NodeId)
    requires j in ks && k in ks && |ks| <= 1
    ensures j == k
  {
    if j != k {
      assert {j, k} <= ks;
      SubsetSize({j, k}, ks);
    }
  }

  lemma SubsetSize(a: set<NodeId>, b: set<NodeId>)
    requires a <= b
    ensures |a| <= |b|
  {
    assert b == a + (b - a);
  }

  /** No subject is shown in two states at once, unless a frame states one of them as a relation of its own. */
  lemma OneCurrentState(x: Context, supports: Supports, frames: seq<Frame>, edges: map<EdgeId, Edge>, n: nat,
                        s: NodeId, j: NodeId, k: NodeId)
    requires Decided(ClaimsOf(frames), x.decisions)
    requires forall f :: f in frames ==> f.id < n
    requires RightExcept(AfterFrames(x, supports, frames), edges, n, {})
    requires ShownActive(edges, s, j) && ShownActive(edges, s, k)
    ensures j == k || exists f :: f in frames && (Stated(f, StateEdge(s, j)) || Stated(f, StateEdge(s, k)))
  {
    if forall f :: f in frames ==> !Stated(f, StateEdge(s, j)) && !Stated(f, StateEdge(s, k)) {
      EdgeFromDecision(x, supports, frames, edges, n, StateEdge(s, j));
      EdgeFromDecision(x, supports, frames, edges, n, StateEdge(s, k));
      assert NewestSays(frames, StateEdge(s, j).source, k);
    }
  }
}
