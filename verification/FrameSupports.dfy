/** How frames support the documents of the shared graph, and what a document's support count means over
    any number of rebuilds.  One support table is kept in three parts by the kind of its source. */
module FrameSupports {
  import opened Options

  type NodeId = nat

  datatype Status = Active | Weak | Archived | Governed

  datatype Document = Document(count: nat, fromFrame: bool, status: Status)

  /** `frames` holds every frame support ever written and whether it is active, `baselines` the counts that
      legacy documents brought along, `others` the summed counts of the remaining active supports. */
  datatype Tables = Tables(documents: map<NodeId, Document>, frames: map<(NodeId, nat), bool>,
                           baselines: map<NodeId, nat>, others: map<NodeId, nat>)

  /** One place where a frame mentions a node: the node's own status must allow it, and so must the nodes it hangs
      on (a state hangs on its subject, a month on its day). */
  datatype Part = Part(node: NodeId, needs: set<NodeId>)

  datatype Frame = Frame(id: nat, parts: seq<Part>)

  const Created := Document(1, true, Active)

  predicate Open(ds: map<NodeId, Document>, n: NodeId) {
    n in ds ==> ds[n].status == Active || ds[n].status == Weak
  }

  function Others(t: Tables, n: NodeId): nat {
    if n in t.others then t.others[n] else 0
  }

  function Excess(count: nat, represented: nat): nat {
    if count > represented then count - represented else 0
  }

  /* ---------- one rebuild, in closed form ---------- */

  /** Archived documents of earlier projections are dropped first. */
  function Purged(ds: map<NodeId, Document>): map<NodeId, Document> {
    map n | n in ds && !(ds[n].fromFrame && ds[n].status == Archived) :: ds[n]
  }

  /** Documents under governance are left alone, and with them what hangs on them. */
  predicate Contributes(ds: map<NodeId, Document>, part: Part) {
    Open(ds, part.node) && forall m :: m in part.needs ==> Open(ds, m)
  }

  function NodesOf(ds: map<NodeId, Document>, f: Frame): set<NodeId> {
    set part | part in f.parts && Contributes(ds, part) :: part.node
  }

  /** The supports the frames contribute. */
  function Pairs(ds: map<NodeId, Document>, fs: seq<Frame>): set<(NodeId, nat)> {
    set f, n | f in fs && n in NodesOf(ds, f) :: (n, f.id)
  }

  function Contributed(ds: map<NodeId, Document>, fs: seq<Frame>): set<NodeId> {
    set f, n | f in fs && n in NodesOf(ds, f) :: n
  }

  function WithCreated(ds: map<NodeId, Document>, ns: set<NodeId>): map<NodeId, Document> {
    ds + (map n | n in ns && n !in ds :: Created)
  }

  predicate NeedsBaseline(t: Tables, ds: map<NodeId, Document>, n: NodeId) {
    n in ds && !ds[n].fromFrame && n !in t.baselines
  }

  function WithBaselines(t: Tables, ds: map<NodeId, Document>, ns: set<NodeId>): map<NodeId, nat> {
    t.baselines + (map n | n in ns && NeedsBaseline(t, ds, n) :: Excess(ds[n].count, Others(t, n)))
  }

  function PairsFor(ns: set<NodeId>, id: nat): set<(NodeId, nat)> {
    set n | n in ns :: (n, id)
  }

  function WithPairs(frames: map<(NodeId, nat), bool>, ps: set<(NodeId, nat)>): map<(NodeId, nat), bool> {
    frames + (map p | p in ps :: true)
  }

  function Invalidated(frames: map<(NodeId, nat), bool>): map<(NodeId, nat), bool> {
    map p | p in frames :: false
  }

  /** All frames projected, nothing reduced yet. */
  function Projected(t: Tables, fs: seq<Frame>): Tables {
    var ds := Purged(t.documents);
    var ns := Contributed(ds, fs);
    Tables(WithCreated(ds, ns), WithPairs(Invalidated(t.frames), Pairs(ds, fs)), WithBaselines(t, ds, ns), t.others)
  }

  /** The frames with an active support for the node. */
  function Supporters(t: Tables, n: NodeId): set<nat> {
    set p | p in t.frames && p.0 == n && t.frames[p] :: p.1
  }

  function Total(t: Tables, n: NodeId): nat {
    (if n in t.baselines then t.baselines[n] else 0) + Others(t, n) + |Supporters(t, n)|
  }

  predicate Supported(t: Tables, n: NodeId) {
    Supporters(t, n) != {} || n in t.baselines || n in t.others
  }

  /** The document of one affected node after the reduction. */
  function ReducedDocument(t: Tables, n: NodeId): Option<Document> {
    if n !in t.documents then None
    else
      var d := t.documents[n];
      if !Supported(t, n) then (if d.fromFrame then None else Some(d.(count := 0)))
      else Some(Document(Total(t, n), d.fromFrame, if d.fromFrame then Active else d.status))
  }

  function Reduced(t: Tables, affected: set<NodeId>): map<NodeId, Document> {
    map n | n in t.documents && (n in affected ==> ReducedDocument(t, n).Some?) ::
      if n in affected then ReducedDocument(t, n).value else t.documents[n]
  }

  function Framed(frames: map<(NodeId, nat), bool>): set<NodeId> {
    set p | p in frames :: p.0
  }

  function Rebuilt(t: Tables, fs: seq<Frame>, project: NodeId): Tables {
    var p := Projected(t, fs);
    p.(documents := Reduced(p, Framed(p.frames) - {project}))
  }

  /* ---------- the same, one element at a time ---------- */

  lemma CreateOne(ds: map<NodeId, Document>, ns: set<NodeId>, n: NodeId)
    ensures WithCreated(ds, ns + {n}) == (if n in WithCreated(ds, ns) then WithCreated(ds, ns) else WithCreated(ds, ns)[n := Created])
  {
  }

  lemma CreateMore(ds: map<NodeId, Document>, ns: set<NodeId>, ms: set<NodeId>)
    ensures WithCreated(WithCreated(ds, ns), ms) == WithCreated(ds, ns + ms)
  {
  }

  lemma SupportOne(frames: map<(NodeId, nat), bool>, ns: set<NodeId>, n: NodeId, id: nat)
    ensures WithPairs(frames, PairsFor(ns + {n}, id)) == WithPairs(frames, PairsFor(ns, id))[(n, id) := true]
  {
    assert PairsFor(ns + {n}, id) == PairsFor(ns, id) + {(n, id)};
  }

  lemma SupportMore(frames: map<(NodeId, nat), bool>, ps: set<(NodeId, nat)>, qs: set<(NodeId, nat)>)
    ensures WithPairs(WithPairs(frames, ps), qs) == WithPairs(frames, ps + qs)
  {
  }

  lemma BaselineOne(t: Tables, ds: map<NodeId, Document>, ns: set<NodeId>, n: NodeId)
    ensures var bs := WithBaselines(t, ds, ns);
            WithBaselines(t, ds, ns + {n}) ==
            (if n in bs || n !in ds || ds[n].fromFrame then bs else bs[n := Excess(ds[n].count, Others(t, n))])
  {
  }

  /** A document created by a frame never gets a baseline of its own. */
  lemma CreatedNeedNone(t: Tables, u: Tables, ds: map<NodeId, Document>, ns: set<NodeId>, n: NodeId)
    requires u.others == t.others
    ensures NeedsBaseline(t, WithCreated(ds, ns), n) == NeedsBaseline(t, ds, n)
    ensures NeedsBaseline(t, ds, n) ==>
              Excess(WithCreated(ds, ns)[n].count, Others(u, n)) == Excess(ds[n].count, Others(t, n))
  {
  }

  ghost predicate SameAt(a: map<NodeId, nat>, b: map<NodeId, nat>, n: NodeId) {
    (n in a <==> n in b) && (n in a ==> a[n] == b[n])
  }

  lemma BaselineAt(t: Tables, ds: map<NodeId, Document>, ns: set<NodeId>, n: NodeId)
    ensures var bs := WithBaselines(t, ds, ns);
            && (n in bs <==> n in t.baselines || (n in ns && NeedsBaseline(t, ds, n)))
            && (n in t.baselines ==> bs[n] == t.baselines[n])
            && (n in ns && NeedsBaseline(t, ds, n) ==> bs[n] == Excess(ds[n].count, Others(t, n)))
  {
  }

  lemma LateBaselineAt(t: Tables, u: Tables, ds: map<NodeId, Document>, ns: set<NodeId>, ms: set<NodeId>, n: NodeId)
    requires u.others == t.others && u.baselines == WithBaselines(t, ds, ns)
    ensures SameAt(WithBaselines(u, WithCreated(ds, ns + ms), ms), WithBaselines(t, ds, ns + ms), n)
  {
    CreatedNeedNone(t, u, ds, ns + ms, n);
    BaselineAt(t, ds, ns, n);
    BaselineAt(t, ds, ns + ms, n);
    BaselineAt(u, WithCreated(ds, ns + ms), ms, n);
  }

  lemma LateBaselines(t: Tables, u: Tables, ds: map<NodeId, Document>, ns: set<NodeId>, ms: set<NodeId>)
    requires u.others == t.others && u.baselines == WithBaselines(t, ds, ns)
    ensures WithBaselines(u, WithCreated(ds, ns + ms), ms) == WithBaselines(t, ds, ns + ms)
  {
    var a, b := WithBaselines(u, WithCreated(ds, ns + ms), ms), WithBaselines(t, ds, ns + ms);
    forall n ensures SameAt(a, b, n) {
      LateBaselineAt(t, u, ds, ns, ms, n);
    }
    SameMaps(a, b);
  }

  lemma SameMaps(a: map<NodeId, nat>, b: map<NodeId, nat>)
    requires forall n :: SameAt(a, b, n)
    ensures a == b
  {
    forall n ensures (n in a <==> n in b) && (n in a ==> a[n] == b[n]) {
      assert SameAt(a, b, n);
    }
  }

  /** Recounting a node does not look at documents other than its own. */
  lemma SameReduction(t: Tables, ns: set<NodeId>, n: NodeId)
    requires n !in ns
    ensures ReducedDocument(t.(documents := Reduced(t, ns)), n) == ReducedDocument(t, n)
  {
    assert n in Reduced(t, ns) <==> n in t.documents;
    assert Supporters(t.(documents := Reduced(t, ns)), n) == Supporters(t, n);
  }

  lemma ReduceOne(t: Tables, ns: set<NodeId>, n: NodeId)
    requires n !in ns
    ensures Reduced(t, ns + {n}) ==
            match ReducedDocument(t, n)
              case Some(d) => Reduced(t, ns)[n := d]
              case None => Reduced(t, ns) - {n}
  {
  }

  lemma CreationKeepsParts(ds: map<NodeId, Document>, ns: set<NodeId>, f: Frame)
    ensures NodesOf(WithCreated(ds, ns), f) == NodesOf(ds, f)
  {
    forall part ensures Contributes(WithCreated(ds, ns), part) == Contributes(ds, part) {
      assert forall m :: Open(WithCreated(ds, ns), m) == Open(ds, m);
    }
  }

  lemma MorePairs(ds: map<NodeId, Document>, fs: seq<Frame>, f: Frame)
    ensures Contributed(ds, fs + [f]) == Contributed(ds, fs) + NodesOf(ds, f)
    ensures Pairs(ds, fs + [f]) == Pairs(ds, fs) + PairsFor(NodesOf(ds, f), f.id)
  {
    assert forall g :: g in fs + [f] <==> g in fs || g == f;
  }

  lemma BaselinesIgnoreDocuments(t: Tables, u: Tables, ns: set<NodeId>)
    requires t.baselines == u.baselines && t.others == u.others
    ensures WithBaselines(t, u.documents, ns) == WithBaselines(u, u.documents, ns)
  {
  }

  /** The tables after purging, invalidating and projecting `fs`, with the affected nodes. */
  ghost predicate Midway(t: Tables, u: Tables, fs: seq<Frame>, affected: set<NodeId>) {
    var ds := Purged(t.documents);
    var ns := Contributed(ds, fs);
    && u.others == t.others
    && u.documents == WithCreated(ds, ns)
    && u.frames == WithPairs(Invalidated(t.frames), Pairs(ds, fs))
    && u.baselines == WithBaselines(t, ds, ns)
    && affected == Framed(t.frames) + ns
  }

  ghost predicate FrameProjected(u: Tables, v: Tables, f: Frame) {
    var ns := NodesOf(u.documents, f);
    && v.others == u.others
    && v.documents == WithCreated(u.documents, ns)
    && v.frames == WithPairs(u.frames, PairsFor(ns, f.id))
    && v.baselines == WithBaselines(u, v.documents, ns)
  }

  lemma NothingProjected(t: Tables, u: Tables)
    requires u == Tables(Purged(t.documents), Invalidated(t.frames), t.baselines, t.others)
    ensures Midway(t, u, [], Framed(t.frames))
  {
    assert Contributed(Purged(t.documents), []) == {};
  }

  lemma OneMoreFrame(t: Tables, u: Tables, v: Tables, fs: seq<Frame>, f: Frame, affected: set<NodeId>)
    requires Midway(t, u, fs, affected) && FrameProjected(u, v, f)
    ensures Midway(t, v, fs + [f], affected + NodesOf(u.documents, f))
  {
    var ds := Purged(t.documents);
    var done, ns := Contributed(ds, fs), NodesOf(ds, f);
    MorePairs(ds, fs, f);
    CreationKeepsParts(ds, done, f);
    CreateMore(ds, done, ns);
    SupportMore(Invalidated(t.frames), Pairs(ds, fs), PairsFor(ns, f.id));
    LateBaselines(t, u, ds, done, ns);
  }

  lemma OneLonger(fs: seq<Frame>, k: nat)
    requires k < |fs|
    ensures fs[..k + 1] == fs[..k] + [fs[k]]
  {
  }

  lemma NextFrame(t: Tables, u: Tables, v: Tables, done: seq<Frame>, f: Frame, all: seq<Frame>, affected: set<NodeId>, more: set<NodeId>)
    requires Midway(t, u, done, affected) && FrameProjected(u, v, f)
    requires all == done + [f] && more == affected + NodesOf(u.documents, f)
    ensures Midway(t, v, all, more)
  {
    OneMoreFrame(t, u, v, done, f, affected);
  }

  lemma AllFramesProjected(t: Tables, u: Tables, fs: seq<Frame>, affected: set<NodeId>)
    requires Midway(t, u, fs, affected)
    ensures u == Projected(t, fs) && affected == Framed(u.frames)
  {
    AffectedAreFramed(t, Purged(t.documents), fs);
  }

  lemma AffectedAreFramed(t: Tables, ds: map<NodeId, Document>, fs: seq<Frame>)
    ensures Framed(WithPairs(Invalidated(t.frames), Pairs(ds, fs))) == Framed(t.frames) + Contributed(ds, fs)
  {
    var after := WithPairs(Invalidated(t.frames), Pairs(ds, fs));
    forall n | n in Framed(t.frames) + Contributed(ds, fs) ensures n in Framed(after) {
      if n in Framed(t.frames) {
        var p :| p in t.frames && p.0 == n;
        assert p in after;
      } else {
        var f :| f in fs && n in NodesOf(ds, f);
        assert (n, f.id) in after;
      }
    }
  }

  /* ---------- the projector ---------- */

  class FrameProjector {
    const project: NodeId
    var documents: map<NodeId, Document>
    var frames: map<(NodeId, nat), bool>
    var baselines: map<NodeId, nat>
    var others: map<NodeId, nat>

    ghost function Contents(): Tables
      reads this
    {
      Tables(documents, frames, baselines, others)
    }

    constructor (project: NodeId, documents: map<NodeId, Document>, others: map<NodeId, nat>)
      ensures this.project == project && Contents() == Tables(documents, map[], map[], others)
    {
      this.project, this.documents, this.others := project, documents, others;
      frames, baselines := map[], map[];
    }

    /** Keep a legacy document's own count as a support before frames are counted on top of it. */
    method EnsureCanonicalBaselineSupport(n: NodeId)
      modifies this`baselines
      ensures baselines == if n !in old(baselines) && n in documents && !documents[n].fromFrame
                           then old(baselines)[n := Excess(documents[n].count, Others(Contents(), n))]
                           else old(baselines)
    {
      if n in baselines || n !in documents || documents[n].fromFrame {
        return;
      }
      var represented := if n in others then others[n] else 0;
      baselines := baselines[n := Excess(documents[n].count, represented)];
    }

    /** Walk the frame's parts, creating the documents that are missing. */
    method CollectNodes(f: Frame) returns (snapshots: set<NodeId>)
      modifies this`documents
      ensures snapshots == NodesOf(old(documents), f)
      ensures documents == WithCreated(old(documents), snapshots)
    {
      snapshots := {};
      ghost var ds := documents;
      assert WithCreated(ds, {}) == ds;
      for k := 0 to |f.parts|
        invariant documents == WithCreated(ds, snapshots)
        invariant snapshots == NodesOf(ds, Frame(f.id, f.parts[..k]))
      {
        var part := f.parts[k];
        assert f.parts[..k + 1] == f.parts[..k] + [part];
        CreationKeepsParts(ds, snapshots, Frame(f.id, [part]));
        assert NodesOf(ds, Frame(f.id, f.parts[..k + 1])) == NodesOf(ds, Frame(f.id, f.parts[..k])) + NodesOf(ds, Frame(f.id, [part]));
        if Contributes(documents, part) {
          assert part.node in NodesOf(documents, Frame(f.id, [part]));
          CreateOne(ds, snapshots, part.node);
          if part.node !in documents {
            documents := documents[part.node := Created];
          }
          snapshots := snapshots + {part.node};
        }
      }
      assert f.parts[..|f.parts|] == f.parts;
    }

    /** Write the frame's supports for the collected nodes. */
    method FlushNodeSnapshots(f: Frame, snapshots: set<NodeId>)
      modifies this`frames, this`baselines
      ensures frames == WithPairs(old(frames), PairsFor(snapshots, f.id))
      ensures baselines == WithBaselines(old(Contents()), documents, snapshots)
    {
      var rest := snapshots;
      ghost var done: set<NodeId> := {};
      while rest != {}
        invariant rest + done == snapshots && rest !! done
        invariant frames == WithPairs(old(frames), PairsFor(done, f.id))
        invariant baselines == WithBaselines(old(Contents()), documents, done)
        decreases rest
      {
        var n :| n in rest;
        SupportOne(old(frames), done, n, f.id);
        BaselineOne(old(Contents()), documents, done, n);
        EnsureCanonicalBaselineSupport(n);
        frames := frames[(n, f.id) := true];
        rest := rest - {n};
        done := done + {n};
      }
      assert done == snapshots;
    }

    method RecountDocument(n: NodeId)
      modifies this`documents
      ensures documents == match ReducedDocument(old(Contents()), n)
                             case Some(d) => old(documents)[n := d]
                             case None => old(documents) - {n}
    {
      var supporters := set p | p in frames && p.0 == n && frames[p] :: p.1;
      if supporters == {} && n !in baselines && n !in others {
        if n in documents && documents[n].fromFrame {
          documents := documents - {n};
        } else if n in documents && documents[n].count != 0 {
          documents := documents[n := documents[n].(count := 0)];
        }
      } else if n in documents {
        var base := if n in baselines then baselines[n] else 0;
        var represented := if n in others then others[n] else 0;
        var d := documents[n];
        documents := documents[n := Document(base + represented + |supporters|, d.fromFrame, if d.fromFrame then Active else d.status)];
      }
    }

    method ProjectFrame(f: Frame) returns (touched: set<NodeId>)
      modifies this`documents, this`frames, this`baselines
      ensures touched == NodesOf(old(documents), f)
      ensures FrameProjected(old(Contents()), Contents(), f)
    {
      ghost var t := Contents();
      touched := CollectNodes(f);
      BaselinesIgnoreDocuments(t, Contents(), touched);
      FlushNodeSnapshots(f, touched);
    }

    /** Recount every affected document from its active supports. */
    method ReduceAffectedDocuments(affected: set<NodeId>)
      modifies this`documents
      ensures documents == Reduced(old(Contents()), affected - {project})
    {
      ghost var t := Contents();
      var rest := affected;
      ghost var done: set<NodeId> := {};
      assert documents == Reduced(t, done - {project});
      while rest != {}
        invariant rest + done == affected && rest !! done
        invariant documents == Reduced(t, done - {project})
        decreases rest
      {
        var n :| n in rest;
        if n != project {
          SameReduction(t, done - {project}, n);
          ReduceOne(t, done - {project}, n);
          RecountDocument(n);
          assert (done + {n}) - {project} == done - {project} + {n};
        } else {
          assert (done + {n}) - {project} == done - {project};
        }
        rest := rest - {n};
        done := done + {n};
      }
      assert done == affected;
    }

    /** Drop archived documents of earlier projections and invalidate every frame support. */
    method StartOver() returns (affected: set<NodeId>)
      modifies this`documents, this`frames
      ensures Midway(old(Contents()), Contents(), [], affected)
    {
      ghost var t := Contents();
      affected := set p | p in frames :: p.0;
      documents := map n | n in documents && !(documents[n].fromFrame && documents[n].status == Archived) :: documents[n];
      frames := map p | p in frames :: false;
      NothingProjected(t, Contents());
    }

    method ProjectNext(ghost t: Tables, fs: seq<Frame>, k: nat, affected: set<NodeId>) returns (more: set<NodeId>)
      requires k < |fs| && Midway(t, Contents(), fs[..k], affected)
      modifies this`documents, this`frames, this`baselines
      ensures Midway(t, Contents(), fs[..k + 1], more)
    {
      ghost var u := Contents();
      var touched := ProjectFrame(fs[k]);
      more := affected + touched;
      OneLonger(fs, k);
      NextFrame(t, u, Contents(), fs[..k], fs[k], fs[..k + 1], affected, more);
    }

    method ProjectFrames(ghost t: Tables, fs: seq<Frame>, start: set<NodeId>) returns (affected: set<NodeId>)
      requires Midway(t, Contents(), fs[..0], start)
      modifies this`documents, this`frames, this`baselines
      ensures Midway(t, Contents(), fs[..|fs|], affected)
    {
      affected := start;
      for k := 0 to |fs|
        invariant Midway(t, Contents(), fs[..k], affected)
      {
        affected := ProjectNext(t, fs, k, affected);
      }
    }

    method Rebuild(fs: seq<Frame>)
      modifies this
      ensures Contents() == Rebuilt(old(Contents()), fs, project)
    {
      ghost var t := Contents();
      var affected := StartOver();
      assert fs[..0] == [] && fs[..|fs|] == fs;
      affected := ProjectFrames(t, fs, affected);
      AllFramesProjected(t, Contents(), fs, affected);
      ReduceAffectedDocuments(affected);
    }
  }
}
