/** Support counts over any number of rebuilds, with frames activated or retired and documents put under
    governance or released between them.  The starting point holds only legacy documents. */
module FrameConservation {
  import opened FrameSupports

  datatype Event = Rebuild(frames: seq<Frame>) | SetStatus(node: NodeId, status: Status)

  function Step(t: Tables, e: Event, project: NodeId): Tables {
    match e
    case Rebuild(fs) => Rebuilt(t, fs, project)
    case SetStatus(n, s) =>
      if n in t.documents then t.(documents := t.documents[n := t.documents[n].(status := s)]) else t
  }

  function Run(t: Tables, es: seq<Event>, project: NodeId): Tables {
    if es == [] then t else Step(Run(t, es[..|es| - 1], project), es[|es| - 1], project)
  }

  /** No frame has been projected yet. */
  predicate Legacy(t: Tables) {
    t.frames == map[] && t.baselines == map[] && forall n :: n in t.documents ==> !t.documents[n].fromFrame
  }

  function Max(a: nat, b: nat): nat {
    if a > b then a else b
  }

  /** The frames whose projection reaches the node, given the statuses the rebuild starts from. */
  function SupportingFrames(t: Tables, fs: seq<Frame>, n: NodeId): set<nat> {
    set f | f in fs && n in NodesOf(Purged(t.documents), f) :: f.id
  }

  /* ---------- one rebuild seen from one node ---------- */

  lemma PairsAt(ds: map<NodeId, Document>, fs: seq<Frame>, n: NodeId, id: nat)
    ensures (n, id) in Pairs(ds, fs) <==> exists f :: f in fs && n in NodesOf(ds, f) && f.id == id
  {
  }

  lemma SupportersAfter(t: Tables, fs: seq<Frame>, n: NodeId)
    ensures Supporters(Projected(t, fs), n) == SupportingFrames(t, fs, n)
    ensures Supporters(Projected(t, fs), n) != {} <==> n in Contributed(Purged(t.documents), fs)
  {
    var ds := Purged(t.documents);
    var supporters := SupportingFrames(t, fs, n);
    forall id ensures id in Supporters(Projected(t, fs), n) <==> id in supporters {
      PairsAt(ds, fs, n, id);
      SupporterIsPair(Invalidated(t.frames), Pairs(ds, fs), n, id);
    }
    if n in Contributed(ds, fs) {
      var f :| f in fs && n in NodesOf(ds, f);
      assert f.id in supporters;
    }
  }

  lemma SupporterIsPair(was: map<(NodeId, nat), bool>, ps: set<(NodeId, nat)>, n: NodeId, id: nat)
    requires forall p :: p in was ==> !was[p]
    ensures (n, id) in WithPairs(was, ps) && WithPairs(was, ps)[(n, id)] <==> (n, id) in ps
  {
  }

  lemma FramedAfter(t: Tables, fs: seq<Frame>, n: NodeId)
    ensures n in Framed(Projected(t, fs).frames) <==> n in Framed(t.frames) || n in Contributed(Purged(t.documents), fs)
  {
    AffectedAreFramed(t, Purged(t.documents), fs);
  }

  lemma ReducedAt(t: Tables, ns: set<NodeId>, n: NodeId)
    ensures n !in ns ==> (n in Reduced(t, ns) <==> n in t.documents) && (n in t.documents ==> Reduced(t, ns)[n] == t.documents[n])
    ensures n in ns ==> (n in Reduced(t, ns) <==> ReducedDocument(t, n).Some?)
                        && (ReducedDocument(t, n).Some? ==> Reduced(t, ns)[n] == ReducedDocument(t, n).value)
  {
  }

  /* ---------- who is supported, by the statuses the rebuild starts from ---------- */

  /** A node frames may add to: one without a document, one whose document is active or weak, or one whose document
      is an archived leftover of an earlier projection. */
  predicate OpenAtStart(t: Tables, n: NodeId) {
    n in t.documents ==>
      var d := t.documents[n];
      d.status.Active? || d.status.Weak? || (d.status.Archived? && d.fromFrame)
  }

  predicate Mentions(t: Tables, f: Frame, part: Part, n: NodeId) {
    part in f.parts && part.node == n && OpenAtStart(t, n) && forall m :: m in part.needs ==> OpenAtStart(t, m)
  }

  lemma OpenIsOpenAtStart(t: Tables, n: NodeId)
    ensures Open(Purged(t.documents), n) <==> OpenAtStart(t, n)
  {
  }

  lemma NodeIsMentioned(t: Tables, f: Frame, n: NodeId)
    ensures n in NodesOf(Purged(t.documents), f) <==> exists part :: Mentions(t, f, part, n)
  {
    forall part ensures Contributes(Purged(t.documents), part) && part in f.parts && part.node == n <==> Mentions(t, f, part, n) {
      forall m ensures Open(Purged(t.documents), m) <==> OpenAtStart(t, m) {
        OpenIsOpenAtStart(t, m);
      }
    }
    if n in NodesOf(Purged(t.documents), f) {
      var part :| part in f.parts && Contributes(Purged(t.documents), part) && part.node == n;
      assert Mentions(t, f, part, n);
    }
  }

  /** After a rebuild a support is active exactly if its frame mentions its node where all it hangs on is open. */
  lemma SupportedIffMentioned(t: Tables, fs: seq<Frame>, project: NodeId, n: NodeId, id: nat)
    ensures var r := Rebuilt(t, fs, project);
            (n, id) in r.frames && r.frames[(n, id)] <==>
            exists f, part :: f in fs && f.id == id && Mentions(t, f, part, n)
  {
    var ds := Purged(t.documents);
    PairsAt(ds, fs, n, id);
    SupporterIsPair(Invalidated(t.frames), Pairs(ds, fs), n, id);
    forall f ensures n in NodesOf(ds, f) <==> exists part :: Mentions(t, f, part, n) {
      NodeIsMentioned(t, f, n);
    }
    if f :| f in fs && n in NodesOf(ds, f) && f.id == id {
      var part :| Mentions(t, f, part, n);
      assert f in fs && f.id == id && Mentions(t, f, part, n);
    }
  }

  /** A document that is neither active nor weak gets no support and no baseline, and one from before the frames
      keeps its status. */
  lemma GovernedIsLeftAlone(t: Tables, fs: seq<Frame>, project: NodeId, n: NodeId)
    requires n in t.documents && !t.documents[n].status.Active? && !t.documents[n].status.Weak?
    requires !(t.documents[n].fromFrame && t.documents[n].status.Archived?)
    ensures var r := Rebuilt(t, fs, project);
            && (forall id :: (n, id) in r.frames ==> !r.frames[(n, id)])
            && (n in r.baselines <==> n in t.baselines)
            && (n in t.baselines ==> r.baselines[n] == t.baselines[n])
            && (!t.documents[n].fromFrame ==>
                  n in r.documents && !r.documents[n].fromFrame && r.documents[n].status == t.documents[n].status)
  {
    var ds, p := Purged(t.documents), Projected(t, fs);
    forall id | (n, id) in p.frames ensures !p.frames[(n, id)] {
      SupportedIffMentioned(t, fs, project, n, id);
    }
    OpenIsOpenAtStart(t, n);
    assert n !in Contributed(ds, fs);
    BaselineAt(t, ds, Contributed(ds, fs), n);
    assert n in p.documents && p.documents[n] == t.documents[n];
    ReducedAt(p, Framed(p.frames) - {project}, n);
  }

  /** One that frames created keeps its status exactly if no support of a frame names it, or it is the project's:
      a recount drops it or makes it active. */
  lemma GovernedFromFrameIsKeptIff(t: Tables, fs: seq<Frame>, project: NodeId, n: NodeId)
    requires n in t.documents && t.documents[n].fromFrame && t.documents[n].status.Governed?
    ensures var r := Rebuilt(t, fs, project);
            n in r.documents && r.documents[n].status.Governed? <==> n == project || forall id :: (n, id) !in t.frames
  {
    var ds, p := Purged(t.documents), Projected(t, fs);
    OpenIsOpenAtStart(t, n);
    assert n !in Contributed(ds, fs);
    FramedAfter(t, fs, n);
    assert n in p.documents && p.documents[n] == t.documents[n];
    ReducedAt(p, Framed(p.frames) - {project}, n);
    if id :| (n, id) in t.frames {
      assert n in Framed(t.frames);
    }
  }

  lemma ContributedIffMentioned(t: Tables, fs: seq<Frame>, n: NodeId)
    ensures n in Contributed(Purged(t.documents), fs) <==> exists f, part :: f in fs && Mentions(t, f, part, n)
  {
    var ds := Purged(t.documents);
    if n in Contributed(ds, fs) {
      var f :| f in fs && n in NodesOf(ds, f);
      NodeIsMentioned(t, f, n);
      var part :| Mentions(t, f, part, n);
    }
    if f, part :| f in fs && Mentions(t, f, part, n) {
      NodeIsMentioned(t, f, n);
    }
  }

  /** The project's own document is not recounted: frames that mention it while it is missing create it with one. */
  lemma MissingProjectIsCreated(t: Tables, fs: seq<Frame>, project: NodeId)
    requires project !in t.documents
    ensures var r := Rebuilt(t, fs, project);
            && (project in r.documents <==> exists f, part :: f in fs && Mentions(t, f, part, project))
            && (project in r.documents ==> r.documents[project] == Document(1, true, Active))
  {
    var p := Projected(t, fs);
    ReducedAt(p, Framed(p.frames) - {project}, project);
    ContributedIffMentioned(t, fs, project);
  }

  /* ---------- the invariant ---------- */

  function Expected(t0: Tables, t: Tables, project: NodeId, n: NodeId): nat
    requires n in t0.documents
  {
    if n == project || n !in Framed(t.frames) then t0.documents[n].count
    else Max(t0.documents[n].count, Others(t0, n)) + |Supporters(t, n)|
  }

  ghost predicate LegacyKept(t0: Tables, t: Tables, project: NodeId, n: NodeId) {
    n in t0.documents ==>
      && n in t.documents && !t.documents[n].fromFrame
      && (n in t.baselines <==> n in Framed(t.frames))
      && (n in t.baselines ==> t.baselines[n] == Excess(t0.documents[n].count, Others(t0, n)))
      && t.documents[n].count == Expected(t0, t, project, n)
  }

  ghost predicate FrameOwned(t0: Tables, t: Tables, project: NodeId, n: NodeId) {
    n !in t0.documents ==>
      && n !in t.baselines
      && (n in t.documents ==> t.documents[n].fromFrame && n in Framed(t.frames))
      && (n in t.documents && n != project ==>
            && t.documents[n].count == |Supporters(t, n)| + Others(t0, n)
            && (Supporters(t, n) != {} || n in t0.others))
      && (Supporters(t, n) != {} ==> n in t.documents)
  }

  ghost predicate Kept(t0: Tables, t: Tables, project: NodeId, n: NodeId) {
    t.others == t0.others && LegacyKept(t0, t, project, n) && FrameOwned(t0, t, project, n)
  }

  /** A legacy document on the way: untouched, and with a baseline as soon as a frame reaches it. */
  lemma LegacyMidway(t0: Tables, t: Tables, fs: seq<Frame>, project: NodeId, n: NodeId)
    requires Kept(t0, t, project, n) && n in t0.documents
    ensures var p := Projected(t, fs);
            && n in p.documents && p.documents[n] == t.documents[n]
            && (n in p.baselines <==> n in Framed(t.frames) || n in Contributed(Purged(t.documents), fs))
            && (n in p.baselines ==> p.baselines[n] == Excess(t0.documents[n].count, Others(t0, n)))
  {
    var ds := Purged(t.documents);
    assert n in ds && ds[n] == t.documents[n];
    BaselineAt(t, ds, Contributed(ds, fs), n);
  }

  lemma LegacyReduced(t0: Tables, p: Tables, r: Tables, project: NodeId, n: NodeId)
    requires n in t0.documents && p.others == t0.others
    requires n in p.documents && !p.documents[n].fromFrame
    requires n in p.baselines <==> n in Framed(p.frames)
    requires n in p.baselines ==> p.baselines[n] == Excess(t0.documents[n].count, Others(t0, n))
    requires n == project || n !in Framed(p.frames) ==> p.documents[n].count == t0.documents[n].count
    requires r == p.(documents := Reduced(p, Framed(p.frames) - {project}))
    ensures LegacyKept(t0, r, project, n)
  {
    ReducedAt(p, Framed(p.frames) - {project}, n);
    assert Supporters(r, n) == Supporters(p, n);
  }

  lemma LegacyStaysKept(t0: Tables, t: Tables, fs: seq<Frame>, project: NodeId, n: NodeId)
    requires Kept(t0, t, project, n) && n in t0.documents
    ensures LegacyKept(t0, Rebuilt(t, fs, project), project, n)
  {
    LegacyMidway(t0, t, fs, project, n);
    FramedAfter(t, fs, n);
    LegacyReduced(t0, Projected(t, fs), Rebuilt(t, fs, project), project, n);
  }

  lemma CreatedStayOwned(t0: Tables, t: Tables, fs: seq<Frame>, project: NodeId, n: NodeId)
    requires Kept(t0, t, project, n) && n !in t0.documents
    ensures FrameOwned(t0, Rebuilt(t, fs, project), project, n)
  {
    var ds, p, r := Purged(t.documents), Projected(t, fs), Rebuilt(t, fs, project);
    var ns := Contributed(ds, fs);
    SupportersAfter(t, fs, n);
    FramedAfter(t, fs, n);
    BaselineAt(t, ds, ns, n);
    ReducedAt(p, Framed(p.frames) - {project}, n);
    assert Supporters(r, n) == Supporters(p, n);
    assert n in p.documents <==> n in ds || n in ns;
    assert Others(p, n) == Others(t0, n);
  }

  lemma StatusKeeps(t0: Tables, t: Tables, e: Event, project: NodeId, n: NodeId)
    requires Kept(t0, t, project, n) && e.SetStatus?
    ensures Kept(t0, Step(t, e, project), project, n)
  {
    assert Supporters(Step(t, e, project), n) == Supporters(t, n);
  }

  lemma {:induction false} RunKeeps(t0: Tables, es: seq<Event>, project: NodeId, n: NodeId)
    requires Legacy(t0)
    ensures Kept(t0, Run(t0, es, project), project, n)
  {
    if es == [] {
      assert n !in Framed(t0.frames);
      assert Supporters(t0, n) == {};
    } else {
      var t, e := Run(t0, es[..|es| - 1], project), es[|es| - 1];
      RunKeeps(t0, es[..|es| - 1], project, n);
      match e {
        case SetStatus(_, _) => StatusKeeps(t0, t, e, project, n);
        case Rebuild(fs) =>
          if n in t0.documents {
            LegacyStaysKept(t0, t, fs, project, n);
          } else {
            CreatedStayOwned(t0, t, fs, project, n);
          }
      }
    }
  }

  lemma LastRebuild(t0: Tables, es: seq<Event>, fs: seq<Frame>, project: NodeId, n: NodeId)
    requires Legacy(t0)
    ensures var r := Run(t0, es + [Rebuild(fs)], project);
            Kept(t0, r, project, n) && Supporters(r, n) == SupportingFrames(Run(t0, es, project), fs, n)
  {
    var all := es + [Rebuild(fs)];
    assert all[..|all| - 1] == es;
    RunKeeps(t0, all, project, n);
    var t := Run(t0, es, project);
    SupportersAfter(t, fs, n);
    assert Supporters(Rebuilt(t, fs, project), n) == Supporters(Projected(t, fs), n);
  }

  /* ---------- the results ---------- */

  /** Whatever was projected, retired or governed before, a rebuild leaves a legacy document with the larger of its
      own first count and its other supports, plus one for each frame now supporting it.  A document no frame ever
      reached is as it was. */
  lemma LegacyCountsAreConserved(t0: Tables, es: seq<Event>, fs: seq<Frame>, project: NodeId, n: NodeId)
    requires Legacy(t0) && n in t0.documents
    ensures var r := Run(t0, es + [Rebuild(fs)], project);
            && n in r.documents && !r.documents[n].fromFrame
            && r.documents[n].count ==
               if n == project || n !in Framed(r.frames) then t0.documents[n].count
               else Max(t0.documents[n].count, Others(t0, n)) + |SupportingFrames(Run(t0, es, project), fs, n)|
  {
    LastRebuild(t0, es, fs, project, n);
  }

  /** A document frames created lives exactly as long as frames support it, and counts them. */
  lemma CreatedDocumentsCountTheirFrames(t0: Tables, es: seq<Event>, fs: seq<Frame>, project: NodeId, n: NodeId)
    requires Legacy(t0) && n !in t0.documents && n != project && n !in t0.others
    ensures var r := Run(t0, es + [Rebuild(fs)], project);
            var supporters := SupportingFrames(Run(t0, es, project), fs, n);
            && (n in r.documents <==> supporters != {})
            && (n in r.documents ==> r.documents[n].count == |supporters|)
  {
    LastRebuild(t0, es, fs, project, n);
  }

  /** Once every frame is retired a document that frames reached has its first count back exactly when that count
      already covered the other supports. */
  lemma RetiringAllFramesRestores(t0: Tables, es: seq<Event>, project: NodeId, n: NodeId)
    requires Legacy(t0) && n in t0.documents && n != project
    ensures var r := Run(t0, es + [Rebuild([])], project);
            && n in r.documents
            && (r.documents[n].count == t0.documents[n].count <==>
                n !in Framed(r.frames) || Others(t0, n) <= t0.documents[n].count)
  {
    LastRebuild(t0, es, [], project, n);
    assert SupportingFrames(Run(t0, es, project), [], n) == {};
  }

  /** A legacy document that counts 1 although other supports sum to 2, mentioned once by a frame since retired. */
  lemma UndercountedIsNotRestored()
    ensures var t0 := Tables(map[0 := Document(1, false, Active)], map[], map[], map[0 := 2]);
            var es := [Rebuild([Frame(7, [Part(0, {})])])];
            var r := Run(t0, es + [Rebuild([])], 9);
            Legacy(t0) && 0 in r.documents && r.documents[0].count == 2
  {
    var t0 := Tables(map[0 := Document(1, false, Active)], map[], map[], map[0 := 2]);
    var f := Frame(7, [Part(0, {})]);
    var es := [Rebuild([f])];
    assert es[..0] == [] && Run(t0, [], 9) == t0;
    assert f.parts[0] in f.parts && Contributes(Purged(t0.documents), f.parts[0]);
    assert 0 in NodesOf(Purged(t0.documents), f);
    assert f in [f] && 0 in Contributed(Purged(t0.documents), [f]);
    LastRebuild(t0, es, [], 9, 0);
    FramedAfter(t0, [f], 0);
    FramedAfter(Run(t0, es, 9), [], 0);
    assert SupportingFrames(Run(t0, es, 9), [], 0) == {};
  }
}
