/** Which state a subject is in: transitions of all frames are weighed by the age of their evidence, and only the
    latest become HAS_STATE edges.  The supports of the previous projection are invalidated first and every edge is
    reduced again from the supports that came back. */
module FrameStates {
  import opened Options
  import opened SnapshotFolds
  import opened ValidityMerge

  datatype Order = Order(occurredAt: int, globalSeq: int)

  function CompareEvidenceOrder(l: Order, r: Order): int {
    if l.occurredAt != r.occurredAt then l.occurredAt - r.occurredAt else l.globalSeq - r.globalSeq
  }

  /** `subject` is the node the transition's subject resolved to, `holdsState` whether its dimension is one of task,
      entity, event and object, and `to` the node of the canonical state key. */
  datatype Transition = Transition(subject: Option<NodeId>, holdsState: bool, order: Order, to: NodeId,
                                   confidence: real, evidence: seq<EventId>, validFrom: int)

  datatype Link = Link(edge: EdgeId, confidence: real, evidence: seq<EventId>, range: Range)

  /** `links` are the frame's own relations, resolved to nodes. */
  datatype Frame = Frame(id: nat, links: seq<Link>, transitions: seq<Transition>)

  datatype Decision = Decision(order: Order, stateKeys: set<NodeId>, frameIds: set<nat>)

  predicate Eligible(t: Transition) {
    t.subject.Some? && t.holdsState
  }

  /* ---------- deciding ---------- */

  datatype Claim = Claim(subject: NodeId, order: Order, state: NodeId, frame: nat)

  function ClaimOf(f: Frame, t: Transition): Claim
    requires Eligible(t)
  {
    Claim(t.subject.value, t.order, t.to, f.id)
  }

  ghost function FrameClaims(f: Frame): set<Claim> {
    set t | t in f.transitions && Eligible(t) :: ClaimOf(f, t)
  }

  ghost function ClaimsOf(frames: seq<Frame>): set<Claim> {
    set f, c | f in frames && c in FrameClaims(f) :: c
  }

  /** By time, then by global sequence. */
  predicate NoLater(a: Order, b: Order) {
    a.occurredAt < b.occurredAt || (a.occurredAt == b.occurredAt && a.globalSeq <= b.globalSeq)
  }

  ghost predicate Latest(claims: set<Claim>, s: NodeId, order: Order) {
    && (exists c :: c in claims && c.subject == s && c.order == order)
    && forall c :: c in claims && c.subject == s ==> NoLater(c.order, order)
  }

  ghost function StatesAt(claims: set<Claim>, s: NodeId, order: Order): set<NodeId> {
    set c | c in claims && c.subject == s && c.order == order :: c.state
  }

  ghost function FramesAt(claims: set<Claim>, s: NodeId, order: Order): set<nat> {
    set c | c in claims && c.subject == s && c.order == order :: c.frame
  }

  ghost predicate DecidedAt(claims: set<Claim>, ds: map<NodeId, Decision>, s: NodeId) {
    && (s in ds <==> exists c :: c in claims && c.subject == s)
    && (s in ds ==>
          && Latest(claims, s, ds[s].order)
          && ds[s].stateKeys == StatesAt(claims, s, ds[s].order)
          && ds[s].frameIds == FramesAt(claims, s, ds[s].order))
  }

  /** Every subject anyone claims a state for has a decision: the latest order, and all that is claimed at it. */
  ghost predicate Decided(claims: set<Claim>, ds: map<NodeId, Decision>) {
    forall s {:trigger DecidedAt(claims, ds, s)} :: DecidedAt(claims, ds, s)
  }

  function WithClaim(ds: map<NodeId, Decision>, c: Claim): map<NodeId, Decision> {
    if c.subject !in ds || CompareEvidenceOrder(c.order, ds[c.subject].order) > 0 then
      ds[c.subject := Decision(c.order, {c.state}, {c.frame})]
    else if CompareEvidenceOrder(c.order, ds[c.subject].order) == 0 then
      var d := ds[c.subject];
      ds[c.subject := Decision(d.order, d.stateKeys + {c.state}, d.frameIds + {c.frame})]
    else ds
  }

  lemma LatestGrows(claims: set<Claim>, s: NodeId, order: Order, c: Claim)
    requires c.subject == s && Latest(claims, s, order)
    ensures Latest(claims + {c}, s, if CompareEvidenceOrder(c.order, order) > 0 then c.order else order)
  {
    assert c in claims + {c};
    var first :| first in claims && first.subject == s && first.order == order;
    assert first in claims + {c};
  }

  lemma ClaimDecidedAt(claims: set<Claim>, ds: map<NodeId, Decision>, c: Claim, s: NodeId)
    requires DecidedAt(claims, ds, s)
    ensures DecidedAt(claims + {c}, WithClaim(ds, c), s)
  {
    var more, es := claims + {c}, WithClaim(ds, c);
    assert c in more;
    if s != c.subject {
      assert forall q :: q in more && q.subject == s <==> q in claims && q.subject == s;
      if s in ds {
        assert StatesAt(more, s, ds[s].order) == StatesAt(claims, s, ds[s].order);
        assert FramesAt(more, s, ds[s].order) == FramesAt(claims, s, ds[s].order);
      }
    } else if s !in ds {
      assert StatesAt(more, s, c.order) == {c.state};
      assert FramesAt(more, s, c.order) == {c.frame};
    } else {
      LatestGrows(claims, s, ds[s].order, c);
      NewestOnly(claims, s, ds[s].order, c);
    }
  }

  lemma NewestOnly(claims: set<Claim>, s: NodeId, order: Order, c: Claim)
    requires c.subject == s && Latest(claims, s, order)
    ensures var more := claims + {c};
            && (CompareEvidenceOrder(c.order, order) > 0 ==> StatesAt(more, s, c.order) == {c.state} && FramesAt(more, s, c.order) == {c.frame})
            && (c.order == order ==> StatesAt(more, s, order) == StatesAt(claims, s, order) + {c.state}
                                     && FramesAt(more, s, order) == FramesAt(claims, s, order) + {c.frame})
            && (c.order != order ==> StatesAt(more, s, order) == StatesAt(claims, s, order) && FramesAt(more, s, order) == FramesAt(claims, s, order))
  {
  }

  lemma ClaimDecided(claims: set<Claim>, ds: map<NodeId, Decision>, c: Claim)
    requires Decided(claims, ds)
    ensures Decided(claims + {c}, WithClaim(ds, c))
  {
    forall s ensures DecidedAt(claims + {c}, WithClaim(ds, c), s) {
      assert DecidedAt(claims, ds, s);
      ClaimDecidedAt(claims, ds, c, s);
    }
  }

  lemma DecisionIsUnique(claims: set<Claim>, ds: map<NodeId, Decision>, es: map<NodeId, Decision>)
    requires Decided(claims, ds) && Decided(claims, es)
    ensures ds == es
  {
    forall s ensures s in ds <==> s in es
      ensures s in ds ==> ds[s] == es[s]
    {
      assert DecidedAt(claims, ds, s) && DecidedAt(claims, es, s);
    }
  }

  method ResolveCurrentStates(frames: seq<Frame>) returns (decisions: map<NodeId, Decision>)
    ensures Decided(ClaimsOf(frames), decisions)
  {
    decisions := map[];
    assert ClaimsOf(frames[..0]) == {};
    for i := 0 to |frames|
      invariant Decided(ClaimsOf(frames[..i]), decisions)
    {
      var frame := frames[i];
      ghost var before := ClaimsOf(frames[..i]);
      assert before + FrameClaims(frame.(transitions := frame.transitions[..0])) == before;
      for j := 0 to |frame.transitions|
        invariant Decided(before + FrameClaims(frame.(transitions := frame.transitions[..j])), decisions)
      {
        var transition := frame.transitions[j];
        ghost var soFar := before + FrameClaims(frame.(transitions := frame.transitions[..j]));
        MoreTransitions(frame, j);
        if !transition.subject.Some? || !transition.holdsState {
          assert soFar == before + FrameClaims(frame.(transitions := frame.transitions[..j + 1]));
          continue;
        }
        ghost var claim := ClaimOf(frame, transition);
        ClaimDecided(soFar, decisions, claim);
        assert soFar + {claim} == before + FrameClaims(frame.(transitions := frame.transitions[..j + 1]));
        var subject := transition.subject.value;
        var comparison := if subject in decisions then CompareEvidenceOrder(transition.order, decisions[subject].order) else 1;
        if comparison > 0 {
          decisions := decisions[subject := Decision(transition.order, {transition.to}, {frame.id})];
        } else if comparison == 0 {
          var current := decisions[subject];
          decisions := decisions[subject := Decision(current.order, current.stateKeys + {transition.to}, current.frameIds + {frame.id})];
        }
      }
      MoreFrames(frames, i);
    }
    assert frames[..|frames|] == frames;
  }

  lemma MoreTransitions(f: Frame, j: nat)
    requires j < |f.transitions|
    ensures var t := f.transitions[j];
            FrameClaims(f.(transitions := f.transitions[..j + 1])) ==
            FrameClaims(f.(transitions := f.transitions[..j])) + if Eligible(t) then {ClaimOf(f, t)} else {}
  {
    assert f.transitions[..j + 1] == f.transitions[..j] + [f.transitions[j]];
  }

  lemma MoreFrames(frames: seq<Frame>, i: nat)
    requires i < |frames|
    ensures ClaimsOf(frames[..i + 1]) == ClaimsOf(frames[..i]) + FrameClaims(frames[i].(transitions := frames[i].transitions[..|frames[i].transitions|]))
  {
    var f := frames[i];
    assert frames[..i + 1] == frames[..i] + [f];
    assert f.transitions[..|f.transitions|] == f.transitions;
  }

  /* ---------- what the decisions say ---------- */

  /** A claim that no other claim about its subject is later than. */
  ghost predicate Newest(claims: set<Claim>, c: Claim) {
    c in claims && forall d :: d in claims && d.subject == c.subject ==> NoLater(d.order, c.order)
  }

  /** A state is decided for a subject exactly when one of its newest claims says so, and that claim's frame is named. */
  lemma DecidedIsNewest(claims: set<Claim>, ds: map<NodeId, Decision>, s: NodeId, k: NodeId)
    requires Decided(claims, ds)
    ensures s in ds && k in ds[s].stateKeys <==> exists c :: Newest(claims, c) && c.subject == s && c.state == k
    ensures forall c :: Newest(claims, c) && c.subject == s ==> s in ds && c.frame in ds[s].frameIds
  {
    assert DecidedAt(claims, ds, s);
    if s in ds && k in ds[s].stateKeys {
      var c :| c in claims && c.subject == s && c.order == ds[s].order && c.state == k;
      assert Newest(claims, c);
    }
    forall c | Newest(claims, c) && c.subject == s ensures s in ds && c.state in ds[s].stateKeys && c.frame in ds[s].frameIds {
      var first :| first in claims && first.subject == s && first.order == ds[s].order;
      assert NoLater(first.order, c.order) && NoLater(c.order, ds[s].order);
      assert c.order == ds[s].order;
    }
  }
}
