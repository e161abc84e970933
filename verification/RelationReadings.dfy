/** What a frame's relation is read as: the candidate belief it becomes, when it is dated, or why it is left alone. */
module RelationReadings {
  import opened BeliefStore
  import opened BeliefStrength
  import opened FrameRelationBeliefs
  import opened Options

  predicate Named(nodes: seq<Node>, id: nat) {
    exists k :: 0 <= k < |nodes| && nodes[k].id == id
  }

  /** Of several nodes with one id the last gives the label. */
  predicate Labels(nodes: seq<Node>, id: nat, name: string) {
    exists k ::
      && 0 <= k < |nodes| && nodes[k] == Node(id, name)
      && forall j :: k < j < |nodes| ==> nodes[j].id != id
  }

  lemma {:induction false} LabelIsLast(nodes: seq<Node>, id: nat)
    ensures LabelOf(nodes, id).Some? <==> Named(nodes, id)
    ensures LabelOf(nodes, id).Some? ==> Labels(nodes, id, LabelOf(nodes, id).value)
  {
    if nodes != [] {
      var last := |nodes| - 1;
      if nodes[last].id == id {
        assert nodes[last] == Node(id, nodes[last].name);
      } else {
        LabelIsLast(nodes[..last], id);
        if Named(nodes, id) {
          var k :| 0 <= k < |nodes| && nodes[k].id == id;
          assert nodes[..last][k].id == id;
        }
        if LabelOf(nodes, id).Some? {
          var k :| 0 <= k < last && nodes[..last][k] == Node(id, LabelOf(nodes, id).value)
                   && forall j :: k < j < last ==> nodes[..last][j].id != id;
          assert nodes[k] == Node(id, LabelOf(nodes, id).value);
          forall j | k < j < |nodes| ensures nodes[j].id != id {
            if j < last {
              assert nodes[..last][j].id != id;
            }
          }
        }
      }
    }
  }

  /** A relation outside the four kinds is skipped, then one whose nodes the frame lacks, then one with an empty
      label; every other is taken. */
  lemma LeftAloneIff(f: Frame, r: Relation, w: World)
    ensures var none, unresolved, empty :=
              r.kind.OtherKind?, !Named(f.nodes, r.source) || !Named(f.nodes, r.target),
              Labels(f.nodes, r.source, "") || Labels(f.nodes, r.target, "");
            && (Read(f, r, w) == Skip(NotProjected) <==> none)
            && (Read(f, r, w) == Skip(UnresolvedNode) <==> !none && unresolved)
            && (Read(f, r, w) == Skip(EmptyLabel) <==> !none && !unresolved && empty)
            && (Read(f, r, w).Take? <==> !none && !unresolved && !empty)
  {
    LabelIsLast(f.nodes, r.source);
    LabelIsLast(f.nodes, r.target);
  }

  /** The claim is a model's inference about the project, with the labels of its nodes and the relation's confidence.
      A liking is a preference with one value; the others are told apart by what they are about. */
  lemma TakenAsItReads(f: Frame, r: Relation, w: World)
    requires Read(f, r, w).Take?
    ensures var c := Read(f, r, w).candidate;
            && Labels(f.nodes, r.source, c.subject) && Labels(f.nodes, r.target, c.value)
            && c.project == f.project && c.confidence == r.confidence && c.scope.Project? && c.source.LlmInference?
            && c.trust.None? && c.validTo.None? && c.validFrom.Some?
            && (r.kind.Likes? ==> c.pred.family.Preference? && c.pred.name == "preference.LIKES" && c.discriminator.None?)
            && (!r.kind.Likes? ==> c.pred.family.Plain? && c.discriminator == Some(c.value))
            && (r.kind.FriendOf? ==> c.pred.name == "FRIEND_OF")
            && (r.kind.FamilyOf? ==> c.pred.name == "FAMILY_OF")
            && (r.kind.RelatedTo? ==> c.pred.name == "RELATED_TO")
  {
    LabelIsLast(f.nodes, r.source);
    LabelIsLast(f.nodes, r.target);
  }

  /** The time the claim is valid from: the relation's own start if it names one; else when its evidence happened, or
      the frame's if it has none of its own; and the clock only if that event is unknown. */
  lemma DatedByEvidence(f: Frame, r: Relation, w: World)
    requires Read(f, r, w).Take?
    ensures var at := Read(f, r, w).candidate.validFrom;
            && (r.validFrom.Some? ==> at == r.validFrom)
            && (forall e :: r.validFrom.None? && r.evidence == Some(e) ==>
                  at == Some(if e in w.occurredAt then w.occurredAt[e] else w.now))
            && (forall e :: r.validFrom.None? && r.evidence.None? && f.evidence == Some(e) ==>
                  at == Some(if e in w.occurredAt then w.occurredAt[e] else w.now))
            && (r.validFrom.None? && r.evidence.None? && f.evidence.None? ==> at == Some(w.now))
  {
    assert Read(f, r, w).candidate.validFrom == Some(DatedAt(f, r, w));
  }

  /** A claim replayed later is not dated later, as long as something dates it. */
  lemma ReplayKeepsDate(f: Frame, r: Relation, w: World, later: World)
    requires later.occurredAt == w.occurredAt && Read(f, r, w).Take?
    requires r.validFrom.Some? || (exists e :: e in w.occurredAt && (r.evidence == Some(e) || (r.evidence.None? && f.evidence == Some(e))))
    ensures Read(f, r, later) == Read(f, r, w)
  {
    DatedByEvidence(f, r, w);
    DatedByEvidence(f, r, later);
  }
}
