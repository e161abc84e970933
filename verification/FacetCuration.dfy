/** Curating the atlas graph: every eligible episode is linked to its facets, either for the whole project or
    for a batch of episodes.  The table holds the curator's active edge supports. */
module FacetCuration {
  import opened Options

  /** A facet an episode is linked to, as `facetTargetsFor` lists it. */
  datatype FacetTarget = FacetTarget(kind: string, id: string, relation: string, confidence: real)

  datatype Episode = Episode(id: nat, eligible: bool, startedAt: int, evidence: seq<nat>, targets: seq<FacetTarget>)

  datatype End = FacetEnd(kind: string, id: string) | EpisodeEnd(episode: nat)

  datatype EdgeKey = EdgeKey(source: nat, relation: string, target: End)

  datatype Support = Support(confidence: real, evidence: seq<nat>, validFrom: int)

  const BATCH := 100

  predicate SameTarget(a: FacetTarget, b: FacetTarget) {
    a.kind == b.kind && a.id == b.id && a.relation == b.relation
  }

  predicate Mentions(ts: seq<FacetTarget>, t: FacetTarget) {
    exists k :: 0 <= k < |ts| && SameTarget(ts[k], t)
  }

  /** The first target of each (type, id, relation) stays. */
  function DedupeTargets(ts: seq<FacetTarget>): seq<FacetTarget>
    decreases |ts|
  {
    if ts == [] then []
    else
      var kept, last := DedupeTargets(ts[..|ts| - 1]), ts[|ts| - 1];
      if Mentions(kept, last) then kept else kept + [last]
  }

  function KeyOf(e: Episode, t: FacetTarget): EdgeKey {
    EdgeKey(e.id, t.relation, FacetEnd(t.kind, t.id))
  }

  function Evidence(e: Episode): seq<nat> {
    if |e.evidence| <= 30 then e.evidence else e.evidence[..30]
  }

  function SupportOf(e: Episode, t: FacetTarget): Support {
    Support(t.confidence, Evidence(e), e.startedAt)
  }

  /** The supports the deduplicated targets of one episode stand for. */
  function Linked(e: Episode, ts: seq<FacetTarget>): map<EdgeKey, Support>
    decreases |ts|
  {
    if ts == [] then map[] else Linked(e, ts[..|ts| - 1])[KeyOf(e, ts[|ts| - 1]) := SupportOf(e, ts[|ts| - 1])]
  }

  function Facets(e: Episode): map<EdgeKey, Support> {
    if e.eligible then Linked(e, DedupeTargets(e.targets)) else map[]
  }

  lemma {:induction false} LinkedIsFacet(e: Episode, ts: seq<FacetTarget>)
    ensures forall k | k in Linked(e, ts) :: k.source == e.id && k.target.FacetEnd?
    decreases |ts|
  {
    if ts != [] { LinkedIsFacet(e, ts[..|ts| - 1]); }
  }

  lemma OneMoreMention(ts: seq<FacetTarget>, last: FacetTarget, t: FacetTarget)
    ensures Mentions(ts + [last], t) <==> Mentions(ts, t) || SameTarget(last, t)
  {
    var more := ts + [last];
    if Mentions(ts, t) {
      var k :| 0 <= k < |ts| && SameTarget(ts[k], t);
      assert SameTarget(more[k], t);
    }
    if SameTarget(last, t) {
      assert SameTarget(more[|ts|], t);
    }
  }

  lemma {:induction false} DedupeKeepsMentions(ts: seq<FacetTarget>, t: FacetTarget)
    ensures Mentions(DedupeTargets(ts), t) <==> Mentions(ts, t)
    decreases |ts|
  {
    if ts != [] {
      var init, last := ts[..|ts| - 1], ts[|ts| - 1];
      DedupeKeepsMentions(init, t);
      OneMoreMention(init, last, t);
      OneMoreMention(DedupeTargets(init), last, t);
      assert ts == init + [last];
    }
  }

  lemma LinkedOneMore(e: Episode, ts: seq<FacetTarget>, last: FacetTarget)
    ensures Linked(e, ts + [last]) == Linked(e, ts)[KeyOf(e, last) := SupportOf(e, last)]
  {
    assert (ts + [last])[..|ts|] == ts;
  }

  /** A facet is linked exactly if a target names it. */
  lemma {:induction false} LinkedIffMentioned(e: Episode, ts: seq<FacetTarget>, t: FacetTarget)
    ensures KeyOf(e, t) in Linked(e, DedupeTargets(ts)) <==> Mentions(ts, t)
    decreases |ts|
  {
    if ts != [] {
      var init, last := ts[..|ts| - 1], ts[|ts| - 1];
      assert ts == init + [last];
      LinkedIffMentioned(e, init, t);
      OneMoreMention(init, last, t);
      DedupeKeepsMentions(init, last);
      LinkedOneMore(e, DedupeTargets(init), last);
      if SameTarget(last, t) {
        SameMentions(init, last, t);
      }
    }
  }

  lemma SameMentions(ts: seq<FacetTarget>, t: FacetTarget, u: FacetTarget)
    requires SameTarget(t, u)
    ensures Mentions(ts, t) <==> Mentions(ts, u)
  {
    if Mentions(ts, t) {
      var k :| 0 <= k < |ts| && SameTarget(ts[k], t);
      assert SameTarget(ts[k], u);
    }
    if Mentions(ts, u) {
      var k :| 0 <= k < |ts| && SameTarget(ts[k], u);
      assert SameTarget(ts[k], t);
    }
  }

  /** The support of a facet is that of the first target that names it. */
  lemma {:induction false} FirstTargetWins(e: Episode, ts: seq<FacetTarget>, t: FacetTarget, k: nat)
    requires k < |ts| && SameTarget(ts[k], t) && forall j :: 0 <= j < k ==> !SameTarget(ts[j], t)
    ensures KeyOf(e, t) in Linked(e, DedupeTargets(ts)) && Linked(e, DedupeTargets(ts))[KeyOf(e, t)] == SupportOf(e, ts[k])
    decreases |ts|
  {
    var init, last := ts[..|ts| - 1], ts[|ts| - 1];
    DedupeKeepsMentions(init, last);
    LinkedOneMore(e, DedupeTargets(init), last);
    if SameTarget(last, t) {
      SameMentions(init, last, t);
    }
    if k < |init| {
      FirstTargetWins(e, init, t, k);
      assert SameTarget(init[k], t) && Mentions(init, t);
    }
  }

  /** Two targets for one facet: the same type, id and relation. */
  predicate ForOneFacet(t: FacetTarget, u: FacetTarget) {
    (t.kind, t.id, t.relation) == (u.kind, u.id, u.relation)
  }

  /** What an eligible episode is linked to: each facet its targets name, with the confidence of the first of them, at
      most thirty pieces of its evidence and its start.  Another episode is linked to nothing. */
  lemma FacetsAre(e: Episode, t: FacetTarget)
    ensures var key := EdgeKey(e.id, t.relation, FacetEnd(t.kind, t.id));
            && (key in Facets(e) <==> e.eligible && exists k :: 0 <= k < |e.targets| && ForOneFacet(e.targets[k], t))
            && (key in Facets(e) ==>
                  && Facets(e)[key].validFrom == e.startedAt
                  && Facets(e)[key].evidence <= e.evidence
                  && |Facets(e)[key].evidence| == if |e.evidence| < 30 then |e.evidence| else 30)
    ensures forall k: nat ::
              e.eligible && k < |e.targets| && ForOneFacet(e.targets[k], t) && (forall j :: 0 <= j < k ==> !ForOneFacet(e.targets[j], t))
              ==> Facets(e)[EdgeKey(e.id, t.relation, FacetEnd(t.kind, t.id))].confidence == e.targets[k].confidence
  {
    LinkedIffMentioned(e, e.targets, t);
    assert forall u, v :: SameTarget(u, v) <==> ForOneFacet(u, v);
    if KeyOf(e, t) in Facets(e) {
      LinkedSupports(e, DedupeTargets(e.targets), KeyOf(e, t));
    }
    forall k: nat | e.eligible && k < |e.targets| && ForOneFacet(e.targets[k], t) && forall j :: 0 <= j < k ==> !ForOneFacet(e.targets[j], t)
      ensures Facets(e)[EdgeKey(e.id, t.relation, FacetEnd(t.kind, t.id))].confidence == e.targets[k].confidence
    {
      FirstTargetWins(e, e.targets, t, k);
    }
  }

  lemma {:induction false} LinkedSupports(e: Episode, ts: seq<FacetTarget>, key: EdgeKey)
    requires key in Linked(e, ts)
    ensures Linked(e, ts)[key].validFrom == e.startedAt && Linked(e, ts)[key].evidence == Evidence(e)
  {
    var init, last := ts[..|ts| - 1], ts[|ts| - 1];
    if key != KeyOf(e, last) {
      LinkedSupports(e, init, key);
    }
  }

  /* ---------- the table ---------- */

  predicate UniqueIds(es: seq<Episode>) {
    forall i, j | 0 <= i < j < |es| :: es[i].id != es[j].id
  }

  /** Project the episodes of the list that are wanted, one after the other. */
  function ProjectAll(supports: map<EdgeKey, Support>, es: seq<Episode>, wanted: set<nat>): map<EdgeKey, Support>
    decreases |es|
  {
    if es == [] then supports
    else
      var last := es[|es| - 1];
      var before := ProjectAll(supports, es[..|es| - 1], wanted);
      if last.id in wanted then before + Facets(last) else before
  }

  predicate TouchesBatch(k: EdgeKey, batch: set<nat>) {
    k.source in batch || (k.target.EpisodeEnd? && k.target.episode in batch)
  }

  /** The first 100 distinct ids. */
  function Bounded(ids: seq<nat>): (r: seq<nat>)
    ensures |r| <= BATCH && |r| <= |ids| && forall i :: i in r ==> i in ids
    ensures |ids| <= BATCH ==> forall i :: i in r <==> i in ids
    decreases |ids|
  {
    if ids == [] then []
    else
      var before, last := Bounded(ids[..|ids| - 1]), ids[|ids| - 1];
      assert ids == ids[..|ids| - 1] + [last];
      if last in before || |before| == BATCH then before else before + [last]
  }

  function Members(ids: seq<nat>): set<nat> {
    set i | i in ids
  }

  lemma OneMoreMember(ids: seq<nat>, last: nat)
    ensures Members(ids + [last]) == Members(ids) + {last}
  {
  }

  lemma {:induction false} BoundedCounts(ids: seq<nat>)
    ensures |Members(Bounded(ids))| == |Bounded(ids)|
  {
    if ids == [] {
      assert Members(Bounded(ids)) == {};
    } else {
      BoundedCounts(ids[..|ids| - 1]);
      OneMoreMember(Bounded(ids[..|ids| - 1]), ids[|ids| - 1]);
    }
  }

  /** The batch is what a first part of the list names: all of the list if that is less than a hundred episodes, and a
      hundred otherwise. */
  lemma {:induction false} BoundedTakesFirst(ids: seq<nat>) returns (n: nat)
    ensures n <= |ids| && Members(Bounded(ids)) == Members(ids[..n])
    ensures |Members(Bounded(ids))| <= 100 && (|Members(Bounded(ids))| < 100 ==> n == |ids|)
  {
    BoundedCounts(ids);
    if ids == [] {
      n := 0;
    } else {
      var init, last := ids[..|ids| - 1], ids[|ids| - 1];
      var m := BoundedTakesFirst(init);
      BoundedCounts(init);
      if |Bounded(init)| == 100 {
        n := m;
        assert init[..m] == ids[..m];
      } else {
        n := |ids|;
        assert init[..m] == init && ids[..n] == init + [last];
        OneMoreMember(init, last);
        OneMoreMember(Bounded(init), last);
      }
    }
  }

  function IdSet(es: seq<Episode>): set<nat> {
    set e | e in es :: e.id
  }

  class GraphCurator {
    var episodes: seq<Episode>
    var supports: map<EdgeKey, Support>

    /** Upsert the facets of one row. */
    method ProjectEpisode(e: Episode)
      requires e.eligible
      modifies this`supports
      ensures supports == old(supports) + Facets(e)
    {
      var targets := DedupeTargets(e.targets);
      for k := 0 to |targets|
        invariant supports == old(supports) + Linked(e, targets[..k])
      {
        assert targets[..k + 1][..k] == targets[..k];
        supports := supports[KeyOf(e, targets[k]) := SupportOf(e, targets[k])];
      }
      assert targets[..|targets|] == targets;
    }

    /** Curate the whole project.  The episode-to-episode relations, which the source adds at the end, are the
        subject of the module on episode relations and come in as `relations`. */
    method Rebuild(relations: map<EdgeKey, Support>)
      requires forall k | k in relations :: k.target.EpisodeEnd?
      modifies this`supports
      ensures supports == ProjectAll(map[], episodes, IdSet(episodes)) + relations
    {
      supports := map[];
      for n := 0 to |episodes|
        invariant supports == ProjectAll(map[], episodes[..n], IdSet(episodes))
      {
        assert episodes[..n + 1][..n] == episodes[..n];
        if episodes[n].eligible {
          ProjectEpisode(episodes[n]);
        } else {
          assert supports + map[] == supports;
        }
      }
      assert episodes[..|episodes|] == episodes;
      supports := supports + relations;
    }

    /** Curate a batch: drop every edge that touches it, then project its eligible episodes again. */
    method RebuildEpisodes(ids: seq<nat>)
      modifies this`supports
      ensures var batch := set i | i in Bounded(ids);
              supports == if batch == {} then old(supports)
                          else ProjectAll((map k | k in old(supports) && !TouchesBatch(k, batch) :: old(supports)[k]), episodes, batch)
    {
      var bounded := Bounded(ids);
      var batch := set i | i in bounded;
      if bounded == [] {
        return;
      }
      assert bounded[0] in batch;
      supports := map k | k in supports && !TouchesBatch(k, batch) :: supports[k];
      ghost var cleared := supports;
      for n := 0 to |episodes|
        invariant supports == ProjectAll(cleared, episodes[..n], batch)
      {
        assert episodes[..n + 1][..n] == episodes[..n];
        if episodes[n].id in batch {
          if episodes[n].eligible {
            ProjectEpisode(episodes[n]);
          } else {
            assert supports + map[] == supports;
          }
        }
      }
      assert episodes[..|episodes|] == episodes;
    }
  }

  /* ---------- incremental agrees with full ---------- */

  function Get(m: map<EdgeKey, Support>, k: EdgeKey): Option<Support> {
    if k in m then Some(m[k]) else None
  }

  /** What a list of episodes says about an edge. */
  function Wanted(es: seq<Episode>, k: EdgeKey): Option<Support>
    decreases |es|
  {
    if es == [] then None
    else if es[|es| - 1].id == k.source then Get(Facets(es[|es| - 1]), k)
    else Wanted(es[..|es| - 1], k)
  }

  lemma {:induction false} ProjectedEdge(supports: map<EdgeKey, Support>, es: seq<Episode>, wanted: set<nat>, k: EdgeKey)
    requires UniqueIds(es)
    ensures var r := ProjectAll(supports, es, wanted);
            Get(r, k) == if k.source in wanted && Wanted(es, k).Some? then Wanted(es, k) else Get(supports, k)
    decreases |es|
  {
    if es != [] {
      var init, last := es[..|es| - 1], es[|es| - 1];
      ProjectedEdge(supports, init, wanted, k);
      LinkedIsFacet(last, DedupeTargets(last.targets));
      if last.id == k.source {
        NotListed(init, k);
      }
    }
  }

  lemma {:induction false} NotListed(es: seq<Episode>, k: EdgeKey)
    requires forall i | 0 <= i < |es| :: es[i].id != k.source
    ensures Wanted(es, k) == None
    decreases |es|
  {
    if es != [] { NotListed(es[..|es| - 1], k); }
  }

  lemma {:induction false} WantedIsFacet(es: seq<Episode>, k: EdgeKey)
    ensures Wanted(es, k).Some? ==> k.target.FacetEnd? && k.source in IdSet(es)
    decreases |es|
  {
    if es != [] {
      var init, last := es[..|es| - 1], es[|es| - 1];
      WantedIsFacet(init, k);
      LinkedIsFacet(last, DedupeTargets(last.targets));
      assert last in es && forall e | e in init :: e in es;
    }
  }

  function FacetPart(supports: map<EdgeKey, Support>): map<EdgeKey, Support> {
    map k | k in supports && k.target.FacetEnd? :: supports[k]
  }

  /** Outside the batch the stored facet edges are those a projection would write now. */
  ghost predicate UpToDateOutside(supports: map<EdgeKey, Support>, es: seq<Episode>, batch: set<nat>) {
    forall k: EdgeKey | k.target.FacetEnd? && k.source !in batch :: Get(supports, k) == Wanted(es, k)
  }

  function Cleared(supports: map<EdgeKey, Support>, batch: set<nat>): map<EdgeKey, Support> {
    map k | k in supports && !TouchesBatch(k, batch) :: supports[k]
  }

  lemma FullAt(es: seq<Episode>, relations: map<EdgeKey, Support>, k: EdgeKey)
    requires UniqueIds(es) && k.target.FacetEnd? && forall k | k in relations :: k.target.EpisodeEnd?
    ensures Get(ProjectAll(map[], es, IdSet(es)) + relations, k) == Wanted(es, k)
  {
    ProjectedEdge(map[], es, IdSet(es), k);
    WantedIsFacet(es, k);
  }

  lemma IncrementalAt(supports: map<EdgeKey, Support>, es: seq<Episode>, batch: set<nat>, k: EdgeKey)
    requires UniqueIds(es) && k.target.FacetEnd?
    ensures Get(ProjectAll(Cleared(supports, batch), es, batch), k) == if k.source in batch then Wanted(es, k) else Get(supports, k)
  {
    ProjectedEdge(Cleared(supports, batch), es, batch, k);
  }

  /** Curating a batch incrementally leaves the same episode-to-facet edges as curating everything, exactly when
      the edges of the episodes outside the batch were up to date before. */
  lemma IncrementalMatchesFull(supports: map<EdgeKey, Support>, es: seq<Episode>, batch: set<nat>,
                               relations: map<EdgeKey, Support>)
    requires UniqueIds(es) && forall k | k in relations :: k.target.EpisodeEnd?
    ensures FacetPart(ProjectAll(Cleared(supports, batch), es, batch)) == FacetPart(ProjectAll(map[], es, IdSet(es)) + relations)
            <==> UpToDateOutside(supports, es, batch)
  {
    var one, all := ProjectAll(Cleared(supports, batch), es, batch), ProjectAll(map[], es, IdSet(es)) + relations;
    forall k: EdgeKey | k.target.FacetEnd?
      ensures Get(FacetPart(all), k) == Wanted(es, k)
      ensures Get(FacetPart(one), k) == if k.source in batch then Wanted(es, k) else Get(supports, k)
    {
      FullAt(es, relations, k);
      IncrementalAt(supports, es, batch, k);
    }
    if UpToDateOutside(supports, es, batch) {
      forall k
        ensures Get(FacetPart(one), k) == Get(FacetPart(all), k)
      {
      }
      SameMaps(FacetPart(one), FacetPart(all));
    }
  }

  lemma SameMaps(m: map<EdgeKey, Support>, n: map<EdgeKey, Support>)
    requires forall k :: Get(m, k) == Get(n, k)
    ensures m == n
  {
    forall k
      ensures k in m <==> k in n
    {
      assert Get(m, k) == Get(n, k);
    }
    forall k | k in m
      ensures m[k] == n[k]
    {
      assert Get(m, k) == Get(n, k);
    }
  }

  /** What the incremental path loses: every episode-to-episode relation that touches the batch, and only those. */
  lemma IncrementalDropsRelations(supports: map<EdgeKey, Support>, es: seq<Episode>, batch: set<nat>, k: EdgeKey)
    requires UniqueIds(es) && k.target.EpisodeEnd?
    ensures k in ProjectAll(Cleared(supports, batch), es, batch) <==>
            k in supports && k.source !in batch && k.target.episode !in batch
  {
    ProjectedEdge(Cleared(supports, batch), es, batch, k);
    WantedIsFacet(es, k);
    assert Get(ProjectAll(Cleared(supports, batch), es, batch), k) == Get(Cleared(supports, batch), k);
  }

  /** Two related episodes, one of them curated again: the relation is gone. */
  lemma RelationOfBatchIsLost()
    ensures var es := [Episode(1, true, 0, [], []), Episode(2, true, 1, [], [])];
            var k := EdgeKey(2, "FOLLOWS_UP", EpisodeEnd(1));
            var supports := map[k := Support(0.8, [], 1)];
            k in supports && k !in ProjectAll(Cleared(supports, {1}), es, {1})
  {
    var es := [Episode(1, true, 0, [], []), Episode(2, true, 1, [], [])];
    var k := EdgeKey(2, "FOLLOWS_UP", EpisodeEnd(1));
    IncrementalDropsRelations(map[k := Support(0.8, [], 1)], es, {1}, k);
  }

  /* ---------- over runs ---------- */

  datatype Event =
    | Edit(episodes: seq<Episode>)
    | CurateAll(relations: map<EdgeKey, Support>)
    | CurateBatch(ids: seq<nat>)

  /** `due` are the episodes edited since they were last curated. */
  datatype Curation = Curation(episodes: seq<Episode>, supports: map<EdgeKey, Support>, due: set<nat>)

  function Find(es: seq<Episode>, id: nat): Option<Episode> {
    if es == [] then None else if es[|es| - 1].id == id then Some(es[|es| - 1]) else Find(es[..|es| - 1], id)
  }

  function Changed(es: seq<Episode>, later: seq<Episode>): set<nat> {
    set id | id in IdSet(es) + IdSet(later) && Find(es, id) != Find(later, id)
  }

  function Batch(ids: seq<nat>): set<nat> {
    set i | i in Bounded(ids)
  }

  function Step(c: Curation, e: Event): Curation {
    match e
    case Edit(es) => if UniqueIds(es) then Curation(es, c.supports, c.due + Changed(c.episodes, es)) else c
    case CurateAll(relations) =>
      if forall k | k in relations :: k.target.EpisodeEnd?
      then Curation(c.episodes, ProjectAll(map[], c.episodes, IdSet(c.episodes)) + relations, {})
      else c
    case CurateBatch(ids) =>
      if Batch(ids) == {} then c
      else Curation(c.episodes, ProjectAll(Cleared(c.supports, Batch(ids)), c.episodes, Batch(ids)), c.due - Batch(ids))
  }

  function Run(events: seq<Event>): Curation {
    if events == [] then Curation([], map[], {}) else Step(Run(events[..|events| - 1]), events[|events| - 1])
  }

  /** The edit replaces what is stored for the episode. */
  predicate Rewrites(c: Curation, e: Event, id: nat) {
    e.Edit? && UniqueIds(e.episodes) && Find(c.episodes, id) != Find(e.episodes, id)
  }

  predicate Curates(e: Event, id: nat) {
    || (e.CurateAll? && forall k | k in e.relations :: k.target.EpisodeEnd?)
    || (e.CurateBatch? && id in Bounded(e.ids))
  }

  /** The last edit of the episode is event `m`, and it has not been curated since. */
  ghost predicate AwaitsSince(events: seq<Event>, id: nat, m: nat) {
    m < |events| && Rewrites(Run(events[..m]), events[m], id) && forall j :: m < j < |events| ==> !Curates(events[j], id)
  }

  lemma StepsDue(c: Curation, e: Event, id: nat)
    ensures id in Step(c, e).due <==> Rewrites(c, e, id) || (id in c.due && !Curates(e, id))
  {
    FoundIsListed(c.episodes, id);
    if e.Edit? {
      FoundIsListed(e.episodes, id);
    }
  }

  ghost predicate Awaits(events: seq<Event>, id: nat) {
    exists m :: AwaitsSince(events, id, m)
  }

  lemma AwaitsLonger(init: seq<Event>, e: Event, id: nat)
    ensures Awaits(init, id) && !Curates(e, id) ==> Awaits(init + [e], id)
    ensures Rewrites(Run(init), e, id) ==> Awaits(init + [e], id)
  {
    var events := init + [e];
    if Awaits(init, id) && !Curates(e, id) {
      var m: nat :| AwaitsSince(init, id, m);
      assert events[..m] == init[..m] && AwaitsSince(events, id, m);
    }
    if Rewrites(Run(init), e, id) {
      assert events[..|init|] == init && AwaitsSince(events, id, |init|);
    }
  }

  lemma AwaitedBefore(init: seq<Event>, e: Event, id: nat)
    requires Awaits(init + [e], id)
    ensures Rewrites(Run(init), e, id) || (Awaits(init, id) && !Curates(e, id))
  {
    var events := init + [e];
    var m: nat :| AwaitsSince(events, id, m);
    if m < |init| {
      assert events[..m] == init[..m] && events[|init|] == e;
      assert forall j :: m < j < |init| ==> events[j] == init[j];
      assert AwaitsSince(init, id, m);
    } else {
      assert events[..m] == init;
    }
  }

  /** An episode is due exactly if some edit of it has not been followed by a curation of it. */
  lemma {:induction false} DueIff(events: seq<Event>, id: nat)
    ensures id in Run(events).due <==> Awaits(events, id)
  {
    if events != [] {
      var init, e := events[..|events| - 1], events[|events| - 1];
      DueIff(init, id);
      StepsDue(Run(init), e, id);
      AwaitsLonger(init, e, id);
      assert events == init + [e];
      if Awaits(events, id) {
        AwaitedBefore(init, e, id);
      }
    }
  }

  lemma {:induction false} WantedByFind(es: seq<Episode>, k: EdgeKey)
    ensures Wanted(es, k) == match Find(es, k.source) case None => None case Some(e) => Get(Facets(e), k)
  {
    if es == [] {
    } else {
      WantedByFind(es[..|es| - 1], k);
    }
  }

  lemma {:induction false} FoundIsListed(es: seq<Episode>, id: nat)
    ensures Find(es, id).Some? ==> id in IdSet(es)
  {
    if es == [] {
    } else {
      FoundIsListed(es[..|es| - 1], id);
      assert forall e | e in es[..|es| - 1] :: e in es;
      assert es[|es| - 1] in es;
    }
  }

  ghost predicate Fresh(c: Curation) {
    UniqueIds(c.episodes) && UpToDateOutside(c.supports, c.episodes, c.due)
  }

  lemma EditKeepsFresh(c: Curation, es: seq<Episode>)
    requires Fresh(c) && UniqueIds(es)
    ensures Fresh(Step(c, Edit(es)))
  {
    forall k: EdgeKey | k.target.FacetEnd? && k.source !in c.due + Changed(c.episodes, es)
      ensures Get(c.supports, k) == Wanted(es, k)
    {
      FoundIsListed(c.episodes, k.source);
      FoundIsListed(es, k.source);
      WantedByFind(c.episodes, k);
      WantedByFind(es, k);
    }
  }

  lemma CurationKeepsFresh(c: Curation, e: Event)
    requires Fresh(c) && !e.Edit?
    ensures Fresh(Step(c, e))
  {
    var after := Step(c, e);
    if after != c {
      forall k: EdgeKey | k.target.FacetEnd? && k.source !in after.due
        ensures Get(after.supports, k) == Wanted(after.episodes, k)
      {
        match e {
          case CurateAll(relations) => FullAt(c.episodes, relations, k);
          case CurateBatch(ids) => IncrementalAt(c.supports, c.episodes, Batch(ids), k);
        }
      }
    }
  }

  lemma {:induction false} RunStaysFresh(events: seq<Event>)
    ensures Fresh(Run(events))
  {
    if events == [] {
    } else {
      var before, e := Run(events[..|events| - 1]), events[|events| - 1];
      RunStaysFresh(events[..|events| - 1]);
      match e {
        case Edit(es) => if UniqueIds(es) { EditKeepsFresh(before, es); }
        case _ => CurationKeepsFresh(before, e);
      }
    }
  }

  /** Over any run of edits, full and incremental curations: as soon as every edited episode has been in a batch (of
      which only the first 100 distinct ids count) or a full curation has run, the facet edges are those of a full
      curation now. */
  lemma CaughtUpMatchesFull(events: seq<Event>)
    requires Run(events).due == {}
    ensures var c := Run(events);
            FacetPart(c.supports) == FacetPart(ProjectAll(map[], c.episodes, IdSet(c.episodes)))
  {
    var c := Run(events);
    RunStaysFresh(events);
    var all := ProjectAll(map[], c.episodes, IdSet(c.episodes));
    assert all + map[] == all;
    forall k ensures Get(FacetPart(c.supports), k) == Get(FacetPart(all), k) {
      if k.target.FacetEnd? {
        FullAt(c.episodes, map[], k);
      }
    }
    SameMaps(FacetPart(c.supports), FacetPart(all));
  }
}
