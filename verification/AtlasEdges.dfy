/** Edges of the memory atlas, what they cost, and walks over them. */
module AtlasEdges {
  import opened Options

  type NodeId = nat

  datatype Edge = Edge(source: NodeId, relation: string, target: NodeId, confidence: real)

  /** What a query sees: the rows the store lists for a node and for a node and the target, the nodes it shows,
      and the negated logarithm on confidences. */
  datatype Atlas = Atlas(adjacent: NodeId -> seq<Edge>, direct: NodeId -> seq<Edge>, shows: NodeId -> bool,
                         target: NodeId, negLog: real -> real)

  /** The only fact used about the logarithm: it is not positive on (0, 1]. */
  ghost predicate Logarithmic(g: Atlas) {
    forall x: real | 0.01 <= x <= 1.0 :: g.negLog(x) >= 0.0
  }

  function RelationPenalty(relation: string): real {
    if relation in {"EVIDENCED_BY", "DERIVED_FROM", "TARGETS", "OCCURRED_IN", "SUPPORTS", "ABOUT", "MENTIONS"} then 0.0
    else if relation in {"CONTRADICTS", "CORRECTS"} then 0.2
    else 0.1
  }

  function ClampedConfidence(e: Edge): real {
    var capped := if e.confidence < 1.0 then e.confidence else 1.0;
    if capped > 0.01 then capped else 0.01
  }

  function EdgeTraversalCost(g: Atlas, e: Edge): real {
    g.negLog(ClampedConfidence(e)) + 0.12 + RelationPenalty(e.relation)
  }

  lemma CostIsPositive(g: Atlas, e: Edge)
    requires Logarithmic(g)
    ensures EdgeTraversalCost(g, e) >= 0.12
  {
    assert 0.01 <= ClampedConfidence(e) <= 1.0;
  }

  predicate SameKey(d: Edge, e: Edge) {
    d.source == e.source && d.relation == e.relation && d.target == e.target
  }

  /** Insertion into a map that keeps first-insertion order and the last value. */
  function PutEdge(kept: seq<Edge>, e: Edge): seq<Edge>
    decreases |kept|
  {
    if kept == [] then [e]
    else if SameKey(kept[0], e) then [e] + kept[1..]
    else [kept[0]] + PutEdge(kept[1..], e)
  }

  function UniqueEdges(edges: seq<Edge>): seq<Edge>
    decreases |edges|
  {
    if edges == [] then [] else PutEdge(UniqueEdges(edges[..|edges| - 1]), edges[|edges| - 1])
  }

  lemma {:induction false} PutEdgeRows(kept: seq<Edge>, e: Edge)
    requires forall i, j | 0 <= i < j < |kept| :: !SameKey(kept[i], kept[j])
    ensures var r := PutEdge(kept, e);
            && (forall i, j | 0 <= i < j < |r| :: !SameKey(r[i], r[j]))
            && forall d :: d in r <==> d == e || (d in kept && !SameKey(d, e))
    decreases |kept|
  {
    if kept != [] {
      var rest := kept[1..];
      assert kept == [kept[0]] + rest;
      assert forall j | 0 <= j < |rest| :: rest[j] == kept[j + 1];
      if !SameKey(kept[0], e) {
        PutEdgeRows(rest, e);
        var tail := PutEdge(rest, e);
        forall j | 0 <= j < |tail|
          ensures !SameKey(kept[0], tail[j])
        {
          assert tail[j] in tail;
          if tail[j] != e {
            assert tail[j] in rest;
            var k :| 0 <= k < |rest| && rest[k] == tail[j];
            assert !SameKey(kept[0], kept[k + 1]);
          }
        }
      }
    }
  }

  /** What the store identifies an edge by. */
  function Identity(e: Edge): (NodeId, string, NodeId) {
    (e.source, e.relation, e.target)
  }

  /** `d` is the last row of its identity. */
  predicate LastOfKey(edges: seq<Edge>, k: nat, d: Edge) {
    k < |edges| && edges[k] == d && forall l | k < l < |edges| :: Identity(edges[l]) != Identity(d)
  }

  lemma {:induction false} UniqueEdgesDistinct(edges: seq<Edge>)
    ensures forall i, j | 0 <= i < j < |UniqueEdges(edges)| :: Identity(UniqueEdges(edges)[i]) != Identity(UniqueEdges(edges)[j])
    decreases |edges|
  {
    if edges != [] {
      UniqueEdgesDistinct(edges[..|edges| - 1]);
      PutEdgeRows(UniqueEdges(edges[..|edges| - 1]), edges[|edges| - 1]);
    }
  }

  /** One edge per (source, relation, target) survives, and it is the last one listed. */
  lemma {:induction false} UniqueEdgesKeepLast(edges: seq<Edge>, d: Edge)
    ensures d in UniqueEdges(edges) <==> exists k :: LastOfKey(edges, k, d)
    decreases |edges|
  {
    if edges != [] {
      var init, last := edges[..|edges| - 1], edges[|edges| - 1];
      UniqueEdgesKeepLast(init, d);
      UniqueEdgesDistinct(init);
      PutEdgeRows(UniqueEdges(init), last);
      LastOfKeyStep(init, last, d);
      assert edges == init + [last];
    }
  }

  lemma LastOfKeyStep(init: seq<Edge>, last: Edge, d: Edge)
    ensures (exists k :: LastOfKey(init + [last], k, d)) <==> d == last || ((exists k :: LastOfKey(init, k, d)) && !SameKey(d, last))
  {
    var edges := init + [last];
    if k: nat :| LastOfKey(init, k, d) && !SameKey(d, last) {
      assert LastOfKey(edges, k, d);
    }
    if d == last {
      assert LastOfKey(edges, |init|, d);
    }
    if k: nat :| LastOfKey(edges, k, d) && k < |init| {
      assert Identity(edges[|init|]) != Identity(d);
      assert forall l | k < l < |init| :: init[l] == edges[l];
      assert LastOfKey(init, k, d);
    }
  }

  ghost predicate HasIdentity(edges: seq<Edge>, d: Edge) {
    exists i :: 0 <= i < |edges| && Identity(edges[i]) == Identity(d)
  }

  /** A row takes the place of the one with its identity, or goes to the end. */
  lemma {:induction false} PutEdgePlace(kept: seq<Edge>, e: Edge)
    ensures var r := PutEdge(kept, e);
            if HasIdentity(kept, e) then
              |r| == |kept| && forall i | 0 <= i < |r| :: Identity(r[i]) == Identity(kept[i])
            else r == kept + [e]
    decreases |kept|
  {
    if kept != [] && !SameKey(kept[0], e) {
      PutEdgePlace(kept[1..], e);
      if i :| 0 <= i < |kept| && Identity(kept[i]) == Identity(e) {
        assert kept[1..][i - 1] == kept[i];
      }
    }
  }

  /** A row of the one identity is listed before any of the other. */
  ghost predicate ListedBefore(edges: seq<Edge>, d: Edge, e: Edge) {
    exists p ::
      && 0 <= p < |edges| && Identity(edges[p]) == Identity(d)
      && forall q | 0 <= q <= p :: Identity(edges[q]) != Identity(e)
  }

  lemma PutKeepsIdentity(kept: seq<Edge>, e: Edge, d: Edge)
    requires HasIdentity(kept, d) || Identity(d) == Identity(e)
    ensures HasIdentity(PutEdge(kept, e), d)
  {
    PutEdgePlace(kept, e);
    var r := PutEdge(kept, e);
    if HasIdentity(kept, d) {
      var i :| 0 <= i < |kept| && Identity(kept[i]) == Identity(d);
      assert Identity(r[i]) == Identity(d);
    } else {
      assert r[|kept|] == e;
    }
  }

  lemma {:induction false} EveryIdentityKept(edges: seq<Edge>, q: nat)
    requires q < |edges|
    ensures HasIdentity(UniqueEdges(edges), edges[q])
    decreases |edges|
  {
    var init, last := edges[..|edges| - 1], edges[|edges| - 1];
    if q < |init| {
      EveryIdentityKept(init, q);
    }
    PutKeepsIdentity(UniqueEdges(init), last, edges[q]);
  }

  lemma ListedBeforeLonger(init: seq<Edge>, last: Edge, d: Edge, e: Edge)
    requires ListedBefore(init, d, e)
    ensures ListedBefore(init + [last], d, e)
  {
    var p :| 0 <= p < |init| && Identity(init[p]) == Identity(d) && forall q | 0 <= q <= p :: Identity(init[q]) != Identity(e);
    assert (init + [last])[p] == init[p];
  }

  lemma ListedBeforeLast(init: seq<Edge>, last: Edge, d: Edge)
    requires d in UniqueEdges(init)
    requires !HasIdentity(UniqueEdges(init), last)
    ensures ListedBefore(init + [last], d, last)
  {
    UniqueEdgesKeepLast(init, d);
    var k: nat :| LastOfKey(init, k, d);
    forall q | 0 <= q <= k ensures Identity((init + [last])[q]) != Identity(last) {
      EveryIdentityKept(init, q);
    }
    assert Identity((init + [last])[k]) == Identity(d);
  }

  ghost predicate SameIdentity(d: Edge, e: Edge) {
    Identity(d) == Identity(e)
  }

  lemma ListedBeforeAlike(edges: seq<Edge>, d: Edge, e: Edge, d': Edge, e': Edge)
    requires ListedBefore(edges, d, e) && SameIdentity(d, d') && SameIdentity(e, e')
    ensures ListedBefore(edges, d', e')
  {
  }

  /** The survivors stand in the order in which their identities are first listed. */
  lemma {:induction false} UniqueEdgesInOrder(edges: seq<Edge>, i: nat, j: nat)
    requires i < j < |UniqueEdges(edges)|
    ensures ListedBefore(edges, UniqueEdges(edges)[i], UniqueEdges(edges)[j])
    decreases |edges|
  {
    var init, last := edges[..|edges| - 1], edges[|edges| - 1];
    var before, after := UniqueEdges(init), UniqueEdges(edges);
    assert edges == init + [last];
    PutEdgePlace(before, last);
    if j < |before| {
      UniqueEdgesInOrder(init, i, j);
      ListedBeforeLonger(init, last, before[i], before[j]);
      ListedBeforeAlike(edges, before[i], before[j], after[i], after[j]);
    } else {
      ListedBeforeLast(init, last, before[i]);
    }
  }

  /* ---------- walks ---------- */

  function EdgesAt(g: Atlas, u: NodeId): seq<Edge> {
    UniqueEdges(g.adjacent(u) + g.direct(u))
  }

  function OtherEnd(e: Edge, u: NodeId): Option<NodeId> {
    if e.source == u then Some(e.target) else if e.target == u then Some(e.source) else None
  }

  /** The edge leads from `u` to a node the search may enter: the target, or a node the store shows. */
  predicate Leads(g: Atlas, u: NodeId, e: Edge, v: NodeId) {
    OtherEnd(e, u) == Some(v) && (v == g.target || g.shows(v))
  }

  predicate Arc(g: Atlas, u: NodeId, e: Edge, v: NodeId) {
    e in EdgesAt(g, u) && Leads(g, u, e, v)
  }

  /** What may be walked over from a node: the last row of each edge listed for it, from either end to the other, if that
      is the target or a node the store shows. */
  lemma ArcIff(g: Atlas, u: NodeId, e: Edge, v: NodeId)
    ensures Arc(g, u, e, v) <==>
            && (exists k :: LastOfKey(g.adjacent(u) + g.direct(u), k, e))
            && ((e.source == u && e.target == v) || (e.target == u && e.source == v))
            && (v == g.target || g.shows(v))
  {
    UniqueEdgesKeepLast(g.adjacent(u) + g.direct(u), e);
  }

  predicate IsWalk(g: Atlas, nodes: seq<NodeId>, edges: seq<Edge>) {
    |nodes| == |edges| + 1 && forall i | 0 <= i < |edges| :: Arc(g, nodes[i], edges[i], nodes[i + 1])
  }

  predicate WalkTo(g: Atlas, start: NodeId, v: NodeId, nodes: seq<NodeId>, edges: seq<Edge>) {
    IsWalk(g, nodes, edges) && nodes[0] == start && nodes[|nodes| - 1] == v
  }

  predicate Simple(nodes: seq<NodeId>) {
    forall i, j | 0 <= i < j < |nodes| :: nodes[i] != nodes[j]
  }

  function Cost(g: Atlas, edges: seq<Edge>): real
    decreases |edges|
  {
    if edges == [] then 0.0 else Cost(g, edges[..|edges| - 1]) + EdgeTraversalCost(g, edges[|edges| - 1])
  }

  lemma {:induction false} CostOfPrefix(g: Atlas, edges: seq<Edge>, n: nat)
    requires Logarithmic(g) && n <= |edges|
    ensures 0.0 <= Cost(g, edges[..n]) <= Cost(g, edges)
    decreases |edges|
  {
    if n == |edges| {
      assert edges[..n] == edges;
      if edges != [] {
        CostOfPrefix(g, edges[..n - 1], n - 1);
        assert edges[..n - 1][..n - 1] == edges[..n - 1];
        CostIsPositive(g, edges[n - 1]);
      }
    } else {
      CostOfPrefix(g, edges[..|edges| - 1], n);
      assert edges[..|edges| - 1][..n] == edges[..n];
      CostIsPositive(g, edges[|edges| - 1]);
    }
  }

  lemma {:induction false} CostOfSplit(g: Atlas, front: seq<Edge>, back: seq<Edge>)
    ensures Cost(g, front + back) == Cost(g, front) + Cost(g, back)
    decreases |back|
  {
    if back == [] {
      assert front + back == front;
    } else {
      var last := |back| - 1;
      CostOfSplit(g, front, back[..last]);
      assert (front + back)[..|front + back| - 1] == front + back[..last];
    }
  }

  /* ---------- which walks are cheap ---------- */

  predicate Avoids(nodes: seq<NodeId>, cut: set<NodeId>) {
    forall n | n in nodes :: n !in cut
  }

  /** No walk to the target that passes no cut node costs less. */
  ghost predicate CheapestAvoiding(g: Atlas, start: NodeId, cost: real, cut: set<NodeId>) {
    forall nodes, edges | WalkTo(g, start, g.target, nodes, edges) && Avoids(nodes, cut) :: cost <= Cost(g, edges)
  }

  /** Every walk to the target passes a cut node. */
  ghost predicate OnlyThrough(g: Atlas, start: NodeId, cut: set<NodeId>) {
    forall nodes, edges | WalkTo(g, start, g.target, nodes, edges) :: !Avoids(nodes, cut)
  }

  /** The three classes of relations, from the most direct to the most doubtful. */
  function RelationRank(relation: string): nat {
    if relation == "CONTRADICTS" || relation == "CORRECTS" then 2
    else if relation == "EVIDENCED_BY" || relation == "DERIVED_FROM" || relation == "TARGETS" || relation == "OCCURRED_IN"
            || relation == "SUPPORTS" || relation == "ABOUT" || relation == "MENTIONS" then 0
    else 1
  }

  /** A logarithm proper: nothing at one, and larger the smaller the confidence. */
  ghost predicate FallingLog(g: Atlas) {
    g.negLog(1.0) == 0.0 && forall x: real, y: real | 0.01 <= x < y <= 1.0 :: g.negLog(x) > g.negLog(y)
  }

  lemma FallingIsLogarithmic(g: Atlas)
    requires FallingLog(g)
    ensures Logarithmic(g)
  {
  }

  /** Edges of a walk in the given class. */
  function OfRank(edges: seq<Edge>, rank: nat): nat {
    if edges == [] then 0 else OfRank(edges[..|edges| - 1], rank) + if RelationRank(edges[|edges| - 1].relation) == rank then 1 else 0
  }

  predicate AllSure(edges: seq<Edge>) {
    forall e | e in edges :: e.confidence >= 1.0
  }

  /** What a walk over certain edges weighs: its hops, and a tenth for each edge of the middle class, two for the last. */
  function Weight(edges: seq<Edge>): real {
    0.12 * |edges| as real + 0.1 * OfRank(edges, 1) as real + 0.2 * OfRank(edges, 2) as real
  }

  /** Confidences below one percent count as one percent, those above one as one. */
  function Counted(confidence: real): real {
    if confidence < 0.01 then 0.01 else if confidence > 1.0 then 1.0 else confidence
  }

  /** The doubt of a walk: the negated logarithm of the product of its confidences. */
  function Doubt(g: Atlas, edges: seq<Edge>): real {
    if edges == [] then 0.0 else Doubt(g, edges[..|edges| - 1]) + g.negLog(Counted(edges[|edges| - 1].confidence))
  }

  /** A walk costs its weight and its doubt. */
  lemma {:induction false} WalkCosts(g: Atlas, edges: seq<Edge>)
    ensures Cost(g, edges) == Weight(edges) + Doubt(g, edges)
    decreases |edges|
  {
    if edges == [] {
    } else {
      WalkCosts(g, edges[..|edges| - 1]);
      assert ClampedConfidence(edges[|edges| - 1]) == Counted(edges[|edges| - 1].confidence);
    }
  }

  lemma {:induction false} SureWalkCosts(g: Atlas, edges: seq<Edge>)
    requires g.negLog(1.0) == 0.0 && AllSure(edges)
    ensures Cost(g, edges) == Weight(edges)
    decreases |edges|
  {
    WalkCosts(g, edges);
    if edges == [] {
    } else {
      var init, last := edges[..|edges| - 1], edges[|edges| - 1];
      assert last in edges && forall e | e in init :: e in edges;
      SureWalkCosts(g, init);
      WalkCosts(g, init);
    }
  }

  /** Among walks over certain edges, none that passes no cut node has a smaller weight. */
  ghost predicate Lightest(g: Atlas, start: NodeId, edges: seq<Edge>, cut: set<NodeId>) {
    forall nodes, other | WalkTo(g, start, g.target, nodes, other) && Avoids(nodes, cut) && AllSure(other) :: Weight(edges) <= Weight(other)
  }

  lemma CheapestIsLightest(g: Atlas, start: NodeId, edges: seq<Edge>, cut: set<NodeId>)
    requires g.negLog(1.0) == 0.0 && AllSure(edges) && CheapestAvoiding(g, start, Cost(g, edges), cut)
    ensures Lightest(g, start, edges, cut)
  {
    SureWalkCosts(g, edges);
    forall nodes, other | WalkTo(g, start, g.target, nodes, other) && Avoids(nodes, cut) && AllSure(other)
      ensures Weight(edges) <= Weight(other)
    {
      SureWalkCosts(g, other);
    }
  }

  /** `d` is of a better class and counts for no less, or of no worse class and counts for more. */
  predicate Better(d: Edge, e: Edge) {
    || (RelationRank(d.relation) < RelationRank(e.relation) && Counted(d.confidence) >= Counted(e.confidence))
    || (RelationRank(d.relation) <= RelationRank(e.relation) && Counted(d.confidence) > Counted(e.confidence))
  }

  /** Better edges cost less; equal class and equal counted confidence cost the same. */
  lemma BetterCostsLess(g: Atlas, d: Edge, e: Edge)
    requires FallingLog(g)
    ensures Better(d, e) ==> EdgeTraversalCost(g, d) < EdgeTraversalCost(g, e)
    ensures RelationRank(d.relation) == RelationRank(e.relation) && Counted(d.confidence) == Counted(e.confidence) ==>
              EdgeTraversalCost(g, d) == EdgeTraversalCost(g, e)
  {
    var x, y := Counted(d.confidence), Counted(e.confidence);
    assert 0.01 <= x <= 1.0 && 0.01 <= y <= 1.0;
    assert x > y ==> g.negLog(y) > g.negLog(x);
  }

  /** No edge of the walk has a better one beside it. */
  ghost predicate NoBetterParallel(g: Atlas, nodes: seq<NodeId>, edges: seq<Edge>)
    requires |nodes| == |edges| + 1
  {
    forall i, d | 0 <= i < |edges| && Arc(g, nodes[i], d, nodes[i + 1]) :: !Better(d, edges[i])
  }

  lemma {:induction false} CostOfExchange(g: Atlas, edges: seq<Edge>, i: nat, d: Edge)
    requires i < |edges|
    ensures Cost(g, edges[i := d]) == Cost(g, edges) - EdgeTraversalCost(g, edges[i]) + EdgeTraversalCost(g, d)
    decreases |edges|
  {
    var last := |edges| - 1;
    if i == last {
      assert edges[i := d][..last] == edges[..last];
    } else {
      CostOfExchange(g, edges[..last], i, d);
      assert edges[i := d][..last] == edges[..last][i := d];
    }
  }

  lemma CheapestHasNoBetterParallel(g: Atlas, start: NodeId, nodes: seq<NodeId>, edges: seq<Edge>, cut: set<NodeId>)
    requires FallingLog(g) && WalkTo(g, start, g.target, nodes, edges) && Avoids(nodes, cut)
    requires CheapestAvoiding(g, start, Cost(g, edges), cut)
    ensures NoBetterParallel(g, nodes, edges)
  {
    forall i, d | 0 <= i < |edges| && Arc(g, nodes[i], d, nodes[i + 1])
      ensures !Better(d, edges[i])
    {
      CostOfExchange(g, edges, i, d);
      BetterCostsLess(g, d, edges[i]);
      assert WalkTo(g, start, g.target, nodes, edges[i := d]);
    }
  }
}
