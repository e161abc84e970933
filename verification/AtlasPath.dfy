/** The least-cost path search of the memory atlas: a best-first search over undirected edges with a hop cap,
    an expansion cap, and a queue that keeps stale entries. */
module AtlasPath {
  import opened AtlasEdges
  import opened Options

  const MAX_EXPANSIONS := 2000

  /* ---------- the queue ---------- */

  datatype Entry = Entry(id: NodeId, cost: real, hops: nat)

  predicate NotAfter(a: Entry, b: Entry) {
    a.cost < b.cost || (a.cost == b.cost && a.hops <= b.hops)
  }

  predicate Sorted(q: seq<Entry>) {
    forall i, j | 0 <= i < j < |q| :: NotAfter(q[i], q[j])
  }

  function Insert(e: Entry, q: seq<Entry>): (r: seq<Entry>)
    ensures multiset(r) == multiset(q) + multiset{e}
    decreases |q|
  {
    if q == [] || NotAfter(e, q[0]) then
      [e] + q
    else
      assert q == [q[0]] + q[1..];
      [q[0]] + Insert(e, q[1..])
  }

  /** A stable sort by cost, then hops. */
  function SortQueue(q: seq<Entry>): (r: seq<Entry>)
    ensures multiset(r) == multiset(q)
    decreases |q|
  {
    if q == [] then []
    else
      assert q == [q[0]] + q[1..];
      Insert(q[0], SortQueue(q[1..]))
  }

  lemma {:induction false} InsertSorts(e: Entry, q: seq<Entry>)
    requires Sorted(q)
    ensures Sorted(Insert(e, q))
    decreases |q|
  {
    if q != [] && !NotAfter(e, q[0]) {
      var tail := Insert(e, q[1..]);
      InsertSorts(e, q[1..]);
      forall x | x in tail
        ensures NotAfter(q[0], x)
      {
        assert x in multiset(tail);
        assert x == e || x in q[1..];
      }
    }
  }

  lemma {:induction false} SortQueueSorts(q: seq<Entry>)
    ensures Sorted(SortQueue(q))
    decreases |q|
  {
    if q != [] {
      SortQueueSorts(q[1..]);
      InsertSorts(q[0], SortQueue(q[1..]));
    }
  }

  /* ---------- the state of a search ---------- */

  datatype Parent = Parent(previous: NodeId, edge: Edge)

  /** The loop's variables.  The last three are bookkeeping of the proof: the hop count behind each best cost,
      the nodes that were popped but not expanded because of the hop cap, and the cost of the last expansion or cut. */
  datatype Search = Search(best: map<NodeId, real>, parents: map<NodeId, Parent>, queue: seq<Entry>,
                           expanded: set<NodeId>, hops: map<NodeId, nat>, cut: set<NodeId>, level: real)

  ghost predicate Recorded(s: Search, maxHops: nat, v: NodeId) {
    && v in s.best && v in s.hops && 0.0 <= s.best[v] && s.hops[v] <= maxHops
    && (v in s.expanded ==> s.hops[v] < maxHops && s.best[v] <= s.level)
    && (v in s.cut ==> v !in s.expanded && s.best[v] <= s.level)
  }

  ghost predicate Bookkept(g: Atlas, start: NodeId, maxHops: nat, s: Search) {
    && start in s.best && s.best[start] == 0.0
    && start in s.hops && s.hops[start] == 0
    && s.expanded <= s.best.Keys && s.cut <= s.best.Keys && g.target !in s.expanded && g.target !in s.cut
    && forall v {:trigger Recorded(s, maxHops, v)} | v in s.best :: Recorded(s, maxHops, v)
  }

  /** The node was reached from an expanded node over a real edge. */
  ghost predicate HasParent(g: Atlas, s: Search, v: NodeId) {
    && v in s.parents && v in s.best && v in s.hops
    && var p := s.parents[v].previous;
    && p in s.expanded && p in s.best && p in s.hops
    && Arc(g, p, s.parents[v].edge, v)
    && s.best[v] == s.best[p] + EdgeTraversalCost(g, s.parents[v].edge)
    && s.hops[v] == s.hops[p] + 1
  }

  ghost predicate Parented(g: Atlas, start: NodeId, s: Search) {
    forall v {:trigger HasParent(g, s, v)} | v in s.best && v != start :: HasParent(g, s, v)
  }

  predicate Live(s: Search, e: Entry) {
    e.id in s.best && e.cost == s.best[e.id]
  }

  ghost predicate EntrySound(s: Search, e: Entry) {
    && e.id in s.best && e.id in s.hops && s.best[e.id] <= e.cost && s.level <= e.cost
    && (Live(s, e) ==> e.hops == s.hops[e.id] && e.id !in s.expanded && e.id !in s.cut)
  }

  /** No two entries agree on node and cost. */
  predicate Unrepeated(q: seq<Entry>) {
    forall i, j | 0 <= i < j < |q| :: !(q[i].id == q[j].id && q[i].cost == q[j].cost)
  }

  ghost predicate QueueSound(s: Search) {
    Unrepeated(s.queue) && forall e {:trigger EntrySound(s, e)} | e in s.queue :: EntrySound(s, e)
  }

  ghost predicate Queued(s: Search, v: NodeId) {
    exists e :: e in s.queue && e.id == v && Live(s, e)
  }

  /** Whatever is recorded and neither expanded nor cut still waits in the queue at its best cost. */
  ghost predicate FrontierWaits(s: Search) {
    forall v {:trigger Queued(s, v)} | v in s.best && v !in s.expanded && v !in s.cut :: Queued(s, v)
  }

  ghost predicate RelaxedAt(g: Atlas, s: Search, u: NodeId, edges: seq<Edge>) {
    forall e, v {:trigger Leads(g, u, e, v)} | e in edges && Leads(g, u, e, v) ::
      v in s.best && u in s.best && s.best[v] <= s.best[u] + EdgeTraversalCost(g, e)
  }

  ghost predicate Relaxed(g: Atlas, s: Search, us: set<NodeId>) {
    forall u {:trigger RelaxedAt(g, s, u, EdgesAt(g, u))} | u in us :: RelaxedAt(g, s, u, EdgesAt(g, u))
  }

  ghost predicate Inv(g: Atlas, start: NodeId, maxHops: nat, s: Search) {
    Bookkept(g, start, maxHops, s) && Parented(g, start, s) && QueueSound(s) && FrontierWaits(s)
  }

  /* ---------- sorting keeps the queue ---------- */

  lemma SameMembers(p: seq<Entry>, q: seq<Entry>)
    requires multiset(p) == multiset(q)
    ensures forall e :: e in p <==> e in q
  {
    assert forall e :: e in p <==> e in multiset(p);
    assert forall e :: e in q <==> e in multiset(q);
  }

  lemma InsertUnrepeated(e: Entry, q: seq<Entry>)
    requires Unrepeated(q) && forall d | d in q :: !(d.id == e.id && d.cost == e.cost)
    ensures Unrepeated(Insert(e, q))
    decreases |q|
  {
    if q != [] && !NotAfter(e, q[0]) {
      InsertUnrepeated(e, q[1..]);
      var tail := Insert(e, q[1..]);
      SameMembers(tail, q[1..] + [e]);
      forall d | d in tail
        ensures !(d.id == q[0].id && d.cost == q[0].cost)
      {
        assert d in q[1..] + [e];
        assert d == e || d in q[1..];
      }
    }
  }

  lemma {:induction false} SortUnrepeated(q: seq<Entry>)
    requires Unrepeated(q)
    ensures Unrepeated(SortQueue(q))
    decreases |q|
  {
    if q != [] {
      SortUnrepeated(q[1..]);
      SameMembers(SortQueue(q[1..]), q[1..]);
      InsertUnrepeated(q[0], SortQueue(q[1..]));
    }
  }

  /** Taking the head of the sorted queue off: it was the cheapest entry, and it occurred once. */
  lemma PopHead(q: seq<Entry>)
    requires Unrepeated(q) && q != []
    ensures var sorted := SortQueue(q);
            && sorted != [] && sorted[0] in q && Unrepeated(sorted[1..])
            && (forall e :: e in sorted[1..] <==> e in q && e != sorted[0])
            && (forall e | e in sorted[1..] :: !(e.id == sorted[0].id && e.cost == sorted[0].cost))
            && forall e | e in q :: sorted[0].cost < e.cost || (sorted[0].cost == e.cost && sorted[0].hops <= e.hops)
  {
    var sorted := SortQueue(q);
    SameMembers(sorted, q);
    assert q[0] in sorted;
    SortUnrepeated(q);
    SortQueueSorts(q);
    forall e | e in q
      ensures sorted[0].cost < e.cost || (sorted[0].cost == e.cost && sorted[0].hops <= e.hops)
    {
      var i :| 0 <= i < |sorted| && sorted[i] == e;
      assert i == 0 || NotAfter(sorted[0], sorted[i]);
    }
    assert forall e :: e in sorted <==> e == sorted[0] || e in sorted[1..];
  }

  /* ---------- steps ---------- */

  /** The search after the head was taken off the sorted queue. */
  function Popped(s: Search): Search
    requires s.queue != []
  {
    var sorted := SortQueue(s.queue);
    if sorted == [] then s else s.(queue := sorted[1..])
  }

  lemma PopKeepsQueueSound(s: Search)
    requires QueueSound(s) && s.queue != []
    ensures QueueSound(Popped(s))
  {
    PopHead(s.queue);
    var t := Popped(s);
    forall e | e in t.queue
      ensures EntrySound(t, e)
    {
      assert EntrySound(s, e);
    }
  }

  lemma PopKeepsBooks(g: Atlas, start: NodeId, maxHops: nat, s: Search)
    requires Bookkept(g, start, maxHops, s) && Parented(g, start, s) && s.queue != []
    ensures Bookkept(g, start, maxHops, Popped(s)) && Parented(g, start, Popped(s))
  {
    var t := Popped(s);
    forall v | v in t.best
      ensures Recorded(t, maxHops, v)
    {
      assert Recorded(s, maxHops, v);
    }
    forall v | v in t.best && v != start
      ensures HasParent(g, t, v)
    {
      assert HasParent(g, s, v);
    }
  }

  /** Popping can only hide the frontier node it pops. */
  lemma PopKeepsFrontier(s: Search, v: NodeId)
    requires QueueSound(s) && FrontierWaits(s) && s.queue != []
    requires v in s.best && v !in s.expanded && v !in s.cut
    requires var head := SortQueue(s.queue)[0]; head.id != v || !Live(s, head)
    ensures Queued(Popped(s), v)
  {
    PopHead(s.queue);
    assert Queued(s, v);
    var e :| e in s.queue && e.id == v && Live(s, e);
    assert e in Popped(s).queue && Live(Popped(s), e);
  }

  /** Dropping a stale head loses nothing. */
  lemma DropStale(g: Atlas, start: NodeId, maxHops: nat, s: Search)
    requires Inv(g, start, maxHops, s) && s.queue != [] && !Live(s, SortQueue(s.queue)[0])
    ensures Inv(g, start, maxHops, Popped(s))
  {
    PopKeepsBooks(g, start, maxHops, s);
    PopKeepsQueueSound(s);
    forall v | v in s.best && v !in s.expanded && v !in s.cut
      ensures Queued(Popped(s), v)
    {
      PopKeepsFrontier(s, v);
    }
  }

  function Cut(s: Search, v: NodeId): Search
    requires v in s.best
  {
    s.(cut := s.cut + {v}, level := s.best[v])
  }

  lemma CutKeepsBooks(g: Atlas, start: NodeId, maxHops: nat, s: Search, head: Entry)
    requires Inv(g, start, maxHops, s) && s.queue != [] && head == SortQueue(s.queue)[0] && Live(s, head) && head.id != g.target
    ensures head.id in s.best && Bookkept(g, start, maxHops, Cut(Popped(s), head.id)) && Parented(g, start, Cut(Popped(s), head.id))
  {
    PopHead(s.queue);
    assert EntrySound(s, head);
    var t := Cut(Popped(s), head.id);
    forall v | v in t.best
      ensures Recorded(t, maxHops, v)
    {
      assert Recorded(s, maxHops, v);
    }
    forall v | v in t.best && v != start
      ensures HasParent(g, t, v)
    {
      assert HasParent(g, s, v);
    }
  }

  lemma CutKeepsQueue(g: Atlas, s: Search, head: Entry)
    requires QueueSound(s) && s.queue != [] && head == SortQueue(s.queue)[0] && Live(s, head)
    ensures QueueSound(Cut(Popped(s), head.id))
  {
    PopHead(s.queue);
    var t := Cut(Popped(s), head.id);
    forall e | e in t.queue
      ensures EntrySound(t, e)
    {
      assert EntrySound(s, e);
    }
  }

  lemma CutKeepsFrontier(s: Search, head: Entry)
    requires QueueSound(s) && FrontierWaits(s) && s.queue != [] && head == SortQueue(s.queue)[0] && Live(s, head)
    ensures FrontierWaits(Cut(Popped(s), head.id))
  {
    var p, t := Popped(s), Cut(Popped(s), head.id);
    forall v | v in t.best && v !in t.expanded && v !in t.cut
      ensures Queued(t, v)
    {
      PopKeepsFrontier(s, v);
      var e :| e in p.queue && e.id == v && Live(p, e);
      assert e in t.queue && Live(t, e);
    }
  }

  /** A live head at the hop cap is cut. */
  lemma CutHead(g: Atlas, start: NodeId, maxHops: nat, s: Search)
    requires Inv(g, start, maxHops, s) && s.queue != [] && Live(s, SortQueue(s.queue)[0]) && SortQueue(s.queue)[0].id != g.target
    ensures Inv(g, start, maxHops, Cut(Popped(s), SortQueue(s.queue)[0].id))
  {
    var head := SortQueue(s.queue)[0];
    CutKeepsBooks(g, start, maxHops, s, head);
    CutKeepsQueue(g, s, head);
    CutKeepsFrontier(s, head);
  }

  function Expand(s: Search, v: NodeId): Search
    requires v in s.best
  {
    s.(expanded := s.expanded + {v}, level := s.best[v])
  }

  ghost predicate Expandable(g: Atlas, maxHops: nat, s: Search, head: Entry) {
    s.queue != [] && head == SortQueue(s.queue)[0] && Live(s, head) && head.id != g.target && head.hops < maxHops
  }

  lemma HeadIsNew(g: Atlas, start: NodeId, maxHops: nat, s: Search, head: Entry)
    requires QueueSound(s) && Expandable(g, maxHops, s, head)
    ensures head.id !in s.expanded && head.id !in s.cut && head.id in s.hops && s.hops[head.id] == head.hops && s.level <= head.cost
  {
    PopHead(s.queue);
    assert EntrySound(s, head);
  }

  lemma ExpandKeepsBooks(g: Atlas, start: NodeId, maxHops: nat, s: Search, head: Entry)
    requires Bookkept(g, start, maxHops, s) && Parented(g, start, s) && QueueSound(s) && Expandable(g, maxHops, s, head)
    ensures Bookkept(g, start, maxHops, Expand(Popped(s), head.id)) && Parented(g, start, Expand(Popped(s), head.id))
  {
    HeadIsNew(g, start, maxHops, s, head);
    var t := Expand(Popped(s), head.id);
    forall v | v in t.best
      ensures Recorded(t, maxHops, v)
    {
      assert Recorded(s, maxHops, v);
    }
    forall v | v in t.best && v != start
      ensures HasParent(g, t, v)
    {
      assert HasParent(g, s, v);
    }
  }

  lemma ExpandKeepsQueue(g: Atlas, start: NodeId, maxHops: nat, s: Search, head: Entry)
    requires QueueSound(s) && Expandable(g, maxHops, s, head)
    ensures QueueSound(Expand(Popped(s), head.id))
  {
    HeadIsNew(g, start, maxHops, s, head);
    PopHead(s.queue);
    PopKeepsQueueSound(s);
    var p, t := Popped(s), Expand(Popped(s), head.id);
    forall e | e in t.queue
      ensures EntrySound(t, e)
    {
      assert EntrySound(p, e);
    }
  }

  lemma ExpandKeepsFrontier(g: Atlas, start: NodeId, maxHops: nat, s: Search, head: Entry)
    requires QueueSound(s) && FrontierWaits(s) && Expandable(g, maxHops, s, head)
    ensures FrontierWaits(Expand(Popped(s), head.id))
  {
    var p, t := Popped(s), Expand(Popped(s), head.id);
    forall v | v in t.best && v !in t.expanded && v !in t.cut
      ensures Queued(t, v)
    {
      PopKeepsFrontier(s, v);
      var e :| e in p.queue && e.id == v && Live(p, e);
      assert e in t.queue && Live(t, e);
    }
  }

  lemma ExpandHead(g: Atlas, start: NodeId, maxHops: nat, s: Search, head: Entry)
    requires Inv(g, start, maxHops, s) && Expandable(g, maxHops, s, head)
    ensures head.id !in s.expanded && head.id in s.hops && s.hops[head.id] == head.hops
    ensures Inv(g, start, maxHops, Expand(Popped(s), head.id))
  {
    HeadIsNew(g, start, maxHops, s, head);
    ExpandKeepsBooks(g, start, maxHops, s, head);
    ExpandKeepsQueue(g, start, maxHops, s, head);
    ExpandKeepsFrontier(g, start, maxHops, s, head);
  }

  /** Expanding a node does not disturb what was relaxed before. */
  lemma ExpandKeepsRelaxed(g: Atlas, s: Search, v: NodeId)
    requires v in s.best && Relaxed(g, s, s.expanded) && s.queue != []
    ensures Relaxed(g, Expand(Popped(s), v), s.expanded)
  {
    forall u | u in s.expanded
      ensures RelaxedAt(g, Expand(Popped(s), v), u, EdgesAt(g, u))
    {
      assert RelaxedAt(g, s, u, EdgesAt(g, u));
    }
  }

  /** Recording a strictly better cost for `v`, reached from the expanded node `u` over `e`. */
  function Improve(s: Search, u: NodeId, e: Edge, v: NodeId, cost: real, hops: nat): Search {
    s.(best := s.best[v := cost], parents := s.parents[v := Parent(u, e)],
       queue := s.queue + [Entry(v, cost, hops)], hops := s.hops[v := hops])
  }

  /** `u` was just expanded, and going on over `e` beats what is recorded for `v`. */
  ghost predicate Improves(g: Atlas, maxHops: nat, s: Search, u: NodeId, e: Edge, v: NodeId, cost: real, hops: nat) {
    && u in s.expanded && u in s.best && u in s.hops && s.best[u] == s.level && Arc(g, u, e, v)
    && cost == s.best[u] + EdgeTraversalCost(g, e)
    && hops == s.hops[u] + 1 <= maxHops
    && (v in s.best ==> cost < s.best[v])
  }

  /** Because every edge costs something, only a node that was not expanded can be improved. */
  lemma ImprovesNew(g: Atlas, start: NodeId, maxHops: nat, s: Search, u: NodeId, e: Edge, v: NodeId, cost: real, hops: nat)
    requires Inv(g, start, maxHops, s) && Logarithmic(g) && Improves(g, maxHops, s, u, e, v, cost, hops)
    ensures v !in s.expanded && v !in s.cut && v != start && cost > s.level && v != u
  {
    CostIsPositive(g, e);
    assert Recorded(s, maxHops, u);
    assert v in s.best ==> Recorded(s, maxHops, v);
  }

  lemma ImproveKeepsBooks(g: Atlas, start: NodeId, maxHops: nat, s: Search, u: NodeId, e: Edge, v: NodeId, cost: real, hops: nat)
    requires Inv(g, start, maxHops, s) && Logarithmic(g) && Improves(g, maxHops, s, u, e, v, cost, hops)
    ensures Bookkept(g, start, maxHops, Improve(s, u, e, v, cost, hops))
  {
    ImprovesNew(g, start, maxHops, s, u, e, v, cost, hops);
    var t := Improve(s, u, e, v, cost, hops);
    assert Recorded(s, maxHops, u);
    forall w | w in t.best
      ensures Recorded(t, maxHops, w)
    {
      if w != v { assert Recorded(s, maxHops, w); }
    }
  }

  lemma ImproveKeepsParents(g: Atlas, start: NodeId, maxHops: nat, s: Search, u: NodeId, e: Edge, v: NodeId, cost: real, hops: nat)
    requires Inv(g, start, maxHops, s) && Logarithmic(g) && Improves(g, maxHops, s, u, e, v, cost, hops)
    ensures Parented(g, start, Improve(s, u, e, v, cost, hops))
  {
    ImprovesNew(g, start, maxHops, s, u, e, v, cost, hops);
    var t := Improve(s, u, e, v, cost, hops);
    forall w | w in t.best && w != start
      ensures HasParent(g, t, w)
    {
      if w != v { assert HasParent(g, s, w); }
    }
  }

  lemma ImproveKeepsQueue(g: Atlas, start: NodeId, maxHops: nat, s: Search, u: NodeId, e: Edge, v: NodeId, cost: real, hops: nat)
    requires Inv(g, start, maxHops, s) && Logarithmic(g) && Improves(g, maxHops, s, u, e, v, cost, hops)
    ensures QueueSound(Improve(s, u, e, v, cost, hops))
  {
    ImprovesNew(g, start, maxHops, s, u, e, v, cost, hops);
    var t := Improve(s, u, e, v, cost, hops);
    forall d | d in s.queue
      ensures EntrySound(t, d) && !(d.id == v && d.cost == cost)
    {
      assert EntrySound(s, d);
    }
    forall d | d in t.queue
      ensures EntrySound(t, d)
    {
      assert d in s.queue || d == Entry(v, cost, hops);
    }
  }

  lemma ImproveKeepsInv(g: Atlas, start: NodeId, maxHops: nat, s: Search, u: NodeId, e: Edge, v: NodeId, cost: real, hops: nat)
    requires Inv(g, start, maxHops, s) && Logarithmic(g) && Improves(g, maxHops, s, u, e, v, cost, hops)
    ensures Inv(g, start, maxHops, Improve(s, u, e, v, cost, hops))
  {
    ImproveKeepsBooks(g, start, maxHops, s, u, e, v, cost, hops);
    ImproveKeepsParents(g, start, maxHops, s, u, e, v, cost, hops);
    ImproveKeepsQueue(g, start, maxHops, s, u, e, v, cost, hops);
    var t := Improve(s, u, e, v, cost, hops);
    forall w | w in t.best && w !in t.expanded && w !in t.cut
      ensures Queued(t, w)
    {
      if w == v {
        assert Entry(v, cost, hops) in t.queue && Live(t, Entry(v, cost, hops));
      } else {
        assert Queued(s, w);
        var d :| d in s.queue && d.id == w && Live(s, d);
        assert d in t.queue && Live(t, d);
      }
    }
  }

  /** Lowering the best cost of an unexpanded node keeps every relaxed edge relaxed. */
  lemma ImproveKeepsRelaxed(g: Atlas, s: Search, u: NodeId, e: Edge, v: NodeId, cost: real, hops: nat,
                            w: NodeId, edges: seq<Edge>)
    requires RelaxedAt(g, s, w, edges) && v != w && (v in s.best ==> cost < s.best[v])
    ensures RelaxedAt(g, Improve(s, u, e, v, cost, hops), w, edges)
  {
  }

  /* ---------- what the search has learnt ---------- */

  /** The recorded walk behind a best cost: parents lead back to the start. */
  lemma {:induction false} RecordedWalk(g: Atlas, start: NodeId, maxHops: nat, s: Search, v: NodeId)
    returns (nodes: seq<NodeId>, edges: seq<Edge>)
    requires Inv(g, start, maxHops, s) && Logarithmic(g) && v in s.best
    ensures WalkTo(g, start, v, nodes, edges) && Simple(nodes)
    ensures v in s.hops && |edges| == s.hops[v] && Cost(g, edges) == s.best[v]
    ensures forall n | n in nodes :: n in s.best && s.best[n] <= s.best[v]
    decreases if v in s.hops then s.hops[v] else 0
  {
    if v == start {
      nodes, edges := [start], [];
    } else {
      assert HasParent(g, s, v);
      var p := s.parents[v].previous;
      nodes, edges := RecordedWalk(g, start, maxHops, s, p);
      CostIsPositive(g, s.parents[v].edge);
      assert v !in nodes;
      nodes, edges := nodes + [v], edges + [s.parents[v].edge];
      assert edges[..|edges| - 1] == edges[..|edges| - 1] + [];
    }
  }

  /** Walk along any walk: the first node that was not expanded is recorded at no more than the cost so far. */
  lemma {:induction false} FirstUnexpanded(g: Atlas, start: NodeId, maxHops: nat, s: Search,
                                           nodes: seq<NodeId>, edges: seq<Edge>, n: nat) returns (i: nat)
    requires Inv(g, start, maxHops, s) && Logarithmic(g) && Relaxed(g, s, s.expanded)
    requires IsWalk(g, nodes, edges) && nodes[0] == start && n < |nodes| && nodes[n] !in s.expanded
    ensures i <= n && nodes[i] in s.best && nodes[i] !in s.expanded && s.best[nodes[i]] <= Cost(g, edges[..i])
    decreases n
  {
    if j :| 0 <= j < n && nodes[j] !in s.expanded {
      i := FirstUnexpanded(g, start, maxHops, s, nodes, edges, j);
    } else {
      i := n;
      ExpandedPrefix(g, start, maxHops, s, nodes, edges, n);
    }
  }

  lemma {:induction false} ExpandedPrefix(g: Atlas, start: NodeId, maxHops: nat, s: Search,
                                          nodes: seq<NodeId>, edges: seq<Edge>, n: nat)
    requires Inv(g, start, maxHops, s) && Logarithmic(g) && Relaxed(g, s, s.expanded)
    requires IsWalk(g, nodes, edges) && nodes[0] == start && n < |nodes|
    requires forall j | 0 <= j < n :: nodes[j] in s.expanded
    ensures nodes[n] in s.best && s.best[nodes[n]] <= Cost(g, edges[..n])
    decreases n
  {
    if n > 0 {
      ExpandedPrefix(g, start, maxHops, s, nodes, edges, n - 1);
      assert Arc(g, nodes[n - 1], edges[n - 1], nodes[n]);
      assert RelaxedAt(g, s, nodes[n - 1], EdgesAt(g, nodes[n - 1]));
      assert Leads(g, nodes[n - 1], edges[n - 1], nodes[n]);
      assert edges[..n][..n - 1] == edges[..n - 1];
    }
  }

  /** A live head that is the target carries the least cost of all walks to it that pass no cut node. */
  lemma HeadIsOptimal(g: Atlas, start: NodeId, maxHops: nat, s: Search, nodes: seq<NodeId>, edges: seq<Edge>)
    requires Inv(g, start, maxHops, s) && Logarithmic(g) && Relaxed(g, s, s.expanded) && s.queue != []
    requires var head := SortQueue(s.queue)[0]; Live(s, head) && head.id == g.target
    requires WalkTo(g, start, g.target, nodes, edges) && Avoids(nodes, s.cut)
    ensures s.best[g.target] <= Cost(g, edges)
  {
    PopHead(s.queue);
    var i := FirstUnexpanded(g, start, maxHops, s, nodes, edges, |nodes| - 1);
    assert Queued(s, nodes[i]);
    var e :| e in s.queue && e.id == nodes[i] && Live(s, e);
    CostOfPrefix(g, edges, i);
  }

  /** If the queue ran dry, every walk to the target passes a node that was cut. */
  lemma DrainedMeansUnreachable(g: Atlas, start: NodeId, maxHops: nat, s: Search, nodes: seq<NodeId>, edges: seq<Edge>)
    requires Inv(g, start, maxHops, s) && Logarithmic(g) && Relaxed(g, s, s.expanded) && s.queue == []
    ensures !(WalkTo(g, start, g.target, nodes, edges) && Avoids(nodes, s.cut))
  {
    if WalkTo(g, start, g.target, nodes, edges) && Avoids(nodes, s.cut) {
      var i := FirstUnexpanded(g, start, maxHops, s, nodes, edges, |nodes| - 1);
      NothingQueued(s, nodes[i]);
      assert false;
    }
  }

  lemma NothingQueued(s: Search, v: NodeId)
    requires s.queue == []
    ensures !Queued(s, v)
  {
  }

  /* ---------- the search ---------- */

  /** The answer to a path query; the ghost part says what the search had learnt when it stopped. */
  datatype Outcome = Outcome(found: bool, ids: seq<NodeId>, edges: seq<Edge>, path: seq<NodeId>, truncated: bool)

  /** Those of the nodes that the store shows, in order. */
  function Shown(g: Atlas, ids: seq<NodeId>): (r: seq<NodeId>)
    ensures forall n :: n in r <==> n in ids && g.shows(n)
    ensures (forall n | n in ids :: g.shows(n)) ==> r == ids
    ensures |r| <= |ids|
    decreases |ids|
  {
    if ids == [] then [] else if g.shows(ids[0]) then [ids[0]] + Shown(g, ids[1..]) else Shown(g, ids[1..])
  }

  /** At least one hop and at most six, six when nothing is asked for, and as many as asked for in between. */
  function HopCap(requested: Option<int>): (cap: nat)
    ensures 1 <= cap <= 6
    ensures requested.None? ==> cap == 6
    ensures requested.Some? ==> (cap < requested.value ==> cap == 6) && (cap > requested.value ==> cap == 1)
  {
    var wanted := match requested case None => 6 case Some(n) => n;
    var capped := if wanted < 6 then wanted else 6;
    if capped > 1 then capped else 1
  }

  /** No simple walk from the start goes `maxHops` edges deep without ending at the target. */
  ghost predicate Shallow(g: Atlas, start: NodeId, maxHops: nat) {
    forall v, nodes, edges | WalkTo(g, start, v, nodes, edges) && Simple(nodes) && v != g.target :: |edges| < maxHops
  }

  /** Some simple walk from the start reaches `v`, not the target, only when the hop cap is used up. */
  ghost predicate AtCap(g: Atlas, start: NodeId, maxHops: nat, v: NodeId) {
    v != g.target && exists nodes, edges :: WalkTo(g, start, v, nodes, edges) && Simple(nodes) && |edges| == maxHops
  }

  ghost predicate CutsAtCap(g: Atlas, start: NodeId, maxHops: nat, cut: set<NodeId>) {
    forall v {:trigger AtCap(g, start, maxHops, v)} | v in cut :: AtCap(g, start, maxHops, v)
  }

  /** A head that is cut has used up the hop cap on its recorded walk. */
  lemma HeadAtCap(g: Atlas, start: NodeId, maxHops: nat, s: Search)
    requires Inv(g, start, maxHops, s) && Logarithmic(g) && s.queue != []
    requires var head := SortQueue(s.queue)[0]; Live(s, head) && head.id != g.target && head.hops >= maxHops
    ensures AtCap(g, start, maxHops, SortQueue(s.queue)[0].id)
  {
    var head := SortQueue(s.queue)[0];
    PopHead(s.queue);
    assert EntrySound(s, head) && Recorded(s, maxHops, head.id);
    var nodes, edges := RecordedWalk(g, start, maxHops, s, head.id);
  }

  lemma ShallowNeverCuts(g: Atlas, start: NodeId, maxHops: nat, cut: set<NodeId>)
    requires Shallow(g, start, maxHops) && CutsAtCap(g, start, maxHops, cut)
    ensures cut == {}
  {
    forall v ensures v !in cut {
      assert !AtCap(g, start, maxHops, v);
    }
  }

  /** No best cost rose, and each that changed is that of going through the current node over one of the edges. */
  ghost predicate LoweredAt(g: Atlas, current: Entry, before: map<NodeId, real>, after: map<NodeId, real>, edges: seq<Edge>, v: NodeId) {
    && (v in before ==> v in after && after[v] <= before[v])
    && (v in after && !(v in before && after[v] == before[v]) ==>
          exists e :: e in edges && OtherEnd(e, current.id) == Some(v) && after[v] == current.cost + EdgeTraversalCost(g, e))
  }

  ghost predicate Lowered(g: Atlas, current: Entry, before: map<NodeId, real>, after: map<NodeId, real>, edges: seq<Edge>) {
    forall v {:trigger LoweredAt(g, current, before, after, edges, v)} :: LoweredAt(g, current, before, after, edges, v)
  }

  lemma LoweredMore(g: Atlas, current: Entry, before: map<NodeId, real>, after: map<NodeId, real>, edges: seq<Edge>, e: Edge)
    requires Lowered(g, current, before, after, edges)
    ensures Lowered(g, current, before, after, edges + [e])
    ensures var v, cost := OtherEnd(e, current.id), current.cost + EdgeTraversalCost(g, e);
            v.Some? && (v.value !in after || cost < after[v.value]) ==>
              Lowered(g, current, before, after[v.value := cost], edges + [e])
  {
    var more := edges + [e];
    assert e in more;
    forall v ensures LoweredAt(g, current, before, after, more, v) {
      assert LoweredAt(g, current, before, after, edges, v);
    }
    var w, cost := OtherEnd(e, current.id), current.cost + EdgeTraversalCost(g, e);
    if w.Some? && (w.value !in after || cost < after[w.value]) {
      var lowered := after[w.value := cost];
      forall v ensures LoweredAt(g, current, before, lowered, more, v) {
        assert LoweredAt(g, current, before, after, more, v);
      }
    }
  }

  /** Look at one expanded node's edges and record what gets cheaper. */
  method RelaxEdges(g: Atlas, ghost start: NodeId, maxHops: nat, current: Entry, best0: map<NodeId, real>,
                    parents0: map<NodeId, Parent>, queue0: seq<Entry>, ghost s0: Search)
    returns (best: map<NodeId, real>, parents: map<NodeId, Parent>, queue: seq<Entry>, ghost s: Search)
    requires Logarithmic(g) && Inv(g, start, maxHops, s0)
    requires s0.best == best0 && s0.parents == parents0 && s0.queue == queue0
    requires current.id in s0.expanded && current.id in s0.best && current.id in s0.hops
    requires s0.best[current.id] == current.cost == s0.level && s0.hops[current.id] == current.hops < maxHops
    requires Relaxed(g, s0, s0.expanded - {current.id})
    ensures Inv(g, start, maxHops, s) && Relaxed(g, s, s.expanded)
    ensures s.best == best && s.parents == parents && s.queue == queue
    ensures s.expanded == s0.expanded && s.cut == s0.cut
    ensures Lowered(g, current, best0, best, EdgesAt(g, current.id))
  {
    var adjacent := EdgesAt(g, current.id);
    best, parents, queue := best0, parents0, queue0;
    s := s0;
    for k := 0 to |adjacent|
      invariant Inv(g, start, maxHops, s)
      invariant s.best == best && s.parents == parents && s.queue == queue
      invariant s.expanded == s0.expanded && s.cut == s0.cut && s.level == s0.level
      invariant current.id in s.best && s.best[current.id] == current.cost
      invariant current.id in s.hops && s.hops[current.id] == current.hops
      invariant Relaxed(g, s, s.expanded - {current.id})
      invariant RelaxedAt(g, s, current.id, adjacent[..k])
      invariant Lowered(g, current, best0, best, adjacent[..k])
    {
      var edge := adjacent[k];
      LoweredMore(g, current, best0, best, adjacent[..k], edge);
      assert adjacent[..k + 1] == adjacent[..k] + [edge];
      var next := OtherEnd(edge, current.id);
      if next.Some? && (next.value == g.target || g.shows(next.value)) {
        var v, cost := next.value, current.cost + EdgeTraversalCost(g, edge);
        if v !in best || cost < best[v] {
          assert Improves(g, maxHops, s, current.id, edge, v, cost, current.hops + 1);
          ImprovesNew(g, start, maxHops, s, current.id, edge, v, cost, current.hops + 1);
          ImproveKeepsInv(g, start, maxHops, s, current.id, edge, v, cost, current.hops + 1);
          KeepRelaxed(g, s, current.id, edge, v, cost, current.hops + 1, s.expanded - {current.id});
          ImproveKeepsRelaxed(g, s, current.id, edge, v, cost, current.hops + 1, current.id, adjacent[..k]);
          s := Improve(s, current.id, edge, v, cost, current.hops + 1);
          best, parents := best[v := cost], parents[v := Parent(current.id, edge)];
          queue := queue + [Entry(v, cost, current.hops + 1)];
        }
      }
    }
    assert adjacent[..|adjacent|] == adjacent;
    assert forall u | u in s.expanded :: u == current.id || u in s.expanded - {current.id};
  }

  lemma KeepRelaxed(g: Atlas, s: Search, u: NodeId, e: Edge, v: NodeId, cost: real, hops: nat, us: set<NodeId>)
    requires Relaxed(g, s, us) && v !in us && (v in s.best ==> cost < s.best[v])
    ensures Relaxed(g, Improve(s, u, e, v, cost, hops), us)
  {
    forall w | w in us
      ensures RelaxedAt(g, Improve(s, u, e, v, cost, hops), w, EdgesAt(g, w))
    {
      assert RelaxedAt(g, s, w, EdgesAt(g, w));
      ImproveKeepsRelaxed(g, s, u, e, v, cost, hops, w, EdgesAt(g, w));
    }
  }

  /** Follow the parents back from the target; the walk it rebuilds is the recorded one. */
  method Rebuild(g: Atlas, start: NodeId, ghost maxHops: nat, parents: map<NodeId, Parent>, ghost s: Search)
    returns (ids: seq<NodeId>, edges: seq<Edge>)
    requires Logarithmic(g) && Inv(g, start, maxHops, s) && s.parents == parents && g.target in s.best
    ensures WalkTo(g, start, g.target, ids, edges) && Simple(ids)
    ensures |edges| <= maxHops && Cost(g, edges) == s.best[g.target]
    ensures Avoids(ids, s.cut)
  {
    var current := g.target;
    ids, edges := [current], [];
    assert Recorded(s, maxHops, current);
    while current != start
      invariant current in s.best && current in s.hops
      invariant IsWalk(g, ids, edges) && ids[0] == current && ids[|ids| - 1] == g.target
      invariant forall n | n in ids[1..] :: n in s.best && s.best[current] < s.best[n]
      invariant Simple(ids) && Avoids(ids, s.cut)
      invariant s.best[current] + Cost(g, edges) == s.best[g.target]
      invariant g.target in s.hops && s.hops[current] + |edges| == s.hops[g.target]
      decreases s.hops[current]
    {
      assert HasParent(g, s, current);
      var parent := parents[current];
      CostIsPositive(g, parent.edge);
      CostOfSplit(g, [parent.edge], edges);
      assert [parent.edge][..0] == [];
      assert Cost(g, [parent.edge]) == EdgeTraversalCost(g, parent.edge);
      assert forall n | n in ids :: n in s.best && s.best[parent.previous] < s.best[n];
      assert Recorded(s, maxHops, parent.previous);
      ids, edges := [parent.previous] + ids, [parent.edge] + edges;
      current := parent.previous;
    }
    assert Recorded(s, maxHops, g.target);
    assert s.hops[start] == 0;
  }

  /** What holds in front of every turn of the main loop. */
  ghost predicate Running(g: Atlas, start: NodeId, maxHops: nat, s: Search) {
    && Inv(g, start, maxHops, s) && Relaxed(g, s, s.expanded)
    && CutsAtCap(g, start, maxHops, s.cut)
    && (start == g.target ==> s.queue == [Entry(start, 0.0, 0)] && s.expanded == {})
  }

  function Opening(start: NodeId): Search {
    Search(map[start := 0.0], map[], [Entry(start, 0.0, 0)], {}, map[start := 0], {}, 0.0)
  }

  lemma OpeningRuns(g: Atlas, start: NodeId, maxHops: nat)
    ensures Running(g, start, maxHops, Opening(start))
  {
    var s := Opening(start);
    assert s.queue[0] in s.queue && Live(s, s.queue[0]);
    assert Queued(s, start);
  }

  /** From the node itself the first turn ends the search. */
  lemma StartIsTarget(g: Atlas, start: NodeId, maxHops: nat, s: Search)
    requires Running(g, start, maxHops, s) && s.queue != [] && start == g.target
    ensures SortQueue(s.queue) == [Entry(start, 0.0, 0)] && Live(s, SortQueue(s.queue)[0])
  {
    SizeOfSort(s.queue);
    PopHead(s.queue);
  }

  lemma DropRuns(g: Atlas, start: NodeId, maxHops: nat, s: Search)
    requires Running(g, start, maxHops, s) && s.queue != [] && !Live(s, SortQueue(s.queue)[0])
    ensures Running(g, start, maxHops, Popped(s))
  {
    if start == g.target { StartIsTarget(g, start, maxHops, s); }
    DropStale(g, start, maxHops, s);
    PopKeepsRelaxed(g, s, s.cut, s.level);
  }

  lemma CutRuns(g: Atlas, start: NodeId, maxHops: nat, s: Search)
    requires Running(g, start, maxHops, s) && Logarithmic(g) && s.queue != []
    requires var head := SortQueue(s.queue)[0]; Live(s, head) && head.id != g.target && head.hops >= maxHops
    ensures Running(g, start, maxHops, Cut(Popped(s), SortQueue(s.queue)[0].id))
  {
    if start == g.target { StartIsTarget(g, start, maxHops, s); }
    HeadAtCap(g, start, maxHops, s);
    CutHead(g, start, maxHops, s);
    PopKeepsRelaxed(g, s, s.cut + {SortQueue(s.queue)[0].id}, s.best[SortQueue(s.queue)[0].id]);
  }

  lemma ExpandRuns(g: Atlas, start: NodeId, maxHops: nat, s: Search, head: Entry)
    requires Running(g, start, maxHops, s) && Expandable(g, maxHops, s, head)
    ensures start != g.target && head.id !in s.expanded && head.id in s.hops && s.hops[head.id] == head.hops
    ensures Inv(g, start, maxHops, Expand(Popped(s), head.id))
    ensures Relaxed(g, Expand(Popped(s), head.id), s.expanded)
  {
    if start == g.target { StartIsTarget(g, start, maxHops, s); }
    ExpandHead(g, start, maxHops, s, head);
    ExpandKeepsRelaxed(g, s, head.id);
  }

  lemma Arrived(g: Atlas, start: NodeId, maxHops: nat, s: Search)
    requires Running(g, start, maxHops, s) && Logarithmic(g) && s.queue != []
    requires var head := SortQueue(s.queue)[0]; Live(s, head) && head.id == g.target
    ensures g.target in s.best
    ensures CheapestAvoiding(g, start, s.best[g.target], s.cut)
  {
    forall nodes, edges | WalkTo(g, start, g.target, nodes, edges) && Avoids(nodes, s.cut)
      ensures s.best[g.target] <= Cost(g, edges)
    {
      HeadIsOptimal(g, start, maxHops, s, nodes, edges);
    }
  }

  lemma Drained(g: Atlas, start: NodeId, maxHops: nat, s: Search)
    requires Running(g, start, maxHops, s) && Logarithmic(g) && s.queue == []
    ensures OnlyThrough(g, start, s.cut)
  {
    forall nodes, edges | WalkTo(g, start, g.target, nodes, edges)
      ensures !Avoids(nodes, s.cut)
    {
      DrainedMeansUnreachable(g, start, maxHops, s, nodes, edges);
    }
  }

  lemma CheapestIsGood(g: Atlas, start: NodeId, nodes: seq<NodeId>, edges: seq<Edge>, cut: set<NodeId>)
    requires WalkTo(g, start, g.target, nodes, edges) && Avoids(nodes, cut) && CheapestAvoiding(g, start, Cost(g, edges), cut)
    ensures g.negLog(1.0) == 0.0 && AllSure(edges) ==> Lightest(g, start, edges, cut)
    ensures FallingLog(g) ==> NoBetterParallel(g, nodes, edges)
  {
    if g.negLog(1.0) == 0.0 && AllSure(edges) {
      CheapestIsLightest(g, start, edges, cut);
    }
    if FallingLog(g) {
      CheapestHasNoBetterParallel(g, start, nodes, edges, cut);
    }
  }

  /** The path query.

      Whatever it finds is a real, simple walk within the hop cap, at its recorded cost, and the cheapest of all
      walks to the target, of any length, that avoid the nodes cut by the hop cap.  An answer of "not found" that is
      not truncated means there is no such walk.  A cut node ends a simple walk from the start that uses up the
      cap; so in a shallow graph nothing is cut and both hold of all walks. */
  method Path(g: Atlas, start: NodeId, requestedHops: Option<int>) 
    returns (r: Outcome, ghost cut: set<NodeId>, ghost expansions: set<NodeId>)
    requires Logarithmic(g)
    ensures r.found ==>
              && WalkTo(g, start, g.target, r.ids, r.edges) && Simple(r.ids) && |r.edges| <= HopCap(requestedHops)
              && CheapestAvoiding(g, start, Cost(g, r.edges), cut) && Avoids(r.ids, cut)
              && (g.negLog(1.0) == 0.0 && AllSure(r.edges) ==> Lightest(g, start, r.edges, cut))
              && (FallingLog(g) ==> NoBetterParallel(g, r.ids, r.edges))
    ensures !r.found ==> r.ids == [] && r.edges == []
    ensures !r.found && !r.truncated ==> OnlyThrough(g, start, cut)
    ensures CutsAtCap(g, start, HopCap(requestedHops), cut)
    ensures r.path == Shown(g, r.ids)
    ensures Shallow(g, start, HopCap(requestedHops)) ==> cut == {}
    ensures start == g.target ==> r.found && r.ids == [start]
    ensures r.truncated <==> |expansions| >= 2000
    ensures forall v | v in expansions :: Reachable(g, start, v)
  {
    var maxHops := HopCap(requestedHops);
    var best: map<NodeId, real>, parents: map<NodeId, Parent> := map[start := 0.0], map[];
    var queue, expanded := [Entry(start, 0.0, 0)], {};
    ghost var s := Opening(start);
    OpeningRuns(g, start, maxHops);
    while queue != [] && |expanded| < MAX_EXPANSIONS
      invariant Running(g, start, maxHops, s)
      invariant s.best == best && s.parents == parents && s.queue == queue && s.expanded == expanded
      invariant start == g.target ==> queue != [] && expanded == {}
      decreases MAX_EXPANSIONS - |expanded|, |queue|
    {
      SizeOfSort(queue);
      queue := SortQueue(queue);
      var current := queue[0];
      queue := queue[1..];
      if current.id !in best || current.cost != best[current.id] {
        DropRuns(g, start, maxHops, s);
        if start == g.target { StartIsTarget(g, start, maxHops, s); }
        s := Popped(s);
        continue;
      }
      if current.id == g.target {
        Arrived(g, start, maxHops, s);
        var ids, edges := Rebuild(g, start, maxHops, parents, s);
        Leftovers(g, start, maxHops, s);
        if start == g.target { SimpleLoop(ids); }
        CheapestIsGood(g, start, ids, edges, s.cut);
        return Outcome(true, ids, edges, Shown(g, ids), |expanded| >= MAX_EXPANSIONS), s.cut, s.expanded;
      }
      if start == g.target { StartIsTarget(g, start, maxHops, s); }
      if current.hops >= maxHops {
        CutRuns(g, start, maxHops, s);
        s := Cut(Popped(s), current.id);
        continue;
      }
      ExpandRuns(g, start, maxHops, s, current);
      ghost var was := s.expanded;
      s := Expand(Popped(s), current.id);
      expanded := expanded + {current.id};
      assert s.expanded - {current.id} == was;
      best, parents, queue, s := RelaxEdges(g, start, maxHops, current, best, parents, queue, s);
    }
    cut, expansions := s.cut, s.expanded;
    Leftovers(g, start, maxHops, s);
    r := Outcome(false, [], [], [], |expanded| >= MAX_EXPANSIONS);
    if !r.truncated {
      Drained(g, start, maxHops, s);
    }
  }

  ghost predicate Reachable(g: Atlas, start: NodeId, v: NodeId) {
    exists nodes, edges :: WalkTo(g, start, v, nodes, edges)
  }

  /** What the search leaves behind, however it ends. */
  lemma Leftovers(g: Atlas, start: NodeId, maxHops: nat, s: Search)
    requires Running(g, start, maxHops, s) && Logarithmic(g)
    ensures forall v | v in s.expanded :: Reachable(g, start, v)
    ensures CutsAtCap(g, start, maxHops, s.cut) && (Shallow(g, start, maxHops) ==> s.cut == {})
  {
    if Shallow(g, start, maxHops) { ShallowNeverCuts(g, start, maxHops, s.cut); }
    forall v | v in s.expanded
      ensures Reachable(g, start, v)
    {
      var nodes, edges := RecordedWalk(g, start, maxHops, s, v);
    }
  }

  /** The rows listed for a node are all stored edges that touch it. */
  ghost predicate ListsComplete(g: Atlas, stored: set<Edge>) {
    forall u, e :: e in EdgesAt(g, u) <==> e in stored && OtherEnd(e, u).Some?
  }

  /** With complete lists the graph is undirected: every walk between shown nodes runs backwards at equal cost. */
  lemma {:induction false} WalksReverse(g: Atlas, stored: set<Edge>, nodes: seq<NodeId>, edges: seq<Edge>)
    returns (back: seq<NodeId>, backEdges: seq<Edge>)
    requires ListsComplete(g, stored) && IsWalk(g, nodes, edges) && forall n | n in nodes :: g.shows(n)
    ensures IsWalk(g, back, backEdges) && Cost(g, backEdges) == Cost(g, edges)
    ensures back[0] == nodes[|nodes| - 1] && back[|back| - 1] == nodes[0]
    decreases |edges|
  {
    if edges == [] {
      back, backEdges := nodes, edges;
    } else {
      var last := |edges| - 1;
      back, backEdges := WalksReverse(g, stored, nodes[..last + 1], edges[..last]);
      assert Arc(g, nodes[last], edges[last], nodes[last + 1]);
      ArcReverses(g, stored, nodes[last], edges[last], nodes[last + 1]);
      WalkPrepends(g, nodes[last + 1], edges[last], back, backEdges);
      back, backEdges := [nodes[last + 1]] + back, [edges[last]] + backEdges;
    }
  }

  lemma ArcReverses(g: Atlas, stored: set<Edge>, u: NodeId, e: Edge, v: NodeId)
    requires ListsComplete(g, stored) && Arc(g, u, e, v) && g.shows(u) && g.shows(v)
    ensures Arc(g, v, e, u)
  {
  }

  lemma WalkPrepends(g: Atlas, u: NodeId, e: Edge, nodes: seq<NodeId>, edges: seq<Edge>)
    requires IsWalk(g, nodes, edges) && Arc(g, u, e, nodes[0])
    ensures IsWalk(g, [u] + nodes, [e] + edges) && Cost(g, [e] + edges) == EdgeTraversalCost(g, e) + Cost(g, edges)
  {
    CostOfSplit(g, [e], edges);
    assert [e][..0] == [];
  }

  lemma SizeOfSort(q: seq<Entry>)
    ensures |SortQueue(q)| == |q|
  {
    assert |multiset(SortQueue(q))| == |multiset(q)|;
  }

  lemma PopKeepsRelaxed(g: Atlas, s: Search, more: set<NodeId>, level: real)
    requires Relaxed(g, s, s.expanded) && s.queue != []
    ensures Relaxed(g, Popped(s).(cut := more, level := level), s.expanded)
  {
    forall u | u in s.expanded
      ensures RelaxedAt(g, Popped(s).(cut := more, level := level), u, EdgesAt(g, u))
    {
      assert RelaxedAt(g, s, u, EdgesAt(g, u));
    }
  }

  /** A simple walk from a node to itself is that node. */
  lemma SimpleLoop(ids: seq<NodeId>)
    requires Simple(ids) && ids != [] && ids[0] == ids[|ids| - 1]
    ensures ids == [ids[0]]
  {
  }
}