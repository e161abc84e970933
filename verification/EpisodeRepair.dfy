/** Checking a split request: which events may leave an episode together. */
module EpisodeRepair {
  import opened EpisodeTurns
  import opened Options

  datatype SplitError =
    | RequiresEventIds
    | DuplicateEventIds
    | EventNotInSource
    | RequiresProperSubset
    | RequiresContiguousRange
    | RequiresCompleteLogicalTurns
    | RequiresCompleteToolChain
    | RequiresPrimaryUserTurn

  type Events = map<EventId, Event>

  function Resolve(events: Events, e: EventId): Option<Event> {
    if e in events then Some(events[e]) else None
  }

  function ParentOf(events: Events, e: EventId): Option<EventId> {
    if e in events then events[e].parent else None
  }

  function Pairs(events: Events, links: seq<EventId>): (ps: seq<Pair>)
    ensures |ps| == |links| && forall k :: 0 <= k < |ps| ==> ps[k] == Pair(links[k], Resolve(events, links[k]))
  {
    seq(|links|, k requires 0 <= k < |links| => Pair(links[k], Resolve(events, links[k])))
  }

  ghost predicate Distinct<T(!new)>(s: seq<T>) {
    forall i, j :: 0 <= i < j < |s| ==> s[i] != s[j]
  }

  function Ids(ids: seq<EventId>): set<EventId> {
    set e | e in ids
  }

  /* ---------- the conditions ---------- */

  /** The selection is one stretch of the episode. */
  ghost predicate Contiguous(links: seq<EventId>, selected: set<EventId>) {
    exists i, j :: 0 <= i < j <= |links| && IsStretch(links, selected, i, j)
  }

  ghost predicate IsStretch(links: seq<EventId>, selected: set<EventId>, i: int, j: int) {
    forall k :: 0 <= k < |links| ==> (links[k] in selected <==> i <= k < j)
  }

  predicate Whole(turn: seq<Pair>, selected: set<EventId>) {
    || (forall p: Pair :: p in turn ==> p.id in selected)
    || forall p: Pair :: p in turn ==> p.id !in selected
  }

  predicate WholeTurns(turns: seq<seq<Pair>>, selected: set<EventId>) {
    forall k :: 0 <= k < |turns| ==> Whole(turns[k], selected)
  }

  /** The event's parent and children within the episode are selected with it. */
  predicate KeepsFamily(events: Events, links: seq<EventId>, selected: set<EventId>, e: EventId) {
    var parent := ParentOf(events, e);
    && (parent.Some? && parent.value in links ==> parent.value in selected)
    && forall c :: c in links && ParentOf(events, c) == Some(e) ==> c in selected
  }

  predicate KeepsFamilies(events: Events, links: seq<EventId>, selected: set<EventId>) {
    forall e :: e in selected ==> KeepsFamily(events, links, selected, e)
  }

  predicate AllLinked(links: seq<EventId>, selected: set<EventId>) {
    forall e :: e in selected ==> e in links
  }

  predicate HasPrimaryTurn(turns: seq<seq<Pair>>, selected: set<EventId>) {
    exists k :: 0 <= k < |turns| && (forall p: Pair :: p in turns[k] ==> p.id in selected) && HasUser(turns[k])
  }

  /** What is wrong with the ids as a piece of the episode. */
  ghost function ShapeFault(links: seq<EventId>, ids: seq<EventId>): Option<SplitError> {
    if ids == [] then Some(RequiresEventIds)
    else if !Distinct(ids) then Some(DuplicateEventIds)
    else if !AllLinked(links, Ids(ids)) then Some(EventNotInSource)
    else if |ids| >= |links| then Some(RequiresProperSubset)
    else if !Contiguous(links, Ids(ids)) then Some(RequiresContiguousRange)
    else None
  }

  /** What the cut would tear apart. */
  ghost function CutFault(events: Events, links: seq<EventId>, ids: seq<EventId>): Option<SplitError> {
    var turns := Turns(Pairs(events, links));
    if !WholeTurns(turns, Ids(ids)) then Some(RequiresCompleteLogicalTurns)
    else if !KeepsFamilies(events, links, Ids(ids)) then Some(RequiresCompleteToolChain)
    else if !HasPrimaryTurn(turns, Ids(ids)) then Some(RequiresPrimaryUserTurn)
    else None
  }

  /** The first condition the request fails, if any. */
  ghost function FirstFault(events: Events, links: seq<EventId>, ids: seq<EventId>): Option<SplitError> {
    if ShapeFault(links, ids).Some? then ShapeFault(links, ids) else CutFault(events, links, ids)
  }

  /* ---------- the check ---------- */

  /** The positions of the selected events, in order. */
  function Indices(links: seq<EventId>, selected: set<EventId>): (r: seq<nat>)
    ensures forall a :: 0 <= a < |r| ==> r[a] < |links| && links[r[a]] in selected
    ensures forall a, b :: 0 <= a < b < |r| ==> r[a] < r[b]
    ensures forall k: nat :: k < |links| && links[k] in selected ==> k in r
  {
    if links == [] then []
    else
      var last := |links| - 1;
      Indices(links[..last], selected) + if links[last] in selected then [last] else []
  }

  lemma {:induction false} IncreasingSpan(r: seq<nat>, a: nat)
    requires a < |r| && forall i, j :: 0 <= i < j < |r| ==> r[i] < r[j]
    ensures r[0] + a <= r[a]
    ensures r[a] - r[0] == a ==> forall b :: 0 <= b <= a ==> r[b] == r[0] + b
  {
    if a > 0 {
      IncreasingSpan(r, a - 1);
    }
  }

  /** A stretch is a list of indices without holes. */
  lemma NoHoles(links: seq<EventId>, selected: set<EventId>)
    ensures var r := Indices(links, selected);
            Contiguous(links, selected) <==> |r| > 0 && r[|r| - 1] - r[0] + 1 == |r|
  {
    var r := Indices(links, selected);
    if |r| > 0 {
      var n := |r| - 1;
      IncreasingSpan(r, n);
      if r[n] - r[0] + 1 == |r| {
        forall k | 0 <= k < |links| ensures links[k] in selected <==> r[0] <= k < r[n] + 1 {
          if r[0] <= k <= r[n] {
            assert r[k - r[0]] == k;
          }
        }
        assert IsStretch(links, selected, r[0], r[n] + 1);
      }
    }
    if Contiguous(links, selected) {
      var i, j :| 0 <= i < j <= |links| && IsStretch(links, selected, i, j);
      StretchIndices(links, selected, i, j);
    }
  }

  lemma {:induction false} StretchIndices(links: seq<EventId>, selected: set<EventId>, i: nat, j: nat)
    requires i <= j <= |links| && IsStretch(links, selected, i, j)
    ensures var r := Indices(links, selected); |r| == j - i && forall a :: 0 <= a < |r| ==> r[a] == i + a
  {
    if links == [] {
    } else {
      var last := |links| - 1;
      assert forall k :: 0 <= k < last ==> links[..last][k] == links[k];
      if i < j == |links| {
        StretchIndices(links[..last], selected, i, last);
      } else if j < |links| {
        StretchIndices(links[..last], selected, i, j);
      } else {
        StretchIndices(links[..last], selected, last, last);
      }
    }
  }

  method ValidateShape(links: seq<EventId>, ids: seq<EventId>) returns (fault: Option<SplitError>)
    requires Distinct(links)
    ensures fault == ShapeFault(links, ids)
  {
    if |ids| == 0 {
      return Some(RequiresEventIds);
    }
    var selected := Ids(ids);
    DistinctMeansAllCounted(ids);
    if |selected| != |ids| {
      return Some(DuplicateEventIds);
    }
    if !AllLinked(links, selected) {
      return Some(EventNotInSource);
    }
    if |ids| >= |links| {
      return Some(RequiresProperSubset);
    }
    var indices := Indices(links, selected);
    NoHoles(links, selected);
    if |indices| == 0 || indices[|indices| - 1] - indices[0] + 1 != |indices| {
      return Some(RequiresContiguousRange);
    }
    return None;
  }

  method ValidateSplit(events: Events, links: seq<EventId>, ids: seq<EventId>) returns (fault: Option<SplitError>)
    requires Distinct(links)
    ensures fault == FirstFault(events, links, ids)
  {
    fault := ValidateShape(links, ids);
    if fault.Some? {
      return;
    }
    var selected := Ids(ids);
    var turns := LogicalTurnsFromPairs(Pairs(events, links));
    if !WholeTurns(turns, selected) {
      return Some(RequiresCompleteLogicalTurns);
    }
    if !KeepsFamilies(events, links, selected) {
      return Some(RequiresCompleteToolChain);
    }
    if !HasPrimaryTurn(turns, selected) {
      return Some(RequiresPrimaryUserTurn);
    }
    return None;
  }

  lemma {:induction false} DistinctMeansAllCounted(ids: seq<EventId>)
    ensures |Ids(ids)| <= |ids| && (|Ids(ids)| == |ids| <==> Distinct(ids))
  {
    if ids == [] {
      assert Ids(ids) == {};
    } else {
      var before, last := ids[..|ids| - 1], ids[|ids| - 1];
      DistinctMeansAllCounted(before);
      assert ids == before + [last];
      assert Ids(ids) == Ids(before) + {last};
      DistinctOneMore(before, last);
      assert last in Ids(before) <==> last in before;
    }
  }

  lemma DistinctOneMore(before: seq<EventId>, last: EventId)
    ensures Distinct(before + [last]) <==> Distinct(before) && last !in before
  {
    var all := before + [last];
    if Distinct(all) {
      forall i | 0 <= i < |before| ensures before[i] != last {
        assert all[i] != all[|before|];
      }
      forall i, j | 0 <= i < j < |before| ensures before[i] != before[j] {
        assert all[i] != all[j];
      }
    }
  }

  /* ---------- what an accepted split keeps together ---------- */

  ghost predicate Accepted(events: Events, links: seq<EventId>, ids: seq<EventId>) {
    FirstFault(events, links, ids).None?
  }

  /** Two events of the episode, one of which is the other's parent. */
  ghost predicate Related(events: Events, links: seq<EventId>, x: EventId, y: EventId) {
    x in links && y in links && (ParentOf(events, x) == Some(y) || ParentOf(events, y) == Some(x))
  }

  ghost predicate Chain(events: Events, links: seq<EventId>, path: seq<EventId>) {
    path != [] && path[0] in links && forall k :: 0 <= k < |path| - 1 ==> Related(events, links, path[k], path[k + 1])
  }

  lemma FamilyStays(events: Events, links: seq<EventId>, ids: seq<EventId>, x: EventId, y: EventId)
    requires Accepted(events, links, ids) && Related(events, links, x, y)
    ensures x in ids <==> y in ids
  {
    var selected := Ids(ids);
    assert x in selected ==> KeepsFamily(events, links, selected, x);
    assert y in selected ==> KeepsFamily(events, links, selected, y);
  }

  /** No chain of tool calls, however long and in whichever direction, crosses the cut. */
  lemma {:induction false} ChainsStayWhole(events: Events, links: seq<EventId>, ids: seq<EventId>, path: seq<EventId>)
    requires Accepted(events, links, ids) && Chain(events, links, path)
    ensures path[0] in ids <==> path[|path| - 1] in ids
  {
    if |path| == 1 {
    } else {
      var n := |path| - 1;
      ChainsStayWhole(events, links, ids, path[..n]);
      assert Related(events, links, path[n - 1], path[n - 1 + 1]);
      FamilyStays(events, links, ids, path[n - 1], path[n]);
    }
  }

  /** Nor does a logical turn. */
  lemma TurnsStayWhole(events: Events, links: seq<EventId>, ids: seq<EventId>, turn: seq<Pair>, p: Pair, q: Pair)
    requires Accepted(events, links, ids) && turn in Turns(Pairs(events, links)) && p in turn && q in turn
    ensures p.id in ids <==> q.id in ids
  {
    var selected := Ids(ids);
    var turns := Turns(Pairs(events, links));
    var k :| 0 <= k < |turns| && turns[k] == turn;
    assert Whole(turns[k], selected);
    assert p.id in selected <==> p.id in ids;
    assert q.id in selected <==> q.id in ids;
  }

  lemma SubsetSize(a: set<EventId>, b: set<EventId>)
    ensures a <= b ==> |a| <= |b|
  {
    if a <= b {
      assert b == a + (b - a);
    }
  }

  /** Both parts are real: something stays, and the part that leaves has a turn of its own with a user's words in it. */
  lemma BothPartsStand(events: Events, links: seq<EventId>, ids: seq<EventId>)
    requires Accepted(events, links, ids) && Distinct(links)
    ensures exists e :: e in links && e !in ids
    ensures exists p :: p in Pairs(events, links) && FromUser(p) && p.id in ids
  {
    DistinctMeansAllCounted(ids);
    DistinctMeansAllCounted(links);
    var selected, all := Ids(ids), Ids(links);
    SubsetSize(all, selected);
    assert !(all <= selected);
    var ps := Pairs(events, links);
    var turns := Turns(ps);
    var k :| 0 <= k < |turns| && (forall p: Pair :: p in turns[k] ==> p.id in selected) && HasUser(turns[k]);
    var i :| 0 <= i < |turns[k]| && FromUser(turns[k][i]);
    TurnsKeepPairs(ps);
    FlattenContains(turns, k, turns[k][i]);
  }

  /* ---------- what a split is refused for ---------- */

  /** A logical turn with an event on either side of the cut. */
  ghost predicate TearsTurn(events: Events, links: seq<EventId>, ids: seq<EventId>) {
    exists turn, p: Pair, q: Pair :: turn in Turns(Pairs(events, links)) && p in turn && q in turn && p.id in ids && q.id !in ids
  }

  /** An event of the episode and its parent there, on either side of the cut. */
  ghost predicate TearsFamily(events: Events, links: seq<EventId>, ids: seq<EventId>) {
    exists child, parent ::
      && child in links && parent in links && child in events && events[child].parent == Some(parent)
      && (child in ids <==> parent !in ids)
  }

  /** A logical turn that leaves as a whole, with a user's words in it. */
  ghost predicate TakesUserTurn(events: Events, links: seq<EventId>, ids: seq<EventId>) {
    exists turn, p: Pair ::
      && turn in Turns(Pairs(events, links)) && (forall q: Pair :: q in turn ==> q.id in ids)
      && p in turn && p.event.Some? && p.event.value.role.User?
  }

  lemma TurnsWholeIff(events: Events, links: seq<EventId>, ids: seq<EventId>)
    ensures WholeTurns(Turns(Pairs(events, links)), Ids(ids)) <==> !TearsTurn(events, links, ids)
  {
    var turns, selected := Turns(Pairs(events, links)), Ids(ids);
    if !WholeTurns(turns, selected) {
      var k :| 0 <= k < |turns| && !Whole(turns[k], selected);
      var p: Pair :| p in turns[k] && p.id in selected;
      var q: Pair :| q in turns[k] && q.id !in selected;
      assert turns[k] in turns && p.id in ids && q.id !in ids;
    }
    if turn, p: Pair, q: Pair :| turn in turns && p in turn && q in turn && p.id in ids && q.id !in ids {
      var k :| 0 <= k < |turns| && turns[k] == turn;
      assert p.id in selected && q.id !in selected && !Whole(turns[k], selected);
    }
  }

  lemma FamiliesKeptIff(events: Events, links: seq<EventId>, ids: seq<EventId>)
    requires AllLinked(links, Ids(ids))
    ensures KeepsFamilies(events, links, Ids(ids)) <==> !TearsFamily(events, links, ids)
  {
    var selected := Ids(ids);
    if !KeepsFamilies(events, links, selected) {
      var e :| e in selected && !KeepsFamily(events, links, selected, e);
      var parent := ParentOf(events, e);
      if parent.Some? && parent.value in links && parent.value !in selected {
        assert events[e].parent == Some(parent.value) && e in ids && parent.value !in ids;
      } else {
        var c :| c in links && ParentOf(events, c) == Some(e) && c !in selected;
        assert events[c].parent == Some(e) && e in ids && c !in ids;
      }
    }
    if child, parent :| child in links && parent in links && child in events && events[child].parent == Some(parent)
                        && (child in ids <==> parent !in ids) {
      assert ParentOf(events, child) == Some(parent);
      assert !KeepsFamily(events, links, selected, if child in ids then child else parent);
    }
  }

  lemma PrimaryTurnIff(events: Events, links: seq<EventId>, ids: seq<EventId>)
    ensures HasPrimaryTurn(Turns(Pairs(events, links)), Ids(ids)) <==> TakesUserTurn(events, links, ids)
  {
    var turns, selected := Turns(Pairs(events, links)), Ids(ids);
    if k :| 0 <= k < |turns| && (forall p: Pair :: p in turns[k] ==> p.id in selected) && HasUser(turns[k]) {
      var i :| 0 <= i < |turns[k]| && FromUser(turns[k][i]);
      assert turns[k] in turns && turns[k][i] in turns[k];
      assert forall q: Pair :: q in turns[k] ==> q.id in ids;
    }
    if turn, p: Pair :| turn in turns && (forall q: Pair :: q in turn ==> q.id in ids)
                        && p in turn && p.event.Some? && p.event.value.role.User? {
      var k :| 0 <= k < |turns| && turns[k] == turn;
      var i :| 0 <= i < |turn| && turn[i] == p;
      assert FromUser(turns[k][i]);
    }
  }

  /** Which complaint a request meets once its ids are a stretch of the episode. */
  lemma CutRefusedAs(events: Events, links: seq<EventId>, ids: seq<EventId>)
    requires ShapeFault(links, ids).None?
    ensures var turn, family, user := TearsTurn(events, links, ids), TearsFamily(events, links, ids), TakesUserTurn(events, links, ids);
            && (FirstFault(events, links, ids) == Some(RequiresCompleteLogicalTurns) <==> turn)
            && (FirstFault(events, links, ids) == Some(RequiresCompleteToolChain) <==> !turn && family)
            && (FirstFault(events, links, ids) == Some(RequiresPrimaryUserTurn) <==> !turn && !family && !user)
            && (FirstFault(events, links, ids).None? <==> !turn && !family && user)
  {
    TurnsWholeIff(events, links, ids);
    FamiliesKeptIff(events, links, ids);
    PrimaryTurnIff(events, links, ids);
  }

  predicate GapAt(links: seq<EventId>, ids: seq<EventId>, a: nat, b: nat, c: nat) {
    a < b < c < |links| && links[a] in ids && links[b] !in ids && links[c] in ids
  }

  /** An event left out between two that are selected. */
  ghost predicate HasGap(links: seq<EventId>, ids: seq<EventId>) {
    exists a: nat, b: nat, c: nat :: GapAt(links, ids, a, b, c)
  }

  lemma StretchHasNoGap(links: seq<EventId>, ids: seq<EventId>)
    requires Contiguous(links, Ids(ids))
    ensures !HasGap(links, ids)
  {
    var i, j :| 0 <= i < j <= |links| && IsStretch(links, Ids(ids), i, j);
    forall a: nat, b: nat, c: nat ensures !GapAt(links, ids, a, b, c) {
      assert forall k: nat :: k < |links| ==> (links[k] in ids <==> links[k] in Ids(ids));
    }
  }

  /** The first and the last position with a selected event. */
  lemma Ends(links: seq<EventId>, ids: seq<EventId>) returns (first: nat, last: nat)
    requires ids != [] && AllLinked(links, Ids(ids))
    ensures first <= last < |links| && links[first] in ids && links[last] in ids
    ensures forall b: nat :: b < |links| && links[b] in ids ==> first <= b <= last
  {
    var r := Indices(links, Ids(ids));
    assert ids[0] in Ids(ids);
    var k: nat :| k < |links| && links[k] == ids[0];
    assert k in r;
    first, last := r[0], r[|r| - 1];
    forall b: nat | b < |links| && links[b] in ids ensures first <= b <= last {
      assert links[b] in Ids(ids) && b in r;
    }
  }

  lemma NoGapIsStretch(links: seq<EventId>, ids: seq<EventId>)
    requires ids != [] && AllLinked(links, Ids(ids)) && !HasGap(links, ids)
    ensures Contiguous(links, Ids(ids))
  {
    var first, last := Ends(links, ids);
    forall b: nat | b < |links| ensures links[b] in Ids(ids) <==> first <= b < last + 1 {
      assert !GapAt(links, ids, first, b, last);
    }
    assert IsStretch(links, Ids(ids), first, last + 1);
  }

  /** And before that: no ids, one twice, one of another episode, the whole episode, or a gap. */
  lemma ShapeRefusedAs(events: Events, links: seq<EventId>, ids: seq<EventId>)
    ensures var none, twice, foreign, all := ids == [], (exists i, j :: 0 <= i < j < |ids| && ids[i] == ids[j]),
                                             (exists e :: e in ids && e !in links), |ids| >= |links|;
            var fault := FirstFault(events, links, ids);
            && (fault == Some(RequiresEventIds) <==> none)
            && (fault == Some(DuplicateEventIds) <==> !none && twice)
            && (fault == Some(EventNotInSource) <==> !none && !twice && foreign)
            && (fault == Some(RequiresProperSubset) <==> !none && !twice && !foreign && all)
            && (fault == Some(RequiresContiguousRange) <==> !none && !twice && !foreign && !all && HasGap(links, ids))
  {
    assert AllLinked(links, Ids(ids)) <==> forall e :: e in ids ==> e in links;
    if ids != [] && AllLinked(links, Ids(ids)) {
      if Contiguous(links, Ids(ids)) {
        StretchHasNoGap(links, ids);
      } else if !HasGap(links, ids) {
        NoGapIsStretch(links, ids);
      }
    }
  }
}
