/** Moving events between episodes: a single event, a split, a merge.  Every event keeps exactly one episode. */
module EpisodeMoves {
  import opened EpisodeRepair
  import opened EpisodeTurns
  import opened Options

  type EpisodeId = nat

  datatype Scope = Scope(project: nat, session: nat, agent: Option<nat>, thread: Option<nat>)

  datatype Status = Open | SoftSealed | Sealed

  /** An episode with its linked events in the order of their positions. */
  datatype Episode = Episode(scope: Scope, status: Status, events: seq<EventId>)

  datatype RepairError =
    | ProjectMismatch
    | SplitRequiresSealedSource
    | SplitRefused(fault: SplitError)
    | EventNotFound
    | MoveSourceEqualsTarget
    | MoveScopeMismatch
    | MergeSourceEqualsTarget
    | MergeScopeMismatch

  /** `home` is the episode column of the link table, which has one row an event. */
  datatype Tables = Tables(home: map<EventId, EpisodeId>, episodes: map<EpisodeId, Episode>)

  ghost predicate HomeLists(t: Tables) {
    forall e {:trigger t.home[e]} :: e in t.home ==> t.home[e] in t.episodes && e in t.episodes[t.home[e]].events
  }

  ghost predicate ListFits(t: Tables, p: EpisodeId) {
    p in t.episodes ==>
      && Distinct(t.episodes[p].events)
      && forall e :: e in t.episodes[p].events ==> e in t.home && t.home[e] == p
  }

  /** The links and the episodes' event lists say the same, and no list names an event twice. */
  ghost predicate Consistent(t: Tables) {
    HomeLists(t) && forall p {:trigger ListFits(t, p)} :: ListFits(t, p)
  }

  predicate Holds(t: Tables, p: EpisodeId, i: int, e: EventId) {
    p in t.episodes && 0 <= i < |t.episodes[p].events| && t.episodes[p].events[i] == e
  }

  /** Every linked event is in exactly one episode's list, once. */
  lemma ExactlyOneEpisode(t: Tables, e: EventId)
    requires Consistent(t) && e in t.home
    ensures exists p, i :: Holds(t, p, i, e)
    ensures forall p, i, q, j :: Holds(t, p, i, e) && Holds(t, q, j, e) ==> p == q && i == j
  {
    var p := t.home[e];
    var i :| 0 <= i < |t.episodes[p].events| && t.episodes[p].events[i] == e;
    assert Holds(t, p, i, e);
    assert ListFits(t, p);
    forall q, j | Holds(t, q, j, e) ensures q == p && j == i {
      assert ListFits(t, q);
      assert e in t.episodes[q].events;
    }
  }

  /* ---------- resequencing ---------- */

  /** What the canonical order looks at.  An event that cannot be found has none of it. */
  datatype Stamp = Stamp(turnSeq: Option<int>, ordinal: Option<int>, globalSeq: Option<int>, occurredAt: Option<int>)

  type Rank = EventId -> Stamp

  const MAX_SAFE_INTEGER := 9_007_199_254_740_991

  function Numeric(value: Option<int>): int {
    match value case None => MAX_SAFE_INTEGER case Some(n) => n
  }

  /** By turn, then ordinal, then global sequence, then time.  Equal stamps keep their positions. */
  predicate NotAfter(a: Stamp, b: Stamp) {
    if Numeric(a.turnSeq) != Numeric(b.turnSeq) then Numeric(a.turnSeq) < Numeric(b.turnSeq)
    else if Numeric(a.ordinal) != Numeric(b.ordinal) then Numeric(a.ordinal) < Numeric(b.ordinal)
    else if Numeric(a.globalSeq) != Numeric(b.globalSeq) then Numeric(a.globalSeq) < Numeric(b.globalSeq)
    else Numeric(a.occurredAt) <= Numeric(b.occurredAt)
  }

  predicate Tied(a: Stamp, b: Stamp) {
    NotAfter(a, b) && NotAfter(b, a)
  }

  function Placed(rank: Rank, e: EventId, s: seq<EventId>): (r: seq<EventId>)
    ensures multiset(r) == multiset(s) + multiset{e}
  {
    if s == [] then [e]
    else
      assert s == s[..|s| - 1] + [s[|s| - 1]];
      if NotAfter(rank(s[|s| - 1]), rank(e)) then s + [e]
      else Placed(rank, e, s[..|s| - 1]) + [s[|s| - 1]]
  }

  function Resequenced(rank: Rank, s: seq<EventId>): (r: seq<EventId>)
    ensures multiset(r) == multiset(s)
  {
    if s == [] then []
    else
      assert s == s[..|s| - 1] + [s[|s| - 1]];
      Placed(rank, s[|s| - 1], Resequenced(rank, s[..|s| - 1]))
  }

  function OrLast(value: Option<int>): int {
    if value.Some? then value.value else 9007199254740991
  }

  /** The first of the four that differ is smaller, or none differs; what is missing is as large as can be. */
  predicate ComesFirst(a: Stamp, b: Stamp) {
    var turn, ordinal, sequence :=
      OrLast(b.turnSeq) - OrLast(a.turnSeq), OrLast(b.ordinal) - OrLast(a.ordinal), OrLast(b.globalSeq) - OrLast(a.globalSeq);
    || turn > 0
    || (turn == 0 && ordinal > 0)
    || (turn == 0 && ordinal == 0 && sequence > 0)
    || (turn == 0 && ordinal == 0 && sequence == 0 && OrLast(a.occurredAt) <= OrLast(b.occurredAt))
  }

  lemma NotAfterComesFirst(a: Stamp, b: Stamp)
    ensures NotAfter(a, b) <==> ComesFirst(a, b)
  {
  }

  ghost predicate InOrder(rank: Rank, s: seq<EventId>) {
    forall i, j :: 0 <= i < j < |s| ==> NotAfter(rank(s[i]), rank(s[j]))
  }

  lemma {:induction false} PlacedInOrder(rank: Rank, e: EventId, s: seq<EventId>)
    requires InOrder(rank, s)
    ensures InOrder(rank, Placed(rank, e, s))
  {
    if s == [] || NotAfter(rank(s[|s| - 1]), rank(e)) {
    } else {
      var init := s[..|s| - 1];
      PlacedInOrder(rank, e, init);
      forall x | x in Placed(rank, e, init) ensures NotAfter(rank(x), rank(s[|s| - 1])) {
        assert x in multiset(Placed(rank, e, init));
        if x != e {
          assert x in init;
        }
      }
    }
  }

  /** The events with the stamp of `e`, in the order of the list. */
  function TiedWith(rank: Rank, s: seq<EventId>, e: EventId): seq<EventId> {
    if s == [] then []
    else TiedWith(rank, s[..|s| - 1], e) + if Tied(rank(s[|s| - 1]), rank(e)) then [s[|s| - 1]] else []
  }

  lemma TiedOneMore(rank: Rank, s: seq<EventId>, x: EventId, e: EventId)
    ensures TiedWith(rank, s + [x], e) == TiedWith(rank, s, e) + if Tied(rank(x), rank(e)) then [x] else []
  {
    assert (s + [x])[..|s|] == s;
  }

  lemma TieOfAtMostOne(a: Stamp, b: Stamp, e: Stamp)
    requires !NotAfter(a, b)
    ensures !(Tied(a, e) && Tied(b, e))
  {
  }

  /** Two lists that end alike have their ties from the parts before. */
  lemma SameEnding(rank: Rank, s: seq<EventId>, placed: seq<EventId>, x: EventId, last: EventId, e: EventId)
    requires TiedWith(rank, placed, e) == TiedWith(rank, s, e) + if Tied(rank(x), rank(e)) then [x] else []
    requires !(Tied(rank(last), rank(e)) && Tied(rank(x), rank(e)))
    ensures TiedWith(rank, placed + [last], e) == TiedWith(rank, s + [last], e) + if Tied(rank(x), rank(e)) then [x] else []
  {
    TiedOneMore(rank, s, last, e);
    TiedOneMore(rank, placed, last, e);
  }

  lemma {:induction false} PlacedAfterTies(rank: Rank, x: EventId, s: seq<EventId>, e: EventId)
    ensures TiedWith(rank, Placed(rank, x, s), e) == TiedWith(rank, s, e) + if Tied(rank(x), rank(e)) then [x] else []
  {
    if s == [] || NotAfter(rank(s[|s| - 1]), rank(x)) {
      TiedOneMore(rank, s, x, e);
      assert s == [] ==> s + [x] == [x];
    } else {
      var init, last := s[..|s| - 1], s[|s| - 1];
      PlacedAfterTies(rank, x, init, e);
      TieOfAtMostOne(rank(last), rank(x), rank(e));
      SameEnding(rank, init, Placed(rank, x, init), x, last, e);
      assert s == init + [last];
    }
  }

  /** Resequencing sorts by the canonical order and leaves events with one stamp in the order they had. */
  lemma {:induction false} ResequencedInOrder(rank: Rank, s: seq<EventId>, e: EventId)
    ensures InOrder(rank, Resequenced(rank, s))
    ensures forall i, j :: 0 <= i < j < |Resequenced(rank, s)| ==> ComesFirst(rank(Resequenced(rank, s)[i]), rank(Resequenced(rank, s)[j]))
    ensures TiedWith(rank, Resequenced(rank, s), e) == TiedWith(rank, s, e)
  {
    if s == [] {
    } else {
      var before := Resequenced(rank, s[..|s| - 1]);
      ResequencedInOrder(rank, s[..|s| - 1], e);
      PlacedInOrder(rank, s[|s| - 1], before);
      PlacedAfterTies(rank, s[|s| - 1], before, e);
      var after := Resequenced(rank, s);
      forall i, j | 0 <= i < j < |after| ensures ComesFirst(rank(after[i]), rank(after[j])) {
        NotAfterComesFirst(rank(after[i]), rank(after[j]));
      }
    }
  }

  lemma {:induction false} DistinctCounts(s: seq<EventId>)
    ensures Distinct(s) <==> forall e :: multiset(s)[e] <= 1
  {
    if s == [] {
    } else {
      var init, last := s[..|s| - 1], s[|s| - 1];
      assert s == init + [last];
      DistinctCounts(init);
      DistinctOneMore(init, last);
      assert last in init <==> multiset(init)[last] >= 1;
      assert forall e :: multiset(s)[e] == multiset(init)[e] + if e == last then 1 else 0;
      if Distinct(init) && last !in init {
      } else if Distinct(init) {
        assert multiset(s)[last] > 1;
      } else {
        var e :| multiset(init)[e] > 1;
        assert multiset(s)[e] > 1;
      }
    }
  }

  /** A resequenced list has the same events, still once each. */
  lemma ResequencedSame(rank: Rank, s: seq<EventId>)
    ensures Distinct(s) ==> Distinct(Resequenced(rank, s))
    ensures forall e :: e in Resequenced(rank, s) <==> e in s
    ensures |Resequenced(rank, s)| == |s|
  {
    DistinctCounts(s);
    DistinctCounts(Resequenced(rank, s));
    forall e ensures e in Resequenced(rank, s) <==> e in s {
      assert e in s <==> e in multiset(s);
      assert e in Resequenced(rank, s) <==> e in multiset(Resequenced(rank, s));
    }
    assert |multiset(s)| == |s| && |multiset(Resequenced(rank, s))| == |Resequenced(rank, s)|;
  }

  function Without(s: seq<EventId>, e: EventId): (r: seq<EventId>)
    ensures forall x :: x in r <==> x in s && x != e
    ensures Distinct(s) ==> Distinct(r)
  {
    if s == [] then []
    else
      var init, last := s[..|s| - 1], s[|s| - 1];
      assert s == init + [last];
      assert forall x :: x in s <==> x in init || x == last;
      DistinctOneMore(init, last);
      DistinctOneMore(Without(init, e), last);
      Without(init, e) + if last == e then [] else [last]
  }

  /** Taking an event out leaves the others in the order they had. */
  lemma {:induction false} WithoutIsRest(s: seq<EventId>, i: nat)
    requires Distinct(s) && i < |s|
    ensures Without(s, s[i]) == s[..i] + s[i + 1..]
  {
    var last := |s| - 1;
    var init := s[..last];
    if i < last {
      WithoutIsRest(init, i);
      assert init[..i] + init[i + 1..] + [s[last]] == s[..i] + s[i + 1..];
    } else {
      WithoutNone(init, s[i]);
    }
  }

  lemma {:induction false} WithoutNone(s: seq<EventId>, e: EventId)
    requires e !in s
    ensures Without(s, e) == s
  {
    if s != [] {
      WithoutNone(s[..|s| - 1], e);
    }
  }

  /* ---------- one move ---------- */

  function Listed(rank: Rank, ep: Episode, events: seq<EventId>): Episode {
    ep.(events := Resequenced(rank, events))
  }

  /** The episodes after one event has moved to another episode; an emptied episode is deleted. */
  function EpisodesAfterMove(episodes: map<EpisodeId, Episode>, rank: Rank, e: EventId, source: EpisodeId, target: EpisodeId): map<EpisodeId, Episode>
    requires source in episodes && target in episodes
  {
    var stay := Without(episodes[source].events, e);
    var joined := Listed(rank, episodes[target], episodes[target].events + [e]);
    if stay == [] then (episodes - {source})[target := joined]
    else episodes[source := Listed(rank, episodes[source], stay)][target := joined]
  }

  /* What the move does to each episode. */

  lemma ResequencedIds(rank: Rank, s: seq<EventId>)
    ensures Ids(Resequenced(rank, s)) == Ids(s) && (Distinct(s) ==> Distinct(Resequenced(rank, s)))
  {
    ResequencedSame(rank, s);
  }

  lemma WithoutIds(s: seq<EventId>, e: EventId)
    ensures Ids(Without(s, e)) == Ids(s) - {e} && (Without(s, e) == [] <==> Ids(s) <= {e})
  {
    EmptyIds(Without(s, e));
  }

  lemma MoveAtSource(episodes: map<EpisodeId, Episode>, rank: Rank, e: EventId, source: EpisodeId, target: EpisodeId)
    requires source in episodes && target in episodes && source != target
    ensures var after := EpisodesAfterMove(episodes, rank, e, source, target);
            && (source in after <==> !(Ids(episodes[source].events) <= {e}))
            && (source in after ==>
                  && Ids(after[source].events) == Ids(episodes[source].events) - {e}
                  && (Distinct(episodes[source].events) ==> Distinct(after[source].events))
                  && after[source].scope == episodes[source].scope && after[source].status == episodes[source].status)
  {
    var stay := Without(episodes[source].events, e);
    ResequencedIds(rank, stay);
    WithoutIds(episodes[source].events, e);
    var after := EpisodesAfterMove(episodes, rank, e, source, target);
    assert source in after ==> after[source] == Listed(rank, episodes[source], stay);
  }

  lemma JoinIds(s: seq<EventId>, e: EventId)
    ensures Ids(s + [e]) == Ids(s) + {e} && (Distinct(s) && e !in s ==> Distinct(s + [e]))
  {
    DistinctOneMore(s, e);
  }

  lemma MoveAtTarget(episodes: map<EpisodeId, Episode>, rank: Rank, e: EventId, source: EpisodeId, target: EpisodeId)
    requires source in episodes && target in episodes && source != target
    ensures var after := EpisodesAfterMove(episodes, rank, e, source, target);
            && target in after
            && Ids(after[target].events) == Ids(episodes[target].events) + {e}
            && (Distinct(episodes[target].events) && e !in episodes[target].events ==> Distinct(after[target].events))
            && after[target].scope == episodes[target].scope && after[target].status == episodes[target].status
  {
    var join := episodes[target].events + [e];
    ResequencedIds(rank, join);
    JoinIds(episodes[target].events, e);
    assert EpisodesAfterMove(episodes, rank, e, source, target)[target] == Listed(rank, episodes[target], join);
  }

  ghost predicate KeptAt(before: map<EpisodeId, Episode>, after: map<EpisodeId, Episode>, p: EpisodeId) {
    (p in after <==> p in before) && (p in after ==> after[p] == before[p])
  }

  lemma MoveElsewhere(episodes: map<EpisodeId, Episode>, rank: Rank, e: EventId, source: EpisodeId, target: EpisodeId, p: EpisodeId)
    requires source in episodes && target in episodes && p != source && p != target
    ensures KeptAt(episodes, EpisodesAfterMove(episodes, rank, e, source, target), p)
  {
  }

  lemma EmptyIds(s: seq<EventId>)
    ensures Ids(s) == {} <==> s == []
  {
    if s != [] {
      assert s[0] in Ids(s);
    }
  }

  lemma InIds(s: seq<EventId>, e: EventId)
    ensures e in Ids(s) <==> e in s
  {
  }

  lemma MovedListFits(t: Tables, u: Tables, rank: Rank, e: EventId, target: EpisodeId, p: EpisodeId)
    requires Consistent(t) && e in t.home && target in t.episodes && t.home[e] != target && t.home[e] in t.episodes
    requires u == Tables(t.home[e := target], EpisodesAfterMove(t.episodes, rank, e, t.home[e], target))
    ensures ListFits(u, p)
  {
    var source := t.home[e];
    assert ListFits(t, p);
    if p == source {
      MoveAtSource(t.episodes, rank, e, source, target);
      if p in u.episodes {
        forall x | x in u.episodes[p].events ensures x in u.home && u.home[x] == p {
          InIds(u.episodes[p].events, x);
          InIds(t.episodes[p].events, x);
        }
      }
    } else if p == target {
      MoveAtTarget(t.episodes, rank, e, source, target);
      forall x | x in u.episodes[p].events ensures x in u.home && u.home[x] == p {
        InIds(u.episodes[p].events, x);
        InIds(t.episodes[p].events, x);
      }
    } else {
      MoveElsewhere(t.episodes, rank, e, source, target, p);
    }
  }

  lemma MovedHomeLists(t: Tables, u: Tables, rank: Rank, e: EventId, target: EpisodeId, x: EventId)
    requires HomeLists(t) && e in t.home && target in t.episodes && t.home[e] != target && t.home[e] in t.episodes
    requires u == Tables(t.home[e := target], EpisodesAfterMove(t.episodes, rank, e, t.home[e], target))
    requires x in u.home
    ensures u.home[x] in u.episodes && x in u.episodes[u.home[x]].events
  {
    var source, p := t.home[e], u.home[x];
    if p == target {
      MoveAtTarget(t.episodes, rank, e, source, target);
      InIds(u.episodes[p].events, x);
      InIds(t.episodes[p].events, x);
    } else if p == source {
      MoveAtSource(t.episodes, rank, e, source, target);
      InIds(t.episodes[p].events, x);
      if p in u.episodes {
        InIds(u.episodes[p].events, x);
      }
    } else {
      MoveElsewhere(t.episodes, rank, e, source, target, p);
    }
  }

  lemma MoveKeepsConsistent(t: Tables, rank: Rank, e: EventId, target: EpisodeId)
    requires Consistent(t) && e in t.home && target in t.episodes && t.home[e] != target && t.home[e] in t.episodes
    ensures Consistent(Tables(t.home[e := target], EpisodesAfterMove(t.episodes, rank, e, t.home[e], target)))
  {
    var u := Tables(t.home[e := target], EpisodesAfterMove(t.episodes, rank, e, t.home[e], target));
    forall x | x in u.home ensures u.home[x] in u.episodes && x in u.episodes[u.home[x]].events {
      MovedHomeLists(t, u, rank, e, target, x);
    }
    forall p ensures ListFits(u, p) {
      MovedListFits(t, u, rank, e, target, p);
    }
  }

  class EpisodeStore {
    const rank: Rank
    var home: map<EventId, EpisodeId>
    var episodes: map<EpisodeId, Episode>

    ghost function Contents(): Tables
      reads this
    {
      Tables(home, episodes)
    }

    constructor (rank: Rank)
      ensures Consistent(Contents()) && home == map[] && episodes == map[]
    {
      this.rank := rank;
      home, episodes := map[], map[];
    }

    /** Move one event to another episode of the same scope and put both episodes in canonical order. */
    method MoveEventForRepair(e: EventId, target: EpisodeId)
      requires Consistent(Contents()) && e in home && target in episodes && home[e] != target
      requires episodes[home[e]].scope == episodes[target].scope
      modifies this`home, this`episodes
      ensures Consistent(Contents())
      ensures home == old(home)[e := target]
      ensures episodes == EpisodesAfterMove(old(episodes), rank, e, old(home)[e], target)
    {
      MoveKeepsConsistent(Contents(), rank, e, target);
      var source := home[e];
      home := home[e := target];
      var stay := Without(episodes[source].events, e);
      var join := episodes[target].events + [e];
      if |stay| == 0 {
        episodes := episodes - {source};
      } else {
        episodes := episodes[source := episodes[source].(events := Resequenced(rank, stay))];
      }
      episodes := episodes[target := episodes[target].(events := Resequenced(rank, join))];
    }

    /** Move several events of one episode, one after the other. */
    method MoveAll(ids: seq<EventId>, source: EpisodeId, target: EpisodeId)
      requires Consistent(Contents()) && source in episodes && target in episodes && source != target
      requires episodes[source].scope == episodes[target].scope
      requires Distinct(ids) && forall e :: e in ids ==> e in episodes[source].events
      modifies this`home, this`episodes
      ensures Consistent(Contents())
      ensures home == Rehomed(old(home), Ids(ids), target)
      ensures AfterMoves(old(episodes), episodes, Ids(ids), source, target)
    {
      assert Ids(ids[..0]) == {};
      NothingMoved(Contents(), source, target);
      for k := 0 to |ids|
        invariant Consistent(Contents())
        invariant home == Rehomed(old(home), Ids(ids[..k]), target)
        invariant AfterMoves(old(episodes), episodes, Ids(ids[..k]), source, target)
      {
        var e := ids[k];
        ghost var before := Contents();
        assert ids[..k + 1] == ids[..k] + [e];
        assert Ids(ids[..k + 1]) == Ids(ids[..k]) + {e};
        assert ListFits(old(Contents()), source);
        StillAtSource(old(Contents()), before, Ids(ids[..k]), source, target, e);
        OneMoreHome(old(home), Ids(ids[..k]), target, e);
        OneMoreMove(old(episodes), before.episodes, rank, Ids(ids[..k]), source, target, e);
        MoveEventForRepair(e, target);
      }
      assert ids[..|ids|] == ids;
    }

    method Split(project: nat, id: EpisodeId, ids: seq<EventId>, events: Events, created: EpisodeId) returns (error: Option<RepairError>)
      requires Consistent(Contents()) && created !in episodes
      modifies this`home, this`episodes
      ensures Consistent(Contents())
      ensures error == SplitFailure(old(Contents()), project, id, ids, events)
      ensures error.Some? ==> Contents() == old(Contents())
      ensures error.None? ==>
                && home == Rehomed(old(home), Ids(ids), created)
                && id in episodes && Ids(episodes[id].events) == Ids(old(episodes)[id].events) - Ids(ids)
                && created in episodes && Ids(episodes[created].events) == Ids(ids)
                && episodes[created].scope == old(episodes)[id].scope && episodes[created].status == Sealed
                && (forall p {:trigger KeptAt(old(episodes), episodes, p)} :: p != id && p != created ==> KeptAt(old(episodes), episodes, p))
    {
      var links := if id in episodes then episodes[id].events else [];
      assert ListFits(Contents(), id);
      var fault := ValidateSplit(events, links, ids);
      if fault == Some(RequiresEventIds) || fault == Some(DuplicateEventIds) {
        return Some(SplitRefused(fault.value));
      }
      if id !in episodes || episodes[id].scope.project != project {
        return Some(ProjectMismatch);
      }
      var source := episodes[id];
      if source.status != Sealed {
        return Some(SplitRequiresSealedSource);
      }
      if fault.Some? {
        return Some(SplitRefused(fault.value));
      }
      var selected := Chosen(links, ids);
      if selected[0] !in events {
        return Some(EventNotFound);
      }
      MoveOut(selected, id, created);
      AcceptedShape(events, links, ids);
      return None;
    }

    /** Create an episode beside the source and move the selected events there. */
    method MoveOut(selected: seq<EventId>, id: EpisodeId, created: EpisodeId)
      requires Consistent(Contents()) && created !in episodes && id in episodes
      requires Distinct(selected) && forall e :: e in selected ==> e in episodes[id].events
      modifies this`home, this`episodes
      ensures Consistent(Contents())
      ensures home == Rehomed(old(home), Ids(selected), created)
      ensures SourceAfter(old(episodes)[id], episodes, Ids(selected), id)
      ensures created in episodes && Ids(episodes[created].events) == Ids(selected)
      ensures episodes[created].scope == old(episodes)[id].scope && episodes[created].status == old(episodes)[id].status
      ensures forall p {:trigger KeptAt(old(episodes), episodes, p)} :: p != id && p != created ==> KeptAt(old(episodes), episodes, p)
    {
      var source := episodes[id];
      NewEpisodeIsConsistent(Contents(), created, source.scope);
      episodes := episodes[created := Episode(source.scope, Open, [])];
      ghost var start := episodes;
      MoveAll(selected, id, created);
      ghost var moved := Contents();
      episodes := episodes[created := episodes[created].(status := source.status)];
      StatusIsConsistent(moved, created, source.status);
      assert Ids(start[created].events) == {};
      forall p | p != id && p != created ensures KeptAt(old(episodes), episodes, p) {
        assert KeptAt(start, moved.episodes, p);
      }
    }

    method Merge(project: nat, source: EpisodeId, target: EpisodeId) returns (error: Option<RepairError>)
      requires Consistent(Contents())
      modifies this`home, this`episodes
      ensures Consistent(Contents())
      ensures error == MergeFailure(old(Contents()), project, source, target)
      ensures error.Some? ==> Contents() == old(Contents())
      ensures error.None? ==>
                && home == Rehomed(old(home), Ids(old(episodes)[source].events), target)
                && target in episodes
                && Ids(episodes[target].events) == Ids(old(episodes)[source].events) + Ids(old(episodes)[target].events)
                && episodes[target].scope == old(episodes)[target].scope && episodes[target].status == old(episodes)[target].status
                && (source in episodes <==> old(episodes)[source].events == [])
                && (source in episodes ==> episodes[source] == old(episodes)[source])
                && (forall p {:trigger KeptAt(old(episodes), episodes, p)} :: p != source && p != target ==> KeptAt(old(episodes), episodes, p))
    {
      if source == target {
        return Some(MergeSourceEqualsTarget);
      }
      if source !in episodes || target !in episodes || episodes[source].scope.project != project || episodes[target].scope.project != project {
        return Some(ProjectMismatch);
      }
      if episodes[source].scope != episodes[target].scope {
        return Some(MergeScopeMismatch);
      }
      var links := episodes[source].events;
      assert ListFits(Contents(), source);
      EmptyIds(links);
      MoveAll(links, source, target);
      if source in episodes {
        EmptyIds(episodes[source].events);
      }
      return None;
    }

    method MoveEvent(project: nat, e: EventId, target: EpisodeId) returns (error: Option<RepairError>)
      requires Consistent(Contents())
      modifies this`home, this`episodes
      ensures Consistent(Contents())
      ensures error == MoveFailure(old(Contents()), project, e, target)
      ensures error.Some? ==> Contents() == old(Contents())
      ensures error.None? ==> home == old(home)[e := target]
                              && episodes == EpisodesAfterMove(old(episodes), rank, e, old(home)[e], target)
    {
      if e in home && home[e] == target {
        return Some(MoveSourceEqualsTarget);
      }
      if e !in home || target !in episodes || episodes[home[e]].scope.project != project || episodes[target].scope.project != project {
        return Some(ProjectMismatch);
      }
      if episodes[home[e]].scope != episodes[target].scope {
        return Some(MoveScopeMismatch);
      }
      MoveEventForRepair(e, target);
      return None;
    }
  }

  /* ---------- several moves ---------- */

  function Rehomed(home: map<EventId, EpisodeId>, moved: set<EventId>, target: EpisodeId): map<EventId, EpisodeId> {
    map e | e in home :: if e in moved then target else home[e]
  }

  ghost predicate SourceAfter(before: Episode, after: map<EpisodeId, Episode>, moved: set<EventId>, source: EpisodeId) {
    && (source in after <==> moved == {} || !(Ids(before.events) <= moved))
    && (source in after ==>
          && after[source].scope == before.scope && after[source].status == before.status
          && Ids(after[source].events) == Ids(before.events) - moved)
  }

  ghost predicate TargetAfter(before: Episode, after: map<EpisodeId, Episode>, moved: set<EventId>, target: EpisodeId) {
    && target in after
    && after[target].scope == before.scope && after[target].status == before.status
    && Ids(after[target].events) == Ids(before.events) + moved
  }

  /** How the episodes stand after the events `moved` have gone from source to target. */
  ghost predicate AfterMoves(before: map<EpisodeId, Episode>, after: map<EpisodeId, Episode>,
                             moved: set<EventId>, source: EpisodeId, target: EpisodeId) {
    && source in before && target in before
    && SourceAfter(before[source], after, moved, source)
    && TargetAfter(before[target], after, moved, target)
    && forall p {:trigger KeptAt(before, after, p)} :: p != source && p != target ==> KeptAt(before, after, p)
  }

  lemma NothingMoved(t: Tables, source: EpisodeId, target: EpisodeId)
    requires source in t.episodes && target in t.episodes
    ensures AfterMoves(t.episodes, t.episodes, {}, source, target)
    ensures Rehomed(t.home, {}, target) == t.home
  {
  }

  lemma StillAtSource(t0: Tables, t: Tables, moved: set<EventId>, source: EpisodeId, target: EpisodeId, e: EventId)
    requires ListFits(t0, source) && source != target
    requires t.home == Rehomed(t0.home, moved, target) && AfterMoves(t0.episodes, t.episodes, moved, source, target)
    requires e in t0.episodes[source].events && e !in moved
    ensures e in t.home && t.home[e] == source && source in t.episodes
    ensures t.episodes[source].scope == t0.episodes[source].scope && t.episodes[target].scope == t0.episodes[target].scope
  {
    InIds(t0.episodes[source].events, e);
  }

  lemma OneMoreHome(home: map<EventId, EpisodeId>, moved: set<EventId>, target: EpisodeId, e: EventId)
    requires e in home
    ensures Rehomed(home, moved, target)[e := target] == Rehomed(home, moved + {e}, target)
  {
  }

  lemma OneMoreMove(before: map<EpisodeId, Episode>, mid: map<EpisodeId, Episode>, rank: Rank, moved: set<EventId>,
                    source: EpisodeId, target: EpisodeId, e: EventId)
    requires source != target && AfterMoves(before, mid, moved, source, target) && source in mid
    ensures AfterMoves(before, EpisodesAfterMove(mid, rank, e, source, target), moved + {e}, source, target)
  {
    var after := EpisodesAfterMove(mid, rank, e, source, target);
    MoveAtSource(mid, rank, e, source, target);
    assert SourceAfter(before[source], after, moved + {e}, source);
    MoveAtTarget(mid, rank, e, source, target);
    assert TargetAfter(before[target], after, moved + {e}, target);
    forall p | p != source && p != target ensures KeptAt(before, after, p) {
      assert KeptAt(before, mid, p);
      MoveElsewhere(mid, rank, e, source, target, p);
    }
  }

  /* ---------- refusals ---------- */

  ghost function SplitFailure(t: Tables, project: nat, id: EpisodeId, ids: seq<EventId>, events: Events): Option<RepairError> {
    var links := if id in t.episodes then t.episodes[id].events else [];
    var fault := FirstFault(events, links, ids);
    if fault == Some(RequiresEventIds) || fault == Some(DuplicateEventIds) then Some(SplitRefused(fault.value))
    else if id !in t.episodes || t.episodes[id].scope.project != project then Some(ProjectMismatch)
    else if t.episodes[id].status != Sealed then Some(SplitRequiresSealedSource)
    else if fault.Some? then Some(SplitRefused(fault.value))
    else if Chosen(links, ids) == [] || Chosen(links, ids)[0] !in events then Some(EventNotFound)
    else None
  }

  ghost function MergeFailure(t: Tables, project: nat, source: EpisodeId, target: EpisodeId): Option<RepairError> {
    if source == target then Some(MergeSourceEqualsTarget)
    else if source !in t.episodes || target !in t.episodes
            || t.episodes[source].scope.project != project || t.episodes[target].scope.project != project then Some(ProjectMismatch)
    else if t.episodes[source].scope != t.episodes[target].scope then Some(MergeScopeMismatch)
    else None
  }

  ghost function MoveFailure(t: Tables, project: nat, e: EventId, target: EpisodeId): Option<RepairError>
    requires Consistent(t)
  {
    if e in t.home && t.home[e] == target then Some(MoveSourceEqualsTarget)
    else if e !in t.home || target !in t.episodes
            || t.episodes[t.home[e]].scope.project != project || t.episodes[target].scope.project != project then Some(ProjectMismatch)
    else if t.episodes[t.home[e]].scope != t.episodes[target].scope then Some(MoveScopeMismatch)
    else None
  }

  /* ---------- splitting ---------- */

  /** The selected links, in the order of the episode. */
  function Chosen(links: seq<EventId>, ids: seq<EventId>): (r: seq<EventId>)
    ensures forall e :: e in r <==> e in links && e in ids
    ensures Distinct(links) ==> Distinct(r)
  {
    if links == [] then []
    else
      var init, last := links[..|links| - 1], links[|links| - 1];
      assert links == init + [last];
      assert forall x :: x in links <==> x in init || x == last;
      DistinctOneMore(init, last);
      DistinctOneMore(Chosen(init, ids), last);
      Chosen(init, ids) + if last in ids then [last] else []
  }

  lemma AcceptedShape(events: Events, links: seq<EventId>, ids: seq<EventId>)
    requires Accepted(events, links, ids) && Distinct(links)
    ensures Ids(Chosen(links, ids)) == Ids(ids) && Ids(ids) != {} && !(Ids(links) <= Ids(ids))
  {
    assert ids[0] in Ids(ids);
    assert forall e :: e in ids ==> e in Ids(ids);
    BothPartsStand(events, links, ids);
    var e :| e in links && e !in ids;
    assert e in Ids(links) && e !in Ids(ids);
  }

  lemma NewEpisodeIsConsistent(t: Tables, created: EpisodeId, scope: Scope)
    requires Consistent(t) && created !in t.episodes
    ensures Consistent(Tables(t.home, t.episodes[created := Episode(scope, Open, [])]))
  {
    var u := Tables(t.home, t.episodes[created := Episode(scope, Open, [])]);
    forall p ensures ListFits(u, p) {
      assert ListFits(t, p);
    }
  }

  lemma StatusIsConsistent(t: Tables, p: EpisodeId, status: Status)
    requires Consistent(t) && p in t.episodes
    ensures Consistent(Tables(t.home, t.episodes[p := t.episodes[p].(status := status)]))
  {
    var u := Tables(t.home, t.episodes[p := t.episodes[p].(status := status)]);
    forall q ensures ListFits(u, q) {
      assert ListFits(t, q);
    }
  }
}
