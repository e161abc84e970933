/** Grouping the events of an episode into logical turns. */
module EpisodeTurns {
  import opened Options

  type EventId = nat

  datatype Role = User | NotUser

  datatype Event = Event(role: Role, turnId: Option<nat>, turnSeq: Option<int>, parent: Option<EventId>)

  datatype TurnKey = ById(id: nat) | BySeq(seqNo: int)

  /** A linked event; the event itself may be gone. */
  datatype Pair = Pair(id: EventId, event: Option<Event>)

  function TurnKeyFor(e: Event): Option<TurnKey> {
    if e.turnId.Some? then Some(ById(e.turnId.value))
    else if e.turnSeq.Some? then Some(BySeq(e.turnSeq.value))
    else None
  }

  function KeyOf(p: Pair): Option<TurnKey> {
    if p.event.Some? then TurnKeyFor(p.event.value) else None
  }

  predicate FromUser(p: Pair) {
    p.event.Some? && p.event.value.role == User
  }

  /** The first key named in a turn. */
  function TurnKeyOf(turn: seq<Pair>): Option<TurnKey> {
    if turn == [] then None
    else
      var before := TurnKeyOf(turn[..|turn| - 1]);
      if before.Some? then before else KeyOf(turn[|turn| - 1])
  }

  predicate HasUser(turn: seq<Pair>) {
    exists i :: 0 <= i < |turn| && FromUser(turn[i])
  }

  /** The event cannot belong to the turn: it names another turn, or it is a second user message. */
  predicate Breaks(turn: seq<Pair>, p: Pair) {
    || (TurnKeyOf(turn).Some? && KeyOf(p).Some? && TurnKeyOf(turn) != KeyOf(p))
    || (FromUser(p) && HasUser(turn))
  }

  function Turns(ps: seq<Pair>): (ts: seq<seq<Pair>>)
    ensures ps == [] <==> ts == []
    ensures forall k :: 0 <= k < |ts| ==> ts[k] != []
  {
    if ps == [] then []
    else
      var ts, p := Turns(ps[..|ps| - 1]), ps[|ps| - 1];
      if ts == [] || Breaks(ts[|ts| - 1], p) then ts + [[p]]
      else ts[..|ts| - 1] + [ts[|ts| - 1] + [p]]
  }

  method LogicalTurnsFromPairs(pairs: seq<Pair>) returns (groups: seq<seq<Pair>>)
    ensures groups == Turns(pairs)
  {
    groups := [];
    var current: seq<Pair> := [];
    var currentTurnKey: Option<TurnKey> := None;
    var currentHasUser := false;
    for k := 0 to |pairs|
      invariant k == 0 ==> current == [] && groups == []
      invariant k > 0 ==> current != [] && Turns(pairs[..k]) == groups + [current]
      invariant currentTurnKey == TurnKeyOf(current) && currentHasUser == HasUser(current)
    {
      var pair := pairs[k];
      NextPair(pairs, k, groups, current);
      var turnKey := if pair.event.Some? then TurnKeyFor(pair.event.value) else None;
      var explicitTurnChange := currentTurnKey.Some? && turnKey.Some? && currentTurnKey != turnKey;
      var roleBoundary := pair.event.Some? && pair.event.value.role == User && currentHasUser && !explicitTurnChange;
      if |current| > 0 && (explicitTurnChange || roleBoundary) {
        groups := groups + [current];
        current := [];
        currentTurnKey := None;
        currentHasUser := false;
      }
      OneMorePair(current, pair);
      current := current + [pair];
      if turnKey.Some? && currentTurnKey.None? {
        currentTurnKey := turnKey;
      }
      if pair.event.Some? && pair.event.value.role == User {
        currentHasUser := true;
      }
    }
    if |current| > 0 {
      groups := groups + [current];
    }
    assert pairs[..|pairs|] == pairs;
  }

  lemma NextPair(pairs: seq<Pair>, k: nat, groups: seq<seq<Pair>>, current: seq<Pair>)
    requires k < |pairs| && (k == 0 ==> groups == [] && current == [])
    requires k > 0 ==> current != [] && Turns(pairs[..k]) == groups + [current]
    ensures Turns(pairs[..k + 1]) ==
            if current == [] then [[pairs[k]]]
            else if Breaks(current, pairs[k]) then groups + [current] + [[pairs[k]]]
            else groups + [current + [pairs[k]]]
  {
    assert pairs[..k + 1][..k] == pairs[..k];
    assert current != [] ==> (groups + [current])[..|groups|] == groups;
  }

  lemma OneMorePair(turn: seq<Pair>, p: Pair)
    ensures TurnKeyOf(turn + [p]) == if TurnKeyOf(turn).Some? then TurnKeyOf(turn) else KeyOf(p)
    ensures HasUser(turn + [p]) <==> HasUser(turn) || FromUser(p)
  {
    assert (turn + [p])[..|turn|] == turn;
    if HasUser(turn) {
      var i :| 0 <= i < |turn| && FromUser(turn[i]);
      assert FromUser((turn + [p])[i]);
    }
    if FromUser(p) {
      assert FromUser((turn + [p])[|turn|]);
    }
  }

  /* ---------- what a turn is ---------- */

  function Flatten(ts: seq<seq<Pair>>): seq<Pair> {
    if ts == [] then [] else Flatten(ts[..|ts| - 1]) + ts[|ts| - 1]
  }

  /** All keys named in the turn agree, and at most one of its events comes from the user. */
  ghost predicate Coherent(turn: seq<Pair>) {
    && (forall i :: 0 <= i < |turn| && KeyOf(turn[i]).Some? ==> KeyOf(turn[i]) == TurnKeyOf(turn))
    && forall i, j :: 0 <= i < j < |turn| ==> !(FromUser(turn[i]) && FromUser(turn[j]))
  }

  /** Neighbouring turns could not have been one. */
  ghost predicate Separate(ts: seq<seq<Pair>>, k: int) {
    0 < k < |ts| && ts[k] != [] ==> Breaks(ts[k - 1], ts[k][0])
  }

  lemma CoherentGrows(turn: seq<Pair>, p: Pair)
    requires Coherent(turn) && !Breaks(turn, p)
    ensures Coherent(turn + [p])
  {
    var more := turn + [p];
    OneMorePair(turn, p);
    forall i | 0 <= i < |more| && KeyOf(more[i]).Some? ensures KeyOf(more[i]) == TurnKeyOf(more) {
      if i < |turn| {
        assert more[i] == turn[i];
      }
    }
  }

  lemma SingleCoherent(p: Pair)
    ensures Coherent([p])
  {
    OneMorePair([], p);
    assert [] + [p] == [p];
  }

  /** Turns lose nothing and keep the order. */
  lemma {:induction false} TurnsKeepPairs(ps: seq<Pair>)
    ensures Flatten(Turns(ps)) == ps
  {
    if ps == [] {
    } else {
      var ts, p := Turns(ps[..|ps| - 1]), ps[|ps| - 1];
      TurnsKeepPairs(ps[..|ps| - 1]);
      if ts == [] || Breaks(ts[|ts| - 1], p) {
        assert (ts + [[p]])[..|ts|] == ts;
      } else {
        var more := ts[..|ts| - 1] + [ts[|ts| - 1] + [p]];
        assert more[..|ts| - 1] == ts[..|ts| - 1];
      }
    }
  }

  lemma {:induction false} TurnsAreCoherent(ps: seq<Pair>)
    ensures forall k :: 0 <= k < |Turns(ps)| ==> Coherent(Turns(ps)[k])
  {
    if ps == [] {
    } else {
      var ts, p := Turns(ps[..|ps| - 1]), ps[|ps| - 1];
      TurnsAreCoherent(ps[..|ps| - 1]);
      if ts == [] || Breaks(ts[|ts| - 1], p) {
        SingleCoherent(p);
      } else {
        CoherentGrows(ts[|ts| - 1], p);
      }
    }
  }

  lemma {:induction false} FlattenContains(ts: seq<seq<Pair>>, k: nat, p: Pair)
    requires k < |ts| && p in ts[k]
    ensures p in Flatten(ts)
  {
    if k < |ts| - 1 {
      FlattenContains(ts[..|ts| - 1], k, p);
    }
  }

  lemma {:induction false} InSomeTurn(ts: seq<seq<Pair>>, p: Pair)
    requires p in Flatten(ts)
    ensures exists k: nat :: k < |ts| && p in ts[k]
  {
    if p in ts[|ts| - 1] {
    } else {
      InSomeTurn(ts[..|ts| - 1], p);
      var k: nat :| k < |ts| - 1 && p in ts[..|ts| - 1][k];
      assert p in ts[k];
    }
  }

  /** A turn is as long as it can be. */
  lemma {:induction false} TurnsAreSeparate(ps: seq<Pair>, k: int)
    ensures Separate(Turns(ps), k)
  {
    if ps == [] {
    } else {
      var ts := Turns(ps[..|ps| - 1]);
      TurnsAreSeparate(ps[..|ps| - 1], k);
    }
  }

  /* ---------- the same in terms of the events ---------- */

  /** Each names a turn and not the same one.  A turn's id goes before its number; an id and a number never agree. */
  predicate NameDifferentTurns(e: Event, f: Event) {
    if e.turnId.Some? && f.turnId.Some? then e.turnId != f.turnId
    else if e.turnId.Some? then f.turnSeq.Some?
    else if f.turnId.Some? then e.turnSeq.Some?
    else e.turnSeq.Some? && f.turnSeq.Some? && e.turnSeq != f.turnSeq
  }

  lemma KeysDifferIff(p: Pair, q: Pair)
    ensures KeyOf(p).Some? && KeyOf(q).Some? && KeyOf(p) != KeyOf(q) <==>
            p.event.Some? && q.event.Some? && NameDifferentTurns(p.event.value, q.event.value)
  {
  }

  /** No two events of a turn name different turns, and no two come from the user. */
  lemma TurnMatesAgree(ps: seq<Pair>, k: nat, i: nat, j: nat)
    requires k < |Turns(ps)| && i < j < |Turns(ps)[k]|
    requires Turns(ps)[k][i].event.Some? && Turns(ps)[k][j].event.Some?
    ensures var e, f := Turns(ps)[k][i].event.value, Turns(ps)[k][j].event.value;
            !NameDifferentTurns(e, f) && !(e.role.User? && f.role.User?)
  {
    TurnsAreCoherent(ps);
    assert Coherent(Turns(ps)[k]);
    KeysDifferIff(Turns(ps)[k][i], Turns(ps)[k][j]);
    assert FromUser(Turns(ps)[k][i]) <==> Turns(ps)[k][i].event.value.role.User?;
  }

  lemma {:induction false} TurnKeyIsNamed(turn: seq<Pair>)
    requires TurnKeyOf(turn).Some?
    ensures exists i :: 0 <= i < |turn| && KeyOf(turn[i]) == TurnKeyOf(turn)
  {
    var last := |turn| - 1;
    if TurnKeyOf(turn[..last]).Some? {
      TurnKeyIsNamed(turn[..last]);
      var i :| 0 <= i < last && KeyOf(turn[..last][i]) == TurnKeyOf(turn[..last]);
      assert KeyOf(turn[i]) == TurnKeyOf(turn);
    } else {
      assert KeyOf(turn[last]) == TurnKeyOf(turn);
    }
  }

  /** The first event of a turn names another turn than an event of the one before, or both have a user's words. */
  lemma TurnsPartFor(ps: seq<Pair>, k: nat)
    requires 0 < k < |Turns(ps)|
    ensures Turns(ps)[k] != [] && Turns(ps)[k][0].event.Some?
    ensures exists q ::
              && q in Turns(ps)[k - 1] && q.event.Some?
              && var e, f := q.event.value, Turns(ps)[k][0].event.value;
                 NameDifferentTurns(e, f) || (e.role.User? && f.role.User?)
  {
    TurnsAreSeparate(ps, k);
    var before, p := Turns(ps)[k - 1], Turns(ps)[k][0];
    if TurnKeyOf(before).Some? && KeyOf(p).Some? && TurnKeyOf(before) != KeyOf(p) {
      TurnKeyIsNamed(before);
      var i :| 0 <= i < |before| && KeyOf(before[i]) == TurnKeyOf(before);
      KeysDifferIff(before[i], p);
      assert before[i] in before;
    } else {
      var i :| 0 <= i < |before| && FromUser(before[i]);
      assert before[i] in before;
    }
  }
}
